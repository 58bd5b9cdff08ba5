/** The hash behind the buckets, and the buckets of the keys that memo tables have. */
module Murmur {

  const C1: bv32 := 0xcc9e2d51
  const C2: bv32 := 0x1b873593

  /** A character of a key is a byte. */
  predicate IsByte(c: char) { c as int < 256 }

  predicate IsBytes(s: string) { forall c <- s :: IsByte(c) }

  function Byte(c: char): bv32
    requires IsByte(c)
  {
    c as bv32
  }

  function Rotate15(k: bv32): bv32 { (k << 15) | (k >> 17) }

  function Rotate13(k: bv32): bv32 { (k << 13) | (k >> 19) }

  function Scramble(k: bv32): bv32 { Rotate15(k * C1) * C2 }

  /** Four bytes as a little-endian number. */
  function Chunk(a: char, b: char, c: char, d: char): bv32
    requires IsByte(a) && IsByte(b) && IsByte(c) && IsByte(d)
  {
    Byte(a) | (Byte(b) << 8) | (Byte(c) << 16) | (Byte(d) << 24)
  }

  function Mix(h: bv32, k: bv32): bv32 { Rotate13(h ^ Scramble(k)) * 5 + 0xe6546b64 }

  /** The one to three bytes behind the last whole chunk. */
  function Rest(rest: string): bv32
    requires 0 < |rest| < 4 && IsBytes(rest)
  {
    var high := if |rest| == 3 then Byte(rest[2]) << 16 else 0;
    var middle := if |rest| >= 2 then Byte(rest[1]) << 8 else 0;
    high ^ middle ^ Byte(rest[0])
  }

  function Tail(h: bv32, rest: string): bv32
    requires |rest| < 4 && IsBytes(rest)
  {
    if rest == [] then h else h ^ Scramble(Rest(rest))
  }

  function Chunks(h: bv32, key: string): bv32
    requires IsBytes(key)
    decreases |key|
  {
    if |key| < 4 then Tail(h, key) else Chunks(Mix(h, Chunk(key[0], key[1], key[2], key[3])), key[4..])
  }

  function Finish(h0: bv32): bv32 {
    var h1 := (h0 ^ (h0 >> 16)) * 0x85ebca6b;
    var h2 := (h1 ^ (h1 >> 13)) * 0xc2b2ae35;
    h2 ^ (h2 >> 16)
  }

  predicate IsKey(key: string) { |key| < 0x1_0000_0000 && IsBytes(key) }

  function Hash(key: string, seed: bv32): bv32
    requires IsKey(key)
  {
    Finish(Chunks(seed, key) ^ |key| as bv32)
  }

  /** The loop over whole chunks, and what follows it. */
  method MurmurHash32(key: string, seed: bv32) returns (h: bv32)
    requires IsKey(key)
    ensures h == Hash(key, seed)
  {
    hide Mix, Chunk, Rest, Scramble, Finish;
    h := seed;
    var i := 0;
    while i < |key| / 4
      invariant i <= |key| / 4
      invariant Chunks(h, key[4 * i..]) == Chunks(seed, key)
    {
      assert key[4 * i..][4..] == key[4 * (i + 1)..];
      h := Mix(h, Chunk(key[4 * i], key[4 * i + 1], key[4 * i + 2], key[4 * i + 3]));
      i := i + 1;
    }
    h := Finish(Tail(h, key[4 * i..]) ^ |key| as bv32);
  }

  // ---------- the keys of memo tables ----------

  lemma NextChunk(h: bv32, key: string, w: bv32, rest: string)
    requires |key| >= 4 && IsBytes(key) && key[4..] == rest && Chunk(key[0], key[1], key[2], key[3]) == w
    ensures IsBytes(rest) && Chunks(h, key) == Chunks(Mix(h, w), rest)
  {
    hide Mix, Chunk;
  }

  lemma LastChunk(h: bv32, key: string)
    requires 0 < |key| < 4 && IsBytes(key)
    ensures Chunks(h, key) == h ^ Scramble(Rest(key))
  {
    hide Mix, Chunk, Rest, Scramble;
  }

  lemma Letters1()
    ensures Byte('A') == 0x41 && Byte('B') == 0x42 && Byte('C') == 0x43 && Byte('E') == 0x45 && Byte('F') == 0x46 && Byte('I') == 0x49
    ensures Byte('P') == 0x50 && Byte('R') == 0x52 && Byte('T') == 0x54 && Byte('a') == 0x61 && Byte('c') == 0x63 && Byte('d') == 0x64
  {
  }

  lemma Letters2()
    ensures Byte('e') == 0x65 && Byte('f') == 0x66 && Byte('i') == 0x69 && Byte('l') == 0x6c && Byte('o') == 0x6f && Byte('p') == 0x70
    ensures Byte('r') == 0x72 && Byte('s') == 0x73 && Byte('t') == 0x74 && Byte('u') == 0x75 && Byte('x') == 0x78 && Byte('y') == 0x79
  {
  }

  lemma PredictExprText()
    ensures Chunk('P', 'r', 'e', 'd') == 0x64657250 && Chunk('i', 'c', 't', 'E') == 0x45746369 && Rest("xpr") == 0x727078
  {
    hide Byte;
    Letters1();
    Letters2();
  }

  lemma PredictExprMixed()
    ensures Mix(31, 0x64657250) == 0xf6c149fe && Mix(0xf6c149fe, 0x45746369) == 0x38aa6db6
    ensures 0x38aa6db6 ^ Scramble(0x727078) == 0x82e1b069 && Finish(0x82e1b069 ^ 11) == 0x7336513c
  {
  }

  lemma PredictExprHash()
    ensures Hash("PredictExpr", 31) == 0x7336513c
  {
    hide Byte, Chunk, Rest, Chunks, Mix, Scramble, Finish;
    PredictExprText();
    PredictExprMixed();
    NextChunk(31, "PredictExpr", 0x64657250, "ictExpr");
    NextChunk(0xf6c149fe, "ictExpr", 0x45746369, "xpr");
    LastChunk(0x38aa6db6, "xpr");
  }

  lemma AfterExprText()
    ensures Chunk('A', 'f', 't', 'e') == 0x65746641 && Chunk('r', 'E', 'x', 'p') == 0x70784572 && Rest("r") == 0x72
  {
    hide Byte;
    Letters1();
    Letters2();
  }

  lemma AfterExprMixed()
    ensures Mix(31, 0x65746641) == 0x4e829da0 && Mix(0x4e829da0, 0x70784572) == 0x56f29000
    ensures 0x56f29000 ^ Scramble(0x72) == 0x5e10c528 && Finish(0x5e10c528 ^ 9) == 0x6051501a
  {
  }

  lemma AfterExprHash()
    ensures Hash("AfterExpr", 31) == 0x6051501a
  {
    hide Byte, Chunk, Rest, Chunks, Mix, Scramble, Finish;
    AfterExprText();
    AfterExprMixed();
    NextChunk(31, "AfterExpr", 0x65746641, "rExpr");
    NextChunk(0x4e829da0, "rExpr", 0x70784572, "r");
    LastChunk(0x56f29000, "r");
  }

  lemma BodyExprsText()
    ensures Chunk('B', 'o', 'd', 'y') == 0x79646f42 && Chunk('E', 'x', 'p', 'r') == 0x72707845 && Rest("s") == 0x73
  {
    hide Byte;
    Letters1();
    Letters2();
  }

  lemma BodyExprsMixed()
    ensures Mix(31, 0x79646f42) == 0x66f948e1 && Mix(0x66f948e1, 0x72707845) == 0xa9b493fe
    ensures 0xa9b493fe ^ Scramble(0x73) == 0x65817c7b && Finish(0x65817c7b ^ 9) == 0x667c98a5
  {
  }

  lemma BodyExprsHash()
    ensures Hash("BodyExprs", 31) == 0x667c98a5
  {
    hide Byte, Chunk, Rest, Chunks, Mix, Scramble, Finish;
    BodyExprsText();
    BodyExprsMixed();
    NextChunk(31, "BodyExprs", 0x79646f42, "Exprs");
    NextChunk(0x66f948e1, "Exprs", 0x72707845, "s");
    LastChunk(0xa9b493fe, "s");
  }

  lemma RestPairsText()
    ensures Chunk('R', 'e', 's', 't') == 0x74736552 && Chunk('P', 'a', 'i', 'r') == 0x72696150 && Rest("s") == 0x73
  {
    hide Byte;
    Letters1();
    Letters2();
  }

  lemma RestPairsMixed()
    ensures Mix(31, 0x74736552) == 0xb4d2e115 && Mix(0xb4d2e115, 0x72696150) == 0xb50f8e6f
    ensures 0xb50f8e6f ^ Scramble(0x73) == 0x793a61ea && Finish(0x793a61ea ^ 9) == 0x89977ee4
  {
  }

  lemma RestPairsHash()
    ensures Hash("RestPairs", 31) == 0x89977ee4
  {
    hide Byte, Chunk, Rest, Chunks, Mix, Scramble, Finish;
    RestPairsText();
    RestPairsMixed();
    NextChunk(31, "RestPairs", 0x74736552, "Pairs");
    NextChunk(0xb4d2e115, "Pairs", 0x72696150, "s");
    LastChunk(0xb50f8e6f, "s");
  }

  lemma IfTrueText()
    ensures Chunk('I', 'f', 'T', 'r') == 0x72546649 && Rest("ue") == 0x6575
  {
    hide Byte;
    Letters1();
    Letters2();
  }

  lemma IfTrueMixed()
    ensures Mix(31, 0x72546649) == 0x7ed3d20e
    ensures 0x7ed3d20e ^ Scramble(0x6575) == 0xcdeb7501 && Finish(0xcdeb7501 ^ 6) == 0x55714f71
  {
  }

  lemma IfTrueHash()
    ensures Hash("IfTrue", 31) == 0x55714f71
  {
    hide Byte, Chunk, Rest, Chunks, Mix, Scramble, Finish;
    IfTrueText();
    IfTrueMixed();
    NextChunk(31, "IfTrue", 0x72546649, "ue");
    LastChunk(0x7ed3d20e, "ue");
  }

  lemma TrueClauseText()
    ensures Chunk('T', 'r', 'u', 'e') == 0x65757254 && Chunk('C', 'l', 'a', 'u') == 0x75616c43 && Rest("se") == 0x6573
  {
    hide Byte;
    Letters1();
    Letters2();
  }

  lemma TrueClauseMixed()
    ensures Mix(31, 0x65757254) == 0x76417e95 && Mix(0x76417e95, 0x75616c43) == 0x18f1a811
    ensures 0x18f1a811 ^ Scramble(0x6573) == 0xdfab5a44 && Finish(0xdfab5a44 ^ 10) == 0x5b3c8b16
  {
  }

  lemma TrueClauseHash()
    ensures Hash("TrueClause", 31) == 0x5b3c8b16
  {
    hide Byte, Chunk, Rest, Chunks, Mix, Scramble, Finish;
    TrueClauseText();
    TrueClauseMixed();
    NextChunk(31, "TrueClause", 0x65757254, "Clause");
    NextChunk(0x76417e95, "Clause", 0x75616c43, "se");
    LastChunk(0x18f1a811, "se");
  }

  lemma FalseClauseText()
    ensures Chunk('F', 'a', 'l', 's') == 0x736c6146 && Chunk('e', 'C', 'l', 'a') == 0x616c4365 && Rest("use") == 0x657375
  {
    hide Byte;
    Letters1();
    Letters2();
  }

  lemma FalseClauseMixed()
    ensures Mix(31, 0x736c6146) == 0x6af97ee5 && Mix(0x6af97ee5, 0x616c4365) == 0x7f850dbe
    ensures 0x7f850dbe ^ Scramble(0x657375) == 0x26262c09 && Finish(0x26262c09 ^ 11) == 0xd433b39e
  {
  }

  lemma FalseClauseHash()
    ensures Hash("FalseClause", 31) == 0xd433b39e
  {
    hide Byte, Chunk, Rest, Chunks, Mix, Scramble, Finish;
    FalseClauseText();
    FalseClauseMixed();
    NextChunk(31, "FalseClause", 0x736c6146, "eClause");
    NextChunk(0x6af97ee5, "eClause", 0x616c4365, "use");
    LastChunk(0x7f850dbe, "use");
  }
}
