/** What is printed is read back. */
module RoundTrip {
  import opened Kson
  import opened Tokenizing
  import opened Reading

  // ---------- values and their texts ----------

  const NUL := 0 as char

  predicate NoEscape(s: string) { forall i | 0 <= i < |s| :: !StartsEscape(s[i..]) }

  /** Characters an identifier goes on with. */
  predicate GoesOn(s: string) { forall c <- s :: !IsSpace(c) && !IsStopWord(c) }

  predicate NameAfter(d: string, refused: string) { d != "" && GoesOn(d[1..]) && d[0] !in refused && d[0] != NUL }

  predicate IsOperator(d: string) {
    d == "-" || d == "+" || d == "*" || d == "/" || d == "<" || d == "<=" || d == ">" || d == ">="
  }

  predicate IsWord(d: string) {
    IsOperator(d)
    || (d != "" && IsLetter(d[0]) && GoesOn(d[1..]))
    || (|d| > 1 && d[0] == '-' && GoesOn(d[1..]) && !IsDigit(d[1]))
  }

  predicate IsSymbol(kind: SymbolKind, d: string) {
    match kind
    case Word => IsWord(d)
    case PrefixWord => NameAfter(d, "")
    case SuffixWord => NameAfter(d, "")
    case Variable => NameAfter(d, ".{[")
    case Identifier => NameAfter(d, ".{['")
    case SymString => '\'' !in d && NUL !in d
  }

  predicate ClosesVector(v: Value) { v == Sym(Word, ">") }

  /** The values whose texts are spelled as texts of their kind: names are names, a string holds no
      quotation mark, what is quoted is a list, a fixnum fits an int. */
  predicate Spelled(v: Value) {
    match v
    case Fixnum(n) => -0x8000_0000 <= n < 0x8000_0000
    case Flonum(_) => false
    case Str(s) => '"' !in s && NUL !in s
    case Sym(kind, d) => IsSymbol(kind, d)
    case Syntax(_) => true
    case Const(_) => true
    case List(items) => items != [] && forall v <- items :: Spelled(v)
    case Vector(items) => forall v <- items :: Spelled(v)
    case Wrapped(w, inner) =>
      Spelled(inner) && w != QuoteCell && w != QuasiCell && (w == QuoteList || w == QuasiList ==> inner.List?)
  }

  /** What the reader can build: no negative fixnum, no suffix word, and no word `>` directly in a
      vector, which it would close. */
  predicate Buildable(v: Value) {
    match v
    case Fixnum(n) => n >= 0
    case Flonum(_) => true
    case Str(_) => true
    case Sym(kind, _) => kind != SuffixWord
    case Syntax(_) => true
    case Const(_) => true
    case List(items) => forall v <- items :: Buildable(v)
    case Vector(items) => forall v <- items :: Buildable(v) && !ClosesVector(v)
    case Wrapped(_, inner) => Buildable(inner)
  }

  /** Values whose texts can be read. */
  predicate Legible(v: Value) { Spelled(v) && Buildable(v) }

  /** What a legible text means: a slot marker is the word for division, and escapes in strings
      are taken. */
  function AsRead(v: Value): (r: Value)
    ensures ClosesVector(r) <==> ClosesVector(v)
    ensures IsAtom(r) <==> IsAtom(v)
    ensures r.List? <==> v.List?
    ensures v.List? || v.Vector? ==> (r.List? || r.Vector?) && r.items == AllRead(v.items)
  {
    match v
    case Str(s) => Str(Unescape(s))
    case Syntax(m) => if m == GetSlot then Sym(Word, "/") else v
    case List(items) => List(AllRead(items))
    case Vector(items) => Vector(AllRead(items))
    case Wrapped(w, inner) => Wrapped(w, AsRead(inner))
    case Fixnum(_) => v
    case Flonum(_) => v
    case Sym(_, _) => v
    case Const(_) => v
  }

  function AllRead(items: seq<Value>): (r: seq<Value>)
    ensures |r| == |items|
  {
    if items == [] then [] else [AsRead(items[0])] + AllRead(items[1..])
  }

  /** The values whose text means them again, wherever it stands with something behind it. */
  predicate Readable(v: Value) {
    match v
    case Fixnum(n) => n >= 0
    case Flonum(_) => false
    case Str(s) => NoEscape(s)
    case Sym(kind, _) => kind != SuffixWord
    case Syntax(m) => m != GetSlot
    case Const(_) => true
    case List(items) => forall v <- items :: Readable(v)
    case Vector(items) => forall v <- items :: Readable(v) && !ClosesVector(v)
    case Wrapped(_, inner) => Readable(inner)
  }

  predicate IsAtom(v: Value) { v.Fixnum? || v.Flonum? || v.Str? || v.Sym? || v.Syntax? || v.Const? }

  /** A text that can be the last of all: the reader looks one or two characters further at a
      closing `>`, at short names and at some operators. */
  predicate EndsItself(v: Value) {
    match v
    case Sym(kind, d) =>
      if kind == Word then d != "-" && d != "+" && d != "/" && d != "<" && d != ">"
      else if kind == Variable || kind == Identifier then |d| > 1
      else true
    case Syntax(m) => m != Assign && m != GetSlot
    case Vector(_) => false
    case Wrapped(_, inner) => EndsItself(inner)
    case Fixnum(_) => true
    case Flonum(_) => true
    case Str(_) => true
    case Const(_) => true
    case List(_) => true
  }

  predicate SpaceOrEnd(tail: string) { tail == "" || (|tail| >= 2 && IsSpace(tail[0])) }

  predicate Followed(v: Value, tail: string) { SpaceOrEnd(tail) && (tail == "" ==> EndsItself(v)) }

  predicate AllSpace(s: string) { forall c <- s :: IsSpace(c) }

  // ---------- scanning ----------

  lemma {:induction false} ScansWord(d: string, tail: string)
    requires GoesOn(d) && SpaceOrEnd(tail)
    ensures WordEnd(d + tail) == |d|
  {
    if d == "" {
      assert d + tail == tail;
    } else {
      assert (d + tail)[1..] == d[1..] + tail;
      ScansWord(d[1..], tail);
    }
  }

  lemma {:induction false} ScansUpTo(d: string, q: char, tail: string)
    requires q !in d
    ensures Before(d + [q] + tail, q) == |d|
  {
    var t := d + [q] + tail;
    if d == "" {
      assert t[0] == q && Before(t, q) == 0;
    } else {
      var t1 := d[1..] + [q] + tail;
      assert t[1..] == t1 && t[0] == d[0] && d[0] in d;
      ScansUpTo(d[1..], q, tail);
      assert Before(t, q) == 1 + Before(t[1..], q);
    }
  }

  lemma {:induction false} ScansDigits(d: string, num: Number, tail: string)
    requires (forall c <- d :: IsDigit(c)) && SpaceOrEnd(tail)
    ensures ScanNumber(d + tail, Integer, num) == (num.(before := num.before + d), |d|)
  {
    if d == "" {
      assert d + tail == tail && num.before + d == num.before;
    } else {
      var t, num1 := d + tail, num.(before := num.before + [d[0]]);
      assert t[1..] == d[1..] + tail && t[0] == d[0] && d[0] in d;
      ScansDigits(d[1..], num1, tail);
      assert num1.before + d[1..] == num.before + d;
      assert ScanNumber(t[1..], Turn(Integer, t[0]), Take(num, Integer, t[0])) == (num.(before := num.before + d), |d| - 1);
    }
  }

  lemma {:induction false} UnescapeShortens(s: string)
    ensures |Unescape(s)| <= |s|
    ensures |Unescape(s)| == |s| ==> NoEscape(s)
    ensures NoEscape(s) ==> Unescape(s) == s
  {
    if s != "" {
      var used := if StartsEscape(s) then 2 else 1;
      UnescapeShortens(s[used..]);
      assert s[0..] == s;
      forall i | 1 <= i < |s| ensures s[1..][i - 1..] == s[i..] {
      }
      if used == 1 && NoEscape(s[1..]) {
        forall i | 0 <= i < |s| ensures !StartsEscape(s[i..]) {
          assert i > 0 ==> !StartsEscape(s[1..][i - 1..]);
        }
      }
      assert NoEscape(s) ==> NoEscape(s[1..]) by {
        forall i | 0 <= i < |s| - 1 ensures s[1..][i..] == s[i + 1..] {
        }
      }
    }
  }

  /** A string means itself if and only if it holds none of the three escapes. */
  lemma StringMeansItself(s: string)
    ensures Unescape(s) == s <==> NoEscape(s)
  {
    UnescapeShortens(s);
  }

  // ---------- one token ----------

  function AtomText(v: Value): string
    requires IsAtom(v) && !v.Flonum? && (v.Fixnum? ==> v.n >= 0)
  {
    match v
    case Fixnum(n) => Decimal(n)
    case Str(s) => "\"" + s + "\""
    case Sym(kind, d) => SymbolText(kind, d)
    case Syntax(m) => MarkerText(m)
    case Const(c) => ConstantText(c)
  }

  function AtomToken(v: Value): Token
    requires IsAtom(v) && !v.Flonum? && (v.Fixnum? ==> v.n >= 0)
  {
    match v
    case Fixnum(n) => NumberLiteral(Number(true, Decimal(n), "", true, ""))
    case Str(s) => StringLiteral(s)
    case Sym(kind, d) => if ClosesVector(v) then VectorEnd else Symbol(kind, d)
    case Syntax(m) => if m == GetSlot then Symbol(Word, "/") else SyntaxMarker(m)
    case Const(c) => Keyword(c)
  }

  lemma NumberLook(n: nat, tail: string)
    ensures var d, t := Decimal(n), Decimal(n) + tail;
      t[0] == d[0] && IsDigit(d[0]) && t[1..] == d[1..] + tail && !IsSpace(t[0]) && LookAt(t) == ScanNumeral
  {
    hide Decimal;
    var d, t := Decimal(n), Decimal(n) + tail;
    assert t[0] == d[0] && t[1..] == d[1..] + tail;
  }

  lemma NumberToken(n: nat, tail: string)
    requires SpaceOrEnd(tail)
    ensures NextToken(Decimal(n) + tail) == (NumberLiteral(Number(true, Decimal(n), "", true, "")), |Decimal(n)|)
  {
    hide LookAt, Decimal, IsSpace;
    var d, t := Decimal(n), Decimal(n) + tail;
    NumberLook(n, tail);
    ScansDigits(d[1..], FirstOf(t[0]), tail);
    assert [d[0]] + d[1..] == d;
  }

  lemma StringToken(s: string, tail: string)
    requires '"' !in s
    ensures NextToken("\"" + s + "\"" + tail) == (StringLiteral(s), |s| + 2)
  {
    var t := "\"" + s + "\"" + tail;
    assert t[0] == '"' && t[1..] == s + ['"'] + tail;
    ScansUpTo(s, '"', tail);
    assert t[1..1 + |s|] == s;
    assert LookAt(t) == ScanString;
  }

  lemma SymStringToken(d: string, tail: string)
    requires '\'' !in d
    ensures NextToken("$'" + d + "'" + tail) == (Symbol(SymString, d), |d| + 3)
  {
    var t := "$'" + d + "'" + tail;
    assert t[0] == '$' && t[1] == '\'' && t[1..][1..] == d + ['\''] + tail;
    ScansUpTo(d, '\'', tail);
    assert t[1..][1..1 + |d|] == d;
    assert LookAt(t) == ScanSymString;
  }

  /** An identifier after `skip` characters that say which kind it is. */
  lemma ScannedToken(t: string, kind: SymbolKind, skip: nat)
    requires t != "" && !IsSpace(t[0]) && LookAt(t) == ScanIdentifier(kind, skip) && skip <= |t|
    ensures var n := IdentifierLength(t[skip..]); NextToken(t) == (Symbol(kind, t[skip..skip + n]), skip + n)
  {
    hide LookAt, IsSpace, IdentifierLength;
  }

  lemma IdentifierIs(d: string, tail: string)
    requires d != "" && GoesOn(d[1..]) && SpaceOrEnd(tail)
    ensures IdentifierLength(d + tail) == |d|
  {
    hide GoesOn, SpaceOrEnd, WordEnd;
    assert (d + tail)[1..] == d[1..] + tail;
    ScansWord(d[1..], tail);
  }

  lemma IdentifierToken(lead: string, kind: SymbolKind, d: string, tail: string)
    requires d != "" && GoesOn(d[1..]) && SpaceOrEnd(tail)
    requires var t := lead + d + tail; !IsSpace(t[0]) && LookAt(t) == ScanIdentifier(kind, |lead|)
    ensures NextToken(lead + d + tail) == (Symbol(kind, d), |lead| + |d|)
  {
    hide LookAt, NextToken, IdentifierLength, GoesOn, SpaceOrEnd, IsSpace;
    var t := lead + d + tail;
    assert t[|lead|..] == d + tail && t[|lead|..|lead| + |d|] == d;
    ScannedToken(t, kind, |lead|);
    IdentifierIs(d, tail);
  }

  lemma FixedToken(t: string, tok: Token, len: nat)
    requires t != "" && !IsSpace(t[0]) && LookAt(t) == Fixed(tok, len) && len <= |t|
    ensures NextToken(t) == (tok, len)
  {
    hide LookAt;
  }

  lemma OperatorLook(d: string, tail: string)
    requires IsOperator(d) && Followed(Sym(Word, d), tail)
    ensures var t := d + tail; !IsSpace(t[0]) && LookAt(t) == Fixed(if d == ">" then VectorEnd else Symbol(Word, d), |d|)
  {
    hide IsStopWord;
    var t := d + tail;
    assert t[0] == d[0] && (tail != "" || |d| > 1 ==> t[1] == if |d| > 1 then d[1] else tail[0]);
  }

  lemma WordLook(d: string, tail: string)
    requires IsWord(d) && !IsOperator(d)
    ensures var t := d + tail; d != "" && GoesOn(d[1..]) && !IsSpace(t[0]) && LookAt(t) == ScanIdentifier(Word, 0)
  {
    hide IsStopWord, LookAtHash, LookAtDollar, LookAtAt;
    var t := d + tail;
    assert t[0] == d[0] && (d[0] == '-' ==> t[1] == d[1] && d[1] in d[1..]);
  }

  lemma WordToken(d: string, tail: string)
    requires IsWord(d) && Followed(Sym(Word, d), tail)
    ensures NextToken(d + tail) == (if d == ">" then VectorEnd else Symbol(Word, d), |d|)
  {
    hide NextToken, LookAt, IsWord, IsStopWord;
    if IsOperator(d) {
      OperatorLook(d, tail);
      FixedToken(d + tail, if d == ">" then VectorEnd else Symbol(Word, d), |d|);
    } else {
      WordLook(d, tail);
      assert "" + d + tail == d + tail;
      IdentifierToken("", Word, d, tail);
    }
  }

  lemma NoDotThird(d: string, tail: string)
    requires d != "" && GoesOn(d[1..]) && SpaceOrEnd(tail)
    ensures |d + tail| >= 2 ==> (d + tail)[1] != '.'
  {
    if |d| > 1 {
      assert (d + tail)[1] == d[1] && d[1] in d[1..];
    } else if tail != "" {
      assert (d + tail)[1] == tail[0];
    }
  }

  lemma DollarLook(t: string)
    requires |t| >= 3 && t[0] == '$' && t[1] !in ".{['" && t[2] != '.'
    ensures !IsSpace(t[0]) && LookAt(t) == ScanIdentifier(Identifier, 1)
  {
  }

  lemma AtLook(t: string)
    requires |t| >= 3 && t[0] == '@' && t[1] !in ".{[" && t[2] != '.'
    ensures !IsSpace(t[0]) && LookAt(t) == ScanIdentifier(Variable, 1)
  {
  }

  lemma BangLook(t: string)
    requires t != "" && t[0] == '!'
    ensures !IsSpace(t[0]) && LookAt(t) == ScanIdentifier(PrefixWord, 1)
  {
  }

  lemma NameLook(kind: SymbolKind, d: string, tail: string)
    requires kind == PrefixWord || kind == Variable || kind == Identifier
    requires IsSymbol(kind, d) && Followed(Sym(kind, d), tail)
    ensures var t := SymbolText(kind, d) + tail; !IsSpace(t[0]) && LookAt(t) == ScanIdentifier(kind, 1)
  {
    hide LookAt, IsSpace, GoesOn, SpaceOrEnd;
    var lead, rest := SymbolText(kind, d)[..1], d + tail;
    var t := SymbolText(kind, d) + tail;
    assert t == lead + rest && rest[0] == d[0];
    NoDotThird(d, tail);
    if kind == PrefixWord {
      BangLook(t);
    } else if kind == Variable {
      assert t[2] == rest[1];
      AtLook(t);
    } else {
      assert t[2] == rest[1];
      DollarLook(t);
    }
  }

  lemma NameToken(kind: SymbolKind, d: string, tail: string)
    requires kind == PrefixWord || kind == Variable || kind == Identifier
    requires IsSymbol(kind, d) && Followed(Sym(kind, d), tail)
    ensures NextToken(SymbolText(kind, d) + tail) == (Symbol(kind, d), |SymbolText(kind, d)|)
  {
    hide NextToken, LookAt, GoesOn;
    NameLook(kind, d, tail);
    IdentifierToken(if kind == PrefixWord then "!" else if kind == Variable then "@" else "$", kind, d, tail);
  }

  lemma SymbolToken(kind: SymbolKind, d: string, tail: string)
    requires IsSymbol(kind, d) && kind != SuffixWord && Followed(Sym(kind, d), tail)
    ensures NextToken(SymbolText(kind, d) + tail) == (AtomToken(Sym(kind, d)), |SymbolText(kind, d)|)
  {
    hide NextToken;
    if kind == Word {
      WordToken(d, tail);
    } else if kind == SymString {
      SymStringToken(d, tail);
    } else {
      NameToken(kind, d, tail);
    }
  }

  lemma MarkerToken(m: Marker, tail: string)
    requires Followed(Syntax(m), tail)
    ensures NextToken(MarkerText(m) + tail) == (AtomToken(Syntax(m)), |MarkerText(m)|)
  {
    if m == GetSlot {
      WordToken("/", tail);
    } else {
      var t := MarkerText(m) + tail;
      assert t[0] == MarkerText(m)[0];
      FixedToken(t, SyntaxMarker(m), |MarkerText(m)|);
    }
  }

  lemma ConstantToken(c: Constant, tail: string)
    ensures NextToken(ConstantText(c) + tail) == (Keyword(c), |ConstantText(c)|)
  {
    var t := ConstantText(c) + tail;
    assert t[0] == '#' && t[1] == ConstantText(c)[1] && t[2] == ConstantText(c)[2];
    assert LookAt(t) == Fixed(Keyword(c), |ConstantText(c)|);
  }

  lemma AtomIsOneToken(v: Value, tail: string)
    requires IsAtom(v) && Legible(v) && Followed(v, tail)
    ensures NextToken(AtomText(v) + tail) == (AtomToken(v), |AtomText(v)|)
  {
    match v
    case Fixnum(n) => NumberToken(n, tail);
    case Str(s) => StringToken(s, tail);
    case Sym(kind, d) => SymbolToken(kind, d, tail);
    case Syntax(m) => MarkerToken(m, tail);
    case Const(c) => ConstantToken(c, tail);
  }

  lemma WrapperLook(w: WrapperKind, more: string)
    requires w != QuoteCell && w != QuasiCell && more != ""
    requires w == QuoteList || w == QuasiList ==> |more| >= 2 && more[0] == '['
    ensures var t := WrapperText(w) + more; !IsSpace(t[0]) && LookAt(t) == Fixed(Wrapper(w), |WrapperText(w)|)
  {
    hide IsStopWord, LookAtHash;
    var t, lead := WrapperText(w) + more, WrapperText(w);
    assert t[0] == lead[0] && t[1] == if |lead| > 1 then lead[1] else more[0];
    assert |lead| > 2 ==> t[2] == lead[2];
  }

  lemma WrapperToken(w: WrapperKind, more: string)
    requires w != QuoteCell && w != QuasiCell && more != ""
    requires w == QuoteList || w == QuasiList ==> |more| >= 2 && more[0] == '['
    ensures NextToken(WrapperText(w) + more) == (Wrapper(w), |WrapperText(w)|)
  {
    hide NextToken, LookAt;
    WrapperLook(w, more);
    FixedToken(WrapperText(w) + more, Wrapper(w), |WrapperText(w)|);
  }

  // ---------- reading on ----------

  lemma ReadsOne(t: string, s: Stacks, tok: Token, n: nat, s1: Stacks)
    requires NextToken(t) == (tok, n) && n <= |t| && !EndsText(tok) && Read(s, tok) == (Finished, s1)
    ensures Parse(t, s) == Parse(t[n..], s1)
  {
    hide NextToken, Read;
    TokenAdvances(t);
  }

  lemma {:induction false} SkipsSpaces(sp: string, t: string, s: Stacks)
    requires AllSpace(sp)
    ensures Parse(sp + t, s) == Parse(t, s)
  {
    hide Read, TokenAt;
    if sp == "" {
      assert sp + t == t;
    } else {
      SkipsSpaces(sp[1..], t, s);
      var u := sp + t;
      assert u[1..] == sp[1..] + t && u[0] == sp[0] && sp[0] in sp;
      var (tok, n) := NextToken(u[1..]);
      assert NextToken(u) == (tok, n + 1) && u[n + 1..] == u[1..][n..];
      TokenAdvances(u[1..]);
    }
  }

  lemma {:induction false} PaddingIsSpace(depth: nat, pad: string)
    requires AllSpace(pad)
    ensures AllSpace(Padding(depth, pad))
  {
    if depth > 0 {
      PaddingIsSpace(depth - 1, pad);
    }
  }

  predicate InVector(s: Stacks) { s.builders != [] && s.builders[|s.builders| - 1].VectorBuilder? }

  predicate InSequence(s: Stacks) { s.builders != [] && !s.builders[|s.builders| - 1].WrapperBuilder? }

  /** A place where the value can stand: an atom not at the top of a text, and `>` not directly in a
      vector. */
  predicate CanStand(v: Value, s: Stacks) {
    (s.builders != [] || !IsAtom(v)) && !(ClosesVector(v) && InVector(s))
  }

  /** The items read into the list or vector on top. */
  function AddAll(s: Stacks, items: seq<Value>): (r: Stacks)
    requires InSequence(s)
    ensures InSequence(r) && |r.builders| == |s.builders| && InVector(r) == InVector(s)
    decreases |items|
  {
    if items == [] then s else AddAll(AddValue(s, items[0]), items[1..])
  }

  lemma {:induction false} AddsAll(s: Stacks, items: seq<Value>)
    requires InSequence(s)
    ensures var b, top := s.builders[|s.builders| - 1], |s.builders| - 1;
      AddAll(s, items) == s.(builders := s.builders[top := b.(items := b.items + items)])
    decreases |items|
  {
    var b, top := s.builders[|s.builders| - 1], |s.builders| - 1;
    if items == [] {
      assert b.items + items == b.items && s.builders[top := b] == s.builders;
    } else {
      var s1 := AddValue(s, items[0]);
      AddsAll(s1, items[1..]);
      assert b.items + [items[0]] + items[1..] == b.items + items;
      assert s1.builders[top := b.(items := b.items + items)] == s.builders[top := b.(items := b.items + items)];
    }
  }

  lemma ReadsAtom(v: Value, tail: string, s: Stacks)
    requires IsAtom(v) && Legible(v) && Followed(v, tail) && CanStand(v, s)
    ensures Parse(AtomText(v) + tail, s) == Parse(tail, AddValue(s, AsRead(v)))
  {
    hide NextToken;
    var t := AtomText(v) + tail;
    AtomIsOneToken(v, tail);
    ReadsAs(v, s);
    ReadsOne(t, s, AtomToken(v), |AtomText(v)|, AddValue(s, AsRead(v)));
    assert t[|AtomText(v)|..] == tail;
  }

  lemma ReadsAs(v: Value, s: Stacks)
    requires IsAtom(v) && Legible(v) && CanStand(v, s)
    ensures !EndsText(AtomToken(v)) && Read(s, AtomToken(v)) == (Finished, AddValue(s, AsRead(v)))
  {
    hide AddValue, ExitTop;
    match v
    case Fixnum(n) => DecimalReadsBack(n);
    case Str(_) =>
    case Sym(_, _) =>
    case Syntax(_) =>
    case Const(_) =>
  }

  // ---------- print, then read ----------

  lemma Closes(s: Stacks, state: ReaderState, b: Builder, items: seq<Value>)
    requires !b.WrapperBuilder? && b.items == []
    ensures var s1 := AddAll(Push(s, state, b), items);
      s1.builders != [] && ExitTop(s1) == AddValue(s, BuiltValue(b.(items := items)))
  {
    var s0 := Push(s, state, b);
    AddsAll(s0, items);
    var s1 := AddAll(s0, items);
    var top := |s.builders|;
    assert [] + items == items;
    assert s1.builders[..top] == s.builders && s1.states[..top + 1] == s.states;
  }

  lemma WrapperCloses(s: Stacks, w: WrapperKind, v: Value)
    ensures AddValue(Push(s, StateOf(w), WrapperBuilder(w, Const(UNDEF))), v) == AddValue(s, Wrapped(w, v))
  {
    var s0, top := Push(s, StateOf(w), WrapperBuilder(w, Const(UNDEF))), |s.builders|;
    var s1 := s0.(builders := s0.builders[top := WrapperBuilder(w, v)]);
    assert s1.builders[..top] == s.builders && s1.states[..top + 1] == s.states;
  }

  lemma {:induction false} PrintIsNotEmpty(v: Value, newLine: bool, depth: nat, pad: string, f: FlonumText)
    requires Spelled(v)
    ensures Print(v, newLine, depth, pad, f) != ""
    ensures v.List? ==> Print(v, newLine, depth, pad, f)[0] == '[' && |Print(v, newLine, depth, pad, f)| >= 2
  {
    hide PrintItems;
  }

  /** The brackets of a list or a vector. */
  function Opening(v: Value): string { if v.List? then "[" else "#<" }
  function Closing(v: Value): string { if v.List? then "]" else ">" }

  lemma PrintSequence(v: Value, newLine: bool, depth: nat, pad: string, f: FlonumText, tail: string)
    requires v.List? || v.Vector?
    requires v.List? ==> v.items != []
    ensures Print(v, newLine, depth, pad, f) + tail ==
      Opening(v) + ((if newLine then "\n" else "")
        + (PrintItems(v.items, newLine, depth, pad, f) + ((if newLine then Padding(depth, pad) else "") + (Closing(v) + tail))))
  {
  }

  lemma OpeningToken(v: Value, more: string)
    requires (v.List? || v.Vector?) && more != ""
    ensures NextToken(Opening(v) + more) == (if v.List? then ListStart else VectorStart, |Opening(v)|)
  {
    var t := Opening(v) + more;
    assert t[0] == Opening(v)[0] && (v.Vector? ==> t[1] == '<');
    FixedToken(t, if v.List? then ListStart else VectorStart, |Opening(v)|);
  }

  lemma ClosingToken(v: Value, tail: string)
    requires (v.List? || v.Vector?) && (v.Vector? ==> tail != "" && IsSpace(tail[0]))
    ensures NextToken(Closing(v) + tail) == (if v.List? then ListEnd else VectorEnd, 1)
  {
    var t := Closing(v) + tail;
    assert t[0] == Closing(v)[0] && (v.Vector? ==> t[1] == tail[0]);
    FixedToken(t, if v.List? then ListEnd else VectorEnd, 1);
  }

  /** Reading the text of `v` adds what it means, and leaves the reader in front of what follows. */
  lemma {:induction false} ReadsBack(v: Value, newLine: bool, depth: nat, pad: string, f: FlonumText, tail: string, s: Stacks)
    requires Legible(v) && AllSpace(pad) && Followed(v, tail) && CanStand(v, s)
    ensures Parse(Print(v, newLine, depth, pad, f) + tail, s) == Parse(tail, AddValue(s, AsRead(v)))
    decreases v, 1
  {
    hide NextToken, Parse, AddValue, PrintItems, IsSpace;
    if v.List? || v.Vector? {
      ReadsSequenceBack(v, newLine, depth, pad, f, tail, s);
    } else if v.Wrapped? {
      var text, s1 := Print(v.inner, newLine, depth, pad, f), Push(s, StateOf(v.w), WrapperBuilder(v.w, Const(UNDEF)));
      PrintIsNotEmpty(v.inner, newLine, depth, pad, f);
      WrapperToken(v.w, text + tail);
      assert Print(v, newLine, depth, pad, f) + tail == WrapperText(v.w) + (text + tail);
      ReadsOne(WrapperText(v.w) + (text + tail), s, Wrapper(v.w), |WrapperText(v.w)|, s1);
      assert (WrapperText(v.w) + (text + tail))[|WrapperText(v.w)|..] == text + tail;
      ReadsBack(v.inner, newLine, depth, pad, f, tail, s1);
      WrapperCloses(s, v.w, AsRead(v.inner));
    } else {
      ReadsAtom(v, tail, s);
    }
  }

  lemma {:induction false} ReadsSequenceBack(v: Value, newLine: bool, depth: nat, pad: string, f: FlonumText, tail: string, s: Stacks)
    requires Legible(v) && AllSpace(pad) && Followed(v, tail) && (v.List? || v.Vector?)
    ensures Parse(Print(v, newLine, depth, pad, f) + tail, s) == Parse(tail, AddValue(s, AsRead(v)))
    decreases v, 0
  {
    hide NextToken, Parse, AddValue, PrintItems, IsSpace, Print;
    var b, state := if v.List? then ListBuilder([]) else VectorBuilder([]), if v.List? then ParseList else ParseVector;
    var s1 := Push(s, state, b);
    var s2 := AddAll(s1, AllRead(v.items));
    var lead, close := if newLine then "\n" else "", if newLine then Padding(depth, pad) else "";
    var last := Closing(v) + tail;
    var body := PrintItems(v.items, newLine, depth, pad, f) + (close + last);
    PrintSequence(v, newLine, depth, pad, f, tail);
    Opens(v, lead + body, s);
    LineIsSpace(newLine, depth, pad);
    SkipsSpaces(lead, body, s1);
    ReadsItemsBack(v.items, newLine, depth, pad, f, close + last, s1);
    SkipsSpaces(close, last, s2);
    Ends(AsRead(v), tail, s);
  }

  lemma LineIsSpace(newLine: bool, depth: nat, pad: string)
    requires AllSpace(pad)
    ensures AllSpace(if newLine then "\n" else "") && AllSpace(if newLine then Padding(depth, pad) else "")
  {
    PaddingIsSpace(depth, pad);
  }

  lemma Opens(v: Value, more: string, s: Stacks)
    requires (v.List? || v.Vector?) && more != ""
    ensures var (b, state) := if v.List? then (ListBuilder([]), ParseList) else (VectorBuilder([]), ParseVector);
      Parse(Opening(v) + more, s) == Parse(more, Push(s, state, b))
  {
    hide NextToken, Parse;
    OpeningToken(v, more);
    var (b, state) := if v.List? then (ListBuilder([]), ParseList) else (VectorBuilder([]), ParseVector);
    ReadsOne(Opening(v) + more, s, if v.List? then ListStart else VectorStart, |Opening(v)|, Push(s, state, b));
    assert (Opening(v) + more)[|Opening(v)|..] == more;
  }

  lemma Ends(v: Value, tail: string, s: Stacks)
    requires v.List? || v.Vector?
    requires v.List? ==> v.items != []
    requires v.Vector? ==> tail != "" && IsSpace(tail[0])
    ensures var (b, state) := if v.List? then (ListBuilder([]), ParseList) else (VectorBuilder([]), ParseVector);
      Parse(Closing(v) + tail, AddAll(Push(s, state, b), v.items)) == Parse(tail, AddValue(s, v))
  {
    hide NextToken, Parse, AddValue, ExitTop, AddAll;
    ClosingToken(v, tail);
    var (b, state) := if v.List? then (ListBuilder([]), ParseList) else (VectorBuilder([]), ParseVector);
    var s2 := AddAll(Push(s, state, b), v.items);
    Closes(s, state, b, v.items);
    ReadsOne(Closing(v) + tail, s2, if v.List? then ListEnd else VectorEnd, 1, AddValue(s, v));
    assert (Closing(v) + tail)[1..] == tail;
  }

  lemma {:induction false} ReadsItemBack(item: Value, newLine: bool, depth: nat, pad: string, f: FlonumText, more: string, s: Stacks)
    requires Legible(item) && AllSpace(pad) && more != "" && s.builders != [] && CanStand(item, s)
    ensures Parse(PrintItem(item, newLine, depth, pad, f) + more, s) == Parse(more, AddValue(s, AsRead(item)))
    decreases item, 2
  {
    hide Parse, AddValue, Print, Legible;
    var sp := if newLine then "\n" else " ";
    var text, lead := Print(item, newLine, depth + 1, pad, f), if newLine then Padding(depth, pad) + pad else "";
    PaddingIsSpace(depth, pad);
    assert PrintItem(item, newLine, depth, pad, f) + more == lead + (text + (sp + more));
    SkipsSpaces(lead, text + (sp + more), s);
    ReadsBack(item, newLine, depth + 1, pad, f, sp + more, s);
    SkipsSpaces(sp, more, AddValue(s, AsRead(item)));
  }

  lemma {:induction false} ReadsItemsBack(items: seq<Value>, newLine: bool, depth: nat, pad: string, f: FlonumText, more: string, s: Stacks)
    requires forall v <- items :: Legible(v) && !(ClosesVector(v) && InVector(s))
    requires AllSpace(pad) && more != "" && InSequence(s)
    ensures Parse(PrintItems(items, newLine, depth, pad, f) + more, s) == Parse(more, AddAll(s, AllRead(items)))
    decreases items, 0
  {
    hide Parse, AddValue, Print, PrintItem, Legible;
    if items == [] {
      assert "" + more == more;
    } else {
      var rest := PrintItems(items[1..], newLine, depth, pad, f) + more;
      assert PrintItems(items, newLine, depth, pad, f) + more == PrintItem(items[0], newLine, depth, pad, f) + rest;
      StaysIn(s, AsRead(items[0]));
      ReadsItemBack(items[0], newLine, depth, pad, f, rest, s);
      ReadsItemsBack(items[1..], newLine, depth, pad, f, more, AddValue(s, AsRead(items[0])));
    }
  }

  lemma StaysIn(s: Stacks, v: Value)
    requires InSequence(s)
    ensures InSequence(AddValue(s, v)) && InVector(AddValue(s, v)) == InVector(s)
  {
  }
}
