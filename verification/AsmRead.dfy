/** The finished bytes as the processor reads them: little-endian numbers, displacements counted from
    the end of a branch, long and short forms of one instruction. */
module AsmRead {
  import opened Options
  import opened Asm
  import opened AsmMath
  import opened AsmEncode

  // ---------- the processor ----------

  /** The number that bytes hold, the lowest byte first. */
  function Unsigned(bytes: seq<int>): int {
    if bytes == [] then 0 else bytes[0] + 256 * Unsigned(bytes[1..])
  }

  function Span(size: nat): int { if size == 0 then 1 else 256 * Span(size - 1) }

  /** The same in two's complement. */
  function Signed(bytes: seq<int>): int {
    var n := Unsigned(bytes);
    if 2 * n < Span(|bytes|) then n else n - Span(|bytes|)
  }

  datatype Branch = Always | When(condition: int) | NoBranch

  /** The jump that two opcode bytes before a 32-bit displacement are. */
  function LongForm(prefix: int, op: int): Branch {
    if op == 0xe9 then Always else if prefix == 0x0f && 0x80 <= op < 0x90 then When(op - 0x80) else NoBranch
  }

  /** The jump that an opcode byte before an 8-bit displacement is. */
  function ShortForm(op: int): Branch {
    if op == 0xeb then Always else if 0x70 <= op < 0x80 then When(op - 0x70) else NoBranch
  }

  /** The instruction with a full immediate that does what this one does with a sign-extended byte. */
  function FullForm(op: int): Option<int> {
    if op == 0x83 then Some(0x81) else if op == 0x6b then Some(0x69) else None
  }

  // ---------- numbers ----------

  lemma OneByte(b: int)
    ensures Unsigned([b]) == b && Span(1) == 256
  {
    assert [b][1..] == [];
  }

  lemma OneMore(b: int, rest: seq<int>)
    ensures Unsigned([b] + rest) == b + 256 * Unsigned(rest)
  {
    assert ([b] + rest)[1..] == rest;
  }

  lemma WordReads(n: int)
    ensures Unsigned(Word(n)) == n % 0x1_0000 && |Word(n)| == 2
  {
    OneByte(B(n / 256));
    OneMore(B(n), [B(n / 256)]);
    assert Word(n) == [B(n)] + [B(n / 256)];
    assert n % 256 + 256 * ((n / 256) % 256) == n % 0x1_0000;
  }

  lemma DwordReads(n: int)
    ensures Unsigned(Dword(n)) == n % 0x1_0000_0000 && |Dword(n)| == 4
  {
    hide Unsigned;
    var high := [B(n / 0x1000000)];
    var upper := [B(n / 0x10000)] + high;
    OneByte(B(n / 0x1000000));
    OneMore(B(n / 0x10000), high);
    OneMore(B(n / 256), upper);
    OneMore(B(n), [B(n / 256)] + upper);
    assert Dword(n) == [B(n)] + ([B(n / 256)] + upper);
    FourDigits(n);
  }

  lemma FourDigits(n: int)
    ensures n % 256 + 256 * ((n / 256) % 256) + 0x1_0000 * ((n / 0x10000) % 256) + 0x100_0000 * ((n / 0x1000000) % 256) == n % 0x1_0000_0000
  {
    var second, third, fourth := n / 256, n / 0x10000, n / 0x1000000;
    Divided(n);
    assert n == n % 256 + 256 * second && second == second % 256 + 256 * third;
    assert third == third % 256 + 256 * fourth && fourth == fourth % 256 + 256 * (n / 0x1_0000_0000);
    assert n == n % 0x1_0000_0000 + 0x1_0000_0000 * (n / 0x1_0000_0000);
  }

  lemma Divided(n: int)
    ensures n / 256 / 256 == n / 0x10000 && n / 0x10000 / 256 == n / 0x1000000 && n / 0x1000000 / 256 == n / 0x1_0000_0000
  {
    var q, p, r := n / 256, n / 0x10000, n / 0x1000000;
    assert n == 0x10000 * (q / 256) + (256 * (q % 256) + n % 256);
    assert n == 0x1000000 * (p / 256) + (0x10000 * (p % 256) + n % 0x10000);
    assert n == 0x1_0000_0000 * (r / 256) + (0x1000000 * (r % 256) + n % 0x1000000);
  }

  lemma Spans()
    ensures Span(1) == 256 && Span(2) == 0x1_0000 && Span(4) == 0x1_0000_0000
  {
    assert Span(3) == 256 * Span(2);
  }

  /** A displacement is read as itself up to a multiple of 2 to the 32nd, and exactly if it is small. */
  lemma DisplacementReads(d: int)
    ensures (Signed(Dword(d)) - d) % 0x1_0000_0000 == 0
    ensures -0x8000_0000 <= d < 0x8000_0000 ==> Signed(Dword(d)) == d
  {
    hide Unsigned, Span, Dword;
    DwordReads(d);
    Spans();
  }

  lemma ByteReads(d: int)
    requires FitsByte(d)
    ensures Signed([B(d)]) == d
  {
    OneByte(B(d));
  }

  // ---------- entries ----------

  /** An immediate is read as its argument in as many bits as it has; a sign-extended one as its
      argument, by the instruction that does the same with a full one. */
  ghost predicate ImmReads(out: seq<int>, all: Layout, g: nat, f: int, f': int)
    requires g < |all| && all[g].Do? && IsImm(all[g].act)
  {
    0 <= f <= f' <= |out|
    && var act, n, bytes := all[g].act, all[g].arg, out[f..f'];
       if IsShortImm(all[g]) then
         |bytes| == 1 && Signed(bytes) == n && f >= 2 && g >= 2 && all[g - 2].Do?
         && var op := LastByte(all[g - 2].act); op == 0x81 || op == 0x69 ==> FullForm(out[f - 2]) == Some(op)
       else if act.ImmS? || act.ImmB? then |bytes| == 1 && Unsigned(bytes) == n % 0x100
       else if act.ImmW? || act.ImmWB? then |bytes| == 2 && Unsigned(bytes) == n % 0x1_0000
       else |bytes| == 4 && Unsigned(bytes) == n % 0x1_0000_0000
  }

  /** The raw byte before the opcode byte. */
  function Prefix(all: Layout, g: nat): int
    requires g <= |all|
  {
    if RawRun(all, g, 2) then LastByte(all[g - 2].act) else -1
  }

  /** The jump that the action list asks for at entry `g`. */
  function Asked(all: Layout, g: nat): Branch
    requires g <= |all|
  {
    LongForm(Prefix(all, g), Opcode(all, g))
  }

  /** From `end`, `d` bytes further is `to`, in 32 bits; outright in a program of less than 2 GB. */
  predicate Reaches(end: int, d: int, to: int, size: int) {
    (end + d - to) % 0x1_0000_0000 == 0 && (0 <= end <= size && 0 <= to <= size < 0x8000_0000 ==> end + d == to)
  }

  /** The opcode bytes of entry `g` stand before byte `p`. */
  ghost predicate StandsBehind(out: seq<int>, all: Layout, g: nat, p: int)
    requires g < |all|
  {
    (RawRun(all, g, 1) ==> 1 <= p <= |out| && out[p - 1] == Opcode(all, g))
    && (RawRun(all, g, 2) ==> 2 <= p <= |out| && LongForm(out[p - 2], out[p - 1]) == Asked(all, g))
  }

  /** A branch in long form that ends at `end` goes to `to`, and stands behind its opcode bytes. */
  ghost predicate LongReads(out: seq<int>, all: Layout, g: nat, end: int, to: int)
    requires g < |all|
  {
    4 <= end <= |out| && Reaches(end, Signed(out[end - 4..end]), to, |out|) && StandsBehind(out, all, g, end - 4)
  }

  /** A branch in short form goes to `to`, and is the jump its action list asks for. */
  ghost predicate ShortReads(out: seq<int>, all: Layout, g: nat, end: int, to: int)
    requires g < |all|
  {
    2 <= end <= |out| && end + Signed([out[end - 1]]) == to && (Asked(all, g) != NoBranch ==> ShortForm(out[end - 2]) == Asked(all, g))
  }

  ghost predicate BranchReads(out: seq<int>, all: Layout, g: nat, cut: int, end: int, to: int)
    requires g < |all|
  {
    if cut == 0 then LongReads(out, all, g, end, to) else ShortReads(out, all, g, end, to)
  }

  /** What the processor finds where entry `g` stands. */
  ghost predicate EntryReads(out: seq<int>, all: Layout, targets: seq<int>, cuts: seq<int>, at: Place, g: nat)
    requires g < |all| == |cuts| == |targets| && targets[g] <= |all| && all[g].Do?
  {
    var act, f, f' := all[g].act, F(all, cuts, g), F(all, cuts, g + 1);
    if IsImm(act) then ImmReads(out, all, g, f, f')
    else if IsRel(act) && targets[g] >= 0 then BranchReads(out, all, g, cuts[g], f', F(all, cuts, targets[g]))
    else if IsRel(act) && IsOutside(targets[g]) then
      0 <= f <= f' <= |out| && f' == f + 4 && Reaches(at.base + f', Signed(out[f..f']), Global(all, cuts, at, g), |out|)
    else if IsRef(act) && !IsRel(act) && targets[g] != Nowhere then
      0 <= f <= f' <= |out| && f' == f + 4
      && Unsigned(out[f..f']) == (if targets[g] < 0 then Global(all, cuts, at, g) else F(all, cuts, targets[g]) + at.base) % 0x1_0000_0000
    else true
  }

  /** A branch to a label, in the bytes the encoder leaves. */
  lemma BranchIsRead(out: seq<int>, all: Layout, targets: seq<int>, cuts: seq<int>, at: Place, g: nat)
    requires Encoding(out, all, targets, cuts, at, |all|) && g < |all| && IsRelItem(all[g]) && targets[g] >= 0 && AllRaw(all, |all|)
    ensures |cuts| == |all| == |targets| && targets[g] <= |all|
    ensures BranchReads(out, all, g, cuts[g], F(all, cuts, g + 1), F(all, cuts, targets[g]))
  {
    hide *;
    RawItemIs(all[g]);
    Written(out, all, targets, cuts, at, g);
    var end, to := F(all, cuts, g + 1), F(all, cuts, targets[g]);
    if cuts[g] == 0 {
      RawKept(out, all, targets, cuts, at, g);
      LongIsRead(out, all, g, end, to);
    } else {
      CutIs(out, all, targets, cuts, at, g);
      ShortIsRead(out, all, g, cuts[g], end, to);
    }
    ReadsBranch(out, all, g, cuts[g], end, to);
  }

  lemma RawItemIs(it: Item)
    ensures IsRelItem(it) ==> it.Do? && IsRel(it.act) && !IsRawItem(it)
  {
  }

  lemma ReadsBranch(out: seq<int>, all: Layout, g: nat, cut: int, end: int, to: int)
    requires g < |all| && if cut == 0 then LongReads(out, all, g, end, to) else ShortReads(out, all, g, end, to)
    ensures BranchReads(out, all, g, cut, end, to)
  {
  }

  lemma LongIsRead(out: seq<int>, all: Layout, g: nat, end: int, to: int)
    requires g < |all| && BranchBytes(out, end, 0, Opcode(all, g), to - end)
    requires forall m: nat | 0 < m <= 2 && RawRun(all, g, m) :: var p := end - 4 - m; 0 <= p < |out| && out[p] == LastByte(all[g - m].act)
    ensures LongReads(out, all, g, end, to)
  {
    hide Signed, Dword, LastByte, LongForm;
    DisplacementReads(to - end);
    if RawRun(all, g, 1) {
      assert IsRawItem(all[g - 1]);
    }
    if RawRun(all, g, 2) {
      assert IsRawItem(all[g - 1]);
    }
  }

  lemma ShortIsRead(out: seq<int>, all: Layout, g: nat, cut: int, end: int, to: int)
    requires g < |all| && cut != 0 && cut == ShrinkOf(Opcode(all, g)) && BranchBytes(out, end, cut, Opcode(all, g), to - end)
    ensures ShortReads(out, all, g, end, to)
  {
    hide Signed, Opcode, Prefix;
    ByteReads(to - end);
  }

  ghost predicate AllRaw(all: Layout, n: nat) { n <= |all| && forall g: nat | g < n :: RawBefore(all, g) }

  lemma CutIs(out: seq<int>, all: Layout, targets: seq<int>, cuts: seq<int>, at: Place, g: nat)
    requires Encoding(out, all, targets, cuts, at, |all|) && g < |all| && IsRelItem(all[g]) && cuts[g] != 0
    ensures cuts[g] == ShrinkOf(Opcode(all, g))
  {
    hide F, StandsAt, BranchAt;
    assert CutAt(all, targets, cuts, g);
  }

  /** The raw bytes before a long branch stand as they were written. */
  lemma RawKept(out: seq<int>, all: Layout, targets: seq<int>, cuts: seq<int>, at: Place, g: nat)
    requires Encoding(out, all, targets, cuts, at, |all|) && g < |all| && IsRelItem(all[g]) && cuts[g] == 0 && AllRaw(all, |all|)
    ensures forall m: nat | 0 < m <= 2 && RawRun(all, g, m) :: var p := F(all, cuts, g) - m; 0 <= p < |out| && out[p] == LastByte(all[g - m].act)
    ensures F(all, cuts, g + 1) == F(all, cuts, g) + 4
  {
    hide F, Means, BranchAt;
    CutsSmall(all, targets, cuts);
    FStep(all, cuts, g);
    forall m: nat | 0 < m <= 2 && RawRun(all, g, m)
      ensures var p := F(all, cuts, g) - m; 0 <= p < |out| && out[p] == LastByte(all[g - m].act)
    {
      RawPart(all, cuts, g, m, g - m);
      assert StandsAt(out, all, targets, cuts, at, g - m, |all|);
      NotRewritten(all, targets, cuts, g, m);
      RawStands(out, all, targets, cuts, at, g - m, |all|);
    }
  }

  lemma NotRewritten(all: Layout, targets: seq<int>, cuts: seq<int>, g: nat, m: nat)
    requires g < |all| == |cuts| == |targets| && CutsOk(all, targets, cuts) && IsRelItem(all[g]) && cuts[g] == 0 && AllRaw(all, |all|)
    requires 0 < m <= 2 && RawRun(all, g, m)
    ensures Untouched(all, cuts, g - m, |all|)
  {
    hide F, ShrinkOf, Opcode;
    if m == 1 && g + 1 < |all| {
      assert RawBefore(all, g + 1) && CutAt(all, targets, cuts, g + 1);
      assert IsRawItem(all[g]) || !RawRun(all, g + 1, 2);
    }
  }

  lemma ImmIsRead(out: seq<int>, all: Layout, targets: seq<int>, cuts: seq<int>, at: Place, g: nat)
    requires Encoding(out, all, targets, cuts, at, |all|) && g < |all| && all[g].Do? && IsImm(all[g].act)
    ensures ImmReads(out, all, g, F(all, cuts, g), F(all, cuts, g + 1))
  {
    hide F, BranchAt, Signed, Unsigned, Dword, Word;
    assert StandsAt(out, all, targets, cuts, at, g, |all|);
    var n := all[g].arg;
    WordReads(n);
    DwordReads(n);
    OneByte(B(n));
    if FitsByte(n) {
      ByteReads(n);
    }
  }

  lemma AddressIsRead(out: seq<int>, all: Layout, targets: seq<int>, cuts: seq<int>, at: Place, g: nat)
    requires Encoding(out, all, targets, cuts, at, |all|) && g < |all| && all[g].Do? && IsRef(all[g].act) && targets[g] != Nowhere
    requires IsRel(all[g].act) ==> targets[g] < 0
    ensures |cuts| == |all| == |targets| && targets[g] <= |all| && EntryReads(out, all, targets, cuts, at, g)
  {
    hide F, Signed, Unsigned, Dword, Global, Encoding;
    Written(out, all, targets, cuts, at, g);
    var f, f' := F(all, cuts, g), F(all, cuts, g + 1);
    var v := if IsRel(all[g].act) then Global(all, cuts, at, g) - (at.base + f + 4)
             else if targets[g] < 0 then Global(all, cuts, at, g) else F(all, cuts, targets[g]) + at.base;
    assert out[f..f'] == Dword(v);
    DwordReads(v);
    DisplacementReads(v);
    FourBytes(out, f, f');
  }

  lemma FourBytes(out: seq<int>, f: int, f': int)
    requires 0 <= f <= f' <= |out| && |out[f..f']| == 4
    ensures f' == f + 4
  {
  }

  /** Every entry of the finished program is read as what it was put down for. */
  lemma EntryIsRead(out: seq<int>, all: Layout, targets: seq<int>, cuts: seq<int>, at: Place, g: nat)
    requires Encoding(out, all, targets, cuts, at, |all|) && AllRaw(all, |all|) && g < |all| && all[g].Do?
    ensures |cuts| == |all| == |targets| && targets[g] <= |all| && EntryReads(out, all, targets, cuts, at, g)
  {
    hide F, Encoding, AllRaw, BranchReads, ImmReads;
    if IsImm(all[g].act) {
      ImmIsRead(out, all, targets, cuts, at, g);
      Written(out, all, targets, cuts, at, g);
    } else if IsRef(all[g].act) {
      Written(out, all, targets, cuts, at, g);
      if IsRel(all[g].act) && targets[g] >= 0 {
        BranchIsRead(out, all, targets, cuts, at, g);
      } else if targets[g] != Nowhere {
        AddressIsRead(out, all, targets, cuts, at, g);
      }
    } else {
      EncodingFits(out, all, targets, cuts, at, g);
    }
  }

  /** So is the whole program. */
  ghost predicate AllRead(out: seq<int>, all: Layout, targets: seq<int>, cuts: seq<int>, at: Place) {
    |cuts| == |all| == |targets|
    && forall g: nat | g < |all| && all[g].Do? :: targets[g] <= |all| && EntryReads(out, all, targets, cuts, at, g)
  }

  lemma ProgramIsRead(out: seq<int>, all: Layout, targets: seq<int>, cuts: seq<int>, at: Place)
    requires Encoding(out, all, targets, cuts, at, |all|) && AllRaw(all, |all|)
    ensures AllRead(out, all, targets, cuts, at)
  {
    hide Encoding, AllRaw, EntryReads;
    EncodingSizes(out, all, targets, cuts, at);
    forall g: nat | g < |all| && all[g].Do? ensures targets[g] <= |all| && EntryReads(out, all, targets, cuts, at, g) {
      EntryIsRead(out, all, targets, cuts, at, g);
    }
  }

  lemma EncodingSizes(out: seq<int>, all: Layout, targets: seq<int>, cuts: seq<int>, at: Place)
    requires Encoding(out, all, targets, cuts, at, |all|)
    ensures |cuts| == |all| == |targets|
  {
    hide F, CutAt, StandsAt, BranchAt;
  }

  lemma EncodingFits(out: seq<int>, all: Layout, targets: seq<int>, cuts: seq<int>, at: Place, g: nat)
    requires Encoding(out, all, targets, cuts, at, |all|) && g < |all|
    ensures |cuts| == |all| == |targets| && targets[g] <= |all|
  {
    hide F, CutAt, StandsAt, BranchAt;
  }

  // ---------- globals ----------

  /** Entry `g` defines global `n`. */
  predicate Exported(all: Layout, g: nat, n: nat)
    requires g < |all|
  {
    all[g].Do? && all[g].act.LabelLG? && all[g].act.n == n && n >= 10
  }

  /** The last definition of global `n` before entry `g`. */
  ghost predicate LastExport(all: Layout, g: nat, n: nat, h: nat)
    requires g <= |all|
  {
    h < g && Exported(all, h, n) && forall h': nat | h < h' < g :: !Exported(all, h', n)
  }

  /** A global is given out as the address of its last definition, or stays as it was. */
  lemma {:induction false} ExportsAre(all: Layout, cuts: seq<int>, g: nat, base: int, was: seq<int>, n: nat)
    requires g <= |cuts| == |all| && n < |was|
    ensures var r := Exports(all, cuts, g, base, was);
      && |r| == |was|
      && (forall h: nat | LastExport(all, g, n, h) :: r[n] == base + F(all, cuts, h))
      && ((forall h: nat | h < g :: !Exported(all, h, n)) ==> r[n] == was[n])
    decreases g
  {
    hide F;
    if g > 0 {
      ExportsAre(all, cuts, g - 1, base, was, n);
      if Exported(all, g - 1, n) {
        assert forall h: nat | LastExport(all, g, n, h) :: h == g - 1;
      } else {
        forall h: nat | LastExport(all, g, n, h) ensures LastExport(all, g - 1, n, h) {
        }
      }
    }
  }

  // ---------- action lists ----------

  /** Lists as the preprocessor writes them: jumps on a condition, jumps and calls, an operation with an
      immediate of variable size, alignment to a power of two, a label, some space. */
  lemma GoodForms(condition: int, operand: int, n: int, power: nat, fill: int)
    requires 0 <= condition < 16 && IsByte(operand) && power <= 8 && IsByte(fill)
    ensures GoodChunk([Byte(0x0f), Byte(0x80 + condition), RelLG(n), Stop]) && GoodChunk([Byte(0x0f), Byte(0x80 + condition), RelPC, Stop])
    ensures GoodChunk([Byte(0xe9), RelLG(n), Stop]) && GoodChunk([Byte(0xe8), RelPC, Stop])
    ensures GoodChunk([Byte(0x81), Byte(operand), ImmDB, Stop]) && GoodChunk([Byte(0x81), Byte(operand), ImmWB, Stop])
    ensures GoodChunk([Align([0, 1, 3, 7, 15, 31, 63, 127, 255][power]), Stop])
    ensures GoodChunk([LabelLG(n), Stop]) && GoodChunk([Space(fill), Section(n)]) && GoodChunk([Byte(operand), ImmD, ImmLG(n), Stop])
  {
  }
}
