/** What encoding keeps true: the bytes written reach the positions the linker computed, and every
    branch to a label of the program goes there. */
module AsmEncode {
  import opened Asm
  import opened AsmMath

  function B(n: int): int { n % 256 }

  function Word(n: int): seq<int> { [B(n), B(n / 256)] }

  function Dword(n: int): seq<int> { [B(n), B(n / 256), B(n / 0x10000), B(n / 0x1000000)] }

  /** The branch that ends at byte `end` goes `d` bytes further: in long form the last four bytes
      are `d`; in short form the opcode has been exchanged and the last byte is `d`. */
  predicate BranchBytes(out: seq<int>, end: int, cut: int, op: int, d: int) {
    4 - cut <= end <= |out| && end >= 1 &&
    if cut == 0 then out[end - 4..end] == Dword(d)
    else end >= 2 && FitsByte(d) && out[end - 1] == B(d) && out[end - 2] == if cut == 4 then B(op - 0x10) else 0xeb
  }

  ghost predicate BranchAt(out: seq<int>, all: Layout, targets: seq<int>, cuts: seq<int>, g: nat)
    requires g < |cuts| == |targets| == |all| && targets[g] <= |all|
  {
    IsRelItem(all[g]) && targets[g] >= 0 ==>
      BranchBytes(out, F(all, cuts, g + 1), cuts[g], Opcode(all, g), F(all, cuts, targets[g]) - F(all, cuts, g + 1))
  }

  predicate IsRawItem(it: Item) { it.Do? && IsRaw(it.act) }

  /** The `m` entries before `g` are raw bytes. */
  predicate RawRun(all: Layout, g: nat, m: nat) {
    m <= g <= |all| && forall h :: g - m <= h < g ==> IsRawItem(all[h])
  }

  ghost predicate RawTail(out: seq<int>, all: Layout, g: nat)
    requires g <= |all|
  {
    g > 0 && IsRawItem(all[g - 1]) ==> |out| > 0 && out[|out| - 1] == LastByte(all[g - 1].act)
  }

  /** A sign-extended byte, which takes the short form of its instruction. */
  predicate IsShortImm(it: Item) { it.Do? && (it.act.ImmWB? || it.act.ImmDB?) && FitsByte(it.arg) }

  /** Writing entry `h` changes the raw byte of entry `g`. */
  predicate Rewrites(all: Layout, cuts: seq<int>, h: nat, g: nat)
    requires h < |all| == |cuts|
  {
    (g + 1 == h && IsRelItem(all[h]) && cuts[h] > 0)
    || (g + 2 == h && IsRelItem(all[h]) && cuts[h] == 4)
    || (g + 2 == h && IsShortImm(all[h]))
  }

  /** None of the entries before `end` changes the raw byte of entry `g`. */
  predicate Untouched(all: Layout, cuts: seq<int>, g: nat, end: nat)
    requires end <= |all| == |cuts|
  {
    (g + 1 < end ==> !Rewrites(all, cuts, g + 1, g)) && (g + 2 < end ==> !Rewrites(all, cuts, g + 2, g))
  }

  /** The program is written to address `base`, and `was` are the globals it is given. */
  datatype Place = Place(base: int, was: seq<int>)

  function ImmBytes(act: Action, n: int): seq<int>
    requires IsImm(act)
  {
    if act.ImmS? || act.ImmB? || ((act.ImmWB? || act.ImmDB?) && FitsByte(n)) then [B(n)]
    else if act.ImmW? || act.ImmWB? then Word(n)
    else Dword(n)
  }

  predicate AllAre(bytes: seq<int>, v: int) { forall b <- bytes :: b == v }

  /** The global that a reference out of the program names. */
  function Global(all: Layout, cuts: seq<int>, at: Place, g: nat): int
    requires g < |all| == |cuts| && all[g].Do?
  {
    var globals := Exports(all, cuts, g, at.base, at.was);
    if (all[g].act.RelLG? || all[g].act.ImmLG?) && 0 <= LabelNo(all[g].act) < |globals| then globals[LabelNo(all[g].act)] else 0
  }

  /** What entry `g` adds to the bytes: its value, its filling, the address it names, or the way
      to a global of another program. For a branch to a label see BranchAt. */
  ghost predicate Means(bytes: seq<int>, all: Layout, targets: seq<int>, cuts: seq<int>, at: Place, g: nat)
    requires g < |all| == |cuts| == |targets| && targets[g] <= |all|
  {
    all[g].Do? ==>
      var act := all[g].act;
      if IsRaw(act) then bytes == [LastByte(act)]
      else if IsImm(act) then bytes == ImmBytes(act, all[g].arg)
      else if act.Space? then |bytes| == all[g].arg && AllAre(bytes, act.fill)
      else if act.Align? then AllAre(bytes, 0x90)
      else if IsRel(act) then IsOutside(targets[g]) ==> bytes == Dword(Global(all, cuts, at, g) - (at.base + F(all, cuts, g) + 4))
      else if IsRef(act) then targets[g] != Nowhere ==> bytes == Dword(if targets[g] < 0 then Global(all, cuts, at, g) else F(all, cuts, targets[g]) + at.base)
      else bytes == []
  }

  /** Entry `g` stands in the bytes from its position on, unless it is a raw byte that has been
      changed; a short immediate has added 2 to the opcode two bytes back. */
  ghost predicate StandsAt(out: seq<int>, all: Layout, targets: seq<int>, cuts: seq<int>, at: Place, g: nat, end: nat)
    requires g < end <= |all| == |cuts| == |targets| && targets[g] <= |all|
  {
    var f, f' := F(all, cuts, g), F(all, cuts, g + 1);
    0 <= f <= f' <= |out|
    && ((IsRawItem(all[g]) ==> Untouched(all, cuts, g, end)) ==> Means(out[f..f'], all, targets, cuts, at, g))
    && (IsShortImm(all[g]) ==> g >= 2 && f >= 2 && all[g - 2].Do? && out[f - 2] == (LastByte(all[g - 2].act) + 2) % 256)
  }

  /** The encoder has come to entry `g`. */
  ghost predicate Encoding(out: seq<int>, all: Layout, targets: seq<int>, cuts: seq<int>, at: Place, g: nat) {
    && g <= |cuts| == |targets| == |all| && CutsOk(all, targets, cuts) && GoodLayout(all)
    && |out| == F(all, cuts, g) && RawTail(out, all, g)
    && (forall h :: 0 <= h < g ==> BranchAt(out, all, targets, cuts, h))
    && forall h :: 0 <= h < g ==> StandsAt(out, all, targets, cuts, at, h, g)
  }

  lemma {:induction false} RawLength(all: Layout, cuts: seq<int>, g: nat, m: nat)
    requires g <= |cuts| == |all| && RawRun(all, g, m) && GoodLayout(all) && SmallCuts(cuts)
    ensures F(all, cuts, g - m) == F(all, cuts, g) - m && F(all, cuts, g - m) >= 0
    decreases m
  {
    hide F;
    if m > 0 {
      RawLength(all, cuts, g, m - 1);
      FStep(all, cuts, g - m);
      assert IsRawItem(all[g - m]);
    }
    FZero(all, cuts);
    Monotone(all, cuts, 0, g - m);
  }

  lemma FZero(all: Layout, cuts: seq<int>)
    requires |cuts| <= |all|
    ensures F(all, cuts, 0) == 0
  {}

  /** Writing entry `g` may change the raw bytes right before it, and nothing else before. */
  ghost predicate Extends(out: seq<int>, out': seq<int>, all: Layout, cuts: seq<int>, g: nat, m: nat)
    requires g < |all| == |cuts|
  {
    && RawRun(all, g, m) && m <= 2 && m <= |out| <= |out'| + m && out'[..|out| - m] == out[..|out| - m]
    && forall i :: 1 <= i <= m ==> Rewrites(all, cuts, g, g - i) || SameFromEnd(out, out', i)
  }

  /** The i-th byte from the end of `out` is the same in `out'`. */
  predicate SameFromEnd(out: seq<int>, out': seq<int>, i: nat) {
    0 < i <= |out| < |out'| + i && out'[|out| - i] == out[|out| - i]
  }

  lemma EncodeStep(out: seq<int>, out': seq<int>, all: Layout, targets: seq<int>, cuts: seq<int>, at: Place, g: nat, m: nat)
    requires Encoding(out, all, targets, cuts, at, g) && g < |all| && Extends(out, out', all, cuts, g, m)
    requires |out'| == F(all, cuts, g + 1)
    requires BranchAt(out', all, targets, cuts, g) && StandsAt(out', all, targets, cuts, at, g, g + 1)
    ensures Encoding(out', all, targets, cuts, at, g + 1)
  {
    hide F, CutAt, GoodLayout, Opcode, StandsAt, Rewrites, Global;
    CutsSmall(all, targets, cuts);
    RawLength(all, cuts, g, m);
    forall h | 0 <= h < g + 1
      ensures BranchAt(out', all, targets, cuts, h)
    {
      if h < g {
        assert BranchAt(out, all, targets, cuts, h);
        if IsRelItem(all[h]) && targets[h] >= 0 {
          assert h < g - m;
          Monotone(all, cuts, h + 1, g - m);
          BranchKept(out, out', F(all, cuts, h + 1), cuts[h], Opcode(all, h), F(all, cuts, targets[h]) - F(all, cuts, h + 1), |out| - m);
        }
      }
    }
    var g' := g + 1;
    forall h | 0 <= h < g'
      ensures StandsAt(out', all, targets, cuts, at, h, g')
    {
      if h < g {
        StillStands(out, out', all, targets, cuts, at, g, m, h);
      }
    }
    if IsRawItem(all[g]) {
      RawStands(out', all, targets, cuts, at, g, g + 1);
    }
  }

  lemma StillStands(out: seq<int>, out': seq<int>, all: Layout, targets: seq<int>, cuts: seq<int>, at: Place, g: nat, m: nat, h: nat)
    requires Encoding(out, all, targets, cuts, at, g) && h < g < |all| && Extends(out, out', all, cuts, g, m)
    requires |out'| == F(all, cuts, g + 1)
    ensures StandsAt(out', all, targets, cuts, at, h, g + 1)
  {
    hide F, CutAt, GoodLayout, BranchAt, Means, Rewrites;
    assert StandsAt(out, all, targets, cuts, at, h, g);
    CutsSmall(all, targets, cuts);
    var f, f' := F(all, cuts, h), F(all, cuts, h + 1);
    Monotone(all, cuts, h + 1, g);
    Monotone(all, cuts, g, g + 1);
    RawLength(all, cuts, g, m);
    if h >= g - m {
      RawPart(all, cuts, g, m, h);
      if Untouched(all, cuts, h, g + 1) {
        assert SameFromEnd(out, out', g - h);
        assert out'[f..f'] == out[f..f'];
      }
    } else {
      Monotone(all, cuts, h + 1, g - m);
      SamePrefix(out, out', |out| - m, f, f');
    }
  }

  lemma RawPart(all: Layout, cuts: seq<int>, g: nat, m: nat, h: nat)
    requires g <= |cuts| == |all| && RawRun(all, g, m) && g - m <= h < g && GoodLayout(all) && SmallCuts(cuts)
    ensures F(all, cuts, h) == F(all, cuts, g) - (g - h) && F(all, cuts, h + 1) == F(all, cuts, h) + 1
  {
    hide F;
    RawLength(all, cuts, g, g - h);
    RawLength(all, cuts, g, g - h - 1);
  }

  lemma SamePrefix(out: seq<int>, out': seq<int>, n: int, f: int, f': int)
    requires 0 <= f <= f' <= n <= |out| && n <= |out'| && out'[..n] == out[..n]
    ensures out'[f..f'] == out[f..f'] && forall i :: 0 <= i < n ==> out'[i] == out[i]
  {
    assert forall i :: 0 <= i < n ==> out'[i] == out'[..n][i] == out[..n][i];
    assert out'[f..f'] == out'[..n][f..f'] && out[f..f'] == out[..n][f..f'];
  }

  /** The raw byte last written is the last of the bytes. */
  lemma RawStands(out: seq<int>, all: Layout, targets: seq<int>, cuts: seq<int>, at: Place, h: nat, end: nat)
    requires h < end <= |all| == |cuts| == |targets| && targets[h] <= |all| && StandsAt(out, all, targets, cuts, at, h, end)
    requires Untouched(all, cuts, h, end) && IsRawItem(all[h])
    ensures 0 <= F(all, cuts, h) <= F(all, cuts, h + 1) <= |out|
    ensures out[F(all, cuts, h)..F(all, cuts, h + 1)] == [LastByte(all[h].act)]
  {
    hide F;
  }

  lemma BranchKept(out: seq<int>, out': seq<int>, end: int, cut: int, op: int, d: int, n: nat)
    requires n <= |out| && n <= |out'| && out'[..n] == out[..n] && end <= n && BranchBytes(out, end, cut, op, d)
    ensures BranchBytes(out', end, cut, op, d)
  {
    assert forall i :: 0 <= i < n ==> out'[i] == out'[..n][i] == out[..n][i];
    assert cut == 0 ==> out'[end - 4..end] == out[end - 4..end];
  }

  /** Padding stops at the first multiple. */
  lemma PaddingEnds(f: int, mask: int, x: int)
    requires IsMask(mask) && f <= x <= f + mask - (f + mask) % (mask + 1)
    ensures x % (mask + 1) == 0 <==> x == f + mask - (f + mask) % (mask + 1)
  {
    hide IsMask;
    var m := mask + 1;
    MaskIsSmall(mask);
    Quotients(f + mask, x, m);
  }

  lemma MaskIsSmall(mask: int)
    requires IsMask(mask)
    ensures 0 <= mask < 256
  {}

  /** The multiples of m up to `a` that are more than a - m: only the last one. */
  lemma Quotients(a: int, x: int, m: int)
    requires m > 0 && a - m < x <= a - a % m
    ensures x % m == 0 <==> x == a - a % m
  {
    var q, p := a / m, x / m;
    assert a == q * m + a % m && x == p * m + x % m;
    if p >= q {
      assert p * m >= q * m;
    } else {
      assert p * m <= (q - 1) * m == q * m - m;
    }
  }

  // ---------- single entries ----------

  /** Raw bytes before entry `g` that its encoding rewrites. */
  ghost predicate RawBefore(all: Layout, g: nat)
    requires g < |all|
  {
    all[g].Do? ==>
      && (all[g].act.ImmWB? || all[g].act.ImmDB? ==> RawRun(all, g, 2))
      && (IsRel(all[g].act) && ShrinkOf(Opcode(all, g)) > 0 ==> RawRun(all, g, 1))
      && (IsRel(all[g].act) && ShrinkOf(Opcode(all, g)) == 4 ==> RawRun(all, g, 2))
  }

  lemma RawRunLength(out: seq<int>, all: Layout, targets: seq<int>, cuts: seq<int>, at: Place, g: nat, m: nat)
    requires Encoding(out, all, targets, cuts, at, g) && RawRun(all, g, m)
    ensures m <= |out|
  {
    hide F;
    CutsSmall(all, targets, cuts);
    RawLength(all, cuts, g, m);
  }

  lemma RawNone(all: Layout, g: nat)
    requires g <= |all|
    ensures RawRun(all, g, 0)
  {}

  /** An entry that only appends. */
  lemma Appended(out: seq<int>, more: seq<int>, all: Layout, targets: seq<int>, cuts: seq<int>, at: Place, g: nat)
    requires Encoding(out, all, targets, cuts, at, g) && g < |all| && (IsRelItem(all[g]) ==> targets[g] < 0)
    requires |more| == Size(all[g], F(all, cuts, g), cuts[g]) && !IsShortImm(all[g])
    requires Means(more, all, targets, cuts, at, g)
    ensures Encoding(out + more, all, targets, cuts, at, g + 1)
  {
    hide F, Size, Means, CutAt;
    FStep(all, cuts, g);
    RawNone(all, g);
    CutsSmall(all, targets, cuts);
    FZero(all, cuts);
    Monotone(all, cuts, 0, g);
    var out' := out + more;
    assert out'[F(all, cuts, g)..F(all, cuts, g + 1)] == more;
    EncodeStep(out, out', all, targets, cuts, at, g, 0);
  }

  /** An immediate that fits a byte: the opcode two bytes back changes to the short form. */
  lemma Widened(out: seq<int>, all: Layout, targets: seq<int>, cuts: seq<int>, at: Place, g: nat)
    requires Encoding(out, all, targets, cuts, at, g) && g < |all| && IsShortImm(all[g])
    requires RawRun(all, g, 2) && Size(all[g], F(all, cuts, g), cuts[g]) == 1
    ensures |out| >= 2
    ensures Encoding(out[|out| - 2 := (out[|out| - 2] + 2) % 256] + [B(all[g].arg)], all, targets, cuts, at, g + 1)
  {
    hide F, Size, CutAt, Means;
    FStep(all, cuts, g);
    RawRunLength(out, all, targets, cuts, at, g, 2);
    CutsSmall(all, targets, cuts);
    RawPart(all, cuts, g, 2, g - 2);
    assert StandsAt(out, all, targets, cuts, at, g - 2, g);
    RawStands(out, all, targets, cuts, at, g - 2, g);
    assert out[|out| - 2] == out[F(all, cuts, g - 2)..F(all, cuts, g - 1)][0] == LastByte(all[g - 2].act);
    var out' := out[|out| - 2 := (out[|out| - 2] + 2) % 256] + [B(all[g].arg)];
    assert out'[F(all, cuts, g)..F(all, cuts, g + 1)] == [B(all[g].arg)];
    ShortMeans(all, targets, cuts, at, g);
    EncodeStep(out, out', all, targets, cuts, at, g, 2);
  }

  lemma ShortMeans(all: Layout, targets: seq<int>, cuts: seq<int>, at: Place, g: nat)
    requires g < |all| == |cuts| == |targets| && targets[g] <= |all| && IsShortImm(all[g])
    ensures Means([B(all[g].arg)], all, targets, cuts, at, g)
  {}

  // ---------- what single entries mean ----------

  lemma RawMeans(all: Layout, targets: seq<int>, cuts: seq<int>, at: Place, g: nat)
    requires g < |all| == |cuts| == |targets| && targets[g] <= |all| && IsRawItem(all[g])
    ensures Means([LastByte(all[g].act)], all, targets, cuts, at, g) && !IsShortImm(all[g])
  {}

  lemma ImmMeans(all: Layout, targets: seq<int>, cuts: seq<int>, at: Place, g: nat)
    requires g < |all| == |cuts| == |targets| && targets[g] <= |all| && all[g].Do? && IsImm(all[g].act)
    ensures Means(ImmBytes(all[g].act, all[g].arg), all, targets, cuts, at, g)
    ensures IsShortImm(all[g]) <==> (all[g].act.ImmWB? || all[g].act.ImmDB?) && FitsByte(all[g].arg)
  {}

  lemma FillMeans(bytes: seq<int>, all: Layout, targets: seq<int>, cuts: seq<int>, at: Place, g: nat)
    requires g < |all| == |cuts| == |targets| && targets[g] <= |all| && all[g].Do? && (all[g].act.Space? || all[g].act.Align?)
    requires all[g].act.Space? ==> |bytes| == all[g].arg && AllAre(bytes, all[g].act.fill)
    requires all[g].act.Align? ==> AllAre(bytes, 0x90)
    ensures Means(bytes, all, targets, cuts, at, g) && !IsShortImm(all[g])
  {}

  lemma ReferenceMeans(v: int, all: Layout, targets: seq<int>, cuts: seq<int>, at: Place, g: nat)
    requires g < |all| == |cuts| == |targets| && targets[g] <= |all| && all[g].Do? && IsRef(all[g].act)
    requires IsRel(all[g].act) ==> IsOutside(targets[g]) && v == Global(all, cuts, at, g) - (at.base + F(all, cuts, g) + 4)
    requires !IsRel(all[g].act) && targets[g] != Nowhere ==> v == if targets[g] < 0 then Global(all, cuts, at, g) else F(all, cuts, targets[g]) + at.base
    ensures Means(Dword(v), all, targets, cuts, at, g) && !IsShortImm(all[g])
  {
    hide F, Global, Dword;
  }

  lemma NothingMeans(all: Layout, targets: seq<int>, cuts: seq<int>, at: Place, g: nat)
    requires g < |all| == |cuts| == |targets| && targets[g] <= |all| && (all[g].Do? ==> IsLabel(all[g].act))
    ensures Means([], all, targets, cuts, at, g) && !IsShortImm(all[g])
  {}

  lemma TargetInside(out: seq<int>, all: Layout, targets: seq<int>, cuts: seq<int>, at: Place, g: nat)
    requires Encoding(out, all, targets, cuts, at, g) && g < |all|
    ensures |targets| == |all| == |cuts| && targets[g] <= |all|
  {
    hide CutAt, StandsAt, BranchAt, F, GoodEntry;
  }

  /** What stands in the finished bytes for entry `g`, unless it is a raw byte. */
  lemma Written(out: seq<int>, all: Layout, targets: seq<int>, cuts: seq<int>, at: Place, g: nat)
    requires Encoding(out, all, targets, cuts, at, |all|) && g < |all| && !IsRawItem(all[g])
    ensures |targets| == |all| == |cuts| && targets[g] <= |all|
    ensures var f, f' := F(all, cuts, g), F(all, cuts, g + 1);
            && 0 <= f <= f' <= |out| && Means(out[f..f'], all, targets, cuts, at, g)
            && (IsRelItem(all[g]) && targets[g] >= 0 ==>
                BranchBytes(out, f', cuts[g], Opcode(all, g), F(all, cuts, targets[g]) - f'))
  {
    hide CutAt, F, GoodEntry, Means, Opcode;
    assert StandsAt(out, all, targets, cuts, at, g, |all|) && BranchAt(out, all, targets, cuts, g);
  }

  lemma GlobalIs(all: Layout, cuts: seq<int>, at: Place, g: nat, globals: seq<int>)
    requires g < |all| == |cuts| && all[g].Do? && globals == Exports(all, cuts, g, at.base, at.was)
    ensures (all[g].act.RelLG? || all[g].act.ImmLG?) && 0 <= LabelNo(all[g].act) < |globals|
      ==> Global(all, cuts, at, g) == globals[LabelNo(all[g].act)]
  {}

  /** A branch to the label in place `t`, as the encoder writes it. */
  function BranchOut(out: seq<int>, cut: int, d: int): seq<int>
    requires cut == 0 || |out| >= 2 || (cut == 3 && |out| >= 1)
  {
    if cut == 0 then out + Dword(d)
    else if cut == 4 then
      var last := out[|out| - 1];
      out[..|out| - 1][|out| - 2 := B(last - 0x10)] + [B(d)]
    else out[|out| - 1 := 0xeb] + [B(d)]
  }

  /** How many raw bytes before a branch its short forms change. */
  function Changed(cut: int): nat { if cut == 0 then 0 else if cut == 3 then 1 else 2 }

  /** What is known before the branch `g` is written. */
  lemma BranchCut(out: seq<int>, all: Layout, targets: seq<int>, cuts: seq<int>, at: Place, g: nat)
    requires Encoding(out, all, targets, cuts, at, g) && g < |all| && IsRelItem(all[g]) && !IsOutside(targets[g]) && RawBefore(all, g)
    ensures |cuts| == |targets| == |all| && targets[g] <= |all| && (cuts[g] == 0 || cuts[g] == 3 || cuts[g] == 4)
    ensures RawRun(all, g, Changed(cuts[g])) && Changed(cuts[g]) <= |out|
    ensures F(all, cuts, g + 1) == F(all, cuts, g) + 4 - cuts[g] && 0 <= F(all, cuts, g) == |out|
    ensures cuts[g] > 0 ==> out[|out| - 1] == Opcode(all, g)
    ensures cuts[g] > 0 && targets[g] >= 0 ==> FitsByte(F(all, cuts, targets[g]) - F(all, cuts, g + 1))
  {
    hide F, Distance, ShrinkOf, GoodLayout, StandsAt, Rewrites, BranchAt;
    assert CutAt(all, targets, cuts, g);
    ShrinkValues(Opcode(all, g));
    FStep(all, cuts, g);
    RawNone(all, g);
    RawRunLength(out, all, targets, cuts, at, g, Changed(cuts[g]));
    if cuts[g] > 0 && targets[g] != Nowhere {
      ShortBranchFits(all, targets, cuts, g);
    }
  }

  lemma BranchExtends(out: seq<int>, all: Layout, cuts: seq<int>, g: nat, d: int)
    requires g < |all| == |cuts| && IsRelItem(all[g]) && (cuts[g] == 0 || cuts[g] == 3 || cuts[g] == 4)
    requires RawRun(all, g, Changed(cuts[g])) && Changed(cuts[g]) <= |out| && (cuts[g] > 0 ==> out[|out| - 1] == Opcode(all, g))
    ensures Extends(out, BranchOut(out, cuts[g], d), all, cuts, g, Changed(cuts[g]))
    ensures |BranchOut(out, cuts[g], d)| == |out| + 4 - cuts[g]
    ensures cuts[g] == 0 || FitsByte(d) ==> BranchBytes(BranchOut(out, cuts[g], d), |out| + 4 - cuts[g], cuts[g], Opcode(all, g), d)
  {
    hide Rewrites, BranchOut, BranchBytes, FitsByte, Opcode, IsRawItem, IsRelItem;
    BranchWritten(out, cuts[g], Opcode(all, g), d);
    CutRewrites(all, cuts, g);
  }

  /** A branch to a label, or nowhere, in the form its cut asks for. */
  lemma Branched(out: seq<int>, all: Layout, targets: seq<int>, cuts: seq<int>, at: Place, g: nat, d: int)
    requires Encoding(out, all, targets, cuts, at, g) && g < |all| && IsRelItem(all[g]) && !IsOutside(targets[g]) && RawBefore(all, g)
    requires |cuts| == |all| && (targets[g] >= 0 ==> d == F(all, cuts, targets[g]) - F(all, cuts, g + 1))
    ensures (cuts[g] == 0 || cuts[g] == 3 || cuts[g] == 4) && (cuts[g] == 3 ==> |out| >= 1) && (cuts[g] == 4 ==> |out| >= 2)
    ensures Encoding(BranchOut(out, cuts[g], d), all, targets, cuts, at, g + 1)
    ensures F(all, cuts, g + 1) == |out| + 4 - cuts[g]
  {
    hide Encoding, F, BranchOut, BranchBytes, Opcode, RawRun, Extends, StandsAt, RawBefore, FitsByte, IsRelItem;
    BranchCut(out, all, targets, cuts, at, g);
    BranchExtends(out, all, cuts, g, d);
    var out' := BranchOut(out, cuts[g], d);
    BranchStands(out', all, targets, cuts, at, g);
    EncodeStep(out, out', all, targets, cuts, at, g, Changed(cuts[g]));
  }

  lemma CutRewrites(all: Layout, cuts: seq<int>, g: nat)
    requires g < |all| == |cuts| && IsRelItem(all[g])
    ensures cuts[g] > 0 && g >= 1 ==> Rewrites(all, cuts, g, g - 1)
    ensures cuts[g] == 4 && g >= 2 ==> Rewrites(all, cuts, g, g - 2)
  {}

  lemma BranchStands(out: seq<int>, all: Layout, targets: seq<int>, cuts: seq<int>, at: Place, g: nat)
    requires g < |all| == |cuts| == |targets| && !IsOutside(targets[g]) && targets[g] <= |all| && IsRelItem(all[g])
    requires 0 <= F(all, cuts, g) <= F(all, cuts, g + 1) <= |out|
    ensures StandsAt(out, all, targets, cuts, at, g, g + 1)
  {
    hide F;
  }

  lemma ShrinkValues(op: int)
    ensures ShrinkOf(op) == 0 || ShrinkOf(op) == 3 || ShrinkOf(op) == 4
  {}

  lemma BranchWritten(out: seq<int>, cut: int, op: int, d: int)
    requires cut == 0 || (cut == 3 && |out| >= 1) || (cut == 4 && |out| >= 2)
    requires cut > 0 ==> out[|out| - 1] == op
    ensures var out' := BranchOut(out, cut, d);
            && |out'| == |out| + 4 - cut && (cut == 0 || FitsByte(d) ==> BranchBytes(out', |out'|, cut, op, d))
            && Changed(cut) <= |out'| && out'[..|out| - Changed(cut)] == out[..|out| - Changed(cut)]
  {}

  /** The globals a program defines, as encoding stores them. */
  function Exports(all: Layout, cuts: seq<int>, g: nat, base: int, globals: seq<int>): (r: seq<int>)
    requires g <= |cuts| == |all|
    ensures |r| == |globals|
  {
    if g == 0 then globals
    else
      var r := Exports(all, cuts, g - 1, base, globals);
      var it := all[g - 1];
      if it.Do? && it.act.LabelLG? && 10 <= it.act.n < |r| then r[it.act.n := base + F(all, cuts, g - 1)] else r
  }
}
