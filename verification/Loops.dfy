/** When the compiled program has silent cycles: exactly when the body of some star or plus can
    be passed without reading a byte. */
module Loops {
  import opened Lists
  import opened Regexes
  import opened Bytecode
  import opened Compiler
  import opened Patterns
  import opened PikeSpec
  import opened Priority

  /** `r` can be passed without reading a byte; assertions count as passable. */
  predicate Nullable(r: Regex) {
    match r
    case Nil => true
    case Alt(l, r') => Nullable(l) || Nullable(r')
    case Cat(l, r') => Nullable(l) && Nullable(r')
    case Paren(_, b) => Nullable(b)
    case Quest(_, _) => true
    case Star(_, _) => true
    case Plus(_, b) => Nullable(b)
    case Assert(_) => true
    case Toplevel(_, b) => false
    case _ => false
  }

  /** Every round of every loop reads at least one byte. */
  predicate LoopsRead(r: Regex) {
    match r
    case Alt(l, r') => LoopsRead(l) && LoopsRead(r')
    case Cat(l, r') => LoopsRead(l) && LoopsRead(r')
    case Paren(_, b) => LoopsRead(b)
    case Quest(_, b) => LoopsRead(b)
    case Star(_, b) => LoopsRead(b) && !Nullable(b)
    case Plus(_, b) => LoopsRead(b) && !Nullable(b)
    case Toplevel(_, b) => LoopsRead(b)
    case _ => true
  }

  predicate AssertionFree(r: Regex) {
    match r
    case Alt(l, r') => AssertionFree(l) && AssertionFree(r')
    case Cat(l, r') => AssertionFree(l) && AssertionFree(r')
    case Paren(_, b) => AssertionFree(b)
    case Quest(_, b) => AssertionFree(b)
    case Star(_, b) => AssertionFree(b)
    case Plus(_, b) => AssertionFree(b)
    case Toplevel(_, b) => AssertionFree(b)
    case Assert(_) => false
    case _ => true
  }

  /** Only a nullable regex matches the empty stretch, and an assertion-free one always does. */
  lemma {:induction false} NullableMeansEmpty(r: Regex, s: seq<Byte>, i: nat)
    requires Plain(r) && i <= |s|
    ensures Matches(r, s, i, i) ==> Nullable(r)
    ensures AssertionFree(r) && Nullable(r) ==> Matches(r, s, i, i)
  {
    match r
    case Alt(l, r') =>
      NullableMeansEmpty(l, s, i);
      NullableMeansEmpty(r', s, i);
    case Cat(l, r') =>
      NullableMeansEmpty(l, s, i);
      NullableMeansEmpty(r', s, i);
      if Matches(r, s, i, i) { CatEmpty(l, r', s, i); }
    case Paren(_, b) => NullableMeansEmpty(b, s, i);
    case Quest(_, b) =>
    case Star(_, b) => assert Reps(b, 0, s, i, i);
    case Plus(g, b) =>
      NullableMeansEmpty(b, s, i);
      if Matches(b, s, i, i) {
        assert Reps(b, 0, s, i, i);
        assert Reps(b, 1, s, i, i);
      }
      if Matches(r, s, i, i) { PlusEmpty(g, b, s, i); }
    case _ =>
  }

  lemma MatchesForward(r: Regex, s: seq<Byte>, i: nat, j: nat)
    requires i <= |s| && Matches(r, s, i, j)
    ensures i <= j <= |s|
  {}

  lemma CatEmpty(l: Regex, r: Regex, s: seq<Byte>, i: nat)
    requires i <= |s| && Matches(Cat(l, r), s, i, i)
    ensures Matches(l, s, i, i) && Matches(r, s, i, i)
  {
    var k: nat :| i <= k <= |s| && Matches(l, s, i, k) && Matches(r, s, k, i);
    MatchesForward(r, s, k, i);
  }

  lemma PlusEmpty(greedy: bool, b: Regex, s: seq<Byte>, i: nat)
    requires i <= |s| && Matches(Plus(greedy, b), s, i, i)
    ensures Matches(b, s, i, i)
  {
    var n: nat :| n > 0 && Reps(b, n, s, i, i);
    FirstRep(b, n, s, i, i);
  }

  lemma FirstRep(b: Regex, n: nat, s: seq<Byte>, i: nat, j: nat)
    requires i <= |s| && n > 0 && Reps(b, n, s, i, j)
    ensures exists k: nat :: i <= k <= j && Matches(b, s, i, k)
  {
    var k: nat :| i <= k <= |s| && Matches(b, s, i, k) && Reps(b, n - 1, s, k, j);
    RepsForward(b, n - 1, s, k, j);
  }

  lemma RepsForward(b: Regex, n: nat, s: seq<Byte>, i: nat, j: nat)
    requires i <= |s| && Reps(b, n, s, i, j)
    ensures i <= j <= |s|
  {}

  // ---------- ranks for code whose loops read ----------

  /** The rank of `q`, an address in [lo, lo + |ranks|], when the code behind has rank `exit`. */
  function RankOf(lo: nat, ranks: seq<nat>, exit: nat, q: nat): nat
    requires lo <= q <= lo + |ranks|
  {
    if q == lo + |ranks| then exit else ranks[q - lo]
  }

  /** Silent control at `pc` stays in [lo, lo + |ranks|] and goes down in rank. */
  ghost predicate DownAt(P: Program, lo: nat, ranks: seq<nat>, exit: nat, pc: nat)
    requires lo <= pc < lo + |ranks| <= |P|
  {
    IsStop(P[pc]) || forall q: nat :: Flows(P, pc, q) ==>
      lo <= q <= lo + |ranks| && RankOf(lo, ranks, exit, q) < ranks[pc - lo]
  }

  ghost predicate AllDown(P: Program, lo: nat, ranks: seq<nat>, exit: nat) {
    lo + |ranks| <= |P| && forall pc: nat :: lo <= pc < lo + |ranks| ==> DownAt(P, lo, ranks, exit, pc)
  }

  /** `inner` are the ranks of a piece of the code that `ranks` belong to. */
  ghost predicate Piecewise(lo: nat, ranks: seq<nat>, exit: nat, at: nat, inner: seq<nat>, innerExit: nat) {
    && lo <= at && at + |inner| <= lo + |ranks|
    && forall q: nat :: at <= q <= at + |inner| ==> RankOf(lo, ranks, exit, q) == RankOf(at, inner, innerExit, q)
  }

  lemma PieceDown(P: Program, lo: nat, ranks: seq<nat>, exit: nat, at: nat, inner: seq<nat>, innerExit: nat)
    requires AllDown(P, at, inner, innerExit) && lo + |ranks| <= |P|
    requires Piecewise(lo, ranks, exit, at, inner, innerExit)
    ensures forall pc: nat :: at <= pc < at + |inner| ==> DownAt(P, lo, ranks, exit, pc)
  {
    forall pc: nat | at <= pc < at + |inner|
      ensures DownAt(P, lo, ranks, exit, pc)
    {
      assert DownAt(P, at, inner, innerExit, pc);
      assert RankOf(lo, ranks, exit, pc) == RankOf(at, inner, innerExit, pc);
    }
  }

  /** Ranks for the code of `r` exist whatever the rank `exit` of the code behind it, and the
      rank at the start depends on `exit` only if control can get through silently. */
  ghost predicate RanksFor(P: Program, r: Regex, lo: nat, exit: nat, ranks: seq<nat>) {
    && |ranks| == ProgramLen(r) && AllDown(P, lo, ranks, exit)
    && RankOf(lo, ranks, exit, lo) <= ProgramLen(r) + if Nullable(r) then exit else 0
  }

  lemma {:induction false} RankCode(P: Program, r: Regex, lo: nat, exit: nat) returns (ranks: seq<nat>)
    requires CodeAt(P, r, lo) && LoopsRead(r)
    ensures RanksFor(P, r, lo, exit, ranks)
    decreases r, 1
  {
    match r
    case Nil => ranks := [];
    case Alt(_, _) => ranks := RankAlt(P, r, lo, exit);
    case Cat(_, _) => ranks := RankCat(P, r, lo, exit);
    case Paren(_, _) => ranks := RankParen(P, r, lo, exit);
    case Quest(_, _) => ranks := RankQuest(P, r, lo, exit);
    case Star(_, _) => ranks := RankStar(P, r, lo, exit);
    case Plus(_, _) => ranks := RankPlus(P, r, lo, exit);
    case Toplevel(_, b) =>
      var a := RankCode(P, b, lo, 0);
      ranks := a + [0];
      PieceDown(P, lo, ranks, exit, lo, a, 0);
    case _ =>
      ranks := [exit + 1];
      if !r.Assert? { ranks := [0]; }
  }

  /** Ranks put together: one, those of a piece, the rank behind that piece, those of another. */
  lemma Together(lo: nat, exit: nat, top: nat, a: seq<nat>, b: seq<nat>)
    ensures var ranks := [top] + a + [exit + 1] + b;
      Piecewise(lo, ranks, exit, lo + 1, a, exit + 1) && Piecewise(lo, ranks, exit, lo + 2 + |a|, b, exit)
  {
  }

  lemma RankAlt(P: Program, r: Regex, lo: nat, exit: nat) returns (ranks: seq<nat>)
    requires r.Alt? && CodeAt(P, r, lo) && LoopsRead(r)
    ensures RanksFor(P, r, lo, exit, ranks)
    decreases r, 0
  {
    var mid := lo + 1 + ProgramLen(r.left);
    var a := RankCode(P, r.left, lo + 1, exit + 1);
    var b := RankCode(P, r.right, mid + 1, exit);
    var top := 1 + Max(RankOf(lo + 1, a, exit + 1, lo + 1), RankOf(mid + 1, b, exit, mid + 1));
    ranks := [top] + a + [exit + 1] + b;
    Together(lo, exit, top, a, b);
    ChoiceDown(P, r, lo, exit, top, a, b);
  }

  lemma ChoiceDown(P: Program, r: Regex, lo: nat, exit: nat, top: nat, a: seq<nat>, b: seq<nat>)
    requires r.Alt? && CodeAt(P, r, lo) && |a| == ProgramLen(r.left) && |b| == ProgramLen(r.right)
    requires AllDown(P, lo + 1, a, exit + 1) && AllDown(P, lo + 2 + |a|, b, exit)
    requires top > RankOf(lo + 1, a, exit + 1, lo + 1) && top > RankOf(lo + 2 + |a|, b, exit, lo + 2 + |a|)
    ensures AllDown(P, lo, [top] + a + [exit + 1] + b, exit)
  {
    hide CodeAt, AllDown, Piecewise;
    var ranks, mid := [top] + a + [exit + 1] + b, lo + 1 + |a|;
    CodeOfParts(P, r, lo);
    ChoiceCode(P, r, lo);
    Together(lo, exit, top, a, b);
    PieceDown(P, lo, ranks, exit, lo + 1, a, exit + 1);
    PieceDown(P, lo, ranks, exit, mid + 1, b, exit);
    PieceStart(lo, ranks, exit, lo + 1, a, exit + 1);
    PieceStart(lo, ranks, exit, mid + 1, b, exit);
    assert DownAt(P, lo, ranks, exit, lo) && DownAt(P, lo, ranks, exit, mid);
    AllOfThem(P, lo, ranks, exit, mid);
  }

  lemma PieceStart(lo: nat, ranks: seq<nat>, exit: nat, at: nat, inner: seq<nat>, innerExit: nat)
    requires Piecewise(lo, ranks, exit, at, inner, innerExit)
    ensures lo <= at <= lo + |ranks| && RankOf(lo, ranks, exit, at) == RankOf(at, inner, innerExit, at)
  {
  }

  lemma AllOfThem(P: Program, lo: nat, ranks: seq<nat>, exit: nat, mid: nat)
    requires lo < mid < lo + |ranks| <= |P|
    requires DownAt(P, lo, ranks, exit, lo) && DownAt(P, lo, ranks, exit, mid)
    requires forall pc: nat :: lo + 1 <= pc < mid ==> DownAt(P, lo, ranks, exit, pc)
    requires forall pc: nat :: mid + 1 <= pc < lo + |ranks| ==> DownAt(P, lo, ranks, exit, pc)
    ensures AllDown(P, lo, ranks, exit)
  {
  }

  lemma RankCat(P: Program, r: Regex, lo: nat, exit: nat) returns (ranks: seq<nat>)
    requires r.Cat? && CodeAt(P, r, lo) && LoopsRead(r)
    ensures RanksFor(P, r, lo, exit, ranks)
    decreases r, 0
  {
    var mid := lo + ProgramLen(r.left);
    var b := RankCode(P, r.right, mid, exit);
    var middle := RankOf(mid, b, exit, mid);
    var a := RankCode(P, r.left, lo, middle);
    ranks := a + b;
    PieceDown(P, lo, ranks, exit, lo, a, middle);
    PieceDown(P, lo, ranks, exit, mid, b, exit);
    assert RankOf(lo, ranks, exit, lo) == RankOf(lo, a, middle, lo);
  }

  lemma RankParen(P: Program, r: Regex, lo: nat, exit: nat) returns (ranks: seq<nat>)
    requires r.Paren? && CodeAt(P, r, lo) && LoopsRead(r)
    ensures RanksFor(P, r, lo, exit, ranks)
    decreases r, 0
  {
    var a := RankCode(P, r.body, lo + 1, exit + 1);
    ranks := [1 + RankOf(lo + 1, a, exit + 1, lo + 1)] + a + [exit + 1];
    PieceDown(P, lo, ranks, exit, lo + 1, a, exit + 1);
    assert RankOf(lo, ranks, exit, lo + 1) == RankOf(lo + 1, a, exit + 1, lo + 1);
    assert DownAt(P, lo, ranks, exit, lo) && DownAt(P, lo, ranks, exit, lo + 1 + |a|);
  }

  lemma RankQuest(P: Program, r: Regex, lo: nat, exit: nat) returns (ranks: seq<nat>)
    requires r.Quest? && CodeAt(P, r, lo) && LoopsRead(r)
    ensures RanksFor(P, r, lo, exit, ranks)
    decreases r, 0
  {
    var a := RankCode(P, r.body, lo + 1, exit);
    ranks := [1 + Max(exit, RankOf(lo + 1, a, exit, lo + 1))] + a;
    PieceDown(P, lo, ranks, exit, lo + 1, a, exit);
    assert RankOf(lo, ranks, exit, lo + 1) == RankOf(lo + 1, a, exit, lo + 1);
    assert DownAt(P, lo, ranks, exit, lo);
  }

  lemma RankStar(P: Program, r: Regex, lo: nat, exit: nat) returns (ranks: seq<nat>)
    requires r.Star? && CodeAt(P, r, lo) && LoopsRead(r)
    ensures RanksFor(P, r, lo, exit, ranks)
    decreases r, 0
  {
    var top := exit + ProgramLen(r.body) + 1;
    var a := RankCode(P, r.body, lo + 1, top + 1);
    ranks := [top] + a + [top + 1];
    PieceDown(P, lo, ranks, exit, lo + 1, a, top + 1);
    assert RankOf(lo, ranks, exit, lo + 1) == RankOf(lo + 1, a, top + 1, lo + 1);
    assert DownAt(P, lo, ranks, exit, lo) && DownAt(P, lo, ranks, exit, lo + 1 + |a|);
  }

  lemma RankPlus(P: Program, r: Regex, lo: nat, exit: nat) returns (ranks: seq<nat>)
    requires r.Plus? && CodeAt(P, r, lo) && LoopsRead(r)
    ensures RanksFor(P, r, lo, exit, ranks)
    decreases r, 0
  {
    var end := exit + ProgramLen(r.body) + 1;
    var a := RankCode(P, r.body, lo, end);
    ranks := a + [end];
    PieceDown(P, lo, ranks, exit, lo, a, end);
    assert RankOf(lo, ranks, exit, lo) == RankOf(lo, a, end, lo);
    assert DownAt(P, lo, ranks, exit, lo + |a|);
  }

  // ---------- and only for those ----------

  lemma LeadsDown(P: Program, rank: seq<nat>, pc: nat, q: nat)
    requires Ranked(P, rank) && pc < |P| && q < |P|
    requires P[pc] == Jmp(q) || (P[pc].Split? && (P[pc].x == q || P[pc].y == q)) || ((P[pc].Save? || P[pc].Check?) && q == pc + 1)
    ensures rank[q] < rank[pc]
  {
    assert Flows(P, pc, q);
  }

  /** Behind a nullable piece of code the rank is no higher than before it. */
  lemma {:induction false} NullableGoesDown(P: Program, rank: seq<nat>, r: Regex, lo: nat)
    requires Ranked(P, rank) && Nullable(r) && CodeAt(P, r, lo) && lo + ProgramLen(r) < |P|
    ensures rank[lo + ProgramLen(r)] <= rank[lo]
    decreases r, 1
  {
    var hi := lo + ProgramLen(r);
    match r
    case Nil =>
    case Alt(_, _) => NullableAltGoesDown(P, rank, r, lo);
    case Cat(_, _) => NullableCatGoesDown(P, rank, r, lo);
    case Paren(_, b) =>
      hide Ranked;
      LeadsDown(P, rank, lo, lo + 1);
      LeadsDown(P, rank, hi - 1, hi);
      NullableGoesDown(P, rank, b, lo + 1);
    case Plus(_, b) =>
      hide Ranked;
      LeadsDown(P, rank, hi - 1, hi);
      NullableGoesDown(P, rank, b, lo);
    case Quest(_, _) => LeadsDown(P, rank, lo, hi);
    case Star(_, _) => LeadsDown(P, rank, lo, hi);
    case Assert(_) => LeadsDown(P, rank, lo, hi);
  }

  lemma NullableAltGoesDown(P: Program, rank: seq<nat>, r: Regex, lo: nat)
    requires r.Alt? && Ranked(P, rank) && Nullable(r) && CodeAt(P, r, lo) && lo + ProgramLen(r) < |P|
    ensures rank[lo + ProgramLen(r)] <= rank[lo]
    decreases r, 0
  {
    hide Ranked;
    var mid, hi := lo + 1 + ProgramLen(r.left), lo + ProgramLen(r);
    LeadsDown(P, rank, mid, hi);
    if Nullable(r.left) {
      LeadsDown(P, rank, lo, lo + 1);
      NullableGoesDown(P, rank, r.left, lo + 1);
    } else {
      LeadsDown(P, rank, lo, mid + 1);
      NullableGoesDown(P, rank, r.right, mid + 1);
    }
  }

  lemma NullableCatGoesDown(P: Program, rank: seq<nat>, r: Regex, lo: nat)
    requires r.Cat? && Ranked(P, rank) && Nullable(r) && CodeAt(P, r, lo) && lo + ProgramLen(r) < |P|
    ensures rank[lo + ProgramLen(r)] <= rank[lo]
    decreases r, 0
  {
    hide Ranked;
    NullableGoesDown(P, rank, r.left, lo);
    NullableGoesDown(P, rank, r.right, lo + ProgramLen(r.left));
  }

  lemma {:induction false} RankedLoopsRead(P: Program, rank: seq<nat>, r: Regex, lo: nat)
    requires Ranked(P, rank) && CodeAt(P, r, lo)
    ensures LoopsRead(r)
    decreases r
  {
    hide Ranked;
    var hi := lo + ProgramLen(r);
    match r
    case Alt(l, r') =>
      RankedLoopsRead(P, rank, l, lo + 1);
      RankedLoopsRead(P, rank, r', lo + 2 + ProgramLen(l));
    case Cat(l, r') =>
      RankedLoopsRead(P, rank, l, lo);
      RankedLoopsRead(P, rank, r', lo + ProgramLen(l));
    case Paren(_, b) => RankedLoopsRead(P, rank, b, lo + 1);
    case Quest(_, b) => RankedLoopsRead(P, rank, b, lo + 1);
    case Star(_, b) =>
      RankedLoopsRead(P, rank, b, lo + 1);
      LeadsDown(P, rank, lo, lo + 1);
      LeadsDown(P, rank, hi - 1, lo);
      if Nullable(b) { NullableGoesDown(P, rank, b, lo + 1); }
    case Plus(_, b) =>
      RankedLoopsRead(P, rank, b, lo);
      LeadsDown(P, rank, hi - 1, lo);
      if Nullable(b) { NullableGoesDown(P, rank, b, lo); }
    case Toplevel(_, b) => RankedLoopsRead(P, rank, b, lo);
    case _ =>
  }

  lemma {:induction false} AlternativesLoops(trees: seq<Regex>, caps: seq<nat>, n: nat)
    requires 0 < n <= |trees| == |caps|
    ensures LoopsRead(Alternatives(trees, caps, n)) <==> forall k :: 0 <= k < n ==> LoopsRead(trees[k])
    decreases n
  {
    if n > 1 {
      AlternativesLoops(trees, caps, n - 1);
      assert LoopsRead(Piece(trees, caps, n - 1)) == LoopsRead(trees[n - 1]);
    } else {
      assert LoopsRead(Piece(trees, caps, 0)) == LoopsRead(trees[0]);
    }
  }

  /** A compiled pattern has no silent cycle exactly when every round of every loop in its
      regexes reads. */
  lemma RankedIffLoopsRead(P: Program, trees: seq<Regex>, caps: seq<nat>)
    requires IsCompiled(P, trees, caps)
    ensures (exists rank :: Ranked(P, rank)) <==> forall t <- trees :: LoopsRead(t)
  {
    var re := Wrapped(trees, caps);
    AlternativesLoops(trees, caps, |trees|);
    assert LoopsRead(Star(false, Dot));
    assert LoopsRead(re) == forall t <- trees :: LoopsRead(t);
    hide CodeAt, LoopsRead;
    if rank :| Ranked(P, rank) {
      RankedLoopsRead(P, rank, re, 0);
    }
    if LoopsRead(re) {
      var rank := GivesRanks(P, re);
    }
  }

  lemma GivesRanks(P: Program, re: Regex) returns (rank: seq<nat>)
    requires CodeAt(P, re, 0) && ProgramLen(re) == |P| && LoopsRead(re)
    ensures Ranked(P, rank)
  {
    rank := RankCode(P, re, 0, 0);
    forall pc: nat, q: nat | pc < |P| && !IsStop(P[pc]) && Flows(P, pc, q) && q < |P|
      ensures rank[q] < rank[pc]
    {
      assert DownAt(P, 0, rank, 0, pc);
    }
  }

  /** For such a pattern the Pike machine ends with the captures of the first accepting path
      in order of priority, and with nothing exactly when no path accepts. */
  lemma PikeIsFirstPath(P: Program, trees: seq<Regex>, caps: seq<nat>, s: seq<Byte>, slots: nat) returns (rank: seq<nat>)
    requires IsCompiled(P, trees, caps) && forall t <- trees :: LoopsRead(t)
    ensures Ranked(P, rank) && IsFirst(P, rank, s, 0, 0, Unset(slots), Run(P, s, slots))
  {
    RankedIffLoopsRead(P, trees, caps);
    rank :| Ranked(P, rank);
    RunIsBacktrack(P, s, slots);
    BacktrackIsFirst(P, rank, s, 0, 0, Unset(slots), {});
  }
}
