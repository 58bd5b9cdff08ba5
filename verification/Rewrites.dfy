/** The two rewrites the parser makes: counted repetition becomes plain repetition, and a
    caseless class grows by the other case of its letters. */
module Rewrites {
  import opened Lists
  import opened Regexes
  import opened Counts

  // ---------- r{from,to} ----------

  /** Between `lo` and `hi` repetitions; no upper limit if `hi` is negative. */
  ghost predicate Counted(b: Regex, lo: nat, hi: int, s: seq<Byte>, i: nat, j: nat)
    requires i <= |s|
  {
    exists n: nat :: lo <= n && (hi < 0 || n <= hi) && Reps(b, n, s, i, j)
  }

  /** The language of `r` is that of `b` repeated between `lo` and `hi` times. */
  ghost predicate Repeats(r: Regex, b: Regex, lo: nat, hi: int) {
    forall s: seq<Byte>, i: nat, j: nat :: i <= |s| ==> (Matches(r, s, i, j) <==> Counted(b, lo, hi, s, i, j))
  }

  lemma {:induction false} RepsJoin(b: Regex, n: nat, m: nat, s: seq<Byte>, i: nat, k: nat, j: nat)
    requires i <= |s| && k <= |s| && Reps(b, n, s, i, k) && Reps(b, m, s, k, j)
    ensures Reps(b, n + m, s, i, j)
    decreases n
  {
    if n > 0 {
      var l: nat :| i <= l <= |s| && Matches(b, s, i, l) && Reps(b, n - 1, s, l, k);
      RepsJoin(b, n - 1, m, s, l, k, j);
    }
  }

  lemma {:induction false} RepsSplit(b: Regex, n: nat, m: nat, s: seq<Byte>, i: nat, j: nat) returns (k: nat)
    requires i <= |s| && Reps(b, n + m, s, i, j)
    ensures i <= k <= |s| && Reps(b, n, s, i, k) && Reps(b, m, s, k, j)
    decreases n
  {
    if n == 0 {
      k := i;
    } else {
      var l: nat :| i <= l <= |s| && Matches(b, s, i, l) && Reps(b, n + m - 1, s, l, j);
      k := RepsSplit(b, n - 1, m, s, l, j);
    }
  }

  lemma RepsOne(b: Regex, s: seq<Byte>, i: nat, j: nat)
    requires i <= |s|
    ensures Reps(b, 1, s, i, j) <==> Matches(b, s, i, j)
  {
    assert Matches(b, s, i, j) ==> i <= j <= |s|;
    if Matches(b, s, i, j) {
      assert Reps(b, 0, s, j, j);
    }
  }

  lemma RepeatsAt(r: Regex, b: Regex, lo: nat, hi: int, s: seq<Byte>, i: nat, j: nat)
    requires Repeats(r, b, lo, hi) && i <= |s|
    ensures Matches(r, s, i, j) <==> Counted(b, lo, hi, s, i, j)
  {}

  lemma CatSplits(r: Regex, t: Regex, s: seq<Byte>, i: nat, j: nat) returns (k: nat)
    requires i <= |s| && Matches(Cat(r, t), s, i, j)
    ensures i <= k <= |s| && Matches(r, s, i, k) && Matches(t, s, k, j)
  {
    k :| i <= k <= |s| && Matches(r, s, i, k) && Matches(t, s, k, j);
  }

  lemma CatJoins(r: Regex, t: Regex, s: seq<Byte>, i: nat, k: nat, j: nat)
    requires i <= |s| && k <= |s| && Matches(r, s, i, k) && Matches(t, s, k, j)
    ensures Matches(Cat(r, t), s, i, j)
  {}

  /** Appending `t`, itself a repetition of `b`, adds up the limits. */
  lemma CatRepeats(r: Regex, t: Regex, b: Regex, lo: nat, hi: nat, lo': nat, hi': int)
    requires Repeats(r, b, lo, hi) && Repeats(t, b, lo', hi') && lo <= hi && (hi' < 0 || lo' <= hi')
    ensures Repeats(Cat(r, t), b, lo + lo', if hi' < 0 then -1 else hi + hi')
  {
    hide Matches, Counted;
    forall s: seq<Byte>, i: nat, j: nat | i <= |s|
      ensures Matches(Cat(r, t), s, i, j) <==> Counted(b, lo + lo', if hi' < 0 then -1 else hi + hi', s, i, j)
    {
      CatCounted(r, t, b, lo, hi, lo', hi', s, i, j);
    }
  }

  lemma CatCounted(r: Regex, t: Regex, b: Regex, lo: nat, hi: nat, lo': nat, hi': int, s: seq<Byte>, i: nat, j: nat)
    requires Repeats(r, b, lo, hi) && Repeats(t, b, lo', hi') && lo <= hi && (hi' < 0 || lo' <= hi') && i <= |s|
    ensures Matches(Cat(r, t), s, i, j) <==> Counted(b, lo + lo', if hi' < 0 then -1 else hi + hi', s, i, j)
  {
    hide Matches, Reps, Repeats, Counted;
    if Matches(Cat(r, t), s, i, j) {
      var k := CatSplits(r, t, s, i, j);
      RepeatsAt(r, b, lo, hi, s, i, k);
      RepeatsAt(t, b, lo', hi', s, k, j);
      CountedJoin(b, lo, hi, lo', hi', s, i, k, j);
    }
    if Counted(b, lo + lo', if hi' < 0 then -1 else hi + hi', s, i, j) {
      var k := CountedSplit(b, lo, hi, lo', hi', s, i, j);
      RepeatsAt(r, b, lo, hi, s, i, k);
      RepeatsAt(t, b, lo', hi', s, k, j);
      CatJoins(r, t, s, i, k, j);
    }
  }

  lemma CountedJoin(b: Regex, lo: nat, hi: nat, lo': nat, hi': int, s: seq<Byte>, i: nat, k: nat, j: nat)
    requires i <= |s| && k <= |s| && Counted(b, lo, hi, s, i, k) && Counted(b, lo', hi', s, k, j)
    ensures Counted(b, lo + lo', if hi' < 0 then -1 else hi + hi', s, i, j)
  {
    hide Reps;
    var n: nat :| lo <= n && n <= hi && Reps(b, n, s, i, k);
    var m: nat :| lo' <= m && (hi' < 0 || m <= hi') && Reps(b, m, s, k, j);
    RepsJoin(b, n, m, s, i, k, j);
  }

  lemma CountedSplit(b: Regex, lo: nat, hi: nat, lo': nat, hi': int, s: seq<Byte>, i: nat, j: nat) returns (k: nat)
    requires lo <= hi && (hi' < 0 || lo' <= hi') && i <= |s|
    requires Counted(b, lo + lo', if hi' < 0 then -1 else hi + hi', s, i, j)
    ensures i <= k <= |s| && Counted(b, lo, hi, s, i, k) && Counted(b, lo', hi', s, k, j)
  {
    hide Reps;
    var n: nat :| lo + lo' <= n && (hi' < 0 || n <= hi + hi') && Reps(b, n, s, i, j);
    var m: nat := if hi' < 0 || n - lo <= hi' then n - lo else hi';
    k := RepsSplit(b, n - m, m, s, i, j);
  }

  lemma MatchesInside(r: Regex, s: seq<Byte>, i: nat, j: nat)
    requires i <= |s|
    ensures Matches(r, s, i, j) ==> i <= j <= |s|
  {}

  lemma NilRepeats(b: Regex)
    ensures Repeats(Nil, b, 0, 0)
  {
    forall s: seq<Byte>, i: nat, j: nat | i <= |s|
      ensures Matches(Nil, s, i, j) <==> Counted(b, 0, 0, s, i, j)
    {
      assert Reps(b, 0, s, i, j) <==> i == j;
    }
  }

  lemma OnceRepeats(b: Regex)
    ensures Repeats(b, b, 1, 1)
  {
    forall s: seq<Byte>, i: nat, j: nat | i <= |s|
      ensures Matches(b, s, i, j) <==> Counted(b, 1, 1, s, i, j)
    {
      RepsOne(b, s, i, j);
    }
  }

  lemma QuestRepeats(greedy: bool, b: Regex)
    ensures Repeats(Quest(greedy, b), b, 0, 1)
  {
    forall s: seq<Byte>, i: nat, j: nat | i <= |s|
      ensures Matches(Quest(greedy, b), s, i, j) <==> Counted(b, 0, 1, s, i, j)
    {
      RepsOne(b, s, i, j);
      assert Reps(b, 0, s, i, j) <==> i == j;
      MatchesInside(b, s, i, j);
    }
  }

  lemma StarRepeats(greedy: bool, b: Regex)
    ensures Repeats(Star(greedy, b), b, 0, -1)
  {}

  /** r{from,to}, or r{from,} if `to` is -1: the language is that of the repetitions allowed, and of
      the ways to match it those with more rounds are preferred if it is greedy, and those with
      fewer if not. The lexer turns away a `to` below `from`. */
  method DesugarCountedRepetition(subj: Regex, from: nat, to: int, greedy: bool) returns (concat: Regex)
    requires to == -1 || from <= to
    ensures Repeats(concat, subj, from, to)
    ensures SamePreference(concat, Expanded(subj, from, to, greedy))
    ensures Plain(subj) ==> Plain(concat)
  {
    hide Repeats, SamePreference, Expanded;
    OnceRepeats(subj);
    OnceIs(subj);
    CountBegins(subj, subj, 1, greedy);
    if from == 1 && to == 1 {
      return subj;
    }
    var i;
    if from == 0 {
      concat := Nil;
      i := 0;
      NilRepeats(subj);
      SameItself(Nil);
    } else {
      concat := subj;
      i := 1;
      while i < from
        invariant 1 <= i <= from && Repeats(concat, subj, i, i) && SamePreference(concat, Exactly(subj, i))
        invariant Plain(subj) ==> Plain(concat)
      {
        CountBegins(concat, subj, i, greedy);
        CatRepeats(concat, subj, subj, i, i, 1, 1);
        concat := Cat(concat, subj);
        i := i + 1;
      }
    }
    CountBegins(concat, subj, from, greedy);
    if from == to {
      return;
    }
    if to == -1 {
      StarRepeats(greedy, subj);
      CatRepeats(concat, Star(greedy, subj), subj, from, from, 0, -1);
      concat := Cat(concat, Star(greedy, subj));
      return;
    }
    QuestRepeats(greedy, subj);
    while i < to
      invariant from <= i <= to && Repeats(concat, subj, from, i) && SamePreference(concat, Expanded(subj, from, i, greedy))
      invariant Plain(subj) ==> Plain(concat)
    {
      CountMore(concat, subj, from, i, greedy);
      CatRepeats(concat, Quest(greedy, subj), subj, from, i, 0, 1);
      concat := Cat(concat, Quest(greedy, subj));
      i := i + 1;
    }
  }

  // ---------- caseless classes ----------

  predicate IsUpper(c: int) { 65 <= c <= 90 }

  predicate IsLower(c: int) { 97 <= c <= 122 }

  /** The other case of an ASCII letter; other bytes stay. */
  function Swap(c: Byte): Byte {
    if IsUpper(c) then c + 32 else if IsLower(c) then c - 32 else c
  }

  /** A node of the linked list of ranges. */
  class RangeNode {
    var from: Byte
    var to: Byte
    var next: RangeNode?

    constructor (from: Byte, to: Byte, next: RangeNode?)
      ensures this.from == from && this.to == to && this.next == next
    {
      this.from, this.to, this.next := from, to, next;
    }
  }

  /** `l` lists the nodes of a chain in order. */
  ghost predicate Linked(l: seq<RangeNode>)
    reads l`next
  {
    NoRepeats(l) && forall k :: 0 <= k < |l| ==> LinkedAt(l, k)
  }

  ghost predicate LinkedAt(l: seq<RangeNode>, k: nat)
    requires k < |l|
    reads l`next
  {
    l[k].next == if k + 1 < |l| then l[k + 1] else null
  }

  function Spliced(l: seq<RangeNode>, at: nat, x: RangeNode): seq<RangeNode>
    requires at < |l|
  {
    l[..at + 1] + [x] + l[at + 1..]
  }

  lemma SplicedDistinct(l: seq<RangeNode>, at: nat, x: RangeNode)
    requires NoRepeats(l) && at < |l| && x !in l
    ensures NoRepeats(Spliced(l, at, x))
  {
    var g := Spliced(l, at, x);
    forall k, m | 0 <= k < m < |g|
      ensures g[k] != g[m]
    {
      assert k != at + 1 && m != at + 1 ==> l[if k <= at then k else k - 1] != l[if m <= at then m else m - 1];
    }
  }

  ghost function Ranges(l: seq<RangeNode>): (rs: seq<Range>)
    reads l`from, l`to
    ensures |rs| == |l| && forall k :: 0 <= k < |l| ==> rs[k] == Range(l[k].from, l[k].to)
  {
    if l == [] then [] else Ranges(l[..|l| - 1]) + [Range(l[|l| - 1].from, l[|l| - 1].to)]
  }

  function Min(a: int, b: int): int { if a < b then a else b }

  predicate Overlaps(r: Range, lo: int, hi: int) { r.to >= lo && r.from <= hi }

  /** A range, and the ranges for the other case of its letters. */
  function WithOtherCase(r: Range): seq<Range> {
    [r] + (if Overlaps(r, 65, 90) then [Range(Max(r.from, 65) + 32, Min(r.to, 90) + 32)] else [])
        + (if Overlaps(r, 97, 122) then [Range(Max(r.from, 97) - 32, Min(r.to, 122) - 32)] else [])
  }

  function Caseless(rs: seq<Range>): seq<Range> {
    if rs == [] then [] else Caseless(rs[..|rs| - 1]) + WithOtherCase(rs[|rs| - 1])
  }

  lemma InRangesConcat(a: seq<Range>, b: seq<Range>, c: Byte)
    ensures InRanges(a + b, c) <==> InRanges(a, c) || InRanges(b, c)
  {
    if InRanges(a, c) {
      var k :| 0 <= k < |a| && a[k].from <= c <= a[k].to;
      assert (a + b)[k] == a[k];
    }
    if InRanges(b, c) {
      var k :| 0 <= k < |b| && b[k].from <= c <= b[k].to;
      assert (a + b)[|a| + k] == b[k];
    }
  }

  lemma InOneRange(r: Range, c: Byte)
    ensures InRanges([r], c) <==> r.from <= c <= r.to
  {
    assert [r][0] == r;
  }

  lemma OtherCaseOfOne(r: Range, c: Byte)
    ensures InRanges(WithOtherCase(r), c) <==> r.from <= c <= r.to || r.from <= Swap(c) <= r.to
  {
    var up := if Overlaps(r, 65, 90) then [Range(Max(r.from, 65) + 32, Min(r.to, 90) + 32)] else [];
    var down := if Overlaps(r, 97, 122) then [Range(Max(r.from, 97) - 32, Min(r.to, 122) - 32)] else [];
    InRangesConcat([r] + up, down, c);
    InRangesConcat([r], up, c);
    InOneRange(r, c);
    if up != [] {
      InOneRange(up[0], c);
    }
    if down != [] {
      InOneRange(down[0], c);
    }
  }

  /** The rewritten class contains a byte exactly when the class contains it or its other case. */
  lemma {:induction false} CaselessMeansEitherCase(rs: seq<Range>, c: Byte)
    ensures InRanges(Caseless(rs), c) <==> InRanges(rs, c) || InRanges(rs, Swap(c))
  {
    if rs != [] {
      var n := |rs| - 1;
      CaselessMeansEitherCase(rs[..n], c);
      OtherCaseOfOne(rs[n], c);
      InRangesConcat(Caseless(rs[..n]), WithOtherCase(rs[n]), c);
      assert rs == rs[..n] + [rs[n]];
      InRangesConcat(rs[..n], [rs[n]], c);
      InRangesConcat(rs[..n], [rs[n]], Swap(c));
      InOneRange(rs[n], c);
      InOneRange(rs[n], Swap(c));
    }
  }

  lemma SplicedLinked(l: seq<RangeNode>, at: nat, x: RangeNode)
    requires at < |l| && l[at].next == x && x.next == if at + 1 < |l| then l[at + 1] else null
    requires forall k :: 0 <= k < |l| && k != at ==> LinkedAt(l, k)
    ensures forall k :: 0 <= k < |l| + 1 ==> LinkedAt(Spliced(l, at, x), k)
  {
    forall k | 0 <= k < |l| + 1
      ensures LinkedAt(Spliced(l, at, x), k)
    {
      assert k != at && k != at + 1 ==> LinkedAt(l, if k < at then k else k - 1);
    }
  }

  /** Splices a new node into the chain behind `chain[at]`. */
  method InsertAfter(r: RangeNode, from: Byte, to: Byte, ghost chain: seq<RangeNode>, ghost at: nat) returns (nr: RangeNode)
    requires Linked(chain) && at < |chain| && chain[at] == r
    modifies r`next
    ensures fresh(nr) && nr.from == from && nr.to == to
    ensures Linked(Spliced(chain, at, nr))
  {
    nr := new RangeNode(from, to, r.next);
    assert LinkedAt(chain, at);
    r.next := nr;
    forall k | 0 <= k < |chain| && k != at
      ensures LinkedAt(chain, k)
    {
      assert old(LinkedAt(chain, k)) && chain[k] != chain[at];
    }
    SplicedDistinct(chain, at, nr);
    SplicedLinked(chain, at, nr);
  }

  /** The node `r` grows into nodes for its range and for the other case of its letters. */
  method Grow(r: RangeNode, ghost chain: seq<RangeNode>, ghost at: nat)
    returns (last: RangeNode, ghost grown: seq<RangeNode>)
    requires Linked(chain) && at < |chain| && chain[at] == r
    modifies r`next
    ensures Linked(chain[..at] + grown + chain[at + 1..])
    ensures grown != [] && grown[0] == r && last == grown[|grown| - 1]
    ensures forall k :: 0 < k < |grown| ==> fresh(grown[k])
    ensures Ranges(grown) == WithOtherCase(Range(r.from, r.to))
  {
    hide Linked;
    var from, to := r.from, r.to;
    last, grown := r, [r];
    ghost var all := chain;
    assert chain == chain[..at] + grown + chain[at + 1..];
    if to >= 65 && from <= 90 {
      last := InsertAfter(r, Max(from, 65) + 32, Min(to, 90) + 32, all, at);
      all, grown := Spliced(all, at, last), [r, last];
      assert all == chain[..at] + grown + chain[at + 1..];
    }
    if to >= 97 && from <= 122 {
      ghost var end := at + |grown| - 1;
      var nr := InsertAfter(last, Max(from, 97) - 32, Min(to, 122) - 32, all, end);
      all, grown := Spliced(all, end, nr), grown + [nr];
      assert all == chain[..at] + grown + chain[at + 1..];
      last := nr;
    }
  }

  /** Grows the chain that starts at `range` while walking along it; `l` lists the chain before,
      `chain` afterwards. */
  method TurnCaseless(range: RangeNode, ghost l: seq<RangeNode>) returns (ghost chain: seq<RangeNode>)
    requires Linked(l) && l != [] && l[0] == range
    modifies l
    ensures Linked(chain) && chain != [] && chain[0] == range
    ensures Ranges(chain) == Caseless(old(Ranges(l)))
  {
    hide *;
    chain := l;
    var r: RangeNode? := range;
    ghost var at, n, rs := 0, 0, Ranges(l);
    CaselessNone();
    while r != null
      invariant Linked(chain) && at <= |chain| && n <= |l| == |rs| && chain[at..] == l[n..]
      invariant chain != [] && chain[0] == range && r == (if at == |chain| then null else chain[at])
      invariant forall k :: n <= k < |l| ==> Range(l[k].from, l[k].to) == rs[k]
      invariant forall k :: 0 <= k < at ==> chain[k] in l || fresh(chain[k])
      invariant Ranges(chain[..at]) == Caseless(rs[..n])
      decreases |l| - n
    {
      ghost var before := chain;
      var last, grown := Grow(r, before, at);
      chain := before[..at] + grown + before[at + 1..];
      ghost var at' := at + |grown|;
      assert chain[at'..] == before[at + 1..] == l[n + 1..] && chain[..at'] == before[..at] + grown;
      RangesConcat(before[..at], grown);
      CaselessOneMore(rs, n);
      NextInChain(chain, at' - 1);
      at, n := at', n + 1;
      r := last.next;
    }
    assert rs[..n] == rs && chain[..at] == chain;
  }

  lemma NextInChain(l: seq<RangeNode>, k: nat)
    requires Linked(l) && k < |l|
    ensures l[k].next == if k + 1 < |l| then l[k + 1] else null
  {
    assert LinkedAt(l, k);
  }

  lemma RangesConcat(a: seq<RangeNode>, b: seq<RangeNode>)
    ensures Ranges(a + b) == Ranges(a) + Ranges(b)
  {}

  lemma CaselessNone()
    ensures Caseless([]) == []
  {}

  lemma CaselessOneMore(rs: seq<Range>, n: nat)
    requires n < |rs|
    ensures Caseless(rs[..n + 1]) == Caseless(rs[..n]) + WithOtherCase(rs[n])
  {
    assert rs[..n + 1][..n] == rs[..n];
  }
}
