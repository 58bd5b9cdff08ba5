/** What linking keeps true: the entries of all sections in one row, where references lead, and
    which slots already hold final values. */
module AsmLink {
  import opened Asm
  import opened AsmMath
  import opened Fixups
  import opened AsmPut

  function Flat(layout: seq<Layout>): Layout {
    if layout == [] then [] else Flat(layout[..|layout| - 1]) + layout[|layout| - 1]
  }

  /** The place of entry `k` of section `s` in the row. */
  function Index(layout: seq<Layout>, s: nat, k: nat): nat
    requires s <= |layout|
  {
    |Flat(layout[..s])| + k
  }

  /** Where section `s` starts, before any cut. */
  function Base(layout: seq<Layout>, s: nat): int
    requires s <= |layout|
  {
    Estimate(Flat(layout[..s]))
  }

  lemma {:induction false} EstimateConcat(a: Layout, b: Layout)
    ensures Estimate(a + b) == Estimate(a) + Estimate(b)
    decreases |b|
  {
    if b == [] {
      assert a + b == a;
    } else {
      var n := |b| - 1;
      assert (a + b)[..|a + b| - 1] == a + b[..n];
      EstimateConcat(a, b[..n]);
    }
  }

  lemma {:induction false} FlatAt(layout: seq<Layout>, s: nat, k: nat)
    requires s < |layout| && k <= |layout[s]|
    ensures Index(layout, s, k) <= |Flat(layout)|
    ensures Flat(layout)[..Index(layout, s, k)] == Flat(layout[..s]) + layout[s][..k]
    ensures k < |layout[s]| ==> Index(layout, s, k) < |Flat(layout)| && Flat(layout)[Index(layout, s, k)] == layout[s][k]
    decreases |layout|
  {
    var n := |layout| - 1;
    if s < n {
      FlatAt(layout[..n], s, k);
      assert layout[..n][..s] == layout[..s] && layout[..n][s] == layout[s];
      assert Flat(layout) == Flat(layout[..n]) + layout[n];
    }
  }

  lemma NextSection(layout: seq<Layout>, s: nat)
    requires s < |layout|
    ensures Index(layout, s, |layout[s]|) == Index(layout, s + 1, 0)
    ensures Base(layout, s + 1) == Base(layout, s) + Estimate(layout[s])
  {
    assert layout[..s + 1][..s] == layout[..s];
    EstimateConcat(Flat(layout[..s]), layout[s]);
  }

  lemma EAt(layout: seq<Layout>, s: nat, k: nat)
    requires s < |layout| && k <= |layout[s]|
    ensures Index(layout, s, k) <= |Flat(layout)|
    ensures E(Flat(layout), Index(layout, s, k)) == Base(layout, s) + Estimate(layout[s][..k])
  {
    FlatAt(layout, s, k);
    EstimateConcat(Flat(layout[..s]), layout[s][..k]);
  }

  lemma {:induction false} IndexGrows(layout: seq<Layout>, s: nat, k: nat, s': nat, k': nat)
    requires s < s' <= |layout| && k <= |layout[s]|
    ensures Index(layout, s, k) <= Index(layout, s', k') && (k < |layout[s]| ==> Index(layout, s, k) < Index(layout, s', k'))
    decreases s'
  {
    NextSection(layout, s' - 1);
    if s < s' - 1 {
      IndexGrows(layout, s, k, s' - 1, |layout[s' - 1]|);
    }
  }

  /** Positions and places are in the same order. */
  lemma SameOrder(secs: seq<Sec>, layout: seq<Layout>, s: nat, k: nat, pos: int, s': nat, k': nat, pos': int)
    requires |secs| == |layout| && forall r :: 0 <= r < |secs| ==> |secs[r].buf| == SlotSum(layout[r]) <= BIAS
    requires Stored(layout, s, k, pos) && Stored(layout, s', k', pos')
    requires Slots(layout[s][k]) > 0 && Slots(layout[s'][k']) > 0
    ensures pos' > pos <==> Index(layout, s', k') > Index(layout, s, k)
    ensures pos' == pos <==> Index(layout, s', k') == Index(layout, s, k)
  {
    hide SlotSum, Flat;
    InSection(layout[s], k);
    InSection(layout[s'], k');
    if s < s' {
      IndexGrows(layout, s, k, s', k');
    } else if s' < s {
      IndexGrows(layout, s', k', s, k);
    } else if k < k' {
      SlotsApart(layout[s], k, k');
    } else if k' < k {
      SlotsApart(layout[s], k', k);
    }
  }

  lemma InSection(items: Layout, k: nat)
    requires k < |items|
    ensures SlotSum(items[..k]) + Slots(items[k]) <= SlotSum(items)
  {
    SlotsApart(items, k, |items|);
    assert items[..|items|] == items;
  }

  // ---------- where references lead ----------

  /** A reference to label `name` that holds `v` leads to the definition of that label in place `t`,
      or out of the program, or nowhere. */
  ghost predicate LeadsTo(layout: seq<Layout>, lg: nat, name: int, v: int, t: int) {
    if t == Nowhere then v >= 0 else if t < 0 then v < 0 else exists s: nat, k: nat :: LabelHere(layout, lg, name, s, k, v, t)
  }

  /** The slot of a reference to a global of another program holds minus its number. */
  predicate External(act: Action, lg: nat, v: int) {
    (act.RelLG? || act.ImmLG?) && 10 <= -v < lg && v == -LabelNo(act)
  }

  ghost predicate LabelHere(layout: seq<Layout>, lg: nat, name: int, s: nat, k: nat, v: int, t: int) {
    v >= 0 && name >= 0 && LabelIs(layout, lg, name, v, s, k) && t == Index(layout, s, k)
  }

  ghost predicate TargetFits(secs: seq<Sec>, layout: seq<Layout>, lg: nat, s: nat, k: nat, t: int)
    requires s < |layout| && k < |layout[s]|
  {
    NumberOk(layout[s][k], lg) &&
    if layout[s][k].Do? && IsRef(layout[s][k].act) then
      var pos := Pos(s, SlotSum(layout[s][..k]));
      InBuffers(secs, pos) && LeadsTo(layout, lg, NameOf(layout[s][k], lg), Slot(secs, pos), t)
      && (IsOutside(t) ==> External(layout[s][k].act, lg, Slot(secs, pos)))
      && (t == Nowhere ==> Dangles(secs, layout, lg, Slot(secs, pos)))
    else t == -1
  }

  ghost predicate TargetsAre(secs: seq<Sec>, layout: seq<Layout>, lg: nat, targets: seq<int>) {
    |targets| == |Flat(layout)| &&
    forall s: nat, k: nat :: s < |layout| && k < |layout[s]| ==> TargetAt(secs, layout, lg, targets, s, k)
  }

  ghost predicate TargetAt(secs: seq<Sec>, layout: seq<Layout>, lg: nat, targets: seq<int>, s: nat, k: nat)
    requires s < |layout| && k < |layout[s]| && |targets| == |Flat(layout)|
  {
    Index(layout, s, k) < |targets| && TargetFits(secs, layout, lg, s, k, targets[Index(layout, s, k)])
  }

  lemma FindTarget(secs: seq<Sec>, layout: seq<Layout>, lg: nat, s: nat, k: nat) returns (t: int)
    requires RefsOk(secs, layout, lg) && s < |layout| && k < |layout[s]|
    ensures TargetFits(secs, layout, lg, s, k, t)
  {
    hide SlotSum;
    var it, pos := layout[s][k], Pos(s, SlotSum(layout[s][..k]));
    t := -1;
    assert Stored(layout, s, k, pos) && RefOk(secs, layout, lg, it, pos);
    if it.Do? && IsRef(it.act) {
      assert Stored(layout, s, k, pos);
      assert RefOk(secs, layout, lg, it, pos);
      var v, name := Slot(secs, pos), NameOf(it, lg);
      if v >= 0 && name >= 0 && LabelAt(layout, lg, name, v) {
        var s': nat, k': nat :| LabelIs(layout, lg, name, v, s', k');
        t := Index(layout, s', k');
        assert LabelHere(layout, lg, name, s', k', v, t);
      } else if v >= 0 {
        t := Nowhere;
      }
    }
  }

  /** Every reference has its target. */
  lemma FindTargets(secs: seq<Sec>, layout: seq<Layout>, lg: nat) returns (targets: seq<int>)
    requires RefsOk(secs, layout, lg)
    ensures TargetsAre(secs, layout, lg, targets)
  {
    hide TargetFits, RefsOk;
    targets := [];
    IndexNone(layout);
    for s := 0 to |layout|
      invariant |targets| == Index(layout, s, 0)
      invariant forall r: nat, j: nat :: r < |layout| && j < |layout[r]| && Before(r, j, s, 0) ==> Fits(secs, layout, lg, targets, r, j)
    {
      for k := 0 to |layout[s]|
        invariant |targets| == Index(layout, s, k)
        invariant forall r: nat, j: nat :: r < |layout| && j < |layout[r]| && Before(r, j, s, k) ==> Fits(secs, layout, lg, targets, r, j)
      {
        var t := FindTarget(secs, layout, lg, s, k);
        var k' := k + 1;
        forall r: nat, j: nat | r < |layout| && j < |layout[r]| && Before(r, j, s, k')
          ensures Fits(secs, layout, lg, targets + [t], r, j)
        {
          assert Before(r, j, s, k) ==> Fits(secs, layout, lg, targets, r, j);
        }
        targets := targets + [t];
      }
      NextSection(layout, s);
    }
    assert layout[..|layout|] == layout;
    forall s: nat, k: nat | s < |layout| && k < |layout[s]|
      ensures TargetAt(secs, layout, lg, targets, s, k)
    {
      assert Fits(secs, layout, lg, targets, s, k);
    }
  }

  ghost predicate Fits(secs: seq<Sec>, layout: seq<Layout>, lg: nat, targets: seq<int>, s: nat, k: nat)
    requires s < |layout| && k < |layout[s]|
  {
    Index(layout, s, k) < |targets| && TargetFits(secs, layout, lg, s, k, targets[Index(layout, s, k)])
  }

  lemma IndexNone(layout: seq<Layout>)
    ensures Index(layout, 0, 0) == 0 && Base(layout, 0) == 0
  {
    assert layout[..0] == [];
  }

  // ---------- half-way through linking ----------

  /** The slots of an entry the linker has passed, if the entry ended up at `f` with `cut` cut. */
  ghost predicate EntryDone(buf: seq<int>, items: Layout, k: nat, f: int, cut: int)
    requires k < |items|
  {
    var a := SlotSum(items[..k]);
    a + Slots(items[k]) <= |buf| &&
    match items[k]
    case Begin(start) => buf[a] == start
    case Do(act, arg) =>
      if IsImm(act) || act.Space? then buf[a] == arg
      else if IsRel(act) then buf[a + 1] == cut
      else if IsLabel(act) then buf[a] == f
      else true
  }

  predicate Before(s: nat, k: nat, s': nat, k': nat) {
    s < s' || (s == s' && k < k')
  }

  /** The linker has come to entry `k` of section `s`. */
  ghost predicate LinkState(secs: seq<Sec>, layout: seq<Layout>, cuts: seq<int>, s: nat, k: nat) {
    && |secs| == |layout| && s <= |layout| && |cuts| == Index(layout, s, k) <= |Flat(layout)|
    && (forall r :: 0 <= r < |secs| ==> |secs[r].buf| == SlotSum(layout[r]) <= BIAS && secs[r].ofs == Estimate(layout[r]))
    && forall r: nat, j: nat :: r < |layout| && j < |layout[r]| ==> EntryState(secs, layout, cuts, s, k, r, j)
  }

  ghost predicate EntryState(secs: seq<Sec>, layout: seq<Layout>, cuts: seq<int>, s: nat, k: nat, r: nat, j: nat)
    requires r < |secs| == |layout| && j < |layout[r]| && |cuts| <= |Flat(layout)|
  {
    if Before(r, j, s, k) then
      var g := Index(layout, r, j);
      g < |cuts| && EntryDone(secs[r].buf, layout[r], j, F(Flat(layout), cuts, g), cuts[g])
    else FilledAt(secs[r].buf, layout[r], j)
  }

  lemma FAppend(all: Layout, cuts: seq<int>, c: int, g: nat)
    requires g <= |cuts| < |all|
    ensures F(all, cuts + [c], g) == F(all, cuts, g)
  {
    assert (cuts + [c])[..g] == cuts[..g];
  }

  /** The slots the linker writes when it passes an entry: a label's position, a branch's cut. */
  function Passed(buf: seq<int>, items: Layout, k: nat, f: int, cut: int): seq<int>
    requires k < |items| && SlotSum(items[..k]) + Slots(items[k]) <= |buf|
  {
    var a := SlotSum(items[..k]);
    if IsRelItem(items[k]) then buf[a + 1 := cut] else if IsLabelItem(items[k]) then buf[a := f] else buf
  }

  lemma PassedKeeps(buf: seq<int>, items: Layout, k: nat, f: int, cut: int, j: nat)
    requires k < |items| && j < |items| && j != k && SlotSum(items[..k]) + Slots(items[k]) <= |buf|
    ensures FilledAt(buf, items, j) ==> FilledAt(Passed(buf, items, k, f, cut), items, j)
    ensures forall f': int, cut': int :: EntryDone(buf, items, j, f', cut') ==> EntryDone(Passed(buf, items, k, f, cut), items, j, f', cut')
  {
    hide SlotSum, Estimate;
    if j < k {
      SlotsApart(items, j, k);
    } else {
      SlotsApart(items, k, j);
    }
  }

  lemma PassedDone(buf: seq<int>, items: Layout, k: nat, f: int, cut: int)
    requires k < |items| && FilledAt(buf, items, k)
    ensures EntryDone(Passed(buf, items, k, f, cut), items, k, f, cut)
  {}

  /** Passing entry `k` of section `s`. */
  lemma LinkStep(secs: seq<Sec>, layout: seq<Layout>, cuts: seq<int>, s: nat, k: nat, cut: int)
    requires LinkState(secs, layout, cuts, s, k) && s < |layout| && k < |layout[s]|
    requires FilledAt(secs[s].buf, layout[s], k)
    ensures var buf := Passed(secs[s].buf, layout[s], k, F(Flat(layout), cuts, |cuts|), cut);
            LinkState(secs[s := secs[s].(buf := buf)], layout, cuts + [cut], s, k + 1)
  {
    hide SlotSum, Estimate, F, FilledAt, EntryDone, Passed, Flat;
    var all, g := Flat(layout), |cuts|;
    var f := F(all, cuts, g);
    PassedSize(secs[s].buf, layout[s], k, f, cut);
    var buf := Passed(secs[s].buf, layout[s], k, f, cut);
    var secs', cuts', next := secs[s := secs[s].(buf := buf)], cuts + [cut], k + 1;
    FlatAt(layout, s, k);
    forall r: nat, j: nat | r < |layout| && j < |layout[r]|
      ensures EntryState(secs', layout, cuts', s, next, r, j)
    {
      assert EntryState(secs, layout, cuts, s, k, r, j);
      if r == s && j == k {
        PassedDone(secs[s].buf, layout[s], k, f, cut);
        FAppend(all, cuts, cut, g);
      } else {
        if r == s {
          PassedKeeps(secs[s].buf, layout[s], k, f, cut, j);
        }
        if Before(r, j, s, k) {
          FAppend(all, cuts, cut, Index(layout, r, j));
        }
      }
    }
  }

  lemma PassedSize(buf: seq<int>, items: Layout, k: nat, f: int, cut: int)
    requires k < |items| && FilledAt(buf, items, k)
    ensures SlotSum(items[..k]) + Slots(items[k]) <= |buf|
    ensures |Passed(buf, items, k, f, cut)| == |buf|
  {}

  /** The linker's running offset when it has come to section `s`: what to add to an estimate. */
  function OfsAt(layout: seq<Layout>, cuts: seq<int>, s: nat): int
    requires s <= |layout| && |cuts| <= |Flat(layout)|
  {
    Base(layout, s) + F(Flat(layout), cuts, |cuts|) - E(Flat(layout), |cuts|)
  }

  lemma OfsStep(layout: seq<Layout>, cuts: seq<int>, s: nat, k: nat, cut: int)
    requires s < |layout| && k < |layout[s]| && |cuts| == Index(layout, s, k) < |Flat(layout)|
    ensures OfsAt(layout, cuts + [cut], s)
            == OfsAt(layout, cuts, s) - Most(layout[s][k]) + Size(layout[s][k], F(Flat(layout), cuts, |cuts|), cut)
  {
    hide Flat, F, E, Base, Size, Most;
    FlatAt(layout, s, k);
    FStep(Flat(layout), cuts + [cut], |cuts|);
    FAppend(Flat(layout), cuts, cut, |cuts|);
  }

  /** Estimates in a section, and what the running offset makes of them. */
  lemma OfsIs(layout: seq<Layout>, cuts: seq<int>, s: nat, k: nat)
    requires s < |layout| && k < |layout[s]| && |cuts| == Index(layout, s, k) < |Flat(layout)|
    ensures Estimate(layout[s][..k]) + OfsAt(layout, cuts, s) == F(Flat(layout), cuts, |cuts|)
    ensures Estimate(layout[s][..k + 1]) + OfsAt(layout, cuts, s) == F(Flat(layout), cuts, |cuts|) + Most(layout[s][k])
    ensures Flat(layout)[|cuts|] == layout[s][k]
  {
    hide Flat, F, Most, Estimate;
    EAt(layout, s, k);
    EAt(layout, s, k + 1);
    FlatAt(layout, s, k);
    FStep(Flat(layout), cuts + [0], |cuts|);
  }

  lemma CutsAppend(all: Layout, targets: seq<int>, cuts: seq<int>, cut: int)
    requires CutsOk(all, targets, cuts) && |cuts| < |all| && CutFits(all, cuts, |cuts|, targets[|cuts|], cut)
    ensures CutsOk(all, targets, cuts + [cut])
  {
    hide F, E, ShrinkOf, Opcode;
    var cuts' := cuts + [cut];
    forall g | 0 <= g < |cuts'|
      ensures CutAt(all, targets, cuts', g)
    {
      assert g < |cuts| ==> CutAt(all, targets, cuts, g);
      FAppend(all, cuts, cut, g);
      if 0 <= targets[g] < g {
        FAppend(all, cuts, cut, targets[g]);
      }
    }
  }

  /** Passing an entry changes no reference. */
  lemma TargetsKept(secs: seq<Sec>, layout: seq<Layout>, lg: nat, targets: seq<int>, s: nat, k: nat, f: int, cut: int)
    requires |secs| == |layout| && s < |layout| && k < |layout[s]| && TargetsAre(secs, layout, lg, targets)
    requires forall q :: 0 <= q < |secs| ==> |secs[q].buf| == SlotSum(layout[q]) <= BIAS
    requires SlotSum(layout[s][..k]) + Slots(layout[s][k]) <= |secs[s].buf|
    ensures TargetsAre(secs[s := secs[s].(buf := Passed(secs[s].buf, layout[s], k, f, cut))], layout, lg, targets)
  {
    hide SlotSum, LeadsTo, Flat, Index;
    var secs' := secs[s := secs[s].(buf := Passed(secs[s].buf, layout[s], k, f, cut))];
    forall r: nat, j: nat | r < |layout| && j < |layout[r]|
      ensures TargetAt(secs', layout, lg, targets, r, j)
    {
      assert TargetAt(secs, layout, lg, targets, r, j);
      if layout[r][j].Do? && IsRef(layout[r][j].act) {
        RefSlotKept(secs, layout, s, k, f, cut, r, j);
      }
    }
  }

  lemma RefSlotKept(secs: seq<Sec>, layout: seq<Layout>, s: nat, k: nat, f: int, cut: int, r: nat, j: nat)
    requires |secs| == |layout| && s < |layout| && k < |layout[s]| && r < |layout| && j < |layout[r]|
    requires forall q :: 0 <= q < |secs| ==> |secs[q].buf| == SlotSum(layout[q]) <= BIAS
    requires SlotSum(layout[s][..k]) + Slots(layout[s][k]) <= |secs[s].buf| && layout[r][j].Do? && IsRef(layout[r][j].act)
    ensures var secs' := secs[s := secs[s].(buf := Passed(secs[s].buf, layout[s], k, f, cut))];
            var pos := Pos(r, SlotSum(layout[r][..j]));
            InBuffers(secs, pos) ==> InBuffers(secs', pos) && Slot(secs', pos) == Slot(secs, pos)
  {
    hide SlotSum;
    InSection(layout[r], j);
    PosParts(r, SlotSum(layout[r][..j]));
    if r == s && j < k {
      SlotsApart(layout[s], j, k);
    } else if r == s && k < j {
      SlotsApart(layout[s], k, j);
    }
  }

  /** Nor does it change what any reference is bound to. */
  lemma BoundKept(secs: seq<Sec>, layout: seq<Layout>, lg: nat, t: seq<Event>, s: nat, k: nat, f: int, cut: int)
    requires |secs| == |layout| && s < |layout| && k < |layout[s]| && AllBound(secs, layout, lg, t) && EventsAt(layout, lg, t)
    requires forall q :: 0 <= q < |secs| ==> |secs[q].buf| == SlotSum(layout[q]) <= BIAS
    requires SlotSum(layout[s][..k]) + Slots(layout[s][k]) <= |secs[s].buf|
    ensures AllBound(secs[s := secs[s].(buf := Passed(secs[s].buf, layout[s], k, f, cut))], layout, lg, t)
  {
    hide SlotSum, Meant;
    var secs' := secs[s := secs[s].(buf := Passed(secs[s].buf, layout[s], k, f, cut))];
    forall i: nat | i < |t| && t[i].Ref?
      ensures BoundSlot(secs', layout, lg, t, i)
    {
      assert BoundSlot(secs, layout, lg, t, i) && EventAt(layout, lg, t[i]);
      var r: nat, j: nat :| RefIs(layout, lg, t[i].name, t[i].pos, r, j);
      RefSlotKept(secs, layout, s, k, f, cut, r, j);
    }
  }

  /** Where the branch at entry `k` of section `s` leads, and what the label's slot holds: an
      estimate if the label lies ahead, its final position if it lies behind. */
  lemma Lead(secs: seq<Sec>, layout: seq<Layout>, lg: nat, targets: seq<int>, cuts: seq<int>, s: nat, k: nat, pos: int, v: int)
    returns (s': nat, k': nat)
    requires LinkState(secs, layout, cuts, s, k) && TargetsAre(secs, layout, lg, targets) && s < |layout| && k < |layout[s]|
    requires IsRelItem(layout[s][k]) && pos == Pos(s, SlotSum(layout[s][..k])) && InBuffers(secs, pos) && v == Slot(secs, pos)
    ensures |cuts| < |targets| && (v < 0 <==> IsOutside(targets[|cuts|])) && (targets[|cuts|] == Nowhere ==> InBuffers(secs, v))
    ensures v >= 0 && targets[|cuts|] != Nowhere ==>
              var t := targets[|cuts|];
              && s' < |layout| && k' < |layout[s']| && InBuffers(secs, v) && s' == v / BIAS && t == Index(layout, s', k')
              && (v > pos <==> t > |cuts|) && t <= |Flat(layout)|
              && (v > pos ==> s <= s' && Slot(secs, v) == Estimate(layout[s'][..k']))
              && (v <= pos ==> t <= |cuts| && Slot(secs, v) == F(Flat(layout), cuts, t))
  {
    hide SlotSum, Flat, F, Estimate;
    assert TargetAt(secs, layout, lg, targets, s, k);
    s', k' := 0, 0;
    var t := targets[|cuts|];
    if v >= 0 && t != Nowhere {
      s', k' :| LabelHere(layout, lg, NameOf(layout[s][k], lg), s', k', v, t);
      assert EntryState(secs, layout, cuts, s, k, s', k');
      SameOrder(secs, layout, s, k, pos, s', k', v);
      InSection(layout[s'], k');
      PosParts(s', SlotSum(layout[s'][..k']));
      FlatAt(layout, s', k');
      FlatAt(layout, s, k);
      InOrder(layout, s, k, s', k');
    }
  }

  lemma InOrder(layout: seq<Layout>, s: nat, k: nat, s': nat, k': nat)
    requires s < |layout| && k < |layout[s]| && s' < |layout| && k' < |layout[s']|
    ensures Index(layout, s', k') < Index(layout, s, k) <==> Before(s', k', s, k)
    ensures Index(layout, s', k') > Index(layout, s, k) ==> s <= s'
  {
    hide Flat;
    if s < s' {
      IndexGrows(layout, s, k, s', k');
    } else if s' < s {
      IndexGrows(layout, s', k', s, k);
    }
  }

  /** The linker's arithmetic gives the distance. */
  lemma DistanceIs(layout: seq<Layout>, cuts: seq<int>, s: nat, k: nat, s': nat, k': nat)
    requires s < |layout| && k < |layout[s]| && s' < |layout| && k' < |layout[s']|
    requires |cuts| == Index(layout, s, k) < |Flat(layout)| && IsRelItem(layout[s][k]) && Index(layout, s', k') <= |Flat(layout)|
    ensures Index(layout, s', k') > |cuts| ==>
              Estimate(layout[s'][..k']) + Base(layout, s') - Base(layout, s) - Estimate(layout[s][..k + 1])
              == Distance(Flat(layout), cuts, |cuts|, Index(layout, s', k'))
    ensures Index(layout, s', k') <= |cuts| ==>
              F(Flat(layout), cuts, Index(layout, s', k')) - OfsAt(layout, cuts, s) - Estimate(layout[s][..k + 1])
              == Distance(Flat(layout), cuts, |cuts|, Index(layout, s', k'))
  {
    hide Flat, F, E, Estimate, Base, OfsAt;
    OfsIs(layout, cuts, s, k);
    EAt(layout, s, k + 1);
    EAt(layout, s', k');
  }

  /** After linking, a reference's slot leads to the final position of its label. */
  lemma LeadFinal(secs: seq<Sec>, layout: seq<Layout>, lg: nat, targets: seq<int>, cuts: seq<int>, s: nat, k: nat, pos: int)
    requires LinkState(secs, layout, cuts, |layout|, 0) && TargetsAre(secs, layout, lg, targets) && s < |layout| && k < |layout[s]|
    requires layout[s][k].Do? && IsRef(layout[s][k].act) && pos == Pos(s, SlotSum(layout[s][..k]))
    ensures InBuffers(secs, pos) && Index(layout, s, k) < |targets|
    ensures var v, t := Slot(secs, pos), targets[Index(layout, s, k)];
            && (v < 0 <==> IsOutside(t)) && (v < 0 ==> External(layout[s][k].act, lg, v)) && (t == Nowhere ==> InBuffers(secs, v))
            && LeadsTo(layout, lg, NameOf(layout[s][k], lg), v, t)
            && (v >= 0 && t != Nowhere ==> InBuffers(secs, v) && t <= |cuts| && t <= |Flat(layout)| && Slot(secs, v) == F(Flat(layout), cuts, t))
  {
    hide SlotSum, Flat, F, Estimate;
    assert TargetAt(secs, layout, lg, targets, s, k);
    var v, t := Slot(secs, pos), targets[Index(layout, s, k)];
    if v >= 0 && t != Nowhere {
      var s': nat, k': nat :| LabelHere(layout, lg, NameOf(layout[s][k], lg), s', k', v, t);
      assert EntryState(secs, layout, cuts, |layout|, 0, s', k');
      InSection(layout[s'], k');
      PosParts(s', SlotSum(layout[s'][..k']));
    }
  }

  /** Reference `i` is entry `k` of section `s`, and the place it leads to is that of the definition it
      is meant to get; if there is none, it leads out of the program, if its label is a global, and
      nowhere otherwise. */
  ghost predicate Delivered(layout: seq<Layout>, lg: nat, t: seq<Event>, targets: seq<int>, i: nat, s: nat, k: nat)
    requires i < |t| && t[i].Ref?
  {
    RefIs(layout, lg, t[i].name, t[i].pos, s, k) && Index(layout, s, k) < |targets| &&
    var g := targets[Index(layout, s, k)];
    && (g < 0 ==> forall q :: !Meant(t, i, q)) && (g == Nowhere ==> !(10 <= t[i].name < lg))
    && (g >= 0 ==> exists q, s': nat, k': nat :: MeantAt(layout, lg, t, i, q, s', k') && g == Index(layout, s', k'))
    && forall q, s': nat, k': nat :: MeantAt(layout, lg, t, i, q, s', k') ==> g == Index(layout, s', k')
  }

  /** The definition that reference `i` is meant to get is entry `k` of section `s`. */
  ghost predicate MeantAt(layout: seq<Layout>, lg: nat, t: seq<Event>, i: nat, q: int, s: nat, k: nat)
    requires i < |t| && t[i].Ref?
  {
    Meant(t, i, q) && LabelIs(layout, lg, t[i].name, q, s, k)
  }

  lemma AllDelivered(secs: seq<Sec>, layout: seq<Layout>, lg: nat, t: seq<Event>, targets: seq<int>, i: nat) returns (s: nat, k: nat)
    requires TargetsAre(secs, layout, lg, targets) && AllBound(secs, layout, lg, t) && EventsAt(layout, lg, t) && i < |t| && t[i].Ref?
    requires |secs| == |layout| && forall r :: 0 <= r < |secs| ==> |secs[r].buf| == SlotSum(layout[r]) <= BIAS
    ensures Delivered(layout, lg, t, targets, i, s, k)
  {
    hide SlotSum, Meant, Flat, Index;
    assert EventAt(layout, lg, t[i]) && BoundSlot(secs, layout, lg, t, i);
    s, k :| RefIs(layout, lg, t[i].name, t[i].pos, s, k);
    assert TargetAt(secs, layout, lg, targets, s, k);
    var v, g := Slot(secs, t[i].pos), targets[Index(layout, s, k)];
    assert forall q :: Meant(t, i, q) ==> q == v;
    MeantIsLabel(layout, lg, t, i);
    if v >= 0 && Dangles(secs, layout, lg, v) {
      NoLabelWhereItDangles(secs, layout, lg, v);
    }
    if g >= 0 {
      var s1: nat, k1: nat :| LabelHere(layout, lg, t[i].name, s1, k1, v, g);
      assert LabelAt(layout, lg, t[i].name, v) && MeantAt(layout, lg, t, i, v, s1, k1);
      forall q, s2: nat, k2: nat | MeantAt(layout, lg, t, i, q, s2, k2)
        ensures g == Index(layout, s2, k2)
      {
        OneEntry(layout, s1, k1, s2, k2, v);
      }
    }
  }

  lemma DeliveredHas(layout: seq<Layout>, lg: nat, t: seq<Event>, targets: seq<int>, i: nat, s: nat, k: nat)
    requires i < |t| && t[i].Ref? && Delivered(layout, lg, t, targets, i, s, k)
    ensures s < |layout| && k < |layout[s]| && layout[s][k].Do? && IsRef(layout[s][k].act)
    ensures Index(layout, s, k) < |targets|
  {
  }

  /** What a reference is meant to get is a definition of its label. */
  lemma MeantIsLabel(layout: seq<Layout>, lg: nat, t: seq<Event>, i: nat)
    requires EventsAt(layout, lg, t) && i < |t| && t[i].Ref?
    ensures forall q :: Meant(t, i, q) ==> q > 0 && LabelAt(layout, lg, t[i].name, q)
  {
    hide SlotSum;
    forall q | Meant(t, i, q)
      ensures q > 0 && LabelAt(layout, lg, t[i].name, q)
    {
      var d :| 0 <= d < |t| && t[d].Def? && t[d].name == t[i].name && t[d].pos == q;
      assert EventAt(layout, lg, t[d]);
    }
  }

  /** A dangling slot does not happen to hold the position of a label. */
  lemma NoLabelWhereItDangles(secs: seq<Sec>, layout: seq<Layout>, lg: nat, v: int)
    requires Dangles(secs, layout, lg, v) && forall r :: 0 <= r < |layout| ==> SlotSum(layout[r]) <= BIAS
    ensures forall name: nat :: !LabelAt(layout, lg, name, v)
  {
    hide SlotSum;
    forall name: nat ensures !LabelAt(layout, lg, name, v) {
      if v > 0 && LabelAt(layout, lg, name, v) {
        var s1: nat, k1: nat :| LabelIs(layout, lg, name, v, s1, k1);
        var other: nat :| RefAt(layout, lg, other, v);
        var s2: nat, k2: nat :| RefIs(layout, lg, other, v, s2, k2);
        OneEntry(layout, s1, k1, s2, k2, v);
      }
    }
  }

  /** Two entries with slots do not share a position. */
  lemma OneEntry(layout: seq<Layout>, s1: nat, k1: nat, s2: nat, k2: nat, pos: int)
    requires Stored(layout, s1, k1, pos) && Stored(layout, s2, k2, pos)
    requires Slots(layout[s1][k1]) > 0 && Slots(layout[s2][k2]) > 0
    requires SlotSum(layout[s1]) <= BIAS && SlotSum(layout[s2]) <= BIAS
    ensures s1 == s2 && k1 == k2
  {
    hide SlotSum;
    InSection(layout[s1], k1);
    InSection(layout[s2], k2);
    PosParts(s1, SlotSum(layout[s1][..k1]));
    PosParts(s2, SlotSum(layout[s2][..k2]));
    if k1 < k2 {
      SlotsApart(layout[s1], k1, k2);
    } else if k2 < k1 {
      SlotsApart(layout[s1], k2, k1);
    }
  }

  /** After linking, an entry's slots hold its final values. */
  lemma EntryFinal(secs: seq<Sec>, layout: seq<Layout>, cuts: seq<int>, s: nat, k: nat)
    requires LinkState(secs, layout, cuts, |layout|, 0) && s < |layout| && k < |layout[s]|
    ensures s < |secs| && |secs[s].buf| == SlotSum(layout[s]) <= BIAS
    ensures Index(layout, s, k) < |cuts| <= |Flat(layout)| && Flat(layout)[Index(layout, s, k)] == layout[s][k]
    ensures EntryDone(secs[s].buf, layout[s], k, F(Flat(layout), cuts, Index(layout, s, k)), cuts[Index(layout, s, k)])
  {
    hide SlotSum, Flat, F, Estimate, EntryDone;
    assert EntryState(secs, layout, cuts, |layout|, 0, s, k);
    FlatAt(layout, s, k);
  }
}
