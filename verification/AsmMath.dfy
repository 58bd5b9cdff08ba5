/** Byte positions before and after shrinking, over the entries of all sections in a row. */
module AsmMath {
  import opened Asm

  /** The position of entry `g` once the cuts before it are made. */
  function F(all: Layout, cuts: seq<int>, g: nat): int
    requires g <= |cuts| <= |all|
  {
    Final(all[..g], cuts[..g])
  }

  function E(all: Layout, g: nat): int
    requires g <= |all|
  {
    Estimate(all[..g])
  }

  ghost predicate GoodLayout(all: Layout) {
    forall g :: 0 <= g < |all| ==> GoodEntry(all[g])
  }

  predicate GoodEntry(it: Item) {
    GoodItem(it) && (it.Do? && it.act.Align? ==> IsMask(it.act.mask))
  }

  predicate IsRelItem(it: Item) { it.Do? && IsRel(it.act) }

  predicate IsLabelItem(it: Item) { it.Do? && IsLabel(it.act) }

  lemma FStep(all: Layout, cuts: seq<int>, g: nat)
    requires g < |cuts| <= |all|
    ensures F(all, cuts, g + 1) == F(all, cuts, g) + Size(all[g], F(all, cuts, g), cuts[g])
    ensures E(all, g + 1) == E(all, g) + Most(all[g])
  {
    assert all[..g + 1][..g] == all[..g] && cuts[..g + 1][..g] == cuts[..g];
  }

  lemma SizeBounds(it: Item, f: int, cut: int)
    requires GoodEntry(it) && 0 <= cut <= 4
    ensures 0 <= Size(it, f, cut) <= Most(it)
  {}

  ghost predicate SmallCuts(cuts: seq<int>) {
    forall g :: 0 <= g < |cuts| ==> 0 <= cuts[g] <= 4
  }

  /** Positions grow from entry to entry, and every correction is at most zero. */
  lemma {:induction false} Monotone(all: Layout, cuts: seq<int>, a: nat, b: nat)
    requires a <= b <= |cuts| <= |all| && GoodLayout(all) && SmallCuts(cuts)
    ensures F(all, cuts, a) <= F(all, cuts, b)
    ensures F(all, cuts, b) - E(all, b) <= F(all, cuts, a) - E(all, a)
    decreases b - a
  {
    hide F, E, Size, Most, GoodEntry;
    if a < b {
      Monotone(all, cuts, a, b - 1);
      FStep(all, cuts, b - 1);
      SizeBounds(all[b - 1], F(all, cuts, b - 1), cuts[b - 1]);
    }
  }

  /** The opcode byte an action list shows before entry `g`; at its start, the end of another. */
  function Opcode(all: Layout, g: nat): int
    requires g <= |all|
  {
    if g > 0 && all[g - 1].Do? then LastByte(all[g - 1].act) else 255
  }

  /** The distance the linker looks at for the branch at `g` to entry `h`. Ahead, positions are
      still estimates; behind, they are final. */
  function Distance(all: Layout, cuts: seq<int>, g: nat, h: nat): int
    requires g < |all| && h <= |all| && |cuts| <= |all| && g <= |cuts|
  {
    if h > g then E(all, h) - E(all, g + 1) else F(all, cuts, h) - F(all, cuts, g) - 4
  }

  /** What the linker cuts from entry `g`, if it is a branch to entry `target` (negative: to a
      label of another program). */
  function CutFor(all: Layout, cuts: seq<int>, g: nat, target: int): int
    requires g < |all| && target <= |all| && |cuts| <= |all| && g <= |cuts|
  {
    if !IsRelItem(all[g]) || target < 0 then 0
    else
      var shrink := ShrinkOf(Opcode(all, g));
      var d := Distance(all, cuts, g, target);
      if shrink > 0 && -128 - shrink <= d <= 127 then shrink else 0
  }

  /** The target of a reference to a label that is not defined. What the linker reads there is not a
      position, so a branch may come out long or short. */
  const Nowhere := -2

  /** The reference leads to a label of another program. */
  predicate IsOutside(target: int) { target < 0 && target != Nowhere }

  predicate CutFits(all: Layout, cuts: seq<int>, g: nat, target: int, cut: int)
    requires g < |all| && target <= |all| && |cuts| <= |all| && g <= |cuts|
  {
    cut == CutFor(all, cuts, g, target) || (target == Nowhere && IsRelItem(all[g]) && cut == ShrinkOf(Opcode(all, g)))
  }

  ghost predicate CutsOk(all: Layout, targets: seq<int>, cuts: seq<int>) {
    && |cuts| <= |all| == |targets|
    && (forall g :: 0 <= g < |all| ==> targets[g] <= |all| && targets[g] != g)
    && forall g :: 0 <= g < |cuts| ==> CutAt(all, targets, cuts, g)
  }

  ghost predicate CutAt(all: Layout, targets: seq<int>, cuts: seq<int>, g: nat)
    requires g < |cuts| <= |all| == |targets| && targets[g] <= |all|
  {
    CutFits(all, cuts, g, targets[g], cuts[g])
  }

  lemma CutsSmall(all: Layout, targets: seq<int>, cuts: seq<int>)
    requires CutsOk(all, targets, cuts)
    ensures SmallCuts(cuts)
  {
    forall g | 0 <= g < |cuts|
      ensures 0 <= cuts[g] <= 4
    {
      assert CutAt(all, targets, cuts, g);
    }
  }

  /** A shortened branch reaches its label: the displacement from the end of the branch, all
      cuts made, fits a signed byte, whether the label lies ahead or behind. */
  lemma ShortBranchFits(all: Layout, targets: seq<int>, cuts: seq<int>, g: nat)
    requires CutsOk(all, targets, cuts) && |cuts| == |all| && GoodLayout(all) && g < |all| && cuts[g] > 0 && targets[g] != Nowhere
    ensures targets[g] >= 0 && FitsByte(F(all, cuts, targets[g]) - F(all, cuts, g + 1))
  {
    hide F, E, GoodLayout, ShrinkOf, Opcode;
    var h := targets[g];
    assert CutAt(all, targets, cuts, g);
    CutsSmall(all, targets, cuts);
    FStep(all, cuts, g);
    if h > g {
      Monotone(all, cuts, g + 1, h);
    } else {
      Monotone(all, cuts, h, g);
    }
  }
}
