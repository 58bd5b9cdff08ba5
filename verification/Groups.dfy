/** What the capture groups of a hit hold: a group that is set, both its slots, holds a stretch that
    the group matches. */
module GroupSlots {
  import opened Regexes
  import opened Bytecode
  import opened Compiler
  import opened Patterns
  import opened Backtracking
  import opened PikeSpec
  import opened LeadingBytes
  import opened Spans

  // ---------- groups of a regex ----------

  /** `body` stands in the regex as a group with number g. */
  predicate HasGroup(r: Regex, g: nat, body: Regex) {
    match r
    case Alt(l, r') => HasGroup(l, g, body) || HasGroup(r', g, body)
    case Cat(l, r') => HasGroup(l, g, body) || HasGroup(r', g, body)
    case Paren(h, b) => (g == h && body == b) || HasGroup(b, g, body)
    case Quest(_, b) => HasGroup(b, g, body)
    case Star(_, b) => HasGroup(b, g, body)
    case Plus(_, b) => HasGroup(b, g, body)
    case Toplevel(_, b) => HasGroup(b, g, body)
    case _ => false
  }

  predicate Within(small: Regex, r: Regex) {
    match r
    case Alt(l, r') => small == l || small == r'
    case Cat(l, r') => small == l || small == r'
    case Paren(_, b) => small == b
    case Quest(_, b) => small == b
    case Star(_, b) => small == b
    case Plus(_, b) => small == b
    case Toplevel(_, b) => small == b
    case _ => false
  }

  /** The number g is not given to a group inside. */
  predicate Without(r: Regex, g: nat) {
    match r
    case Alt(l, r') => Without(l, g) && Without(r', g)
    case Cat(l, r') => Without(l, g) && Without(r', g)
    case Paren(h, b) => g != h && Without(b, g)
    case Quest(_, b) => Without(b, g)
    case Star(_, b) => Without(b, g)
    case Plus(_, b) => Without(b, g)
    case Toplevel(_, b) => Without(b, g)
    case _ => true
  }

  /** No group is inside another of its number. A repeated group does repeat its number. */
  predicate WellNested(r: Regex) {
    match r
    case Alt(l, r') => WellNested(l) && WellNested(r')
    case Cat(l, r') => WellNested(l) && WellNested(r')
    case Paren(g, b) => Without(b, g) && WellNested(b)
    case Quest(_, b) => WellNested(b)
    case Star(_, b) => WellNested(b)
    case Plus(_, b) => WellNested(b)
    case Toplevel(_, b) => WellNested(b)
    case _ => true
  }

  lemma {:induction false} WithoutHasNone(r: Regex, g: nat, body: Regex)
    requires Without(r, g)
    ensures !HasGroup(r, g, body)
  {
    match r
    case Alt(l, r') => WithoutHasNone(l, g, body); WithoutHasNone(r', g, body);
    case Cat(l, r') => WithoutHasNone(l, g, body); WithoutHasNone(r', g, body);
    case Paren(_, b) => WithoutHasNone(b, g, body);
    case Quest(_, b) => WithoutHasNone(b, g, body);
    case Star(_, b) => WithoutHasNone(b, g, body);
    case Plus(_, b) => WithoutHasNone(b, g, body);
    case Toplevel(_, b) => WithoutHasNone(b, g, body);
    case _ =>
  }

  // ---------- paths with captures ----------

  function Saved(P: Program, c: Conf, a: Captures): Captures {
    if c.pc < |P| && P[c.pc].Save? then Put(a, P[c.pc].group, c.pos) else a
  }

  /** A path that turns the captures `a` into `b`. */
  ghost predicate CapPath(P: Program, s: seq<Byte>, lo: nat, hi: nat, n: nat, c: Conf, a: Captures, d: Conf, b: Captures)
    decreases n
  {
    if n == 0 then c == d && a == b
    else lo <= c.pc < hi && exists e :: Step(P, s, c, e) && CapPath(P, s, lo, hi, n - 1, e, Saved(P, c, a), d, b)
  }

  lemma {:induction false} CapIsPath(P: Program, s: seq<Byte>, lo: nat, hi: nat, n: nat, c: Conf, a: Captures, d: Conf, b: Captures)
    requires CapPath(P, s, lo, hi, n, c, a, d, b)
    ensures Path(P, s, lo, hi, n, c, d) && |a| == |b|
  {
    if n > 0 {
      var e :| Step(P, s, c, e) && CapPath(P, s, lo, hi, n - 1, e, Saved(P, c, a), d, b);
      CapIsPath(P, s, lo, hi, n - 1, e, Saved(P, c, a), d, b);
    }
  }

  lemma CapFirst(P: Program, s: seq<Byte>, lo: nat, hi: nat, n: nat, c: Conf, a: Captures, d: Conf, b: Captures) returns (e: Conf)
    requires CapPath(P, s, lo, hi, n, c, a, d, b) && c.pc != d.pc && c.pos <= |s|
    ensures n > 0 && Step(P, s, c, e) && CapPath(P, s, lo, hi, n - 1, e, Saved(P, c, a), d, b) && e.pos <= |s|
  {
    e :| Step(P, s, c, e) && CapPath(P, s, lo, hi, n - 1, e, Saved(P, c, a), d, b);
  }

  lemma CapOver(P: Program, s: seq<Byte>, lo: nat, hi: nat, n: nat, c: Conf, a: Captures, d: Conf, b: Captures)
    requires CapPath(P, s, lo, hi, n, c, a, d, b) && !(lo <= c.pc < hi)
    ensures n == 0 && c == d && a == b
  {}

  lemma {:induction false} CapExit(P: Program, s: seq<Byte>, lo: nat, hi: nat, x: nat, y: nat,
                                   n: nat, c: Conf, a: Captures, d: Conf, b: Captures) returns (m: nat, e: Conf, mid: Captures)
    requires Segment(P, x, y) && x <= c.pc <= y
    requires CapPath(P, s, lo, hi, n, c, a, d, b) && !(x <= d.pc < y)
    ensures m <= n && e.pc == y
    ensures CapPath(P, s, x, y, m, c, a, e, mid) && CapPath(P, s, lo, hi, n - m, e, mid, d, b)
    decreases n
  {
    if c.pc == y {
      m, e, mid := 0, c, a;
    } else {
      var c' :| Step(P, s, c, c') && CapPath(P, s, lo, hi, n - 1, c', Saved(P, c, a), d, b);
      m, e, mid := CapExit(P, s, lo, hi, x, y, n - 1, c', Saved(P, c, a), d, b);
      m := m + 1;
    }
  }

  lemma {:induction false} CapConcat(P: Program, s: seq<Byte>, lo: nat, hi: nat,
                                     n: nat, c: Conf, a: Captures, d: Conf, b: Captures, m: nat, e: Conf, x: Captures)
    requires CapPath(P, s, lo, hi, n, c, a, d, b) && CapPath(P, s, lo, hi, m, d, b, e, x)
    ensures CapPath(P, s, lo, hi, n + m, c, a, e, x)
    decreases n
  {
    if n > 0 {
      var c' :| Step(P, s, c, c') && CapPath(P, s, lo, hi, n - 1, c', Saved(P, c, a), d, b);
      CapConcat(P, s, lo, hi, n - 1, c', Saved(P, c, a), d, b, m, e, x);
    }
  }

  /** Some path turns the captures `a` into `b`. */
  ghost predicate CapRuns(P: Program, s: seq<Byte>, c: Conf, a: Captures, d: Conf, b: Captures) {
    exists n: nat :: CapPath(P, s, 0, |P|, n, c, a, d, b)
  }

  lemma CapRunsHere(P: Program, s: seq<Byte>, c: Conf, a: Captures)
    ensures CapRuns(P, s, c, a, c, a)
  {
    assert CapPath(P, s, 0, |P|, 0, c, a, c, a);
  }

  lemma CapRunsStep(P: Program, s: seq<Byte>, c: Conf, a: Captures, e: Conf, d: Conf, b: Captures)
    requires c.pc < |P| && Step(P, s, c, e) && CapRuns(P, s, e, Saved(P, c, a), d, b)
    ensures CapRuns(P, s, c, a, d, b)
  {
    var n: nat :| CapPath(P, s, 0, |P|, n, e, Saved(P, c, a), d, b);
    assert CapPath(P, s, 0, |P|, n + 1, c, a, d, b);
  }

  lemma CapRunsTrans(P: Program, s: seq<Byte>, c: Conf, a: Captures, d: Conf, b: Captures, e: Conf, x: Captures)
    requires CapRuns(P, s, c, a, d, b) && CapRuns(P, s, d, b, e, x)
    ensures CapRuns(P, s, c, a, e, x)
  {
    var n: nat :| CapPath(P, s, 0, |P|, n, c, a, d, b);
    var m: nat :| CapPath(P, s, 0, |P|, m, d, b, e, x);
    CapConcat(P, s, 0, |P|, n, c, a, d, b, m, e, x);
  }

  lemma CapRunsAreRuns(P: Program, s: seq<Byte>, c: Conf, a: Captures, d: Conf, b: Captures)
    requires CapRuns(P, s, c, a, d, b)
    ensures Runs(P, s, 0, |P|, c, d) && |a| == |b|
  {
    var n: nat :| CapPath(P, s, 0, |P|, n, c, a, d, b);
    CapIsPath(P, s, 0, |P|, n, c, a, d, b);
  }

  // ---------- what a path leaves in the slots ----------

  /** The slots of group g bound a stretch of [i, j] that `body`, a group g of the regex, matches. */
  ghost predicate GroupReads(r: Regex, g: nat, body: Regex, s: seq<Byte>, b: Captures, i: nat, j: nat) {
    2 * g + 1 < |b| && HasGroup(r, g, body)
    && i <= b[2 * g] <= b[2 * g + 1] <= j <= |s| && Matches(body, s, b[2 * g], b[2 * g + 1])
  }

  /** The slots of group g are as they were, or bound what the group matches. */
  ghost predicate SlotGood(r: Regex, s: seq<Byte>, g: nat, a: Captures, b: Captures, i: nat, j: nat)
    requires |a| == |b|
  {
    2 * g + 1 < |b| ==>
      (b[2 * g] == a[2 * g] && b[2 * g + 1] == a[2 * g + 1]) || exists body :: GroupReads(r, g, body, s, b, i, j)
  }

  ghost predicate SlotsGood(r: Regex, s: seq<Byte>, a: Captures, b: Captures, i: nat, j: nat) {
    |a| == |b| && forall g: nat :: SlotGood(r, s, g, a, b, i, j)
  }

  lemma GoodBefore(small: Regex, r: Regex, s: seq<Byte>, a: Captures, b: Captures, i: nat, j: nat, k: nat, l: nat)
    requires Within(small, r) || small == r
    requires SlotsGood(small, s, a, b, i, j) && k <= i && j <= l <= |s|
    ensures SlotsGood(r, s, a, b, k, l)
  {
    forall g: nat ensures SlotGood(r, s, g, a, b, k, l) {
      assert SlotGood(small, s, g, a, b, i, j);
      if 2 * g + 1 < |b| && !(b[2 * g] == a[2 * g] && b[2 * g + 1] == a[2 * g + 1]) {
        var body :| GroupReads(small, g, body, s, b, i, j);
        assert GroupReads(r, g, body, s, b, k, l);
      }
    }
  }

  lemma GoodThen(r: Regex, s: seq<Byte>, a: Captures, m: Captures, b: Captures, i: nat, j: nat)
    requires SlotsGood(r, s, a, m, i, j) && SlotsGood(r, s, m, b, i, j)
    ensures SlotsGood(r, s, a, b, i, j)
  {
    forall g: nat ensures SlotGood(r, s, g, a, b, i, j) {
      assert SlotGood(r, s, g, a, m, i, j) && SlotGood(r, s, g, m, b, i, j);
      if 2 * g + 1 < |b| && b[2 * g] == m[2 * g] && b[2 * g + 1] == m[2 * g + 1]
        && !(m[2 * g] == a[2 * g] && m[2 * g + 1] == a[2 * g + 1]) {
        var body :| GroupReads(r, g, body, s, m, i, j);
        assert GroupReads(r, g, body, s, b, i, j);
      }
    }
  }

  // ---------- the code of a regex ----------

  /** A path through the code of a regex leaves good slots. */
  lemma {:induction false} PathIsGood(P: Program, r: Regex, s: seq<Byte>, lo: nat, n: nat, i: nat, a: Captures, j: nat, b: Captures)
    requires Plain(r) && WellNested(r) && CodeAt(P, r, lo) && i <= |s|
    requires CapPath(P, s, lo, lo + ProgramLen(r), n, Conf(lo, i), a, Conf(lo + ProgramLen(r), j), b)
    ensures i <= j <= |s| && SlotsGood(r, s, a, b, i, j)
    decreases r, 1, n
  {
    CapIsPath(P, s, lo, lo + ProgramLen(r), n, Conf(lo, i), a, Conf(lo + ProgramLen(r), j), b);
    PathPositions(P, s, lo, lo + ProgramLen(r), n, Conf(lo, i), Conf(lo + ProgramLen(r), j));
    match r {
      case Nil => CapOver(P, s, lo, lo, n, Conf(lo, i), a, Conf(lo, j), b);
      case Alt(_, _) => AltIsGood(P, r, s, lo, n, i, a, j, b);
      case Cat(_, _) => CatIsGood(P, r, s, lo, n, i, a, j, b);
      case Paren(_, _) => ParenIsGood(P, r, s, lo, n, i, a, j, b);
      case Quest(_, _) => QuestIsGood(P, r, s, lo, n, i, a, j, b);
      case Star(_, _) => StarIsGood(P, r, s, lo, n, i, a, j, b);
      case Plus(_, _) => PlusIsGood(P, r, s, lo, n, i, a, j, b);
      case Toplevel(_, _) => assert false;
      case _ => LeafIsGood(P, r, s, lo, n, i, a, j, b);
    }
  }

  /** A path that enters the code of `r` and ends outside of it. */
  lemma ThroughGood(P: Program, r: Regex, s: seq<Byte>, lo: nat, hi: nat, n: nat, c: Conf, a: Captures, d: Conf, b: Captures)
    returns (m: nat, e: Conf, mid: Captures)
    requires Plain(r) && WellNested(r) && CodeAt(P, r, c.pc) && c.pos <= |s|
    requires CapPath(P, s, lo, hi, n, c, a, d, b) && !(c.pc <= d.pc < c.pc + ProgramLen(r))
    ensures m <= n && e.pc == c.pc + ProgramLen(r) && c.pos <= e.pos <= |s| && Matches(r, s, c.pos, e.pos)
    ensures SlotsGood(r, s, a, mid, c.pos, e.pos) && CapPath(P, s, lo, hi, n - m, e, mid, d, b)
    decreases r, 2
  {
    hide SlotsGood, Matches, CapPath, Path, Segment, CodeAt, Plain, WellNested;
    CodeIsSegment(P, r, c.pc);
    m, e, mid := CapExit(P, s, lo, hi, c.pc, c.pc + ProgramLen(r), n, c, a, d, b);
    CapIsPath(P, s, c.pc, c.pc + ProgramLen(r), m, c, a, e, mid);
    PathPositions(P, s, c.pc, c.pc + ProgramLen(r), m, c, e);
    PathIsMatch(P, r, s, c.pc, m, c.pos, e.pos);
    PathIsGood(P, r, s, c.pc, m, c.pos, a, e.pos, mid);
  }

  lemma LeafIsGood(P: Program, r: Regex, s: seq<Byte>, lo: nat, n: nat, i: nat, a: Captures, j: nat, b: Captures)
    requires r.Lit? || r.Dot? || r.Class? || r.NClass? || r.Assert?
    requires CodeAt(P, r, lo) && i <= |s| && CapPath(P, s, lo, lo + 1, n, Conf(lo, i), a, Conf(lo + 1, j), b)
    ensures SlotsGood(r, s, a, b, i, j)
  {
    var c := CapFirst(P, s, lo, lo + 1, n, Conf(lo, i), a, Conf(lo + 1, j), b);
    CapOver(P, s, lo, lo + 1, n - 1, c, a, Conf(lo + 1, j), b);
  }

  lemma AltIsGood(P: Program, r: Regex, s: seq<Byte>, lo: nat, n: nat, i: nat, a: Captures, j: nat, b: Captures)
    requires r.Alt? && Plain(r) && WellNested(r) && CodeAt(P, r, lo) && i <= j <= |s|
    requires CapPath(P, s, lo, lo + ProgramLen(r), n, Conf(lo, i), a, Conf(lo + ProgramLen(r), j), b)
    ensures SlotsGood(r, s, a, b, i, j)
    decreases r, 0
  {
    hide CodeAt, SlotsGood, Matches, CapPath, Step;
    CodeOfParts(P, r, lo);
    ChoiceCode(P, r, lo);
    var hi := lo + ProgramLen(r);
    var end := Conf(hi, j);
    var c := CapFirst(P, s, lo, hi, n, Conf(lo, i), a, end, b);
    JumpStep(P, s, Conf(lo, i), c);
    if c.pc == lo + 1 {
      var m, e, mid := ThroughGood(P, r.left, s, lo, hi, n - 1, c, a, end, b);
      var f := CapFirst(P, s, lo, hi, n - 1 - m, e, mid, end, b);
      JumpStep(P, s, e, f);
      CapOver(P, s, lo, hi, n - 2 - m, f, mid, end, b);
      GoodBefore(r.left, r, s, a, b, i, e.pos, i, j);
    } else {
      var m, e, mid := ThroughGood(P, r.right, s, lo, hi, n - 1, c, a, end, b);
      CapOver(P, s, lo, hi, n - 1 - m, e, mid, end, b);
      GoodBefore(r.right, r, s, a, b, i, e.pos, i, j);
    }
  }

  lemma CatIsGood(P: Program, r: Regex, s: seq<Byte>, lo: nat, n: nat, i: nat, a: Captures, j: nat, b: Captures)
    requires r.Cat? && Plain(r) && WellNested(r) && CodeAt(P, r, lo) && i <= j <= |s|
    requires CapPath(P, s, lo, lo + ProgramLen(r), n, Conf(lo, i), a, Conf(lo + ProgramLen(r), j), b)
    ensures SlotsGood(r, s, a, b, i, j)
    decreases r, 0
  {
    hide CodeAt, SlotsGood, Matches, CapPath, Step, ProgramLen;
    CodeOfParts(P, r, lo);
    var hi := lo + ProgramLen(r);
    var end := Conf(hi, j);
    var m, e, mid := ThroughGood(P, r.left, s, lo, hi, n, Conf(lo, i), a, end, b);
    var m', e', mid' := ThroughGood(P, r.right, s, lo, hi, n - m, e, mid, end, b);
    CapOver(P, s, lo, hi, n - m - m', e', mid', end, b);
    GoodBefore(r.left, r, s, a, mid, i, e.pos, i, j);
    GoodBefore(r.right, r, s, mid, b, e.pos, j, i, j);
    GoodThen(r, s, a, mid, b, i, j);
  }

  lemma QuestIsGood(P: Program, r: Regex, s: seq<Byte>, lo: nat, n: nat, i: nat, a: Captures, j: nat, b: Captures)
    requires r.Quest? && Plain(r) && WellNested(r) && CodeAt(P, r, lo) && i <= j <= |s|
    requires CapPath(P, s, lo, lo + ProgramLen(r), n, Conf(lo, i), a, Conf(lo + ProgramLen(r), j), b)
    ensures SlotsGood(r, s, a, b, i, j)
    decreases r, 0
  {
    hide Matches;
    var hi := lo + ProgramLen(r);
    var end := Conf(hi, j);
    var c := CapFirst(P, s, lo, hi, n, Conf(lo, i), a, end, b);
    if c.pc == hi {
      CapOver(P, s, lo, hi, n - 1, c, a, end, b);
    } else {
      var m, e, mid := ThroughGood(P, r.body, s, lo, hi, n - 1, c, a, end, b);
      CapOver(P, s, lo, hi, n - 1 - m, e, mid, end, b);
      GoodBefore(r.body, r, s, a, b, i, e.pos, i, j);
    }
  }

  lemma {:induction false} StarIsGood(P: Program, r: Regex, s: seq<Byte>, lo: nat, n: nat, i: nat, a: Captures, j: nat, b: Captures)
    requires r.Star? && Plain(r) && WellNested(r) && CodeAt(P, r, lo) && i <= j <= |s|
    requires CapPath(P, s, lo, lo + ProgramLen(r), n, Conf(lo, i), a, Conf(lo + ProgramLen(r), j), b)
    ensures SlotsGood(r, s, a, b, i, j)
    decreases r, 0, n
  {
    hide CodeAt, SlotsGood, Matches, CapPath, Step;
    CodeOfParts(P, r, lo);
    StarCode(P, r, lo);
    var hi := lo + ProgramLen(r);
    var end := Conf(hi, j);
    var c := CapFirst(P, s, lo, hi, n, Conf(lo, i), a, end, b);
    JumpStep(P, s, Conf(lo, i), c);
    if c.pc == hi {
      CapOver(P, s, lo, hi, n - 1, c, a, end, b);
      GoodNow(r, s, a, i, j);
    } else {
      var m, e, mid := ThroughGood(P, r.body, s, lo, hi, n - 1, c, a, end, b);
      var f := CapFirst(P, s, lo, hi, n - 1 - m, e, mid, end, b);
      JumpStep(P, s, e, f);
      Ordered(P, s, lo, hi, n - 2 - m, f, mid, end, b);
      StarIsGood(P, r, s, lo, n - 2 - m, e.pos, mid, j, b);
      GoodBefore(r.body, r, s, a, mid, i, e.pos, i, j);
      GoodBefore(r, r, s, mid, b, e.pos, j, i, j);
      GoodThen(r, s, a, mid, b, i, j);
    }
  }

  lemma {:induction false} PlusIsGood(P: Program, r: Regex, s: seq<Byte>, lo: nat, n: nat, i: nat, a: Captures, j: nat, b: Captures)
    requires r.Plus? && Plain(r) && WellNested(r) && CodeAt(P, r, lo) && i <= j <= |s|
    requires CapPath(P, s, lo, lo + ProgramLen(r), n, Conf(lo, i), a, Conf(lo + ProgramLen(r), j), b)
    ensures SlotsGood(r, s, a, b, i, j)
    decreases r, 0, n
  {
    hide SlotsGood, Matches, CapPath, Step, CodeAt, Plain, WellNested, ProgramLen;
    PlusCode(P, r, lo);
    var hi := lo + ProgramLen(r);
    var end := Conf(hi, j);
    var m, e, mid := ThroughGood(P, r.body, s, lo, hi, n, Conf(lo, i), a, end, b);
    var f := CapFirst(P, s, lo, hi, n - m, e, mid, end, b);
    JumpStep(P, s, e, f);
    Ordered(P, s, lo, hi, n - 1 - m, f, mid, end, b);
    GoodBefore(r.body, r, s, a, mid, i, e.pos, i, j);
    if f.pc == hi {
      CapOver(P, s, lo, hi, n - 1 - m, f, mid, end, b);
    } else {
      PlusIsGood(P, r, s, lo, n - 1 - m, e.pos, mid, j, b);
      GoodBefore(r, r, s, mid, b, e.pos, j, i, j);
      GoodThen(r, s, a, mid, b, i, j);
    }
  }

  lemma PlusCode(P: Program, r: Regex, lo: nat)
    requires r.Plus? && Plain(r) && WellNested(r) && CodeAt(P, r, lo)
    ensures Plain(r.body) && WellNested(r.body) && CodeAt(P, r.body, lo) && ProgramLen(r) == ProgramLen(r.body) + 1
    ensures var mid := lo + ProgramLen(r.body);
      mid < |P| && (P[mid] == Split(lo, mid + 1) || P[mid] == Split(mid + 1, lo))
  {
  }

  lemma Ordered(P: Program, s: seq<Byte>, lo: nat, hi: nat, n: nat, c: Conf, a: Captures, d: Conf, b: Captures)
    requires CapPath(P, s, lo, hi, n, c, a, d, b) && c.pos <= |s|
    ensures c.pos <= d.pos <= |s|
  {
    CapIsPath(P, s, lo, hi, n, c, a, d, b);
    PathPositions(P, s, lo, hi, n, c, d);
  }

  lemma GoodNow(r: Regex, s: seq<Byte>, a: Captures, i: nat, j: nat)
    ensures SlotsGood(r, s, a, a, i, j)
  {
  }

  /** The two SAVEs around the body set the group's slots; what is inside leaves them alone. */
  lemma ParenIsGood(P: Program, r: Regex, s: seq<Byte>, lo: nat, n: nat, i: nat, a: Captures, j: nat, b: Captures)
    requires r.Paren? && Plain(r) && WellNested(r) && CodeAt(P, r, lo) && i <= j <= |s|
    requires CapPath(P, s, lo, lo + ProgramLen(r), n, Conf(lo, i), a, Conf(lo + ProgramLen(r), j), b)
    ensures SlotsGood(r, s, a, b, i, j)
    ensures 2 * r.group + 1 < |b| ==> b[2 * r.group] == i && b[2 * r.group + 1] == j
    decreases r, 0
  {
    hide SlotsGood, Matches, CapPath, Step;
    var hi := lo + ProgramLen(r);
    var end := Conf(hi, j);
    var c := CapFirst(P, s, lo, hi, n, Conf(lo, i), a, end, b);
    SaveStep(P, s, Conf(lo, i), c);
    var a1 := Put(a, 2 * r.group, i);
    var m, e, mid := ThroughGood(P, r.body, s, lo, hi, n - 1, c, a1, end, b);
    var f := CapFirst(P, s, lo, hi, n - 1 - m, e, mid, end, b);
    SaveStep(P, s, e, f);
    CapOver(P, s, lo, hi, n - 2 - m, f, Put(mid, 2 * r.group + 1, j), end, b);
    GroupSet(r, s, a, mid, i, j);
    InnerKeeps(r, s, a, mid, i, j);
  }

  lemma SaveStep(P: Program, s: seq<Byte>, c: Conf, d: Conf)
    requires c.pc < |P| && P[c.pc].Save? && Step(P, s, c, d)
    ensures d == Conf(c.pc + 1, c.pos)
  {
  }

  lemma InnerKeeps(r: Regex, s: seq<Byte>, a: Captures, mid: Captures, i: nat, j: nat)
    requires r.Paren? && WellNested(r) && SlotsGood(r.body, s, Put(a, 2 * r.group, i), mid, i, j)
    ensures 2 * r.group + 1 < |mid| ==> mid[2 * r.group] == i
  {
    assert SlotGood(r.body, s, r.group, Put(a, 2 * r.group, i), mid, i, j);
    forall body ensures !HasGroup(r.body, r.group, body) {
      WithoutHasNone(r.body, r.group, body);
    }
  }

  lemma GroupSet(r: Regex, s: seq<Byte>, a: Captures, mid: Captures, i: nat, j: nat)
    requires r.Paren? && WellNested(r) && i <= j <= |s| && Matches(r.body, s, i, j)
    requires SlotsGood(r.body, s, Put(a, 2 * r.group, i), mid, i, j)
    ensures SlotsGood(r, s, a, Put(mid, 2 * r.group + 1, j), i, j)
  {
    var a1, b := Put(a, 2 * r.group, i), Put(mid, 2 * r.group + 1, j);
    forall g: nat ensures SlotGood(r, s, g, a, b, i, j) {
      assert SlotGood(r.body, s, g, a1, mid, i, j);
      if g == r.group {
        forall body ensures !HasGroup(r.body, g, body) {
          WithoutHasNone(r.body, g, body);
        }
        assert 2 * g + 1 < |b| ==> GroupReads(r, g, r.body, s, b, i, j);
      } else if 2 * g + 1 < |b| && !(mid[2 * g] == a1[2 * g] && mid[2 * g + 1] == a1[2 * g + 1]) {
        var body :| GroupReads(r.body, g, body, s, mid, i, j);
        assert GroupReads(r, g, body, s, b, i, j);
      }
    }
  }

  // ---------- a hit of the whole pattern ----------

  /** The hit of the backtracker is what its path leaves in the slots. */
  lemma {:induction false} HitIsCapPath(P: Program, s: seq<Byte>, pc: nat, pos: nat, a: Captures, seen: set<nat>) returns (n: nat, d: Conf)
    requires pos <= |s| && Backtrack(P, s, pc, pos, a, seen).Some?
    ensures var h := Backtrack(P, s, pc, pos, a, seen).value;
      d.pc < |P| && P[d.pc] == Match(h.regexId) && CapPath(P, s, 0, |P|, n, Conf(pc, pos), a, d, h.caps)
    decreases |s| - pos, Addresses(P) - seen, pc in seen
  {
    HitNeedsCode(P, s, pc, pos, a, seen);
    hide Backtrack, CapPath, Step;
    var q, q', a', seen' := BacktrackStep(P, s, pc, pos, a, seen);
    if P[pc].Match? && pc !in seen {
      n, d := 0, Conf(pc, pos);
      CapNow(P, s, d, a);
    } else {
      n, d := HitIsCapPath(P, s, q, q', a', seen');
      CapMore(P, s, n, Conf(pc, pos), a, Conf(q, q'), d, Backtrack(P, s, pc, pos, a, seen).value.caps);
      n := n + 1;
    }
  }

  lemma HitNeedsCode(P: Program, s: seq<Byte>, pc: nat, pos: nat, a: Captures, seen: set<nat>)
    requires pos <= |s| && Backtrack(P, s, pc, pos, a, seen).Some?
    ensures pc < |P|
  {
  }

  lemma CapNow(P: Program, s: seq<Byte>, c: Conf, a: Captures)
    ensures CapPath(P, s, 0, |P|, 0, c, a, c, a)
  {
  }

  lemma CapMore(P: Program, s: seq<Byte>, n: nat, c: Conf, a: Captures, e: Conf, d: Conf, b: Captures)
    requires c.pc < |P| && Step(P, s, c, e) && CapPath(P, s, 0, |P|, n, e, Saved(P, c, a), d, b)
    ensures CapPath(P, s, 0, |P|, n + 1, c, a, d, b)
  {
  }

  lemma AtMatch(P: Program, s: seq<Byte>, lo: nat, hi: nat, n: nat, c: Conf, a: Captures, d: Conf, b: Captures)
    requires CapPath(P, s, lo, hi, n, c, a, d, b) && c.pc < |P| && P[c.pc].Match?
    ensures n == 0 && c == d && a == b
  {
  }

  /** The slots of a match of regex k that starts at `i` and ends at `j`. */
  ghost predicate HitGood(trees: seq<Regex>, caps: seq<nat>, k: nat, s: seq<Byte>, a: Captures, b: Captures, i: nat, j: nat) {
    k < |trees| == |caps| && i <= j <= |s| && SlotsGood(Paren(Base(caps, k), trees[k]), s, a, b, i, j)
    && (2 * Base(caps, k) + 1 < |b| ==> b[2 * Base(caps, k)] == i && b[2 * Base(caps, k) + 1] == j)
  }

  lemma PieceGood(P: Program, trees: seq<Regex>, caps: seq<nat>, k: nat, s: seq<Byte>, n: nat, c: Conf, a: Captures, d: Conf, b: Captures)
    requires k < |trees| == |caps| && Plain(trees[k]) && WellNested(Paren(Base(caps, k), trees[k])) && CodeAt(P, Piece(trees, caps, k), c.pc)
    requires c.pos <= |s| && d.pc < |P| && P[d.pc].Match? && CapPath(P, s, 0, |P|, n, c, a, d, b)
    ensures P[d.pc] == Match(k) && HitGood(trees, caps, k, s, a, b, c.pos, d.pos)
  {
    hide CapPath, SlotsGood, Matches;
    var body := Paren(Base(caps, k), trees[k]);
    Patterns.PieceCode(P, trees, caps, k, c.pc);
    PlainCodeHasNoMatch(P, body, c.pc);
    CodeIsSegment(P, body, c.pc);
    var m, e, mid := CapExit(P, s, 0, |P|, c.pc, c.pc + ProgramLen(body), n, c, a, d, b);
    Ordered(P, s, c.pc, c.pc + ProgramLen(body), m, c, a, e, mid);
    ParenIsGood(P, body, s, c.pc, m, c.pos, a, e.pos, mid);
    AtMatch(P, s, 0, |P|, n - m, e, mid, d, b);
  }

  ghost predicate AllNested(trees: seq<Regex>, caps: seq<nat>) {
    |trees| == |caps| && forall k: nat | k < |trees| :: Plain(trees[k]) && WellNested(Paren(Base(caps, k), trees[k]))
  }

  lemma {:induction false} AlternativesGood(P: Program, trees: seq<Regex>, caps: seq<nat>, t: nat,
                                            s: seq<Byte>, n: nat, c: Conf, a: Captures, d: Conf, b: Captures) returns (k: nat)
    requires 0 < t <= |trees| && AllNested(trees, caps)
    requires CodeAt(P, Alternatives(trees, caps, t), c.pc)
    requires c.pos <= |s| && d.pc < |P| && P[d.pc].Match? && CapPath(P, s, 0, |P|, n, c, a, d, b)
    ensures k < t && P[d.pc] == Match(k) && HitGood(trees, caps, k, s, a, b, c.pos, d.pos)
    decreases t
  {
    hide CodeAt, Alternatives, HitGood, CapPath, WellNested;
    AlternativesCode(P, trees, caps, t, c.pc);
    if t == 1 {
      PieceGood(P, trees, caps, 0, s, n, c, a, d, b);
      k := 0;
    } else {
      var e := CapSplit(P, s, n, c, a, d, b);
      if e.pc == c.pc + 1 {
        k := AlternativesGood(P, trees, caps, t - 1, s, n - 1, e, a, d, b);
      } else {
        PieceGood(P, trees, caps, t - 1, s, n - 1, e, a, d, b);
        k := t - 1;
      }
    }
  }

  lemma CapSplit(P: Program, s: seq<Byte>, n: nat, c: Conf, a: Captures, d: Conf, b: Captures) returns (e: Conf)
    requires c.pc < |P| && P[c.pc].Split? && d.pc < |P| && P[d.pc].Match? && CapPath(P, s, 0, |P|, n, c, a, d, b)
    ensures n > 0 && e.pos == c.pos && (e.pc == P[c.pc].x || e.pc == P[c.pc].y) && CapPath(P, s, 0, |P|, n - 1, e, a, d, b)
  {
    e :| Step(P, s, c, e) && CapPath(P, s, 0, |P|, n - 1, e, Saved(P, c, a), d, b);
  }

  /** A hit of the run: the match it reports starts and ends where group 0 says, and every group that is
      not unset holds what it matches, inside the match. */
  lemma RunGroups(P: Program, trees: seq<Regex>, caps: seq<nat>, s: seq<Byte>)
    requires IsCompiled(P, trees, caps) && AllNested(trees, caps)
    ensures var c, hit := Unset(2 * Base(caps, |caps|)), Run(P, s, 2 * Base(caps, |caps|));
      hit.Some? ==> exists i: nat, j: nat :: HitGood(trees, caps, hit.value.regexId, s, c, hit.value.caps, i, j)
  {
    hide IsCompiled, Backtrack, CodeAt, HitGood, CapPath, AllNested, Alternatives, Base;
    var c := Unset(2 * Base(caps, |caps|));
    PatternSkipsFirst(P, trees, caps);
    RunIsBacktrack(P, s, |c|);
    var i := FirstStart(P, s, 0, c, {});
    if i <= |s| {
      SuccessIgnoresCaptures(P, s, 3, i, c, [], {});
      var n, d := HitIsCapPath(P, s, 3, i, c, {});
      PatternCode(P, trees, caps);
      var h := Backtrack(P, s, 3, i, c, {}).value;
      var k := AlternativesGood(P, trees, caps, |trees|, s, n, Conf(3, i), c, d, h.caps);
      assert HitGood(trees, caps, h.regexId, s, c, h.caps, i, d.pos);
    }
  }

  lemma PatternCode(P: Program, trees: seq<Regex>, caps: seq<nat>)
    requires IsCompiled(P, trees, caps)
    ensures 0 < |trees| && CodeAt(P, Alternatives(trees, caps, |trees|), 3)
  {
    PrefixCode(P, trees, caps);
  }
}
