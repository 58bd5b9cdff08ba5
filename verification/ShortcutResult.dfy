/** What a run with the first-byte shortcut reports, wrong turns included: always a match with its
    groups, and the leftmost one unless the search has started over beyond it. */
module ShortcutResult {
  import opened Options
  import opened Regexes
  import opened Bytecode
  import opened Compiler
  import opened Patterns
  import opened Backtracking
  import opened PikeSpec
  import opened LeadingBytes
  import opened Spans
  import opened Skipping
  import opened SafeShortcut
  import opened GroupSlots

  // ---------- every hit comes from the start of the program ----------

  /** A path from the start of the program leads to the thread and leaves its captures. */
  ghost predicate Carried(P: Program, s: seq<Byte>, slots: nat, pos: nat, t: Thread) {
    CapRuns(P, s, Conf(0, 0), Unset(slots), Conf(t.pc, pos), t.caps)
  }

  ghost predicate AllCarried(P: Program, s: seq<Byte>, slots: nat, pos: nat, l: seq<Thread>) {
    forall t <- l :: Carried(P, s, slots, pos, t)
  }

  ghost predicate HitCarried(P: Program, s: seq<Byte>, slots: nat, h: Hit) {
    exists end: nat :: Arrives(P, s, Conf(0, 0), Unset(slots), h, end)
  }

  ghost predicate HitsCarried(P: Program, s: seq<Byte>, slots: nat, h: Option<Hit>) { h.Some? ==> HitCarried(P, s, slots, h.value) }

  lemma OneCarried(P: Program, s: seq<Byte>, slots: nat, pos: nat, t: Thread, marked: set<nat>)
    requires pos <= |s| && Carried(P, s, slots, pos, t)
    ensures var a := OneThread(P, s, pos, t, marked);
      AllCarried(P, s, slots, pos + 1, a.threads) && HitsCarried(P, s, slots, a.done)
  {
    hide Add, CapRuns;
    var start, c := Conf(0, 0), Unset(slots);
    var a := OneThread(P, s, pos, t, marked);
    if t.pc < |P| && P[t.pc].Match? {
      ArrivesHere(P, s, t.pc, pos, t.caps);
      ArrivesAfter(P, s, start, c, Conf(t.pc, pos), t.caps, a.done.value, pos);
    } else if t.pc < |P| && pos < |s| && Eats(P[t.pc], s[pos]) {
      var next := Conf(t.pc + 1, pos + 1);
      CapRunsHere(P, s, next, t.caps);
      CapRunsStep(P, s, Conf(t.pc, pos), t.caps, next, next, t.caps);
      CapRunsTrans(P, s, start, c, Conf(t.pc, pos), t.caps, next, t.caps);
      AddReaches(P, s, pos + 1, marked, t.pc + 1, t.caps, true);
      forall u <- a.threads ensures Carried(P, s, slots, pos + 1, u) {
        CapRunsTrans(P, s, start, c, next, t.caps, Conf(u.pc, pos + 1), u.caps);
      }
      if a.done.Some? {
        ArrivesAfter(P, s, start, c, next, t.caps, a.done.value, pos + 1);
      }
    }
  }

  lemma {:induction false} StepCarried(P: Program, s: seq<Byte>, slots: nat, pos: nat, from: seq<Thread>, marked: set<nat>)
    requires pos <= |s| && AllCarried(P, s, slots, pos, from)
    ensures var step := StepThreads(P, s, pos, from, marked);
      AllCarried(P, s, slots, pos + 1, step.next) && HitsCarried(P, s, slots, step.hit)
    decreases |from|
  {
    hide OneThread, Carried, HitCarried;
    if from != [] {
      OneCarried(P, s, slots, pos, from[0], marked);
      StepCarried(P, s, slots, pos, from[1..], OneThread(P, s, pos, from[0], marked).marked);
    }
  }

  /** The skipping loop reads anything and leaves the captures alone. */
  lemma {:induction false} LoopReaches(P: Program, s: seq<Byte>, slots: nat, pos: nat)
    requires SkipsFirst(P) && pos <= |s|
    ensures CapRuns(P, s, Conf(0, 0), Unset(slots), Conf(0, pos), Unset(slots))
  {
    hide CapRuns;
    var c := Unset(slots);
    CapRunsHere(P, s, Conf(0, pos), c);
    if pos > 0 {
      LoopReaches(P, s, slots, pos - 1);
      CapRunsStep(P, s, Conf(2, pos), c, Conf(0, pos), Conf(0, pos), c);
      CapRunsStep(P, s, Conf(1, pos - 1), c, Conf(2, pos), Conf(0, pos), c);
      CapRunsStep(P, s, Conf(0, pos - 1), c, Conf(1, pos - 1), Conf(0, pos), c);
      CapRunsTrans(P, s, Conf(0, 0), c, Conf(0, pos - 1), c, Conf(0, pos), c);
    }
  }

  lemma StartCarried(P: Program, s: seq<Byte>, slots: nat, pos: nat)
    requires SkipsFirst(P) && pos <= |s|
    ensures AllCarried(P, s, slots, pos, StartThreads(P, s, slots, pos))
  {
    hide CapRuns, Add;
    var c := Unset(slots);
    LoopReaches(P, s, slots, pos);
    AddReaches(P, s, pos, {}, 0, c, false);
    forall t <- StartThreads(P, s, slots, pos) ensures Carried(P, s, slots, pos, t) {
      CapRunsTrans(P, s, Conf(0, 0), c, Conf(0, pos), c, Conf(t.pc, pos), t.caps);
    }
  }

  /** Whatever turns a run takes, the hit it ends with is one of a path. */
  lemma {:induction false} RunCarried(P: Program, s: seq<Byte>, slots: nat, leading: seq<nat>, initial: seq<nat>,
                                      pos: nat, from: seq<Thread>, seen: bool, matched: Option<Hit>)
    requires SkipsFirst(P) && pos <= |s| && AllCarried(P, s, slots, pos, from) && HitsCarried(P, s, slots, matched)
    ensures HitsCarried(P, s, slots, RunSkipping(P, s, slots, leading, initial, pos, from, seen, matched))
    decreases |s| - pos
  {
    hide StepThreads, StartThreads, AllCarried, HitCarried, SkipsFirst, FirstByte, SplitsAtStart, LooksFresh;
    if from != [] {
      var p := if leading != [] && seen && pos < |s| && LooksFresh(initial, from) then FirstByte(P, leading, s, pos) else pos;
      StartCarried(P, s, slots, p);
      var from' := if p > pos then StartThreads(P, s, slots, p) else from;
      var seen' := if p > pos then SplitsAtStart(P) else seen && leading == [];
      StepCarried(P, s, slots, p, from', {});
      var step := StepThreads(P, s, p, from', {});
      if p < |s| {
        RunCarried(P, s, slots, leading, initial, p + 1, step.next, seen' || (SplitsAtStart(P) && 0 in step.marked), OrElse(step.hit, matched));
      }
    }
  }

  // ---------- a path is a match ----------

  /** SAVEs to other slots. */
  lemma {:induction false} SlotKept(P: Program, s: seq<Byte>, lo: nat, hi: nat, n: nat, c: Conf, a: Captures, d: Conf, b: Captures, x: nat, y: nat, slot: nat)
    requires CapPath(P, s, lo, hi, n, c, a, d, b) && SlotsIn(P, lo, hi, x, y) && !(x <= slot < y) && slot < |a|
    ensures slot < |b| && b[slot] == a[slot]
    decreases n
  {
    if n > 0 {
      var e :| Step(P, s, c, e) && CapPath(P, s, lo, hi, n - 1, e, Saved(P, c, a), d, b);
      SlotKept(P, s, lo, hi, n - 1, e, Saved(P, c, a), d, b, x, y, slot);
    }
  }

  /** A match of regex k at [i, j], with group 0 bounding it and, if groups nest as they should, every
      other group as it was or holding what it matches. */
  ghost predicate Real(trees: seq<Regex>, caps: seq<nat>, k: nat, s: seq<Byte>, a: Captures, b: Captures, i: nat, j: nat) {
    k < |trees| == |caps| && i <= j <= |s| && Matches(trees[k], s, i, j) && |a| == |b|
    && (2 * Base(caps, k) + 1 < |b| ==> b[2 * Base(caps, k)] == i && b[2 * Base(caps, k) + 1] == j)
    && (AllNested(trees, caps) ==> HitGood(trees, caps, k, s, a, b, i, j))
  }

  lemma PieceReal(P: Program, trees: seq<Regex>, caps: seq<nat>, k: nat, s: seq<Byte>, n: nat, c: Conf, a: Captures, d: Conf, b: Captures)
    requires k < |trees| == |caps| && Plain(trees[k]) && CodeAt(P, Piece(trees, caps, k), c.pc)
    requires GroupsIn(trees[k], Base(caps, k) + 1, Base(caps, k + 1))
    requires c.pos <= |s| && d.pc < |P| && P[d.pc].Match? && CapPath(P, s, 0, |P|, n, c, a, d, b)
    ensures P[d.pc] == Match(k) && Real(trees, caps, k, s, a, b, c.pos, d.pos)
  {
    hide CapPath, Matches, CodeAt, HitGood, WellNested, Step;
    CapIsPath(P, s, 0, |P|, n, c, a, d, b);
    PieceSound(P, trees, caps, k, s, n, c, d);
    PathPositions(P, s, 0, |P|, n, c, d);
    PieceBounds(P, trees, caps, k, s, n, c, a, d, b);
    if AllNested(trees, caps) {
      PieceGood(P, trees, caps, k, s, n, c, a, d, b);
    }
  }

  /** The SAVEs around a piece bound what it reads. */
  lemma PieceBounds(P: Program, trees: seq<Regex>, caps: seq<nat>, k: nat, s: seq<Byte>, n: nat, c: Conf, a: Captures, d: Conf, b: Captures)
    requires k < |trees| == |caps| && Plain(trees[k]) && CodeAt(P, Piece(trees, caps, k), c.pc)
    requires GroupsIn(trees[k], Base(caps, k) + 1, Base(caps, k + 1))
    requires c.pos <= |s| && d.pc < |P| && P[d.pc].Match? && CapPath(P, s, 0, |P|, n, c, a, d, b)
    ensures var g := Base(caps, k); |a| == |b| && (2 * g + 1 < |b| ==> b[2 * g] == c.pos && b[2 * g + 1] == d.pos)
  {
    hide CapPath, CodeAt, Step, Segment, SlotsIn;
    var body, g, len := trees[k], Base(caps, k), ProgramLen(trees[k]);
    ParenCode(P, trees, caps, k, c.pc);
    CapIsPath(P, s, 0, |P|, n, c, a, d, b);
    var e := CapFirst(P, s, 0, |P|, n, c, a, d, b);
    SaveStep(P, s, c, e);
    var a1 := Put(a, 2 * g, c.pos);
    PlainCodeHasNoMatch(P, body, e.pc);
    CodeIsSegment(P, body, e.pc);
    var m, f, mid := CapExit(P, s, 0, |P|, e.pc, e.pc + len, n - 1, e, a1, d, b);
    CapIsPath(P, s, e.pc, e.pc + len, m, e, a1, f, mid);
    CodeSlots(P, body, e.pc, g + 1, Base(caps, k + 1));
    if 2 * g < |a| {
      SlotKept(P, s, e.pc, e.pc + len, m, e, a1, f, mid, 2 * (g + 1), 2 * Base(caps, k + 1), 2 * g);
    }
    PathPositions(P, s, e.pc, e.pc + len, m, e, f);
    var h := CapFirst(P, s, 0, |P|, n - 1 - m, f, mid, d, b);
    SaveStep(P, s, f, h);
    AtMatch(P, s, 0, |P|, n - 2 - m, h, Put(mid, 2 * g + 1, f.pos), d, b);
  }

  lemma ParenCode(P: Program, trees: seq<Regex>, caps: seq<nat>, k: nat, lo: nat)
    requires k < |trees| == |caps| && CodeAt(P, Piece(trees, caps, k), lo)
    ensures var g, len := Base(caps, k), ProgramLen(trees[k]);
      CodeAt(P, trees[k], lo + 1) && lo + len + 2 < |P| && P[lo] == Save(2 * g) && P[lo + 1 + len] == Save(2 * g + 1)
      && P[lo + len + 2] == Match(k)
  {
    Patterns.PieceCode(P, trees, caps, k, lo);
  }

  lemma {:induction false} AlternativesReal(P: Program, trees: seq<Regex>, caps: seq<nat>, t: nat,
                                            s: seq<Byte>, n: nat, c: Conf, a: Captures, d: Conf, b: Captures) returns (k: nat)
    requires 0 < t <= |trees| == |caps| && (forall r <- trees :: Plain(r)) && Numbered(trees, caps)
    requires CodeAt(P, Alternatives(trees, caps, t), c.pc)
    requires c.pos <= |s| && d.pc < |P| && P[d.pc].Match? && CapPath(P, s, 0, |P|, n, c, a, d, b)
    ensures k < t && P[d.pc] == Match(k) && Real(trees, caps, k, s, a, b, c.pos, d.pos)
    decreases t
  {
    hide CodeAt, Alternatives, CapPath, Real, Base;
    AlternativesCode(P, trees, caps, t, c.pc);
    if t == 1 {
      PieceReal(P, trees, caps, 0, s, n, c, a, d, b);
      k := 0;
    } else {
      var e := CapSplit(P, s, n, c, a, d, b);
      if e.pc == c.pc + 1 {
        k := AlternativesReal(P, trees, caps, t - 1, s, n - 1, e, a, d, b);
      } else {
        PieceReal(P, trees, caps, t - 1, s, n - 1, e, a, d, b);
        k := t - 1;
      }
    }
  }

  /** So every hit of a run is a match, with its groups. */
  lemma CarriedIsReal(P: Program, trees: seq<Regex>, caps: seq<nat>, s: seq<Byte>, h: Hit)
    requires IsCompiled(P, trees, caps) && Numbered(trees, caps) && HitCarried(P, s, 2 * Base(caps, |caps|), h)
    ensures exists i: nat, j: nat :: Real(trees, caps, h.regexId, s, Unset(2 * Base(caps, |caps|)), h.caps, i, j)
  {
    hide CodeAt, Alternatives, CapPath, Real, Base, Numbered, Segment, SlotsIn;
    var c := Unset(2 * Base(caps, |caps|));
    var end: nat :| Arrives(P, s, Conf(0, 0), c, h, end);
    var m: nat :| m < |P| && P[m] == Match(h.regexId) && CapRuns(P, s, Conf(0, 0), c, Conf(m, end), h.caps);
    var n: nat :| CapPath(P, s, 0, |P|, n, Conf(0, 0), c, Conf(m, end), h.caps);
    PrefixCode(P, trees, caps);
    CodeIsSegment(P, Star(false, Dot), 0);
    var x, e, mid := CapExit(P, s, 0, |P|, 0, 3, n, Conf(0, 0), c, Conf(m, end), h.caps);
    CapIsPath(P, s, 0, 3, x, Conf(0, 0), c, e, mid);
    PathPositions(P, s, 0, 3, x, Conf(0, 0), e);
    NoSaves(P);
    forall slot: nat | slot < |c| ensures mid[slot] == c[slot] {
      SlotKept(P, s, 0, 3, x, Conf(0, 0), c, e, mid, 0, 0, slot);
    }
    assert mid == c;
    var k := AlternativesReal(P, trees, caps, |trees|, s, n - x, e, c, Conf(m, end), h.caps);
    assert Real(trees, caps, h.regexId, s, c, h.caps, e.pos, end);
  }

  lemma NoSaves(P: Program)
    requires 3 < |P| && P[0] == Split(3, 1) && P[1] == Any && P[2] == Jmp(0)
    ensures SlotsIn(P, 0, 3, 0, 0)
  {
  }

  // ---------- when it is the leftmost ----------

  /** The run, on a jump while a match stands, finds something from where it starts over. */
  ghost predicate StartsOver(P: Program, s: seq<Byte>, slots: nat, leading: seq<nat>, initial: seq<nat>,
                             pos: nat, from: seq<Thread>, seen: bool, matched: Option<Hit>)
    requires pos <= |s|
    decreases |s| - pos
  {
    from != [] &&
    var p := if leading != [] && seen && pos < |s| && LooksFresh(initial, from) then FirstByte(P, leading, s, pos) else pos;
    if p > pos && matched.Some? then p < |s| && CanMatch(P, s, 0, p, {})
    else if p == |s| then false
    else
      var from' := if p > pos then StartThreads(P, s, slots, p) else from;
      var seen' := if p > pos then SplitsAtStart(P) else seen && leading == [];
      var step := StepThreads(P, s, p, from', {});
      StartsOver(P, s, slots, leading, initial, p + 1, step.next, seen' || (SplitsAtStart(P) && 0 in step.marked), OrElse(step.hit, matched))
  }

  /** The whole run on `s` does. */
  ghost predicate SearchStartsOver(P: Program, s: seq<Byte>, slots: nat, leading: seq<nat>) {
    var first := StartThreads(P, s, slots, 0);
    StartsOver(P, s, slots, leading, InitialStates(first), 0, first, SplitsAtStart(P), None)
  }

  lemma OverNothing(P: Program, s: seq<Byte>, slots: nat, leading: seq<nat>, initial: seq<nat>, pos: nat, seen: bool, matched: Option<Hit>)
    requires pos <= |s|
    ensures !StartsOver(P, s, slots, leading, initial, pos, [], seen, matched)
  {}

  lemma OverRound(P: Program, s: seq<Byte>, slots: nat, leading: seq<nat>, initial: seq<nat>, pos: nat, from: seq<Thread>, seen: bool, matched: Option<Hit>)
    requires pos <= |s| && from != []
    ensures var p := if leading != [] && seen && pos < |s| && LooksFresh(initial, from) then FirstByte(P, leading, s, pos) else pos;
            var from' := if p > pos then StartThreads(P, s, slots, p) else from;
            var seen' := if p > pos then SplitsAtStart(P) else seen && leading == [];
            var step := StepThreads(P, s, p, from', {});
            StartsOver(P, s, slots, leading, initial, pos, from, seen, matched) ==
            if p > pos && matched.Some? then p < |s| && CanMatch(P, s, 0, p, {})
            else if p == |s| then false
            else StartsOver(P, s, slots, leading, initial, p + 1, step.next, seen' || (SplitsAtStart(P) && 0 in step.marked), OrElse(step.hit, matched))
  {}

  /** A hit that claims [i, j), where no match starts before `i`. */
  ghost predicate First(trees: seq<Regex>, caps: seq<nat>, s: seq<Byte>, h: Hit, i: nat, j: nat) {
    h.regexId < |trees| && Claims(h, caps, i, j) && i <= j <= |s| && Matches(trees[h.regexId], s, i, j)
    && forall i': nat :: i' < i ==> !StartsMatch(trees, s, i')
  }

  ghost predicate LeftmostHit(trees: seq<Regex>, caps: seq<nat>, s: seq<Byte>, h: Option<Hit>) {
    if h == None then forall i :: 0 <= i <= |s| ==> !StartsMatch(trees, s, i)
    else exists i: nat, j: nat :: First(trees, caps, s, h.value, i, j)
  }

  lemma RunIsLeftmostHit(P: Program, trees: seq<Regex>, caps: seq<nat>, s: seq<Byte>)
    requires Setting(P, trees, caps)
    ensures LeftmostHit(trees, caps, s, Run(P, s, 2 * Base(caps, |caps|)))
  {
    hide IsCompiled, Numbered, Base, Run, StartsMatch, Matches;
    RunIsLeftmost(P, trees, caps, s);
    var r := Run(P, s, 2 * Base(caps, |caps|));
    if r.Some? {
      var h := r.value;
      var i: nat, j: nat :| Claims(h, caps, i, j) && i <= j <= |s| && Matches(trees[h.regexId], s, i, j)
        && forall i': nat :: i' < i ==> !StartsMatch(trees, s, i');
      assert First(trees, caps, s, h, i, j);
    }
  }

  /** The match that stands is the byte just read, and no match starts before it. */
  ghost predicate Poised(trees: seq<Regex>, caps: seq<nat>, s: seq<Byte>, pos: nat, seen: bool, matched: Option<Hit>) {
    matched.Some? && seen ==> pos > 0 && First(trees, caps, s, matched.value, pos - 1, pos)
  }

  /** The run without the shortcut, from a list it starts over with, does not look back. */
  lemma StartsNoEarlier(P: Program, trees: seq<Regex>, caps: seq<nat>, s: seq<Byte>, p: nat, i: nat)
    requires Setting(P, trees, caps) && p <= |s| && i < p
    requires Run(P, s, 2 * Base(caps, |caps|)) == RunFrom(P, s, p, StartThreads(P, s, 2 * Base(caps, |caps|), p), None)
    requires CanMatch(P, s, 0, p, {})
    ensures !StartsMatch(trees, s, i)
  {
    hide IsCompiled, Numbered, Base, Run, RunFrom, StartsMatch, Matches, Backtrack, Best, StartThreads, SkipsFirst;
    var slots := 2 * Base(caps, |caps|);
    var c := Unset(slots);
    PatternSkips(P, trees, caps);
    StartStops(P, s, slots, p);
    RunFromIsBest(P, s, p, StartThreads(P, s, slots, p), None);
    StartBest(P, s, slots, p);
    SuccessIgnoresCaptures(P, s, 0, p, c, [], {});
    var q := FirstStart(P, s, p, c, {});
    SuccessIgnoresCaptures(P, s, 3, q, c, [], {});
    var j := HitMatches(P, trees, caps, s, q, c);
    RunIsLeftmostHit(P, trees, caps, s);
    var h := Run(P, s, slots).value;
    var i0: nat, j0: nat :| First(trees, caps, s, h, i0, j0);
    assert i0 == q >= p;
  }

  /** A hit in the step right behind a jump. */
  lemma PoisedAfterJump(P: Program, trees: seq<Regex>, caps: seq<nat>, s: seq<Byte>, leading: seq<nat>, covered: set<nat>, p: nat, seen: bool)
    requires Setting(P, trees, caps) && Covers(P, leading, covered) && p < |s|
    requires Run(P, s, 2 * Base(caps, |caps|)) == RunFrom(P, s, p, StartThreads(P, s, 2 * Base(caps, |caps|), p), None)
    ensures var step := StepThreads(P, s, p, StartThreads(P, s, 2 * Base(caps, |caps|), p), {});
      Poised(trees, caps, s, p + 1, seen, step.hit)
  {
    hide IsCompiled, Numbered, Base, Run, RunFrom, StartsMatch, Matches, Best, StartThreads, StepThreads, SkipsFirst, Covers,
      AllStarted, AllStops, Form, HitCarried, AllCarried, HitGood, Searching;
    var slots := 2 * Base(caps, |caps|);
    var from := StartThreads(P, s, slots, p);
    var step := StepThreads(P, s, p, from, {});
    if step.hit.Some? {
      var h := step.hit.value;
      PatternSkips(P, trees, caps);
      StartSearches(P, s, slots, p);
      SearchingIsForm(slots, from);
      StartStops(P, s, slots, p);
      StartStarted(P, trees, caps, s, p, leading, covered, p, p);
      Stepped(P, trees, caps, s, p, from, p);
      StartCarried(P, s, slots, p);
      StepCarried(P, s, slots, p, from, {});
      CarriedIsReal(P, trees, caps, s, h);
      var i: nat, j: nat :| Real(trees, caps, h.regexId, s, Unset(slots), h.caps, i, j);
      MatchesLead(P, trees, caps, leading, covered, s, h.regexId, i, j);
      NextBest(P, s, p, from);
      StartBest(P, s, slots, p);
      forall i': nat | i' < p ensures !StartsMatch(trees, s, i') {
        StartsNoEarlier(P, trees, caps, s, p, i');
      }
      assert First(trees, caps, s, h, p, p + 1);
    }
  }

  /** After any other step the flag is down if a match stands. */
  lemma PoisedAfterStep(P: Program, trees: seq<Regex>, caps: seq<nat>, s: seq<Byte>, leading: seq<nat>, covered: set<nat>,
                        pos: nat, from: seq<Thread>, matched: Option<Hit>)
    requires Setting(P, trees, caps) && Covers(P, leading, covered) && pos < |s| && OnCourse(P, trees, caps, pos, from, matched)
    ensures var step := StepThreads(P, s, pos, from, {}); OrElse(step.hit, matched).Some? ==> 0 !in step.marked
  {
    hide Covers, IsCompiled, StepThreads, Numbered, AllStops, AllStarted, Standing;
    PatternSkips(P, trees, caps);
    CourseForm(P, trees, caps, pos, from, matched);
    FormIsForm(2 * Base(caps, |caps|), from);
    HitMarksBehind(P, s, 2 * Base(caps, |caps|), leading, covered, pos, from, {});
  }

  /** A jump while a match stands: it is the leftmost one, and it stays unless the search finds
      something from where it starts over. */
  lemma JumpWhilePoised(P: Program, trees: seq<Regex>, caps: seq<nat>, s: seq<Byte>, leading: seq<nat>, covered: set<nat>, initial: seq<nat>,
                        pos: nat, from: seq<Thread>, h: Hit)
    requires Setting(P, trees, caps) && Covers(P, leading, covered) && leading != [] && pos < |s| && pos < FirstByte(P, leading, s, pos)
    requires Initially(P, s, 2 * Base(caps, |caps|), initial) && LooksFresh(initial, from)
    requires OnCourse(P, trees, caps, pos, from, Some(h)) && Poised(trees, caps, s, pos, true, Some(h))
    ensures var p := FirstByte(P, leading, s, pos);
      var r := RunSkipping(P, s, 2 * Base(caps, |caps|), leading, initial, pos, from, true, Some(h));
      LeftmostHit(trees, caps, s, r) <==> !(p < |s| && CanMatch(P, s, 0, p, {}))
  {
    hide *;
    var slots, p := 2 * Base(caps, |caps|), FirstByte(P, leading, s, pos);
    var r := RunSkipping(P, s, slots, leading, initial, pos, from, true, Some(h));
    PatternSkips(P, trees, caps);
    var t := LastThread(P, trees, caps, s, pos, from, initial, h);
    PoisedIsLeftmost(trees, caps, s, pos, h);
    var p', from', seen' := Round(P, trees, caps, s, leading, covered, initial, pos, from, true, Some(h), 0);
    if p < |s| {
      StartStarted(P, trees, caps, s, p, leading, covered, p, p);
      FoundFrom(P, trees, caps, s, leading, covered, initial, p, from', seen', Some(h), p);
      StartBest(P, s, slots, p);
      if CanMatch(P, s, 0, p, {}) {
        LaterIsNotLeftmost(trees, caps, s, pos, h, r, p);
      }
    }
  }

  lemma PoisedIsLeftmost(trees: seq<Regex>, caps: seq<nat>, s: seq<Byte>, pos: nat, h: Hit)
    requires Poised(trees, caps, s, pos, true, Some(h))
    ensures LeftmostHit(trees, caps, s, Some(h))
  {
    hide First;
  }

  lemma LaterIsNotLeftmost(trees: seq<Regex>, caps: seq<nat>, s: seq<Byte>, pos: nat, h: Hit, r: Option<Hit>, p: nat)
    requires Poised(trees, caps, s, pos, true, Some(h)) && r.Some? && StartsFrom(caps, r.value, p) && p >= pos
    ensures !LeftmostHit(trees, caps, s, r)
  {
    hide Matches;
    assert StartsMatch(trees, s, pos - 1);
  }

  /** What a run ends with is the leftmost match, exactly unless it starts over beyond one. */
  lemma {:induction false} LeftmostIff(P: Program, trees: seq<Regex>, caps: seq<nat>, s: seq<Byte>, leading: seq<nat>, covered: set<nat>, initial: seq<nat>,
                                       pos: nat, from: seq<Thread>, seen: bool, matched: Option<Hit>)
    requires Setting(P, trees, caps) && Covers(P, leading, covered) && leading != [] && pos <= |s|
    requires Initially(P, s, 2 * Base(caps, |caps|), initial) && OnCourse(P, trees, caps, pos, from, matched)
    requires Poised(trees, caps, s, pos, seen, matched) && Run(P, s, 2 * Base(caps, |caps|)) == RunFrom(P, s, pos, from, matched)
    ensures LeftmostHit(trees, caps, s, RunSkipping(P, s, 2 * Base(caps, |caps|), leading, initial, pos, from, seen, matched))
            <==> !StartsOver(P, s, 2 * Base(caps, |caps|), leading, initial, pos, from, seen, matched)
    decreases |s| - pos
  {
    hide *;
    var slots := 2 * Base(caps, |caps|);
    RunIsLeftmostHit(P, trees, caps, s);
    if from == [] {
      RunStops(P, s, slots, leading, initial, pos, seen, matched);
      NoneLeft(P, s, slots, leading, initial, pos, seen, matched);
      OverNothing(P, s, slots, leading, initial, pos, seen, matched);
      return;
    }
    CourseForm(P, trees, caps, pos, from, matched);
    OverRound(P, s, slots, leading, initial, pos, from, seen, matched);
    var p, from', seen' := Round(P, trees, caps, s, leading, covered, initial, pos, from, seen, matched, 0);
    if p > pos && matched.Some? {
      JumpWhilePoised(P, trees, caps, s, leading, covered, initial, pos, from, matched.value);
      return;
    }
    if p > pos {
      PatternSkips(P, trees, caps);
      FreshFront(P, s, slots, leading, covered, initial, from);
      SkipTo(P, s, slots, leading, covered, pos, from, matched);
      if p == |s| {
        return;
      }
      NowSearching(P, trees, caps, p, from');
    }
    RunFromStep(P, s, p, from', matched);
    if p < |s| {
      CourseKept(P, trees, caps, s, p, from', matched);
      var step := StepThreads(P, s, p, from', {});
      var seen1 := seen' || (SplitsAtStart(P) && 0 in step.marked);
      if p > pos {
        PoisedAfterJump(P, trees, caps, s, leading, covered, p, seen1);
        OneOf(step.hit, matched);
      } else {
        PoisedAfterStep(P, trees, caps, s, leading, covered, p, from', matched);
        NotPoised(trees, caps, s, p + 1, seen1, OrElse(step.hit, matched));
      }
      LeftmostIff(P, trees, caps, s, leading, covered, initial, p + 1, step.next, seen1, OrElse(step.hit, matched));
    }
  }

  lemma NotPoised(trees: seq<Regex>, caps: seq<nat>, s: seq<Byte>, pos: nat, seen: bool, matched: Option<Hit>)
    requires matched.Some? ==> !seen
    ensures Poised(trees, caps, s, pos, seen, matched)
  {
  }

  lemma {:induction false} NeverStartsOver(P: Program, s: seq<Byte>, slots: nat, initial: seq<nat>, pos: nat, from: seq<Thread>, seen: bool, matched: Option<Hit>)
    requires pos <= |s|
    ensures !StartsOver(P, s, slots, [], initial, pos, from, seen, matched)
    decreases |s| - pos
  {
    hide StepThreads, StartThreads, LooksFresh, SplitsAtStart;
    if from != [] && pos < |s| {
      var step := StepThreads(P, s, pos, from, {});
      NeverStartsOver(P, s, slots, initial, pos + 1, step.next, seen || (SplitsAtStart(P) && 0 in step.marked), OrElse(step.hit, matched));
    }
  }

  /** The whole run: it reports the leftmost match, or rightly nothing, exactly unless it starts over. */
  lemma ResultIsLeftmost(P: Program, trees: seq<Regex>, caps: seq<nat>, s: seq<Byte>, leading: seq<nat>, covered: set<nat>)
    requires Setting(P, trees, caps) && (leading != [] ==> Covers(P, leading, covered))
    ensures LeftmostHit(trees, caps, s, SkippingRun(P, s, 2 * Base(caps, |caps|), leading))
      <==> !SearchStartsOver(P, s, 2 * Base(caps, |caps|), leading)
  {
    hide Setting, Covers, StartsOver, StartThreads, Base, RunSkipping, RunFrom, AllStops, Searching, AllStarted, InitialStates, SkipsFirst, LeftmostHit;
    var slots := 2 * Base(caps, |caps|);
    var first := StartThreads(P, s, slots, 0);
    RunIsLeftmostHit(P, trees, caps, s);
    if leading == [] {
      NeverJumps(P, s, slots, InitialStates(first), 0, first, SplitsAtStart(P), None);
      NeverStartsOver(P, s, slots, InitialStates(first), 0, first, SplitsAtStart(P), None);
    } else {
      PatternSkips(P, trees, caps);
      StartSearches(P, s, slots, 0);
      StartStops(P, s, slots, 0);
      StartStarted(P, trees, caps, s, 0, leading, covered, 0, 0);
      NowSearching(P, trees, caps, 0, first);
      LeftmostIff(P, trees, caps, s, leading, covered, InitialStates(first), 0, first, SplitsAtStart(P), None);
    }
  }

  /** Whatever turns it takes, what it reports is a match, with its groups. */
  lemma ResultIsReal(P: Program, trees: seq<Regex>, caps: seq<nat>, s: seq<Byte>, leading: seq<nat>)
    requires Setting(P, trees, caps)
    ensures var c, hit := Unset(2 * Base(caps, |caps|)), SkippingRun(P, s, 2 * Base(caps, |caps|), leading);
      hit.Some? ==> exists i: nat, j: nat :: Real(trees, caps, hit.value.regexId, s, c, hit.value.caps, i, j)
  {
    hide IsCompiled, Numbered, StartThreads, Base, RunSkipping, InitialStates, SkipsFirst, AllCarried, HitCarried, Real;
    var slots := 2 * Base(caps, |caps|);
    var first := StartThreads(P, s, slots, 0);
    PatternSkips(P, trees, caps);
    StartCarried(P, s, slots, 0);
    RunCarried(P, s, slots, leading, InitialStates(first), 0, first, SplitsAtStart(P), None);
    var hit := SkippingRun(P, s, slots, leading);
    if hit.Some? {
      CarriedIsReal(P, trees, caps, s, hit.value);
    }
  }
}
