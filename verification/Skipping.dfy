/** When the first-byte shortcut of the Pike machine is right. */
module Skipping {
  import opened Options
  import opened Regexes
  import opened Bytecode
  import opened Patterns
  import opened Backtracking
  import opened PikeSpec
  import opened LeadingBytes
  import opened Spans

  // ---------- matches start with leading bytes ----------

  lemma {:induction false} PathLeads(P: Program, s: seq<Byte>, leading: seq<nat>, marked: set<nat>, n: nat, c: Conf, d: Conf)
    requires SkipsFirst(P) && Covers(P, leading, marked) && c.pc in marked && c.pc >= 3 && c.pos <= |s|
    requires Path(P, s, 0, |P|, n, c, d) && d.pc < |P| && P[d.pc].Match?
    ensures c.pos < d.pos && c.pos < |s| && Leads(P, leading, s[c.pos])
    decreases n
  {
    assert Settles(P, c.pc, marked, leading);
    if n > 0 {
      var e :| Step(P, s, c, e) && Path(P, s, 0, |P|, n - 1, e, d);
      if e.pos == c.pos {
        assert Flows(P, c.pc, e.pc);
        PathLeads(P, s, leading, marked, n - 1, e, d);
      } else {
        PathPositions(P, s, 0, |P|, n - 1, e, d);
      }
    }
  }

  /** If there are leading instructions, no match is empty, and each starts with a leading byte. */
  lemma MatchesLead(P: Program, trees: seq<Regex>, caps: seq<nat>, leading: seq<nat>, marked: set<nat>,
                    s: seq<Byte>, k: nat, i: nat, j: nat)
    requires IsCompiled(P, trees, caps) && Covers(P, leading, marked)
    requires k < |trees| && i <= |s| && Matches(trees[k], s, i, j)
    ensures i < j && i < |s| && Leads(P, leading, s[i])
  {
    PrefixCode(P, trees, caps);
    PatternSkipsFirst(P, trees, caps);
    assert Settles(P, 0, marked, leading) && Flows(P, 0, 3);
    var pc := AlternativesComplete(P, trees, caps, |trees|, 3, s, k, i, j);
    var n: nat :| Path(P, s, 0, |P|, n, Conf(3, i), Conf(pc, j));
    PathLeads(P, s, leading, marked, n, Conf(3, i), Conf(pc, j));
  }

  // ---------- the shape of the thread lists ----------

  ghost predicate Behind(l: seq<Thread>) {
    forall t <- l :: t.pc >= 3
  }

  /** The list of a run that has no hit yet: the skipping loop is its last thread. */
  ghost predicate Searching(slots: nat, l: seq<Thread>) {
    l != [] && l[|l| - 1] == Thread(1, Unset(slots)) && Behind(l[..|l| - 1])
  }

  ghost predicate NewBehind(marked: set<nat>, marked': set<nat>) {
    forall p: nat :: p in marked' && p !in marked ==> p >= 3
  }

  lemma {:induction false} AddBehind(P: Program, s: seq<Byte>, pos: nat, marked: set<nat>, pc: nat, caps: Captures, eager: bool)
    requires SkipsFirst(P) && pc >= 3 && pos <= |s|
    ensures var r := Add(P, s, pos, marked, pc, caps, eager); Behind(r.threads) && NewBehind(marked, r.marked)
    decreases Addresses(P) - marked, pc in marked
  {
    if pc < |P| {
      var m := marked + {pc};
      if P[pc].Split? {
        assert Flows(P, pc, P[pc].x) && Flows(P, pc, P[pc].y);
      }
      if pc in marked {
        if P[pc].Split? && P[pc].y !in marked {
          AddBehind(P, s, pos, marked, P[pc].y, caps, eager);
        }
      } else {
        assert pc in Addresses(P) - marked && pc !in Addresses(P) - m;
        if P[pc].Split? {
          AddBehind(P, s, pos, m, P[pc].x, caps, eager);
          AddBehind(P, s, pos, Add(P, s, pos, m, P[pc].x, caps, eager).marked, P[pc].y, caps, eager);
        } else if !IsStop(P[pc]) {
          var q := if P[pc].Jmp? then P[pc].x else pc + 1;
          assert Flows(P, pc, q);
          AddBehind(P, s, pos, m, q, if P[pc].Save? then Put(caps, P[pc].group, pos) else caps, eager);
        }
      }
    }
  }

  /** The closure from the start: the pattern first, then the skipping loop. */
  lemma AddFromStart(P: Program, s: seq<Byte>, pos: nat, marked: set<nat>, caps: Captures, eager: bool)
    requires SkipsFirst(P) && pos <= |s| && 0 !in marked && 1 !in marked
    ensures var x := Add(P, s, pos, marked + {0}, 3, caps, eager);
            && Add(P, s, pos, marked, 0, caps, eager)
               == (if x.done.Some? then x else Closure(x.marked + {1}, x.threads + [Thread(1, caps)], None))
            && Behind(x.threads) && NewBehind(marked + {0}, x.marked)
  {
    AddBehind(P, s, pos, marked + {0}, 3, caps, eager);
    AddBoth(P, s, pos, marked, 0, caps, eager);
    var x := Add(P, s, pos, marked + {0}, 3, caps, eager);
    AddEnd(P, s, pos, x.marked, 1, caps, eager);
  }

  lemma StartSearches(P: Program, s: seq<Byte>, slots: nat, pos: nat)
    requires SkipsFirst(P) && pos <= |s|
    ensures Searching(slots, StartThreads(P, s, slots, pos))
  {
    AddFromStart(P, s, pos, {}, Unset(slots), false);
  }

  lemma OneBehind(P: Program, s: seq<Byte>, pos: nat, t: Thread, marked: set<nat>)
    requires SkipsFirst(P) && pos <= |s| && t.pc >= 3
    ensures var a := OneThread(P, s, pos, t, marked); Behind(a.threads) && NewBehind(marked, a.marked)
  {
    if t.pc < |P| && pos < |s| && Eats(P[t.pc], s[pos]) {
      AddBehind(P, s, pos + 1, marked, t.pc + 1, t.caps, true);
    }
  }

  lemma {:induction false} StepBehind(P: Program, s: seq<Byte>, pos: nat, from: seq<Thread>, marked: set<nat>)
    requires SkipsFirst(P) && pos <= |s| && Behind(from)
    ensures Behind(StepThreads(P, s, pos, from, marked).next)
  {
    hide OneThread;
    if from != [] {
      OneBehind(P, s, pos, from[0], marked);
      StepBehind(P, s, pos, from[1..], OneThread(P, s, pos, from[0], marked).marked);
    }
  }

  /** A list stays searching until there is a hit, and then only the pattern's threads go on. */
  lemma {:induction false} StepSearches(P: Program, s: seq<Byte>, pos: nat, slots: nat, from: seq<Thread>, marked: set<nat>)
    requires SkipsFirst(P) && pos < |s| && Searching(slots, from) && NewBehind({}, marked)
    ensures var step := StepThreads(P, s, pos, from, marked);
            if step.hit.Some? then Behind(step.next) else Searching(slots, step.next)
  {
    hide Add;
    if |from| == 1 {
      AddFromTwo(P, s, pos + 1, marked, Unset(slots));
    } else {
      OneBehind(P, s, pos, from[0], marked);
      var a := OneThread(P, s, pos, from[0], marked);
      assert from[1..][..|from| - 2] == from[..|from| - 1][1..];
      StepSearches(P, s, pos, slots, from[1..], a.marked);
      var rest := StepThreads(P, s, pos, from[1..], a.marked);
      if rest.hit == None && a.done == None {
        assert (a.threads + rest.next)[..|a.threads + rest.next| - 1] == a.threads + rest.next[..|rest.next| - 1];
      }
    }
  }

  lemma AddFromTwo(P: Program, s: seq<Byte>, pos: nat, marked: set<nat>, caps: Captures)
    requires SkipsFirst(P) && pos <= |s| && 0 !in marked && 1 !in marked && 2 !in marked
    ensures Add(P, s, pos, marked, 2, caps, true) == Add(P, s, pos, marked + {2}, 0, caps, true)
    ensures var x := Add(P, s, pos, marked + {2} + {0}, 3, caps, true);
            && Add(P, s, pos, marked, 2, caps, true)
               == (if x.done.Some? then x else Closure(x.marked + {1}, x.threads + [Thread(1, caps)], None))
            && Behind(x.threads)
  {
    AddFromStart(P, s, pos, marked + {2}, caps, true);
    AddNext(P, s, pos, marked, 2, caps, true, 0, caps);
  }

  // ---------- a jump from a searching list ----------

  /** The threads in front of the skipping loop stand on collected instructions. */
  ghost predicate FrontIn(marked: set<nat>, l: seq<Thread>) {
    forall k :: 0 <= k < |l| - 1 ==> l[k].pc in marked
  }

  /** A closure inside the covered code finds no MATCH, and a mark on the loop's jump changes nothing. */
  lemma {:induction false} AddCovered(P: Program, s: seq<Byte>, leading: seq<nat>, covered: set<nat>, pos: nat, marked: set<nat>,
                                      pc: nat, caps: Captures, eager: bool)
    requires SkipsFirst(P) && Covers(P, leading, covered) && (pc in covered || pc == 1) && pos <= |s| && 2 !in marked
    ensures var r := Add(P, s, pos, marked, pc, caps, false);
            && Add(P, s, pos, marked + {2}, pc, caps, eager) == Closure(r.marked + {2}, r.threads, None)
            && 2 !in r.marked && forall t <- r.threads :: t.pc in covered || t.pc == 1
    decreases Addresses(P) - marked, pc in marked
  {
    assert pc == 1 || Settles(P, pc, covered, leading);
    if P[pc].Split? {
      assert Flows(P, pc, P[pc].x) && Flows(P, pc, P[pc].y);
    }
    if pc in marked {
      if P[pc].Split? && P[pc].y !in marked {
        AddCovered(P, s, leading, covered, pos, marked, P[pc].y, caps, eager);
      }
    } else {
      var m := marked + {pc};
      assert marked + {2} + {pc} == m + {2};
      assert pc in Addresses(P) - marked && pc !in Addresses(P) - m;
      if P[pc].Split? {
        AddCovered(P, s, leading, covered, pos, m, P[pc].x, caps, eager);
        AddCovered(P, s, leading, covered, pos, Add(P, s, pos, m, P[pc].x, caps, false).marked, P[pc].y, caps, eager);
      } else if !IsStop(P[pc]) {
        var q := if P[pc].Jmp? then P[pc].x else pc + 1;
        assert Flows(P, pc, q);
        AddCovered(P, s, leading, covered, pos, m, q, if P[pc].Save? then Put(caps, P[pc].group, pos) else caps, eager);
      }
    }
  }

  lemma StartCovered(P: Program, s: seq<Byte>, slots: nat, leading: seq<nat>, covered: set<nat>, pos: nat)
    requires SkipsFirst(P) && Covers(P, leading, covered) && pos <= |s|
    ensures FrontIn(covered, StartThreads(P, s, slots, pos))
  {
    AddCovered(P, s, leading, covered, pos, {}, 0, Unset(slots), false);
    StartSearches(P, s, slots, pos);
    var l := StartThreads(P, s, slots, pos);
    forall k | 0 <= k < |l| - 1
      ensures l[k].pc in covered
    {
      assert l[k] == l[..|l| - 1][k] && l[k] in l;
    }
  }

  /** On a byte that leads nowhere every thread but the last dies. */
  lemma {:induction false} FrontDies(P: Program, s: seq<Byte>, leading: seq<nat>, covered: set<nat>, pos: nat, from: seq<Thread>, marked: set<nat>)
    requires Covers(P, leading, covered) && pos < |s| && !Leads(P, leading, s[pos])
    requires from != [] && AllStops(P, from) && FrontIn(covered, from)
    ensures var a := OneThread(P, s, pos, from[|from| - 1], marked);
            StepThreads(P, s, pos, from, marked) == StepResult(a.threads, a.done, a.marked)
    decreases |from|
  {
    hide Add;
    if |from| == 1 {
      StepNone(P, s, pos, OneThread(P, s, pos, from[0], marked).marked);
    } else {
      assert Settles(P, from[0].pc, covered, leading);
      assert OneThread(P, s, pos, from[0], marked) == Closure(marked, [], None);
      FrontDies(P, s, leading, covered, pos, from[1..], marked);
    }
  }

  lemma SkipOne(P: Program, s: seq<Byte>, slots: nat, leading: seq<nat>, covered: set<nat>, pos: nat, from: seq<Thread>)
    requires SkipsFirst(P) && Covers(P, leading, covered) && pos < |s| && !Leads(P, leading, s[pos])
    requires Searching(slots, from) && AllStops(P, from) && FrontIn(covered, from)
    ensures StepThreads(P, s, pos, from, {}).next == StartThreads(P, s, slots, pos + 1)
    ensures StepThreads(P, s, pos, from, {}).hit == None
  {
    hide Add;
    FrontDies(P, s, leading, covered, pos, from, {});
    AddFromTwo(P, s, pos + 1, {}, Unset(slots));
    AddCovered(P, s, leading, covered, pos + 1, {}, 0, Unset(slots), true);
  }

  lemma {:induction false} NothingAtEnd(P: Program, s: seq<Byte>, from: seq<Thread>, marked: set<nat>)
    requires forall t <- from :: t.pc < |P| && !P[t.pc].Match?
    ensures StepThreads(P, s, |s|, from, marked) == StepResult([], None, marked)
  {
    if from != [] {
      NothingAtEnd(P, s, from[1..], marked);
    }
  }

  lemma CoveredEnds(P: Program, s: seq<Byte>, slots: nat, leading: seq<nat>, covered: set<nat>, from: seq<Thread>, matched: Option<Hit>)
    requires SkipsFirst(P) && Covers(P, leading, covered) && Searching(slots, from) && FrontIn(covered, from)
    ensures RunFrom(P, s, |s|, from, matched) == matched
  {
    forall t | t in from
      ensures t.pc < |P| && !P[t.pc].Match?
    {
      assert t.pc == 1 || Settles(P, t.pc, covered, leading);
    }
    NothingAtEnd(P, s, from, {});
  }

  /** Jumping from a searching list to the next leading byte does what the steps between would do. */
  lemma {:induction false} SkipTo(P: Program, s: seq<Byte>, slots: nat, leading: seq<nat>, covered: set<nat>,
                                  pos: nat, from: seq<Thread>, matched: Option<Hit>)
    requires SkipsFirst(P) && Covers(P, leading, covered) && pos < |s| && pos < FirstByte(P, leading, s, pos)
    requires Searching(slots, from) && AllStops(P, from) && FrontIn(covered, from)
    ensures var p := FirstByte(P, leading, s, pos);
            RunFrom(P, s, pos, from, matched) == if p == |s| then matched else RunFrom(P, s, p, StartThreads(P, s, slots, p), matched)
    decreases |s| - pos
  {
    hide Add, StepThreads, Covers, SkipsFirst, FrontIn, Searching, Leads, StartThreads;
    SkipOne(P, s, slots, leading, covered, pos, from);
    StartSearches(P, s, slots, pos + 1);
    StartCovered(P, s, slots, leading, covered, pos + 1);
    SearchingRuns(P, s, slots, pos, from, matched);
    if FirstByte(P, leading, s, pos + 1) == pos + 1 {
      if pos + 1 == |s| {
        CoveredEnds(P, s, slots, leading, covered, StartThreads(P, s, slots, pos + 1), matched);
      }
    } else {
      StartStops(P, s, slots, pos + 1);
      SkipTo(P, s, slots, leading, covered, pos + 1, StartThreads(P, s, slots, pos + 1), matched);
    }
  }

  lemma StartStops(P: Program, s: seq<Byte>, slots: nat, pos: nat)
    requires pos <= |s|
    ensures AllStops(P, StartThreads(P, s, slots, pos))
  {}

  lemma SearchingRuns(P: Program, s: seq<Byte>, slots: nat, pos: nat, from: seq<Thread>, matched: Option<Hit>)
    requires pos < |s| && Searching(slots, from)
    ensures var step := StepThreads(P, s, pos, from, {});
            RunFrom(P, s, pos, from, matched) == RunFrom(P, s, pos + 1, step.next, OrElse(step.hit, matched))
  {}

  // ---------- what hits and threads say about where a match starts and ends ----------

  /** The code of `trees` with everything the proofs below rely on. */
  ghost predicate Setting(P: Program, trees: seq<Regex>, caps: seq<nat>) {
    IsCompiled(P, trees, caps) && Numbered(trees, caps)
  }

  /** A thread in the code of some regex, with a start in [lo, hi]. */
  ghost predicate Started(trees: seq<Regex>, caps: seq<nat>, t: Thread, lo: int, hi: int) {
    exists k: nat :: StartedIn(trees, caps, t, k, lo, hi)
  }

  ghost predicate StartedIn(trees: seq<Regex>, caps: seq<nat>, t: Thread, k: nat, lo: int, hi: int) {
    Inside(trees, caps, t.pc, k) && k < |caps| && |t.caps| == 2 * Base(caps, |caps|) && 2 * Base(caps, k) + 1 < |t.caps|
    && lo <= t.caps[2 * Base(caps, k)] <= hi
  }

  /** A hit whose match starts in [lo, hi] and ends at `end`. */
  ghost predicate Ended(caps: seq<nat>, h: Hit, lo: int, hi: int, end: int) {
    h.regexId < |caps| && 2 * Base(caps, h.regexId) + 1 < |h.caps|
    && lo <= h.caps[2 * Base(caps, h.regexId)] <= hi && h.caps[2 * Base(caps, h.regexId) + 1] == end
  }

  ghost predicate AllStarted(P: Program, trees: seq<Regex>, caps: seq<nat>, l: seq<Thread>, lo: int, hi: int) {
    forall t <- l :: t.pc < |P| && !P[t.pc].Match? && (if t.pc == 1 then |t.caps| == 2 * Base(caps, |caps|) else Started(trees, caps, t, lo, hi))
  }

  /** A closure inside the code of regex k carries its start along. */
  lemma {:induction false} AddInside(P: Program, trees: seq<Regex>, caps: seq<nat>, s: seq<Byte>, pos: nat, marked: set<nat>,
                                     pc: nat, c: Captures, k: nat, lo: int, hi: int)
    requires Setting(P, trees, caps) && StartedIn(trees, caps, Thread(pc, c), k, lo, hi) && pos <= |s|
    ensures var r := Add(P, s, pos, marked, pc, c, true);
            && AllStarted(P, trees, caps, r.threads, lo, hi)
            && (r.done.Some? && (pc < |P| && P[pc].Match? ==> c[2 * Base(caps, k) + 1] == pos) ==> Ended(caps, r.done.value, lo, hi, pos))
    decreases Addresses(P) - marked, pc in marked
  {
    hide Inside, Base, IsCompiled, Numbered;
    InsideStays(P, trees, caps, pc, k);
    if P[pc].Split? {
      assert Flows(P, pc, P[pc].x) && Flows(P, pc, P[pc].y);
    }
    if pc in marked {
      if P[pc].Split? && P[pc].y !in marked {
        AddInside(P, trees, caps, s, pos, marked, P[pc].y, c, k, lo, hi);
      }
    } else {
      var m := marked + {pc};
      assert pc in Addresses(P) - marked && pc !in Addresses(P) - m;
      if P[pc].Split? {
        AddInside(P, trees, caps, s, pos, m, P[pc].x, c, k, lo, hi);
        AddInside(P, trees, caps, s, pos, Add(P, s, pos, m, P[pc].x, c, true).marked, P[pc].y, c, k, lo, hi);
      } else if !IsStop(P[pc]) {
        var q := if P[pc].Jmp? then P[pc].x else pc + 1;
        assert Flows(P, pc, q);
        AddInside(P, trees, caps, s, pos, m, q, if P[pc].Save? then Put(c, P[pc].group, pos) else c, k, lo, hi);
      } else if !P[pc].Match? {
        assert StartedIn(trees, caps, Thread(pc, c), k, lo, hi);
      }
    }
  }

  /** A closure from the ladder starts new matches at `pos`. */
  lemma {:induction false} AddOnLadder(P: Program, trees: seq<Regex>, caps: seq<nat>, s: seq<Byte>, pos: nat, marked: set<nat>,
                                       pc: nat, c: Captures, lo: int, hi: int)
    requires Setting(P, trees, caps) && Ladder(trees, caps, |trees|, 3, pc) && |c| == 2 * Base(caps, |caps|)
    requires pos <= |s| && lo <= pos <= hi
    ensures var r := Add(P, s, pos, marked, pc, c, true);
            && AllStarted(P, trees, caps, r.threads, lo, hi)
            && (r.done.Some? ==> Ended(caps, r.done.value, lo, hi, pos))
    decreases Addresses(P) - marked, pc in marked
  {
    hide Inside, Ladder, Base, IsCompiled, Numbered;
    var k := RungOrPiece(P, trees, caps, pc);
    var m := marked + {pc};
    if pc in marked {
      if P[pc].Split? && P[pc].y !in marked {
        AddOnLadder(P, trees, caps, s, pos, marked, P[pc].y, c, lo, hi);
      }
    } else {
      assert pc in Addresses(P) - marked && pc !in Addresses(P) - m;
      if P[pc].Split? {
        AddOnLadder(P, trees, caps, s, pos, m, P[pc].x, c, lo, hi);
        AddOnLadder(P, trees, caps, s, pos, Add(P, s, pos, m, P[pc].x, c, true).marked, P[pc].y, c, lo, hi);
      } else {
        BaseGrows(caps, k, |caps|);
        AddInside(P, trees, caps, s, pos, m, pc + 1, Put(c, P[pc].group, pos), k, lo, hi);
      }
    }
  }

  lemma AddRoot(P: Program, trees: seq<Regex>, caps: seq<nat>, s: seq<Byte>, pos: nat, marked: set<nat>, c: Captures, lo: int, hi: int)
    requires Setting(P, trees, caps) && |c| == 2 * Base(caps, |caps|) && 0 !in marked && 1 !in marked
    requires pos <= |s| && lo <= pos <= hi
    ensures var r := Add(P, s, pos, marked, 0, c, true);
            && AllStarted(P, trees, caps, r.threads, lo, hi)
            && (r.done.Some? ==> Ended(caps, r.done.value, lo, hi, pos))
  {
    hide Add, Base, Ended, Started, IsCompiled, Numbered;
    PatternSkipsFirst(P, trees, caps);
    AddFromStart(P, s, pos, marked, c, true);
    AddOnLadder(P, trees, caps, s, pos, marked + {0}, 3, c, lo, hi);
  }

  lemma StartStarted(P: Program, trees: seq<Regex>, caps: seq<nat>, s: seq<Byte>, pos: nat, leading: seq<nat>, covered: set<nat>, lo: int, hi: int)
    requires Setting(P, trees, caps) && Covers(P, leading, covered)
    requires pos <= |s| && lo <= pos <= hi
    ensures AllStarted(P, trees, caps, StartThreads(P, s, 2 * Base(caps, |caps|), pos), lo, hi)
  {
    var c := Unset(2 * Base(caps, |caps|));
    PatternSkipsFirst(P, trees, caps);
    AddCovered(P, s, leading, covered, pos, {}, 0, c, true);
    AddRoot(P, trees, caps, s, pos, {2}, c, lo, hi);
    assert {} + {2} == {2};
  }

  lemma StartedWiden(P: Program, trees: seq<Regex>, caps: seq<nat>, l: seq<Thread>, lo: int, hi: int, hi': int)
    requires AllStarted(P, trees, caps, l, lo, hi) && hi <= hi'
    ensures AllStarted(P, trees, caps, l, lo, hi')
  {
    hide Inside, Base;
    forall t | t in l && t.pc != 1
      ensures Started(trees, caps, t, lo, hi')
    {
      var k: nat :| StartedIn(trees, caps, t, k, lo, hi);
      assert StartedIn(trees, caps, t, k, lo, hi');
    }
  }

  lemma OneStarted(P: Program, trees: seq<Regex>, caps: seq<nat>, s: seq<Byte>, pos: nat, t: Thread, marked: set<nat>, lo: int, hi: int)
    requires Setting(P, trees, caps) && AllStarted(P, trees, caps, [t], lo, hi) && (t.pc == 1 ==> NewBehind({}, marked))
    requires pos <= |s| && lo <= pos + 1 <= hi
    ensures var a := OneThread(P, s, pos, t, marked);
            && AllStarted(P, trees, caps, a.threads, lo, hi)
            && (a.done.Some? ==> Ended(caps, a.done.value, lo, hi, pos + 1))
  {
    hide Add, Base, Ended, Inside, IsCompiled, Numbered;
    assert t in [t];
    if pos < |s| && Eats(P[t.pc], s[pos]) {
      if t.pc == 1 {
        PatternSkipsFirst(P, trees, caps);
        AddFromTwo(P, s, pos + 1, marked, t.caps);
        AddRoot(P, trees, caps, s, pos + 1, marked + {2}, t.caps, lo, hi);
      } else {
        var k: nat :| StartedIn(trees, caps, t, k, lo, hi);
        InsideStays(P, trees, caps, t.pc, k);
        assert Flows(P, t.pc, t.pc + 1);
        AddInside(P, trees, caps, s, pos + 1, marked, t.pc + 1, t.caps, k, lo, hi);
      }
    }
  }

  lemma {:induction false} StepStarted(P: Program, trees: seq<Regex>, caps: seq<nat>, s: seq<Byte>, pos: nat, from: seq<Thread>, marked: set<nat>,
                                       lo: int, hi: int)
    requires Setting(P, trees, caps) && AllStarted(P, trees, caps, from, lo, hi) && ListForm(from) && NewBehind({}, marked)
    requires pos <= |s| && lo <= pos + 1 <= hi
    ensures var step := StepThreads(P, s, pos, from, marked);
            && AllStarted(P, trees, caps, step.next, lo, hi)
            && (step.hit.Some? ==> Ended(caps, step.hit.value, lo, hi, pos + 1))
    decreases |from|
  {
    hide OneThread, Ended, Started, Setting;
    if from != [] {
      OneStarted(P, trees, caps, s, pos, from[0], marked, lo, hi);
      if |from| > 1 {
        PatternSkips(P, trees, caps);
        OneBehind(P, s, pos, from[0], marked);
        StepStarted(P, trees, caps, s, pos, from[1..], OneThread(P, s, pos, from[0], marked).marked, lo, hi);
      } else {
        StepNone(P, s, pos, OneThread(P, s, pos, from[0], marked).marked);
      }
    }
  }

  lemma PatternSkips(P: Program, trees: seq<Regex>, caps: seq<nat>)
    requires Setting(P, trees, caps)
    ensures SkipsFirst(P)
  {
    PatternSkipsFirst(P, trees, caps);
  }

  /** Only the last thread of a list can be the skipping loop. */
  ghost predicate ListForm(l: seq<Thread>) {
    forall k :: 0 <= k < |l| - 1 ==> l[k].pc >= 3
  }

  // ---------- what a run with the shortcut can end with ----------

  ghost predicate Form(slots: nat, l: seq<Thread>) {
    Searching(slots, l) || Behind(l)
  }

  lemma FormIsForm(slots: nat, l: seq<Thread>)
    requires Form(slots, l)
    ensures ListForm(l)
  {
    forall k | 0 <= k < |l| - 1
      ensures l[k].pc >= 3
    {
      assert l[k] in l && (Searching(slots, l) ==> l[k] == l[..|l| - 1][k]);
    }
  }

  lemma StepForm(P: Program, s: seq<Byte>, pos: nat, slots: nat, from: seq<Thread>)
    requires SkipsFirst(P) && pos < |s| && Form(slots, from)
    ensures var step := StepThreads(P, s, pos, from, {});
            && Form(slots, step.next)
            && (Behind(from) || step.hit.Some? ==> Behind(step.next))
            && (Searching(slots, from) && step.hit == None ==> Searching(slots, step.next))
  {
    hide StepThreads;
    if Searching(slots, from) {
      StepSearches(P, s, pos, slots, from, {});
    } else {
      StepBehind(P, s, pos, from, {});
    }
  }

  lemma NextBest(P: Program, s: seq<Byte>, pos: nat, from: seq<Thread>)
    requires pos <= |s| && AllStops(P, from)
    ensures var step := StepThreads(P, s, pos, from, {});
            if pos == |s| then step.hit == Best(P, s, pos, from)
            else AllStops(P, step.next) && Best(P, s, pos, from) == OrElse(Best(P, s, pos + 1, step.next), step.hit)
  {
    if pos == |s| {
      LastStepIsBest(P, s, from, {});
    } else {
      StepIsBest(P, s, pos, from, {}, []);
      var step := StepThreads(P, s, pos, from, {});
      assert [] + step.next == step.next;
    }
  }

  ghost predicate StartsFrom(caps: seq<nat>, h: Hit, lo: int) {
    h.regexId < |caps| && 2 * Base(caps, h.regexId) + 1 < |h.caps| && lo <= h.caps[2 * Base(caps, h.regexId)]
  }

  /** One round of the loop, with what the proofs need to know about the list it starts from. */
  lemma Round(P: Program, trees: seq<Regex>, caps: seq<nat>, s: seq<Byte>, leading: seq<nat>, covered: set<nat>, initial: seq<nat>,
              pos: nat, from: seq<Thread>, seen: bool, matched: Option<Hit>, lo: int)
    returns (p: nat, from': seq<Thread>, seen': bool)
    requires Setting(P, trees, caps) && Covers(P, leading, covered) && lo <= pos <= |s|
    requires from != [] && Form(2 * Base(caps, |caps|), from) && AllStops(P, from) && AllStarted(P, trees, caps, from, lo, pos)
    ensures pos <= p <= |s| && Form(2 * Base(caps, |caps|), from') && AllStops(P, from') && AllStarted(P, trees, caps, from', lo, p)
    ensures p == if leading != [] && seen && pos < |s| && LooksFresh(initial, from) then FirstByte(P, leading, s, pos) else pos
    ensures if p > pos then from' == StartThreads(P, s, 2 * Base(caps, |caps|), p) && Searching(2 * Base(caps, |caps|), from') else from' == from
    ensures seen' == if p > pos then SplitsAtStart(P) else seen && leading == []
    ensures RunSkipping(P, s, 2 * Base(caps, |caps|), leading, initial, pos, from, seen, matched)
            == if p > pos && p == |s| then matched
               else var step := StepThreads(P, s, p, from', {});
                    if p == |s| then OrElse(step.hit, matched)
                    else RunSkipping(P, s, 2 * Base(caps, |caps|), leading, initial, p + 1, step.next,
                                     seen' || (SplitsAtStart(P) && 0 in step.marked), OrElse(step.hit, matched))
  {
    hide *;
    p, from', seen' := pos, from, seen && leading == [];
    PatternSkips(P, trees, caps);
    var slots := 2 * Base(caps, |caps|);
    if leading != [] && seen && pos < |s| && LooksFresh(initial, from) {
      p := FirstByte(P, leading, s, pos);
      if p > pos {
        from', seen' := StartThreads(P, s, slots, p), SplitsAtStart(P);
        StartSearches(P, s, slots, p);
        StartStops(P, s, slots, p);
        StartStarted(P, trees, caps, s, p, leading, covered, lo, p);
        SearchingIsForm(slots, from');
      }
    }
    SkippingRound(P, s, slots, leading, initial, pos, from, seen, matched, p, from', seen');
  }

  lemma SearchingIsForm(slots: nat, l: seq<Thread>)
    requires Searching(slots, l)
    ensures Form(slots, l) && l != []
  {}

  /** The list after one step. */
  lemma Stepped(P: Program, trees: seq<Regex>, caps: seq<nat>, s: seq<Byte>, pos: nat, from: seq<Thread>, lo: int)
    requires Setting(P, trees, caps) && lo <= pos <= |s|
    requires Form(2 * Base(caps, |caps|), from) && AllStops(P, from) && AllStarted(P, trees, caps, from, lo, pos)
    ensures var step := StepThreads(P, s, pos, from, {});
            && (step.hit.Some? ==> Ended(caps, step.hit.value, lo, pos + 1, pos + 1) && StartsFrom(caps, step.hit.value, lo))
            && (pos < |s| ==>
                  && Form(2 * Base(caps, |caps|), step.next) && AllStops(P, step.next)
                  && AllStarted(P, trees, caps, step.next, lo, pos + 1))
  {
    hide StepThreads, Form, Setting, AllStarted, AllStops, Base, SkipsFirst;
    PatternSkips(P, trees, caps);
    StartedWiden(P, trees, caps, from, lo, pos, pos + 1);
    FormIsForm(2 * Base(caps, |caps|), from);
    StepStarted(P, trees, caps, s, pos, from, {}, lo, pos + 1);
    if pos < |s| {
      StepForm(P, s, pos, 2 * Base(caps, |caps|), from);
      NextBest(P, s, pos, from);
    }
  }

  /** A run ends with the hit it had or with one that starts later. */
  lemma {:induction false} Outcome(P: Program, trees: seq<Regex>, caps: seq<nat>, s: seq<Byte>, leading: seq<nat>, covered: set<nat>, initial: seq<nat>,
                                   pos: nat, from: seq<Thread>, seen: bool, matched: Option<Hit>, lo: int)
    requires Setting(P, trees, caps) && Covers(P, leading, covered) && lo <= pos <= |s|
    requires Form(2 * Base(caps, |caps|), from) && AllStops(P, from) && AllStarted(P, trees, caps, from, lo, pos)
    ensures var r := RunSkipping(P, s, 2 * Base(caps, |caps|), leading, initial, pos, from, seen, matched);
            r == matched || (r.Some? && StartsFrom(caps, r.value, lo))
    decreases |s| - pos
  {
    hide *;
    if from == [] {
      RunStops(P, s, 2 * Base(caps, |caps|), leading, initial, pos, seen, matched);
    } else {
      var p, from', seen' := Round(P, trees, caps, s, leading, covered, initial, pos, from, seen, matched, lo);
      Stepped(P, trees, caps, s, p, from', lo);
      var step := StepThreads(P, s, p, from', {});
      OneOf(step.hit, matched);
      if p < |s| {
        Outcome(P, trees, caps, s, leading, covered, initial, p + 1, step.next, seen' || (SplitsAtStart(P) && 0 in step.marked),
                OrElse(step.hit, matched), lo);
      }
    }
  }

  lemma OneOf(a: Option<Hit>, b: Option<Hit>)
    ensures OrElse(a, b) == if a.Some? then a else b
  {}

  lemma StartBest(P: Program, s: seq<Byte>, slots: nat, pos: nat)
    requires pos <= |s|
    ensures Best(P, s, pos, StartThreads(P, s, slots, pos)) == Backtrack(P, s, 0, pos, Unset(slots), {})
    ensures Best(P, s, pos, StartThreads(P, s, slots, pos)).Some? <==> CanMatch(P, s, 0, pos, {})
  {
    AddIsBacktrack(P, s, pos, {}, {}, 0, Unset(slots), false, []);
    var first := StartThreads(P, s, slots, pos);
    assert [] + first == first;
    SuccessIgnoresCaptures(P, s, 0, pos, Unset(slots), [], {});
  }

  /** A jump from a searching list loses nothing. */
  lemma JumpBest(P: Program, s: seq<Byte>, slots: nat, leading: seq<nat>, covered: set<nat>, pos: nat, from: seq<Thread>)
    requires SkipsFirst(P) && Covers(P, leading, covered) && pos < |s| && pos < FirstByte(P, leading, s, pos)
    requires Searching(slots, from) && AllStops(P, from) && FrontIn(covered, from)
    ensures var p := FirstByte(P, leading, s, pos);
            Best(P, s, pos, from) == if p == |s| then None else Best(P, s, p, StartThreads(P, s, slots, p))
  {
    hide RunFrom, Best, StartThreads, Covers, Searching, FrontIn, SkipsFirst;
    var p := FirstByte(P, leading, s, pos);
    SkipTo(P, s, slots, leading, covered, pos, from, None);
    RunFromIsBest(P, s, pos, from, None);
    StartStops(P, s, slots, p);
    RunFromIsBest(P, s, p, StartThreads(P, s, slots, p), None);
  }

  /** The threads a fresh list is compared with. */
  ghost predicate Initially(P: Program, s: seq<Byte>, slots: nat, initial: seq<nat>) {
    initial == InitialStates(StartThreads(P, s, slots, 0))
  }

  lemma FreshFront(P: Program, s: seq<Byte>, slots: nat, leading: seq<nat>, covered: set<nat>, initial: seq<nat>, from: seq<Thread>)
    requires SkipsFirst(P) && Covers(P, leading, covered) && Initially(P, s, slots, initial) && LooksFresh(initial, from)
    ensures FrontIn(covered, from)
  {
    StartCovered(P, s, slots, leading, covered, 0);
  }

  /** While the skipping loop is on the list, the run finds a match exactly when there is one. */
  lemma {:induction false} OutcomeFound(P: Program, trees: seq<Regex>, caps: seq<nat>, s: seq<Byte>, leading: seq<nat>, covered: set<nat>, initial: seq<nat>,
                                        pos: nat, from: seq<Thread>, seen: bool, matched: Option<Hit>, lo: int)
    requires Setting(P, trees, caps) && Covers(P, leading, covered) && lo <= pos <= |s|
    requires Initially(P, s, 2 * Base(caps, |caps|), initial)
    requires Searching(2 * Base(caps, |caps|), from) && AllStops(P, from) && AllStarted(P, trees, caps, from, lo, pos)
    ensures var r := RunSkipping(P, s, 2 * Base(caps, |caps|), leading, initial, pos, from, seen, matched);
            if Best(P, s, pos, from) == None then r == matched else r.Some? && StartsFrom(caps, r.value, lo)
    decreases |s| - pos
  {
    hide *;
    var slots := 2 * Base(caps, |caps|);
    SearchingIsForm(slots, from);
    var p, from', seen' := Round(P, trees, caps, s, leading, covered, initial, pos, from, seen, matched, lo);
    if p > pos {
      PatternSkips(P, trees, caps);
      FreshFront(P, s, slots, leading, covered, initial, from);
      JumpBest(P, s, slots, leading, covered, pos, from);
    }
    if p == pos || p < |s| {
      FoundFrom(P, trees, caps, s, leading, covered, initial, p, from', seen', matched, lo);
    }
  }

  /** OutcomeFound after the step at `pos`. */
  lemma FoundFrom(P: Program, trees: seq<Regex>, caps: seq<nat>, s: seq<Byte>, leading: seq<nat>, covered: set<nat>, initial: seq<nat>,
                  pos: nat, from: seq<Thread>, seen: bool, matched: Option<Hit>, lo: int)
    requires Setting(P, trees, caps) && Covers(P, leading, covered) && lo <= pos <= |s|
    requires Initially(P, s, 2 * Base(caps, |caps|), initial)
    requires Searching(2 * Base(caps, |caps|), from) && AllStops(P, from) && AllStarted(P, trees, caps, from, lo, pos)
    ensures var step := StepThreads(P, s, pos, from, {});
            var r := if pos == |s| then OrElse(step.hit, matched)
                     else RunSkipping(P, s, 2 * Base(caps, |caps|), leading, initial, pos + 1, step.next,
                                      seen || (SplitsAtStart(P) && 0 in step.marked), OrElse(step.hit, matched));
            if Best(P, s, pos, from) == None then r == matched else r.Some? && StartsFrom(caps, r.value, lo)
    decreases |s| - pos, 0
  {
    hide *;
    var slots := 2 * Base(caps, |caps|);
    SearchingIsForm(slots, from);
    PatternSkips(P, trees, caps);
    Stepped(P, trees, caps, s, pos, from, lo);
    NextBest(P, s, pos, from);
    var step := StepThreads(P, s, pos, from, {});
    OneOf(step.hit, matched);
    if pos < |s| {
      OneOf(Best(P, s, pos + 1, step.next), step.hit);
      StepForm(P, s, pos, slots, from);
      var seen' := seen || (SplitsAtStart(P) && 0 in step.marked);
      if step.hit == None {
        OutcomeFound(P, trees, caps, s, leading, covered, initial, pos + 1, step.next, seen', matched, lo);
      } else {
        Outcome(P, trees, caps, s, leading, covered, initial, pos + 1, step.next, seen', step.hit, lo);
      }
    }
  }

  // ---------- the exact condition ----------

  /** A run takes a wrong turn when it jumps although a match stands already: the list only looks
      fresh, its last thread is not the skipping loop, and either that thread could still have
      matched or the search that starts over finds a match it should not look for. */
  ghost predicate GoesAstray(P: Program, s: seq<Byte>, slots: nat, leading: seq<nat>, initial: seq<nat>,
                             pos: nat, from: seq<Thread>, seen: bool, matched: Option<Hit>)
    requires pos <= |s|
    decreases |s| - pos
  {
    from != [] &&
    var p := if leading != [] && seen && pos < |s| && LooksFresh(initial, from) then FirstByte(P, leading, s, pos) else pos;
    if p > pos && matched.Some? then Misleads(P, s, pos, from, p)
    else if p == |s| then false
    else
      var from' := if p > pos then StartThreads(P, s, slots, p) else from;
      var seen' := if p > pos then SplitsAtStart(P) else seen && leading == [];
      var step := StepThreads(P, s, p, from', {});
      GoesAstray(P, s, slots, leading, initial, p + 1, step.next, seen' || (SplitsAtStart(P) && 0 in step.marked), OrElse(step.hit, matched))
  }

  ghost predicate Misleads(P: Program, s: seq<Byte>, pos: nat, from: seq<Thread>, p: nat)
    requires from != [] && pos <= p <= |s|
  {
    CanMatch(P, s, from[|from| - 1].pc, pos, {}) || (p < |s| && CanMatch(P, s, 0, p, {}))
  }

  /** A match that stands when the list is at `pos` has started and ended by then. */
  ghost predicate Standing(caps: seq<nat>, matched: Option<Hit>, pos: int) {
    matched.Some? ==> exists end: int :: end <= pos && Ended(caps, matched.value, 0, pos, end)
  }

  /** The state of a run at the top of its loop, as long as it has not gone astray. */
  ghost predicate OnCourse(P: Program, trees: seq<Regex>, caps: seq<nat>, pos: nat, from: seq<Thread>, matched: Option<Hit>) {
    && (if matched == None then Searching(2 * Base(caps, |caps|), from) else Behind(from))
    && AllStops(P, from) && AllStarted(P, trees, caps, from, 0, pos) && Standing(caps, matched, pos)
  }

  /** The hit of a single thread starts where the thread started and ends behind `pos`. */
  lemma ThreadHit(P: Program, trees: seq<Regex>, caps: seq<nat>, s: seq<Byte>, pos: nat, t: Thread)
    requires Setting(P, trees, caps) && pos <= |s| && t.pc != 1 && t.pc < |P| && IsStop(P[t.pc]) && !P[t.pc].Match?
    requires Started(trees, caps, t, 0, pos) && Backtrack(P, s, t.pc, pos, t.caps, {}).Some?
    ensures exists end: int :: end > pos && Ended(caps, Backtrack(P, s, t.pc, pos, t.caps, {}).value, 0, pos, end)
  {
    hide Inside, Base, IsCompiled, Numbered;
    var k: nat :| StartedIn(trees, caps, t, k, 0, pos);
    InsideStays(P, trees, caps, t.pc, k);
    assert Flows(P, t.pc, t.pc + 1);
    var d := HitInside(P, trees, caps, s, k, t.pc + 1, pos + 1, t.caps, {});
    assert Ended(caps, Backtrack(P, s, t.pc, pos, t.caps, {}).value, 0, pos, d.pos);
  }

  /** When only the last thread survives the byte at `pos`, it decides. */
  lemma {:induction false} FrontBest(P: Program, s: seq<Byte>, leading: seq<nat>, covered: set<nat>, pos: nat, from: seq<Thread>)
    requires Covers(P, leading, covered) && pos < |s| && !Leads(P, leading, s[pos])
    requires from != [] && AllStops(P, from) && FrontIn(covered, from)
    ensures var t := from[|from| - 1]; Best(P, s, pos, from) == Backtrack(P, s, t.pc, pos, t.caps, {})
    decreases |from|
  {
    if |from| == 1 {
      assert Best(P, s, pos, []) == None;
    } else {
      assert Settles(P, from[0].pc, covered, leading);
      assert Backtrack(P, s, from[0].pc, pos, from[0].caps, {}) == None;
      FrontBest(P, s, leading, covered, pos, from[1..]);
    }
  }

  lemma FirstByteStays(P: Program, leading: seq<nat>, s: seq<Byte>, pos: nat)
    requires pos < |s|
    ensures FirstByte(P, leading, s, pos) > pos ==> !Leads(P, leading, s[pos])
  {}

  lemma Differ(caps: seq<nat>, g: Hit, h: Hit, pos: int, p: int)
    requires p > pos
    ensures (exists e: int :: e > pos && Ended(caps, g, 0, pos, e)) && (exists e: int :: e <= pos && Ended(caps, h, 0, pos, e)) ==> g != h
    ensures (exists e: int :: e > pos && Ended(caps, g, 0, pos, e)) && StartsFrom(caps, h, p) ==> g != h
    ensures (exists e: int :: e <= pos && Ended(caps, g, 0, pos, e)) && StartsFrom(caps, h, p) ==> g != h
  {}

  /** A jump while the match `h` stands leads to the right end exactly when it does not mislead. */
  lemma JumpAstray(P: Program, trees: seq<Regex>, caps: seq<nat>, s: seq<Byte>, leading: seq<nat>, covered: set<nat>, initial: seq<nat>,
                   pos: nat, from: seq<Thread>, seen: bool, h: Hit)
    requires Setting(P, trees, caps) && Covers(P, leading, covered) && leading != [] && seen && pos < |s|
    requires Initially(P, s, 2 * Base(caps, |caps|), initial) && LooksFresh(initial, from)
    requires OnCourse(P, trees, caps, pos, from, Some(h)) && pos < FirstByte(P, leading, s, pos)
    ensures (RunSkipping(P, s, 2 * Base(caps, |caps|), leading, initial, pos, from, seen, Some(h)) == RunFrom(P, s, pos, from, Some(h)))
            <==> !Misleads(P, s, pos, from, FirstByte(P, leading, s, pos))
  {
    hide *;
    var slots, p := 2 * Base(caps, |caps|), FirstByte(P, leading, s, pos);
    PatternSkips(P, trees, caps);
    var t := LastThread(P, trees, caps, s, pos, from, initial, h);
    FreshFront(P, s, slots, leading, covered, initial, from);
    FirstByteStays(P, leading, s, pos);
    FrontBest(P, s, leading, covered, pos, from);
    RunFromIsBest(P, s, pos, from, Some(h));
    SuccessIgnoresCaptures(P, s, t.pc, pos, t.caps, [], {});
    var own := Backtrack(P, s, t.pc, pos, t.caps, {});
    OneOf(own, Some(h));
    MisleadsIs(P, s, pos, from, p);
    if own.Some? {
      ThreadHit(P, trees, caps, s, pos, t);
      Differ(caps, own.value, h, pos, p);
    }
    var p', from', seen' := Round(P, trees, caps, s, leading, covered, initial, pos, from, seen, Some(h), 0);
    if p < |s| {
      StartStarted(P, trees, caps, s, p, leading, covered, p, p);
      FoundFrom(P, trees, caps, s, leading, covered, initial, p, from', seen', Some(h), p);
      StartBest(P, s, slots, p);
      var r := RunSkipping(P, s, slots, leading, initial, pos, from, seen, Some(h));
      if CanMatch(P, s, 0, p, {}) {
        Differ(caps, h, r.value, pos, p);
        if own.Some? {
          Differ(caps, own.value, r.value, pos, p);
        }
      }
    }
  }

  lemma MisleadsIs(P: Program, s: seq<Byte>, pos: nat, from: seq<Thread>, p: nat)
    requires from != [] && pos <= p <= |s|
    ensures Misleads(P, s, pos, from, p) <==> Backtrack(P, s, from[|from| - 1].pc, pos, [], {}).Some? || (p < |s| && CanMatch(P, s, 0, p, {}))
  {}

  lemma LastThread(P: Program, trees: seq<Regex>, caps: seq<nat>, s: seq<Byte>, pos: nat, from: seq<Thread>, initial: seq<nat>, h: Hit) returns (t: Thread)
    requires OnCourse(P, trees, caps, pos, from, Some(h)) && LooksFresh(initial, from)
    ensures from != [] && t == from[|from| - 1] && t.pc != 1 && t.pc < |P| && IsStop(P[t.pc]) && !P[t.pc].Match?
    ensures Started(trees, caps, t, 0, pos) && Form(2 * Base(caps, |caps|), from) && AllStops(P, from) && AllStarted(P, trees, caps, from, 0, pos)
    ensures exists end: int :: end <= pos && Ended(caps, h, 0, pos, end)
  {
    hide Started, Ended, Base;
    t := from[|from| - 1];
    assert t in from;
  }

  lemma NoneLeft(P: Program, s: seq<Byte>, slots: nat, leading: seq<nat>, initial: seq<nat>, pos: nat, seen: bool, matched: Option<Hit>)
    requires pos <= |s|
    ensures RunFrom(P, s, pos, [], matched) == matched && !GoesAstray(P, s, slots, leading, initial, pos, [], seen, matched)
  {}

  lemma AstrayRound(P: Program, s: seq<Byte>, slots: nat, leading: seq<nat>, initial: seq<nat>, pos: nat, from: seq<Thread>, seen: bool, matched: Option<Hit>)
    requires pos <= |s| && from != []
    ensures var p := if leading != [] && seen && pos < |s| && LooksFresh(initial, from) then FirstByte(P, leading, s, pos) else pos;
            var from' := if p > pos then StartThreads(P, s, slots, p) else from;
            var seen' := if p > pos then SplitsAtStart(P) else seen && leading == [];
            var step := StepThreads(P, s, p, from', {});
            GoesAstray(P, s, slots, leading, initial, pos, from, seen, matched) ==
            if p > pos && matched.Some? then Misleads(P, s, pos, from, p)
            else if p == |s| then false
            else GoesAstray(P, s, slots, leading, initial, p + 1, step.next, seen' || (SplitsAtStart(P) && 0 in step.marked), OrElse(step.hit, matched))
  {}

  lemma RunFromStep(P: Program, s: seq<Byte>, pos: nat, from: seq<Thread>, matched: Option<Hit>)
    requires pos <= |s| && from != []
    ensures var step := StepThreads(P, s, pos, from, {});
            RunFrom(P, s, pos, from, matched)
            == if pos == |s| then OrElse(step.hit, matched) else RunFrom(P, s, pos + 1, step.next, OrElse(step.hit, matched))
  {}

  lemma CourseForm(P: Program, trees: seq<Regex>, caps: seq<nat>, pos: nat, from: seq<Thread>, matched: Option<Hit>)
    requires OnCourse(P, trees, caps, pos, from, matched)
    ensures Form(2 * Base(caps, |caps|), from) && AllStops(P, from) && AllStarted(P, trees, caps, from, 0, pos)
    ensures matched == None ==> Searching(2 * Base(caps, |caps|), from)
  {}

  lemma NowSearching(P: Program, trees: seq<Regex>, caps: seq<nat>, pos: nat, from: seq<Thread>)
    requires Searching(2 * Base(caps, |caps|), from) && AllStops(P, from) && AllStarted(P, trees, caps, from, 0, pos)
    ensures OnCourse(P, trees, caps, pos, from, None) && from != []
  {}

  lemma StandingLater(caps: seq<nat>, hit: Option<Hit>, matched: Option<Hit>, pos: int)
    requires Standing(caps, matched, pos) && (hit.Some? ==> Ended(caps, hit.value, 0, pos + 1, pos + 1))
    ensures Standing(caps, OrElse(hit, matched), pos + 1)
  {
    if hit == None && matched.Some? {
      var end: int :| end <= pos && Ended(caps, matched.value, 0, pos, end);
      assert Ended(caps, matched.value, 0, pos + 1, end);
    }
  }

  lemma CourseKept(P: Program, trees: seq<Regex>, caps: seq<nat>, s: seq<Byte>, pos: nat, from: seq<Thread>, matched: Option<Hit>)
    requires Setting(P, trees, caps) && pos < |s| && OnCourse(P, trees, caps, pos, from, matched)
    ensures var step := StepThreads(P, s, pos, from, {}); OnCourse(P, trees, caps, pos + 1, step.next, OrElse(step.hit, matched))
  {
    hide StepThreads, AllStops, AllStarted, Searching, Behind, Base, SkipsFirst, Setting, Standing, Ended, StartsFrom;
    CourseForm(P, trees, caps, pos, from, matched);
    StandingLater(caps, StepThreads(P, s, pos, from, {}).hit, matched, pos) by {
      Stepped(P, trees, caps, s, pos, from, 0);
    }
    PatternSkips(P, trees, caps);
    Stepped(P, trees, caps, s, pos, from, 0);
    StepForm(P, s, pos, 2 * Base(caps, |caps|), from);
  }

  /** With the shortcut a run ends as it would without, exactly unless it goes astray. */
  lemma {:induction false} SkippingExact(P: Program, trees: seq<Regex>, caps: seq<nat>, s: seq<Byte>, leading: seq<nat>, covered: set<nat>, initial: seq<nat>,
                                         pos: nat, from: seq<Thread>, seen: bool, matched: Option<Hit>)
    requires Setting(P, trees, caps) && Covers(P, leading, covered) && pos <= |s|
    requires Initially(P, s, 2 * Base(caps, |caps|), initial) && OnCourse(P, trees, caps, pos, from, matched)
    ensures (RunSkipping(P, s, 2 * Base(caps, |caps|), leading, initial, pos, from, seen, matched) == RunFrom(P, s, pos, from, matched))
            <==> !GoesAstray(P, s, 2 * Base(caps, |caps|), leading, initial, pos, from, seen, matched)
    decreases |s| - pos
  {
    hide *;
    var slots := 2 * Base(caps, |caps|);
    if from == [] {
      RunStops(P, s, slots, leading, initial, pos, seen, matched);
      NoneLeft(P, s, slots, leading, initial, pos, seen, matched);
      return;
    }
    CourseForm(P, trees, caps, pos, from, matched);
    AstrayRound(P, s, slots, leading, initial, pos, from, seen, matched);
    var p, from', seen' := Round(P, trees, caps, s, leading, covered, initial, pos, from, seen, matched, 0);
    if p > pos && matched.Some? {
      JumpAstray(P, trees, caps, s, leading, covered, initial, pos, from, seen, matched.value);
      return;
    }
    if p > pos {
      PatternSkips(P, trees, caps);
      FreshFront(P, s, slots, leading, covered, initial, from);
      SkipTo(P, s, slots, leading, covered, pos, from, matched);
      if p == |s| {
        return;
      }
      NowSearching(P, trees, caps, p, from');
    }
    RunFromStep(P, s, p, from', matched);
    if p < |s| {
      CourseKept(P, trees, caps, s, p, from', matched);
      var step := StepThreads(P, s, p, from', {});
      SkippingExact(P, trees, caps, s, leading, covered, initial, p + 1, step.next,
                    seen' || (SplitsAtStart(P) && 0 in step.marked), OrElse(step.hit, matched));
    }
  }

  /** The run on `s` goes astray. */
  ghost predicate TurnsWrong(P: Program, s: seq<Byte>, slots: nat, leading: seq<nat>) {
    var first := StartThreads(P, s, slots, 0);
    GoesAstray(P, s, slots, leading, InitialStates(first), 0, first, SplitsAtStart(P), None)
  }

  lemma {:induction false} NeverJumps(P: Program, s: seq<Byte>, slots: nat, initial: seq<nat>, pos: nat, from: seq<Thread>, seen: bool, matched: Option<Hit>)
    requires pos <= |s|
    ensures RunSkipping(P, s, slots, [], initial, pos, from, seen, matched) == RunFrom(P, s, pos, from, matched)
    ensures !GoesAstray(P, s, slots, [], initial, pos, from, seen, matched)
    decreases |s| - pos
  {
    hide StepThreads, StartThreads, LooksFresh, SplitsAtStart;
    if from != [] && pos < |s| {
      var step := StepThreads(P, s, pos, from, {});
      NeverJumps(P, s, slots, initial, pos + 1, step.next, seen || (SplitsAtStart(P) && 0 in step.marked), OrElse(step.hit, matched));
    }
  }

  /** On a compiled pattern with its leading instructions, the shortcut changes the result
      exactly when the run turns wrong. */
  lemma ShortcutIsExact(P: Program, trees: seq<Regex>, caps: seq<nat>, s: seq<Byte>, leading: seq<nat>, covered: set<nat>)
    requires Setting(P, trees, caps) && (leading != [] ==> Covers(P, leading, covered))
    ensures (SkippingRun(P, s, 2 * Base(caps, |caps|), leading) == Run(P, s, 2 * Base(caps, |caps|)))
            <==> !TurnsWrong(P, s, 2 * Base(caps, |caps|), leading)
  {
    hide Setting, Covers, GoesAstray, StartThreads, Base, RunSkipping, RunFrom, AllStops, Searching, AllStarted, InitialStates, SkipsFirst;
    var slots := 2 * Base(caps, |caps|);
    var first := StartThreads(P, s, slots, 0);
    if leading == [] {
      NeverJumps(P, s, slots, InitialStates(first), 0, first, SplitsAtStart(P), None);
    } else {
      PatternSkips(P, trees, caps);
      StartSearches(P, s, slots, 0);
      StartStops(P, s, slots, 0);
      StartStarted(P, trees, caps, s, 0, leading, covered, 0, 0);
      NowSearching(P, trees, caps, 0, first);
      SkippingExact(P, trees, caps, s, leading, covered, InitialStates(first), 0, first, SplitsAtStart(P), None);
    }
  }
}
