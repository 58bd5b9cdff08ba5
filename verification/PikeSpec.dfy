/** What the Pike machine computes, as functions on values: the closure that adds threads in
    priority order, one step over the byte at a position, and a whole run. The main result is
    that a run ends with the hit of the backtracker. */
module PikeSpec {
  import opened Options
  import opened Regexes
  import opened Bytecode
  import opened Backtracking

  datatype Thread = Thread(pc: nat, caps: Captures)

  /** The marked instructions, the threads added, and the hit that ended the closure, if any. */
  datatype Closure = Closure(marked: set<nat>, threads: seq<Thread>, done: Option<Hit>)

  predicate AllStops(P: Program, l: seq<Thread>) {
    forall t <- l :: t.pc < |P| && IsStop(P[t.pc])
  }

  /** Follows `pc` silently. An `eager` closure ends at the first MATCH instead of listing it.
      A marked split whose second branch is not marked is on its first branch's trail: control
      has come round a loop without reading a byte, and leaves it by the second branch. */
  function Add(P: Program, s: seq<Byte>, pos: nat, marked: set<nat>, pc: nat, caps: Captures, eager: bool): (r: Closure)
    requires pos <= |s|
    ensures marked <= r.marked && (pc < |P| ==> pc in r.marked)
    ensures AllStops(P, r.threads) && (!eager ==> r.done == None)
    decreases Addresses(P) - marked, pc in marked
  {
    if pc >= |P| then Closure(marked, [], None)
    else if pc in marked then
      if P[pc].Split? && P[pc].y !in marked then Add(P, s, pos, marked, P[pc].y, caps, eager)
      else Closure(marked, [], None)
    else
      var m := marked + {pc};
      assert pc in Addresses(P) - marked && pc !in Addresses(P) - m;
      match P[pc]
      case Jmp(x) => Add(P, s, pos, m, x, caps, eager)
      case Split(x, y) =>
        var r := Add(P, s, pos, m, x, caps, eager);
        if r.done.Some? then r
        else
          var q := Add(P, s, pos, r.marked, y, caps, eager);
          Closure(q.marked, r.threads + q.threads, q.done)
      case Save(g) => Add(P, s, pos, m, pc + 1, Put(caps, g, pos), eager)
      case Check(a) => if Holds(a, s, pos) then Add(P, s, pos, m, pc + 1, caps, eager) else Closure(m, [], None)
      case Match(id) => if eager then Closure(m, [], Some(Hit(caps, id))) else Closure(m, [Thread(pc, caps)], None)
      case _ => Closure(m, [Thread(pc, caps)], None)
  }

  /** The list for the next position, the hit that cut it off, if any, and the marks made. */
  datatype StepResult = StepResult(next: seq<Thread>, hit: Option<Hit>, marked: set<nat>)

  /** One thread on the byte at `pos`. */
  function OneThread(P: Program, s: seq<Byte>, pos: nat, t: Thread, marked: set<nat>): Closure
    requires pos <= |s|
  {
    if t.pc < |P| && P[t.pc].Match? then Closure(marked, [], Some(Hit(t.caps, P[t.pc].regexId)))
    else if t.pc < |P| && pos < |s| && Eats(P[t.pc], s[pos]) then Add(P, s, pos + 1, marked, t.pc + 1, t.caps, true)
    else Closure(marked, [], None)
  }

  /** One position: the threads of `from` are tried in order. */
  function StepThreads(P: Program, s: seq<Byte>, pos: nat, from: seq<Thread>, marked: set<nat>): StepResult
    requires pos <= |s|
  {
    if from == [] then StepResult([], None, marked)
    else
      var a := OneThread(P, s, pos, from[0], marked);
      if a.done.Some? then StepResult(a.threads, a.done, a.marked)
      else
        var rest := StepThreads(P, s, pos, from[1..], a.marked);
        StepResult(a.threads + rest.next, rest.hit, rest.marked)
  }

  /** The rest of a run: the last hit stands until a thread of higher priority replaces it. */
  function RunFrom(P: Program, s: seq<Byte>, pos: nat, from: seq<Thread>, matched: Option<Hit>): Option<Hit>
    requires pos <= |s|
    decreases |s| - pos
  {
    if from == [] then matched
    else
      var step := StepThreads(P, s, pos, from, {});
      var matched' := OrElse(step.hit, matched);
      if pos == |s| then matched' else RunFrom(P, s, pos + 1, step.next, matched')
  }

  function Unset(slots: nat): Captures {
    seq(slots, _ => -1)
  }

  /** The threads a run starts with at `pos`. */
  function StartThreads(P: Program, s: seq<Byte>, slots: nat, pos: nat): seq<Thread>
    requires pos <= |s|
  {
    Add(P, s, pos, {}, 0, Unset(slots), false).threads
  }

  function Run(P: Program, s: seq<Byte>, slots: nat): Option<Hit> {
    RunFrom(P, s, 0, StartThreads(P, s, slots, 0), None)
  }

  // ---------- the first-byte shortcut ----------

  predicate Leads(P: Program, leading: seq<nat>, c: Byte) {
    exists k :: 0 <= k < |leading| && leading[k] < |P| && Eats(P[leading[k]], c)
  }

  /** The first position from `pos` on whose byte is taken by a leading instruction. */
  function FirstByte(P: Program, leading: seq<nat>, s: seq<Byte>, pos: nat): (p: nat)
    requires pos <= |s|
    ensures pos <= p <= |s|
    decreases |s| - pos
  {
    if pos == |s| || Leads(P, leading, s[pos]) then pos else FirstByte(P, leading, s, pos + 1)
  }

  /** The list looks like the one a run starts with; its last thread is not looked at. */
  predicate LooksFresh(initial: seq<nat>, from: seq<Thread>) {
    |from| == |initial| + 1 && forall k :: 0 <= k < |initial| ==> from[k].pc == initial[k]
  }

  /** A run that, whenever the start was passed since the last look and the list looks fresh,
      jumps to the next leading byte and starts over there. No leading instructions: no jumps. */
  function RunSkipping(P: Program, s: seq<Byte>, slots: nat, leading: seq<nat>, initial: seq<nat>,
                       pos: nat, from: seq<Thread>, seen: bool, matched: Option<Hit>): Option<Hit>
    requires pos <= |s|
    decreases |s| - pos
  {
    if from == [] then matched
    else
      var looks := leading != [] && seen;
      var p := if looks && pos < |s| && LooksFresh(initial, from) then FirstByte(P, leading, s, pos) else pos;
      if p > pos && p == |s| then matched
      else
        var from' := if p > pos then StartThreads(P, s, slots, p) else from;
        var seen' := if p > pos then SplitsAtStart(P) else seen && !looks;
        var step := StepThreads(P, s, p, from', {});
        var matched' := OrElse(step.hit, matched);
        if p == |s| then matched'
        else RunSkipping(P, s, slots, leading, initial, p + 1, step.next,
                         seen' || (SplitsAtStart(P) && 0 in step.marked), matched')
  }

  /** The states a run starts with, except the last, which is that of the skipping loop. */
  function InitialStates(first: seq<Thread>): seq<nat> {
    if first == [] then [] else seq(|first| - 1, k requires 0 <= k < |first| => first[k].pc)
  }

  /** A whole run with the shortcut; without leading instructions it is Run. */
  function SkippingRun(P: Program, s: seq<Byte>, slots: nat, leading: seq<nat>): Option<Hit> {
    var first := StartThreads(P, s, slots, 0);
    RunSkipping(P, s, slots, leading, InitialStates(first), 0, first, SplitsAtStart(P), None)
  }

  /** One round of the loop: the list and the flag after a jump to `p`, if there was one. */
  lemma SkippingRound(P: Program, s: seq<Byte>, slots: nat, leading: seq<nat>, initial: seq<nat>,
                      pos: nat, from: seq<Thread>, seen: bool, matched: Option<Hit>,
                      p: nat, from': seq<Thread>, seen': bool)
    requires pos <= |s| && from != []
    requires p == if leading != [] && seen && pos < |s| && LooksFresh(initial, from) then FirstByte(P, leading, s, pos) else pos
    requires p > pos ==> from' == StartThreads(P, s, slots, p) && seen' == SplitsAtStart(P)
    requires p == pos ==> from' == from && seen' == (seen && leading == [])
    ensures RunSkipping(P, s, slots, leading, initial, pos, from, seen, matched)
            == if p > pos && p == |s| then matched
               else var step := StepThreads(P, s, p, from', {});
                    if p == |s| then OrElse(step.hit, matched)
                    else RunSkipping(P, s, slots, leading, initial, p + 1, step.next,
                                     seen' || (SplitsAtStart(P) && 0 in step.marked), OrElse(step.hit, matched))
  {}

  predicate SplitsAtStart(P: Program) {
    |P| > 0 && P[0].Split?
  }

  lemma RunStops(P: Program, s: seq<Byte>, slots: nat, leading: seq<nat>, initial: seq<nat>, pos: nat, seen: bool, matched: Option<Hit>)
    requires pos <= |s|
    ensures RunSkipping(P, s, slots, leading, initial, pos, [], seen, matched) == matched
  {}

  /** A step whose first threads, already done, contributed `built`. */
  function After(built: seq<Thread>, rest: StepResult): StepResult {
    StepResult(built + rest.next, rest.hit, rest.marked)
  }

  ghost predicate AllLive(P: Program, l: seq<Thread>) {
    forall t <- l :: Live(P, t.pc)
  }

  lemma {:induction false} AddStaysLive(P: Program, s: seq<Byte>, pos: nat, marked: set<nat>, pc: nat, caps: Captures, eager: bool)
    requires Closed(P) && Live(P, pc) && pos <= |s|
    ensures AllLive(P, Add(P, s, pos, marked, pc, caps, eager).threads)
    decreases Addresses(P) - marked, pc in marked
  {
    if P[pc].Split? {
      assert Flows(P, pc, P[pc].x) && Flows(P, pc, P[pc].y);
    }
    if pc in marked {
      if P[pc].Split? && P[pc].y !in marked {
        AddStaysLive(P, s, pos, marked, P[pc].y, caps, eager);
      }
    } else {
      var m := marked + {pc};
      assert pc in Addresses(P) - marked && pc !in Addresses(P) - m;
      if P[pc].Split? {
        AddStaysLive(P, s, pos, m, P[pc].x, caps, eager);
        var r := Add(P, s, pos, m, P[pc].x, caps, eager);
        AddStaysLive(P, s, pos, r.marked, P[pc].y, caps, eager);
      } else if !IsStop(P[pc]) {
        var q := if P[pc].Jmp? then P[pc].x else pc + 1;
        assert Flows(P, pc, q);
        AddStaysLive(P, s, pos, m, q, if P[pc].Save? then Put(caps, P[pc].group, pos) else caps, eager);
      }
    }
  }

  lemma OneStaysLive(P: Program, s: seq<Byte>, pos: nat, t: Thread, marked: set<nat>)
    requires Closed(P) && Live(P, t.pc) && pos <= |s|
    ensures AllLive(P, OneThread(P, s, pos, t, marked).threads)
  {
    if pos < |s| && Eats(P[t.pc], s[pos]) {
      assert Flows(P, t.pc, t.pc + 1);
      AddStaysLive(P, s, pos + 1, marked, t.pc + 1, t.caps, true);
    }
  }

  lemma StepNone(P: Program, s: seq<Byte>, pos: nat, marks: set<nat>)
    requires pos <= |s|
    ensures StepThreads(P, s, pos, [], marks) == StepResult([], None, marks)
  {}

  /** One thread less to go: `built` has become `built'`, the marks `marks'`. */
  lemma StepOneMore(P: Program, s: seq<Byte>, pos: nat, left: seq<Thread>, marks: set<nat>, built: seq<Thread>, built': seq<Thread>)
    requires Closed(P) && pos <= |s| && left != [] && AllLive(P, left) && AllLive(P, built)
    requires built' == built + OneThread(P, s, pos, left[0], marks).threads
    ensures var a := OneThread(P, s, pos, left[0], marks);
            After(built, StepThreads(P, s, pos, left, marks))
            == if a.done.Some? then StepResult(built', a.done, a.marked)
               else After(built', StepThreads(P, s, pos, left[1..], a.marked))
    ensures AllLive(P, built') && AllLive(P, left[1..])
  {
    var a := OneThread(P, s, pos, left[0], marks);
    var rest := StepThreads(P, s, pos, left[1..], a.marked);
    assert built + (a.threads + rest.next) == built + a.threads + rest.next;
    OneStaysLive(P, s, pos, left[0], marks);
  }

  // The closure, one instruction unfolded.

  lemma AddAgain(P: Program, s: seq<Byte>, pos: nat, marked: set<nat>, pc: nat, caps: Captures, eager: bool)
    requires pos <= |s| && pc < |P| && pc in marked
    ensures Add(P, s, pos, marked, pc, caps, eager)
            == if P[pc].Split? && P[pc].y !in marked then Add(P, s, pos, marked, P[pc].y, caps, eager)
               else Closure(marked, [], None)
  {}

  lemma AddNext(P: Program, s: seq<Byte>, pos: nat, marked: set<nat>, pc: nat, caps: Captures, eager: bool, q: nat, caps': Captures)
    requires pos <= |s| && pc < |P| && pc !in marked && !IsStop(P[pc]) && !P[pc].Split?
    requires P[pc].Check? ==> Holds(P[pc].assertion, s, pos)
    requires q == if P[pc].Jmp? then P[pc].x else pc + 1
    requires caps' == if P[pc].Save? then Put(caps, P[pc].group, pos) else caps
    ensures Add(P, s, pos, marked, pc, caps, eager) == Add(P, s, pos, marked + {pc}, q, caps', eager)
  {}

  lemma AddBoth(P: Program, s: seq<Byte>, pos: nat, marked: set<nat>, pc: nat, caps: Captures, eager: bool)
    requires pos <= |s| && pc < |P| && pc !in marked && P[pc].Split?
    ensures var a := Add(P, s, pos, marked + {pc}, P[pc].x, caps, eager);
            var b := Add(P, s, pos, a.marked, P[pc].y, caps, eager);
            Add(P, s, pos, marked, pc, caps, eager)
            == if a.done.Some? then a else Closure(b.marked, a.threads + b.threads, b.done)
  {}

  lemma AddEnd(P: Program, s: seq<Byte>, pos: nat, marked: set<nat>, pc: nat, caps: Captures, eager: bool)
    requires pos <= |s| && pc < |P| && pc !in marked
    ensures P[pc].Check? && !Holds(P[pc].assertion, s, pos) ==>
              Add(P, s, pos, marked, pc, caps, eager) == Closure(marked + {pc}, [], None)
    ensures IsStop(P[pc]) && !(P[pc].Match? && eager) ==>
              Add(P, s, pos, marked, pc, caps, eager) == Closure(marked + {pc}, [Thread(pc, caps)], None)
    ensures P[pc].Match? && eager ==>
              Add(P, s, pos, marked, pc, caps, eager) == Closure(marked + {pc}, [], Some(Hit(caps, P[pc].regexId)))
  {}

  // ---------- a thread list as a prioritised set of alternatives ----------

  /** The first hit among the threads of a list, each run to its end. */
  function Best(P: Program, s: seq<Byte>, pos: nat, l: seq<Thread>): Option<Hit>
    requires pos <= |s|
  {
    if l == [] then None
    else OrElse(Backtrack(P, s, l[0].pc, pos, l[0].caps, {}), Best(P, s, pos, l[1..]))
  }

  lemma {:induction false} BestConcat(P: Program, s: seq<Byte>, pos: nat, a: seq<Thread>, b: seq<Thread>)
    requires pos <= |s|
    ensures Best(P, s, pos, a + b) == OrElse(Best(P, s, pos, a), Best(P, s, pos, b))
  {
    hide Backtrack;
    if a == [] {
      assert a + b == b;
    } else {
      assert (a + b)[1..] == a[1..] + b;
      BestConcat(P, s, pos, a[1..], b);
    }
  }

  /** The marks of a closure under way; `trail` are the instructions whose exploration has not
      ended. Every other marked instruction has had its chance: if it can lead to a hit at all,
      the threads before have one. */
  ghost predicate Exhausted(P: Program, s: seq<Byte>, pos: nat, marked: set<nat>, trail: set<nat>, before: seq<Thread>)
    requires pos <= |s|
  {
    && trail <= marked
    && (forall m :: m in marked && m !in trail && CanMatch(P, s, m, pos, trail) ==> Best(P, s, pos, before).Some?)
    && (forall m :: m in marked && m !in trail && m < |P| && P[m].Split? && P[m].y < |P| ==> P[m].y in marked)
  }

  lemma TrailPush(P: Program, s: seq<Byte>, pos: nat, marked: set<nat>, trail: set<nat>, pc: nat, before: seq<Thread>)
    requires pos <= |s| && Exhausted(P, s, pos, marked, trail, before) && pc !in marked
    ensures Exhausted(P, s, pos, marked + {pc}, trail + {pc}, before)
  {
    hide CanMatch, Best;
    forall m | m in marked && m !in trail && CanMatch(P, s, m, pos, trail + {pc})
      ensures Best(P, s, pos, before).Some?
    {
      SeenLessMatchesMore(P, s, m, pos, trail, trail + {pc});
    }
  }

  lemma TrailPop(P: Program, s: seq<Byte>, pos: nat, marked: set<nat>, trail: set<nat>, pc: nat, before: seq<Thread>)
    requires pos <= |s| && Exhausted(P, s, pos, marked, trail + {pc}, before) && pc !in trail
    requires CanMatch(P, s, pc, pos, trail) ==> Best(P, s, pos, before).Some?
    requires pc < |P| && P[pc].Split? && P[pc].y < |P| ==> P[pc].y in marked
    ensures Exhausted(P, s, pos, marked, trail, before)
  {
    hide CanMatch, Best;
    forall m | m in marked && m !in trail && CanMatch(P, s, m, pos, trail)
      ensures Best(P, s, pos, before).Some?
    {
      AvoidOrReach(P, s, m, pos, trail, pc);
    }
  }

  /** The closure adds to a list exactly what the backtracker would find from `pc`. */
  ghost predicate AddsBacktrack(P: Program, s: seq<Byte>, pos: nat, marked: set<nat>, trail: set<nat>,
                                pc: nat, caps: Captures, eager: bool, before: seq<Thread>)
    requires pos <= |s|
  {
    var r := Add(P, s, pos, marked, pc, caps, eager);
    && OrElse(Best(P, s, pos, before + r.threads), r.done)
       == OrElse(Best(P, s, pos, before), Backtrack(P, s, pc, pos, caps, trail))
    && (r.done == None ==> Exhausted(P, s, pos, r.marked, trail, before + r.threads))
  }

  lemma {:induction false} AddIsBacktrack(P: Program, s: seq<Byte>, pos: nat, marked: set<nat>, trail: set<nat>,
                                          pc: nat, caps: Captures, eager: bool, before: seq<Thread>)
    requires pos <= |s| && Exhausted(P, s, pos, marked, trail, before)
    ensures AddsBacktrack(P, s, pos, marked, trail, pc, caps, eager, before)
    decreases Addresses(P) - marked, pc in marked, 1
  {
    assert before + [] == before;
    if pc >= |P| {
    } else if pc in marked {
      AddMarked(P, s, pos, marked, trail, pc, caps, eager, before);
    } else {
      var m := marked + {pc};
      assert pc in Addresses(P) - marked && pc !in Addresses(P) - m;
      TrailPush(P, s, pos, marked, trail, pc, before);
      if P[pc].Split? {
        AddSplit(P, s, pos, marked, trail, pc, caps, eager, before);
      } else if IsStop(P[pc]) {
        AddStop(P, s, pos, marked, trail, pc, caps, eager, before);
      } else if P[pc].Check? && !Holds(P[pc].assertion, s, pos) {
        TrailPop(P, s, pos, m, trail, pc, before);
      } else {
        var x := if P[pc].Jmp? then P[pc].x else pc + 1;
        var caps' := if P[pc].Save? then Put(caps, P[pc].group, pos) else caps;
        AddIsBacktrack(P, s, pos, m, trail + {pc}, x, caps', eager, before);
        var r := Add(P, s, pos, m, x, caps', eager);
        SuccessIgnoresCaptures(P, s, pc, pos, caps, [], trail);
        if r.done == None {
          TrailPop(P, s, pos, r.marked, trail, pc, before + r.threads);
        }
      }
    }
  }

  lemma AddMarked(P: Program, s: seq<Byte>, pos: nat, marked: set<nat>, trail: set<nat>,
                  pc: nat, caps: Captures, eager: bool, before: seq<Thread>)
    requires pos <= |s| && Exhausted(P, s, pos, marked, trail, before) && pc < |P| && pc in marked
    ensures AddsBacktrack(P, s, pos, marked, trail, pc, caps, eager, before)
    decreases Addresses(P) - marked, pc in marked, 0
  {
    assert before + [] == before;
    SuccessIgnoresCaptures(P, s, pc, pos, caps, [], trail);
    if P[pc].Split? {
      var y := P[pc].y;
      if y !in marked && pc in trail {
        AddIsBacktrack(P, s, pos, marked, trail, y, caps, eager, before);
      } else {
        SuccessIgnoresCaptures(P, s, y, pos, caps, [], trail);
      }
    }
  }

  lemma AddStop(P: Program, s: seq<Byte>, pos: nat, marked: set<nat>, trail: set<nat>,
                pc: nat, caps: Captures, eager: bool, before: seq<Thread>)
    requires pos <= |s| && Exhausted(P, s, pos, marked, trail, before)
    requires pc < |P| && pc !in marked && IsStop(P[pc])
    ensures AddsBacktrack(P, s, pos, marked, trail, pc, caps, eager, before)
  {
    assert before + [] == before;
    var t := Thread(pc, caps);
    BestConcat(P, s, pos, before, [t]);
    assert Best(P, s, pos, [t]) == Backtrack(P, s, pc, pos, caps, trail);
    SuccessIgnoresCaptures(P, s, pc, pos, caps, [], trail);
    TrailPush(P, s, pos, marked, trail, pc, before);
    if !(eager && P[pc].Match?) {
      assert Exhausted(P, s, pos, marked + {pc}, trail + {pc}, before + [t]);
      TrailPop(P, s, pos, marked + {pc}, trail, pc, before + [t]);
    }
  }

  lemma AddSplit(P: Program, s: seq<Byte>, pos: nat, marked: set<nat>, trail: set<nat>,
                 pc: nat, caps: Captures, eager: bool, before: seq<Thread>)
    requires pos <= |s| && Exhausted(P, s, pos, marked, trail, before)
    requires pc < |P| && pc !in marked && P[pc].Split?
    ensures AddsBacktrack(P, s, pos, marked, trail, pc, caps, eager, before)
    decreases Addresses(P) - marked, pc in marked, 0
  {
    var m, x, y := marked + {pc}, P[pc].x, P[pc].y;
    assert pc in Addresses(P) - marked && pc !in Addresses(P) - m;
    TrailPush(P, s, pos, marked, trail, pc, before);
    AddIsBacktrack(P, s, pos, m, trail + {pc}, x, caps, eager, before);
    var r := Add(P, s, pos, m, x, caps, eager);
    if r.done == None {
      assert pc in r.marked && marked <= r.marked;
      AddIsBacktrack(P, s, pos, r.marked, trail + {pc}, y, caps, eager, before + r.threads);
    }
    SplitJoin(P, s, pos, marked, trail, pc, caps, eager, before);
  }

  /** The two branches of a split, one after the other. */
  lemma SplitJoin(P: Program, s: seq<Byte>, pos: nat, marked: set<nat>, trail: set<nat>,
                  pc: nat, caps: Captures, eager: bool, before: seq<Thread>)
    requires pos <= |s| && trail <= marked && pc < |P| && pc !in marked && P[pc].Split?
    requires AddsBacktrack(P, s, pos, marked + {pc}, trail + {pc}, P[pc].x, caps, eager, before)
    requires var r := Add(P, s, pos, marked + {pc}, P[pc].x, caps, eager);
             r.done == None ==>
               AddsBacktrack(P, s, pos, r.marked, trail + {pc}, P[pc].y, caps, eager, before + r.threads)
    ensures AddsBacktrack(P, s, pos, marked, trail, pc, caps, eager, before)
  {
    hide Exhausted, Best, Add, Backtrack;
    SplitUnfolded(P, s, pos, marked, trail, pc, caps, eager);
    SuccessIgnoresCaptures(P, s, pc, pos, caps, [], trail);
    var r := Add(P, s, pos, marked + {pc}, P[pc].x, caps, eager);
    var q := Add(P, s, pos, r.marked, P[pc].y, caps, eager);
    if r.done == None {
      assert before + r.threads + q.threads == before + (r.threads + q.threads);
      if q.done == None {
        TrailPop(P, s, pos, q.marked, trail, pc, before + (r.threads + q.threads));
      }
    }
  }

  lemma SplitUnfolded(P: Program, s: seq<Byte>, pos: nat, marked: set<nat>, trail: set<nat>,
                      pc: nat, caps: Captures, eager: bool)
    requires pos <= |s| && trail <= marked && pc < |P| && pc !in marked && P[pc].Split?
    ensures var r := Add(P, s, pos, marked + {pc}, P[pc].x, caps, eager);
            var q := Add(P, s, pos, r.marked, P[pc].y, caps, eager);
            Add(P, s, pos, marked, pc, caps, eager)
            == if r.done.Some? then r else Closure(q.marked, r.threads + q.threads, q.done)
    ensures Backtrack(P, s, pc, pos, caps, trail)
            == OrElse(Backtrack(P, s, P[pc].x, pos, caps, trail + {pc}), Backtrack(P, s, P[pc].y, pos, caps, trail + {pc}))
  {}

  lemma {:induction false} StepIsBest(P: Program, s: seq<Byte>, pos: nat, from: seq<Thread>, marked: set<nat>, built: seq<Thread>)
    requires pos < |s| && AllStops(P, from) && Exhausted(P, s, pos + 1, marked, {}, built)
    ensures var step := StepThreads(P, s, pos, from, marked);
            && OrElse(Best(P, s, pos + 1, built + step.next), step.hit)
               == OrElse(Best(P, s, pos + 1, built), Best(P, s, pos, from))
            && AllStops(P, step.next)
    decreases from
  {
    hide Exhausted;
    assert built + [] == built;
    if from != [] {
      var t := from[0];
      var a := OneThread(P, s, pos, t, marked);
      if !P[t.pc].Match? && Eats(P[t.pc], s[pos]) {
        AddIsBacktrack(P, s, pos + 1, marked, {}, t.pc + 1, t.caps, true, built);
      }
      if a.done == None {
        StepIsBest(P, s, pos, from[1..], a.marked, built + a.threads);
        var rest := StepThreads(P, s, pos, from[1..], a.marked).next;
        assert built + a.threads + rest == built + (a.threads + rest);
      }
    }
  }

  lemma {:induction false} LastStepIsBest(P: Program, s: seq<Byte>, from: seq<Thread>, marked: set<nat>)
    requires AllStops(P, from)
    ensures StepThreads(P, s, |s|, from, marked) == StepResult([], Best(P, s, |s|, from), marked)
    decreases from
  {
    if from != [] {
      LastStepIsBest(P, s, from[1..], marked);
    }
  }

  lemma {:induction false} RunFromIsBest(P: Program, s: seq<Byte>, pos: nat, from: seq<Thread>, matched: Option<Hit>)
    requires pos <= |s| && AllStops(P, from)
    ensures RunFrom(P, s, pos, from, matched) == OrElse(Best(P, s, pos, from), matched)
    decreases |s| - pos
  {
    if from != [] {
      if pos == |s| {
        LastStepIsBest(P, s, from, {});
      } else {
        StepIsBest(P, s, pos, from, {}, []);
        var step := StepThreads(P, s, pos, from, {});
        assert [] + step.next == step.next;
        RunFromIsBest(P, s, pos + 1, step.next, OrElse(step.hit, matched));
      }
    }
  }

  /** A run of the Pike machine ends with the hit of the backtracker, whatever the program. */
  lemma RunIsBacktrack(P: Program, s: seq<Byte>, slots: nat)
    ensures Run(P, s, slots) == Backtrack(P, s, 0, 0, Unset(slots), {})
  {
    AddIsBacktrack(P, s, 0, {}, {}, 0, Unset(slots), false, []);
    var first := StartThreads(P, s, slots, 0);
    assert [] + first == first;
    RunFromIsBest(P, s, 0, first, None);
  }

  // ---------- the backtracker and the paths of the program ----------

  lemma {:induction false} HitIsPath(P: Program, s: seq<Byte>, pc: nat, pos: nat, caps: Captures, seen: set<nat>)
    returns (d: Conf)
    requires pos <= |s| && Backtrack(P, s, pc, pos, caps, seen).Some?
    ensures d.pc < |P| && P[d.pc] == Match(Backtrack(P, s, pc, pos, caps, seen).value.regexId)
    ensures Runs(P, s, 0, |P|, Conf(pc, pos), d)
    decreases |s| - pos, Addresses(P) - seen, pc in seen
  {
    var c := Conf(pc, pos);
    var e := c;
    if pc in seen {
      e := Conf(P[pc].y, pos);
      d := HitIsPath(P, s, P[pc].y, pos, caps, seen);
    } else {
      var seen' := seen + {pc};
      assert pc in Addresses(P) - seen && pc !in Addresses(P) - seen';
      if P[pc].Match? {
        assert Path(P, s, 0, |P|, 0, c, c);
        d := c;
      } else if P[pc].Split? {
        e := Conf(if Backtrack(P, s, P[pc].x, pos, caps, seen').Some? then P[pc].x else P[pc].y, pos);
        d := HitIsPath(P, s, e.pc, pos, caps, seen');
      } else if IsStop(P[pc]) {
        e := Conf(pc + 1, pos + 1);
        d := HitIsPath(P, s, pc + 1, pos + 1, caps, {});
      } else {
        e := Conf(if P[pc].Jmp? then P[pc].x else pc + 1, pos);
        d := HitIsPath(P, s, e.pc, pos, if P[pc].Save? then Put(caps, P[pc].group, pos) else caps, seen');
      }
    }
    if e != c {
      RunsStep(P, s, 0, |P|, c, e);
      RunsTrans(P, s, 0, |P|, c, e, d);
    }
  }

  lemma {:induction false} PathCanMatch(P: Program, s: seq<Byte>, n: nat, c: Conf, d: Conf)
    requires c.pos <= |s| && Path(P, s, 0, |P|, n, c, d) && d.pc < |P| && P[d.pc].Match?
    ensures CanMatch(P, s, c.pc, c.pos, {})
    decreases n
  {
    hide CanMatch;
    if n == 0 {
      CanMatchStep(P, s, c.pc, c.pos, {});
    } else {
      var e :| Step(P, s, c, e) && Path(P, s, 0, |P|, n - 1, e, d);
      PathCanMatch(P, s, n - 1, e, d);
      CanMatchStep(P, s, c.pc, c.pos, {});
      if e.pos == c.pos {
        AvoidOrReach(P, s, e.pc, e.pos, {}, c.pc);
        assert {} + {c.pc} == {c.pc};
      }
    }
  }

  /** A run finds a hit exactly when some path of the program ends on MATCH. */
  lemma RunFindsMatches(P: Program, s: seq<Byte>, slots: nat)
    ensures Run(P, s, slots).Some? <==> Accepts(P, s)
  {
    RunIsBacktrack(P, s, slots);
    SuccessIgnoresCaptures(P, s, 0, 0, Unset(slots), [], {});
    if Run(P, s, slots).Some? {
      var d := HitIsPath(P, s, 0, 0, Unset(slots), {});
      assert At(P, s, d.pc, d.pos);
    }
    if Accepts(P, s) {
      var pc: nat, pos: nat :| pc < |P| && P[pc].Match? && At(P, s, pc, pos);
      var n: nat :| Path(P, s, 0, |P|, n, Conf(0, 0), Conf(pc, pos));
      PathCanMatch(P, s, n, Conf(0, 0), Conf(pc, pos));
    }
  }
}
