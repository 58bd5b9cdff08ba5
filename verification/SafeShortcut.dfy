/** When the first-byte shortcut cannot take a wrong turn, whatever the input is: if no match is one
    byte long, or if no instruction a match can start with comes again behind a byte of the pattern. */
module SafeShortcut {
  import opened Options
  import opened Regexes
  import opened Bytecode
  import opened Compiler
  import opened Patterns
  import opened Backtracking
  import opened PikeSpec
  import opened LeadingBytes
  import opened Skipping
  import opened GroupSlots
  import Loops

  // ---------- the length of matches ----------

  /** No match of the regex is shorter. */
  function Shortest(r: Regex): nat {
    match r
    case Alt(l, r') => if Shortest(l) <= Shortest(r') then Shortest(l) else Shortest(r')
    case Cat(l, r') => Shortest(l) + Shortest(r')
    case Lit(_) => 1
    case Dot => 1
    case Class(_) => 1
    case NClass(_) => 1
    case Paren(_, b) => Shortest(b)
    case Plus(_, b) => Shortest(b)
    case Toplevel(_, b) => Shortest(b)
    case _ => 0
  }

  lemma {:induction false} MatchIsAsLong(r: Regex, s: seq<Byte>, i: nat, j: nat)
    requires i <= |s| && Matches(r, s, i, j)
    ensures j - i >= Shortest(r)
    decreases r
  {
    match r
    case Alt(l, r') => if Matches(l, s, i, j) { MatchIsAsLong(l, s, i, j); } else { MatchIsAsLong(r', s, i, j); }
    case Cat(l, r') =>
      var k: nat :| i <= k <= |s| && Matches(l, s, i, k) && Matches(r', s, k, j);
      MatchIsAsLong(l, s, i, k);
      MatchIsAsLong(r', s, k, j);
    case Paren(_, b) => MatchIsAsLong(b, s, i, j);
    case Toplevel(_, b) => MatchIsAsLong(b, s, i, j);
    case Plus(_, b) =>
      var n := PlusReps(r, s, i, j);
      Loops.FirstRep(b, n, s, i, j);
      var k: nat :| i <= k <= j && Matches(b, s, i, k);
      MatchIsAsLong(b, s, i, k);
    case _ =>
  }

  ghost predicate OneByteMatch(trees: seq<Regex>, s: seq<Byte>) {
    exists k: nat, i: nat :: MatchesByte(trees, s, k, i)
  }

  ghost predicate MatchesByte(trees: seq<Regex>, s: seq<Byte>, k: nat, i: nat) {
    k < |trees| && i < |s| && Matches(trees[k], s, i, i + 1)
  }

  lemma LongEnough(trees: seq<Regex>, s: seq<Byte>)
    requires forall t <- trees :: Shortest(t) >= 2
    ensures !OneByteMatch(trees, s)
  {
    forall k: nat, i: nat ensures !MatchesByte(trees, s, k, i) {
      if MatchesByte(trees, s, k, i) {
        MatchIsAsLong(trees[k], s, i, i + 1);
      }
    }
  }

  // ---------- what a closure reaches ----------

  /** `b` is reached from `a` without eating. */
  ghost predicate Silent(P: Program, a: nat, b: nat) { exists n: nat :: SilentIn(P, a, b, n) }

  ghost predicate SilentIn(P: Program, a: nat, b: nat, n: nat)
    decreases n
  {
    if n == 0 then a == b else a < |P| && !IsStop(P[a]) && exists c: nat :: Flows(P, a, c) && SilentIn(P, c, b, n - 1)
  }

  lemma SilentHere(P: Program, a: nat)
    ensures Silent(P, a, a)
  {
    assert SilentIn(P, a, a, 0);
  }

  lemma SilentStep(P: Program, a: nat, c: nat, b: nat)
    requires a < |P| && !IsStop(P[a]) && Flows(P, a, c) && Silent(P, c, b)
    ensures Silent(P, a, b)
  {
    var n: nat :| SilentIn(P, c, b, n);
    assert SilentIn(P, a, b, n + 1);
  }

  /** Every thread of a closure is reached silently, by a path that leaves its captures, and so is the
      MATCH that ends it. */
  lemma {:induction false} AddReaches(P: Program, s: seq<Byte>, pos: nat, marked: set<nat>, pc: nat, c: Captures, eager: bool)
    requires pos <= |s|
    ensures var r := Add(P, s, pos, marked, pc, c, eager);
      (forall t <- r.threads :: Silent(P, pc, t.pc) && CapRuns(P, s, Conf(pc, pos), c, Conf(t.pc, pos), t.caps))
      && (r.done.Some? ==> Arrives(P, s, Conf(pc, pos), c, r.done.value, pos))
    decreases Addresses(P) - marked, pc in marked
  {
    hide Silent, CapRuns, Arrives;
    if pc < |P| {
      var m := marked + {pc};
      if pc in marked {
        if P[pc].Split? && P[pc].y !in marked {
          AddReaches(P, s, pos, marked, P[pc].y, c, eager);
          FromNext(P, s, pos, pc, P[pc].y, c);
        }
      } else {
        assert pc in Addresses(P) - marked && pc !in Addresses(P) - m;
        if P[pc].Split? {
          AddReaches(P, s, pos, m, P[pc].x, c, eager);
          AddReaches(P, s, pos, Add(P, s, pos, m, P[pc].x, c, eager).marked, P[pc].y, c, eager);
          FromNext(P, s, pos, pc, P[pc].x, c);
          FromNext(P, s, pos, pc, P[pc].y, c);
        } else if IsStop(P[pc]) {
          SilentHere(P, pc);
          CapRunsHere(P, s, Conf(pc, pos), c);
          ArrivesHere(P, s, pc, pos, c);
        } else if !(P[pc].Check? && !Holds(P[pc].assertion, s, pos)) {
          var q := if P[pc].Jmp? then P[pc].x else pc + 1;
          AddReaches(P, s, pos, m, q, if P[pc].Save? then Put(c, P[pc].group, pos) else c, eager);
          FromNext(P, s, pos, pc, q, c);
        }
      }
    }
  }

  /** A path leads to the MATCH of the hit and leaves its captures. */
  ghost predicate Arrives(P: Program, s: seq<Byte>, c: Conf, a: Captures, h: Hit, end: nat) {
    exists m: nat :: m < |P| && P[m] == Match(h.regexId) && CapRuns(P, s, c, a, Conf(m, end), h.caps)
  }

  lemma ArrivesHere(P: Program, s: seq<Byte>, pc: nat, pos: nat, c: Captures)
    requires pc < |P|
    ensures P[pc].Match? ==> Arrives(P, s, Conf(pc, pos), c, Hit(c, P[pc].regexId), pos)
  {
    CapRunsHere(P, s, Conf(pc, pos), c);
  }

  lemma ArrivesAfter(P: Program, s: seq<Byte>, c: Conf, a: Captures, d: Conf, b: Captures, h: Hit, end: nat)
    requires CapRuns(P, s, c, a, d, b) && Arrives(P, s, d, b, h, end)
    ensures Arrives(P, s, c, a, h, end)
  {
    hide CapRuns;
    var m: nat :| m < |P| && P[m] == Match(h.regexId) && CapRuns(P, s, d, b, Conf(m, end), h.caps);
    CapRunsTrans(P, s, c, a, d, b, Conf(m, end), h.caps);
  }

  lemma FromNext(P: Program, s: seq<Byte>, pos: nat, pc: nat, q: nat, c: Captures)
    requires pos <= |s| && pc < |P| && EpsStep(P, s, pos, pc, q)
    ensures forall b: nat :: Silent(P, q, b) ==> Silent(P, pc, b)
    ensures forall b: nat, x | CapRuns(P, s, Conf(q, pos), Saved(P, Conf(pc, pos), c), Conf(b, pos), x) ::
              CapRuns(P, s, Conf(pc, pos), c, Conf(b, pos), x)
    ensures forall h :: Arrives(P, s, Conf(q, pos), Saved(P, Conf(pc, pos), c), h, pos) ==> Arrives(P, s, Conf(pc, pos), c, h, pos)
  {
    hide Silent, CapRuns;
    forall b: nat | Silent(P, q, b) ensures Silent(P, pc, b) {
      SilentStep(P, pc, q, b);
    }
    forall b: nat, x | CapRuns(P, s, Conf(q, pos), Saved(P, Conf(pc, pos), c), Conf(b, pos), x)
      ensures CapRuns(P, s, Conf(pc, pos), c, Conf(b, pos), x)
    {
      CapRunsStep(P, s, Conf(pc, pos), c, Conf(q, pos), Conf(b, pos), x);
    }
  }

  // ---------- a hit right behind a jump ----------

  /** The front of a starting list is reached from the pattern's first instruction. */
  lemma StartFrom(P: Program, s: seq<Byte>, slots: nat, pos: nat, k: nat)
    requires SkipsFirst(P) && pos <= |s| && k + 1 < |StartThreads(P, s, slots, pos)|
    ensures var t := StartThreads(P, s, slots, pos)[k];
      t.pc >= 3 && Silent(P, 3, t.pc) && Runs(P, s, 0, |P|, Conf(3, pos), Conf(t.pc, pos))
  {
    hide Silent, Runs, CapRuns;
    var c := Unset(slots);
    AddFromStart(P, s, pos, {}, c, false);
    AddReaches(P, s, pos, {} + {0}, 3, c, false);
    var x := Add(P, s, pos, {} + {0}, 3, c, false);
    var t := x.threads[k];
    assert StartThreads(P, s, slots, pos)[k] == t && t in x.threads;
    CapRunsAreRuns(P, s, Conf(3, pos), c, Conf(t.pc, pos), t.caps);
  }

  /** A hit of one thread ends a path that eats the byte. */
  lemma ThreadReaches(P: Program, s: seq<Byte>, pos: nat, t: Thread, marked: set<nat>)
    requires pos < |s| && t.pc < |P| && IsStop(P[t.pc]) && !P[t.pc].Match?
    ensures var a := OneThread(P, s, pos, t, marked);
      (forall u <- a.threads :: Silent(P, t.pc + 1, u.pc))
      && (a.done.Some? ==> exists m: nat :: m < |P| && P[m].Match? && Runs(P, s, 0, |P|, Conf(t.pc, pos), Conf(m, pos + 1)))
  {
    hide Silent, Runs, Add, CapRuns;
    if Eats(P[t.pc], s[pos]) {
      AddReaches(P, s, pos + 1, marked, t.pc + 1, t.caps, true);
      var a := OneThread(P, s, pos, t, marked);
      if a.done.Some? {
        var h := a.done.value;
        var m: nat :| m < |P| && P[m] == Match(h.regexId) && CapRuns(P, s, Conf(t.pc + 1, pos + 1), t.caps, Conf(m, pos + 1), h.caps);
        CapRunsAreRuns(P, s, Conf(t.pc + 1, pos + 1), t.caps, Conf(m, pos + 1), h.caps);
        RunsStep(P, s, 0, |P|, Conf(t.pc, pos), Conf(t.pc + 1, pos + 1));
        RunsTrans(P, s, 0, |P|, Conf(t.pc, pos), Conf(t.pc + 1, pos + 1), Conf(m, pos + 1));
      }
    }
  }

  ghost predicate Matched(P: Program, s: seq<Byte>, i: nat, j: nat) {
    exists m: nat :: m < |P| && P[m].Match? && Runs(P, s, 0, |P|, Conf(3, i), Conf(m, j))
  }

  lemma MatchedMeans(P: Program, trees: seq<Regex>, caps: seq<nat>, s: seq<Byte>, i: nat)
    requires IsCompiled(P, trees, caps) && i < |s| && Matched(P, s, i, i + 1)
    ensures OneByteMatch(trees, s)
  {
    hide CodeAt;
    var m: nat :| m < |P| && P[m].Match? && Runs(P, s, 0, |P|, Conf(3, i), Conf(m, i + 1));
    var n: nat :| Path(P, s, 0, |P|, n, Conf(3, i), Conf(m, i + 1));
    PrefixCode(P, trees, caps);
    var k := AlternativesSound(P, trees, caps, |trees|, s, n, Conf(3, i), Conf(m, i + 1));
    assert MatchesByte(trees, s, k, i);
  }

  /** Where a thread of a list comes from. */
  ghost predicate FromThree(P: Program, s: seq<Byte>, pos: nat, t: Thread) {
    t.pc < |P| && IsStop(P[t.pc]) && !P[t.pc].Match? && t.pc >= 3 && Runs(P, s, 0, |P|, Conf(3, pos), Conf(t.pc, pos))
  }

  /** The pc is reached silently behind an instruction that eats. */
  ghost predicate BehindByte(P: Program, pc: nat) {
    exists q: nat :: 3 <= q < |P| && IsStop(P[q]) && Silent(P, q + 1, pc)
  }

  ghost predicate AllBehindByte(P: Program, l: seq<Thread>) { forall t <- l :: BehindByte(P, t.pc) }

  /** One step of a list whose front starts at `pos`: a hit is a match of one byte, and the threads left
      then are behind a byte of the pattern. */
  lemma {:induction false} HitIsOneByte(P: Program, s: seq<Byte>, slots: nat, leading: seq<nat>, covered: set<nat>, pos: nat, from: seq<Thread>, marked: set<nat>)
    requires SkipsFirst(P) && Covers(P, leading, covered) && pos < |s|
    requires from != [] && from[|from| - 1] == Thread(1, Unset(slots)) && NewBehind({}, marked)
    requires forall k: nat | k + 1 < |from| :: FromThree(P, s, pos, from[k])
    ensures var step := StepThreads(P, s, pos, from, marked);
      step.hit.Some? ==> Matched(P, s, pos, pos + 1) && AllBehindByte(P, step.next) && NewBehind({}, step.marked)
    decreases |from|
  {
    hide Add, Silent, Runs, Covers;
    if |from| == 1 {
      assert P[1] == Any;
      AddFromTwo(P, s, pos + 1, marked, Unset(slots));
      AddCovered(P, s, leading, covered, pos + 1, marked, 0, Unset(slots), true) by { CoversZero(P, leading, covered); }
      StepNone(P, s, pos, OneThread(P, s, pos, from[0], marked).marked);
    } else {
      var t := from[0];
      assert FromThree(P, s, pos, t);
      ThreadReaches(P, s, pos, t, marked);
      OneBehind(P, s, pos, t, marked);
      var a := OneThread(P, s, pos, t, marked);
      forall u <- a.threads ensures BehindByte(P, u.pc) {
      }
      if a.done.Some? {
        var m: nat :| m < |P| && P[m].Match? && Runs(P, s, 0, |P|, Conf(t.pc, pos), Conf(m, pos + 1));
        RunsTrans(P, s, 0, |P|, Conf(3, pos), Conf(t.pc, pos), Conf(m, pos + 1));
      } else {
        forall k: nat | k + 1 < |from[1..]| ensures FromThree(P, s, pos, from[1..][k]) {
          assert FromThree(P, s, pos, from[k + 1]);
        }
        HitIsOneByte(P, s, slots, leading, covered, pos, from[1..], a.marked);
      }
    }
  }

  lemma CoversZero(P: Program, leading: seq<nat>, covered: set<nat>)
    requires Covers(P, leading, covered)
    ensures 0 in covered
  {
  }

  // ---------- the list a run starts with ----------

  /** No stops, and closed under silent steps. */
  ghost predicate Flowing(P: Program, M: set<nat>) {
    forall p: nat :: p in M && p < |P| ==> !IsStop(P[p]) && FlowsInto(P, p, M)
  }

  ghost predicate FlowsInto(P: Program, p: nat, M: set<nat>)
    requires p < |P|
  {
    forall q: nat :: Flows(P, p, q) && q < |P| ==> q in M
  }

  lemma Flow(P: Program, p: nat, q: nat, M: set<nat>)
    requires Flowing(P, M) && p in M && p < |P| && Flows(P, p, q) && q < |P|
    ensures q in M
  {
  }

  /** Following code silently one comes to a stop or to its end. */
  lemma {:induction false} FlowsOn(P: Program, r: Regex, lo: nat, M: set<nat>)
    requires CodeAt(P, r, lo) && Plain(r) && lo + ProgramLen(r) < |P| && lo in M && Flowing(P, M)
    ensures lo + ProgramLen(r) in M
    decreases r
  {
    hide Flowing, IsStop, CodeAt, Flows;
    var hi := lo + ProgramLen(r);
    CodeOfParts(P, r, lo);
    Ways(P, r, lo);
    match r
    case Nil =>
    case Alt(l, _) =>
      Flow(P, lo, lo + 1, M);
      FlowsOn(P, l, lo + 1, M);
      Flow(P, lo + 1 + ProgramLen(l), hi, M);
    case Cat(l, r') =>
      FlowsOn(P, l, lo, M);
      FlowsOn(P, r', lo + ProgramLen(l), M);
    case Paren(_, b) =>
      Flow(P, lo, lo + 1, M);
      FlowsOn(P, b, lo + 1, M);
      Flow(P, hi - 1, hi, M);
    case Quest(_, _) => Flow(P, lo, hi, M);
    case Star(_, _) => Flow(P, lo, hi, M);
    case Plus(_, b) =>
      FlowsOn(P, b, lo, M);
      Flow(P, hi - 1, hi, M);
    case Assert(_) => Flow(P, lo, lo + 1, M);
    case Toplevel(_, _) =>
    case _ => NoEating(P, lo, M);
  }

  /** The ways from the start of the code of `r`, and to its end. */
  lemma Ways(P: Program, r: Regex, lo: nat)
    requires CodeAt(P, r, lo) && Plain(r)
    ensures var hi := lo + ProgramLen(r);
      (r.Alt? ==> Flows(P, lo, lo + 1) && Flows(P, lo + 1 + ProgramLen(r.left), hi))
      && (r.Paren? ==> Flows(P, lo, lo + 1) && Flows(P, hi - 1, hi))
      && (r.Quest? || r.Star? ==> Flows(P, lo, hi))
      && (r.Plus? ==> Flows(P, hi - 1, hi))
      && (r.Assert? ==> Flows(P, lo, lo + 1))
      && (r.Lit? || r.Dot? || r.Class? || r.NClass? ==> P[lo].Char? || P[lo].Any? || P[lo].In? || P[lo].NotIn?)
  {
  }

  lemma NoEating(P: Program, p: nat, M: set<nat>)
    requires Flowing(P, M) && p in M && p < |P|
    ensures !P[p].Char? && !P[p].Any? && !P[p].In? && !P[p].NotIn?
  {
  }

  /** So a set that flows cannot hold the start of the alternatives: it would hold a MATCH. */
  lemma {:induction false} NotFromStart(P: Program, trees: seq<Regex>, caps: seq<nat>, t: nat, lo: nat, M: set<nat>)
    requires 0 < t <= |trees| == |caps| && (forall r <- trees :: Plain(r))
    requires CodeAt(P, Alternatives(trees, caps, t), lo) && Flowing(P, M)
    ensures lo !in M
    decreases t
  {
    hide Flowing;
    if lo in M {
      AlternativesCode(P, trees, caps, t, lo);
      if t == 1 {
        var body := Paren(Base(caps, 0), trees[0]);
        FlowsOn(P, body, lo, M);
        IsNoStop(P, lo + ProgramLen(body), M);
      } else {
        Flow(P, lo, lo + 1, M);
        NotFromStart(P, trees, caps, t - 1, lo + 1, M);
      }
    }
  }

  lemma IsNoStop(P: Program, p: nat, M: set<nat>)
    requires Flowing(P, M) && p in M && p < |P|
    ensures !IsStop(P[p])
  {
  }

  /** What is in M and not in `marked` flows on in M. */
  ghost predicate NewFlows(P: Program, marked: set<nat>, M: set<nat>) {
    forall p: nat :: p in M && p !in marked && p < |P| ==> !IsStop(P[p]) && FlowsInto(P, p, M)
  }

  lemma NewFlowsJoin(P: Program, a: set<nat>, b: set<nat>, c: set<nat>)
    requires NewFlows(P, a, b) && NewFlows(P, b, c) && b <= c
    ensures NewFlows(P, a, c)
  {
    hide IsStop, Flows;
  }

  lemma OneFlows(P: Program, marked: set<nat>, pc: nat, M: set<nat>)
    requires pc < |P| && !IsStop(P[pc]) && FlowsInto(P, pc, M) && NewFlows(P, marked + {pc}, M)
    ensures NewFlows(P, marked, M)
  {
    hide IsStop, Flows;
  }

  /** What a closure marks at the start of the input, where all assertions hold, flows on, up to its
      threads. */
  lemma {:induction false} AddFlows(P: Program, s: seq<Byte>, marked: set<nat>, pc: nat, c: Captures)
    ensures var r := Add(P, s, 0, marked, pc, c, false); r.threads == [] ==> NewFlows(P, marked, r.marked)
    decreases Addresses(P) - marked, pc in marked
  {
    hide NewFlows;
    NothingFlows(P, marked);
    if pc < |P| {
      var m := marked + {pc};
      var r := Add(P, s, 0, marked, pc, c, false);
      if pc in marked {
        if P[pc].Split? && P[pc].y !in marked {
          AddFlows(P, s, marked, P[pc].y, c);
        }
      } else {
        assert pc in Addresses(P) - marked && pc !in Addresses(P) - m;
        if P[pc].Split? {
          var x := Add(P, s, 0, m, P[pc].x, c, false);
          AddFlows(P, s, m, P[pc].x, c);
          AddFlows(P, s, x.marked, P[pc].y, c);
          if r.threads == [] {
            NewFlowsJoin(P, m, x.marked, r.marked);
            OneFlows(P, marked, pc, r.marked);
          }
        } else if !IsStop(P[pc]) {
          var q := if P[pc].Jmp? then P[pc].x else pc + 1;
          AddFlows(P, s, m, q, if P[pc].Save? then Put(c, P[pc].group, 0) else c);
          if r.threads == [] {
            OneFlows(P, marked, pc, r.marked);
          }
        }
      }
    }
  }

  lemma NothingFlows(P: Program, marked: set<nat>)
    ensures NewFlows(P, marked, marked)
  {
  }

  /** The list a run starts with holds more than the skipping loop. */
  lemma StartsWithMore(P: Program, trees: seq<Regex>, caps: seq<nat>, s: seq<Byte>, slots: nat)
    requires IsCompiled(P, trees, caps)
    ensures |StartThreads(P, s, slots, 0)| >= 2
  {
    hide CodeAt, Alternatives, IsStop, Add;
    var c := Unset(slots);
    PatternSkipsFirst(P, trees, caps);
    AddFromStart(P, s, 0, {}, c, false);
    var r := Add(P, s, 0, {} + {0}, 3, c, false);
    AddFlows(P, s, {} + {0}, 3, c);
    if r.threads == [] {
      PrefixCode(P, trees, caps);
      var M := r.marked - {0};
      forall p: nat | p in M && p < |P| ensures !IsStop(P[p]) && FlowsInto(P, p, M) {
        assert p !in {} + {0} && p >= 3;
      }
      NotFromStart(P, trees, caps, |trees|, 3, M);
    }
  }

  // ---------- no wrong turn ----------

  /** An instruction a match can start with comes again behind a byte of the pattern. */
  ghost predicate ComesAgain(P: Program) {
    exists f: nat :: f < |P| && IsStop(P[f]) && Silent(P, 3, f) && BehindByte(P, f)
  }

  /** A list all behind a byte does not look fresh, unless a first instruction comes again. */
  lemma NotFresh(P: Program, trees: seq<Regex>, caps: seq<nat>, s: seq<Byte>, slots: nat, initial: seq<nat>, from: seq<Thread>)
    requires IsCompiled(P, trees, caps) && Initially(P, s, slots, initial)
    requires AllBehindByte(P, from) && LooksFresh(initial, from)
    ensures ComesAgain(P)
  {
    hide Silent, BehindByte, Add, IsCompiled;
    StartsWithMore(P, trees, caps, s, slots);
    PatternSkipsFirst(P, trees, caps);
    StartFrom(P, s, slots, 0, 0);
    StartStops(P, s, slots, 0);
    var first := StartThreads(P, s, slots, 0);
    assert first[0] in first && from[0] in from && from[0].pc == initial[0] == first[0].pc;
  }

  /** The hit of a step leaves the mark of the start alone. */
  lemma {:induction false} HitMarksBehind(P: Program, s: seq<Byte>, slots: nat, leading: seq<nat>, covered: set<nat>, pos: nat, from: seq<Thread>, marked: set<nat>)
    requires SkipsFirst(P) && Covers(P, leading, covered) && pos < |s| && NewBehind({}, marked) && ListForm(from)
    requires from != [] && !Behind(from) ==> from[|from| - 1] == Thread(1, Unset(slots))
    ensures var step := StepThreads(P, s, pos, from, marked);
      (step.hit.Some? || Behind(from)) ==> NewBehind({}, step.marked)
    decreases |from|
  {
    hide Add, Covers;
    if from != [] {
      if from[0].pc >= 3 {
        OneBehind(P, s, pos, from[0], marked);
        var a := OneThread(P, s, pos, from[0], marked);
        HitMarksBehind(P, s, slots, leading, covered, pos, from[1..], a.marked);
      } else {
        assert |from| == 1 && P[1] == Any;
        AddFromTwo(P, s, pos + 1, marked, Unset(slots));
        AddCovered(P, s, leading, covered, pos + 1, marked, 0, Unset(slots), true) by { CoversZero(P, leading, covered); }
        StepNone(P, s, pos, OneThread(P, s, pos, from[0], marked).marked);
      }
    }
  }

  /** Once a match stands, the flag is down, or the list is behind a byte that was a match by itself. */
  ghost predicate Calm(P: Program, trees: seq<Regex>, s: seq<Byte>, from: seq<Thread>, seen: bool, matched: Option<Hit>) {
    matched.Some? && seen ==> AllBehindByte(P, from) && OneByteMatch(trees, s)
  }

  /** A round that jumps. */
  lemma CalmAfterJump(P: Program, trees: seq<Regex>, caps: seq<nat>, s: seq<Byte>, leading: seq<nat>, covered: set<nat>, p: nat, seen: bool)
    requires Setting(P, trees, caps) && Covers(P, leading, covered) && p < |s|
    ensures var step := StepThreads(P, s, p, StartThreads(P, s, 2 * Base(caps, |caps|), p), {});
      Calm(P, trees, s, step.next, seen, step.hit)
  {
    hide Covers, IsCompiled, OneByteMatch, AllBehindByte, StepThreads, Matched, FromThree, Numbered;
    var slots := 2 * Base(caps, |caps|);
    var from := StartThreads(P, s, slots, p);
    PatternSkips(P, trees, caps);
    StartSearches(P, s, slots, p);
    forall k: nat | k + 1 < |from| ensures FromThree(P, s, p, from[k]) {
      FromThreeAt(P, s, slots, leading, covered, p, k);
    }
    HitIsOneByte(P, s, slots, leading, covered, p, from, {});
    if StepThreads(P, s, p, from, {}).hit.Some? {
      MatchedMeans(P, trees, caps, s, p);
    }
  }

  lemma FromThreeAt(P: Program, s: seq<Byte>, slots: nat, leading: seq<nat>, covered: set<nat>, pos: nat, k: nat)
    requires SkipsFirst(P) && Covers(P, leading, covered) && pos <= |s| && k + 1 < |StartThreads(P, s, slots, pos)|
    ensures FromThree(P, s, pos, StartThreads(P, s, slots, pos)[k])
  {
    hide Add, Runs, Silent;
    var l := StartThreads(P, s, slots, pos);
    StartFrom(P, s, slots, pos, k);
    StartStops(P, s, slots, pos);
    StartCovered(P, s, slots, leading, covered, pos);
    assert l[k] in l && Settles(P, l[k].pc, covered, leading);
  }

  /** A round that does not. */
  lemma CalmAfterStep(P: Program, trees: seq<Regex>, caps: seq<nat>, s: seq<Byte>, leading: seq<nat>, covered: set<nat>,
                      pos: nat, from: seq<Thread>, matched: Option<Hit>)
    requires Setting(P, trees, caps) && Covers(P, leading, covered) && pos < |s| && OnCourse(P, trees, caps, pos, from, matched)
    ensures var step := StepThreads(P, s, pos, from, {});
      Calm(P, trees, s, step.next, SplitsAtStart(P) && 0 in step.marked, OrElse(step.hit, matched))
  {
    hide Covers, IsCompiled, OneByteMatch, AllBehindByte, StepThreads, Numbered, AllStops, AllStarted, Standing;
    PatternSkips(P, trees, caps);
    CourseForm(P, trees, caps, pos, from, matched);
    FormIsForm(2 * Base(caps, |caps|), from);
    HitMarksBehind(P, s, 2 * Base(caps, |caps|), leading, covered, pos, from, {});
  }

  lemma {:induction false} NeverAstray(P: Program, trees: seq<Regex>, caps: seq<nat>, s: seq<Byte>, leading: seq<nat>, covered: set<nat>, initial: seq<nat>,
                                       pos: nat, from: seq<Thread>, seen: bool, matched: Option<Hit>)
    requires Setting(P, trees, caps) && Covers(P, leading, covered) && leading != [] && pos <= |s|
    requires Initially(P, s, 2 * Base(caps, |caps|), initial) && OnCourse(P, trees, caps, pos, from, matched)
    requires Calm(P, trees, s, from, seen, matched) && !(OneByteMatch(trees, s) && ComesAgain(P))
    ensures !GoesAstray(P, s, 2 * Base(caps, |caps|), leading, initial, pos, from, seen, matched)
    decreases |s| - pos
  {
    hide *;
    var slots := 2 * Base(caps, |caps|);
    if from == [] {
      NoneLeft(P, s, slots, leading, initial, pos, seen, matched);
      return;
    }
    CourseForm(P, trees, caps, pos, from, matched);
    AstrayRound(P, s, slots, leading, initial, pos, from, seen, matched);
    var p, from', seen' := Round(P, trees, caps, s, leading, covered, initial, pos, from, seen, matched, 0);
    if p > pos && matched.Some? {
      NoJumpNow(P, trees, caps, s, slots, initial, from, seen, matched);
    } else if p < |s| {
      var step := StepThreads(P, s, p, from', {});
      if p > pos {
        NowSearching(P, trees, caps, p, from');
        CalmAfterJump(P, trees, caps, s, leading, covered, p, seen' || (SplitsAtStart(P) && 0 in step.marked));
        OneOf(step.hit, matched);
      } else {
        CalmAfterStep(P, trees, caps, s, leading, covered, p, from', matched);
      }
      CourseKept(P, trees, caps, s, p, from', matched);
      NeverAstray(P, trees, caps, s, leading, covered, initial, p + 1, step.next,
                  seen' || (SplitsAtStart(P) && 0 in step.marked), OrElse(step.hit, matched));
    }
  }

  lemma NoJumpNow(P: Program, trees: seq<Regex>, caps: seq<nat>, s: seq<Byte>, slots: nat, initial: seq<nat>,
                  from: seq<Thread>, seen: bool, matched: Option<Hit>)
    requires Setting(P, trees, caps) && Initially(P, s, slots, initial) && Calm(P, trees, s, from, seen, matched)
    requires !(OneByteMatch(trees, s) && ComesAgain(P))
    ensures !(matched.Some? && seen && LooksFresh(initial, from))
  {
    hide IsCompiled, Numbered, LooksFresh, AllBehindByte, OneByteMatch, ComesAgain, Initially;
    if matched.Some? && seen && LooksFresh(initial, from) {
      NotFresh(P, trees, caps, s, slots, initial, from);
    }
  }

  /** The run turns wrong only if some regex matches a single byte of the input and an instruction a
      match can start with comes again behind a byte of the pattern. */
  lemma WrongTurnNeeds(P: Program, trees: seq<Regex>, caps: seq<nat>, s: seq<Byte>, leading: seq<nat>, covered: set<nat>)
    requires Setting(P, trees, caps) && (leading != [] ==> Covers(P, leading, covered))
    requires TurnsWrong(P, s, 2 * Base(caps, |caps|), leading)
    ensures OneByteMatch(trees, s) && ComesAgain(P)
  {
    hide Setting, Covers, GoesAstray, StartThreads, Base, AllStops, Searching, AllStarted, InitialStates, SkipsFirst, OneByteMatch, ComesAgain;
    var slots := 2 * Base(caps, |caps|);
    var first := StartThreads(P, s, slots, 0);
    if leading == [] {
      NeverJumps(P, s, slots, InitialStates(first), 0, first, SplitsAtStart(P), None);
    } else if !(OneByteMatch(trees, s) && ComesAgain(P)) {
      PatternSkips(P, trees, caps);
      StartSearches(P, s, slots, 0);
      StartStops(P, s, slots, 0);
      StartStarted(P, trees, caps, s, 0, leading, covered, 0, 0);
      NowSearching(P, trees, caps, 0, first);
      NeverAstray(P, trees, caps, s, leading, covered, InitialStates(first), 0, first, SplitsAtStart(P), None);
    }
  }
}
