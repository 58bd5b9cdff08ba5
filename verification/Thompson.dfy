/** The Thompson machine: a set of program counters advances in lock step over the input,
    which may arrive in any number of buffers. */
module Thompson {
  import opened Marks
  import opened Lists
  import opened Regexes
  import opened Bytecode

  datatype Status = Ok | Again | Declined

  /** A fixed block of thread slots; nothing checks the capacity when a thread is added. */
  class ThreadList {
    const threads: array<nat>
    var count: nat

    constructor (size: nat)
      ensures fresh(threads) && threads.Length == size && count == 0
    {
      threads := new nat[size](_ => 0);
      count := 0;
    }

    ghost function Pcs(): seq<nat>
      requires count <= threads.Length
      reads this, threads
    {
      threads[..count]
    }
  }

  // ---------- what one closure adds, on values ----------

  /** A list of distinct instructions, all of them marked with the current tag. */
  ghost predicate OnList(tags: seq<nat>, tag: nat, l: seq<nat>) {
    NoRepeats(l) && forall i :: 0 <= i < |l| ==> l[i] < |tags| && tags[l[i]] == tag
  }

  /** Going from (t0, l0) to (t1, l1) marks what control reaches silently from `pc` at `pos`,
      apart from what lies behind instructions marked before, and lists the stops among it. */
  ghost predicate Added(P: Program, s: seq<Byte>, pos: nat, tag: nat, pc: nat,
                        t0: seq<nat>, t1: seq<nat>, l0: seq<nat>, l1: seq<nat>) {
    && |t0| == |t1| == |P| && pc < |P| && t1[pc] == tag
    && (forall p :: 0 <= p < |P| ==> t1[p] == t0[p] || t1[p] == tag)
    && (forall p: nat :: p < |P| && t0[p] != tag && t1[p] == tag ==> Runs(P, s, 0, |P|, Conf(pc, pos), Conf(p, pos)))
    && (forall p: nat, q: nat :: p < |P| && t0[p] != tag && t1[p] == tag && EpsStep(P, s, pos, p, q) ==>
          q < |P| && t1[q] == tag)
    && l0 <= l1 && OnList(t1, tag, l1)
    && (forall p: nat :: p in l1 <==> p in l0 || (p < |P| && t0[p] != tag && t1[p] == tag && IsStop(P[p])))
  }

  lemma NotListed(tags: seq<nat>, tag: nat, l: seq<nat>, pc: nat)
    requires OnList(tags, tag, l) && pc < |tags| && tags[pc] != tag
    ensures pc !in l && NoRepeats(l) && forall i :: 0 <= i < |l| ==> l[i] < |tags|
  {}

  lemma RunsRefl(P: Program, s: seq<Byte>, c: Conf)
    ensures Runs(P, s, 0, |P|, c, c)
  {
    assert Path(P, s, 0, |P|, 0, c, c);
  }

  lemma AddedAlready(P: Program, s: seq<Byte>, pos: nat, tag: nat, pc: nat, t0: seq<nat>, l0: seq<nat>)
    requires |t0| == |P| && pc < |P| && t0[pc] == tag && OnList(t0, tag, l0)
    ensures Added(P, s, pos, tag, pc, t0, t0, l0, l0)
  {}

  lemma AddedMarks(P: Program, s: seq<Byte>, pos: nat, tag: nat, pc: nat,
                   t0: seq<nat>, t1: seq<nat>, l0: seq<nat>, l1: seq<nat>)
    requires Added(P, s, pos, tag, pc, t0, t1, l0, l1)
    ensures Unmarked(t1, tag) <= Unmarked(t0, tag)
  {}

  lemma AddedStop(P: Program, s: seq<Byte>, pos: nat, tag: nat, pc: nat, t0: seq<nat>, l0: seq<nat>)
    requires |t0| == |P| && pc < |P| && t0[pc] != tag && OnList(t0, tag, l0) && IsStop(P[pc])
    ensures Added(P, s, pos, tag, pc, t0, t0[pc := tag], l0, l0 + [pc])
    ensures OnList(t0[pc := tag], tag, l0 + [pc])
  {
    RunsRefl(P, s, Conf(pc, pos));
    assert pc !in l0;
  }

  /** A check that fails: the instruction is marked and goes nowhere. */
  lemma AddedNothing(P: Program, s: seq<Byte>, pos: nat, tag: nat, pc: nat, t0: seq<nat>, l0: seq<nat>)
    requires |t0| == |P| && pc < |P| && t0[pc] != tag && OnList(t0, tag, l0) && !IsStop(P[pc])
    requires forall q :: !EpsStep(P, s, pos, pc, q)
    ensures Added(P, s, pos, tag, pc, t0, t0[pc := tag], l0, l0)
    ensures OnList(t0[pc := tag], tag, l0)
  {
    RunsRefl(P, s, Conf(pc, pos));
  }

  lemma AddedOne(P: Program, s: seq<Byte>, pos: nat, tag: nat, pc: nat, x: nat,
                 t0: seq<nat>, t1: seq<nat>, l0: seq<nat>, l1: seq<nat>)
    requires |t0| == |P| && pc < |P| && t0[pc] != tag && !IsStop(P[pc])
    requires forall q :: EpsStep(P, s, pos, pc, q) <==> q == x
    requires Added(P, s, pos, tag, x, t0[pc := tag], t1, l0, l1)
    ensures Added(P, s, pos, tag, pc, t0, t1, l0, l1)
  {
    RunsRefl(P, s, Conf(pc, pos));
    RunsStep(P, s, 0, |P|, Conf(pc, pos), Conf(x, pos));
    forall p: nat | p < |P| && t0[p] != tag && t1[p] == tag && p != pc
      ensures Runs(P, s, 0, |P|, Conf(pc, pos), Conf(p, pos))
    {
      RunsTrans(P, s, 0, |P|, Conf(pc, pos), Conf(x, pos), Conf(p, pos));
    }
  }

  lemma AddedTwo(P: Program, s: seq<Byte>, pos: nat, tag: nat, pc: nat, x: nat, y: nat,
                 t0: seq<nat>, t1: seq<nat>, t2: seq<nat>, l0: seq<nat>, l1: seq<nat>, l2: seq<nat>)
    requires |t0| == |P| && pc < |P| && t0[pc] != tag && P[pc] == Split(x, y) && pos <= |s|
    requires Added(P, s, pos, tag, x, t0[pc := tag], t1, l0, l1)
    requires Added(P, s, pos, tag, y, t1, t2, l1, l2)
    ensures Added(P, s, pos, tag, pc, t0, t2, l0, l2)
  {
    RunsRefl(P, s, Conf(pc, pos));
    RunsStep(P, s, 0, |P|, Conf(pc, pos), Conf(x, pos));
    RunsStep(P, s, 0, |P|, Conf(pc, pos), Conf(y, pos));
    forall p: nat | p < |P| && t0[p] != tag && t2[p] == tag && p != pc
      ensures Runs(P, s, 0, |P|, Conf(pc, pos), Conf(p, pos))
    {
      if t1[p] == tag {
        RunsTrans(P, s, 0, |P|, Conf(pc, pos), Conf(x, pos), Conf(p, pos));
      } else {
        RunsTrans(P, s, 0, |P|, Conf(pc, pos), Conf(y, pos), Conf(p, pos));
      }
    }
  }

  function Elements(l: seq<nat>): (r: set<nat>)
    ensures forall p: nat :: p in r <==> p in l
    ensures NoRepeats(l) ==> |r| == |l|
  {
    if l == [] then {} else Elements(l[..|l| - 1]) + {l[|l| - 1]}
  }

  lemma {:induction false} CardMonotone(a: set<nat>, b: set<nat>)
    requires a <= b
    ensures |a| <= |b|
  {
    if a != {} {
      var x :| x in a;
      CardMonotone(a - {x}, b - {x});
    }
  }

  /** A list of distinct instructions that misses one is shorter than the program. */
  lemma RoomLeft(l: seq<nat>, n: nat, missing: nat)
    requires NoRepeats(l) && missing < n && missing !in l
    requires forall i :: 0 <= i < |l| ==> l[i] < n
    ensures |l| < n
  {
    CardMonotone(Elements(l), UpTo(n) - {missing});
  }

  // ---------- the frontier of the machine ----------

  /** `l` holds, once each, the stops the machine can be at after `pos` bytes. */
  ghost predicate Frontier(P: Program, s: seq<Byte>, pos: nat, l: seq<nat>) {
    NoRepeats(l) && forall p: nat :: p in l <==> p < |P| && IsStop(P[p]) && At(P, s, p, pos)
  }

  ghost predicate MatchAt(P: Program, s: seq<Byte>, pos: nat) {
    exists pc: nat :: pc < |P| && P[pc].Match? && At(P, s, pc, pos)
  }

  /** What control reaches silently from a marked instruction is marked. */
  ghost predicate MarksClosed(P: Program, s: seq<Byte>, pos: nat, tag: nat, tags: seq<nat>) {
    |tags| == |P| &&
    forall p: nat, q: nat :: p < |P| && tags[p] == tag && EpsStep(P, s, pos, p, q) ==> q < |P| && tags[q] == tag
  }

  /** The marks of a half-built next list: `l` are its stops, and the first `i` threads of the
      current list `from` have been advanced. */
  ghost predicate Advancing(P: Program, s: seq<Byte>, pos: nat, tag: nat, tags: seq<nat>,
                            from: seq<nat>, i: nat, l: seq<nat>) {
    && |tags| == |P| && i <= |from| && pos <= |s| && OnList(tags, tag, l)
    && (forall p: nat :: p < |P| && tags[p] == tag ==> At(P, s, p, pos + 1))
    && MarksClosed(P, s, pos + 1, tag, tags)
    && (forall p: nat :: p in l <==> p < |P| && tags[p] == tag && IsStop(P[p]))
    && (forall k :: 0 <= k < i && from[k] < |P| && pos < |s| && Eats(P[from[k]], s[pos]) ==>
          from[k] + 1 < |P| && tags[from[k] + 1] == tag)
  }

  lemma AdvanceOne(P: Program, s: seq<Byte>, pos: nat, tag: nat, t0: seq<nat>, t1: seq<nat>,
                   from: seq<nat>, i: nat, l0: seq<nat>, l1: seq<nat>)
    requires Advancing(P, s, pos, tag, t0, from, i, l0) && i < |from| && pos < |s|
    requires from[i] < |P| && At(P, s, from[i], pos) && Eats(P[from[i]], s[pos])
    requires Added(P, s, pos + 1, tag, from[i] + 1, t0, t1, l0, l1)
    ensures Advancing(P, s, pos, tag, t1, from, i + 1, l1)
  {
    var c, d, e := Conf(0, 0), Conf(from[i], pos), Conf(from[i] + 1, pos + 1);
    RunsStep(P, s, 0, |P|, d, e);
    RunsTrans(P, s, 0, |P|, c, d, e);
    forall p: nat | p < |P| && t0[p] != tag && t1[p] == tag
      ensures At(P, s, p, pos + 1)
    {
      RunsTrans(P, s, 0, |P|, c, e, Conf(p, pos + 1));
    }
  }

  /** Paths that arrive one byte further end on marked instructions. */
  lemma {:induction false} PathEndsMarked(P: Program, s: seq<Byte>, pos: nat, tag: nat, tags: seq<nat>,
                                          from: seq<nat>, l: seq<nat>, n: nat, c: Conf, d: Conf)
    requires Frontier(P, s, pos, from) && Advancing(P, s, pos, tag, tags, from, |from|, l)
    requires Runs(P, s, 0, |P|, Conf(0, 0), c) && Path(P, s, 0, |P|, n, c, d)
    requires c.pos <= pos || (c.pos == pos + 1 && c.pc < |P| && tags[c.pc] == tag)
    requires d.pos == pos + 1
    ensures d.pc < |P| && tags[d.pc] == tag
    decreases n
  {
    if n > 0 {
      var e :| Step(P, s, c, e) && Path(P, s, 0, |P|, n - 1, e, d);
      RunsStep(P, s, 0, |P|, c, e);
      RunsTrans(P, s, 0, |P|, Conf(0, 0), c, e);
      if c.pos == pos && e.pos == pos + 1 {
        assert At(P, s, c.pc, pos) && c.pc in from;
      }
      PathPositions(P, s, 0, |P|, n - 1, e, d);
      PathEndsMarked(P, s, pos, tag, tags, from, l, n - 1, e, d);
    }
  }

  lemma FrontierAdvances(P: Program, s: seq<Byte>, pos: nat, tag: nat, tags: seq<nat>, from: seq<nat>, l: seq<nat>)
    requires Frontier(P, s, pos, from) && Advancing(P, s, pos, tag, tags, from, |from|, l)
    ensures Frontier(P, s, pos + 1, l)
  {
    forall p: nat | p < |P| && IsStop(P[p]) && At(P, s, p, pos + 1)
      ensures p in l
    {
      var n: nat :| Path(P, s, 0, |P|, n, Conf(0, 0), Conf(p, pos + 1));
      RunsRefl(P, s, Conf(0, 0));
      PathEndsMarked(P, s, pos, tag, tags, from, l, n, Conf(0, 0), Conf(p, pos + 1));
    }
  }

  /** With no thread left, nothing is reachable any further on. */
  lemma {:induction false} DeadEnd(P: Program, s: seq<Byte>, pos: nat, n: nat, c: Conf, d: Conf)
    requires Frontier(P, s, pos, []) && pos <= |s|
    requires Runs(P, s, 0, |P|, Conf(0, 0), c) && c.pos <= pos && Path(P, s, 0, |P|, n, c, d)
    ensures d.pos <= pos
    decreases n
  {
    if n > 0 {
      var e :| Step(P, s, c, e) && Path(P, s, 0, |P|, n - 1, e, d);
      RunsStep(P, s, 0, |P|, c, e);
      RunsTrans(P, s, 0, |P|, Conf(0, 0), c, e);
      assert c.pos == pos && e.pos > pos ==> !At(P, s, c.pc, pos);
      assert e.pos <= pos;
      DeadEnd(P, s, pos, n - 1, e, d);
    }
  }

  lemma NoThreadsNoMatch(P: Program, s: seq<Byte>, pos: nat)
    requires Frontier(P, s, pos, []) && pos <= |s|
    ensures forall p: nat, pos': nat :: pos' > pos ==> !At(P, s, p, pos')
    ensures forall pos': nat :: pos' >= pos ==> !MatchAt(P, s, pos') && (pos' > pos ==> Frontier(P, s, pos', []))
  {
    forall p: nat, pos': nat | pos' > pos
      ensures !At(P, s, p, pos')
    {
      if At(P, s, p, pos') {
        var n: nat :| Path(P, s, 0, |P|, n, Conf(0, 0), Conf(p, pos'));
        RunsRefl(P, s, Conf(0, 0));
        DeadEnd(P, s, pos, n, Conf(0, 0), Conf(p, pos'));
      }
    }
    ghost var none: seq<nat> := [];
    forall pc: nat | pc < |P| && P[pc].Match?
      ensures !At(P, s, pc, pos)
    {
      assert At(P, s, pc, pos) ==> pc in none;
    }
  }

  lemma AtIsLive(P: Program, s: seq<Byte>, p: nat, pos: nat)
    requires Closed(P) && At(P, s, p, pos)
    ensures Live(P, p)
  {
    var n: nat :| Path(P, s, 0, |P|, n, Conf(0, 0), Conf(p, pos));
    PathStaysLive(P, s, n, Conf(0, 0), Conf(p, pos));
  }

  lemma NextIsLive(P: Program, s: seq<Byte>, p: nat, pos: nat)
    requires Closed(P) && pos < |s| && p < |P| && At(P, s, p, pos) && Eats(P[p], s[pos])
    ensures Live(P, p + 1)
  {
    AtIsLive(P, s, p, pos);
    assert Flows(P, p, p + 1);
  }

  lemma {:induction false} SilentPathMarked(P: Program, s: seq<Byte>, pos: nat, tag: nat, tags: seq<nat>, n: nat, c: Conf, d: Conf)
    requires MarksClosed(P, s, pos, tag, tags) && pos <= |s| && Path(P, s, 0, |P|, n, c, d)
    requires c.pos == d.pos == pos && c.pc < |P| && tags[c.pc] == tag
    ensures d.pc < |P| && tags[d.pc] == tag
    decreases n
  {
    if n > 0 {
      var e :| Step(P, s, c, e) && Path(P, s, 0, |P|, n - 1, e, d);
      PathPositions(P, s, 0, |P|, n - 1, e, d);
      SilentPathMarked(P, s, pos, tag, tags, n - 1, e, d);
    }
  }

  /** The closure of the first instruction is the frontier before any byte is read. */
  lemma FirstFrontier(P: Program, s: seq<Byte>, tag: nat, t0: seq<nat>, t1: seq<nat>, l: seq<nat>)
    requires Added(P, s, 0, tag, 0, t0, t1, [], l)
    requires forall p :: 0 <= p < |t0| ==> t0[p] != tag
    ensures Frontier(P, s, 0, l)
  {
    forall p: nat | p < |P| && IsStop(P[p]) && At(P, s, p, 0)
      ensures p in l
    {
      var n: nat :| Path(P, s, 0, |P|, n, Conf(0, 0), Conf(p, 0));
      SilentPathMarked(P, s, 0, tag, t1, n, Conf(0, 0), Conf(p, 0));
    }
  }

  // ---------- what is reachable depends only on what was read ----------

  lemma {:induction false} PathIgnoresRest(P: Program, s: seq<Byte>, s': seq<Byte>, pos: nat, n: nat, c: Conf, d: Conf)
    requires pos <= |s| && pos <= |s'| && s[..pos] == s'[..pos]
    requires Path(P, s, 0, |P|, n, c, d) && c.pos <= |s| && d.pos == pos
    ensures Path(P, s', 0, |P|, n, c, d)
    decreases n
  {
    if n > 0 {
      var e :| Step(P, s, c, e) && Path(P, s, 0, |P|, n - 1, e, d);
      PathPositions(P, s, 0, |P|, n - 1, e, d);
      forall k | 0 <= k < pos
        ensures s[k] == s'[k]
      {
        assert s[..pos][k] == s'[..pos][k];
      }
      assert Step(P, s', c, e);
      PathIgnoresRest(P, s, s', pos, n - 1, e, d);
    }
  }

  lemma AtIgnoresRest(P: Program, s: seq<Byte>, s': seq<Byte>, p: nat, pos: nat)
    requires pos <= |s| && pos <= |s'| && s[..pos] == s'[..pos]
    ensures At(P, s, p, pos) <==> At(P, s', p, pos)
  {
    if At(P, s, p, pos) {
      var n: nat :| Path(P, s, 0, |P|, n, Conf(0, 0), Conf(p, pos));
      PathIgnoresRest(P, s, s', pos, n, Conf(0, 0), Conf(p, pos));
    }
    if At(P, s', p, pos) {
      var n: nat :| Path(P, s', 0, |P|, n, Conf(0, 0), Conf(p, pos));
      PathIgnoresRest(P, s', s, pos, n, Conf(0, 0), Conf(p, pos));
    }
  }

  lemma MatchAtIgnoresRest(P: Program, s: seq<Byte>, s': seq<Byte>, pos: nat)
    requires pos <= |s| && pos <= |s'| && s[..pos] == s'[..pos]
    ensures MatchAt(P, s, pos) <==> MatchAt(P, s', pos)
  {
    forall p: nat {
      AtIgnoresRest(P, s, s', p, pos);
    }
  }

  lemma FrontierIgnoresRest(P: Program, s: seq<Byte>, s': seq<Byte>, pos: nat, l: seq<nat>)
    requires pos <= |s| && pos <= |s'| && s[..pos] == s'[..pos] && Frontier(P, s, pos, l)
    ensures Frontier(P, s', pos, l)
  {
    forall p: nat {
      AtIgnoresRest(P, s, s', p, pos);
    }
  }

  // ---------- a run over several buffers ----------

  function Joined(buffers: seq<seq<Byte>>): seq<Byte> {
    if buffers == [] then [] else Joined(buffers[..|buffers| - 1]) + buffers[|buffers| - 1]
  }

  lemma {:induction false} JoinedPrefix(buffers: seq<seq<Byte>>, i: nat)
    requires i <= |buffers|
    ensures Joined(buffers[..i]) <= Joined(buffers)
    decreases |buffers|
  {
    if i < |buffers| {
      var front := buffers[..|buffers| - 1];
      assert front[..i] == buffers[..i];
      JoinedPrefix(front, i);
    } else {
      assert buffers[..i] == buffers;
    }
  }

  /** A MATCH is reachable at some position in [from, to). */
  ghost predicate MatchIn(P: Program, s: seq<Byte>, from: nat, to: nat) {
    exists pos: nat :: from <= pos < to && MatchAt(P, s, pos)
  }

  lemma MatchInIgnoresRest(P: Program, s: seq<Byte>, s': seq<Byte>, from: nat, to: nat)
    requires s <= s' && to <= |s| + 1
    ensures MatchIn(P, s, from, to) <==> MatchIn(P, s', from, to)
  {
    forall pos: nat | pos < to
      ensures MatchAt(P, s, pos) <==> MatchAt(P, s', pos)
    {
      MatchAtIgnoresRest(P, s, s', pos);
    }
  }

  lemma MatchInAccepts(P: Program, s: seq<Byte>)
    ensures MatchIn(P, s, 0, |s| + 1) <==> Accepts(P, s)
    ensures forall from: nat, to: nat :: to <= |s| + 1 && MatchIn(P, s, from, to) ==> Accepts(P, s)
  {
    if Accepts(P, s) {
      var pc: nat, pos: nat :| pc < |P| && P[pc].Match? && At(P, s, pc, pos);
      var n: nat :| Path(P, s, 0, |P|, n, Conf(0, 0), Conf(pc, pos));
      PathPositions(P, s, 0, |P|, n, Conf(0, 0), Conf(pc, pos));
      assert MatchAt(P, s, pos);
    }
  }
}
