/** The Thompson machine as the C code runs it: marks in the program, two thread lists that
    change places at each byte, and a context that survives from one buffer to the next. */
module ThompsonVm {
  import opened Regexes
  import opened Bytecode
  import opened Thompson
  import opened Lists
  import opened Marks

  class Context {
    const program: MarkedProgram
    const code: Program
    const tags: array<nat>
    var current: ThreadList
    var next: ThreadList
    var tag: nat
    var firstBuf: bool
    ghost var history: seq<Byte>

    constructor (program: MarkedProgram)
      requires program.MarksOld() && Closed(program.code)
      ensures this.program == program && Ready() && history == []
      ensures fresh(current) && fresh(next) && fresh(current.threads) && fresh(next.threads)
    {
      this.program := program;
      code, tags := program.code, program.tags;
      current := new ThreadList(|program.code|);
      next := new ThreadList(|program.code|);
      tag := program.tag + 1;
      firstBuf := true;
      history := [];
    }

    ghost predicate IsList(l: ThreadList)
      reads l
    {
      l.count <= l.threads.Length == |code| && l.threads != tags
    }

    ghost predicate Shape()
      reads this, current, next
    {
      && Closed(code) && code == program.code && tags == program.tags && tags.Length == |code|
      && current != next && current.threads != next.threads && IsList(current) && IsList(next)
    }

    ghost predicate MarksUpTo(bound: nat)
      reads tags
    {
      forall p :: 0 <= p < tags.Length ==> tags[p] <= bound
    }

    /** Between two buffers: the current list is the frontier after what was read so far. */
    ghost predicate Ready()
      reads this, tags, current, next, current.threads, next.threads
    {
      && Shape() && next.count == 0
      && if firstBuf then current.count == 0 && history == [] && tag > 0 && MarksUpTo(tag - 1)
         else MarksUpTo(tag) && Frontier(code, history, |history|, current.Pcs())
    }

    /** Marks what `pc` leads to silently and puts its stops on `l`. */
    method AddThread(l: ThreadList, pc: nat, input: seq<Byte>, sp: nat)
      requires Closed(code) && tags.Length == |code| && Live(code, pc)
      requires IsList(l) && OnList(tags[..], tag, l.Pcs())
      requires sp <= |input| && (sp == 0 ==> history == [])
      modifies tags, l`count, l.threads
      ensures IsList(l) && OnList(tags[..], tag, l.Pcs())
      ensures Added(code, history + input, |history| + sp, tag, pc,
                    old(tags[..]), tags[..], old(l.Pcs()), l.Pcs())
      decreases Unmarked(tags[..], tag)
    {
      hide Added;
      if tags[pc] == tag {
        AddedAlready(code, history + input, |history| + sp, tag, pc, tags[..], l.Pcs());
        return;
      }
      ghost var s, pos := history + input, |history| + sp;
      ghost var t0, l0 := tags[..], l.Pcs();
      Mark(pc);
      if code[pc].Split? {
        var x, y := code[pc].x, code[pc].y;
        assert Flows(code, pc, x) && Flows(code, pc, y);
        AddThread(l, x, input, sp);
        ghost var t1, l1 := tags[..], l.Pcs();
        AddedMarks(code, s, pos, tag, x, t0[pc := tag], t1, l0, l1);
        AddThread(l, y, input, sp);
        AddedTwo(code, s, pos, tag, pc, x, y, t0, t1, tags[..], l0, l1, l.Pcs());
      } else if IsStop(code[pc]) {
        NotListed(t0, tag, l0, pc);
        PutThread(l, pc);
        AddedStop(code, s, pos, tag, pc, t0, l0);
      } else if code[pc].Check? && !CheckHolds(code[pc].assertion, input, sp) {
        AddedNothing(code, s, pos, tag, pc, t0, l0);
      } else {
        var x := if code[pc].Jmp? then code[pc].x else pc + 1;
        assert Flows(code, pc, x);
        AddThread(l, x, input, sp);
        AddedOne(code, s, pos, tag, pc, x, t0, tags[..], l0, l.Pcs());
      }
    }

    /** The look-behind checks look no further back than the current buffer. */
    predicate CheckHolds(a: LookBehind, input: seq<Byte>, sp: nat)
      requires sp <= |input| && (sp == 0 ==> history == [])
      reads this
      ensures CheckHolds(a, input, sp) <==> Holds(a, history + input, |history| + sp)
    {
      match a
      case BufferStart => sp == 0
      case LineStart => sp == 0 || input[sp - 1] == NEWLINE
    }

    method Mark(pc: nat)
      requires tags.Length == |code| && pc < |code| && tags[pc] != tag
      modifies tags
      ensures tags[..] == old(tags[..])[pc := tag]
      ensures Unmarked(tags[..], tag) < old(Unmarked(tags[..], tag))
    {
      ghost var t0 := tags[..];
      tags[pc] := tag;
      assert tags[..] == t0[pc := tag] && Unmarked(tags[..], tag) == Unmarked(t0, tag) - {pc};
    }

    method PutThread(l: ThreadList, pc: nat)
      requires IsList(l) && pc < |code| && NoRepeats(l.Pcs()) && pc !in l.Pcs()
      requires forall i :: 0 <= i < l.count ==> l.threads[i] < |code|
      modifies l`count, l.threads
      ensures IsList(l) && l.Pcs() == old(l.Pcs()) + [pc]
    {
      RoomLeft(l.Pcs(), |code|, pc);
      l.threads[l.count] := pc;
      l.count := l.count + 1;
    }

    /** One position of the input: every thread of `clist` is tried on the byte at `sp`.
        Stops at once when a thread stands on MATCH. */
    method RunThreads(clist: ThreadList, nlist: ThreadList, input: seq<Byte>, sp: nat) returns (matched: bool)
      requires Closed(code) && tags.Length == |code| && sp <= |input|
      requires IsList(clist) && IsList(nlist) && clist != nlist && clist.threads != nlist.threads
      requires nlist.count == 0 && tag > 0 && MarksUpTo(tag - 1)
      requires Frontier(code, history + input, |history| + sp, clist.Pcs())
      modifies tags, nlist`count, nlist.threads
      ensures IsList(nlist) && MarksUpTo(tag)
      ensures matched <==> MatchAt(code, history + input, |history| + sp)
      ensures !matched && sp < |input| ==> Frontier(code, history + input, |history| + sp + 1, nlist.Pcs())
    {
      hide Closed;
      ghost var s, pos, from := history + input, |history| + sp, clist.Pcs();
      var i := 0;
      while i < clist.count
        invariant 0 <= i <= clist.count && clist.Pcs() == from && IsList(nlist)
        invariant MarksUpTo(tag) && Advancing(code, s, pos, tag, tags[..], from, i, nlist.Pcs())
        invariant forall k :: 0 <= k < i ==> from[k] < |code| && !code[from[k]].Match?
      {
        var pc := clist.threads[i];
        assert pc == from[i] && pc in from;
        if code[pc].Match? {
          return true;
        }
        if sp < |input| && Eats(code[pc], input[sp]) {
          assert s[pos] == input[sp];
          NextIsLive(code, s, pc, pos);
          ghost var t0, l0 := tags[..], nlist.Pcs();
          AddThread(nlist, pc + 1, input, sp + 1);
          AdvanceOne(code, s, pos, tag, t0, tags[..], from, i, l0, nlist.Pcs());
        }
        i := i + 1;
      }
      matched := false;
      if sp < |input| {
        FrontierAdvances(code, s, pos, tag, tags[..], from, nlist.Pcs());
      }
    }

    /** Brings the current list up to date with the buffer about to be read: the first buffer
        starts the machine. */
    method Start(input: seq<Byte>)
      requires Ready()
      modifies `firstBuf, tags, current`count, current.threads
      ensures Shape() && !firstBuf && next.count == 0 && MarksUpTo(tag)
      ensures Frontier(code, history + input, |history|, current.Pcs())
    {
      if firstBuf {
        firstBuf := false;
        ghost var t0 := tags[..];
        AddThread(current, 0, input, 0);
        FirstFrontier(code, history + input, tag, t0, tags[..], current.Pcs());
      } else {
        FrontierIgnoresRest(code, history, history + input, |history|, current.Pcs());
      }
    }

    /** Runs the machine over one buffer; `eof` says that no further buffer follows. */
    method Exec(input: seq<Byte>, eof: bool) returns (rc: Status)
      requires Ready()
      modifies this, program, tags, current, next, current.threads, next.threads
      ensures history == old(history) + input
      ensures rc == Ok <==> MatchIn(code, history, old(|history|), if eof then |history| + 1 else |history|)
      ensures rc == Again ==> !eof && Ready() && !firstBuf
      ensures rc == Declined ==> eof
      ensures {current, next} == old({current, next})
    {
      hide Frontier, MatchAt, Closed, MarksUpTo;
      ghost var s, base := history + input, |history|;
      var clist, nlist := current, next;
      Start(input);
      var last := |input|;
      var sp := 0;
      while sp < last || (eof && sp == last)
        invariant 0 <= sp <= last && history == old(history) && !firstBuf
        invariant current == old(current) && next == old(next)
        invariant {clist, nlist} == {current, next} && clist != nlist && clist.threads != nlist.threads
        invariant IsList(clist) && IsList(nlist) && nlist.count == 0 && MarksUpTo(tag)
        invariant Frontier(code, s, base + sp, clist.Pcs())
        invariant forall pos: nat :: base <= pos < base + sp ==> !MatchAt(code, s, pos)
        decreases last - sp
      {
        if clist.count == 0 {
          NoThreadsNoMatch(code, s, base + sp);
          break;
        }
        tag := tag + 1;
        var matched := RunThreads(clist, nlist, input, sp);
        if matched {
          program.tag := tag;
          history := s;
          return Ok;
        }
        clist, nlist := nlist, clist;
        nlist.count := 0;
        if sp == last {
          break;
        }
        sp := sp + 1;
      }
      program.tag := tag;
      current, next := clist, nlist;
      history := s;
      rc := if eof then Declined else Again;
    }
  }

  /** Feeds the buffers one after the other until the machine reports a match. */
  method RunBuffers(ctx: Context, buffers: seq<seq<Byte>>) returns (matched: bool)
    requires ctx.Ready() && ctx.history == [] && buffers != []
    modifies ctx, ctx.program, ctx.tags, ctx.current, ctx.next, ctx.current.threads, ctx.next.threads
    ensures matched <==> Accepts(ctx.code, Joined(buffers))
  {
    ghost var code, whole := ctx.code, Joined(buffers);
    var i := 0;
    matched := false;
    while i < |buffers|
      invariant 0 <= i <= |buffers| && ctx.history == Joined(buffers[..i])
      invariant {ctx.current, ctx.next} == old({ctx.current, ctx.next})
      invariant i < |buffers| ==> ctx.Ready()
      invariant !MatchIn(code, whole, 0, if i == |buffers| then |whole| + 1 else |ctx.history|)
    {
      var eof := i == |buffers| - 1;
      ghost var before := |ctx.history|;
      assert buffers[..i + 1][..i] == buffers[..i];
      JoinedPrefix(buffers, i + 1);
      var rc := ctx.Exec(buffers[i], eof);
      MatchInIgnoresRest(code, ctx.history, whole, before, if eof then |ctx.history| + 1 else |ctx.history|);
      if rc == Ok {
        MatchInAccepts(code, whole);
        return true;
      }
      i := i + 1;
    }
    MatchInAccepts(code, whole);
  }
}
