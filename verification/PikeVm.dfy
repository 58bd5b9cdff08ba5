/** The Pike machine as the C code runs it: marks in the program, two queues of threads, and
    captures shared between threads by reference count. */
module PikeVm {
  import opened Options
  import opened Regexes
  import opened Bytecode
  import opened Patterns
  import opened Backtracking
  import opened PikeSpec
  import opened Marks
  import opened Captures

  /** A thread in a queue; `capture` may be shared with other threads. */
  datatype Node = Node(pc: nat, capture: Capture)

  class Queue {
    var items: seq<Node>

    constructor ()
      ensures items == []
    {
      items := [];
    }
  }

  /** The references the threads of a list hold. */
  ghost function Held(l: seq<Node>): Holders {
    if l == [] then multiset{} else Held(l[..|l| - 1]) + multiset{l[|l| - 1].capture}
  }

  lemma HeldOne(l: seq<Node>, t: Node)
    ensures Held(l + [t]) == Held(l) + multiset{t.capture}
  {
    assert (l + [t])[..|l|] == l;
  }

  lemma {:induction false} HeldConcat(a: seq<Node>, b: seq<Node>)
    ensures Held(a + b) == Held(a) + Held(b)
    decreases |b|
  {
    if b == [] {
      assert a + b == a;
    } else {
      var n := |b| - 1;
      assert (a + b)[..|a + b| - 1] == a + b[..n];
      HeldConcat(a, b[..n]);
    }
  }

  lemma {:induction false} HeldAll(l: seq<Node>)
    ensures forall i :: 0 <= i < |l| ==> l[i].capture in Held(l)
    ensures forall c <- Held(l) :: exists i :: 0 <= i < |l| && l[i].capture == c
  {
    if l != [] {
      HeldAll(l[..|l| - 1]);
    }
  }

  /** What the threads of a list stand for. */
  ghost function View(l: seq<Node>): (v: seq<Thread>)
    reads set t <- l :: t.capture
    ensures |v| == |l| && forall i :: 0 <= i < |l| ==> v[i] == Thread(l[i].pc, l[i].capture.vector)
  {
    if l == [] then [] else View(l[..|l| - 1]) + [Thread(l[|l| - 1].pc, l[|l| - 1].capture.vector)]
  }

  twostate lemma ViewKept(l: seq<Node>)
    requires forall i :: 0 <= i < |l| ==> l[i].capture.vector == old(l[i].capture.vector)
    ensures View(l) == old(View(l))
  {}

  ghost function HitHeld(hit: Capture?): Holders {
    if hit == null then multiset{} else multiset{hit}
  }

  ghost function HitOf(hit: Capture?): Option<Hit>
    reads hit
  {
    if hit == null then None else Some(Hit(hit.vector, hit.regexId))
  }

  /** The closure `r` as the machine shows it: the marks, the hit, the queue before and after. */
  ghost predicate Follows(r: Closure, marks: set<nat>, done: Option<Hit>, before: seq<Thread>, after: seq<Thread>) {
    marks == r.marked && done == r.done && after == before + r.threads
  }

  /** The flag is set whenever control passes a split at the start, and only then. */
  ghost predicate SeenFits(P: Program, seen: bool, marks: set<nat>, seen': bool, marks': set<nat>) {
    && marks <= marks'
    && (seen' ==> seen || (SplitsAtStart(P) && 0 in marks'))
    && (seen || (SplitsAtStart(P) && 0 in marks' && 0 !in marks) ==> seen')
  }

  lemma SeenSame(P: Program, seen: bool, marks: set<nat>)
    ensures SeenFits(P, seen, marks, seen, marks)
  {}

  lemma SeenThen(P: Program, seen0: bool, marks0: set<nat>, seen1: bool, marks1: set<nat>, seen2: bool, marks2: set<nat>)
    requires SeenFits(P, seen0, marks0, seen1, marks1) && SeenFits(P, seen1, marks1, seen2, marks2)
    ensures SeenFits(P, seen0, marks0, seen2, marks2)
  {}

  /** The instruction at `pc` itself, then the rest. */
  lemma SeenHere(P: Program, pc: nat, seen0: bool, marks0: set<nat>, seen1: bool, marks1: set<nat>, seen2: bool, marks2: set<nat>)
    requires pc < |P| && seen1 == (seen0 || (pc == 0 && P[pc].Split?)) && marks1 == marks0 + {pc}
    requires SeenFits(P, seen1, marks1, seen2, marks2)
    ensures SeenFits(P, seen0, marks0, seen2, marks2)
  {}

  lemma FollowsBoth(a: Closure, b: Closure, m1: set<nat>, m2: set<nat>, done: Option<Hit>,
                    v0: seq<Thread>, v1: seq<Thread>, v2: seq<Thread>)
    requires Follows(a, m1, None, v0, v1) && Follows(b, m2, done, v1, v2)
    ensures Follows(Closure(b.marked, a.threads + b.threads, b.done), m2, done, v0, v2)
  {}

  class Context {
    const program: MarkedProgram
    const code: Program
    const tags: array<nat>
    const slots: nat
    const pool: CapturePool
    const first: Queue
    const second: Queue
    var tag: nat
    var seenStart: bool

    constructor (program: MarkedProgram, slots: nat)
      requires program.MarksOld() && Closed(program.code) && SlotsIn(program.code, 0, |program.code|, 0, slots)
      ensures this.program == program && this.slots == slots && Shape()
      ensures fresh(pool) && fresh(first) && fresh(second) && first.items == [] && second.items == []
      ensures pool.all == {} && pool.free == [] && !seenStart
    {
      this.program, this.slots := program, slots;
      code, tags := program.code, program.tags;
      pool := new CapturePool();
      first := new Queue();
      second := new Queue();
      tag := program.tag + 1;
      seenStart := false;
    }

    ghost predicate Shape() {
      && Closed(code) && SlotsIn(code, 0, |code|, 0, slots) && tags.Length == |code|
      && code == program.code && tags == program.tags && first != second
    }

    /** The references of `holders` are accounted for, and their vectors have the right size. */
    ghost predicate Sound(holders: Holders)
      reads pool, pool.all
    {
      pool.Accounted(holders) && forall c <- holders :: |c.vector| == slots
    }

    ghost function MarksNow(): set<nat>
      reads `tag, tags
    {
      Marked(tags[..], tag)
    }

    /** The second branch of the split at `pc` has not been taken yet. */
    predicate YUnmarked(pc: nat)
      requires tags.Length == |code| && pc < |code| && code[pc].Split? && code[pc].y < |code|
      reads this, tags
      ensures YUnmarked(pc) <==> code[pc].y !in MarksNow()
      ensures YUnmarked(pc) <==> tags[code[pc].y] != tag
    {
      tags[code[pc].y] != tag
    }

    method Mark(pc: nat)
      requires tags.Length == |code| && pc < |code| && tags[pc] != tag
      modifies tags
      ensures Unmarked(tags[..], tag) < old(Unmarked(tags[..], tag))
      ensures MarksNow() == old(MarksNow()) + {pc}
      ensures forall p :: 0 <= p < tags.Length ==> tags[p] == if p == pc then tag else old(tags[p])
    {
      tags[pc] := tag;
      assert Unmarked(tags[..], tag) == old(Unmarked(tags[..], tag)) - {pc};
    }

    /** Follows `pc` and queues the threads it leads to, in order of priority. The caller's
        reference to `cap` is used up: by a thread, by the hit, or by being forgotten. A hit is
        returned only by an eager call, and ends the closure. */
    method AddThread(l: Queue, pc: nat, cap: Capture, s: seq<Byte>, pos: nat, eager: bool, ghost rest: Holders)
      returns (hit: Capture?)
      requires Shape() && Live(code, pc) && pos <= |s| && cap in pool.all
      requires Sound(rest + Held(l.items) + multiset{cap})
      modifies `seenStart, tags, l, pool, pool.all
      ensures Follows(Add(code, s, pos, old(MarksNow()), pc, old(cap.vector), eager), MarksNow(), HitOf(hit), old(View(l.items)), View(l.items))
      ensures forall p :: 0 <= p < tags.Length ==> tags[p] == old(tags[p]) || tags[p] == tag
      ensures SeenFits(code, old(seenStart), old(MarksNow()), seenStart, MarksNow())
      ensures Sound(rest + Held(l.items) + HitHeld(hit))
      ensures forall c <- old(pool.all) :: c in rest ==> c.vector == old(c.vector)
      ensures forall c <- old(pool.all) :: c in rest && c != cap ==> c.regexId == old(c.regexId)
      ensures eager && hit == null ==> forall c <- old(pool.all) :: c.regexId == old(c.regexId)
      ensures old(pool.all) <= pool.all && fresh(pool.all - old(pool.all))
      decreases Unmarked(tags[..], tag), tags[pc] == tag, 1
    {
      hide *;
      Successors(pc);
      IsMarked(pc);
      ghost var marks, caps, seen := MarksNow(), cap.vector, seenStart;
      SeenSame(code, seen, marks);
      if tags[pc] == tag {
        AddAgain(code, s, pos, marks, pc, caps, eager);
        if code[pc].Split? && YUnmarked(pc) {
          if pc == 0 {
            seenStart := true;
          }
          ghost var seen' := seenStart;
          hit := AddThread(l, code[pc].y, cap, s, pos, eager, rest);
          SeenHere(code, pc, seen, marks, seen', marks, seenStart, MarksNow());
        } else {
          hit := Forget(l, cap, rest);
        }
        return;
      }
      Mark(pc);
      if code[pc].Split? {
        if pc == 0 {
          seenStart := true;
        }
        ghost var seen' := seenStart;
        hit := AddBranches(l, pc, cap, s, pos, eager, rest);
        AddBoth(code, s, pos, marks, pc, caps, eager);
        SeenHere(code, pc, seen, marks, seen', marks + {pc}, seenStart, MarksNow());
      } else {
        hit := AddMarked(l, pc, cap, s, pos, eager, marks, rest);
        SeenHere(code, pc, seen, marks, seen, marks + {pc}, seenStart, MarksNow());
      }
    }

    /** The rest of AddThread for an instruction, just marked, with at most one successor. */
    method AddMarked(l: Queue, pc: nat, cap: Capture, s: seq<Byte>, pos: nat, eager: bool, ghost marks: set<nat>, ghost rest: Holders)
      returns (hit: Capture?)
      requires Shape() && Live(code, pc) && pos <= |s| && cap in pool.all && !code[pc].Split?
      requires pc !in marks && MarksNow() == marks + {pc}
      requires Sound(rest + Held(l.items) + multiset{cap})
      modifies `seenStart, tags, l, pool, pool.all
      ensures Follows(Add(code, s, pos, marks, pc, old(cap.vector), eager), MarksNow(), HitOf(hit), old(View(l.items)), View(l.items))
      ensures forall p :: 0 <= p < tags.Length ==> tags[p] == old(tags[p]) || tags[p] == tag
      ensures SeenFits(code, old(seenStart), old(MarksNow()), seenStart, MarksNow())
      ensures Sound(rest + Held(l.items) + HitHeld(hit))
      ensures forall c <- old(pool.all) :: c in rest ==> c.vector == old(c.vector)
      ensures forall c <- old(pool.all) :: c in rest && c != cap ==> c.regexId == old(c.regexId)
      ensures eager && hit == null ==> forall c <- old(pool.all) :: c.regexId == old(c.regexId)
      ensures old(pool.all) <= pool.all && fresh(pool.all - old(pool.all))
      decreases Unmarked(tags[..], tag), true, 2
    {
      hide Add, View, Held, HitHeld, Sound, Follows, Shape, MarksNow, Closed, Live, Flows, SlotsIn, Marked, Backtrack, UpTo, Addresses;
      Successors(pc);
      ghost var caps := cap.vector;
      if code[pc].Save? {
        var cap' := SaveSlot(l, cap, code[pc].group, pos, rest);
        AddNext(code, s, pos, marks, pc, caps, eager, pc + 1, cap'.vector);
        hit := AddThread(l, pc + 1, cap', s, pos, eager, rest);
      } else if code[pc].Jmp? || (code[pc].Check? && Holds(code[pc].assertion, s, pos)) {
        var q := if code[pc].Jmp? then code[pc].x else pc + 1;
        AddNext(code, s, pos, marks, pc, caps, eager, q, caps);
        hit := AddThread(l, q, cap, s, pos, eager, rest);
      } else {
        AddEnd(code, s, pos, marks, pc, caps, eager);
        hit := EndBranch(l, pc, cap, eager, rest);
      }
    }

    lemma IsMarked(pc: nat)
      requires Shape() && pc < |code|
      ensures tags.Length == |code| && (tags[pc] == tag <==> pc in MarksNow())
    {}

    lemma Successors(pc: nat)
      requires Shape() && Live(code, pc)
      ensures match code[pc]
              case Match(_) => true
              case Jmp(x) => Live(code, x)
              case Split(x, y) => Live(code, x) && Live(code, y)
              case Save(g) => Live(code, pc + 1) && g < slots
              case _ => Live(code, pc + 1)
      ensures pc < |code| && (code[pc].Split? ==> code[pc].y < |code|)
    {
      assert forall q: nat :: Flows(code, pc, q) ==> Live(code, q);
      if code[pc].Jmp? {
        assert Flows(code, pc, code[pc].x);
      } else if code[pc].Split? {
        assert Flows(code, pc, code[pc].x) && Flows(code, pc, code[pc].y);
      } else if !code[pc].Match? {
        assert Flows(code, pc, pc + 1);
      }
    }

    /** A check that fails, a thread to queue, or a hit. */
    method EndBranch(l: Queue, pc: nat, cap: Capture, eager: bool, ghost rest: Holders) returns (hit: Capture?)
      requires pc < |code| && (IsStop(code[pc]) || code[pc].Check?)
      requires Sound(rest + Held(l.items) + multiset{cap})
      modifies l, cap`regexId
      ensures Sound(rest + Held(l.items) + HitHeld(hit))
      ensures eager && hit == null ==> cap.regexId == old(cap.regexId)
      ensures var r := if code[pc].Check? then Closure(MarksNow(), [], None)
                       else if code[pc].Match? && eager then Closure(MarksNow(), [], Some(Hit(cap.vector, code[pc].regexId)))
                       else Closure(MarksNow(), [Thread(pc, cap.vector)], None);
              Follows(r, MarksNow(), HitOf(hit), old(View(l.items)), View(l.items))
    {
      hide View, Held, Sound, Follows, MarksNow;
      if code[pc].Check? {
        hit := Forget(l, cap, rest);
      } else {
        if code[pc].Match? {
          SetRegexId(l, cap, code[pc].regexId, rest);
        }
        if code[pc].Match? && eager {
          hit := Report(l, cap, code[pc].regexId, rest);
        } else {
          hit := Enqueue(l, pc, cap, rest);
        }
      }
    }

    /** A branch that ends here; its reference to `cap` is lost. */
    method Forget(l: Queue, cap: Capture, ghost rest: Holders) returns (hit: Capture?)
      requires Sound(rest + Held(l.items) + multiset{cap})
      ensures hit == null && Sound(rest + Held(l.items) + HitHeld(hit))
      ensures Follows(Closure(MarksNow(), [], None), MarksNow(), HitOf(hit), View(l.items), View(l.items))
    {
      hit := null;
      assert HitHeld(null) == multiset{};
      pool.Fewer(rest + Held(l.items) + multiset{cap}, rest + Held(l.items));
      assert rest + Held(l.items) + HitHeld(null) == rest + Held(l.items);
    }

    method SetRegexId(l: Queue, cap: Capture, id: nat, ghost rest: Holders)
      requires Sound(rest + Held(l.items) + multiset{cap})
      modifies cap`regexId
      ensures cap.regexId == id && View(l.items) == old(View(l.items))
      ensures Sound(rest + Held(l.items) + multiset{cap})
    {
      cap.regexId := id;
      ViewKept(l.items);
    }

    /** An eager closure has reached MATCH. */
    method Report(l: Queue, cap: Capture, id: nat, ghost rest: Holders) returns (hit: Capture?)
      requires Sound(rest + Held(l.items) + multiset{cap})
      requires cap.regexId == id
      ensures hit == cap && Sound(rest + Held(l.items) + HitHeld(hit))
      ensures Follows(Closure(MarksNow(), [], Some(Hit(cap.vector, id))), MarksNow(), HitOf(hit), View(l.items), View(l.items))
    {
      hit := cap;
    }

    method SaveSlot(l: Queue, cap: Capture, group: nat, pos: nat, ghost rest: Holders) returns (r: Capture)
      requires Sound(rest + Held(l.items) + multiset{cap}) && group < slots
      modifies pool, pool.all
      ensures Sound(rest + Held(l.items) + multiset{r})
      ensures r.vector == Put(old(cap.vector), group, pos) && View(l.items) == old(View(l.items))
      ensures forall c <- old(pool.all) :: c in rest ==> c.vector == old(c.vector)
      ensures (r == cap || r !in rest) && forall c <- old(pool.all) :: c.regexId == old(c.regexId)
      ensures old(pool.all) <= pool.all && fresh(pool.all - old(pool.all)) && r in pool.all
    {
      HeldAll(l.items);
      assert cap in rest + Held(l.items) + multiset{cap};
      r := pool.Update(cap, group, pos, rest + Held(l.items));
      ViewKept(l.items);
    }

    method Enqueue(l: Queue, pc: nat, cap: Capture, ghost rest: Holders) returns (hit: Capture?)
      requires Sound(rest + Held(l.items) + multiset{cap})
      modifies l
      ensures hit == null && Sound(rest + Held(l.items) + HitHeld(hit))
      ensures Follows(Closure(MarksNow(), [Thread(pc, cap.vector)], None), MarksNow(), HitOf(hit), old(View(l.items)), View(l.items))
    {
      hit := null;
      HeldOne(l.items, Node(pc, cap));
      assert rest + (Held(l.items) + multiset{cap}) + HitHeld(null) == rest + Held(l.items) + multiset{cap};
      l.items := l.items + [Node(pc, cap)];
      assert l.items[..|l.items| - 1] == old(l.items);
    }

    /** Both branches of the split at `pc`, one after the other. */
    method AddBranches(l: Queue, pc: nat, cap: Capture, s: seq<Byte>, pos: nat, eager: bool, ghost rest: Holders)
      returns (hit: Capture?)
      requires Shape() && Live(code, pc) && pos <= |s| && cap in pool.all && code[pc].Split? && pc in MarksNow()
      requires Sound(rest + Held(l.items) + multiset{cap})
      modifies `seenStart, tags, l, pool, pool.all
      ensures var a := Add(code, s, pos, old(MarksNow()), code[pc].x, old(cap.vector), eager);
              var b := Add(code, s, pos, a.marked, code[pc].y, old(cap.vector), eager);
              Follows(if a.done.Some? then a else Closure(b.marked, a.threads + b.threads, b.done),
                      MarksNow(), HitOf(hit), old(View(l.items)), View(l.items))
      ensures forall p :: 0 <= p < tags.Length ==> tags[p] == old(tags[p]) || tags[p] == tag
      ensures SeenFits(code, old(seenStart), old(MarksNow()), seenStart, MarksNow())
      ensures Sound(rest + Held(l.items) + HitHeld(hit))
      ensures forall c <- old(pool.all) :: c in rest ==> c.vector == old(c.vector)
      ensures forall c <- old(pool.all) :: c in rest && c != cap ==> c.regexId == old(c.regexId)
      ensures eager && hit == null ==> forall c <- old(pool.all) :: c.regexId == old(c.regexId)
      ensures old(pool.all) <= pool.all && fresh(pool.all - old(pool.all))
      decreases Unmarked(tags[..], tag), true, 3
    {
      hide Add, View, Held, Sound, Shape, MarksNow, Closed, Live, Flows, SlotsIn, Marked, Backtrack, UpTo, Addresses;
      Successors(pc);
      ghost var m0, v0, caps := MarksNow(), View(l.items), cap.vector;
      hit := AddFirstBranch(l, pc, cap, s, pos, eager, rest);
      if hit == null {
        ghost var m1, v1 := MarksNow(), View(l.items);
        hit := AddThread(l, code[pc].y, cap, s, pos, eager, rest);
        ghost var a := Add(code, s, pos, m0, code[pc].x, caps, eager);
        FollowsBoth(a, Add(code, s, pos, a.marked, code[pc].y, caps, eager), m1, MarksNow(), HitOf(hit), v0, v1, View(l.items));
      }
    }

    /** The first branch of the split at `pc`, with a reference kept back for the second. */
    method AddFirstBranch(l: Queue, pc: nat, cap: Capture, s: seq<Byte>, pos: nat, eager: bool, ghost rest: Holders)
      returns (hit: Capture?)
      requires Shape() && Live(code, pc) && pos <= |s| && cap in pool.all && code[pc].Split? && pc in MarksNow()
      requires Sound(rest + Held(l.items) + multiset{cap})
      modifies `seenStart, tags, l, pool, pool.all
      ensures Follows(Add(code, s, pos, old(MarksNow()), code[pc].x, old(cap.vector), eager),
                      MarksNow(), HitOf(hit), old(View(l.items)), View(l.items))
      ensures forall p :: 0 <= p < tags.Length ==> tags[p] == old(tags[p]) || tags[p] == tag
      ensures SeenFits(code, old(seenStart), old(MarksNow()), seenStart, MarksNow())
      ensures Sound(rest + Held(l.items) + if hit == null then multiset{cap} else multiset{hit})
      ensures forall c <- old(pool.all) :: c in rest || (hit == null && c == cap) ==> c.vector == old(c.vector)
      ensures forall c <- old(pool.all) :: c in rest && c != cap ==> c.regexId == old(c.regexId)
      ensures eager && hit == null ==> forall c <- old(pool.all) :: c.regexId == old(c.regexId)
      ensures old(pool.all) <= pool.all && fresh(pool.all - old(pool.all))
      decreases Unmarked(tags[..], tag), true, 2
    {
      hide *;
      Successors(pc);
      Share(l, cap, rest);
      hit := AddThread(l, code[pc].x, cap, s, pos, eager, rest + multiset{cap});
      if hit != null {
        Unshare(l, cap, hit, rest);
      } else {
        NowOurs(l, cap, rest);
      }
    }

    /** A second reference to `cap`, kept for the branch to come. */
    method Share(l: Queue, cap: Capture, ghost rest: Holders)
      requires Sound(rest + Held(l.items) + multiset{cap})
      modifies cap`refs
      ensures Sound(rest + multiset{cap} + Held(l.items) + multiset{cap})
      ensures View(l.items) == old(View(l.items))
    {
      ghost var holders := rest + Held(l.items) + multiset{cap};
      pool.IncrRef(cap, holders);
      ViewKept(l.items);
      assert rest + multiset{cap} + Held(l.items) + multiset{cap} == holders + multiset{cap};
    }

    /** The branch to come is not needed any more. */
    method Unshare(l: Queue, cap: Capture, hit: Capture, ghost rest: Holders)
      requires Sound(rest + multiset{cap} + Held(l.items) + HitHeld(hit))
      modifies cap`refs
      ensures Sound(rest + Held(l.items) + multiset{hit})
      ensures View(l.items) == old(View(l.items)) && HitOf(hit) == old(HitOf(hit))
    {
      ghost var holders := rest + Held(l.items) + multiset{hit};
      assert rest + multiset{cap} + Held(l.items) + HitHeld(hit) == holders + multiset{cap};
      pool.DropRef(cap, holders);
      ViewKept(l.items);
    }

    lemma NowOurs(l: Queue, cap: Capture, rest: Holders)
      requires Sound(rest + multiset{cap} + Held(l.items) + HitHeld(null))
      ensures Sound(rest + Held(l.items) + multiset{cap})
    {
      assert rest + multiset{cap} + Held(l.items) + HitHeld(null) == rest + Held(l.items) + multiset{cap};
    }

    // ---------- one position ----------

    method Pop(l: Queue, ghost rest: Holders) returns (t: Node)
      requires l.items != [] && Sound(rest + Held(l.items))
      modifies l
      ensures t == old(l.items[0]) && l.items == old(l.items[1..])
      ensures Sound(rest + Held(l.items) + multiset{t.capture}) && t.capture in pool.all
      ensures old(View(l.items)) == [Thread(t.pc, t.capture.vector)] + View(l.items)
    {
      hide Sound, Held;
      t := l.items[0];
      HeldFirst(l.items);
      l.items := l.items[1..];
      assert rest + (multiset{t.capture} + Held(l.items)) == rest + Held(l.items) + multiset{t.capture};
      InAll(t.capture, rest + Held(l.items));
    }

    method Release(cap: Capture, ghost rest: Holders)
      requires Sound(rest + multiset{cap})
      modifies pool`free, cap`refs
      ensures Sound(rest) && pool.all == old(pool.all)
    {
      assert cap in rest + multiset{cap};
      pool.DecrRef(cap, rest);
    }

    /** Releases every thread of a list. */
    method Clear(l: Queue, ghost rest: Holders)
      requires Sound(rest + Held(l.items))
      modifies l, pool`free, pool.all
      ensures l.items == [] && Sound(rest) && pool.all == old(pool.all)
      ensures forall c <- pool.all :: c.vector == old(c.vector) && c.regexId == old(c.regexId)
    {
      hide Sound, Held, View;
      while l.items != []
        invariant Sound(rest + Held(l.items)) && pool.all == old(pool.all)
        invariant forall c <- pool.all :: c.vector == old(c.vector) && c.regexId == old(c.regexId)
        decreases |l.items|
      {
        var t := Pop(l, rest);
        Release(t.capture, rest + Held(l.items));
      }
      HeldNone(rest);
    }

    /** One thread, already taken off `clist`, is tried on the byte at `sp`. */
    method Advance(t: Node, nlist: Queue, s: seq<Byte>, sp: nat, ghost rest: Holders) returns (hit: Capture?)
      requires Shape() && sp <= |s| && Live(code, t.pc) && t.capture in pool.all
      requires Sound(rest + Held(nlist.items) + multiset{t.capture})
      modifies `seenStart, tags, nlist, pool, pool.all
      ensures Follows(OneThread(code, s, sp, Thread(t.pc, old(t.capture.vector)), old(MarksNow())), MarksNow(), HitOf(hit),
                      old(View(nlist.items)), View(nlist.items))
      ensures forall p :: 0 <= p < tags.Length ==> tags[p] == old(tags[p]) || tags[p] == tag
      ensures SeenFits(code, old(seenStart), old(MarksNow()), seenStart, MarksNow())
      ensures Sound(rest + Held(nlist.items) + HitHeld(hit))
      ensures forall c <- old(pool.all) :: c in rest ==> c.vector == old(c.vector)
      ensures hit == null ==> forall c <- old(pool.all) :: c.regexId == old(c.regexId)
      ensures old(pool.all) <= pool.all && fresh(pool.all - old(pool.all))
    {
      hide Add, View, Held, Sound, Shape, MarksNow, Closed, Live, Flows, SlotsIn, Marked, Backtrack, UpTo, Addresses;
      Successors(t.pc);
      if code[t.pc].Match? {
        SetRegexId(nlist, t.capture, code[t.pc].regexId, rest);
        hit := Report(nlist, t.capture, code[t.pc].regexId, rest);
      } else if sp < |s| && Eats(code[t.pc], s[sp]) {
        hit := AddThread(nlist, t.pc + 1, t.capture, s, sp + 1, true, rest);
      } else {
        Release(t.capture, rest + Held(nlist.items));
        ViewKept(nlist.items);
        hit := null;
        HeldNoHit(rest + Held(nlist.items));
      }
    }

    /** Takes the first thread off `clist` and lets it advance. */
    method TakeThread(clist: Queue, nlist: Queue, s: seq<Byte>, sp: nat, m: Capture?) returns (hit: Capture?)
      requires Shape() && sp <= |s| && clist != nlist && clist.items != [] && Live(code, clist.items[0].pc)
      requires Sound(Held(clist.items) + HitHeld(m) + Held(nlist.items))
      modifies `seenStart, tags, clist, nlist, pool, pool.all
      ensures View(clist.items) == old(View(clist.items))[1..] && clist.items == old(clist.items)[1..]
      ensures Follows(OneThread(code, s, sp, old(View(clist.items))[0], old(MarksNow())), MarksNow(), HitOf(hit),
                      old(View(nlist.items)), View(nlist.items))
      ensures Sound(Held(clist.items) + HitHeld(m) + Held(nlist.items) + HitHeld(hit))
      ensures hit == null ==> HitOf(m) == old(HitOf(m))
      ensures forall p :: 0 <= p < tags.Length ==> tags[p] == old(tags[p]) || tags[p] == tag
      ensures SeenFits(code, old(seenStart), old(MarksNow()), seenStart, MarksNow())
      ensures old(pool.all) <= pool.all && fresh(pool.all - old(pool.all))
    {
      hide Sound, Held, View, MarksNow, Shape, OneThread, Closed, Live, Add, Follows;
      ghost var others := HitHeld(m) + Held(nlist.items);
      assert Held(clist.items) + HitHeld(m) + Held(nlist.items) == others + Held(clist.items);
      var t := Pop(clist, others);
      ghost var rest := Held(clist.items) + HitHeld(m);
      assert others + Held(clist.items) + multiset{t.capture} == rest + Held(nlist.items) + multiset{t.capture};
      RestOwned(rest + Held(nlist.items) + multiset{t.capture}, clist.items, m);
      label L:
      hit := Advance(t, nlist, s, sp, rest);
      ViewKept@L(clist.items);
    }

    /** The first thread of `clist` is taken off and tried on the byte at `sp`. */
    method TryThread(clist: Queue, nlist: Queue, s: seq<Byte>, sp: nat, m: Capture?, ghost whole: StepResult) returns (hit: Capture?)
      requires Shape() && sp <= |s| && clist != nlist && clist.items != [] && Live(code, clist.items[0].pc)
      requires AllLive(code, View(clist.items)) && AllLive(code, View(nlist.items))
      requires Sound(Held(clist.items) + HitHeld(m) + Held(nlist.items))
      requires whole == StepLeft(clist, nlist, s, sp)
      modifies `seenStart, tags, clist, nlist, pool, pool.all
      ensures clist.items == old(clist.items)[1..]
      ensures AllLive(code, View(clist.items)) && AllLive(code, View(nlist.items))
      ensures if hit == null then HitOf(m) == old(HitOf(m)) && whole == StepLeft(clist, nlist, s, sp)
              else whole == StepResult(View(nlist.items), HitOf(hit), MarksNow())
      ensures Sound(Held(clist.items) + HitHeld(m) + Held(nlist.items) + HitHeld(hit))
      ensures hit == null ==> Sound(Held(clist.items) + HitHeld(m) + Held(nlist.items))
      ensures forall p :: 0 <= p < tags.Length ==> tags[p] == old(tags[p]) || tags[p] == tag
      ensures SeenFits(code, old(seenStart), old(MarksNow()), seenStart, MarksNow())
      ensures old(pool.all) <= pool.all && fresh(pool.all - old(pool.all))
    {
      hide *;
      ghost var built, left, marks := View(nlist.items), View(clist.items), MarksNow();
      assert whole == After(built, StepThreads(code, s, sp, left, marks)) by {
        StepLeftIs(clist, nlist, s, sp);
      }
      LeftNonempty(clist.items);
      hit := TakeThread(clist, nlist, s, sp, m);
      ThreadTried(built, left, marks, clist, nlist, s, sp, hit);
      if hit == null {
        HeldNoHit(Held(clist.items) + HitHeld(m) + Held(nlist.items));
      }
    }

    lemma StepLeftIs(clist: Queue, nlist: Queue, s: seq<Byte>, sp: nat)
      requires sp <= |s|
      ensures StepLeft(clist, nlist, s, sp) == After(View(nlist.items), StepThreads(code, s, sp, View(clist.items), MarksNow()))
    {}

    lemma LeftNonempty(l: seq<Node>)
      ensures l != [] <==> View(l) != []
    {}

    lemma ThreadTried(built: seq<Thread>, left: seq<Thread>, marks: set<nat>, clist: Queue, nlist: Queue, s: seq<Byte>, sp: nat, hit: Capture?)
      requires Shape() && sp <= |s| && left != [] && AllLive(code, left) && AllLive(code, built)
      requires View(clist.items) == left[1..]
      requires Follows(OneThread(code, s, sp, left[0], marks), MarksNow(), HitOf(hit), built, View(nlist.items))
      ensures After(built, StepThreads(code, s, sp, left, marks))
              == if hit == null then StepLeft(clist, nlist, s, sp) else StepResult(View(nlist.items), HitOf(hit), MarksNow())
      ensures AllLive(code, View(clist.items)) && AllLive(code, View(nlist.items))
    {
      hide StepThreads, OneThread, AllLive, View, MarksNow, After;
      StepOneMore(code, s, sp, left, marks, built, View(nlist.items));
    }

    lemma RestOwned(all: Holders, l: seq<Node>, m: Capture?)
      requires Sound(all) && Held(l) + HitHeld(m) <= all
      ensures m != null ==> m in pool.all && m in Held(l) + HitHeld(m)
      ensures forall i :: 0 <= i < |l| ==> l[i].capture in pool.all && l[i].capture in Held(l) + HitHeld(m)
    {
      HeldAll(l);
      forall c | c in Held(l) + HitHeld(m)
        ensures c in all
      {
        assert all[c] >= (Held(l) + HitHeld(m))[c];
      }
    }

    /** One position of the input: the threads of `clist` in order of priority. */
    method RunQueue(clist: Queue, nlist: Queue, s: seq<Byte>, sp: nat, matched: Capture?) returns (m: Capture?)
      requires Shape() && sp <= |s| && clist != nlist && nlist.items == [] && MarksNow() == {}
      requires AllLive(code, View(clist.items))
      requires Sound(Held(clist.items) + HitHeld(matched) + Held(nlist.items))
      modifies `seenStart, tags, clist, nlist, pool, pool.all
      ensures clist.items == [] && Sound(Held(nlist.items) + HitHeld(m))
      ensures var step := StepThreads(code, s, sp, old(View(clist.items)), {});
              && View(nlist.items) == step.next && MarksNow() == step.marked
              && HitOf(m) == OrElse(step.hit, old(HitOf(matched)))
      ensures AllLive(code, View(nlist.items))
      ensures forall p :: 0 <= p < tags.Length ==> tags[p] == old(tags[p]) || tags[p] == tag
      ensures SeenFits(code, old(seenStart), old(MarksNow()), seenStart, MarksNow())
      ensures old(pool.all) <= pool.all && fresh(pool.all - old(pool.all))
    {
      hide *;
      ghost var whole, hit0 := StepLeft(clist, nlist, s, sp), HitOf(matched);
      StepBegins(clist, nlist, s, sp);
      SeenSame(code, seenStart, MarksNow());
      m := matched;
      while clist.items != []
        invariant Sound(Held(clist.items) + HitHeld(m) + Held(nlist.items))
        invariant m == matched && HitOf(m) == hit0
        invariant AllLive(code, View(clist.items)) && AllLive(code, View(nlist.items))
        invariant whole == StepLeft(clist, nlist, s, sp)
        invariant SeenFits(code, old(seenStart), old(MarksNow()), seenStart, MarksNow())
        invariant forall p :: 0 <= p < tags.Length ==> tags[p] == old(tags[p]) || tags[p] == tag
        invariant old(pool.all) <= pool.all && fresh(pool.all - old(pool.all))
        decreases |clist.items|
      {
        HeadLive(clist.items);
        ghost var seen, marks := seenStart, MarksNow();
        var hit := TryThread(clist, nlist, s, sp, m, whole);
        SeenThen(code, old(seenStart), old(MarksNow()), seen, marks, seenStart, MarksNow());
        if hit != null {
          TakeHit(clist, nlist, m, hit);
          m := hit;
          HitTaken(whole.hit, hit0, hit);
          return;
        }
      }
      StepEnds(nlist, s, sp, m, clist);
    }

    /** The step whose first threads have been tried: what is on `nlist` and what is to come. */
    ghost function StepLeft(clist: Queue, nlist: Queue, s: seq<Byte>, sp: nat): StepResult
      requires sp <= |s|
      reads clist, nlist, `tag, tags, (set t <- clist.items :: t.capture), (set t <- nlist.items :: t.capture)
    {
      After(View(nlist.items), StepThreads(code, s, sp, View(clist.items), MarksNow()))
    }

    lemma StepBegins(clist: Queue, nlist: Queue, s: seq<Byte>, sp: nat)
      requires sp <= |s| && nlist.items == [] && MarksNow() == {}
      ensures StepLeft(clist, nlist, s, sp) == StepThreads(code, s, sp, View(clist.items), {})
      ensures AllLive(code, View(nlist.items))
    {
      var r := StepThreads(code, s, sp, View(clist.items), {});
      assert [] + r.next == r.next;
    }

    lemma StepEnds(nlist: Queue, s: seq<Byte>, sp: nat, m: Capture?, clist: Queue)
      requires sp <= |s| && clist.items == [] && Sound(Held(clist.items) + HitHeld(m) + Held(nlist.items))
      ensures StepLeft(clist, nlist, s, sp) == StepResult(View(nlist.items), None, MarksNow())
      ensures Sound(Held(nlist.items) + HitHeld(m)) && OrElse(None, HitOf(m)) == HitOf(m)
    {
      assert Held(clist.items) + HitHeld(m) + Held(nlist.items) == Held(nlist.items) + HitHeld(m);
      assert View(nlist.items) + [] == View(nlist.items);
    }

    lemma HitTaken(found: Option<Hit>, before: Option<Hit>, hit: Capture)
      requires found == HitOf(hit)
      ensures OrElse(found, before) == HitOf(hit)
    {}

    lemma HeadLive(l: seq<Node>)
      requires l != [] && AllLive(code, View(l))
      ensures View(l) != [] && Live(code, l[0].pc)
    {
      assert View(l)[0] in View(l);
    }

    /** A hit replaces an earlier one and cuts off the threads of lower priority. */
    method TakeHit(clist: Queue, nlist: Queue, matched: Capture?, hit: Capture)
      requires clist != nlist && Sound(Held(clist.items) + HitHeld(matched) + Held(nlist.items) + HitHeld(hit))
      modifies clist, pool`free, pool.all
      ensures clist.items == [] && Sound(Held(nlist.items) + HitHeld(hit)) && pool.all == old(pool.all)
      ensures View(nlist.items) == old(View(nlist.items)) && HitOf(hit) == old(HitOf(hit))
    {
      hide Sound, Held, View;
      ghost var keep := Held(nlist.items) + HitHeld(hit);
      ghost var all := Held(clist.items) + HitHeld(matched) + Held(nlist.items) + HitHeld(hit);
      AllOwned(all, nlist.items, hit);
      if matched != null {
        assert all == keep + Held(clist.items) + multiset{matched};
        InAll(matched, keep + Held(clist.items));
        Release(matched, keep + Held(clist.items));
      } else {
        assert all == keep + Held(clist.items);
      }
      Clear(clist, keep);
      ViewKept(nlist.items);
    }

    lemma AllOwned(all: Holders, l: seq<Node>, hit: Capture)
      requires Sound(all) && Held(l) + multiset{hit} <= all
      ensures hit in pool.all && forall i :: 0 <= i < |l| ==> l[i].capture in pool.all
    {
      HeldAll(l);
      assert hit in Held(l) + multiset{hit};
      forall i | 0 <= i < |l|
        ensures l[i].capture in all
      {
        assert all[l[i].capture] >= (Held(l) + multiset{hit})[l[i].capture];
      }
      assert all[hit] >= (Held(l) + multiset{hit})[hit];
    }

    lemma InAll(cap: Capture, rest: Holders)
      requires Sound(rest + multiset{cap})
      ensures cap in pool.all && |cap.vector| == slots
    {
      assert cap in rest + multiset{cap};
    }
  }

  lemma HeldNone(rest: Holders)
    ensures rest + Held([]) == rest
  {}

  lemma HeldNoHit(rest: Holders)
    ensures rest + HitHeld(null) == rest
  {}

  lemma HeldFirst(l: seq<Node>)
    requires l != []
    ensures Held(l) == multiset{l[0].capture} + Held(l[1..])
  {
    assert l == [l[0]] + l[1..];
    HeldConcat([l[0]], l[1..]);
    assert Held([l[0]]) == multiset{l[0].capture};
  }
}
