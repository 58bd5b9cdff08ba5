/** The mark and sweep collector, over the nodes recorded since the program started. */
module Collecting {
  import opened Lists
  import opened Heap
  import opened Marking
  import opened Liveness
  import opened Store

  /** The nodes of a list that are not in `gone`, in order. */
  ghost function Without(l: seq<KonBase>, gone: set<KonBase>): (r: seq<KonBase>)
    ensures |r| <= |l| && (forall n <- r :: n in l && n !in gone) && (forall n <- l :: n !in gone ==> n in r)
  {
    if l == [] then []
    else Without(l[..|l| - 1], gone) + if l[|l| - 1] in gone then [] else [l[|l| - 1]]
  }

  ghost function Whites(heap: set<KonBase>): set<KonBase>
    reads heap`color
  {
    set n <- heap | n.color == White
  }

  /** The first `k` nodes of the old store have been dealt with. */
  ghost predicate Copied(all: seq<KonBase>, k: nat, whites: set<KonBase>, segs: Segments, sizes: seq<nat>) {
    k <= |all| && Packed(segs, sizes) && Flatten(segs) == Without(all[..k], whites)
  }

  lemma CopyRoom(all: seq<KonBase>, k: nat, whites: set<KonBase>, segs: Segments, sizes: seq<nat>)
    requires Copied(all, k, whites, segs, sizes) && k < |all| <= Sum(sizes)
    ensures |Flatten(segs)| < Sum(sizes)
  {}

  lemma CopyStep(all: seq<KonBase>, k: nat, whites: set<KonBase>, segs: Segments, r: Segments, sizes: seq<nat>)
    requires Copied(all, k, whites, segs, sizes) && k < |all| && Packed(r, sizes)
    requires Flatten(r) == if all[k] in whites then Flatten(segs) else Flatten(segs) + [all[k]]
    ensures Copied(all, k + 1, whites, r, sizes)
  {
    assert all[..k + 1][..k] == all[..k];
  }

  lemma CopyBegins(all: seq<KonBase>, whites: set<KonBase>, segs: Segments, sizes: seq<nat>)
    requires |sizes| > 0
    ensures Copied(all, 0, whites, [[]], sizes) && Flatten(segs[..0]) == []
  {
    var empty: Segments := [[]];
    assert empty[..0] == [];
  }

  lemma CopyEnds(all: seq<KonBase>, whites: set<KonBase>, segs: Segments, r: Segments, sizes: seq<nat>)
    requires all == Flatten(segs) && Packed(segs, sizes) && Copied(all, |all|, whites, r, sizes)
    ensures Packed(r, sizes) && Flatten(r) == Without(all, whites) && |r| <= |segs|
  {
    assert all[..|all|] == all;
    FewerNodesFewerSegments(r, segs, sizes);
  }

  lemma Apart(a: seq<KonBase>, b: seq<KonBase>)
    requires NoRepeats(a + b)
    ensures NoRepeats(a) && NoRepeats(b) && forall n <- a :: n !in b
  {
    forall i, j | 0 <= i < |a| && 0 <= j < |b|
      ensures a[i] != b[j]
    {
      assert (a + b)[i] != (a + b)[|a| + j];
    }
    forall i, j | 0 <= i < j < |a|
      ensures a[i] != a[j]
    {
      assert (a + b)[i] != (a + b)[j];
    }
    forall i, j | 0 <= i < j < |b|
      ensures b[i] != b[j]
    {
      assert (a + b)[|a| + i] != (a + b)[|a| + j];
    }
  }

  lemma {:induction false} WithoutSame(l: seq<KonBase>, a: set<KonBase>, b: set<KonBase>)
    requires forall n <- l :: n in a <==> n in b
    ensures Without(l, a) == Without(l, b)
  {
    if l != [] {
      WithoutSame(l[..|l| - 1], a, b);
    }
  }

  lemma Together(a: seq<KonBase>, b: seq<KonBase>)
    requires NoRepeats(a) && NoRepeats(b) && forall n <- a :: n !in b
    ensures NoRepeats(a + b)
  {
    var l := a + b;
    forall i, j | 0 <= i < j < |l|
      ensures l[i] != l[j]
    {
      assert i < |a| ==> l[i] == a[i] && l[i] in a;
      assert j >= |a| ==> l[j] == b[j - |a|] && l[j] in b;
    }
  }

  lemma {:induction false} WithoutDistinct(l: seq<KonBase>, gone: set<KonBase>)
    requires NoRepeats(l)
    ensures NoRepeats(Without(l, gone))
    decreases |l|
  {
    if l != [] {
      var n := |l| - 1;
      WithoutDistinct(l[..n], gone);
      NotYet(l, n);
      Together(Without(l[..n], gone), [l[n]]);
    }
  }

  lemma NotYet(all: seq<KonBase>, k: nat)
    requires NoRepeats(all) && k < |all|
    ensures all[k] !in all[..k] && all[..k + 1] == all[..k] + [all[k]]
  {}

  lemma AreWhite(heap: set<KonBase>)
    ensures forall n <- heap :: n in Whites(heap) <==> n.color == White
  {}

  lemma {:induction false} FlattenAt(segs: Segments, i: nat, j: nat)
    requires i < |segs| && j < |segs[i]|
    ensures |Flatten(segs[..i])| + j < |Flatten(segs)| && Flatten(segs)[|Flatten(segs[..i])| + j] == segs[i][j]
    decreases |segs|
  {
    var n := |segs| - 1;
    if i < n {
      FlattenAt(segs[..n], i, j);
      assert segs[..n][..i] == segs[..i];
    }
  }

  lemma {:induction false} FlattenTo(segs: Segments, i: nat)
    requires i < |segs|
    ensures |Flatten(segs[..i + 1])| == |Flatten(segs[..i])| + |segs[i]| <= |Flatten(segs)|
    ensures segs[..|segs|] == segs
    decreases |segs|
  {
    assert segs[..i + 1][..i] == segs[..i];
    var n := |segs| - 1;
    if i < n {
      FlattenTo(segs[..n], i);
      assert segs[..n][..i] == segs[..i] && segs[..n][..i + 1] == segs[..i + 1];
    } else {
      assert segs[..i + 1] == segs;
    }
  }

  function Pointers(l: seq<KonBase>): seq<Val> {
    seq(|l|, i requires 0 <= i < |l| => Ptr(l[i]))
  }

  /** The roots of a collection: the code, the nodes not yet stored, the dispatchers, and the
      continuation. */
  function RootList(code: Val, recent: seq<KonBase>, dispatchers: seq<Val>, cont: Val): seq<Val> {
    (if code.Ptr? then [code] else []) + Pointers(recent) + dispatchers + (if cont.Ptr? then [cont] else [])
  }

  lemma FewerRoots(code: Val, recent: seq<KonBase>, dispatchers: seq<Val>, cont: Val)
    ensures forall v <- RootList(code, [], dispatchers, cont) :: v in RootList(code, recent, dispatchers, cont)
  {}

  class KonState {
    const segmentMaxSizeVec: seq<nat>
    const maxObjCntLimit: nat
    const gcThreshold: int
    var heapPtrSegs: Segments
    var writeBarrierGen: seq<KonBase>
    var markTaskQueue: seq<Val>
    var currCode: Val
    var currCont: Val
    var msgDispatchers: seq<Val>
    var needGc: bool
    ghost var heap: set<KonBase>

    constructor ()
      ensures Clean() && heap == {} && fresh(this)
    {
      var sizes, limit, threshold := InitGc();
      segmentMaxSizeVec, maxObjCntLimit, gcThreshold := sizes, limit, threshold;
      heapPtrSegs, writeBarrierGen, markTaskQueue := [[]], [], [];
      currCode, currCont, msgDispatchers := Immediate, Immediate, [];
      needGc, heap := false, {};
      new;
    }

    /** The store and the capacities fit together. */
    ghost predicate Shape()
      reads `heapPtrSegs
    {
      Packed(heapPtrSegs, segmentMaxSizeVec) && Positive(segmentMaxSizeVec) && maxObjCntLimit == Sum(segmentMaxSizeVec)
      && gcThreshold <= maxObjCntLimit
    }

    ghost function Recorded(): seq<KonBase>
      reads `heapPtrSegs, `writeBarrierGen
    {
      Flatten(heapPtrSegs) + writeBarrierGen
    }

    /** What a collection starts from, in the order in which it is queued. */
    function Roots(): seq<Val>
      reads `currCode, `writeBarrierGen, `msgDispatchers, `currCont
    {
      RootList(currCode, writeBarrierGen, msgDispatchers, currCont)
    }

    /** What a program starts from: the code it runs, the continuation it goes on with, the nodes made
        since it was switched to, and the message dispatchers. */
    ghost predicate IsRoot(n: KonBase)
      reads `currCode, `writeBarrierGen, `msgDispatchers, `currCont
    {
      currCode == Ptr(n) || currCont == Ptr(n) || n in writeBarrierGen || Ptr(n) in msgDispatchers
    }

    ghost function RootNodes(): set<KonBase>
      reads `currCode, `writeBarrierGen, `msgDispatchers, `currCont, `heap
    {
      set n <- heap | IsRoot(n)
    }

    /** Between collections: every node is recorded exactly once, in the store (white) or in the
        write barrier list (gray). */
    ghost predicate Clean()
      reads `heapPtrSegs, `writeBarrierGen, `markTaskQueue, `currCode, `currCont, `msgDispatchers, `heap, heap
    {
      && Shape() && markTaskQueue == [] && NoRepeats(Recorded())
      && heap == (set n | n in Recorded())
      && (forall n <- Flatten(heapPtrSegs) :: n in heap && n.color == White)
      && (forall n <- writeBarrierGen :: n in heap && n.color == Gray)
      && ClosedHeap(heap) && Known(Roots(), heap)
    }

    method Push(v: Val)
      modifies `markTaskQueue
      ensures markTaskQueue == old(markTaskQueue) + [v]
    {
      markTaskQueue := markTaskQueue + [v];
    }

    method PushAll(vals: seq<Val>)
      modifies `markTaskQueue
      ensures markTaskQueue == old(markTaskQueue) + vals
    {
      for i := 0 to |vals|
        invariant markTaskQueue == old(markTaskQueue) + vals[..i]
      {
        markTaskQueue := markTaskQueue + [vals[i]];
      }
    }

    /** What is left to do of a continuation: a memo table, or up to three fields. Of the items of a
        quasi-quoted list only the rest is pushed. */
    method MarkFrame(frame: Frame)
      modifies `markTaskQueue
      ensures markTaskQueue == old(markTaskQueue) + FramePushes(frame)
    {
      match frame {
        case NativeCallback(memo) => PushAll(memo);
        case EvalClauseList(subj, restClauses) =>
          Push(subj);
          Push(restClauses);
        case EvalClauseArgs(subj, restArgList, evaledArgList) =>
          Push(subj);
          Push(restArgList);
          Push(evaledArgList);
        case QuasiListItems(restList, _) => Push(restList);
        case RestJobs(restJobs) => Push(restJobs);
      }
    }

    /** The switch on the tag of a node. */
    method PushFields(p: Payload)
      modifies `markTaskQueue
      ensures markTaskQueue == old(markTaskQueue) + Pushes(p)
    {
      match p {
        case Leaf =>
        case Pair(prev, next, body) =>
          Push(prev);
          Push(next);
          Push(body);
        case Vector(items) => PushAll(items);
        case Table(vals) => PushAll(vals);
        case Cell(core, m, table, list, next, _) =>
          Push(core);
          Push(m);
          Push(table);
          Push(list);
          if next != Immediate {
            Push(next);
          }
        case Quote(inner) => Push(inner);
        case Env(bindings, parent) =>
          PushAll(bindings);
          PushAll(bindings);
          Push(parent);
        case Accessor(isDir, dir, value, _) =>
          if isDir {
            PushAll(dir);
          } else {
            Push(value);
          }
        case MsgDispatcher(handlers) => PushAll(handlers);
        case Continuation(frame, env, cont) =>
          MarkFrame(frame);
          Push(env);
          Push(cont);
        case Procedure(native, argList, code, lexicalEnv, captureList) =>
          if !native {
            Push(argList);
            Push(code);
            Push(lexicalEnv);
            Push(captureList);
          }
      }
    }

    /** Visits a value: an open node turns black, and the values it holds are queued. */
    method MarkNode(v: Val)
      requires v.Ptr? ==> v.node in heap
      modifies `markTaskQueue, heap`color
      ensures if v.Ptr? && Markable(old(v.node.color))
              then v.node.color == Black && markTaskQueue == old(markTaskQueue) + Pushes(v.node.payload)
              else markTaskQueue == old(markTaskQueue) && (v.Ptr? ==> v.node.color == old(v.node.color))
      ensures forall n <- heap :: n.color != old(n.color) ==> v == Ptr(n)
    {
      if v.Immediate? || v.node.color == Black || v.node.color == Red {
        return;
      }
      PushFields(v.node.payload);
      v.node.color := Black;
    }

    /** Visits queued values until there are none. Exactly the open nodes that the queue leads
        to, through open nodes, turn black; no other node changes its colour. */
    method Mark()
      requires Known(markTaskQueue, heap) && ClosedHeap(heap)
      modifies `markTaskQueue, heap`color
      ensures markTaskQueue == []
      ensures forall n <- heap ::
                n.color == if n in old(Open(heap)) && Reachable(heap, old(markTaskQueue), old(Open(heap)), n) then Black else old(n.color)
    {
      hide *;
      ghost var roots, open, marked := markTaskQueue, Open(heap), {};
      OpenInHeap(heap);
      ProgressBegins(heap, roots, open);
      while markTaskQueue != []
        invariant marked <= open && Progress(heap, roots, open, marked, markTaskQueue)
        invariant forall n <- heap :: n.color == if n in marked then Black else old(n.color)
        decreases |open - marked|, |markTaskQueue|
      {
        ghost var queue, left := markTaskQueue, open - marked;
        var v := markTaskQueue[0];
        QueuedKnown(heap, roots, open, marked, queue);
        markTaskQueue := markTaskQueue[1..];
        MarkNode(v);
        if v.Ptr? && v.node in left {
          ProgressOpens(heap, roots, open, marked, queue);
          marked := marked + {v.node};
          assert open - marked == left - {v.node};
        } else {
          ProgressSkips(heap, roots, open, marked, queue);
        }
      }
      ProgressEnds(heap, roots, open, marked);
    }

    /** Queues the roots and marks. */
    method MarkPhase()
      requires markTaskQueue == [] && ClosedHeap(heap) && Known(Roots(), heap)
      modifies `markTaskQueue, heap`color
      ensures markTaskQueue == []
      ensures forall n <- heap ::
                n.color == if n in old(Open(heap)) && Reachable(heap, Roots(), old(Open(heap)), n) then Black else old(n.color)
    {
      hide *;
      QueueRoots();
      Mark();
    }

    method QueueRoots()
      requires markTaskQueue == []
      modifies `markTaskQueue
      ensures markTaskQueue == Roots()
    {
      if currCode.Ptr? {
        markTaskQueue := markTaskQueue + [currCode];
      }
      ghost var base := markTaskQueue;
      for i := 0 to |writeBarrierGen|
        invariant markTaskQueue == base + Pointers(writeBarrierGen)[..i]
      {
        markTaskQueue := markTaskQueue + [Ptr(writeBarrierGen[i])];
      }
      base := base + Pointers(writeBarrierGen);
      for i := 0 to |msgDispatchers|
        invariant markTaskQueue == base + msgDispatchers[..i]
      {
        markTaskQueue := markTaskQueue + [msgDispatchers[i]];
      }
      if currCont.Ptr? {
        markTaskQueue := markTaskQueue + [currCont];
      }
    }

    // ---------- sweep ----------

    /** Destroys a white node, copies any other. */
    method CopyNode(ghost all: seq<KonBase>, ghost k: nat, ghost whites: set<KonBase>, segs: Segments, ptr: KonBase) returns (r: Segments)
      requires k < |all| <= Sum(segmentMaxSizeVec) && ptr == all[k] && Positive(segmentMaxSizeVec)
      requires Copied(all, k, whites, segs, segmentMaxSizeVec) && (ptr.color == White <==> ptr in whites)
      modifies ptr`color
      ensures ptr.color == White && Copied(all, k + 1, whites, r, segmentMaxSizeVec)
    {
      hide Flatten, Without, Sum;
      CopyRoom(all, k, whites, segs, segmentMaxSizeVec);
      r := segs;
      if ptr.color != White {
        ptr.color := White;
        var ok, more := PushToHeapPtrSeg(segs, segmentMaxSizeVec, ptr);
        r := more;
      }
      CopyStep(all, k, whites, segs, r, segmentMaxSizeVec);
    }

    lemma ShapeFits()
      requires Shape()
      ensures |Flatten(heapPtrSegs)| <= Sum(segmentMaxSizeVec) && Positive(segmentMaxSizeVec)
      ensures Packed(heapPtrSegs, segmentMaxSizeVec) && |segmentMaxSizeVec| > 0
    {
      PackedFits(heapPtrSegs, segmentMaxSizeVec);
    }

    lemma ShapeIs()
      requires Packed(heapPtrSegs, segmentMaxSizeVec) && Positive(segmentMaxSizeVec)
      requires maxObjCntLimit == Sum(segmentMaxSizeVec) && gcThreshold <= maxObjCntLimit
      ensures Shape()
    {}

    lemma ShapeHas()
      requires Shape()
      ensures maxObjCntLimit == Sum(segmentMaxSizeVec) && gcThreshold <= maxObjCntLimit
    {}

    /** Copies the nodes that are not white to a new store and resets them to white; the white
        ones are destroyed. The limit on the number of segments cannot be reached. */
    method ResetAndCopyPtrSegList()
      requires Shape() && NoRepeats(Flatten(heapPtrSegs)) && forall n <- Flatten(heapPtrSegs) :: n in heap
      modifies `heapPtrSegs, `heap, heap`color
      ensures Shape() && Flatten(heapPtrSegs) == Without(old(Flatten(heapPtrSegs)), old(Whites(heap)))
      ensures |heapPtrSegs| <= old(|heapPtrSegs|)
      ensures heap == old(heap) - set n | n in old(Flatten(heapPtrSegs)) && n in old(Whites(heap))
      ensures forall n <- old(heap) :: n.color == if n in old(Flatten(heapPtrSegs)) then White else old(n.color)
    {
      hide *;
      ghost var all, whites := Flatten(heapPtrSegs), Whites(heap);
      ShapeFits();
      AreWhite(heap);
      var newPtrSegList: Segments := [[]];
      ghost var done: nat := 0;
      CopyBegins(all, whites, heapPtrSegs, segmentMaxSizeVec);
      for i := 0 to |heapPtrSegs|
        invariant heap == old(heap) && heapPtrSegs == old(heapPtrSegs) && all == Flatten(heapPtrSegs)
        invariant done == |Flatten(heapPtrSegs[..i])| <= |all|
        invariant Copied(all, done, whites, newPtrSegList, segmentMaxSizeVec)
        invariant forall n <- heap :: n.color == if n in all[..done] then White else old(n.color)
      {
        var segment := heapPtrSegs[i];
        FlattenTo(heapPtrSegs, i);
        for j := 0 to |segment|
          invariant heap == old(heap) && heapPtrSegs == old(heapPtrSegs) && done + |segment| <= |all|
          invariant Copied(all, done + j, whites, newPtrSegList, segmentMaxSizeVec)
          invariant forall n <- heap :: n.color == if n in all[..done + j] then White else old(n.color)
        {
          FlattenAt(heapPtrSegs, i, j);
          NotYet(all, done + j);
          newPtrSegList := CopyNode(all, done + j, whites, newPtrSegList, segment[j]);
        }
        done := done + |segment|;
      }
      assert heapPtrSegs[..|heapPtrSegs|] == heapPtrSegs && all[..|all|] == all;
      heap := heap - set n | n in all && n in whites;
      CopyEnds(all, whites, heapPtrSegs, newPtrSegList, segmentMaxSizeVec);
      ShapeHas();
      heapPtrSegs := newPtrSegList;
      ShapeIs();
    }

    method SweepPhase()
      requires Shape() && NoRepeats(Recorded()) && forall n <- Recorded() :: n in heap
      modifies `heapPtrSegs, `heap, heap`color
      ensures Shape() && Flatten(heapPtrSegs) == Without(old(Flatten(heapPtrSegs)), old(Whites(heap)))
      ensures |heapPtrSegs| <= old(|heapPtrSegs|)
      ensures heap == old(heap) - set n | n in old(Flatten(heapPtrSegs)) && n in old(Whites(heap))
      ensures forall n <- old(heap) ::
                n.color == if n in old(Flatten(heapPtrSegs)) then White else if n in writeBarrierGen then Gray else old(n.color)
    {
      hide *;
      RecordedParts();
      ghost var all, whites := Flatten(heapPtrSegs), Whites(heap);
      AreWhite(heap);
      for i := 0 to |writeBarrierGen|
        invariant heap == old(heap) && heapPtrSegs == old(heapPtrSegs)
        invariant forall n <- heap :: n.color == if n in writeBarrierGen[..i] then Gray else old(n.color)
      {
        writeBarrierGen[i].color := Gray;
      }
      assert writeBarrierGen[..|writeBarrierGen|] == writeBarrierGen;
      AreWhite(heap);
      WithoutSame(all, whites, Whites(heap));
      ResetAndCopyPtrSegList();
    }

    lemma RecordedParts()
      requires NoRepeats(Recorded())
      ensures NoRepeats(Flatten(heapPtrSegs)) && NoRepeats(writeBarrierGen) && Recorded() == Flatten(heapPtrSegs) + writeBarrierGen
      ensures forall n <- Flatten(heapPtrSegs) :: n !in writeBarrierGen && n in Recorded()
      ensures forall n <- writeBarrierGen :: n in Recorded()
    {
      Apart(Flatten(heapPtrSegs), writeBarrierGen);
    }

    /** The nodes no chain of references leads to. */
    ghost function Garbage(): set<KonBase>
      reads this, heap
    {
      set n <- heap | !Reachable(heap, Roots(), heap, n)
    }

    lemma QueuedAtFirst(n: KonBase)
      ensures IsRoot(n) <==> Ptr(n) in Roots()
    {
      if n in writeBarrierGen {
        var i :| 0 <= i < |writeBarrierGen| && writeBarrierGen[i] == n;
        assert Pointers(writeBarrierGen)[i] == Ptr(n);
      }
    }

    /** Garbage is what cannot be read from the roots, field after field. */
    lemma GarbageIsDead()
      ensures forall n <- heap :: n in Garbage() <==> !Live(heap, RootNodes(), n)
    {
      hide Reachable, Live, IsRoot, Roots;
      forall n <- heap ensures n in Garbage() <==> !Live(heap, RootNodes(), n) {
        forall m <- heap ensures m in RootNodes() <==> Ptr(m) in Roots() {
          QueuedAtFirst(m);
        }
        ReachableIsLive(heap, Roots(), RootNodes(), n);
      }
    }

    /** The items evaluated so far of a quasi-quoted list are garbage if only the continuation that
        collects them holds them. */
    lemma PendingItemsAreGarbage(c: KonBase, items: KonBase)
      requires c in heap && items in heap && c != items && currCont == Ptr(c)
      requires currCode == Immediate && writeBarrierGen == [] && msgDispatchers == []
      requires c.payload == Continuation(QuasiListItems(Immediate, Ptr(items)), Immediate, Immediate)
      ensures c !in Garbage() && items in Garbage()
    {
      var roots := RootNodes();
      assert roots == {c};
      GarbageIsDead();
      LiveRoot(heap, roots, c);
      if Live(heap, roots, items) {
        var steps: nat :| ReadIn(heap, roots, items, steps);
        OnlyItself(c, items, steps);
      }
    }

    lemma {:induction false} OnlyItself(c: KonBase, n: KonBase, steps: nat)
      requires c.payload.Continuation? && c.payload.frame.QuasiListItems? && c.payload.frame.restList == Immediate
      requires c.payload.env == Immediate && c.payload.cont == Immediate && ReadIn(heap, {c}, n, steps)
      ensures n == c
      decreases steps
    {
      if steps > 0 {
        var m :| m in heap && Holds(m, n) && ReadIn(heap, {c}, m, steps - 1);
        OnlyItself(c, m, steps - 1);
      }
    }

    lemma CleanHas()
      requires Clean()
      ensures Shape() && markTaskQueue == [] && ClosedHeap(heap) && Known(Roots(), heap) && NoRepeats(Recorded())
      ensures Recorded() == Flatten(heapPtrSegs) + writeBarrierGen
      ensures (forall n <- Recorded() :: n in heap) && heap == (set n | n in Recorded()) && Open(heap) == heap
      ensures Garbage() <= heap && forall n <- heap :: n in Garbage() <==> !Reachable(heap, Roots(), heap, n)
      ensures forall n <- Garbage() :: n.color == White && n in Flatten(heapPtrSegs)
    {
      hide Reachable;
      forall n | n in writeBarrierGen
        ensures n !in Garbage()
      {
        var i :| 0 <= i < |writeBarrierGen| && writeBarrierGen[i] == n;
        assert Pointers(writeBarrierGen)[i] == Ptr(n);
        ReachableRoot(heap, Roots(), heap, n);
      }
    }

    lemma WhitesAre(garbage: set<KonBase>)
      requires garbage <= heap && forall n <- heap :: n.color == if n in garbage then White else Black
      ensures Whites(heap) == garbage
    {}

    /** `was` was the heap and `all` the store before the garbage went. */
    lemma CleanAgain(was: set<KonBase>, all: seq<KonBase>, garbage: set<KonBase>)
      requires Shape() && markTaskQueue == [] && NoRepeats(all + writeBarrierGen) && was == (set n | n in all + writeBarrierGen)
      requires heap == was - garbage && Flatten(heapPtrSegs) == Without(all, garbage)
      requires forall n <- was :: n.color == if n in all then White else if n in writeBarrierGen then Gray else n.color
      requires ClosedHeap(was) && Known(Roots(), was)
      requires forall n <- garbage :: n in all
      requires forall n <- was :: n in garbage <==> !Reachable(was, Roots(), was, n)
      ensures Clean()
    {
      hide Reachable, Pushes, Flatten, Shape;
      Apart(all, writeBarrierGen);
      WithoutDistinct(all, garbage);
      Together(Without(all, garbage), writeBarrierGen);
      forall n | n in heap
        ensures Known(Pushes(n.payload), heap)
      {
        forall m | m in was && Refers(n, m)
          ensures m in heap
        {
          ReachableStep(was, Roots(), was, n, m);
        }
      }
      forall n | n in was && Ptr(n) in Roots()
        ensures n in heap
      {
        ReachableRoot(was, Roots(), was, n);
      }
    }

    /** A collection destroys exactly the garbage: the other recorded nodes keep their order, and
        the next collection finds everything as this one did. What stays is what can be read from the
        roots, field after field, but for the fields that are passed over; it is all that a program can
        get at exactly if nothing hangs on those. */
    method Gc()
      requires Clean()
      modifies this, heap`color
      ensures Clean() && Roots() == old(Roots()) && writeBarrierGen == old(writeBarrierGen)
      ensures heap == old(heap) - old(Garbage())
      ensures forall n <- old(heap) :: n in heap <==> old(Live(heap, RootNodes(), n))
      ensures old(NothingHangs(heap, RootNodes())) <==> forall n <- old(heap) :: old(Seen(heap, RootNodes(), n)) ==> n in heap
      ensures Flatten(heapPtrSegs) == Without(old(Flatten(heapPtrSegs)), old(Garbage())) && |heapPtrSegs| <= old(|heapPtrSegs|)
    {
      hide *;
      ghost var was, all, garbage := heap, Flatten(heapPtrSegs), Garbage();
      CleanHas();
      GarbageIsDead();
      AllSeenIsLive(heap, RootNodes());
      MarkPhase();
      WhitesAre(garbage);
      SweepPhase();
      assert heap == was - garbage;
      CleanAgain(was, all, garbage);
    }

    // ---------- between collections ----------

    /** A new node goes to the write barrier list. */
    method RecordNewKonNode(newVal: KonBase)
      requires Clean() && newVal !in heap && Known(Pushes(newVal.payload), heap + {newVal})
      modifies this, newVal
      ensures Clean() && heap == old(heap) + {newVal} && Recorded() == old(Recorded()) + [newVal]
      ensures heapPtrSegs == old(heapPtrSegs) && newVal.payload == old(newVal.payload)
    {
      hide Pushes, Flatten, Packed;
      newVal.color := Gray;
      assert Flatten(heapPtrSegs) + (writeBarrierGen + [newVal]) == Recorded() + [newVal];
      Together(Recorded(), [newVal]);
      writeBarrierGen := writeBarrierGen + [newVal];
      heap := heap + {newVal};
      assert newVal in Recorded();
    }

    method CurrentObjCount() returns (count: nat)
      requires Shape()
      ensures count == |Flatten(heapPtrSegs)|
    {
      count := 0;
      for i := 0 to |heapPtrSegs|
        invariant count == |Flatten(heapPtrSegs[..i])|
      {
        FlattenTo(heapPtrSegs, i);
        count := count + |heapPtrSegs[i]|;
      }
      assert heapPtrSegs[..|heapPtrSegs|] == heapPtrSegs;
    }

    /** Asks for a collection when the threshold would be passed. */
    method HasEnoughSegSpace(requireSize: nat) returns (enough: bool)
      requires Shape()
      modifies `needGc
      ensures enough <==> requireSize == 0 || |Flatten(heapPtrSegs)| + requireSize <= gcThreshold
      ensures needGc == (old(needGc) || !enough)
    {
      if requireSize == 0 {
        return true;
      }
      var totalObjCnt := CurrentObjCount();
      enough := gcThreshold - totalObjCnt - requireSize >= 0;
      if !enough {
        needGc := true;
      }
    }

    /** Moves the write barrier list to the store. It fails, and the program exits, exactly when
        the nodes do not fit. */
    method PushWriteBarrierObjsToHeapPtrSeg() returns (ok: bool)
      requires Clean()
      modifies `heapPtrSegs, `writeBarrierGen, heap`color
      ensures ok == (|old(Recorded())| <= maxObjCntLimit)
      ensures ok ==> Clean() && writeBarrierGen == [] && Flatten(heapPtrSegs) == old(Recorded())
    {
      hide *;
      ghost var all, roots := Recorded(), Roots();
      CleanHas();
      CleanColors();
      RootsAre();
      ok := true;
      while writeBarrierGen != []
        invariant ok && heap == old(heap) && Shape() && Flatten(heapPtrSegs) + writeBarrierGen == all
        invariant forall n <- heap :: n in Flatten(heapPtrSegs) ==> n.color == White
        decreases |writeBarrierGen|
      {
        var konPtr := writeBarrierGen[0];
        ghost var store, rest := Flatten(heapPtrSegs), writeBarrierGen[1..];
        assert store + ([konPtr] + rest) == all && writeBarrierGen == [konPtr] + rest && konPtr in all;
        Apart(store, [konPtr] + rest);
        Apart([konPtr], rest);
        ShapeFits();
        ShapeHas();
        writeBarrierGen := writeBarrierGen[1..];
        konPtr.color := White;
        var done, r := PushToHeapPtrSeg(heapPtrSegs, segmentMaxSizeVec, konPtr);
        if !done {
          return false;
        }
        heapPtrSegs := r;
        ShapeIs();
        assert forall n <- heap :: n in store + [konPtr] ==> n in store || n == konPtr;
        assert store + [konPtr] + rest == all && konPtr in [konPtr];
      }
      FewerRoots(currCode, old(writeBarrierGen), msgDispatchers, currCont);
      RootsAre();
      ShapeFits();
      ShapeHas();
      CleanNow(all, roots);
    }

    /** The continuation to go on with is a root from now on, and new nodes go to the store. */
    method SwitchContinuation(cont: Val) returns (ok: bool)
      requires Clean() && (cont.Ptr? ==> cont.node in heap)
      modifies this, heap`color
      ensures currCont == cont && heap == old(heap)
      ensures ok == (|old(Recorded())| <= maxObjCntLimit)
      ensures ok ==> Clean() && writeBarrierGen == [] && Flatten(heapPtrSegs) == old(Recorded())
    {
      currCont := cont;
      StillClean(old(currCont));
      var firstTry := HasEnoughSegSpace(|writeBarrierGen|);
      ok := PushWriteBarrierObjsToHeapPtrSeg();
    }

    lemma StillClean(before: Val)
      requires Shape() && markTaskQueue == [] && NoRepeats(Recorded()) && heap == (set n | n in Recorded())
      requires forall n <- Flatten(heapPtrSegs) :: n in heap && n.color == White
      requires forall n <- writeBarrierGen :: n in heap && n.color == Gray
      requires ClosedHeap(heap) && Known(RootList(currCode, writeBarrierGen, msgDispatchers, before), heap)
      requires currCont.Ptr? ==> currCont.node in heap
      ensures Clean()
    {
      hide ClosedHeap, Flatten;
      forall v | v in Roots()
        ensures v.Ptr? ==> v.node in heap
      {
        assert v == currCont || v in RootList(currCode, writeBarrierGen, msgDispatchers, before);
      }
    }

    /** Collects if a collection has been asked for. */
    method EnterGcSafepoint()
      requires Clean()
      modifies this, heap`color
      ensures Clean() && !needGc && Roots() == old(Roots())
      ensures heap == if old(needGc) then old(heap) - old(Garbage()) else old(heap)
    {
      hide *;
      if needGc {
        Gc();
        needGc := false;
      }
    }

    lemma RootsAre()
      ensures Roots() == RootList(currCode, writeBarrierGen, msgDispatchers, currCont)
    {}

    lemma CleanColors()
      requires Clean()
      ensures forall n <- Flatten(heapPtrSegs) :: n.color == White
      ensures forall n <- writeBarrierGen :: n.color == Gray
    {}

    lemma CleanNow(all: seq<KonBase>, roots: seq<Val>)
      requires Shape() && markTaskQueue == [] && ClosedHeap(heap) && Known(roots, heap) && NoRepeats(all)
      requires heap == (set n | n in all) && writeBarrierGen == [] && Flatten(heapPtrSegs) == all
      requires forall n <- all :: n.color == White
      requires forall v <- Roots() :: v in roots
      ensures Clean()
    {
      hide Flatten, ClosedHeap;
      assert Recorded() == all;
    }
  }
}
