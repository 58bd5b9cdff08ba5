/** Reachability along the references a visit pushes, and what a work queue keeps true. */
module Marking {
  import opened Heap

  // ---------- reachability ----------

  /** A node refers to another if a visit to it pushes that node. */
  ghost predicate Refers(n: KonBase, m: KonBase)
    reads n`payload
  {
    Ptr(m) in Pushes(n.payload)
  }

  /** `steps` references lead from a root to `n`, through `open` nodes only. */
  ghost predicate ReachableIn(heap: set<KonBase>, roots: seq<Val>, open: set<KonBase>, n: KonBase, steps: nat)
    reads heap`payload
    decreases steps
  {
    if steps == 0 then Ptr(n) in roots
    else exists m :: m in heap && m in open && Refers(m, n) && ReachableIn(heap, roots, open, m, steps - 1)
  }

  ghost predicate Reachable(heap: set<KonBase>, roots: seq<Val>, open: set<KonBase>, n: KonBase)
    reads heap`payload
  {
    exists steps: nat :: ReachableIn(heap, roots, open, n, steps)
  }

  /** Pointers in `vals` point into the heap. */
  ghost predicate Known(vals: seq<Val>, heap: set<KonBase>) {
    forall v <- vals :: v.Ptr? ==> v.node in heap
  }

  /** References do not leave the heap. */
  ghost predicate ClosedHeap(heap: set<KonBase>)
    reads heap`payload
  {
    forall n <- heap :: Known(Pushes(n.payload), heap)
  }

  /** Nodes that a visit would open. */
  predicate Markable(c: Color) {
    c != Black && c != Red
  }

  ghost function Open(heap: set<KonBase>): set<KonBase>
    reads heap`color
  {
    set n <- heap | Markable(n.color)
  }

  lemma ReachableRoot(heap: set<KonBase>, roots: seq<Val>, open: set<KonBase>, n: KonBase)
    requires Ptr(n) in roots
    ensures Reachable(heap, roots, open, n)
  {
    assert ReachableIn(heap, roots, open, n, 0);
  }

  lemma ReachableStep(heap: set<KonBase>, roots: seq<Val>, open: set<KonBase>, n: KonBase, m: KonBase)
    requires Reachable(heap, roots, open, n) && n in open && n in heap && Refers(n, m)
    ensures Reachable(heap, roots, open, m)
  {
    var steps: nat :| ReachableIn(heap, roots, open, n, steps);
    assert ReachableIn(heap, roots, open, m, steps + 1);
  }

  /** What is still to be visited when `marked` has been visited: the open roots, and the open
      nodes that marked nodes refer to, are marked or in the queue. */
  ghost predicate Frontier(heap: set<KonBase>, roots: seq<Val>, open: set<KonBase>, marked: set<KonBase>, queue: seq<Val>)
    reads heap`payload
  {
    && (forall n <- open :: Ptr(n) in roots ==> n in marked || Ptr(n) in queue)
    && (forall n, m :: n in marked && n in heap && m in open && Refers(n, m) ==> m in marked || Ptr(m) in queue)
  }

  /** The state of the loop: everything marked or queued is reachable, and nothing is missing. */
  ghost predicate Progress(heap: set<KonBase>, roots: seq<Val>, open: set<KonBase>, marked: set<KonBase>, queue: seq<Val>)
    reads heap`payload
  {
    && marked <= open <= heap && Known(queue, heap)
    && (forall n <- marked :: Reachable(heap, roots, open, n))
    && (forall n <- heap :: Ptr(n) in queue ==> Reachable(heap, roots, open, n))
    && Frontier(heap, roots, open, marked, queue)
  }

  lemma ProgressBegins(heap: set<KonBase>, roots: seq<Val>, open: set<KonBase>)
    requires Known(roots, heap) && open <= heap
    ensures Progress(heap, roots, open, {}, roots)
  {
    forall n | n in heap && Ptr(n) in roots
      ensures Reachable(heap, roots, open, n)
    {
      ReachableRoot(heap, roots, open, n);
    }
  }

  lemma ProgressSkips(heap: set<KonBase>, roots: seq<Val>, open: set<KonBase>, marked: set<KonBase>, queue: seq<Val>)
    requires queue != [] && Progress(heap, roots, open, marked, queue)
    requires queue[0].Ptr? ==> queue[0].node !in open - marked
    ensures Progress(heap, roots, open, marked, queue[1..])
  {
    hide Reachable;
    assert queue == [queue[0]] + queue[1..];
  }

  lemma ProgressOpens(heap: set<KonBase>, roots: seq<Val>, open: set<KonBase>, marked: set<KonBase>, queue: seq<Val>)
    requires queue != [] && Progress(heap, roots, open, marked, queue) && ClosedHeap(heap)
    requires queue[0].Ptr? && queue[0].node in open - marked
    ensures Progress(heap, roots, open, marked + {queue[0].node}, queue[1..] + Pushes(queue[0].node.payload))
  {
    hide Reachable, Pushes;
    var n := queue[0].node;
    assert queue == [queue[0]] + queue[1..];
    var queue' := queue[1..] + Pushes(n.payload);
    forall m | m in heap && Ptr(m) in queue'
      ensures Reachable(heap, roots, open, m)
    {
      if Refers(n, m) {
        ReachableStep(heap, roots, open, n, m);
      }
    }
  }

  lemma ProgressEnds(heap: set<KonBase>, roots: seq<Val>, open: set<KonBase>, marked: set<KonBase>)
    requires Progress(heap, roots, open, marked, [])
    ensures forall n <- heap :: n in marked <==> n in open && Reachable(heap, roots, open, n)
  {
    forall n | n in open && Reachable(heap, roots, open, n)
      ensures n in marked
    {
      var steps: nat :| ReachableIn(heap, roots, open, n, steps);
      FrontierEmpty(heap, roots, open, marked, n, steps);
    }
  }

  lemma {:induction false} FrontierEmpty(heap: set<KonBase>, roots: seq<Val>, open: set<KonBase>, marked: set<KonBase>, n: KonBase, steps: nat)
    requires open <= heap && Frontier(heap, roots, open, marked, []) && n in open && ReachableIn(heap, roots, open, n, steps)
    ensures n in marked
    decreases steps
  {
    hide Refers;
    if steps > 0 {
      var m :| m in heap && m in open && Refers(m, n) && ReachableIn(heap, roots, open, m, steps - 1);
      FrontierEmpty(heap, roots, open, marked, m, steps - 1);
    }
  }

  lemma OpenInHeap(heap: set<KonBase>)
    ensures Open(heap) <= heap && forall n <- heap :: n in Open(heap) <==> Markable(n.color)
    ensures !Markable(Black)
  {}

  lemma QueuedKnown(heap: set<KonBase>, roots: seq<Val>, open: set<KonBase>, marked: set<KonBase>, queue: seq<Val>)
    requires queue != [] && Progress(heap, roots, open, marked, queue)
    ensures queue[0].Ptr? ==> queue[0].node in heap
  {}
}
