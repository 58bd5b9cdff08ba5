/** What a program can still get at: nodes read, field after field, from a root. */
module Liveness {
  import opened Heap
  import opened Marking

  /** A field that a visit does not pass over holds `m`. */
  ghost predicate Holds(n: KonBase, m: KonBase)
    reads n`payload
  {
    HasField(n.payload, Ptr(m)) && !PassedOver(n.payload, Ptr(m))
  }

  /** `steps` fields lead from one of the `roots` to `n`. */
  ghost predicate ReadIn(heap: set<KonBase>, roots: set<KonBase>, n: KonBase, steps: nat)
    reads heap`payload
    decreases steps
  {
    if steps == 0 then n in roots
    else exists m :: m in heap && Holds(m, n) && ReadIn(heap, roots, m, steps - 1)
  }

  ghost predicate Live(heap: set<KonBase>, roots: set<KonBase>, n: KonBase)
    reads heap`payload
  {
    exists steps: nat :: ReadIn(heap, roots, n, steps)
  }

  lemma LiveRoot(heap: set<KonBase>, roots: set<KonBase>, n: KonBase)
    requires n in roots
    ensures Live(heap, roots, n)
  {
    assert ReadIn(heap, roots, n, 0);
  }

  lemma LiveField(heap: set<KonBase>, roots: set<KonBase>, n: KonBase, m: KonBase)
    requires Live(heap, roots, n) && n in heap && Holds(n, m)
    ensures Live(heap, roots, m)
  {
    var steps: nat :| ReadIn(heap, roots, n, steps);
    assert ReadIn(heap, roots, m, steps + 1);
  }

  // ---------- reachable is live ----------

  lemma RefersIsHolds(n: KonBase, m: KonBase)
    ensures Refers(n, m) <==> Holds(n, m)
  {
    PushesFields(n.payload, m);
  }

  lemma {:induction false} ReachedIsRead(heap: set<KonBase>, queue: seq<Val>, roots: set<KonBase>, n: KonBase, steps: nat)
    requires forall m <- heap :: m in roots <==> Ptr(m) in queue
    requires n in heap
    ensures ReachableIn(heap, queue, heap, n, steps) <==> ReadIn(heap, roots, n, steps)
    decreases steps
  {
    hide Refers, Holds;
    if steps > 0 {
      forall m | m in heap ensures Refers(m, n) <==> Holds(m, n) {
        RefersIsHolds(m, n);
      }
      forall m | m in heap ensures ReachableIn(heap, queue, heap, m, steps - 1) <==> ReadIn(heap, roots, m, steps - 1) {
        ReachedIsRead(heap, queue, roots, m, steps - 1);
      }
    }
  }

  /** What a collection finds is what can be read from the roots. */
  lemma ReachableIsLive(heap: set<KonBase>, queue: seq<Val>, roots: set<KonBase>, n: KonBase)
    requires forall m <- heap :: m in roots <==> Ptr(m) in queue
    requires n in heap
    ensures Reachable(heap, queue, heap, n) <==> Live(heap, roots, n)
  {
    forall steps: nat ensures ReachableIn(heap, queue, heap, n, steps) <==> ReadIn(heap, roots, n, steps) {
      ReachedIsRead(heap, queue, roots, n, steps);
    }
  }

  // ---------- lists and scopes ----------

  /** Pairs, each the next of the one before. */
  ghost predicate IsList(heap: set<KonBase>, pairs: seq<KonBase>)
    reads heap`payload
  {
    forall k :: 0 <= k < |pairs| ==> pairs[k] in heap && pairs[k].payload.Pair? && (k + 1 < |pairs| ==> pairs[k].payload.next == Ptr(pairs[k + 1]))
  }

  /** Of a list whose head can be read, every pair and every element can. */
  lemma {:induction false} ListIsLive(heap: set<KonBase>, roots: set<KonBase>, pairs: seq<KonBase>, k: nat)
    requires IsList(heap, pairs) && k < |pairs| && Live(heap, roots, pairs[0])
    ensures Live(heap, roots, pairs[k])
    ensures pairs[k].payload.body.Ptr? ==> Live(heap, roots, pairs[k].payload.body.node)
  {
    hide Live;
    if k > 0 {
      ListIsLive(heap, roots, pairs, k - 1);
      assert pairs[k - 1].payload.next == Ptr(pairs[k]);
      LiveField(heap, roots, pairs[k - 1], pairs[k]);
    }
    if pairs[k].payload.body.Ptr? {
      LiveField(heap, roots, pairs[k], pairs[k].payload.body.node);
    }
  }

  /** Environments, each the parent of the one before. */
  ghost predicate IsScope(heap: set<KonBase>, envs: seq<KonBase>)
    reads heap`payload
  {
    forall k :: 0 <= k < |envs| ==> envs[k] in heap && envs[k].payload.Env? && (k + 1 < |envs| ==> envs[k].payload.parent == Ptr(envs[k + 1]))
  }

  /** From an environment that can be read, every binding of every environment around it can. */
  lemma {:induction false} ScopeIsLive(heap: set<KonBase>, roots: set<KonBase>, envs: seq<KonBase>, k: nat, n: KonBase)
    requires IsScope(heap, envs) && k < |envs| && Live(heap, roots, envs[0])
    ensures Live(heap, roots, envs[k]) && (Ptr(n) in envs[k].payload.bindings ==> Live(heap, roots, n))
  {
    hide Live;
    if k > 0 {
      ScopeIsLive(heap, roots, envs, k - 1, n);
      assert envs[k - 1].payload.parent == Ptr(envs[k]);
      LiveField(heap, roots, envs[k - 1], envs[k]);
    }
    if Ptr(n) in envs[k].payload.bindings {
      LiveField(heap, roots, envs[k], n);
    }
  }

  // ---------- the fields passed over ----------

  /** `steps` fields of any kind lead from a root to `n`. */
  ghost predicate SeenIn(heap: set<KonBase>, roots: set<KonBase>, n: KonBase, steps: nat)
    reads heap`payload
    decreases steps
  {
    if steps == 0 then n in roots
    else exists m :: m in heap && HasField(m.payload, Ptr(n)) && SeenIn(heap, roots, m, steps - 1)
  }

  /** Whatever a live node holds in a field that is passed over is live for another reason. */
  ghost predicate NothingHangs(heap: set<KonBase>, roots: set<KonBase>)
    reads heap`payload
  {
    forall n, m :: n in heap && m in heap && Live(heap, roots, n) && PassedOver(n.payload, Ptr(m)) && HasField(n.payload, Ptr(m)) ==> Live(heap, roots, m)
  }

  lemma {:induction false} SeenIsLive(heap: set<KonBase>, roots: set<KonBase>, n: KonBase, steps: nat)
    requires NothingHangs(heap, roots) && n in heap && SeenIn(heap, roots, n, steps)
    ensures Live(heap, roots, n)
    decreases steps
  {
    hide Live, PassedOver, HasField;
    if steps == 0 {
      LiveRoot(heap, roots, n);
    } else {
      var m :| m in heap && HasField(m.payload, Ptr(n)) && SeenIn(heap, roots, m, steps - 1);
      SeenIsLive(heap, roots, m, steps - 1);
      if !PassedOver(m.payload, Ptr(n)) {
        LiveField(heap, roots, m, n);
      }
    }
  }

  lemma {:induction false} ReadIsSeen(heap: set<KonBase>, roots: set<KonBase>, n: KonBase, steps: nat)
    requires ReadIn(heap, roots, n, steps)
    ensures SeenIn(heap, roots, n, steps)
    decreases steps
  {
    if steps > 0 {
      var m :| m in heap && Holds(m, n) && ReadIn(heap, roots, m, steps - 1);
      ReadIsSeen(heap, roots, m, steps - 1);
    }
  }

  /** Some fields, of any kind, lead from a root to `n`. */
  ghost predicate Seen(heap: set<KonBase>, roots: set<KonBase>, n: KonBase)
    reads heap`payload
  {
    exists steps: nat :: SeenIn(heap, roots, n, steps)
  }

  /** All that a program can get at is live exactly if nothing hangs on a field that is passed over. */
  lemma AllSeenIsLive(heap: set<KonBase>, roots: set<KonBase>)
    ensures NothingHangs(heap, roots) <==> forall n <- heap :: Seen(heap, roots, n) ==> Live(heap, roots, n)
  {
    hide PassedOver, HasField;
    if NothingHangs(heap, roots) {
      forall n <- heap | Seen(heap, roots, n) ensures Live(heap, roots, n) {
        var steps: nat :| SeenIn(heap, roots, n, steps);
        SeenIsLive(heap, roots, n, steps);
      }
    }
    if forall n <- heap :: Seen(heap, roots, n) ==> Live(heap, roots, n) {
      forall n, m | n in heap && m in heap && Live(heap, roots, n) && PassedOver(n.payload, Ptr(m)) && HasField(n.payload, Ptr(m))
        ensures Live(heap, roots, m)
      {
        var steps: nat :| ReadIn(heap, roots, n, steps);
        ReadIsSeen(heap, roots, n, steps);
        assert SeenIn(heap, roots, m, steps + 1);
      }
    }
  }
}
