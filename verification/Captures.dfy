/** Capture vectors shared between threads: reference counts, copy on write, and a free list.

    The proofs account for every reference. A multiset of holders says who holds what; the pool
    is in order when every count is at least the number of holders. Counts may be higher: the
    machine loses references when it drops a branch, and a lost reference only costs a copy. */
module Captures {
  import opened Backtracking

  class Capture {
    var refs: nat
    var regexId: nat
    var vector: seq<int>

    constructor (vector: seq<int>)
      ensures refs == 1 && regexId == 0 && this.vector == vector
    {
      refs := 1;
      regexId := 0;
      this.vector := vector;
    }
  }

  type Holders = multiset<Capture>

  class CapturePool {
    var free: seq<Capture>
    ghost var all: set<Capture>

    constructor ()
      ensures free == [] && all == {}
    {
      free := [];
      all := {};
    }

    ghost predicate Accounted(holders: Holders)
      reads this, all
    {
      && (forall c <- all :: c.refs >= holders[c])
      && (forall c <- holders :: c in all)
      && (forall c <- free :: c in all && c.refs == 0)
      && (forall i, j :: 0 <= i < j < |free| ==> free[i] != free[j])
    }

    lemma Fewer(holders: Holders, fewer: Holders)
      requires Accounted(holders) && fewer <= holders
      ensures Accounted(fewer)
    {
      forall c | c in fewer
        ensures c in holders
      {
        assert holders[c] >= fewer[c];
      }
    }

    /** A capture with one reference, from the free list if that is not empty; its slots are
        all -1 if `clear` is asked for. Nobody holds it yet. */
    method Create(slots: nat, clear: bool, ghost holders: Holders) returns (cap: Capture)
      requires Accounted(holders)
      modifies this, all
      ensures Accounted(holders + multiset{cap}) && cap !in holders
      ensures cap in all && old(all) <= all && fresh(all - old(all))
      ensures clear ==> cap.vector == seq(slots, _ => -1)
      ensures cap.refs == 1 && if old(free) == [] then fresh(cap) && free == [] else cap == old(free[0]) && free == old(free[1..])
      ensures forall c <- old(all) :: c != cap ==> c.refs == old(c.refs) && c.vector == old(c.vector)
      ensures forall c <- old(all) :: c.regexId == old(c.regexId)
    {
      if free != [] {
        cap := free[0];
        free := free[1..];
        cap.refs := 1;
      } else {
        cap := new Capture([]);
        all := all + {cap};
      }
      if clear {
        cap.vector := seq(slots, _ => -1);
      }
    }

    /** Sets slot `group`: in place if nobody else can see the vector, on a copy otherwise. The
        caller's reference to `cap` becomes a reference to the result. */
    method Update(cap: Capture, group: nat, pos: int, ghost rest: Holders) returns (r: Capture)
      requires Accounted(rest + multiset{cap}) && group < |cap.vector|
      modifies this, all
      ensures Accounted(rest + multiset{r})
      ensures r.vector == Put(old(cap.vector), group, pos) && (r == cap || r !in rest)
      ensures if old(cap.refs) > 1 then r != cap && r.refs == 1 && cap.refs == old(cap.refs) - 1 else r == cap && r.refs == old(cap.refs) && free == old(free)
      ensures r in all && old(all) <= all && fresh(all - old(all))
      ensures forall c <- old(all) :: c in rest ==> c.vector == old(c.vector)
      ensures forall c <- old(all) :: c.regexId == old(c.regexId)
    {
      ghost var holders := rest + multiset{cap};
      assert cap in holders;
      if cap.refs > 1 {
        r := Create(|cap.vector|, false, holders);
        r.vector := cap.vector;
        cap.refs := cap.refs - 1;
        r.vector := r.vector[group := pos];
      } else {
        assert rest[cap] == 0;
        cap.vector := cap.vector[group := pos];
        r := cap;
      }
    }

    /** Gives up one reference; the last one puts the capture on the free list. */
    method DecrRef(cap: Capture, ghost rest: Holders)
      requires Accounted(rest + multiset{cap})
      modifies this`free, cap`refs
      ensures Accounted(rest) && all == old(all) && cap.refs == old(cap.refs) - 1
      ensures free == if cap.refs == 0 then [cap] + old(free) else old(free)
    {
      assert cap in rest + multiset{cap};
      cap.refs := cap.refs - 1;
      if cap.refs == 0 {
        free := [cap] + free;
      }
    }

    /** Gives up one reference and never frees: the capture may be lost to the pool. */
    method DropRef(cap: Capture, ghost rest: Holders)
      requires Accounted(rest + multiset{cap})
      modifies cap`refs
      ensures Accounted(rest) && cap.refs == old(cap.refs) - 1
    {
      assert cap in rest + multiset{cap};
      cap.refs := cap.refs - 1;
    }

    /** Takes one more reference. */
    method IncrRef(cap: Capture, ghost holders: Holders)
      requires Accounted(holders) && cap in holders
      modifies cap`refs
      ensures Accounted(holders + multiset{cap}) && cap.refs == old(cap.refs) + 1
    {
      cap.refs := cap.refs + 1;
    }
  }
}
