/** What references and definitions of labels mean: which definition each reference is bound to.
    A reusable label can be defined again; a forward reference waits for the next definition. */
module Fixups {
  import opened Lists

  datatype State = Unused | Pending(refs: seq<int>) | Defined(pos: int)

  /** Every label's state, and the definition each resolved reference is bound to. */
  datatype Links = Links(states: seq<State>, bound: map<int, int>)

  function Waiting(st: State): seq<int> {
    if st.Pending? then st.refs else []
  }

  function Refer(k: Links, l: nat, forward: bool, pos: int): Links
    requires l < |k.states|
  {
    if !forward && k.states[l].Defined? then k.(bound := k.bound[pos := k.states[l].pos])
    else k.(states := k.states[l := Pending([pos] + Waiting(k.states[l]))])
  }

  function Define(k: Links, l: nat, pos: int): Links
    requires l < |k.states|
  {
    Links(k.states[l := Defined(pos)], k.bound + (map r | r in Waiting(k.states[l]) :: pos))
  }

  // ---------- what a history of references and definitions comes to ----------

  datatype Event = Ref(name: nat, forward: bool, pos: int) | Def(name: nat, pos: int)

  predicate InRange(t: seq<Event>, labels: nat) {
    forall e <- t :: e.name < labels
  }

  /** No two references have the same position. */
  predicate Separate(t: seq<Event>) {
    forall i, j :: 0 <= i < j < |t| && t[i].Ref? && t[j].Ref? ==> t[i].pos != t[j].pos
  }

  function After(t: seq<Event>, labels: nat): (k: Links)
    requires InRange(t, labels)
    ensures |k.states| == labels
  {
    if t == [] then Links(seq(labels, _ => Unused), map[])
    else
      var e := t[|t| - 1];
      var k := After(t[..|t| - 1], labels);
      if e.Ref? then Refer(k, e.name, e.forward, e.pos) else Define(k, e.name, e.pos)
  }

  /** The label is defined by event `d`, and nothing up to `i` has begun to wait for it again. */
  predicate Stands(t: seq<Event>, l: nat, d: int, i: int) {
    && 0 <= d < i <= |t| && t[d].Def? && t[d].name == l
    && forall e :: d < e < i && t[e].name == l ==> t[e].Ref? && !t[e].forward
  }

  /** Event `d` is the first definition of the label from `i` on. */
  predicate NextDef(t: seq<Event>, l: nat, i: int, d: int) {
    && 0 <= i <= d < |t| && t[d].Def? && t[d].name == l
    && forall e :: i <= e < d && t[e].name == l ==> t[e].Ref?
  }

  lemma {:induction false} DefinedStands(t: seq<Event>, labels: nat, l: nat)
    requires InRange(t, labels) && l < labels
    ensures After(t, labels).states[l].Defined? <==> exists d :: Stands(t, l, d, |t|)
    ensures forall d :: Stands(t, l, d, |t|) ==> After(t, labels).states[l] == Defined(t[d].pos)
    decreases |t|
  {
    if t != [] {
      var n := |t| - 1;
      var s := t[..n];
      DefinedStands(s, labels, l);
      forall d
        ensures d < n ==> (Stands(t, l, d, n + 1) <==> Stands(s, l, d, n) && (t[n].name == l ==> t[n].Ref? && !t[n].forward))
        ensures Stands(t, l, n, n + 1) <==> t[n].Def? && t[n].name == l
      {}
      if t[n].name != l || (t[n].Ref? && !t[n].forward) {
        if d :| Stands(s, l, d, n) {
          assert Stands(t, l, d, n + 1);
        }
      }
    }
  }

  /** The definition reference `i` is meant to get: a reference that looks back gets the one that
      stands there; any other, the next one. */
  ghost predicate Meant(t: seq<Event>, i: nat, q: int)
    requires i < |t| && t[i].Ref?
  {
    if LooksBack(t, i) then exists d :: Stands(t, t[i].name, d, i) && t[d].pos == q
    else exists d :: NextDef(t, t[i].name, i + 1, d) && t[d].pos == q
  }

  ghost predicate LooksBack(t: seq<Event>, i: nat)
    requires i < |t| && t[i].Ref?
  {
    !t[i].forward && exists d :: Stands(t, t[i].name, d, i)
  }

  /** A position is in one place at most: bound, or waiting for one label. */
  ghost predicate InOnePlace(k: Links, l: nat, p: int) {
    && (forall m :: 0 <= m < |k.states| && p in Waiting(k.states[m]) ==> m == l && p !in k.bound)
    && (p in k.bound || (l < |k.states| && p in Waiting(k.states[l])))
  }

  lemma {:induction false} NoPlaceYet(t: seq<Event>, labels: nat, p: int)
    requires InRange(t, labels) && forall j :: 0 <= j < |t| && t[j].Ref? ==> t[j].pos != p
    ensures var k := After(t, labels);
            p !in k.bound && forall m :: 0 <= m < labels ==> p !in Waiting(k.states[m])
    decreases |t|
  {
    if t != [] {
      NoPlaceYet(t[..|t| - 1], labels, p);
    }
  }

  lemma {:induction false} FirstDef(t: seq<Event>, l: nat, i: nat) returns (d: nat)
    requires i <= |t|
    ensures d < |t| ==> NextDef(t, l, i, d)
    ensures d >= |t| ==> forall e :: i <= e < |t| && t[e].name == l ==> t[e].Ref?
    decreases |t| - i
  {
    if i == |t| || (t[i].Def? && t[i].name == l) {
      d := i;
    } else {
      d := FirstDef(t, l, i + 1);
    }
  }

  /** One more event changes what reference `i` is meant to get only if it is the definition the
      reference has been waiting for. */
  lemma MeantNext(t: seq<Event>, i: nat, q: int)
    requires i < |t| - 1 && t[i].Ref?
    ensures var n := |t| - 1; var s := t[..n];
            Meant(t, i, q) <==>
              Meant(s, i, q) || (t[n].Def? && t[n].name == t[i].name && t[n].pos == q && forall q' :: !Meant(s, i, q'))
  {
    var n := |t| - 1;
    var s := t[..n];
    var l, j := t[i].name, i + 1;
    assert forall d :: Stands(t, l, d, i) <==> Stands(s, l, d, i);
    assert forall d :: d < n ==> (NextDef(t, l, j, d) <==> NextDef(s, l, j, d));
    if !LooksBack(t, i) {
      var d := FirstDef(s, l, j);
      if d < n {
        assert Meant(s, i, s[d].pos);
        assert !NextDef(t, l, j, n);
      } else {
        assert forall d' :: !NextDef(s, l, j, d');
        assert NextDef(t, l, j, n) <==> t[n].Def? && t[n].name == l;
      }
    } else {
      var d :| Stands(s, l, d, i);
      assert Meant(s, i, s[d].pos);
    }
  }

  /** After any history, a reference is bound to the definition it is meant to get, or waits. */
  lemma {:induction false} BoundAsMeant(t: seq<Event>, labels: nat, i: nat)
    requires InRange(t, labels) && Separate(t) && i < |t| && t[i].Ref?
    ensures var k := After(t, labels);
            && InOnePlace(k, t[i].name, t[i].pos)
            && forall q :: (t[i].pos in k.bound && k.bound[t[i].pos] == q) <==> Meant(t, i, q)
    decreases |t|
  {
    var n := |t| - 1;
    var s := t[..n];
    if i == n {
      NoPlaceYet(s, labels, t[i].pos);
      DefinedStands(s, labels, t[i].name);
      assert forall d :: Stands(t, t[i].name, d, i) <==> Stands(s, t[i].name, d, n);
    } else {
      hide Meant;
      BoundAsMeant(s, labels, i);
      var k, k', p := After(s, labels), After(t, labels), t[i].pos;
      assert p in k.bound ==> Meant(s, i, k.bound[p]);
      forall q
        ensures (p in k'.bound && k'.bound[p] == q) <==> Meant(t, i, q)
      {
        MeantNext(t, i, q);
      }
    }
  }

  /** A reference that is not forward is bound to the last definition of its label, unless a
      forward reference to the label has come in between. */
  lemma LooksBackExactly(t: seq<Event>, i: nat, d: nat)
    requires i < |t| && t[i].Ref? && !t[i].forward
    requires d < i && t[d].Def? && t[d].name == t[i].name
    requires forall e :: d < e < i && t[e].name == t[i].name ==> t[e].Ref?
    ensures LooksBack(t, i) <==> forall e :: d < e < i && t[e].name == t[i].name ==> !t[e].forward
    ensures LooksBack(t, i) ==> Meant(t, i, t[d].pos)
  {
    if forall e :: d < e < i && t[e].name == t[i].name ==> !t[e].forward {
      assert Stands(t, t[i].name, d, i);
    }
    if LooksBack(t, i) {
      var d' :| Stands(t, t[i].name, d', i);
      assert d' == d;
    }
  }

  ghost predicate IsRefOf(t: seq<Event>, l: nat, p: int) {
    exists i :: 0 <= i < |t| && t[i].Ref? && t[i].name == l && t[i].pos == p
  }

  /** What waits for a label are references to it, each once. */
  lemma {:induction false} WaitingAreRefs(t: seq<Event>, labels: nat, l: nat)
    requires InRange(t, labels) && Separate(t) && l < labels
    ensures var w := Waiting(After(t, labels).states[l]); NoRepeats(w) && forall p <- w :: IsRefOf(t, l, p)
    decreases |t|
  {
    if t != [] {
      var n := |t| - 1;
      WaitingAreRefs(t[..n], labels, l);
      var w := Waiting(After(t, labels).states[l]);
      assert forall p :: IsRefOf(t[..n], l, p) ==> IsRefOf(t, l, p);
      if t[n].Ref? && t[n].name == l {
        assert IsRefOf(t, l, t[n].pos);
        assert forall p :: IsRefOf(t[..n], l, p) ==> p != t[n].pos;
        OneMore(t[n].pos, Waiting(After(t[..n], labels).states[l]));
      }
    }
  }

  lemma OneMore(x: int, l: seq<int>)
    requires NoRepeats(l) && x !in l
    ensures NoRepeats([x] + l)
  {
    var r := [x] + l;
    forall i, j | 0 <= i < j < |r|
      ensures r[i] != r[j]
    {
      assert r[j] == l[j - 1] && (i > 0 ==> r[i] == l[i - 1]);
    }
  }

  /** What waits for a label is neither bound nor waiting for another. */
  lemma WaitingApart(t: seq<Event>, labels: nat, l: nat)
    requires InRange(t, labels) && Separate(t) && l < labels
    ensures var k := After(t, labels);
            && NoRepeats(Waiting(k.states[l]))
            && forall p <- Waiting(k.states[l]) :: p !in k.bound && forall m :: 0 <= m < labels && m != l ==> p !in Waiting(k.states[m])
  {
    WaitingAreRefs(t, labels, l);
    var k := After(t, labels);
    forall p | p in Waiting(k.states[l])
      ensures InOnePlace(k, l, p)
    {
      var i :| 0 <= i < |t| && t[i].Ref? && t[i].name == l && t[i].pos == p;
      BoundAsMeant(t, labels, i);
    }
  }
}
