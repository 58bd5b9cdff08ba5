/** Pass 1 of the assembler: actions and arguments go to the buffer of the current section, byte
    positions are estimated, and references that have no definition yet are chained through
    their own buffer slots. */
module AsmPut {
  import opened Asm
  import opened Fixups

  /** A section's buffer, and its size in bytes as estimated so far. */
  datatype Sec = Sec(buf: seq<int>, ofs: int)

  /** Positions: 8 bits of section number, 24 bits of slot number. */
  const BIAS := 0x1000000

  function Pos(s: nat, slot: nat): int { s * BIAS + slot }

  predicate InBuffers(secs: seq<Sec>, pos: int) {
    0 <= pos && pos / BIAS < |secs| && pos % BIAS < |secs[pos / BIAS].buf|
  }

  function Slot(secs: seq<Sec>, pos: int): int
    requires InBuffers(secs, pos)
  {
    secs[pos / BIAS].buf[pos % BIAS]
  }

  function SetSlot(secs: seq<Sec>, pos: int, v: int): seq<Sec>
    requires InBuffers(secs, pos)
  {
    var s := pos / BIAS;
    secs[s := secs[s].(buf := secs[s].buf[pos % BIAS := v])]
  }

  // ---------- what the buffers hold, apart from references ----------

  /** The slots of entry `k`, except the one a reference is stored in. */
  ghost predicate FilledAt(buf: seq<int>, items: Layout, k: nat)
    requires k < |items|
  {
    var a := SlotSum(items[..k]);
    a + Slots(items[k]) <= |buf| &&
    match items[k]
    case Begin(start) => buf[a] == start
    case Do(act, arg) =>
      if IsImm(act) || act.Space? then buf[a] == arg
      else if IsRel(act) then buf[a + 1] == Estimate(items[..k + 1])
      else if IsLabel(act) then buf[a] == Estimate(items[..k])
      else if act.Align? then buf[a] == Estimate(items[..k + 1])
      else true
  }

  ghost predicate SecOk(sec: Sec, items: Layout) {
    |sec.buf| == SlotSum(items) <= BIAS && sec.ofs == Estimate(items)
    && forall k :: 0 <= k < |items| ==> FilledAt(sec.buf, items, k)
  }

  lemma {:induction false} SlotsApart(items: Layout, j: nat, k: nat)
    requires j < k <= |items|
    ensures SlotSum(items[..j]) + Slots(items[j]) <= SlotSum(items[..k])
    decreases k
  {
    assert items[..k][..k - 1] == items[..k - 1];
    if j < k - 1 {
      SlotsApart(items, j, k - 1);
    }
  }

  lemma SumsOneMore(items: Layout, it: Item)
    ensures SlotSum(items + [it]) == SlotSum(items) + Slots(it)
    ensures Estimate(items + [it]) == Estimate(items) + Most(it)
    ensures forall k :: 0 <= k <= |items| ==> (items + [it])[..k] == items[..k]
  {
    assert (items + [it])[..|items|] == items;
  }

  /** The slots `vals` suit an entry put at byte position `ofs`. */
  predicate ValsFit(it: Item, vals: seq<int>, ofs: int) {
    |vals| == Slots(it) &&
    match it
    case Begin(start) => vals[0] == start
    case Do(act, arg) =>
      if IsImm(act) || act.Space? then vals[0] == arg
      else if IsRel(act) then vals[1] == ofs + Most(it)
      else if IsLabel(act) then vals[0] == ofs
      else if act.Align? then vals[0] == ofs + Most(it)
      else true
  }

  /** One more entry, whose slots are `vals`. */
  lemma AppendOk(sec: Sec, items: Layout, it: Item, vals: seq<int>, sec': Sec)
    requires SecOk(sec, items) && |sec.buf| + |vals| <= BIAS
    requires sec' == Sec(sec.buf + vals, sec.ofs + Most(it))
    requires ValsFit(it, vals, sec.ofs)
    ensures SecOk(sec', items + [it])
  {
    hide SlotSum, Estimate;
    SumsOneMore(items, it);
    var n := |items|;
    assert (items + [it])[..n + 1] == items + [it];
    forall k | 0 <= k < n + 1
      ensures FilledAt(sec'.buf, items + [it], k)
    {
      if k < n {
        assert (items + [it])[..k + 1] == items[..k + 1] && FilledAt(sec.buf, items, k);
      }
    }
  }

  // ---------- where references and definitions stand ----------

  /** The label an entry refers to or defines; local and global labels come first, then the
      numbered ones. */
  function NameOf(it: Item, lg: nat): int
    requires it.Do? && (IsRef(it.act) || IsLabel(it.act))
  {
    match it.act
    case RelLG(_) => LabelNo(it.act)
    case ImmLG(_) => LabelNo(it.act)
    case LabelLG(n) => n
    case _ => lg + it.arg
  }

  predicate Forward(act: Action) {
    (act.RelLG? || act.ImmLG?) && act.n > 246
  }

  /** Entry `k` of section `s` has its first slot at `pos`. */
  ghost predicate Stored(layout: seq<Layout>, s: nat, k: nat, pos: int) {
    s < |layout| && k < |layout[s]| && pos == Pos(s, SlotSum(layout[s][..k]))
  }

  ghost predicate RefAt(layout: seq<Layout>, lg: nat, name: nat, pos: int) {
    exists s: nat, k: nat :: RefIs(layout, lg, name, pos, s, k)
  }

  ghost predicate RefIs(layout: seq<Layout>, lg: nat, name: nat, pos: int, s: nat, k: nat) {
    Stored(layout, s, k, pos) && pos > 0 && layout[s][k].Do? && IsRef(layout[s][k].act) && NameOf(layout[s][k], lg) == name
  }

  ghost predicate LabelAt(layout: seq<Layout>, lg: nat, name: nat, pos: int) {
    exists s: nat, k: nat :: LabelIs(layout, lg, name, pos, s, k)
  }

  ghost predicate LabelIs(layout: seq<Layout>, lg: nat, name: nat, pos: int, s: nat, k: nat) {
    Stored(layout, s, k, pos) && pos > 0 && layout[s][k].Do? && IsLabel(layout[s][k].act) && NameOf(layout[s][k], lg) == name
  }

  /** The chain of the references `refs`, newest first, through their own slots. */
  ghost predicate Chain(secs: seq<Sec>, refs: seq<int>) {
    forall i :: 0 <= i < |refs| ==> ChainedAt(secs, refs, i)
  }

  ghost predicate ChainedAt(secs: seq<Sec>, refs: seq<int>, i: nat)
    requires i < |refs|
  {
    InBuffers(secs, refs[i]) && refs[i] > 0 && Slot(secs, refs[i]) == if i + 1 < |refs| then refs[i + 1] else 0
  }

  /** A label's entry in the label array: zero, the head of a chain, or minus a position. */
  ghost predicate ValOk(secs: seq<Sec>, v: int, st: State) {
    match st
    case Unused => v == 0
    case Defined(p) => p > 0 && v == -p
    case Pending(refs) => refs != [] && v == refs[0] && Chain(secs, refs)
  }

  ghost predicate EventAt(layout: seq<Layout>, lg: nat, e: Event) {
    if e.Ref? then RefAt(layout, lg, e.name, e.pos) else LabelAt(layout, lg, e.name, e.pos)
  }

  ghost predicate BoundOk(secs: seq<Sec>, bound: map<int, int>) {
    forall r <- bound :: InBuffers(secs, r) && Slot(secs, r) == bound[r]
  }

  /** The label array and the references' slots say where every reference goes. */
  ghost predicate LinksOk(secs: seq<Sec>, layout: seq<Layout>, lg: nat, vals: seq<int>, trace: seq<Event>) {
    && InRange(trace, |vals|) && Separate(trace)
    && (forall e <- trace :: EventAt(layout, lg, e))
    && (forall l :: 0 <= l < |vals| ==> ValOk(secs, vals[l], After(trace, |vals|).states[l]))
    && BoundOk(secs, After(trace, |vals|).bound)
  }

  /** Every reference of the layout is an event of the history. */
  ghost predicate AllTraced(layout: seq<Layout>, lg: nat, trace: seq<Event>) {
    forall s: nat, k: nat, pos: int :: Stored(layout, s, k, pos) ==> TracedAt(layout[s][k], lg, trace, pos)
  }

  ghost predicate TracedAt(it: Item, lg: nat, trace: seq<Event>, pos: int) {
    NumberOk(it, lg) && (it.Do? && IsRef(it.act) ==> HasRef(trace, NameOf(it, lg), pos) && (it.act.RelPC? || it.act.ImmPC? ==> it.arg >= 0))
  }

  predicate NumberOk(it: Item, lg: nat) {
    it.Do? && it.act.LabelLG? ==> 0 <= it.act.n < lg
  }

  ghost predicate HasRef(trace: seq<Event>, name: int, pos: int) {
    name >= 0 && IsRefOf(trace, name, pos)
  }

  /** Buffers only grow. */
  ghost predicate Grown(secs: seq<Sec>, secs': seq<Sec>) {
    |secs| == |secs'| && forall s :: 0 <= s < |secs| ==> secs[s].buf <= secs'[s].buf
  }

  lemma GrownSlots(secs: seq<Sec>, secs': seq<Sec>)
    requires Grown(secs, secs')
    ensures forall pos :: InBuffers(secs, pos) ==> InBuffers(secs', pos) && Slot(secs', pos) == Slot(secs, pos)
  {}

  ghost predicate LayoutGrown(layout: seq<Layout>, layout': seq<Layout>) {
    |layout| == |layout'| && forall s :: 0 <= s < |layout| ==> layout[s] <= layout'[s]
  }

  lemma GrownEvents(layout: seq<Layout>, layout': seq<Layout>, lg: nat, e: Event)
    requires LayoutGrown(layout, layout') && EventAt(layout, lg, e)
    ensures EventAt(layout', lg, e)
  {
    hide SlotSum;
    if e.Ref? {
      var s: nat, k: nat :| RefIs(layout, lg, e.name, e.pos, s, k);
      assert layout'[s][..k] == layout[s][..k] && layout'[s][k] == layout[s][k];
      assert RefIs(layout', lg, e.name, e.pos, s, k);
    } else {
      var s: nat, k: nat :| LabelIs(layout, lg, e.name, e.pos, s, k);
      assert layout'[s][..k] == layout[s][..k] && layout'[s][k] == layout[s][k];
      assert LabelIs(layout', lg, e.name, e.pos, s, k);
    }
  }

  lemma GrownVal(secs: seq<Sec>, secs': seq<Sec>, v: int, st: State)
    requires Grown(secs, secs') && ValOk(secs, v, st)
    ensures ValOk(secs', v, st)
  {
    hide InBuffers, Slot;
    GrownSlots(secs, secs');
    if st.Pending? {
      assert forall i :: 0 <= i < |st.refs| ==> ChainedAt(secs, st.refs, i) ==> ChainedAt(secs', st.refs, i);
    }
  }

  lemma AfterOneMore(trace: seq<Event>, e: Event, labels: nat)
    requires InRange(trace, labels) && e.name < labels
    ensures InRange(trace + [e], labels)
    ensures var k := After(trace, labels);
            After(trace + [e], labels) == if e.Ref? then Refer(k, e.name, e.forward, e.pos) else Define(k, e.name, e.pos)
  {
    assert (trace + [e])[..|trace|] == trace;
  }

  lemma SeparateOneMore(trace: seq<Event>, e: Event)
    requires Separate(trace) && (e.Ref? ==> forall d <- trace :: d.Ref? ==> d.pos != e.pos)
    ensures Separate(trace + [e])
  {
    var t := trace + [e];
    forall i, j | 0 <= i < j < |t| && t[i].Ref? && t[j].Ref?
      ensures t[i].pos != t[j].pos
    {
      assert t[i] == trace[i] && (j < |trace| ==> t[j] == trace[j]);
    }
  }

  /** Storing one more reference at `pos`, the way the label array says. */
  lemma ReferOk(secs: seq<Sec>, secs': seq<Sec>, layout: seq<Layout>, layout': seq<Layout>, lg: nat, vals: seq<int>, vals': seq<int>,
                trace: seq<Event>, name: nat, forward: bool, pos: int)
    requires LinksOk(secs, layout, lg, vals, trace) && Grown(secs, secs') && LayoutGrown(layout, layout') && name < |vals|
    requires InBuffers(secs', pos) && pos > 0 && RefAt(layout', lg, name, pos)
    requires !InBuffers(secs, pos) && forall e <- trace :: e.Ref? ==> InBuffers(secs, e.pos)
    requires var n := vals[name];
             if !forward && n < 0 then Slot(secs', pos) == -n && vals' == vals
             else Slot(secs', pos) == (if n < 0 then 0 else n) && vals' == vals[name := pos]
    ensures LinksOk(secs', layout', lg, vals', trace + [Ref(name, forward, pos)])
  {
    hide InBuffers, Slot, RefAt, LabelAt, EventAt, After, Grown, LayoutGrown;
    var e := Ref(name, forward, pos);
    var k := After(trace, |vals|);
    AfterOneMore(trace, e, |vals|);
    SeparateOneMore(trace, e);
    GrownSlots(secs, secs');
    forall d | d in trace + [e]
      ensures EventAt(layout', lg, d)
    {
      if d in trace {
        GrownEvents(layout, layout', lg, d);
      } else {
        RefIsEvent(layout', lg, e);
      }
    }
    forall l | 0 <= l < |vals|
      ensures ValOk(secs', vals'[l], After(trace + [e], |vals|).states[l])
    {
      GrownVal(secs, secs', vals[l], k.states[l]);
      ValSign(secs', vals[l], k.states[l]);
      if l == name && !(!forward && k.states[l].Defined?) {
        ChainExtends(secs', pos, k.states[l], vals[l]);
      }
    }
  }

  lemma ValSign(secs: seq<Sec>, v: int, st: State)
    requires ValOk(secs, v, st)
    ensures v < 0 <==> st.Defined?
    ensures v > 0 <==> st.Pending?
  {
    assert st.Pending? ==> ChainedAt(secs, st.refs, 0);
  }

  lemma ChainExtends(secs: seq<Sec>, pos: int, st: State, v: int)
    requires ValOk(secs, v, st) && InBuffers(secs, pos) && pos > 0 && Slot(secs, pos) == if v < 0 then 0 else v
    ensures ValOk(secs, pos, Pending([pos] + Waiting(st)))
  {
    var w := Waiting(st);
    var refs := [pos] + w;
    assert Chain(secs, w);
    assert w != [] ==> ChainedAt(secs, w, 0) && v == w[0];
    forall i | 0 <= i < |refs|
      ensures ChainedAt(secs, refs, i)
    {
      assert i > 0 ==> ChainedAt(secs, w, i - 1) && refs[i] == w[i - 1];
    }
  }

  lemma RefIsEvent(layout: seq<Layout>, lg: nat, e: Event)
    requires if e.Ref? then RefAt(layout, lg, e.name, e.pos) else LabelAt(layout, lg, e.name, e.pos)
    ensures EventAt(layout, lg, e)
  {}

  /** `secs'` is `secs`, perhaps grown, with `pos` in the slots `refs`. */
  ghost predicate Patched(secs: seq<Sec>, secs': seq<Sec>, refs: seq<int>, pos: int) {
    forall p :: InBuffers(secs, p) ==> InBuffers(secs', p) && Slot(secs', p) == if p in refs then pos else Slot(secs, p)
  }

  lemma PatchedVal(secs: seq<Sec>, secs': seq<Sec>, refs: seq<int>, pos: int, v: int, st: State)
    requires Patched(secs, secs', refs, pos) && ValOk(secs, v, st) && forall p <- Waiting(st) :: p !in refs
    ensures ValOk(secs', v, st)
  {
    hide InBuffers, Slot;
    if st.Pending? {
      forall i | 0 <= i < |st.refs|
        ensures ChainedAt(secs', st.refs, i)
      {
        assert ChainedAt(secs, st.refs, i) && st.refs[i] in Waiting(st);
      }
    }
  }

  /** Defining a label at `pos`, once the chain of its references has been patched. */
  lemma DefineOk(secs: seq<Sec>, secs': seq<Sec>, layout: seq<Layout>, layout': seq<Layout>, lg: nat, vals: seq<int>, vals': seq<int>,
                 trace: seq<Event>, name: nat, pos: int)
    requires LinksOk(secs, layout, lg, vals, trace) && LayoutGrown(layout, layout') && name < |vals|
    requires Patched(secs, secs', Waiting(After(trace, |vals|).states[name]), pos)
    requires pos > 0 && LabelAt(layout', lg, name, pos) && vals' == vals[name := -pos]
    ensures LinksOk(secs', layout', lg, vals', trace + [Def(name, pos)])
  {
    hide InBuffers, Slot, RefAt, LabelAt, EventAt, After, LayoutGrown, Separate, Patched;
    var e := Def(name, pos);
    var k := After(trace, |vals|);
    AfterOneMore(trace, e, |vals|);
    SeparateOneMore(trace, e);
    WaitingApart(trace, |vals|, name);
    forall d | d in trace + [e]
      ensures EventAt(layout', lg, d)
    {
      if d in trace {
        GrownEvents(layout, layout', lg, d);
      } else {
        RefIsEvent(layout', lg, e);
      }
    }
    forall l | 0 <= l < |vals|
      ensures ValOk(secs', vals'[l], After(trace + [e], |vals|).states[l])
    {
      if l != name {
        PatchedVal(secs, secs', Waiting(k.states[name]), pos, vals[l], k.states[l]);
      }
    }
    PatchedBound(secs, secs', k, name, vals[name], pos);
  }

  lemma PatchedBound(secs: seq<Sec>, secs': seq<Sec>, k: Links, name: nat, v: int, pos: int)
    requires name < |k.states| && ValOk(secs, v, k.states[name]) && BoundOk(secs, k.bound)
    requires Patched(secs, secs', Waiting(k.states[name]), pos) && forall p <- Waiting(k.states[name]) :: p !in k.bound
    ensures BoundOk(secs', Define(k, name, pos).bound)
  {
    hide InBuffers, Slot;
    var w := Waiting(k.states[name]);
    forall r | r in Define(k, name, pos).bound
      ensures InBuffers(secs', r) && Slot(secs', r) == Define(k, name, pos).bound[r]
    {
      if r in w {
        var i :| 0 <= i < |w| && w[i] == r;
        assert ChainedAt(secs, w, i);
      }
    }
  }

  /** What the slot of a reference to an undefined label is left with: the next reference that waits
      for the label, or zero, which is taken for the very first slot. */
  ghost predicate Dangles(secs: seq<Sec>, layout: seq<Layout>, lg: nat, v: int) {
    InBuffers(secs, v) && (v == 0 || exists name: nat :: RefAt(layout, lg, name, v))
  }

  /** The slot of reference `i` holds the definition it is meant to get. If there is none, it holds
      minus the number of its label, if that is a global, and otherwise dangles. */
  ghost predicate BoundSlot(secs: seq<Sec>, layout: seq<Layout>, lg: nat, t: seq<Event>, i: nat)
    requires i < |t| && t[i].Ref?
  {
    InBuffers(secs, t[i].pos) &&
    var v := Slot(secs, t[i].pos);
    && (v < 0 ==> v + t[i].name == 0)
    && (v >= 0 ==> Meant(t, i, v) || (Dangles(secs, layout, lg, v) && !(10 <= t[i].name < lg)))
    && forall q :: Meant(t, i, q) ==> q == v
  }

  ghost predicate AllBound(secs: seq<Sec>, layout: seq<Layout>, lg: nat, t: seq<Event>) {
    forall i: nat :: i < |t| && t[i].Ref? ==> BoundSlot(secs, layout, lg, t, i)
  }

  ghost predicate EventsAt(layout: seq<Layout>, lg: nat, t: seq<Event>) {
    forall i: nat :: i < |t| ==> EventAt(layout, lg, t[i])
  }

  // ---------- calls ----------

  /** One call of Put. */
  datatype Call = Call(start: nat, args: seq<int>)

  /** The entries of the actions of a list, up to the one that ends it. */
  function Entries(chunk: seq<Action>, args: seq<int>): Layout {
    if chunk == [] || Ends(chunk[0]) then []
    else if !TakesArg(chunk[0]) then [Do(chunk[0], 0)] + Entries(chunk[1..], args)
    else if args == [] then []
    else [Do(chunk[0], args[0])] + Entries(chunk[1..], args[1..])
  }

  /** The arguments that entries hold. */
  function Taken(items: Layout): seq<int> {
    if items == [] then []
    else (if items[0].Do? && TakesArg(items[0].act) then [items[0].arg] else []) + Taken(items[1..])
  }

  /** A call puts the actions of its list up to the end, in order, and its arguments go to those that
      take one, in order and all of them. */
  lemma {:induction false} ArgumentsInOrder(chunk: seq<Action>, args: seq<int>, lg: nat, pc: nat, secs: nat)
    requires ArgsOk(chunk, args, lg, pc, secs)
    ensures var items := Entries(chunk, args);
      && |items| < |chunk| && Ends(chunk[|items|]) && Taken(items) == args
      && forall i :: 0 <= i < |items| ==> !Ends(chunk[i]) && items[i].Do? && items[i].act == chunk[i]
  {
    if chunk[0].Stop? || chunk[0].Section? {
    } else {
      var rest := if TakesArg(chunk[0]) then args[1..] else args;
      ArgumentsInOrder(chunk[1..], rest, lg, pc, secs);
      var items := Entries(chunk, args);
      assert items[1..] == Entries(chunk[1..], rest);
      forall i | 0 <= i < |items| ensures !Ends(chunk[i]) && items[i].Do? && items[i].act == chunk[i] {
        assert i > 0 ==> items[i] == items[1..][i - 1] && chunk[i] == chunk[1..][i - 1];
      }
    }
  }

  /** A reference to local or global label k looks back or out, one coded k + 246 looks ahead; both name
      the label that a definition coded k defines. Numbered labels are named by arguments. */
  lemma LabelNames(k: int, i: int, j: int, lg: nat)
    requires 0 < k <= 246
    ensures NameOf(Do(LabelLG(k), i), lg) == k && NameOf(Do(LabelPC, j), lg) == lg + j
    ensures NameOf(Do(RelLG(k), i), lg) == NameOf(Do(ImmLG(k), i), lg) == k && !Forward(RelLG(k)) && !Forward(ImmLG(k))
    ensures NameOf(Do(RelLG(k + 246), i), lg) == NameOf(Do(ImmLG(k + 246), i), lg) == k && Forward(RelLG(k + 246)) && Forward(ImmLG(k + 246))
    ensures NameOf(Do(RelPC, j), lg) == NameOf(Do(ImmPC, j), lg) == lg + j && !Forward(RelPC) && !Forward(ImmPC)
  {
  }

  function CallEntries(acts: seq<seq<Action>>, c: Call): Layout {
    if c.start < |acts| then [Begin(c.start)] + Entries(acts[c.start], c.args) else []
  }

  function CallsEntries(acts: seq<seq<Action>>, calls: seq<Call>): Layout {
    if calls == [] then [] else CallsEntries(acts, calls[..|calls| - 1]) + CallEntries(acts, calls[|calls| - 1])
  }

  /** The references and definitions among entries that are put from slot `slot` of section `s` on. */
  function Events(items: Layout, lg: nat, s: nat, slot: nat): seq<Event> {
    if items == [] then []
    else EventOf(items[0], lg, Pos(s, slot)) + Events(items[1..], lg, s, slot + Slots(items[0]))
  }

  function EventOf(it: Item, lg: nat, pos: int): seq<Event> {
    if it.Do? && IsRef(it.act) && NameOf(it, lg) >= 0 then [Ref(NameOf(it, lg), Forward(it.act), pos)]
    else if it.Do? && IsLabel(it.act) && NameOf(it, lg) >= 0 then [Def(NameOf(it, lg), pos)]
    else []
  }

  /** The arguments fit the action list: one for each action that takes one, space not negative,
      labels and sections in range. */
  predicate ArgsOk(chunk: seq<Action>, args: seq<int>, lg: nat, pc: nat, secs: nat) {
    if chunk == [] then false
    else if chunk[0].Stop? then args == []
    else if chunk[0].Section? then args == [] && 0 <= chunk[0].n < secs
    else if TakesArg(chunk[0]) then
      args != [] && ItemOk(Do(chunk[0], args[0]), lg, pc) && ArgsOk(chunk[1..], args[1..], lg, pc, secs)
    else ItemOk(Do(chunk[0], 0), lg, pc) && ArgsOk(chunk[1..], args, lg, pc, secs)
  }

  predicate ItemOk(it: Item, lg: nat, pc: nat) {
    GoodItem(it) && (it.Do? && (IsRef(it.act) || IsLabel(it.act)) ==>
      0 <= NameOf(it, lg) < lg + pc && (it.act.RelPC? || it.act.ImmPC? || it.act.LabelPC? ==> it.arg >= 0) && ((it.act.RelLG? || it.act.ImmLG? || it.act.LabelLG?) ==> NameOf(it, lg) < lg))
  }

  lemma PosParts(s: nat, slot: nat)
    requires slot < BIAS
    ensures Pos(s, slot) / BIAS == s && Pos(s, slot) % BIAS == slot
  {}

  /** Entries lie in their section's buffer. */
  lemma StoredInBuffers(secs: seq<Sec>, layout: seq<Layout>, s: nat, k: nat, pos: int)
    requires |secs| == |layout| && Stored(layout, s, k, pos) && SecOk(secs[s], layout[s]) && Slots(layout[s][k]) > 0
    ensures InBuffers(secs, pos)
  {
    hide SlotSum, Estimate;
    assert FilledAt(secs[s].buf, layout[s], k);
    PosParts(s, SlotSum(layout[s][..k]));
  }

  lemma EventsInBuffers(secs: seq<Sec>, layout: seq<Layout>, lg: nat, vals: seq<int>, trace: seq<Event>)
    requires |secs| == |layout| && LinksOk(secs, layout, lg, vals, trace)
    requires forall s :: 0 <= s < |secs| ==> SecOk(secs[s], layout[s])
    ensures forall e <- trace :: e.Ref? ==> InBuffers(secs, e.pos)
  {
    hide SecOk, InBuffers;
    forall e | e in trace && e.Ref?
      ensures InBuffers(secs, e.pos)
    {
      var s: nat, k: nat :| RefIs(layout, lg, e.name, e.pos, s, k);
      StoredInBuffers(secs, layout, s, k, e.pos);
    }
  }

  /** One more entry in section `s`. */
  lemma TracedAppend(layout: seq<Layout>, s: nat, it: Item, lg: nat, trace: seq<Event>, trace': seq<Event>)
    requires AllTraced(layout, lg, trace) && s < |layout| && trace <= trace'
    requires TracedAt(it, lg, trace', Pos(s, SlotSum(layout[s])))
    ensures AllTraced(layout[s := layout[s] + [it]], lg, trace')
  {
    hide SlotSum, IsRefOf;
    var layout' := layout[s := layout[s] + [it]];
    SumsOneMore(layout[s], it);
    assert layout[s][..|layout[s]|] == layout[s];
    forall r: nat, k: nat, pos: int | Stored(layout', r, k, pos)
      ensures TracedAt(layout'[r][k], lg, trace', pos)
    {
      if r != s || k < |layout[s]| {
        assert Stored(layout, r, k, pos) && TracedAt(layout[r][k], lg, trace, pos);
        RefStays(trace, trace', NameOr(layout[r][k], lg), pos);
      }
    }
  }

  function NameOr(it: Item, lg: nat): int {
    if it.Do? && (IsRef(it.act) || IsLabel(it.act)) then NameOf(it, lg) else -1
  }

  lemma RefStays(trace: seq<Event>, trace': seq<Event>, name: int, pos: int)
    requires trace <= trace'
    ensures HasRef(trace, name, pos) ==> HasRef(trace', name, pos)
  {
    if HasRef(trace, name, pos) {
      var i :| 0 <= i < |trace| && trace[i].Ref? && trace[i].name == name && trace[i].pos == pos;
      assert trace'[i] == trace[i];
    }
  }

  lemma LinksKept(secs: seq<Sec>, secs': seq<Sec>, layout: seq<Layout>, layout': seq<Layout>, lg: nat, vals: seq<int>, trace: seq<Event>)
    requires LinksOk(secs, layout, lg, vals, trace) && Grown(secs, secs') && LayoutGrown(layout, layout')
    ensures LinksOk(secs', layout', lg, vals, trace)
  {
    hide InBuffers, Slot, EventAt, After, Grown, LayoutGrown;
    GrownSlots(secs, secs');
    forall e | e in trace
      ensures EventAt(layout', lg, e)
    {
      GrownEvents(layout, layout', lg, e);
    }
    forall l | 0 <= l < |vals|
      ensures ValOk(secs', vals[l], After(trace, |vals|).states[l])
    {
      GrownVal(secs, secs', vals[l], After(trace, |vals|).states[l]);
    }
  }

  /** Writing to a reference's slot leaves everything else in the buffer alone. */
  lemma SetRefKeeps(secs: seq<Sec>, layout: seq<Layout>, lg: nat, name: nat, pos: int, v: int)
    requires |secs| == |layout| && RefAt(layout, lg, name, pos) && InBuffers(secs, pos)
    requires forall s :: 0 <= s < |secs| ==> SecOk(secs[s], layout[s])
    ensures var secs' := SetSlot(secs, pos, v);
            |secs'| == |secs| && forall s :: 0 <= s < |secs| ==> SecOk(secs'[s], layout[s]) && |secs'[s].buf| == |secs[s].buf|
  {
    hide SlotSum, Estimate;
    var s: nat, k: nat :| RefIs(layout, lg, name, pos, s, k);
    var items := layout[s];
    assert FilledAt(secs[s].buf, items, k);
    PosParts(s, SlotSum(items[..k]));
    var secs' := SetSlot(secs, pos, v);
    forall j | 0 <= j < |items|
      ensures FilledAt(secs'[s].buf, items, j)
    {
      assert FilledAt(secs[s].buf, items, j);
      if j < k {
        SlotsApart(items, j, k);
      } else if k < j {
        SlotsApart(items, k, j);
      }
    }
  }

  lemma SetSlotReads(secs: seq<Sec>, pos: int, v: int)
    requires InBuffers(secs, pos)
    ensures forall p :: InBuffers(SetSlot(secs, pos, v), p) <==> InBuffers(secs, p)
    ensures forall p :: InBuffers(secs, p) ==> Slot(SetSlot(secs, pos, v), p) == if p == pos then v else Slot(secs, p)
  {}

  /** A reference's slot holds a position of its label, or minus the number of a global, or dangles. */
  ghost predicate TargetOk(layout: seq<Layout>, lg: nat, name: int, v: int) {
    if v < 0 then 10 <= name < lg && v == -name else name >= 0 && LabelAt(layout, lg, name, v)
  }

  ghost predicate RefOk(secs: seq<Sec>, layout: seq<Layout>, lg: nat, it: Item, pos: int) {
    NumberOk(it, lg) && (it.Do? && IsRef(it.act) ==>
      InBuffers(secs, pos) && (TargetOk(layout, lg, NameOf(it, lg), Slot(secs, pos)) || Dangles(secs, layout, lg, Slot(secs, pos)))
      && (Slot(secs, pos) < 0 ==> it.act.RelLG? || it.act.ImmLG?))
  }

  ghost predicate RefsOk(secs: seq<Sec>, layout: seq<Layout>, lg: nat) {
    forall s: nat, k: nat, pos: int :: Stored(layout, s, k, pos) ==> RefOk(secs, layout, lg, layout[s][k], pos)
  }
}
