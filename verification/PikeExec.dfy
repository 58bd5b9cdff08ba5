/** The outer loop of the Pike machine over one final buffer, with the first-byte shortcut. */
module PikeExec {
  import opened Options
  import opened Regexes
  import opened Bytecode
  import opened Patterns
  import opened Backtracking
  import opened PikeSpec
  import opened Captures
  import opened PikeVm

  datatype Status = Matched(regexId: nat) | Declined | Error

  /** The caller's vector after a hit: the slots of the regex that matched, the rest unset. */
  function Ovector(h: Hit, multiNcaps: seq<nat>, size: nat): seq<int>
    requires h.regexId < |multiNcaps|
  {
    var from, to := 2 * Base(multiNcaps, h.regexId), 2 * Base(multiNcaps, h.regexId + 1);
    seq(size, k requires 0 <= k => if from + k < to && from + k < |h.caps| then h.caps[from + k] else -1)
  }

  /** The instructions a first-byte search can look for. */
  predicate IsLeading(ins: Instr) {
    ins.Char? || ins.In? || ins.NotIn?
  }

  predicate LeadingOk(P: Program, leading: seq<nat>) {
    forall k :: 0 <= k < |leading| ==> leading[k] < |P| && IsLeading(P[leading[k]])
  }

  /** All marks are behind the machine's tag. */
  ghost predicate Settled(ctx: Context)
    reads ctx`tag, ctx.tags
  {
    forall p :: 0 <= p < ctx.tags.Length ==> ctx.tags[p] <= ctx.tag
  }

  twostate lemma NewTag(ctx: Context)
    requires old(Settled(ctx)) && ctx.tag == old(ctx.tag) + 1 && unchanged(ctx.tags)
    ensures ctx.MarksNow() == {} && Settled(ctx)
  {}

  twostate lemma StillSettled(ctx: Context)
    requires old(Settled(ctx)) && ctx.tag == old(ctx.tag)
    requires forall p :: 0 <= p < ctx.tags.Length ==> ctx.tags[p] == old(ctx.tags[p]) || ctx.tags[p] == ctx.tag
    ensures Settled(ctx)
  {}

  method FindFirstByte(code: Program, leading: seq<nat>, s: seq<Byte>, from: nat) returns (p: nat)
    requires from <= |s| && LeadingOk(code, leading)
    ensures p == FirstByte(code, leading, s, from)
  {
    p := from;
    if |leading| == 1 && code[leading[0]].Char? {
      while p < |s| && s[p] != code[leading[0]].ch
        invariant p <= |s| && FirstByte(code, leading, s, p) == FirstByte(code, leading, s, from)
      {
        p := p + 1;
      }
      return;
    }
    while p < |s|
      invariant p <= |s| && FirstByte(code, leading, s, p) == FirstByte(code, leading, s, from)
    {
      for i := 0 to |leading|
        invariant forall k :: 0 <= k < i ==> !Eats(code[leading[k]], s[p])
      {
        if Eats(code[leading[i]], s[p]) {
          return;
        }
      }
      p := p + 1;
    }
  }

  /** A capture with all slots unset, held by nobody yet. */
  method Blank(ctx: Context, clist: Queue, m: Capture?) returns (cap: Capture)
    requires clist.items == [] && ctx.Sound(HitHeld(m))
    modifies ctx.pool, ctx.pool.all
    ensures cap.vector == Unset(ctx.slots) && cap in ctx.pool.all
    ensures ctx.Sound(HitHeld(m) + Held(clist.items) + multiset{cap}) && HitOf(m) == old(HitOf(m))
    ensures m != null ==> m in old(ctx.pool.all) && m != cap
    ensures old(ctx.pool.all) <= ctx.pool.all && fresh(ctx.pool.all - old(ctx.pool.all))
  {
    assert m != null ==> m in HitHeld(m);
    cap := ctx.pool.Create(ctx.slots, true, HitHeld(m));
    assert HitHeld(m) + Held([]) + multiset{cap} == HitHeld(m) + multiset{cap};
  }

  /** A cleared list is filled with the threads a run starts with at `sp`. */
  method Enter(ctx: Context, clist: Queue, s: seq<Byte>, sp: nat, m: Capture?)
    requires ctx.Shape() && sp <= |s| && clist.items == [] && Settled(ctx)
    requires ctx.Sound(HitHeld(m))
    modifies ctx, ctx.tags, clist, ctx.pool, ctx.pool.all
    ensures View(clist.items) == StartThreads(ctx.code, s, ctx.slots, sp) && AllLive(ctx.code, View(clist.items))
    ensures ctx.Sound(Held(clist.items) + HitHeld(m)) && HitOf(m) == old(HitOf(m))
    ensures ctx.seenStart == (old(ctx.seenStart) || SplitsAtStart(ctx.code)) && Settled(ctx)
    ensures old(ctx.pool.all) <= ctx.pool.all && fresh(ctx.pool.all - old(ctx.pool.all))
  {
    hide *;
    AtStart(ctx);
    var cap := Blank(ctx, clist, m);
    HitOnly(ctx, clist, m, cap);
    label L:
    ctx.tag := ctx.tag + 1;
    NewTag@L(ctx);
    ghost var seen := ctx.seenStart;
    label M:
    var hit := ctx.AddThread(clist, 0, cap, s, sp, false, HitHeld(m));
    StillSettled@M(ctx);
    Entered(ctx, clist, s, sp, m, hit, seen);
    HitKept@M(m);
  }

  lemma AtStart(ctx: Context)
    requires ctx.Shape()
    ensures Live(ctx.code, 0)
  {}

  lemma HitOnly(ctx: Context, clist: Queue, m: Capture?, cap: Capture)
    requires clist.items == []
    ensures View(clist.items) == []
    ensures m != null ==> m in HitHeld(m)
  {}

  lemma Entered(ctx: Context, clist: Queue, s: seq<Byte>, sp: nat, m: Capture?, hit: Capture?, seen: bool)
    requires ctx.Shape() && sp <= |s|
    requires Follows(Add(ctx.code, s, sp, {}, 0, Unset(ctx.slots), false), ctx.MarksNow(), HitOf(hit), [], View(clist.items))
    requires SeenFits(ctx.code, seen, {}, ctx.seenStart, ctx.MarksNow())
    requires ctx.Sound(HitHeld(m) + Held(clist.items) + HitHeld(hit))
    ensures View(clist.items) == StartThreads(ctx.code, s, ctx.slots, sp) && AllLive(ctx.code, View(clist.items))
    ensures ctx.Sound(Held(clist.items) + HitHeld(m))
    ensures ctx.seenStart == (seen || SplitsAtStart(ctx.code))
  {
    hide View, Add, Held;
    AddStaysLive(ctx.code, s, sp, {}, 0, Unset(ctx.slots), false);
    assert HitHeld(m) + Held(clist.items) + HitHeld(hit) == Held(clist.items) + HitHeld(m);
  }

  twostate lemma HitKept(m: Capture?)
    requires m != null ==> m.vector == old(m.vector) && m.regexId == old(m.regexId)
    ensures HitOf(m) == old(HitOf(m))
  {}

  /** The queue holds the initial states, and one more thread, whichever it is. */
  method SameStates(clist: Queue, initial: seq<nat>) returns (same: bool)
    ensures same == LooksFresh(initial, View(clist.items))
  {
    if |clist.items| != |initial| + 1 {
      return false;
    }
    for i := 0 to |initial|
      invariant forall k :: 0 <= k < i ==> clist.items[k].pc == initial[k]
    {
      if clist.items[i].pc != initial[i] {
        return false;
      }
    }
    return true;
  }

  /** The shortcut: from a list that looks fresh to the next leading byte. */
  method Jump(ctx: Context, clist: Queue, leading: seq<nat>, initial: seq<nat>, s: seq<Byte>, sp: nat, m: Capture?)
    returns (p: nat)
    requires ctx.Shape() && sp <= |s| && Settled(ctx) && LeadingOk(ctx.code, leading)
    requires AllLive(ctx.code, View(clist.items)) && ctx.Sound(Held(clist.items) + HitHeld(m))
    modifies ctx, ctx.tags, clist, ctx.pool, ctx.pool.all
    ensures p == if leading != [] && old(ctx.seenStart) && sp < |s| && LooksFresh(initial, old(View(clist.items)))
                 then FirstByte(ctx.code, leading, s, sp) else sp
    ensures p > sp ==> View(clist.items) == StartThreads(ctx.code, s, ctx.slots, p) && ctx.seenStart == SplitsAtStart(ctx.code)
    ensures p == sp ==> View(clist.items) == old(View(clist.items)) && ctx.seenStart == (old(ctx.seenStart) && leading == [])
    ensures AllLive(ctx.code, View(clist.items)) && ctx.Sound(Held(clist.items) + HitHeld(m))
    ensures HitOf(m) == old(HitOf(m)) && Settled(ctx)
    ensures old(ctx.pool.all) <= ctx.pool.all && fresh(ctx.pool.all - old(ctx.pool.all))
  {
    hide *;
    p := sp;
    if leading != [] && ctx.seenStart {
      ctx.seenStart := false;
      var same := SameStates(clist, initial);
      if sp < |s| && same {
        p := FindFirstByte(ctx.code, leading, s, sp);
        if p > sp {
          Empty(ctx, clist, m);
          Enter(ctx, clist, s, p, m);
        }
      }
    }
  }

  /** Clears a list, next to a hit that stays. */
  method Empty(ctx: Context, clist: Queue, m: Capture?)
    requires ctx.Sound(Held(clist.items) + HitHeld(m))
    modifies clist, ctx.pool`free, ctx.pool.all
    ensures clist.items == [] && ctx.Sound(HitHeld(m)) && HitOf(m) == old(HitOf(m)) && ctx.pool.all == old(ctx.pool.all)
  {
    hide View, Held;
    assert Held(clist.items) + HitHeld(m) == HitHeld(m) + Held(clist.items);
    assert m != null ==> m in HitHeld(m) + Held(clist.items);
    ctx.Clear(clist, HitHeld(m));
  }

  lemma Nonempty(l: seq<Node>)
    ensures l != [] <==> View(l) != []
  {}

  lemma NothingNext(ctx: Context, clist: Queue, nlist: Queue, m: Capture?)
    requires nlist.items == [] && ctx.Sound(Held(clist.items) + HitHeld(m))
    ensures ctx.Sound(Held(clist.items) + HitHeld(m) + Held(nlist.items))
  {
    assert Held(clist.items) + HitHeld(m) + Held([]) == Held(clist.items) + HitHeld(m);
  }

  lemma SeenNow(P: Program, seen: bool, seen': bool, marks: set<nat>)
    requires SeenFits(P, seen, {}, seen', marks)
    ensures seen' == (seen || (SplitsAtStart(P) && 0 in marks))
  {}

  lemma HitAlone(ctx: Context, l: seq<Node>, m: Capture?)
    requires ctx.Sound(Held(l) + HitHeld(m))
    ensures ctx.Sound(HitHeld(m))
  {
    ctx.pool.Fewer(Held(l) + HitHeld(m), HitHeld(m));
    forall c | c in HitHeld(m)
      ensures c in Held(l) + HitHeld(m)
    {}
  }

  /** One round of the loop. */
  method Round(ctx: Context, clist: Queue, nlist: Queue, leading: seq<nat>, initial: seq<nat>, s: seq<Byte>, sp: nat, matched: Capture?,
               ghost whole: Option<Hit>)
    returns (next: nat, m: Capture?)
    requires ctx.Shape() && sp <= |s| && Settled(ctx) && LeadingOk(ctx.code, leading)
    requires clist != nlist && clist.items != [] && nlist.items == []
    requires AllLive(ctx.code, View(clist.items)) && ctx.Sound(Held(clist.items) + HitHeld(matched))
    requires whole == RunSkipping(ctx.code, s, ctx.slots, leading, initial, sp, View(clist.items), ctx.seenStart, HitOf(matched))
    modifies ctx, ctx.tags, clist, nlist, ctx.pool, ctx.pool.all
    ensures next > sp && Settled(ctx)
    ensures if next > |s| then HitOf(m) == whole && ctx.Sound(HitHeld(m))
            else && clist.items == [] && AllLive(ctx.code, View(nlist.items)) && ctx.Sound(Held(nlist.items) + HitHeld(m))
                 && whole == RunSkipping(ctx.code, s, ctx.slots, leading, initial, next, View(nlist.items), ctx.seenStart, HitOf(m))
    ensures old(ctx.pool.all) <= ctx.pool.all && fresh(ctx.pool.all - old(ctx.pool.all))
  {
    hide *;
    ghost var from, seen, hit0 := View(clist.items), ctx.seenStart, HitOf(matched);
    Nonempty(clist.items);
    var p := Jump(ctx, clist, leading, initial, s, sp, matched);
    ghost var from', seen' := View(clist.items), ctx.seenStart;
    SkippingRound(ctx.code, s, ctx.slots, leading, initial, sp, from, seen, hit0, p, from', seen');
    if p > sp && p == |s| {
      HitAlone(ctx, clist.items, matched);
      return p + 1, matched;
    }
    label L:
    ctx.tag := ctx.tag + 1;
    NewTag@L(ctx);
    NothingNext(ctx, clist, nlist, matched);
    label M:
    m := ctx.RunQueue(clist, nlist, s, p, matched);
    StillSettled@M(ctx);
    SeenNow(ctx.code, seen', ctx.seenStart, ctx.MarksNow());
    next := p + 1;
    if p == |s| {
      HitAlone(ctx, nlist.items, m);
    }
  }

  /** Copies the slots of the matched regex to the caller's vector. */
  method PrepareMatched(matched: Capture, multiNcaps: seq<nat>, ovector: array<int>) returns (ok: bool)
    requires |matched.vector| == 2 * Base(multiNcaps, |multiNcaps|)
    requires forall c <- multiNcaps :: 2 * (c + 1) <= ovector.Length
    modifies ovector
    ensures ok == (matched.regexId < |multiNcaps|)
    ensures if ok then ovector[..] == Ovector(Hit(matched.vector, matched.regexId), multiNcaps, ovector.Length)
            else ovector[..] == old(ovector[..])
  {
    if matched.regexId >= |multiNcaps| {
      return false;
    }
    var ofs := 0;
    for i := 0 to matched.regexId
      invariant ofs == Base(multiNcaps, i)
    {
      ofs := ofs + multiNcaps[i] + 1;
    }
    ofs := 2 * ofs;
    var len := 2 * (multiNcaps[matched.regexId] + 1);
    BaseGrows(multiNcaps, matched.regexId + 1, |multiNcaps|);
    assert multiNcaps[matched.regexId] in multiNcaps;
    assert ofs + len == 2 * Base(multiNcaps, matched.regexId + 1) <= |matched.vector|;
    for k := 0 to len
      invariant forall j :: 0 <= j < k ==> ovector[j] == matched.vector[ofs + j]
    {
      ovector[k] := matched.vector[ofs + k];
    }
    for k := len to ovector.Length
      invariant forall j :: 0 <= j < len ==> ovector[j] == matched.vector[ofs + j]
      invariant forall j :: len <= j < k ==> ovector[j] == -1
    {
      ovector[k] := -1;
    }
    ok := true;
  }

  /** What a run that ended with `hit` reports, and leaves in the caller's vector. */
  ghost predicate Reports(hit: Option<Hit>, multiNcaps: seq<nat>, rc: Status, before: seq<int>, after: seq<int>) {
    if hit == None then rc == Declined && after == before
    else if hit.value.regexId >= |multiNcaps| then rc == Error && after == before
    else rc == Matched(hit.value.regexId) && after == Ovector(hit.value, multiNcaps, |after|)
  }

  lemma Ready(ctx: Context)
    requires ctx.Shape() && ctx.program.MarksOld() && ctx.tag == ctx.program.tag && ctx.Sound(multiset{})
    ensures Settled(ctx) && ctx.Sound(HitHeld(null)) && HitOf(null) == None && ctx.first != ctx.second
    ensures ctx.tags == ctx.program.tags
  {}

  lemma Unmatched(ctx: Context, clist: Queue, m: Capture?)
    requires clist.items == [] && ctx.Sound(Held(clist.items) + HitHeld(m))
    ensures View(clist.items) == [] && ctx.Sound(HitHeld(m))
  {
    HitAlone(ctx, clist.items, m);
  }

  lemma RunStarts(P: Program, s: seq<Byte>, slots: nat, leading: seq<nat>)
    ensures var first := StartThreads(P, s, slots, 0);
            SkippingRun(P, s, slots, leading)
            == RunSkipping(P, s, slots, leading, InitialStates(first), 0, first, SplitsAtStart(P), None)
  {}

  lemma NoHit(ctx: Context, multiNcaps: seq<nat>, v: seq<int>)
    requires ctx.Sound(HitHeld(null))
    ensures Reports(HitOf(null), multiNcaps, Declined, v, v) && ctx.Sound(multiset{})
  {}

  lemma ItsSlots(ctx: Context, m: Capture)
    requires ctx.Sound(HitHeld(m))
    ensures |m.vector| == ctx.slots && m in ctx.pool.all && HitOf(m) == Some(Hit(m.vector, m.regexId))
    ensures ctx.Sound(multiset{} + multiset{m}) && ctx.Sound(multiset{})
  {
    assert m in HitHeld(m);
    assert multiset{} + multiset{m} == HitHeld(m);
    HitAlone(ctx, [], m);
    ctx.pool.Fewer(HitHeld(m), multiset{});
  }

  lemma HitReported(h: Hit, multiNcaps: seq<nat>, before: seq<int>, after: seq<int>)
    ensures h.regexId < |multiNcaps| && after == Ovector(h, multiNcaps, |after|) ==>
              Reports(Some(h), multiNcaps, Matched(h.regexId), before, after)
    ensures h.regexId >= |multiNcaps| && after == before ==> Reports(Some(h), multiNcaps, Error, before, after)
  {}

  lemma AllBehind(ctx: Context)
    requires ctx.Shape() && Settled(ctx) && ctx.program.tag == ctx.tag
    ensures ctx.program.MarksOld()
  {}

  /** The whole input in one final buffer, on a context just created. */
  method Exec(ctx: Context, leading: seq<nat>, multiNcaps: seq<nat>, ovector: array<int>, s: seq<Byte>) returns (rc: Status)
    requires ctx.Shape() && ctx.first.items == [] && ctx.second.items == [] && !ctx.seenStart
    requires ctx.program.MarksOld() && ctx.Sound(multiset{})
    requires LeadingOk(ctx.code, leading)
    requires ctx.slots == 2 * Base(multiNcaps, |multiNcaps|) && forall c <- multiNcaps :: 2 * (c + 1) <= ovector.Length
    modifies ctx, ctx.program, ctx.tags, ctx.first, ctx.second, ctx.pool, ctx.pool.all, ovector
    ensures Reports(SkippingRun(ctx.code, s, ctx.slots, leading), multiNcaps, rc, old(ovector[..]), ovector[..])
    ensures ctx.Sound(multiset{}) && ctx.program.MarksOld()
  {
    hide *;
    ghost var whole := SkippingRun(ctx.code, s, ctx.slots, leading);
    RunStarts(ctx.code, s, ctx.slots, leading);
    var clist, nlist := ctx.first, ctx.second;
    ctx.tag := ctx.program.tag;
    Ready(ctx);
    Enter(ctx, clist, s, 0, null);
    var initial := Initial(clist);
    var sp := 0;
    var matched: Capture? := null;
    while sp <= |s| && clist.items != []
      invariant {clist, nlist} == {ctx.first, ctx.second} && clist != nlist
      invariant sp <= |s| ==> nlist.items == [] && AllLive(ctx.code, View(clist.items)) && ctx.Sound(Held(clist.items) + HitHeld(matched))
      invariant sp <= |s| ==> whole == RunSkipping(ctx.code, s, ctx.slots, leading, initial, sp, View(clist.items), ctx.seenStart, HitOf(matched))
      invariant sp > |s| ==> whole == HitOf(matched) && ctx.Sound(HitHeld(matched))
      invariant old(ctx.pool.all) <= ctx.pool.all && fresh(ctx.pool.all - old(ctx.pool.all))
      invariant Settled(ctx) && ovector[..] == old(ovector[..])
      decreases |s| + 1 - sp
    {
      sp, matched := Round(ctx, clist, nlist, leading, initial, s, sp, matched, whole);
      clist, nlist := nlist, clist;
    }
    if sp <= |s| {
      Unmatched(ctx, clist, matched);
      RunStops(ctx.code, s, ctx.slots, leading, initial, sp, ctx.seenStart, HitOf(matched));
    }
    rc := Finish(ctx, clist, matched, multiNcaps, ovector, whole);
  }

  /** After the loop: the result, and the release of what the run still holds. */
  method Finish(ctx: Context, clist: Queue, matched: Capture?, multiNcaps: seq<nat>, ovector: array<int>, ghost whole: Option<Hit>)
    returns (rc: Status)
    requires ctx.Shape() && Settled(ctx) && ctx.Sound(HitHeld(matched)) && whole == HitOf(matched)
    requires ctx.slots == 2 * Base(multiNcaps, |multiNcaps|) && forall c <- multiNcaps :: 2 * (c + 1) <= ovector.Length
    modifies ctx.program, clist, ctx.pool, ctx.pool.all, ovector
    ensures Reports(whole, multiNcaps, rc, old(ovector[..]), ovector[..])
    ensures ctx.Sound(multiset{}) && ctx.program.MarksOld()
  {
    hide *;
    ctx.program.tag := ctx.tag;
    AllBehind(ctx);
    if matched == null {
      NoHit(ctx, multiNcaps, ovector[..]);
      return Declined;
    }
    ItsSlots(ctx, matched);
    var ok := PrepareMatched(matched, multiNcaps, ovector);
    HitReported(Hit(matched.vector, matched.regexId), multiNcaps, old(ovector[..]), ovector[..]);
    rc := if ok then Matched(matched.regexId) else Error;
    if ok {
      clist.items := [];
      ctx.Release(matched, multiset{});
    }
  }

  method Initial(clist: Queue) returns (initial: seq<nat>)
    ensures initial == InitialStates(View(clist.items))
  {
    initial := [];
    var i := 0;
    while i + 1 < |clist.items|
      invariant i <= |InitialStates(View(clist.items))|
      invariant initial == InitialStates(View(clist.items))[..i]
    {
      initial := initial + [clist.items[i].pc];
      i := i + 1;
    }
  }
}
