/** The assembler: calls put actions into section buffers, linking decides which branches are
    short, encoding writes the bytes. */
module Assembler {
  import opened Lists
  import opened Asm
  import opened Fixups
  import opened AsmPut
  import opened AsmMath
  import opened AsmLink
  import opened AsmEncode
  import opened AsmRead

  class DasmState {
    const actionlist: seq<seq<Action>>
    var lglabels: seq<int>
    var pclabels: seq<int>
    var sections: seq<Sec>
    var section: nat
    var codesize: int
    ghost var targets: seq<int>
    ghost var cuts: seq<int>
    ghost var layout: seq<Layout>
    ghost var trace: seq<Event>
    ghost var calls: seq<seq<Call>>

    constructor (actionlist: seq<seq<Action>>, maxsection: nat, maxgl: nat, maxpc: nat)
      requires 0 < maxsection <= 127 && forall c <- actionlist :: GoodChunk(c)
      ensures Valid() && this.actionlist == actionlist && section == 0 && |sections| == maxsection
      ensures trace == [] && forall s :: 0 <= s < maxsection ==> calls[s] == []
    {
      this.actionlist := actionlist;
      lglabels := seq(10 + maxgl, _ => 0);
      pclabels := seq(maxpc, _ => 0);
      sections := seq(maxsection, _ => Sec([], 0));
      section, codesize, targets, cuts := 0, 0, [], [];
      layout, trace, calls := seq(maxsection, _ => []), [], seq(maxsection, _ => []);
      new;
      EmptyLinks();
    }

    lemma EmptyLinks()
      requires trace == [] && (forall s :: 0 <= s < |layout| ==> layout[s] == [])
      requires forall l :: 0 <= l < |Vals()| ==> Vals()[l] == 0
      ensures LinksOk(sections, layout, |lglabels|, Vals(), trace) && AllTraced(layout, |lglabels|, trace)
    {}

    ghost function Vals(): (v: seq<int>)
      reads `lglabels, `pclabels
      ensures |v| == |lglabels| + |pclabels|
    {
      lglabels + pclabels
    }

    /** The buffers hold the layout, and the label arrays and reference slots say where every
        reference goes. */
    ghost predicate Sound()
      reads `lglabels, `pclabels, `sections, `section, `layout, `trace
    {
      && |sections| == |layout| <= 127 && section < |sections|
      && (forall s :: 0 <= s < |sections| ==> SecOk(sections[s], layout[s]))
      && LinksOk(sections, layout, |lglabels|, Vals(), trace) && AllTraced(layout, |lglabels|, trace)
    }

    /** Between calls the layout is that of the calls made. */
    ghost predicate Valid()
      reads this
    {
      && Sound() && |calls| == |layout| && (forall c <- actionlist :: GoodChunk(c))
      && forall s :: 0 <= s < |layout| ==> layout[s] == CallsEntries(actionlist, calls[s]) && CallsOk(actionlist, calls[s])
    }

    function Get(name: nat): int
      requires name < |lglabels| + |pclabels|
      reads `lglabels, `pclabels
      ensures Get(name) == Vals()[name]
    {
      if name < |lglabels| then lglabels[name] else pclabels[name - |lglabels|]
    }

    method Set(name: nat, v: int)
      requires name < |lglabels| + |pclabels|
      modifies `lglabels, `pclabels
      ensures Vals() == old(Vals())[name := v] && |lglabels| == old(|lglabels|) && |pclabels| == old(|pclabels|)
    {
      if name < |lglabels| {
        lglabels := lglabels[name := v];
      } else {
        pclabels := pclabels[name - |lglabels| := v];
      }
    }

    ghost predicate Filled()
      reads `sections, `layout, `section
    {
      |sections| == |layout| <= 127 && section < |sections| && forall s :: 0 <= s < |sections| ==> SecOk(sections[s], layout[s])
    }

    /** Writes an entry's slots at the end of the current section. */
    method Append(it: Item, vals: seq<int>)
      requires Filled() && |sections[section].buf| + |vals| <= BIAS && ValsFit(it, vals, sections[section].ofs)
      modifies `sections, `layout
      ensures Filled() && layout == old(layout)[section := old(layout[section]) + [it]]
      ensures Grown(old(sections), sections) && LayoutGrown(old(layout), layout)
      ensures sections[section].buf == old(sections[section].buf) + vals
    {
      hide SecOk;
      var sec := sections[section];
      AppendOk(sec, layout[section], it, vals, Sec(sec.buf + vals, sec.ofs + Most(it)));
      sections := sections[section := Sec(sec.buf + vals, sec.ofs + Most(it))];
      layout := layout[section := layout[section] + [it]];
    }

    /** Puts an entry that is neither a reference nor a label. */
    method PutPlain(it: Item, vals: seq<int>)
      requires Sound() && |sections[section].buf| + |vals| <= BIAS && ValsFit(it, vals, sections[section].ofs)
      requires it.Do? ==> !IsRef(it.act) && !IsLabel(it.act)
      modifies `sections, `layout
      ensures Sound() && layout == old(layout)[section := old(layout[section]) + [it]]
      ensures |sections| == old(|sections|) && |sections[section].buf| == old(|sections[section].buf|) + |vals|
    {
      hide *;
      SoundHas();
      Append(it, vals);
      LinksKept(old(sections), sections, old(layout), layout, |lglabels|, Vals(), trace);
      PlainTraced(it, old(layout), section, |lglabels|, trace);
      SoundAgain();
    }

    lemma SoundHas()
      requires Sound()
      ensures Filled() && LinksOk(sections, layout, |lglabels|, Vals(), trace) && AllTraced(layout, |lglabels|, trace)
      ensures |sections| == |layout| && section < |sections|
    {}

    lemma FilledParts()
      requires Filled()
      ensures |sections| == |layout| <= 127 && section < |sections|
      ensures forall s :: 0 <= s < |sections| ==> SecOk(sections[s], layout[s])
    {}

    lemma SoundAgain()
      requires Filled() && LinksOk(sections, layout, |lglabels|, Vals(), trace) && AllTraced(layout, |lglabels|, trace)
      ensures Sound() && |sections| == |layout| && section < |sections|
    {}

    /** Puts a reference: its slot gets the position of its label if the label is defined, or the
        head of the label's chain, which then starts here. */
    method PutRef(it: Item)
      requires Sound() && it.Do? && IsRef(it.act) && ItemOk(it, |lglabels|, |pclabels|)
      requires |sections[section].buf| + Slots(it) <= BIAS && layout[section] != [] && layout[section][0].Begin?
      modifies `sections, `layout, `trace, `lglabels, `pclabels
      ensures |lglabels| == old(|lglabels|) && |pclabels| == old(|pclabels|)
      ensures Sound() && layout == old(layout)[section := old(layout[section]) + [it]]
      ensures trace == old(trace) + [Ref(NameOf(it, |lglabels|), Forward(it.act), Pos(section, old(|sections[section].buf|)))]
      ensures |sections| == old(|sections|) && |sections[section].buf| == old(|sections[section].buf|) + Slots(it)
    {
      hide *;
      SoundHas();
      FilledParts();
      ItemNames(it, |lglabels|, |pclabels|);
      ghost var secs0, layout0, vals0 := sections, layout, Vals();
      var name := NameOf(it, |lglabels|);
      var pos := Pos(section, |sections[section].buf|);
      var n := Get(name);
      var stored := if !Forward(it.act) && n < 0 then -n else if n < 0 then 0 else n;
      if !(!Forward(it.act) && n < 0) {
        Set(name, pos);
      }
      var vals := if IsRel(it.act) then [stored, sections[section].ofs + 4] else [stored];
      RefFits(it, vals, stored, sections[section].ofs);
      Append(it, vals);
      FilledParts();
      NewRef(secs0, layout0, section, it, vals, |lglabels|, vals0, trace, sections);
      ReferOk(secs0, sections, layout0, layout, |lglabels|, vals0, Vals(), trace, name, Forward(it.act), pos);
      ghost var e := Ref(name, Forward(it.act), pos);
      RefTraced(it, layout0, section, |lglabels|, trace, e);
      trace := trace + [e];
      SoundAgain();
    }

    /** Puts a label: the chain of references that wait for it is followed and every slot on it
        gets the label's position. */
    method PutLabel(it: Item)
      requires Sound() && it.Do? && IsLabel(it.act) && ItemOk(it, |lglabels|, |pclabels|)
      requires |sections[section].buf| + 1 <= BIAS && layout[section] != [] && layout[section][0].Begin?
      modifies `sections, `layout, `trace, `lglabels, `pclabels
      ensures |lglabels| == old(|lglabels|) && |pclabels| == old(|pclabels|)
      ensures Sound() && layout == old(layout)[section := old(layout[section]) + [it]]
      ensures trace == old(trace) + [Def(NameOf(it, |lglabels|), Pos(section, old(|sections[section].buf|)))]
      ensures |sections| == old(|sections|) && |sections[section].buf| == old(|sections[section].buf|) + 1
    {
      hide *;
      SoundHas();
      FilledParts();
      ItemNames(it, |lglabels|, |pclabels|);
      ghost var secs0, layout0, vals0 := sections, layout, Vals();
      var name := NameOf(it, |lglabels|);
      var pos := Pos(section, |sections[section].buf|);
      ghost var waiting := Waiting(After(trace, |vals0|).states[name]);
      ChainOf(secs0, layout0, |lglabels|, vals0, trace, name);
      CollapseChain(Get(name), pos, name, waiting);
      Set(name, -pos);
      FilledParts();
      ghost var secs1 := sections;
      LabelFits(it, sections[section].ofs);
      LabelNumber(it, |lglabels|, |pclabels|);
      Append(it, [sections[section].ofs]);
      FilledParts();
      PatchedGrown(secs0, secs1, sections, waiting, pos);
      NewLabel(secs0, layout0, section, it, |lglabels|);
      DefineOk(secs0, sections, layout0, layout, |lglabels|, vals0, Vals(), trace, name, pos);
      ghost var e := Def(name, pos);
      LabelTraced(it, layout0, section, |lglabels|, trace, e);
      trace := trace + [e];
      SoundAgain();
    }

    /** Follows a chain from its head. */
    method CollapseChain(head: int, pos: int, ghost name: nat, ghost refs: seq<int>)
      requires Filled() && Chain(sections, refs) && NoRepeats(refs) && (if refs == [] then head <= 0 else head == refs[0])
      requires forall r <- refs :: RefAt(layout, |lglabels|, name, r)
      modifies `sections
      ensures Filled() && Patched(old(sections), sections, refs, pos)
      ensures |sections| == old(|sections|) && forall s :: 0 <= s < |sections| ==> |sections[s].buf| == old(|sections[s].buf|)
    {
      hide *;
      var n := head;
      ghost var i := 0;
      ChainHas(sections, refs);
      FilledParts();
      PatchedNone(sections, refs, pos);
      while n > 0
        invariant i <= |refs| && n == (if i < |refs| then refs[i] else if refs == [] then head else 0)
        invariant Filled() && |sections| == old(|sections|) == |layout|
        invariant forall s :: 0 <= s < |sections| ==> |sections[s].buf| == old(|sections[s].buf|)
        invariant Patched(old(sections), sections, refs[..i], pos)
        decreases |refs| - i
      {
        ChainNext(old(sections), sections, refs, i, pos);
        FilledParts();
        SetRefKeeps(sections, layout, |lglabels|, name, n, pos);
        PatchedNext(old(sections), sections, refs, i, pos);
        var next := Slot(sections, n);
        sections := SetSlot(sections, n, pos);
        n := next;
        i := i + 1;
        FilledAgain();
      }
      assert refs[..|refs|] == refs;
    }

    /** Puts one action with its argument. */
    method PutAction(it: Item)
      requires Sound() && it.Do? && ItemOk(it, |lglabels|, |pclabels|)
      requires |sections[section].buf| + Slots(it) <= BIAS && layout[section] != [] && layout[section][0].Begin?
      modifies `sections, `layout, `trace, `lglabels, `pclabels
      ensures |lglabels| == old(|lglabels|) && |pclabels| == old(|pclabels|)
      ensures Sound() && layout == old(layout)[section := old(layout[section]) + [it]]
      ensures trace == old(trace) + EventOf(it, |lglabels|, Pos(section, old(|sections[section].buf|)))
      ensures |sections| == old(|sections|) && |sections[section].buf| == old(|sections[section].buf|) + Slots(it)
    {
      hide *;
      SoundHas();
      EventIs(it, |lglabels|, |pclabels|, Pos(section, |sections[section].buf|));
      if IsRef(it.act) {
        PutRef(it);
      } else if IsLabel(it.act) {
        PutLabel(it);
      } else {
        PlainFits(it, sections[section].ofs);
        PutPlain(it, PlainVals(it, sections[section].ofs));
      }
    }

    /** One call: the actions of a list go to the current section with their arguments. */
    method Put(start: nat, args: seq<int>)
      requires Valid() && start < |actionlist| && ArgsOk(actionlist[start], args, |lglabels|, |pclabels|, |sections|)
      requires |sections[section].buf| + 1 + 2 * |actionlist[start]| <= BIAS
      modifies this
      ensures Valid() && |sections| == old(|sections|) && |lglabels| == old(|lglabels|) && |pclabels| == old(|pclabels|)
      ensures calls == old(calls)[old(section) := old(calls[section]) + [Call(start, args)]]
      ensures trace == old(trace) + Events(CallEntries(actionlist, Call(start, args)), |lglabels|, old(section), old(|sections[section].buf|))
      ensures var last := actionlist[start][|actionlist[start]| - 1]; section == if last.Section? then last.n else old(section)
    {
      hide *;
      ValidHas();
      var p, a := actionlist[start], 0;
      assert p in actionlist;
      CallsBegin(actionlist, calls[section]);
      ghost var sec, layout0, all := section, layout, CallEntries(actionlist, Call(start, args));
      ghost var history := trace + Events(all, |lglabels|, section, |sections[section].buf|);
      BeginFits(start, sections[section].ofs);
      CallUnfolds(actionlist, start, args);
      EventsNext(Begin(start), Entries(p, args), |lglabels|, section, |sections[section].buf|);
      NoEvents(start, |lglabels|, section, |sections[section].buf|);
      PutPlain(Begin(start), [start]);
      var i := 0;
      while !Ends(p[i])
        invariant i < |p| && a <= |args| && Sound() && section == sec && calls == old(calls)
        invariant |sections| == old(|sections|) && |lglabels| == old(|lglabels|) && |pclabels| == old(|pclabels|)
        invariant ArgsOk(p[i..], args[a..], |lglabels|, |pclabels|, |sections|)
        invariant |layout| == |layout0| && layout == layout0[sec := layout[sec]] && layout[sec] != [] && layout[sec][0].Begin?
        invariant layout[sec] + Entries(p[i..], args[a..]) == layout0[sec] + all
        invariant |sections[section].buf| + 2 * (|p| - i) <= BIAS
        invariant history == trace + Events(Entries(p[i..], args[a..]), |lglabels|, section, |sections[section].buf|)
        decreases |p| - i
      {
        ArgsNext(p[i..], args[a..], |lglabels|, |pclabels|, |sections|);
        assert p[i..][1..] == p[i + 1..] && (a < |args| ==> args[a..][1..] == args[a + 1..]);
        var it := Do(p[i], if TakesArg(p[i]) then args[a] else 0);
        SlotsAtMost(it);
        ghost var before := layout[sec];
        EventsNext(it, Entries(p[i + 1..], args[if TakesArg(p[i]) then a + 1 else a..]), |lglabels|, section, |sections[section].buf|);
        PutAction(it);
        a := if TakesArg(p[i]) then a + 1 else a;
        i := i + 1;
        assert before + ([it] + Entries(p[i..], args[a..])) == layout[sec] + Entries(p[i..], args[a..]);
      }
      ArgsEnd(p, i, args[a..], |lglabels|, |pclabels|, |sections|);
      NoEvents(start, |lglabels|, section, |sections[section].buf|);
      ghost var calls0 := calls;
      calls := calls[sec := calls[sec] + [Call(start, args)]];
      CallsOneMore(actionlist, calls0[sec], Call(start, args));
      CallsOkOneMore(actionlist, calls0[sec], Call(start, args), |lglabels|, |pclabels|, |sections|);
      if p[i].Section? {
        label L:
        section := p[i].n;
        SoundElsewhere@L();
      }
      ValidAgain();
    }

    // ---------- references to labels of other programs ----------

    /** References to globals not defined here get minus the number of the global. What waits for another
        undefined label stays chained; the end of a chain is zero, the very first slot. */
    method MarkExterns()
      requires Sound() && InRange(trace, |lglabels| + |pclabels|) && |lglabels| >= 10
      requires Complete(trace, |lglabels|, |lglabels| + |pclabels|) || InBuffers(sections, 0)
      modifies `sections
      ensures Filled() && RefsOk(sections, layout, |lglabels|)
      ensures AllBound(sections, layout, |lglabels|, trace) && EventsAt(layout, |lglabels|, trace)
      ensures |sections| == old(|sections|)
    {
      hide *;
      SoundHas();
      FilledParts();
      ghost var n, vals := |lglabels| + |pclabels|, Vals();
      ghost var k := After(trace, n);
      LinksHave(sections, layout, |lglabels|, vals, trace);
      GetIs();
      for idx := 10 to |lglabels|
        invariant Filled() && |sections| == old(|sections|) && BoundOk(sections, k.bound)
        invariant forall l :: 10 <= l < idx ==> Marked(sections, Waiting(k.states[l]), -l)
        invariant forall l :: 0 <= l < n && !(10 <= l < idx) ==> Chain(sections, Waiting(k.states[l]))
        invariant Complete(trace, |lglabels|, n) || InBuffers(sections, 0)
      {
        ghost var before, waiting := sections, Waiting(k.states[idx]);
        HeadHas(layout, |lglabels|, vals, trace, idx);
        CollapseChain(lglabels[idx], -idx, idx, waiting);
        ExternsStep(before, sections, trace, n, |lglabels|, idx);
      }
      AllTargets(sections, layout, |lglabels|, vals, trace);
      AllAreBound(sections, layout, trace, |lglabels|, n);
    }

    // ---------- pass 2 ----------

    /** The linker has come to entry `k` of section `s` with the running offset `ofs`. */
    ghost predicate Linking(s: nat, k: nat, ofs: int)
      reads `sections, `layout, `targets, `cuts, `lglabels, `trace
    {
      && LinkState(sections, layout, cuts, s, k) && TargetsAre(sections, layout, |lglabels|, targets)
      && AllBound(sections, layout, |lglabels|, trace) && EventsAt(layout, |lglabels|, trace)
      && CutsOk(Flat(layout), targets, cuts) && GoodLayout(Flat(layout)) && ofs == OfsAt(layout, cuts, s)
    }

    /** By how much the branch whose slots are at `a` in section `s` is shortened. */
    method Shrink(s: nat, a: nat, op: int, ofs: int, ghost k: nat) returns (shrink: int)
      requires Linking(s, k, ofs) && s < |layout| && k < |layout[s]| && IsRelItem(layout[s][k])
      requires a == SlotSum(layout[s][..k]) && |cuts| < |Flat(layout)| && op == Opcode(Flat(layout), |cuts|)
      requires |sections| == |layout| && a + 1 < |sections[s].buf| <= BIAS
      ensures |cuts| < |targets| && targets[|cuts|] <= |Flat(layout)|
      ensures CutFits(Flat(layout), cuts, |cuts|, targets[|cuts|], shrink)
    {
      hide *;
      shrink := if op == 0xe9 then 3 else if op / 16 == 8 then 4 else 0;
      LinkingHas(s, k, ofs);
      PosParts(s, a);
      SlotIs(sections, s, a);
      var pos, lpos := Pos(s, a), sections[s].buf[a];
      ghost var s', k' := Lead(sections, layout, |lglabels|, targets, cuts, s, k, pos, lpos);
      ghost var t := targets[|cuts|];
      OutsideIs(t);
      CutForIs(layout, cuts, targets, s, k, op, shrink);
      EntryHere(s, k, ofs);
      EntryShape(sections[s].buf, layout[s], k, 0);
      BufferOf(sections, lpos, s, a);
      if shrink > 0 && lpos >= 0 {
        var lofs := Slot(sections, lpos);
        if t != Nowhere {
          DistanceIs(layout, cuts, s, k, s', k');
        }
        if lpos > pos {
          for i := s to lpos / BIAS
            invariant t != Nowhere ==> lofs == Slot(sections, lpos) + Base(layout, i) - Base(layout, s)
          {
            NextSection(layout, i);
            SectionSize(sections, layout, cuts, s, k, i);
            lofs := lofs + sections[i].ofs;
          }
        } else {
          lofs := lofs - ofs;
        }
        lofs := lofs - sections[s].buf[a + 1];
        if lofs < -128 - shrink || lofs > 127 {
          shrink := 0;
        }
      } else {
        shrink := 0;
      }
    }

    /** Passes one action. */
    method LinkAction(s: nat, a: nat, act: Action, op: int, ofs: int, ghost k: nat) returns (ofs': int)
      requires Linking(s, k, ofs) && s < |layout| && k < |layout[s]| && layout[s][k].Do? && layout[s][k].act == act
      requires a == SlotSum(layout[s][..k]) && |cuts| < |Flat(layout)| && op == Opcode(Flat(layout), |cuts|)
      modifies `sections, `cuts
      ensures Linking(s, k + 1, ofs') && |cuts| == old(|cuts|) + 1 && |sections| == old(|sections|)
      ensures forall r :: 0 <= r < |sections| ==> |sections[r].buf| == old(|sections[r].buf|)
    {
      hide *;
      ghost var f := F(Flat(layout), cuts, |cuts|);
      LinkingHas(s, k, ofs);
      EntryHere(s, k, ofs);
      OfsIs(layout, cuts, s, k);
      var buf := sections[s].buf;
      ofs' := ofs;
      var cut := 0;
      EntryShape(buf, layout[s], k, f);
      Kinds(act);
      MaskIs(layout[s][k]);
      if IsRel(act) {
        cut := Shrink(s, a, op, ofs, k);
        ofs' := ofs - cut;
        buf := buf[a + 1 := cut];
      } else if IsLabel(act) {
        buf := buf[a := buf[a] + ofs];
      } else if act.Align? {
        ofs' := ofs - (buf[a] + ofs) % (act.mask + 1);
      }
      PassedIs(sections[s].buf, layout[s], k, f, cut);
      SizeIs(layout[s][k], f, cut);
      CutForOthers(layout, cuts, targets, s, k);
      LinkStep(sections, layout, cuts, s, k, cut);
      TargetsKept(sections, layout, |lglabels|, targets, s, k, f, cut);
      BoundKept(sections, layout, |lglabels|, trace, s, k, f, cut);
      OfsStep(layout, cuts, s, k, cut);
      CutsAppend(Flat(layout), targets, cuts, cut);
      sections := sections[s := sections[s].(buf := buf)];
      cuts := cuts + [cut];
      LinkingNow(s, k + 1, ofs');
    }

    /** Passes the start of a call. */
    ghost method PassBegin(s: nat, ofs: int, k: nat)
      requires Linking(s, k, ofs) && s < |layout| && k < |layout[s]| && layout[s][k].Begin?
      modifies `cuts
      ensures Linking(s, k + 1, ofs) && |cuts| == old(|cuts|) + 1
    {
      hide *;
      LinkingHas(s, k, ofs);
      var f := F(Flat(layout), cuts, |cuts|);
      EntryHere(s, k, ofs);
      EntryShape(sections[s].buf, layout[s], k, f);
      PassedIs(sections[s].buf, layout[s], k, f, 0);
      BeginIs(layout[s][k], f);
      CutForOthers(layout, cuts, targets, s, k);
      LinkStep(sections, layout, cuts, s, k, 0);
      OfsStep(layout, cuts, s, k, 0);
      CutsAppend(Flat(layout), targets, cuts, 0);
      assert sections[s := sections[s].(buf := sections[s].buf)] == sections;
      cuts := cuts + [0];
      LinkingNow(s, k + 1, ofs);
    }

    /** The state after linking: every slot holds its final value, every reference still holds the
        definition it is meant to get, and every branch to one has been cut by as much as its distance
        allows. A branch to an undefined label has been cut or not. */
    ghost predicate Linked()
      reads this
    {
      && LinkState(sections, layout, cuts, |layout|, 0) && TargetsAre(sections, layout, |lglabels|, targets)
      && AllBound(sections, layout, |lglabels|, trace) && EventsAt(layout, |lglabels|, trace)
      && |cuts| == |Flat(layout)| == |targets| && CutsOk(Flat(layout), targets, cuts) && GoodLayout(Flat(layout))
      && codesize == F(Flat(layout), cuts, |cuts|) && ValsLead(layout, |lglabels|, Vals())
      && |calls| == |layout| <= 127
      && forall s :: 0 <= s < |layout| ==> layout[s] == CallsEntries(actionlist, calls[s]) && CallsOk(actionlist, calls[s])
    }

    /** Pass 2: fixes label positions, shortens branches, tightens alignment. If a label is not defined,
        the very first slot is read, so there must be one. */
    method Link() returns (size: int)
      requires Valid() && |lglabels| >= 10 && InRange(trace, |lglabels| + |pclabels|)
      requires Complete(trace, |lglabels|, |lglabels| + |pclabels|) || InBuffers(sections, 0)
      modifies `sections, `codesize, `targets, `cuts
      ensures Linked() && size == codesize
    {
      hide *;
      ValidHas();
      SoundHas();
      LabelsLead(sections, layout, |lglabels|, Vals(), trace);
      MarkExterns();
      FilledParts();
      targets := FindTargets(sections, layout, |lglabels|);
      cuts := [];
      var ofs := 0;
      LinkBegins();
      for secnum := 0 to |sections|
        invariant Linking(secnum, 0, ofs) && |sections| == |layout|
      {
        var pos := 0;
        ghost var c, k: nat := 0, 0;
        ghost var own := calls[secnum];
        LinkingHas(secnum, 0, ofs);
        NoCalls(actionlist, own, layout[secnum]);
        while pos != |sections[secnum].buf|
          invariant Linking(secnum, k, ofs) && |sections| == |layout| && |sections[secnum].buf| == SlotSum(layout[secnum])
          invariant c <= |own| && k == |CallsEntries(actionlist, own[..c])| <= |layout[secnum]| && pos == SlotSum(layout[secnum][..k])
          decreases |own| - c
        {
          CallLeft(actionlist, own, layout[secnum], c);
          LinkingHas(secnum, k, ofs);
          EntryHere(secnum, k, ofs);
          BeginSlot(sections[secnum].buf, layout[secnum], k);
          var p := actionlist[sections[secnum].buf[pos]];
          PassBegin(secnum, ofs, k);
          SlotsNext(layout[secnum], k);
          pos, k := pos + 1, k + 1;
          var i := 0;
          while !Ends(p[i])
            invariant i < |p| && Linking(secnum, k, ofs) && |sections| == |layout| && |sections[secnum].buf| == SlotSum(layout[secnum])
            invariant k == |CallsEntries(actionlist, own[..c])| + 1 + i <= |layout[secnum]| && pos == SlotSum(layout[secnum][..k])
            decreases |p| - i
          {
            CallAction(actionlist, own, layout[secnum], c, i);
            LinkingHas(secnum, k, ofs);
            EntryHere(secnum, k, ofs);
            OpcodeIs(layout, secnum, k);
            var op := if i > 0 then LastByte(p[i - 1]) else 255;
            SlotsNext(layout[secnum], k);
            ofs := LinkAction(secnum, pos, p[i], op, ofs, k);
            SlotsOfAct(layout[secnum][k], p[i]);
            pos := pos + Slots(Do(p[i], 0));
            k := k + 1;
            i := i + 1;
          }
          CallEnd(actionlist, own, layout[secnum], c, i);
          c := c + 1;
        }
        SectionEnd(actionlist, own, layout[secnum], c);
        SectionPassed(secnum, k, ofs);
        ofs := ofs + sections[secnum].ofs;
      }
      codesize := ofs;
      LinkEnds(ofs);
      return ofs;
    }

    lemma LinkBegins()
      requires AllBound(sections, layout, |lglabels|, trace) && EventsAt(layout, |lglabels|, trace)
      requires |sections| == |layout| <= 127 && TargetsAre(sections, layout, |lglabels|, targets) && cuts == []
      requires forall s :: 0 <= s < |sections| ==> SecOk(sections[s], layout[s])
      requires |calls| == |layout| && forall s :: 0 <= s < |layout| ==> layout[s] == CallsEntries(actionlist, calls[s]) && CallsOk(actionlist, calls[s])
      ensures Linking(0, 0, 0)
    {
      hide SlotSum, Estimate, CallsEntries, CallsOk;
      IndexNone(layout);
      TargetsGood(sections, layout, |lglabels|, targets);
      GoodEntries(actionlist, layout, calls);
      forall r: nat, j: nat | r < |layout| && j < |layout[r]|
        ensures EntryState(sections, layout, cuts, 0, 0, r, j)
      {
        assert FilledAt(sections[r].buf, layout[r], j);
      }
      FNone(Flat(layout), cuts);
    }

    lemma SectionPassed(s: nat, k: nat, ofs: int)
      requires Linking(s, k, ofs) && s < |layout| && k == |layout[s]|
      ensures s < |sections| && Linking(s + 1, 0, ofs + sections[s].ofs)
    {
      hide SlotSum, Estimate, F, E, Flat, EntryDone, FilledAt, TargetsAre, CutsOk, GoodLayout;
      NextSection(layout, s);
      var s' := s + 1;
      forall r: nat, j: nat | r < |layout| && j < |layout[r]|
        ensures EntryState(sections, layout, cuts, s', 0, r, j)
      {
        assert EntryState(sections, layout, cuts, s, k, r, j);
      }
    }

    lemma LinkEnds(ofs: int)
      requires Linking(|layout|, 0, ofs) && codesize == ofs && |calls| == |layout| <= 127 && ValsLead(layout, |lglabels|, Vals())
      requires forall s :: 0 <= s < |layout| ==> layout[s] == CallsEntries(actionlist, calls[s]) && CallsOk(actionlist, calls[s])
      ensures Linked()
    {
      hide SlotSum, Estimate, F, EntryState, CallsEntries, CallsOk;
      assert layout[..|layout|] == layout;
      assert Flat(layout)[..|cuts|] == Flat(layout);
    }

    // ---------- pass 3 ----------

    /** The encoder has come to entry `k` of section `s`. */
    ghost predicate Writing(s: nat, k: nat, out: seq<int>, at: Place, globals: seq<int>)
      reads this
    {
      && Linked() && s <= |layout| && Encoding(out, Flat(layout), targets, cuts, at, Index(layout, s, k))
      && globals == Exports(Flat(layout), cuts, Index(layout, s, k), at.base, at.was) && |at.was| >= |lglabels|
    }

    ghost predicate WritingEntry(s: nat, k: nat, a: nat, act: Action, out: seq<int>, at: Place)
      reads this
    {
      && Linked() && s < |layout| && k < |layout[s]| && layout[s][k].Do? && layout[s][k].act == act && a == SlotSum(layout[s][..k])
      && Index(layout, s, k) < |Flat(layout)| && Encoding(out, Flat(layout), targets, cuts, at, Index(layout, s, k))
      && RawBefore(Flat(layout), Index(layout, s, k))
    }

    /** Raw bytes and immediates. A sign-extended byte takes the short form of its instruction. */
    method EncodePlain(s: nat, a: nat, act: Action, out: seq<int>, ghost k: nat, ghost at: Place) returns (out': seq<int>)
      requires WritingEntry(s, k, a, act, out, at) && (IsRaw(act) || IsImm(act))
      ensures Linked() && Encoding(out', Flat(layout), targets, cuts, at, Index(layout, s, k) + 1)
    {
      hide *;
      EntryHas(s, k, a, act, out, at);
      ghost var all, g, it := Flat(layout), Index(layout, s, k), layout[s][k];
      ghost var f := F(all, cuts, g);
      ImmHere(sections[s].buf, layout[s], k, f, cuts[g]);
      PlainSize(it, f, cuts[g]);
      ActKinds(act);
      if IsRaw(act) {
        var v := act.v;
        out' := out + [v];
        RawMeans(all, targets, cuts, at, g);
        Appended(out, [v], all, targets, cuts, at, g);
        return;
      }
      var n := sections[s].buf[a];
      ImmMeans(all, targets, cuts, at, g);
      ImmIs(act, n);
      if (act.ImmWB? || act.ImmDB?) && FitsByte(n) {
        TwoRaw(out, all, targets, cuts, at, g);
        out' := out[|out| - 2 := (out[|out| - 2] + 2) % 256] + [B(n)];
        Widened(out, all, targets, cuts, at, g);
      } else {
        var more := if act.ImmS? || act.ImmB? then [B(n)] else if act.ImmW? || act.ImmWB? then Word(n) else Dword(n);
        WordSizes(n);
        out' := out + more;
        Appended(out, more, all, targets, cuts, at, g);
      }
    }

    /** Space and alignment. */
    method Fill(s: nat, a: nat, act: Action, out: seq<int>, ghost k: nat, ghost at: Place) returns (out': seq<int>)
      requires WritingEntry(s, k, a, act, out, at) && (act.Space? || act.Align?)
      ensures Linked() && Encoding(out', Flat(layout), targets, cuts, at, Index(layout, s, k) + 1)
    {
      hide *;
      EntryHas(s, k, a, act, out, at);
      ghost var all, g, it := Flat(layout), Index(layout, s, k), layout[s][k];
      ghost var f := F(all, cuts, g);
      ActKinds(act);
      FillSize(sections[s].buf, layout[s], k, f, cuts[g]);
      out' := out;
      ghost var more: seq<int> := [];
      AllAreNone(if act.Space? then act.fill else 0x90);
      if act.Space? {
        var n := sections[s].buf[a];
        while n > 0
          invariant 0 <= n && |more| + n == Size(it, f, cuts[g]) && out' == out + more && AllAre(more, act.fill)
        {
          AllAreMore(more, act.fill);
          out', more := out' + [act.fill], more + [act.fill];
          n := n - 1;
        }
      } else {
        while |out'| % (act.mask + 1) != 0
          invariant out' == out + more && |more| <= Size(it, f, cuts[g]) && AllAre(more, 0x90)
          decreases Size(it, f, cuts[g]) - |more|
        {
          PaddingEnds(f, act.mask, |out'|);
          AllAreMore(more, 0x90);
          out', more := out' + [0x90], more + [0x90];
        }
        PaddingEnds(f, act.mask, |out'|);
      }
      FillMeans(more, all, targets, cuts, at, g);
      Appended(out, more, all, targets, cuts, at, g);
    }

    /** A branch: to a global of another program in long form, to a label of this one in the form
        the linker has chosen. */
    method EncodeBranch(s: nat, a: nat, act: Action, out: seq<int>, base: int, globals: seq<int>, ghost k: nat, ghost at: Place) returns (out': seq<int>)
      requires WritingEntry(s, k, a, act, out, at) && IsRel(act) && |globals| >= |lglabels|
      requires at.base == base && globals == Exports(Flat(layout), cuts, Index(layout, s, k), base, at.was)
      ensures Linked() && Encoding(out', Flat(layout), targets, cuts, at, Index(layout, s, k) + 1)
    {
      hide *;
      EntryHas(s, k, a, act, out, at);
      ghost var all, g, it := Flat(layout), Index(layout, s, k), layout[s][k];
      ghost var f := F(all, cuts, g);
      ActKinds(act);
      RelHere(sections[s].buf, layout[s], k, f, cuts[g]);
      SlotIs(sections, s, a);
      LeadFinal(sections, layout, |lglabels|, targets, cuts, s, k, Pos(s, a));
      ExternalIs(act, |lglabels|, sections[s].buf[a]);
      OutsideIs(targets[g]);
      var n := sections[s].buf[a];
      if n < 0 {
        var d := globals[-n] - (base + |out| + 4);
        ExternCut(all, targets, cuts, g);
        WordSizes(d);
        GlobalIs(all, cuts, at, g, globals);
        ReferenceMeans(d, all, targets, cuts, at, g);
        out' := out + Dword(d);
        Appended(out, Dword(d), all, targets, cuts, at, g);
      } else {
        var shrink := sections[s].buf[a + 1];
        var d := Slot(sections, n) - (|out| + 4 - shrink);
        if targets[g] >= 0 {
          BranchEnd(out, all, targets, cuts, at, g, d);
        }
        Branched(out, all, targets, cuts, at, g, d);
        out' := BranchOut(out, shrink, d);
      }
    }

    /** An absolute address. */
    method EncodeAddress(s: nat, a: nat, act: Action, out: seq<int>, base: int, globals: seq<int>, ghost k: nat, ghost at: Place) returns (out': seq<int>)
      requires WritingEntry(s, k, a, act, out, at) && IsRef(act) && !IsRel(act) && |globals| >= |lglabels|
      requires at.base == base && globals == Exports(Flat(layout), cuts, Index(layout, s, k), base, at.was)
      ensures Linked() && Encoding(out', Flat(layout), targets, cuts, at, Index(layout, s, k) + 1)
    {
      hide *;
      EntryHas(s, k, a, act, out, at);
      ghost var all, g, it := Flat(layout), Index(layout, s, k), layout[s][k];
      ActKinds(act);
      AddressHere(sections[s].buf, layout[s], k, F(all, cuts, g), cuts[g]);
      SlotIs(sections, s, a);
      LeadFinal(sections, layout, |lglabels|, targets, cuts, s, k, Pos(s, a));
      ExternalIs(act, |lglabels|, sections[s].buf[a]);
      OutsideIs(targets[g]);
      var n := sections[s].buf[a];
      var v := if n < 0 then globals[-n] else Slot(sections, n) + base;
      WordSizes(v);
      GlobalIs(all, cuts, at, g, globals);
      ReferenceMeans(v, all, targets, cuts, at, g);
      out' := out + Dword(v);
      Appended(out, Dword(v), all, targets, cuts, at, g);
    }

    /** Writes one action. */
    method EncodeAction(s: nat, a: nat, act: Action, out: seq<int>, base: int, globals: seq<int>, ghost k: nat, ghost at: Place)
      returns (out': seq<int>, globals': seq<int>)
      requires at.base == base && Writing(s, k, out, at, globals) && s < |layout| && k < |layout[s]| && layout[s][k].Do? && layout[s][k].act == act
      requires a == SlotSum(layout[s][..k]) && Index(layout, s, k) < |Flat(layout)| && RawBefore(Flat(layout), Index(layout, s, k)) && !Ends(act)
      ensures Writing(s, k + 1, out', at, globals')
    {
      hide *;
      WritingHas(s, k, out, at, globals);
      EntryBegins(s, k, a, act, out, at);
      ghost var g := Index(layout, s, k);
      EntryHas(s, k, a, act, out, at);
      ActKinds(act);
      globals' := globals;
      if IsRaw(act) || IsImm(act) {
        out' := EncodePlain(s, a, act, out, k, at);
      } else if act.Space? || act.Align? {
        out' := Fill(s, a, act, out, k, at);
      } else if IsRel(act) {
        out' := EncodeBranch(s, a, act, out, base, globals, k, at);
      } else if IsRef(act) {
        out' := EncodeAddress(s, a, act, out, base, globals, k, at);
      } else {
        out' := out;
        LabelWrites(s, a, act, out, k, at);
        if act.LabelLG? && act.n >= 10 {
          globals' := globals[act.n := base + sections[s].buf[a]];
        }
      }
      ExportsStep(Flat(layout), cuts, g, at.base, at.was);
      IndexNext(layout, s, k);
      WritingNow(s, k + 1, out', at, globals');
    }

    /** Pass 3: writes the bytes. They come to exactly the size the linker has announced, every
        entry starts where the linker has put it, whether or not every label is defined, and every
        reference goes to the definition it is meant to get. Read by the processor, the bytes are the
        immediates, addresses and branches that were put down. */
    method Encode(base: int, globals: seq<int>) returns (out: seq<int>, exported: seq<int>, ok: bool, ghost reached: seq<int>)
      requires Linked() && |globals| >= |lglabels|
      ensures ok && |out| == codesize
      ensures Encoding(out, Flat(layout), targets, cuts, Place(base, globals), |Flat(layout)|)
      ensures |reached| == |Flat(layout)| == |cuts| && forall g :: 0 <= g < |reached| ==> reached[g] == F(Flat(layout), cuts, g)
      ensures AllRead(out, Flat(layout), targets, cuts, Place(base, globals))
      ensures exported == Exports(Flat(layout), cuts, |Flat(layout)|, base, globals)
      ensures forall i: nat :: i < |trace| && trace[i].Ref? ==> exists s: nat, k: nat :: Arrives(i, s, k, out, Place(base, globals))
    {
      hide *;
      out, exported, reached := [], globals, [];
      ghost var at := Place(base, globals);
      WritingBegins(at);
      LinkedHas();
      IndexNone(layout);
      for secnum := 0 to |sections|
        invariant Writing(secnum, 0, out, at, exported)
        invariant |reached| == Index(layout, secnum, 0) <= |cuts| && forall g :: 0 <= g < |reached| ==> reached[g] == F(Flat(layout), cuts, g)
      {
        var pos := 0;
        ghost var c, k: nat := 0, 0;
        ghost var own := calls[secnum];
        NoCalls(actionlist, own, layout[secnum]);
        while pos != |sections[secnum].buf|
          invariant Writing(secnum, k, out, at, exported)
          invariant c <= |own| && k == |CallsEntries(actionlist, own[..c])| <= |layout[secnum]| && pos == SlotSum(layout[secnum][..k])
          invariant |reached| == Index(layout, secnum, k) <= |cuts| && forall g :: 0 <= g < |reached| ==> reached[g] == F(Flat(layout), cuts, g)
          decreases |own| - c
        {
          CallLeft(actionlist, own, layout[secnum], c);
          EntryFinal(sections, layout, cuts, secnum, k);
          DoneBegin(sections[secnum].buf, layout[secnum], k, F(Flat(layout), cuts, Index(layout, secnum, k)), cuts[Index(layout, secnum, k)]);
          var p := actionlist[sections[secnum].buf[pos]];
          WriteBegin(secnum, k, out, at, exported);
          IndexNext(layout, secnum, k);
          WritingLength(secnum, k, out, at, exported);
          reached := reached + [|out|];
          SlotsNext(layout[secnum], k);
          pos, k := pos + 1, k + 1;
          var i := 0;
          while !Ends(p[i])
            invariant i < |p| && Writing(secnum, k, out, at, exported)
            invariant k == |CallsEntries(actionlist, own[..c])| + 1 + i <= |layout[secnum]| && pos == SlotSum(layout[secnum][..k])
            invariant |reached| == Index(layout, secnum, k) <= |cuts| && forall g :: 0 <= g < |reached| ==> reached[g] == F(Flat(layout), cuts, g)
            decreases |p| - i
          {
            CallAction(actionlist, own, layout[secnum], c, i);
            EntryFinal(sections, layout, cuts, secnum, k);
            RawHere(actionlist, own, layout, secnum, c, i);
            IndexNext(layout, secnum, k);
            WritingLength(secnum, k, out, at, exported);
            reached := reached + [|out|];
            SlotsNext(layout[secnum], k);
            out, exported := EncodeAction(secnum, pos, p[i], out, base, exported, k, at);
            SlotsOfAct(layout[secnum][k], p[i]);
            pos := pos + Slots(Do(p[i], 0));
            k := k + 1;
            i := i + 1;
          }
          CallEnd(actionlist, own, layout[secnum], c, i);
          c := c + 1;
        }
        SectionEnd(actionlist, own, layout[secnum], c);
        NextSection(layout, secnum);
        WritingSame(secnum, k, secnum + 1, 0, out, at, exported);
      }
      WritingEnds(out, at, exported);
      ok := |out| == codesize;
      AllRawBefore(actionlist, layout, calls);
      ProgramIsRead(out, Flat(layout), targets, cuts, at);
      forall i: nat | i < |trace| && trace[i].Ref?
        ensures exists s: nat, k: nat :: Arrives(i, s, k, out, at)
      {
        var s, k := WrittenArrives(i, out, at);
      }
    }

    /** The final position of a numbered label; -1 if only references to it have been made, -2 if
        there is nothing. */
    method GetPcLabel(pc: nat) returns (r: int)
      requires Linked()
      ensures pc < |pclabels| && pclabels[pc] < 0 ==>
                exists s: nat, k: nat :: LabelIs(layout, |lglabels|, |lglabels| + pc, -pclabels[pc], s, k)
                  && Index(layout, s, k) <= |cuts| == |Flat(layout)| && r == F(Flat(layout), cuts, Index(layout, s, k))
      ensures pc < |pclabels| && pclabels[pc] > 0 ==> r == -1
      ensures pc >= |pclabels| || pclabels[pc] == 0 ==> r == -2
    {
      hide *;
      if pc < |pclabels| {
        var pos := pclabels[pc];
        if pos < 0 {
          LinkedHas();
          ghost var s, k := PcLabelAt(pc);
          LabelFinal(sections, layout, |lglabels|, cuts, |lglabels| + pc, -pos, s, k);
          return Slot(sections, -pos);
        }
        if pos > 0 {
          return -1;
        }
      }
      return -2;
    }

    lemma PcLabelAt(pc: nat) returns (s: nat, k: nat)
      requires Linked() && pc < |pclabels| && pclabels[pc] < 0
      ensures LabelIs(layout, |lglabels|, |lglabels| + pc, -pclabels[pc], s, k)
    {
      hide LinkState, TargetsAre, CutsOk, LabelIs, SlotSum, CallsEntries, CallsOk, GoodLayout, RefsOk, Flat, F;
      var l := |lglabels| + pc;
      assert Vals()[l] == pclabels[pc];
      s, k :| LabelIs(layout, |lglabels|, l, -pclabels[pc], s, k);
    }

    /** Whatever the calls were, a reference that is meant to get the definition at `q` holds it. */
    lemma SlotIsMeant(i: nat, q: int)
      requires Sound() && i < |trace| && trace[i].Ref? && Meant(trace, i, q)
      ensures InBuffers(sections, trace[i].pos) && Slot(sections, trace[i].pos) == q
    {
      hide SecOk, EventAt, Meant, ValOk;
      BoundAsMeant(trace, |lglabels| + |pclabels|, i);
    }

    lemma LinkedHas()
      requires Linked()
      ensures |sections| == |layout| == |calls| && |cuts| == |Flat(layout)| == |targets| && LinkState(sections, layout, cuts, |layout|, 0)
      ensures forall s :: 0 <= s < |layout| ==> layout[s] == CallsEntries(actionlist, calls[s]) && CallsOk(actionlist, calls[s])
      ensures forall s :: 0 <= s < |sections| ==> |sections[s].buf| == SlotSum(layout[s])
      ensures codesize == F(Flat(layout), cuts, |cuts|)
      ensures TargetsAre(sections, layout, |lglabels|, targets) && AllBound(sections, layout, |lglabels|, trace) && EventsAt(layout, |lglabels|, trace)
      ensures forall s :: 0 <= s < |sections| ==> |sections[s].buf| <= BIAS
    {}

    /** Reference `i`, entry `k` of section `s`, has been written: it goes to the final position of
        the definition it is meant to get, or, if there is none, to the global of another program or
        nowhere. */
    ghost predicate Arrives(i: nat, s: nat, k: nat, out: seq<int>, at: Place)
      requires i < |trace| && trace[i].Ref?
      reads this
    {
      && Delivered(layout, |lglabels|, trace, targets, i, s, k)
      && var all, g := Flat(layout), Index(layout, s, k);
         && g + 1 <= |cuts| == |all| == |targets| && all[g] == layout[s][k] && targets[g] <= |all|
         && var f, f' := F(all, cuts, g), F(all, cuts, g + 1);
            && 0 <= f <= f' <= |out|
            && if IsRel(layout[s][k].act) && targets[g] >= 0
               then BranchBytes(out, f', cuts[g], Opcode(all, g), F(all, cuts, targets[g]) - f')
               else Means(out[f..f'], all, targets, cuts, at, g)
    }

    lemma WrittenArrives(i: nat, out: seq<int>, at: Place) returns (s: nat, k: nat)
      requires Linked() && Encoding(out, Flat(layout), targets, cuts, at, |Flat(layout)|) && i < |trace| && trace[i].Ref?
      ensures Arrives(i, s, k, out, at)
    {
      hide *;
      LinkedHas();
      s, k := AllDelivered(sections, layout, |lglabels|, trace, targets, i);
      DeliveredHas(layout, |lglabels|, trace, targets, i, s, k);
      FlatAt(layout, s, k);
      var g := Index(layout, s, k);
      ReferenceKinds(layout[s][k]);
      Written(out, Flat(layout), targets, cuts, at, g);
      ArrivesNow(i, s, k, out, at);
    }

    lemma ArrivesNow(i: nat, s: nat, k: nat, out: seq<int>, at: Place)
      requires i < |trace| && trace[i].Ref? && Delivered(layout, |lglabels|, trace, targets, i, s, k)
      requires s < |layout| && k < |layout[s]| && layout[s][k].Do? && IsRef(layout[s][k].act)
      requires var all, g := Flat(layout), Index(layout, s, k);
               && g + 1 <= |cuts| == |all| == |targets| && all[g] == layout[s][k] && targets[g] <= |all|
               && var f, f' := F(all, cuts, g), F(all, cuts, g + 1);
                  && 0 <= f <= f' <= |out| && Means(out[f..f'], all, targets, cuts, at, g)
                  && (IsRelItem(all[g]) && targets[g] >= 0 ==>
                      BranchBytes(out, f', cuts[g], Opcode(all, g), F(all, cuts, targets[g]) - f'))
      ensures Arrives(i, s, k, out, at)
    {
      hide Delivered, Flat, F, Means, BranchBytes, Opcode;
    }

    lemma WritingBegins(at: Place)
      requires Linked() && |at.was| >= |lglabels|
      ensures Writing(0, 0, [], at, at.was)
    {
      hide LinkState, TargetsAre, CutAt, GoodEntry;
      IndexNone(layout);
      FZero(Flat(layout), cuts);
    }

    lemma WriteBegin(s: nat, k: nat, out: seq<int>, at: Place, globals: seq<int>)
      requires Writing(s, k, out, at, globals) && s < |layout| && k < |layout[s]| && layout[s][k].Begin?
      ensures Writing(s, k + 1, out, at, globals)
    {
      hide *;
      WritingHas(s, k, out, at, globals);
      LinkedHas();
      EntryFinal(sections, layout, cuts, s, k);
      var g := Index(layout, s, k);
      BeginSize(layout[s][k], F(Flat(layout), cuts, g), cuts[g]);
      assert out + [] == out;
      TargetInside(out, Flat(layout), targets, cuts, at, g);
      NothingMeans(Flat(layout), targets, cuts, at, g);
      Appended(out, [], Flat(layout), targets, cuts, at, g);
      ExportsStep(Flat(layout), cuts, g, at.base, at.was);
      IndexNext(layout, s, k);
      WritingNow(s, k + 1, out, at, globals);
    }

    lemma WritingLength(s: nat, k: nat, out: seq<int>, at: Place, globals: seq<int>)
      requires Writing(s, k, out, at, globals)
      ensures Index(layout, s, k) <= |cuts| == |Flat(layout)| && |out| == F(Flat(layout), cuts, Index(layout, s, k))
    {}

    lemma WritingSame(s: nat, k: nat, s': nat, k': nat, out: seq<int>, at: Place, globals: seq<int>)
      requires Writing(s, k, out, at, globals) && s' <= |layout| && Index(layout, s, k) == Index(layout, s', k')
      ensures Writing(s', k', out, at, globals)
    {}

    lemma WritingEnds(out: seq<int>, at: Place, globals: seq<int>)
      requires Writing(|layout|, 0, out, at, globals)
      ensures Index(layout, |layout|, 0) == |Flat(layout)| == |cuts| && |out| == codesize
      ensures Encoding(out, Flat(layout), targets, cuts, at, |Flat(layout)|) && globals == Exports(Flat(layout), cuts, |Flat(layout)|, at.base, at.was)
    {
      assert layout[..|layout|] == layout;
    }

    lemma EntryBegins(s: nat, k: nat, a: nat, act: Action, out: seq<int>, at: Place)
      requires Linked() && s < |layout| && k < |layout[s]| && layout[s][k].Do? && layout[s][k].act == act && a == SlotSum(layout[s][..k])
      requires Index(layout, s, k) < |Flat(layout)| && Encoding(out, Flat(layout), targets, cuts, at, Index(layout, s, k))
      requires RawBefore(Flat(layout), Index(layout, s, k))
      ensures WritingEntry(s, k, a, act, out, at)
    {}

    lemma EntryHas(s: nat, k: nat, a: nat, act: Action, out: seq<int>, at: Place)
      requires WritingEntry(s, k, a, act, out, at)
      ensures Linked() && s < |layout| == |sections| && k < |layout[s]| && layout[s][k].Do? && layout[s][k].act == act && a == SlotSum(layout[s][..k])
      ensures var g := Index(layout, s, k);
              && g < |cuts| == |Flat(layout)| == |targets| && Flat(layout)[g] == layout[s][k] && GoodEntry(layout[s][k])
              && Encoding(out, Flat(layout), targets, cuts, at, g) && RawBefore(Flat(layout), g) && |out| == F(Flat(layout), cuts, g)
              && EntryDone(sections[s].buf, layout[s], k, F(Flat(layout), cuts, g), cuts[g]) && targets[g] <= |Flat(layout)|
      ensures LinkState(sections, layout, cuts, |layout|, 0) && TargetsAre(sections, layout, |lglabels|, targets) && |sections[s].buf| <= BIAS
      ensures CutsOk(Flat(layout), targets, cuts)
    {
      hide SlotSum, Flat, F, EntryDone, RawBefore, TargetsAre, BranchAt, CutAt;
      EntryFinal(sections, layout, cuts, s, k);
    }

    lemma LabelWrites(s: nat, a: nat, act: Action, out: seq<int>, k: nat, at: Place)
      requires WritingEntry(s, k, a, act, out, at) && IsLabel(act)
      ensures Encoding(out, Flat(layout), targets, cuts, at, Index(layout, s, k) + 1)
      ensures s < |sections| && a < |sections[s].buf| && Index(layout, s, k) < |cuts| && sections[s].buf[a] == F(Flat(layout), cuts, Index(layout, s, k))
      ensures act.LabelLG? ==> 0 <= act.n < |lglabels|
    {
      hide *;
      EntryHas(s, k, a, act, out, at);
      ActKinds(act);
      LabelHolds(sections[s].buf, layout[s], k, F(Flat(layout), cuts, Index(layout, s, k)), cuts[Index(layout, s, k)]);
      assert out + [] == out;
      NothingMeans(Flat(layout), targets, cuts, at, Index(layout, s, k));
      Appended(out, [], Flat(layout), targets, cuts, at, Index(layout, s, k));
      if act.LabelLG? {
        LabelInRange(sections, layout, |lglabels|, targets, s, k);
      }
    }

    lemma WritingHas(s: nat, k: nat, out: seq<int>, at: Place, globals: seq<int>)
      requires Writing(s, k, out, at, globals)
      ensures Linked() && s <= |layout| && Encoding(out, Flat(layout), targets, cuts, at, Index(layout, s, k))
      ensures Index(layout, s, k) <= |cuts| == |Flat(layout)| && |globals| == |at.was| >= |lglabels|
      ensures globals == Exports(Flat(layout), cuts, Index(layout, s, k), at.base, at.was)
    {}

    lemma WritingNow(s: nat, k: nat, out: seq<int>, at: Place, globals: seq<int>)
      requires Linked() && s <= |layout| && Encoding(out, Flat(layout), targets, cuts, at, Index(layout, s, k))
      requires Index(layout, s, k) <= |cuts| == |Flat(layout)| && |at.was| >= |lglabels|
      requires globals == Exports(Flat(layout), cuts, Index(layout, s, k), at.base, at.was)
      ensures Writing(s, k, out, at, globals)
    {}

    lemma LinkingHas(s: nat, k: nat, ofs: int)
      requires Linking(s, k, ofs)
      ensures LinkState(sections, layout, cuts, s, k) && TargetsAre(sections, layout, |lglabels|, targets) && |cuts| <= |Flat(layout)|
      ensures CutsOk(Flat(layout), targets, cuts) && GoodLayout(Flat(layout)) && ofs == OfsAt(layout, cuts, s)
      ensures |sections| == |layout| && s <= |layout| && |cuts| == Index(layout, s, k) && |targets| == |Flat(layout)|
      ensures forall g :: 0 <= g < |targets| ==> targets[g] <= |Flat(layout)|
      ensures forall r :: 0 <= r < |sections| ==> |sections[r].buf| == SlotSum(layout[r]) <= BIAS
      ensures AllBound(sections, layout, |lglabels|, trace) && EventsAt(layout, |lglabels|, trace)
    {}

    lemma LinkingNow(s: nat, k: nat, ofs: int)
      requires LinkState(sections, layout, cuts, s, k) && TargetsAre(sections, layout, |lglabels|, targets) && |cuts| <= |Flat(layout)| && s <= |layout|
      requires CutsOk(Flat(layout), targets, cuts) && GoodLayout(Flat(layout)) && ofs == OfsAt(layout, cuts, s)
      requires AllBound(sections, layout, |lglabels|, trace) && EventsAt(layout, |lglabels|, trace)
      ensures Linking(s, k, ofs)
    {}

    lemma EntryHere(s: nat, k: nat, ofs: int)
      requires Linking(s, k, ofs) && s < |layout| && k < |layout[s]|
      ensures |sections| == |layout| && |cuts| < |Flat(layout)|
      ensures FilledAt(sections[s].buf, layout[s], k) && GoodEntry(layout[s][k])
    {
      assert EntryState(sections, layout, cuts, s, k, s, k);
      FlatAt(layout, s, k);
    }

    lemma GetIs()
      ensures forall l :: 0 <= l < |lglabels| ==> Vals()[l] == lglabels[l]
    {}

    lemma ValidHas()
      requires Valid()
      ensures Sound() && |calls| == |layout| == |sections| && section < |sections|
      ensures forall c <- actionlist :: GoodChunk(c) && c != []
      ensures forall s :: 0 <= s < |layout| ==> layout[s] == CallsEntries(actionlist, calls[s]) && CallsOk(actionlist, calls[s])
    {}

    lemma ValidAgain()
      requires Sound() && |calls| == |layout| && (forall c <- actionlist :: GoodChunk(c))
      requires forall s :: 0 <= s < |layout| ==> layout[s] == CallsEntries(actionlist, calls[s]) && CallsOk(actionlist, calls[s])
      ensures Valid()
    {}

    twostate lemma SoundElsewhere()
      requires old(Sound()) && section < |sections|
      requires lglabels == old(lglabels) && pclabels == old(pclabels) && sections == old(sections) && layout == old(layout) && trace == old(trace)
      ensures Sound()
    {}

    lemma FilledAgain()
      requires |sections| == |layout| <= 127 && section < |sections|
      requires forall s :: 0 <= s < |sections| ==> SecOk(sections[s], layout[s])
      ensures Filled()
    {}
  }

  lemma PlainTraced(it: Item, layout: seq<Layout>, s: nat, lg: nat, trace: seq<Event>)
    requires AllTraced(layout, lg, trace) && s < |layout| && (it.Do? ==> !IsRef(it.act) && !IsLabel(it.act))
    ensures AllTraced(layout[s := layout[s] + [it]], lg, trace)
  {
    TracedAppend(layout, s, it, lg, trace, trace);
  }

  lemma ItemNames(it: Item, lg: nat, pc: nat)
    requires it.Do? && (IsRef(it.act) || IsLabel(it.act)) && ItemOk(it, lg, pc)
    ensures 0 <= NameOf(it, lg) < lg + pc && (it.act.RelPC? || it.act.ImmPC? ==> it.arg >= 0)
  {}

  lemma RefFits(it: Item, vals: seq<int>, stored: int, ofs: int)
    requires it.Do? && IsRef(it.act) && vals == if IsRel(it.act) then [stored, ofs + 4] else [stored]
    ensures ValsFit(it, vals, ofs) && |vals| == Slots(it) > 0 && vals[0] == stored
  {}

  /** The slot of a reference just put is a new one. */
  lemma NewRef(secs: seq<Sec>, layout: seq<Layout>, s: nat, it: Item, vals: seq<int>, lg: nat, labels: seq<int>, trace: seq<Event>, secs': seq<Sec>)
    requires |secs| == |layout| == |secs'| && s < |secs| && LinksOk(secs, layout, lg, labels, trace)
    requires forall r :: 0 <= r < |secs| ==> SecOk(secs[r], layout[r])
    requires it.Do? && IsRef(it.act) && NameOf(it, lg) >= 0 && vals != [] && |secs[s].buf| < BIAS
    requires secs'[s].buf == secs[s].buf + vals && layout[s] != [] && layout[s][0].Begin?
    ensures var pos := Pos(s, |secs[s].buf|);
            && InBuffers(secs', pos) && Slot(secs', pos) == vals[0] && pos > 0 && !InBuffers(secs, pos)
            && RefAt(layout[s := layout[s] + [it]], lg, NameOf(it, lg), pos)
    ensures (forall e <- trace :: e.Ref? ==> InBuffers(secs, e.pos)) && |secs[s].buf| == SlotSum(layout[s])
  {
    hide Estimate, SlotSum;
    EventsInBuffers(secs, layout, lg, labels, trace);
    PosParts(s, |secs[s].buf|);
    SumsOneMore(layout[s], it);
    var layout' := layout[s := layout[s] + [it]];
    assert FilledAt(secs[s].buf, layout[s], 0);
    assert layout'[s][..|layout[s]|] == layout[s];
    assert RefIs(layout', lg, NameOf(it, lg), Pos(s, |secs[s].buf|), s, |layout[s]|);
  }

  lemma RefTraced(it: Item, layout: seq<Layout>, s: nat, lg: nat, trace: seq<Event>, e: Event)
    requires AllTraced(layout, lg, trace) && s < |layout| && it.Do? && IsRef(it.act) && (it.act.RelPC? || it.act.ImmPC? ==> it.arg >= 0)
    requires e.Ref? && e.name == NameOf(it, lg) && e.pos == Pos(s, SlotSum(layout[s]))
    ensures AllTraced(layout[s := layout[s] + [it]], lg, trace + [e])
  {
    assert (trace + [e])[|trace|] == e;
    TracedAppend(layout, s, it, lg, trace, trace + [e]);
  }

  lemma ChainOf(secs: seq<Sec>, layout: seq<Layout>, lg: nat, vals: seq<int>, trace: seq<Event>, name: nat)
    requires LinksOk(secs, layout, lg, vals, trace) && name < |vals|
    ensures var w := Waiting(After(trace, |vals|).states[name]);
            && Chain(secs, w) && NoRepeats(w) && (if w == [] then vals[name] <= 0 else vals[name] == w[0])
            && forall r <- w :: RefAt(layout, lg, name, r)
  {
    var st := After(trace, |vals|).states[name];
    assert ValOk(secs, vals[name], st);
    WaitingAreRefs(trace, |vals|, name);
    forall r | r in Waiting(st)
      ensures RefAt(layout, lg, name, r)
    {
      var i :| 0 <= i < |trace| && trace[i].Ref? && trace[i].name == name && trace[i].pos == r;
      assert EventAt(layout, lg, trace[i]);
    }
  }

  lemma ChainHas(secs: seq<Sec>, refs: seq<int>)
    requires Chain(secs, refs)
    ensures (forall r <- refs :: r > 0 && InBuffers(secs, r)) && forall k :: 0 <= k < |refs| ==> refs[k] > 0
  {
    forall r | r in refs
      ensures r > 0 && InBuffers(secs, r)
    {
      var i :| 0 <= i < |refs| && refs[i] == r;
      assert ChainedAt(secs, refs, i);
    }
    assert forall k :: 0 <= k < |refs| ==> refs[k] in refs;
  }

  lemma PatchedNone(secs: seq<Sec>, refs: seq<int>, pos: int)
    ensures Patched(secs, secs, refs[..0], pos)
  {}

  /** The part of the chain that has not been patched is as it was. */
  lemma ChainNext(secs0: seq<Sec>, secs: seq<Sec>, refs: seq<int>, i: nat, pos: int)
    requires Chain(secs0, refs) && NoRepeats(refs) && i < |refs| && Patched(secs0, secs, refs[..i], pos)
    ensures InBuffers(secs, refs[i]) && refs[i] in refs && Slot(secs, refs[i]) == if i + 1 < |refs| then refs[i + 1] else 0
    ensures i + 1 < |refs| ==> refs[i + 1] > 0
  {
    hide InBuffers, Slot;
    assert ChainedAt(secs0, refs, i);
    assert i + 1 < |refs| ==> ChainedAt(secs0, refs, i + 1);
  }

  lemma PatchedNext(secs0: seq<Sec>, secs: seq<Sec>, refs: seq<int>, i: nat, pos: int)
    requires i < |refs| && Patched(secs0, secs, refs[..i], pos) && InBuffers(secs, refs[i])
    ensures Patched(secs0, SetSlot(secs, refs[i], pos), refs[..i + 1], pos)
  {
    hide InBuffers, Slot, SetSlot;
    SetSlotReads(secs, refs[i], pos);
    assert refs[..i + 1] == refs[..i] + [refs[i]];
  }

  lemma PatchedGrown(secs0: seq<Sec>, secs1: seq<Sec>, secs2: seq<Sec>, refs: seq<int>, pos: int)
    requires Patched(secs0, secs1, refs, pos) && Grown(secs1, secs2)
    ensures Patched(secs0, secs2, refs, pos)
  {
    hide InBuffers, Slot;
    GrownSlots(secs1, secs2);
  }

  lemma LabelFits(it: Item, ofs: int)
    requires it.Do? && IsLabel(it.act)
    ensures ValsFit(it, [ofs], ofs) && Slots(it) == 1
  {}

  lemma LabelNumber(it: Item, lg: nat, pc: nat)
    requires it.Do? && IsLabel(it.act) && ItemOk(it, lg, pc)
    ensures NumberOk(it, lg)
  {}

  lemma NewLabel(secs: seq<Sec>, layout: seq<Layout>, s: nat, it: Item, lg: nat)
    requires |secs| == |layout| && s < |secs| && SecOk(secs[s], layout[s])
    requires it.Do? && IsLabel(it.act) && NameOf(it, lg) >= 0 && layout[s] != [] && layout[s][0].Begin?
    ensures var pos := Pos(s, |secs[s].buf|);
            pos > 0 && LabelAt(layout[s := layout[s] + [it]], lg, NameOf(it, lg), pos) && |secs[s].buf| == SlotSum(layout[s])
  {
    hide Estimate, SlotSum;
    SumsOneMore(layout[s], it);
    var layout' := layout[s := layout[s] + [it]];
    assert FilledAt(secs[s].buf, layout[s], 0);
    assert layout'[s][..|layout[s]|] == layout[s];
    assert LabelIs(layout', lg, NameOf(it, lg), Pos(s, |secs[s].buf|), s, |layout[s]|);
  }

  lemma LabelTraced(it: Item, layout: seq<Layout>, s: nat, lg: nat, trace: seq<Event>, e: Event)
    requires AllTraced(layout, lg, trace) && s < |layout| && it.Do? && IsLabel(it.act) && NumberOk(it, lg)
    ensures AllTraced(layout[s := layout[s] + [it]], lg, trace + [e])
  {
    TracedAppend(layout, s, it, lg, trace, trace + [e]);
  }

  /** The slots of an entry that is neither a reference nor a label. */
  function PlainVals(it: Item, ofs: int): seq<int>
    requires it.Do?
  {
    if IsImm(it.act) || it.act.Space? then [it.arg] else if it.act.Align? then [ofs + it.act.mask] else []
  }

  lemma PlainFits(it: Item, ofs: int)
    requires it.Do? && !IsRef(it.act) && !IsLabel(it.act)
    ensures ValsFit(it, PlainVals(it, ofs), ofs)
    ensures |PlainVals(it, ofs)| == Slots(it)
  {}

  lemma BeginFits(start: nat, ofs: int)
    ensures ValsFit(Begin(start), [start], ofs)
  {}

  lemma SlotsAtMost(it: Item)
    ensures Slots(it) <= 2
  {}

  lemma CallUnfolds(acts: seq<seq<Action>>, start: nat, args: seq<int>)
    requires start < |acts|
    ensures CallEntries(acts, Call(start, args)) == [Begin(start)] + Entries(acts[start][0..], args[0..])
    ensures acts[start][0..] == acts[start] && args[0..] == args
  {}

  lemma EventsNext(it: Item, rest: Layout, lg: nat, s: nat, slot: nat)
    ensures Events([it] + rest, lg, s, slot) == EventOf(it, lg, Pos(s, slot)) + Events(rest, lg, s, slot + Slots(it))
  {
    assert ([it] + rest)[1..] == rest;
  }

  lemma NoEvents(start: nat, lg: nat, s: nat, slot: nat)
    ensures Events([], lg, s, slot) == [] && EventOf(Begin(start), lg, Pos(s, slot)) == [] && Slots(Begin(start)) == 1
  {}

  lemma EventIs(it: Item, lg: nat, pc: nat, pos: int)
    requires it.Do? && ItemOk(it, lg, pc)
    ensures IsRef(it.act) ==> EventOf(it, lg, pos) == [Ref(NameOf(it, lg), Forward(it.act), pos)]
    ensures IsLabel(it.act) && !IsRef(it.act) ==> EventOf(it, lg, pos) == [Def(NameOf(it, lg), pos)] && Slots(it) == 1
    ensures !IsRef(it.act) && !IsLabel(it.act) ==> EventOf(it, lg, pos) == []
  {}

  lemma CallsBegin(acts: seq<seq<Action>>, calls: seq<Call>)
    ensures var items := CallsEntries(acts, calls); items == [] || items[0].Begin?
  {
    if calls != [] {
      CallsBegin(acts, calls[..|calls| - 1]);
    }
  }

  lemma CallsOneMore(acts: seq<seq<Action>>, calls: seq<Call>, c: Call)
    ensures CallsEntries(acts, calls + [c]) == CallsEntries(acts, calls) + CallEntries(acts, c)
  {
    assert (calls + [c])[..|calls|] == calls;
  }

  /** Every action of the list but the last has its entry, and the entries are in order. */
  ghost predicate CallOk(acts: seq<seq<Action>>, c: Call) {
    c.start < |acts| && acts[c.start] != [] &&
    var p, items := acts[c.start], Entries(acts[c.start], c.args);
    |items| == |p| - 1 && Ends(p[|p| - 1])
    && forall i :: 0 <= i < |items| ==> items[i].Do? && items[i].act == p[i] && !Ends(p[i]) && GoodItem(items[i]) && GoodAt(p, i)
  }

  ghost predicate CallsOk(acts: seq<seq<Action>>, calls: seq<Call>) {
    forall c <- calls :: CallOk(acts, c)
  }

  lemma {:induction false} ArgsEntries(p: seq<Action>, args: seq<int>, lg: nat, pc: nat, secs: nat)
    requires ArgsOk(p, args, lg, pc, secs) && p != [] && Ends(p[|p| - 1]) && forall k :: 0 <= k < |p| - 1 ==> !Ends(p[k])
    ensures var items := Entries(p, args);
            |items| == |p| - 1 && forall i :: 0 <= i < |items| ==> items[i].Do? && items[i].act == p[i] && GoodItem(items[i])
    decreases |p|
  {
    if !Ends(p[0]) {
      ArgsNext(p, args, lg, pc, secs);
      ArgsEntries(p[1..], if TakesArg(p[0]) then args[1..] else args, lg, pc, secs);
    }
  }

  lemma CallsOkOneMore(acts: seq<seq<Action>>, calls: seq<Call>, c: Call, lg: nat, pc: nat, secs: nat)
    requires CallsOk(acts, calls) && c.start < |acts| && GoodChunk(acts[c.start]) && ArgsOk(acts[c.start], c.args, lg, pc, secs)
    ensures CallsOk(acts, calls + [c])
  {
    ArgsEntries(acts[c.start], c.args, lg, pc, secs);
    assert CallOk(acts, c);
  }

  lemma ArgsNext(chunk: seq<Action>, args: seq<int>, lg: nat, pc: nat, secs: nat)
    requires ArgsOk(chunk, args, lg, pc, secs) && chunk != [] && !Ends(chunk[0])
    ensures TakesArg(chunk[0]) ==> args != []
    ensures var it := Do(chunk[0], if TakesArg(chunk[0]) then args[0] else 0);
            var rest := if TakesArg(chunk[0]) then args[1..] else args;
            ItemOk(it, lg, pc) && ArgsOk(chunk[1..], rest, lg, pc, secs) && |chunk| > 1
            && Entries(chunk, args) == [it] + Entries(chunk[1..], rest)
  {}

  lemma ArgsEnd(p: seq<Action>, i: nat, args: seq<int>, lg: nat, pc: nat, secs: nat)
    requires GoodChunk(p) && i < |p| && Ends(p[i]) && ArgsOk(p[i..], args, lg, pc, secs)
    ensures i == |p| - 1 && Entries(p[i..], args) == [] && (p[i].Section? ==> 0 <= p[i].n < secs)
  {}

  // ---------- references to labels of other programs ----------

  /** No reference waits for a label of this program: only for globals, which come from elsewhere. */
  ghost predicate Complete(trace: seq<Event>, lg: nat, n: nat)
    requires InRange(trace, n)
  {
    forall l :: 0 <= l < n && After(trace, n).states[l].Pending? ==> 10 <= l < lg
  }

  ghost predicate Marked(secs: seq<Sec>, refs: seq<int>, v: int) {
    forall r <- refs :: InBuffers(secs, r) && Slot(secs, r) == v
  }

  ghost predicate HeadOk(layout: seq<Layout>, lg: nat, vals: seq<int>, trace: seq<Event>, l: nat)
    requires InRange(trace, |vals|) && l < |vals|
  {
    var w := Waiting(After(trace, |vals|).states[l]);
    NoRepeats(w) && (if w == [] then vals[l] <= 0 else vals[l] == w[0]) && forall r <- w :: RefAt(layout, lg, l, r)
  }

  lemma LinksHave(secs: seq<Sec>, layout: seq<Layout>, lg: nat, vals: seq<int>, trace: seq<Event>)
    requires LinksOk(secs, layout, lg, vals, trace)
    ensures InRange(trace, |vals|) && Separate(trace) && BoundOk(secs, After(trace, |vals|).bound)
    ensures forall e <- trace :: EventAt(layout, lg, e)
    ensures forall l :: 0 <= l < |vals| ==> Chain(secs, Waiting(After(trace, |vals|).states[l])) && HeadOk(layout, lg, vals, trace, l)
  {
    hide EventAt;
    forall l | 0 <= l < |vals|
      ensures Chain(secs, Waiting(After(trace, |vals|).states[l])) && HeadOk(layout, lg, vals, trace, l)
    {
      ChainOf(secs, layout, lg, vals, trace, l);
    }
  }

  lemma HeadHas(layout: seq<Layout>, lg: nat, vals: seq<int>, trace: seq<Event>, l: nat)
    requires InRange(trace, |vals|) && l < |vals| && HeadOk(layout, lg, vals, trace, l)
    ensures var w := Waiting(After(trace, |vals|).states[l]);
            NoRepeats(w) && (if w == [] then vals[l] <= 0 else vals[l] == w[0]) && forall r <- w :: RefAt(layout, lg, l, r)
  {}

  /** Marking what waits for one global leaves everything else alone. */
  lemma ExternsStep(secs: seq<Sec>, secs': seq<Sec>, trace: seq<Event>, n: nat, lg: nat, idx: int)
    requires InRange(trace, n) && Separate(trace) && 10 <= idx < lg <= n && BoundOk(secs, After(trace, n).bound)
    requires Patched(secs, secs', Waiting(After(trace, n).states[idx]), -idx)
    requires Chain(secs, Waiting(After(trace, n).states[idx]))
    requires forall l :: 10 <= l < idx ==> Marked(secs, Waiting(After(trace, n).states[l]), -l)
    requires forall l :: 0 <= l < n && !(10 <= l < idx) ==> Chain(secs, Waiting(After(trace, n).states[l]))
    ensures BoundOk(secs', After(trace, n).bound) && (InBuffers(secs, 0) ==> InBuffers(secs', 0))
    ensures forall l :: 10 <= l <= idx ==> Marked(secs', Waiting(After(trace, n).states[l]), -l)
    ensures forall l :: 0 <= l < n && !(10 <= l <= idx) ==> Chain(secs', Waiting(After(trace, n).states[l]))
  {
    hide InBuffers, Slot, After;
    var k := After(trace, n);
    var w := Waiting(k.states[idx]);
    WaitingApart(trace, n, idx);
    ChainHas(secs, w);
    forall l | 0 <= l < n && !(10 <= l <= idx)
      ensures Chain(secs', Waiting(k.states[l]))
    {
      ChainStays(secs, secs', w, -idx, Waiting(k.states[l]));
    }
  }

  lemma ChainStays(secs: seq<Sec>, secs': seq<Sec>, refs: seq<int>, v: int, others: seq<int>)
    requires Patched(secs, secs', refs, v) && Chain(secs, others) && forall r <- refs :: r !in others
    ensures Chain(secs', others)
  {
    hide InBuffers, Slot;
    forall i | 0 <= i < |others|
      ensures ChainedAt(secs', others, i)
    {
      assert ChainedAt(secs, others, i) && others[i] in others;
    }
  }

  lemma AllTargets(secs: seq<Sec>, layout: seq<Layout>, lg: nat, vals: seq<int>, trace: seq<Event>)
    requires InRange(trace, |vals|) && Separate(trace) && lg <= |vals| && BoundOk(secs, After(trace, |vals|).bound)
    requires AllTraced(layout, lg, trace) && forall e <- trace :: EventAt(layout, lg, e)
    requires forall l :: 10 <= l < lg ==> Marked(secs, Waiting(After(trace, |vals|).states[l]), -l)
    requires forall l :: 0 <= l < |vals| && !(10 <= l < lg) ==> Chain(secs, Waiting(After(trace, |vals|).states[l]))
    requires Complete(trace, lg, |vals|) || InBuffers(secs, 0)
    ensures RefsOk(secs, layout, lg)
  {
    hide InBuffers, Slot, After, LabelAt, RefAt, EventAt, Meant, SlotSum;
    var k := After(trace, |vals|);
    forall s: nat, j: nat, pos: int | Stored(layout, s, j, pos)
      ensures RefOk(secs, layout, lg, layout[s][j], pos)
    {
      var it := layout[s][j];
      assert TracedAt(it, lg, trace, pos);
      if it.Do? && IsRef(it.act) {
        var name := NameOf(it, lg);
        var i :| 0 <= i < |trace| && trace[i].Ref? && trace[i].name == name && trace[i].pos == pos;
        BoundAsMeant(trace, |vals|, i);
        if pos in k.bound {
          var d := MeantIsDef(trace, i, k.bound[pos]);
          DefIsLabel(layout, lg, trace[d]);
        } else if !(10 <= name < lg) {
          WaitingDangles(secs, layout, lg, trace, |vals|, name, pos);
        }
      }
    }
  }

  /** What waits for an undefined label of this program is left as it was chained. */
  lemma WaitingDangles(secs: seq<Sec>, layout: seq<Layout>, lg: nat, trace: seq<Event>, n: nat, l: nat, pos: int)
    requires InRange(trace, n) && Separate(trace) && l < n && forall e <- trace :: EventAt(layout, lg, e)
    requires pos in Waiting(After(trace, n).states[l]) && Chain(secs, Waiting(After(trace, n).states[l])) && !(10 <= l < lg)
    requires Complete(trace, lg, n) || InBuffers(secs, 0)
    ensures InBuffers(secs, pos) && Slot(secs, pos) >= 0 && Dangles(secs, layout, lg, Slot(secs, pos))
  {
    hide InBuffers, Slot, After, RefAt;
    var w := Waiting(After(trace, n).states[l]);
    WaitingAreRefs(trace, n, l);
    var i :| 0 <= i < |w| && w[i] == pos;
    assert ChainedAt(secs, w, i);
    if i + 1 < |w| {
      assert ChainedAt(secs, w, i + 1) && w[i + 1] in w && IsRefOf(trace, l, w[i + 1]);
      var j :| 0 <= j < |trace| && trace[j].Ref? && trace[j].name == l && trace[j].pos == w[i + 1];
      assert trace[j] in trace && EventAt(layout, lg, trace[j]);
    }
  }

  /** A reference that is not bound waits, and what waits in the end has been marked. */
  lemma AllAreBound(secs: seq<Sec>, layout: seq<Layout>, trace: seq<Event>, lg: nat, n: nat)
    requires forall e <- trace :: EventAt(layout, lg, e)
    requires InRange(trace, n) && Separate(trace) && lg <= n && BoundOk(secs, After(trace, n).bound)
    requires forall l :: 10 <= l < lg ==> Marked(secs, Waiting(After(trace, n).states[l]), -l)
    requires forall l :: 0 <= l < n && !(10 <= l < lg) ==> Chain(secs, Waiting(After(trace, n).states[l]))
    requires Complete(trace, lg, n) || InBuffers(secs, 0)
    ensures AllBound(secs, layout, lg, trace) && EventsAt(layout, lg, trace)
  {
    hide InBuffers, Slot, After, Meant, EventAt, LabelAt;
    var k := After(trace, n);
    assert EventsAt(layout, lg, trace);
    forall i: nat | i < |trace| && trace[i].Ref?
      ensures BoundSlot(secs, layout, lg, trace, i)
    {
      BoundAsMeant(trace, n, i);
      var e := trace[i];
      assert e in trace;
      MeantIsLabel(layout, lg, trace, i);
      var name: int := e.name;
      if e.pos in k.bound {
        var q := k.bound[e.pos];
        assert Meant(trace, i, q) && q > 0;
        assert InBuffers(secs, e.pos) && Slot(secs, e.pos) == q;
        assert forall r :: Meant(trace, i, r) ==> r == q;
      } else {
        assert forall r :: !Meant(trace, i, r);
        assert e.pos in Waiting(k.states[name]);
        if 10 <= name < lg {
          assert Marked(secs, Waiting(k.states[name]), -name);
          assert InBuffers(secs, e.pos) && Slot(secs, e.pos) == -name;
        } else {
          WaitingDangles(secs, layout, lg, trace, n, name, e.pos);
        }
      }
    }
  }

  lemma MeantIsDef(t: seq<Event>, i: nat, q: int) returns (d: nat)
    requires i < |t| && t[i].Ref? && Meant(t, i, q)
    ensures d < |t| && t[d].Def? && t[d].name == t[i].name && t[d].pos == q
  {
    if LooksBack(t, i) {
      d :| Stands(t, t[i].name, d, i) && t[d].pos == q;
    } else {
      d :| NextDef(t, t[i].name, i + 1, d) && t[d].pos == q;
    }
  }

  lemma DefIsLabel(layout: seq<Layout>, lg: nat, e: Event)
    requires e.Def? && EventAt(layout, lg, e)
    ensures LabelAt(layout, lg, e.name, e.pos) && e.pos > 0
  {}

  lemma SlotIs(secs: seq<Sec>, s: nat, a: nat)
    requires s < |secs| && a < |secs[s].buf| <= BIAS
    ensures InBuffers(secs, Pos(s, a)) && Slot(secs, Pos(s, a)) == secs[s].buf[a]
  {
    PosParts(s, a);
  }

  lemma CutForIs(layout: seq<Layout>, cuts: seq<int>, targets: seq<int>, s: nat, k: nat, op: int, shrink: int)
    requires s < |layout| && k < |layout[s]| && IsRelItem(layout[s][k]) && |cuts| == Index(layout, s, k) < |Flat(layout)| == |targets|
    requires targets[|cuts|] <= |Flat(layout)| && op == Opcode(Flat(layout), |cuts|)
    requires shrink == if op == 0xe9 then 3 else if op / 16 == 8 then 4 else 0
    ensures var t := targets[|cuts|];
            if t == Nowhere then CutFits(Flat(layout), cuts, |cuts|, t, 0) && CutFits(Flat(layout), cuts, |cuts|, t, shrink)
            else CutFits(Flat(layout), cuts, |cuts|, t,
                         if t < 0 || shrink <= 0 then 0
                         else if -128 - shrink <= Distance(Flat(layout), cuts, |cuts|, t) <= 127 then shrink else 0)
  {
    hide Distance, Opcode, Flat;
    FlatAt(layout, s, k);
  }

  lemma CutForOthers(layout: seq<Layout>, cuts: seq<int>, targets: seq<int>, s: nat, k: nat)
    requires s < |layout| && k < |layout[s]| && |cuts| == Index(layout, s, k) < |Flat(layout)| == |targets|
    requires targets[|cuts|] <= |Flat(layout)|
    ensures !IsRelItem(layout[s][k]) ==> CutFits(Flat(layout), cuts, |cuts|, targets[|cuts|], 0)
  {
    hide Distance, Opcode, Flat;
    FlatAt(layout, s, k);
  }

  /** Where a position behind another one is. */
  lemma BufferOf(secs: seq<Sec>, pos: int, s: nat, a: nat)
    requires a < BIAS
    ensures InBuffers(secs, pos) ==> pos / BIAS < |secs|
    ensures pos > Pos(s, a) ==> s <= pos / BIAS
  {
    PosParts(s, a);
  }

  lemma SectionSize(secs: seq<Sec>, layout: seq<Layout>, cuts: seq<int>, s: nat, k: nat, i: nat)
    requires LinkState(secs, layout, cuts, s, k) && i < |secs|
    ensures secs[i].ofs == Estimate(layout[i])
  {}

  lemma EntryShape(buf: seq<int>, items: Layout, k: nat, f: int)
    requires k < |items| && FilledAt(buf, items, k)
    ensures var a := SlotSum(items[..k]);
            && a + Slots(items[k]) <= |buf|
            && (IsRelItem(items[k]) ==> a + 1 < |buf| && buf[a + 1] == Estimate(items[..k + 1]))
            && (IsLabelItem(items[k]) ==> a < |buf| && buf[a] == Estimate(items[..k]))
            && (items[k].Do? && items[k].act.Align? ==> a < |buf| && buf[a] == Estimate(items[..k + 1]))
  {
    hide SlotSum, Estimate;
  }

  lemma PassedIs(buf: seq<int>, items: Layout, k: nat, f: int, cut: int)
    requires k < |items| && SlotSum(items[..k]) + Slots(items[k]) <= |buf|
    ensures var a := SlotSum(items[..k]);
            && (IsRelItem(items[k]) ==> a + 1 < |buf| && Passed(buf, items, k, f, cut) == buf[a + 1 := cut])
            && (IsLabelItem(items[k]) ==> a < |buf| && Passed(buf, items, k, f, cut) == buf[a := f])
            && (!IsRelItem(items[k]) && !IsLabelItem(items[k]) ==> Passed(buf, items, k, f, cut) == buf)
  {
    hide SlotSum;
  }

  lemma SizeIs(it: Item, f: int, cut: int)
    requires it.Do? && GoodEntry(it) && (!IsRel(it.act) ==> cut == 0)
    ensures it.act.Align? ==> it.act.mask >= 0 && Most(it) == it.act.mask && Most(it) - Size(it, f, cut) == (f + it.act.mask) % (it.act.mask + 1)
    ensures !it.act.Align? ==> Most(it) - Size(it, f, cut) == cut
  {}

  lemma MaskIs(it: Item)
    requires GoodEntry(it)
    ensures it.Do? && it.act.Align? ==> it.act.mask >= 0
  {}

  lemma ReferenceKinds(it: Item)
    ensures it.Do? && IsRef(it.act) ==> !IsRawItem(it) && (IsRelItem(it) <==> IsRel(it.act))
  {}

  lemma Kinds(act: Action)
    ensures IsRelItem(Do(act, 0)) <==> IsRel(act)
    ensures forall arg :: (IsRelItem(Do(act, arg)) <==> IsRel(act)) && (IsLabelItem(Do(act, arg)) <==> IsLabel(act))
    ensures IsLabel(act) ==> !IsRel(act)
    ensures act.Align? ==> !IsRel(act) && !IsLabel(act)
  {}

  lemma BeginIs(it: Item, f: int)
    requires it.Begin?
    ensures Most(it) == 0 && Size(it, f, 0) == 0 && !IsRelItem(it) && !IsLabelItem(it)
  {}

  lemma FNone(all: Layout, cuts: seq<int>)
    requires cuts == []
    ensures F(all, cuts, 0) == 0 && E(all, 0) == 0
  {}

  lemma TargetsGood(secs: seq<Sec>, layout: seq<Layout>, lg: nat, targets: seq<int>)
    requires TargetsAre(secs, layout, lg, targets)
    ensures CutsOk(Flat(layout), targets, [])
  {
    hide TargetFits;
    forall g | 0 <= g < |targets|
      ensures targets[g] <= |targets| && targets[g] != g
    {
      var s, k := Locate(layout, g);
      assert TargetAt(secs, layout, lg, targets, s, k);
      TargetGood(secs, layout, lg, s, k, targets[g]);
    }
  }

  lemma TargetGood(secs: seq<Sec>, layout: seq<Layout>, lg: nat, s: nat, k: nat, t: int)
    requires s < |layout| && k < |layout[s]| && TargetFits(secs, layout, lg, s, k, t)
    ensures t <= |Flat(layout)| && t != Index(layout, s, k)
  {
    hide Flat, SlotSum;
    FlatAt(layout, s, k);
    if t >= 0 {
      var v := Slot(secs, Pos(s, SlotSum(layout[s][..k])));
      var s': nat, k': nat :| LabelHere(layout, lg, NameOf(layout[s][k], lg), s', k', v, t);
      FlatAt(layout, s', k');
    }
  }

  lemma {:induction false} Locate(layout: seq<Layout>, g: nat) returns (s: nat, k: nat)
    requires g < |Flat(layout)|
    ensures s < |layout| && k < |layout[s]| && g == Index(layout, s, k)
    decreases |layout|
  {
    var n := |layout| - 1;
    if g < |Flat(layout[..n])| {
      s, k := Locate(layout[..n], g);
      assert layout[..n][..s] == layout[..s];
    } else {
      s, k := n, g - |Flat(layout[..n])|;
    }
  }

  lemma GoodEntries(acts: seq<seq<Action>>, layout: seq<Layout>, calls: seq<seq<Call>>)
    requires |calls| == |layout|
    requires forall s :: 0 <= s < |layout| ==> layout[s] == CallsEntries(acts, calls[s]) && CallsOk(acts, calls[s])
    ensures GoodLayout(Flat(layout))
  {
    hide Flat, CallsEntries, CallsOk;
    forall g | 0 <= g < |Flat(layout)|
      ensures GoodEntry(Flat(layout)[g])
    {
      var s, k := Locate(layout, g);
      FlatAt(layout, s, k);
      CallsGood(acts, calls[s]);
    }
  }

  lemma {:induction false} CallsGood(acts: seq<seq<Action>>, calls: seq<Call>)
    requires CallsOk(acts, calls)
    ensures forall k :: 0 <= k < |CallsEntries(acts, calls)| ==> GoodEntry(CallsEntries(acts, calls)[k])
  {
    if calls != [] {
      var n := |calls| - 1;
      CallsGood(acts, calls[..n]);
      assert CallOk(acts, calls[n]);
      var items := Entries(acts[calls[n].start], calls[n].args);
      assert forall i :: 0 <= i < |items| ==> GoodAt(acts[calls[n].start], i) ==> GoodEntry(items[i]);
    }
  }

  lemma NoCalls(acts: seq<seq<Action>>, own: seq<Call>, items: Layout)
    ensures |CallsEntries(acts, own[..0])| == 0 && SlotSum(items[..0]) == 0
  {}

  lemma {:induction false} CallsPrefix(acts: seq<seq<Action>>, own: seq<Call>, c: nat)
    requires c < |own|
    ensures CallsEntries(acts, own[..c + 1]) == CallsEntries(acts, own[..c]) + CallEntries(acts, own[c])
    ensures CallsEntries(acts, own[..c + 1]) <= CallsEntries(acts, own)
    decreases |own|
  {
    hide CallEntries;
    assert own[..c + 1][..c] == own[..c];
    var n := |own| - 1;
    if c < n {
      CallsPrefix(acts, own[..n], c);
      assert own[..n][..c + 1] == own[..c + 1];
    } else {
      assert own[..c + 1] == own;
    }
  }

  ghost predicate ActHere(items: Layout, p: seq<Action>, k: nat, i: nat)
    requires i < |p| && k + 1 + i < |items|
  {
    !Ends(p[i]) && items[k + 1 + i].Do? && items[k + 1 + i].act == p[i]
  }

  /** The entries of call `c`, in their section. */
  lemma CallHere(acts: seq<seq<Action>>, own: seq<Call>, items: Layout, c: nat)
    requires items == CallsEntries(acts, own) && CallsOk(acts, own) && c < |own|
    ensures own[c].start < |acts| && acts[own[c].start] != []
    ensures var k, p := |CallsEntries(acts, own[..c])|, acts[own[c].start];
            && k + |p| <= |items| && items[k] == Begin(own[c].start) && |CallsEntries(acts, own[..c + 1])| == k + |p|
            && Ends(p[|p| - 1]) && (forall i: nat :: i < |p| - 1 ==> ActHere(items, p, k, i))
            && forall i :: 0 <= i < |p| - 1 ==> !Ends(p[i])
  {
    hide CallsEntries, Entries, GoodAt, GoodItem, Ends;
    assert CallOk(acts, own[c]);
    CallsPrefix(acts, own, c);
    var pre, e := CallsEntries(acts, own[..c]), CallEntries(acts, own[c]);
    var p, body := acts[own[c].start], Entries(acts[own[c].start], own[c].args);
    assert e == [Begin(own[c].start)] + body;
    InPrefix(pre, own[c].start, body, items);
    forall i: nat | i < |p| - 1
      ensures ActHere(items, p, |pre|, i)
    {
      assert items[|pre| + 1 + i] == body[i];
    }
  }

  lemma InPrefix(pre: Layout, start: int, body: Layout, items: Layout)
    requires pre + ([Begin(start)] + body) <= items
    ensures |pre| + 1 + |body| <= |items| && items[|pre|] == Begin(start)
    ensures forall i {:trigger body[i]} :: 0 <= i < |body| ==> items[|pre| + 1 + i] == body[i]
  {
    var all := pre + ([Begin(start)] + body);
    assert items[..|all|] == all;
    forall i {:trigger body[i]} | 0 <= i < |body|
      ensures items[|pre| + 1 + i] == body[i]
    {
      assert all[|pre| + 1 + i] == body[i] && items[..|all|][|pre| + 1 + i] == all[|pre| + 1 + i];
    }
  }

  lemma CallLeft(acts: seq<seq<Action>>, own: seq<Call>, items: Layout, c: nat)
    requires items == CallsEntries(acts, own) && CallsOk(acts, own) && c <= |own|
    requires |CallsEntries(acts, own[..c])| <= |items| && SlotSum(items[..|CallsEntries(acts, own[..c])|]) != SlotSum(items)
    ensures c < |own| && own[c].start < |acts| && acts[own[c].start] != []
    ensures var k := |CallsEntries(acts, own[..c])|; k < |items| && items[k] == Begin(own[c].start)
  {
    hide CallsEntries, CallsOk;
    assert own[..|own|] == own && items[..|items|] == items;
    if c < |own| {
      CallHere(acts, own, items, c);
    }
  }

  lemma CallAction(acts: seq<seq<Action>>, own: seq<Call>, items: Layout, c: nat, i: nat)
    requires items == CallsEntries(acts, own) && CallsOk(acts, own) && c < |own| && own[c].start < |acts|
    requires i < |acts[own[c].start]| && !Ends(acts[own[c].start][i])
    ensures var k, p := |CallsEntries(acts, own[..c])| + 1 + i, acts[own[c].start];
            && k < |items| && i + 1 < |p| && items[k].Do? && items[k].act == p[i]
            && (if i > 0 then items[k - 1].Do? && items[k - 1].act == p[i - 1] else items[k - 1].Begin?)
  {
    hide CallsEntries, CallsOk;
    CallHere(acts, own, items, c);
    var k := |CallsEntries(acts, own[..c])|;
    assert i < |acts[own[c].start]| - 1;
    assert ActHere(items, acts[own[c].start], k, i);
    assert i > 0 ==> ActHere(items, acts[own[c].start], k, i - 1);
  }

  lemma CallEnd(acts: seq<seq<Action>>, own: seq<Call>, items: Layout, c: nat, i: nat)
    requires items == CallsEntries(acts, own) && CallsOk(acts, own) && c < |own| && own[c].start < |acts|
    requires i < |acts[own[c].start]| && Ends(acts[own[c].start][i])
    ensures |CallsEntries(acts, own[..c + 1])| == |CallsEntries(acts, own[..c])| + 1 + i <= |items|
  {
    hide CallsEntries, CallsOk;
    CallHere(acts, own, items, c);
  }

  lemma SectionEnd(acts: seq<seq<Action>>, own: seq<Call>, items: Layout, c: nat)
    requires items == CallsEntries(acts, own) && CallsOk(acts, own) && c <= |own|
    requires |CallsEntries(acts, own[..c])| <= |items| && SlotSum(items[..|CallsEntries(acts, own[..c])|]) == SlotSum(items)
    ensures |CallsEntries(acts, own[..c])| == |items|
  {
    hide CallsEntries, CallsOk, SlotSum;
    if c == |own| {
      assert own[..c] == own;
    } else {
      CallHere(acts, own, items, c);
      InSection(items, |CallsEntries(acts, own[..c])|);
    }
  }

  lemma BeginSlot(buf: seq<int>, items: Layout, k: nat)
    requires k < |items| && items[k].Begin? && FilledAt(buf, items, k)
    ensures SlotSum(items[..k]) < |buf| && buf[SlotSum(items[..k])] == items[k].start
  {}

  lemma SlotsNext(items: Layout, k: nat)
    requires k < |items|
    ensures SlotSum(items[..k + 1]) == SlotSum(items[..k]) + Slots(items[k])
    ensures items[k].Begin? ==> Slots(items[k]) == 1
  {
    assert items[..k + 1][..k] == items[..k];
  }

  lemma SlotsOfAct(it: Item, act: Action)
    requires it.Do? && it.act == act
    ensures Slots(it) == Slots(Do(act, 0))
  {}

  lemma OpcodeIs(layout: seq<Layout>, s: nat, k: nat)
    requires s < |layout| && 0 < k < |layout[s]|
    ensures Index(layout, s, k) <= |Flat(layout)|
    ensures Opcode(Flat(layout), Index(layout, s, k)) == if layout[s][k - 1].Do? then LastByte(layout[s][k - 1].act) else 255
  {
    hide Flat;
    FlatAt(layout, s, k);
    FlatAt(layout, s, k - 1);
  }

  lemma IndexNext(layout: seq<Layout>, s: nat, k: nat)
    requires s <= |layout|
    ensures Index(layout, s, k + 1) == Index(layout, s, k) + 1
  {}

  lemma ActKinds(act: Action)
    ensures IsRel(act) ==> IsRef(act)
    ensures IsRaw(act) ==> !IsRel(act) && !IsImm(act) && !IsRef(act) && !IsLabel(act) && !act.Space? && !act.Align?
    ensures IsImm(act) ==> !IsRel(act) && !IsRef(act) && !IsLabel(act) && !act.Space? && !act.Align?
    ensures IsLabel(act) ==> !IsRel(act) && !IsRef(act)
    ensures act.Space? || act.Align? ==> !IsRel(act) && !IsRef(act) && !IsLabel(act)
    ensures forall arg :: IsRelItem(Do(act, arg)) <==> IsRel(act)
    ensures forall arg :: IsRawItem(Do(act, arg)) <==> IsRaw(act)
    ensures Ends(act) || IsRaw(act) || IsImm(act) || act.Space? || act.Align? || IsRef(act) || IsLabel(act)
    ensures act.LabelLG? ==> IsLabel(act)
    ensures act.ImmS? || act.ImmB? || act.ImmW? || act.ImmD? || act.ImmWB? || act.ImmDB? <==> IsImm(act)
    ensures act.Byte? || act.Esc? <==> IsRaw(act)
  {}

  lemma ImmHere(buf: seq<int>, items: Layout, k: nat, f: int, cut: int)
    requires k < |items| && EntryDone(buf, items, k, f, cut) && items[k].Do?
    ensures IsImm(items[k].act) ==> SlotSum(items[..k]) < |buf| && buf[SlotSum(items[..k])] == items[k].arg
  {
    hide SlotSum;
  }

  lemma PlainSize(it: Item, f: int, cut: int)
    requires it.Do? && (IsRaw(it.act) || IsImm(it.act))
    ensures Size(it, f, cut) == if IsRaw(it.act) || it.act.ImmS? || it.act.ImmB? then 1 else if it.act.ImmW? then 2 else if it.act.ImmD? then 4
                                else if FitsByte(it.arg) then 1 else if it.act.ImmWB? then 2 else 4
    ensures it.act.Byte? || it.act.Esc? ==> LastByte(it.act) == it.act.v
  {}

  lemma ImmIs(act: Action, n: int)
    requires IsImm(act)
    ensures ImmBytes(act, n) ==
      if (act.ImmWB? || act.ImmDB?) && FitsByte(n) then [B(n)]
      else if act.ImmS? || act.ImmB? then [B(n)]
      else if act.ImmW? || act.ImmWB? then Word(n)
      else Dword(n)
  {}

  lemma AllAreNone(v: int)
    ensures AllAre([], v)
  {}

  lemma AllAreMore(bytes: seq<int>, v: int)
    requires AllAre(bytes, v)
    ensures AllAre(bytes + [v], v)
  {}

  lemma WordSizes(n: int)
    ensures |Word(n)| == 2 && |Dword(n)| == 4
  {}

  lemma TwoRaw(out: seq<int>, all: Layout, targets: seq<int>, cuts: seq<int>, at: Place, g: nat)
    requires Encoding(out, all, targets, cuts, at, g) && g < |all| && RawBefore(all, g) && all[g].Do? && (all[g].act.ImmWB? || all[g].act.ImmDB?)
    ensures RawRun(all, g, 2) && |out| >= 2
  {
    hide Encoding;
    RawRunLength(out, all, targets, cuts, at, g, 2);
  }

  lemma FillSize(buf: seq<int>, items: Layout, k: nat, f: int, cut: int)
    requires k < |items| && EntryDone(buf, items, k, f, cut) && items[k].Do? && (items[k].act.Space? || items[k].act.Align?) && GoodEntry(items[k])
    ensures var it, a := items[k], SlotSum(items[..k]);
            && (it.act.Space? ==> a < |buf| && buf[a] == it.arg == Size(it, f, cut) && it.arg >= 0)
            && (it.act.Align? ==> IsMask(it.act.mask) && it.act.mask >= 0
                                  && Size(it, f, cut) == it.act.mask - (f + it.act.mask) % (it.act.mask + 1) >= 0)
  {
    hide SlotSum;
  }

  lemma RelHere(buf: seq<int>, items: Layout, k: nat, f: int, cut: int)
    requires k < |items| && EntryDone(buf, items, k, f, cut) && items[k].Do? && IsRel(items[k].act)
    ensures SlotSum(items[..k]) + 1 < |buf| && buf[SlotSum(items[..k]) + 1] == cut && Size(items[k], f, cut) == 4 - cut
  {
    hide SlotSum;
  }

  lemma AddressHere(buf: seq<int>, items: Layout, k: nat, f: int, cut: int)
    requires k < |items| && EntryDone(buf, items, k, f, cut) && items[k].Do? && IsRef(items[k].act) && !IsRel(items[k].act)
    ensures SlotSum(items[..k]) < |buf| && Size(items[k], f, cut) == 4
  {
    hide SlotSum;
  }

  lemma LabelHolds(buf: seq<int>, items: Layout, k: nat, f: int, cut: int)
    requires k < |items| && EntryDone(buf, items, k, f, cut) && items[k].Do? && IsLabel(items[k].act)
    ensures SlotSum(items[..k]) < |buf| && buf[SlotSum(items[..k])] == f && Size(items[k], f, cut) == 0
  {
    hide SlotSum;
  }

  lemma ExternalIs(act: Action, lg: nat, v: int)
    ensures External(act, lg, v) ==> 10 <= -v < lg && (act.RelLG? || act.ImmLG?) && LabelNo(act) == -v
  {}

  lemma OutsideIs(target: int)
    ensures IsOutside(target) <==> target < 0 && target != Nowhere
    ensures target >= 0 ==> target != Nowhere
  {}

  lemma ExternCut(all: Layout, targets: seq<int>, cuts: seq<int>, g: nat)
    requires CutsOk(all, targets, cuts) && g < |cuts| == |all| && IsOutside(targets[g])
    ensures cuts[g] == 0
  {
    hide Distance, Opcode, ShrinkOf, F;
    assert CutAt(all, targets, cuts, g);
  }

  /** The displacement the encoder computes is the one from the end of the branch. */
  lemma BranchEnd(out: seq<int>, all: Layout, targets: seq<int>, cuts: seq<int>, at: Place, g: nat, d: int)
    requires Encoding(out, all, targets, cuts, at, g) && g < |all| && IsRelItem(all[g]) && 0 <= targets[g] <= |cuts|
    requires d == F(all, cuts, targets[g]) - (|out| + 4 - cuts[g])
    ensures d == F(all, cuts, targets[g]) - F(all, cuts, g + 1)
  {
    hide F;
    FStep(all, cuts, g);
  }

  lemma LabelInRange(secs: seq<Sec>, layout: seq<Layout>, lg: nat, targets: seq<int>, s: nat, k: nat)
    requires TargetsAre(secs, layout, lg, targets) && s < |layout| && k < |layout[s]| && layout[s][k].Do? && layout[s][k].act.LabelLG?
    ensures 0 <= layout[s][k].act.n < lg
  {
    assert TargetAt(secs, layout, lg, targets, s, k);
  }

  lemma ExportsStep(all: Layout, cuts: seq<int>, g: nat, base: int, globals: seq<int>)
    requires g < |cuts| == |all|
    ensures Exports(all, cuts, g + 1, base, globals)
            == var r := Exports(all, cuts, g, base, globals);
               if all[g].Do? && all[g].act.LabelLG? && 10 <= all[g].act.n < |r| then r[all[g].act.n := base + F(all, cuts, g)] else r
  {}

  lemma BeginSize(it: Item, f: int, cut: int)
    requires it.Begin?
    ensures Size(it, f, cut) == 0 && !IsRelItem(it) && !IsRawItem(it)
  {}

  lemma DoneBegin(buf: seq<int>, items: Layout, k: nat, f: int, cut: int)
    requires k < |items| && items[k].Begin? && EntryDone(buf, items, k, f, cut)
    ensures SlotSum(items[..k]) < |buf| && buf[SlotSum(items[..k])] == items[k].start
  {
    hide SlotSum;
  }

  /** The raw bytes that encoding an action rewrites stand before it, in the same call. */
  lemma RawHere(acts: seq<seq<Action>>, own: seq<Call>, layout: seq<Layout>, s: nat, c: nat, i: nat)
    requires s < |layout| && layout[s] == CallsEntries(acts, own) && CallsOk(acts, own) && c < |own| && own[c].start < |acts|
    requires i < |acts[own[c].start]| && !Ends(acts[own[c].start][i])
    ensures var k := |CallsEntries(acts, own[..c])| + 1 + i;
            Index(layout, s, k) < |Flat(layout)| && RawBefore(Flat(layout), Index(layout, s, k))
  {
    hide CallsEntries, CallsOk, Flat, ShrinkOf;
    var items, p, k0 := layout[s], acts[own[c].start], |CallsEntries(acts, own[..c])|;
    var k := k0 + 1 + i;
    CallHere(acts, own, items, c);
    CallGood(acts, own, c, i);
    FlatAt(layout, s, k);
    FlatAt(layout, s, k - 1);
    assert ActHere(items, p, k0, i);
    if i >= 1 {
      assert ActHere(items, p, k0, i - 1);
    }
    if i >= 2 {
      assert ActHere(items, p, k0, i - 2);
      FlatAt(layout, s, k - 2);
    }
  }

  /** The call that entry `k` of a section belongs to. */
  lemma {:induction false} CallOf(acts: seq<seq<Action>>, own: seq<Call>, k: nat) returns (c: nat)
    requires k < |CallsEntries(acts, own)|
    ensures c < |own| && |CallsEntries(acts, own[..c])| <= k < |CallsEntries(acts, own[..c + 1])|
    decreases |own|
  {
    hide CallEntries;
    var n := |own| - 1;
    if k < |CallsEntries(acts, own[..n])| {
      c := CallOf(acts, own[..n], k);
      assert own[..n][..c] == own[..c] && own[..n][..c + 1] == own[..c + 1];
    } else {
      c := n;
      assert own[..n + 1] == own;
    }
  }

  lemma AllRawBefore(acts: seq<seq<Action>>, layout: seq<Layout>, calls: seq<seq<Call>>)
    requires |calls| == |layout|
    requires forall s :: 0 <= s < |layout| ==> layout[s] == CallsEntries(acts, calls[s]) && CallsOk(acts, calls[s])
    ensures AllRaw(Flat(layout), |Flat(layout)|)
  {
    hide Flat, CallsEntries, CallsOk, RawRun;
    forall g: nat | g < |Flat(layout)|
      ensures RawBefore(Flat(layout), g)
    {
      var s, k := Locate(layout, g);
      FlatAt(layout, s, k);
      var c := CallOf(acts, calls[s], k);
      CallHere(acts, calls[s], layout[s], c);
      var k0 := |CallsEntries(acts, calls[s][..c])|;
      if k > k0 {
        RawHere(acts, calls[s], layout, s, c, k - k0 - 1);
      }
    }
  }

  lemma CallGood(acts: seq<seq<Action>>, own: seq<Call>, c: nat, i: nat)
    requires CallsOk(acts, own) && c < |own|
    ensures own[c].start < |acts| && (i < |acts[own[c].start]| - 1 ==> GoodAt(acts[own[c].start], i))
  {
    assert CallOk(acts, own[c]);
    var items := Entries(acts[own[c].start], own[c].args);
    assert i < |items| ==> items[i].Do?;
  }

  /** A label that is defined has its entry. */
  ghost predicate ValsLead(layout: seq<Layout>, lg: nat, vals: seq<int>) {
    forall l: nat :: l < |vals| && vals[l] < 0 ==> LabelAt(layout, lg, l, -vals[l])
  }

  lemma LabelsLead(secs: seq<Sec>, layout: seq<Layout>, lg: nat, vals: seq<int>, trace: seq<Event>)
    requires LinksOk(secs, layout, lg, vals, trace)
    ensures ValsLead(layout, lg, vals)
  {
    hide EventAt, LabelAt;
    forall l: nat | l < |vals| && vals[l] < 0
      ensures LabelAt(layout, lg, l, -vals[l])
    {
      ValSign(secs, vals[l], After(trace, |vals|).states[l]);
      DefinedStands(trace, |vals|, l);
      var d :| Stands(trace, l, d, |trace|);
      DefIsLabel(layout, lg, trace[d]);
    }
  }

  lemma LabelFinal(secs: seq<Sec>, layout: seq<Layout>, lg: nat, cuts: seq<int>, name: nat, pos: int, s: nat, k: nat)
    requires LinkState(secs, layout, cuts, |layout|, 0) && LabelIs(layout, lg, name, pos, s, k)
    ensures InBuffers(secs, pos) && Index(layout, s, k) < |cuts| <= |Flat(layout)|
    ensures Slot(secs, pos) == F(Flat(layout), cuts, Index(layout, s, k))
  {
    hide Flat, F, Estimate, SlotSum;
    EntryFinal(secs, layout, cuts, s, k);
    InSection(layout[s], k);
    PosParts(s, SlotSum(layout[s][..k]));
  }
}
