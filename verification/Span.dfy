/** What a hit of the Pike machine says about the input: which stretch was matched, by which
    regex, and that no match starts further left. */
module Spans {
  import opened Options
  import opened Regexes
  import opened Bytecode
  import opened Compiler
  import opened Patterns
  import opened Backtracking
  import opened PikeSpec
  import opened LeadingBytes

  // ---------- where the code of regex k lies ----------

  function PieceAt(trees: seq<Regex>, caps: seq<nat>, t: nat, lo: nat, k: nat): nat
    requires k < t <= |trees| == |caps|
    decreases t
  {
    if t == 1 then lo
    else if k == t - 1 then lo + 2 + ProgramLen(Alternatives(trees, caps, t - 1))
    else PieceAt(trees, caps, t - 1, lo + 1, k)
  }

  /** The ladder of splits that leads to the pieces. */
  ghost predicate Ladder(trees: seq<Regex>, caps: seq<nat>, t: nat, lo: nat, pc: nat)
    requires 0 < t <= |trees| == |caps|
    decreases t
  {
    pc == lo || (t > 1 && (pc == PieceAt(trees, caps, t, lo, t - 1) || Ladder(trees, caps, t - 1, lo + 1, pc)))
  }

  /** `pc` lies in the code of regex k, behind the SAVE that opens it. */
  ghost predicate Inside(trees: seq<Regex>, caps: seq<nat>, pc: nat, k: nat) {
    k < |trees| == |caps| &&
    var at := PieceAt(trees, caps, |trees|, 3, k); at < pc < at + ProgramLen(Piece(trees, caps, k))
  }

  lemma {:induction false} PieceStands(P: Program, trees: seq<Regex>, caps: seq<nat>, t: nat, lo: nat, k: nat)
    requires k < t <= |trees| == |caps| && CodeAt(P, Alternatives(trees, caps, t), lo)
    ensures CodeAt(P, Piece(trees, caps, k), PieceAt(trees, caps, t, lo, k))
    decreases t
  {
    if k < t - 1 {
      PieceStands(P, trees, caps, t - 1, lo + 1, k);
    }
  }

  /** A rung of the ladder is the first instruction of a piece, or a split between two rungs. */
  lemma {:induction false} LadderStep(P: Program, trees: seq<Regex>, caps: seq<nat>, t: nat, lo: nat, pc: nat) returns (k: nat)
    requires 0 < t <= |trees| == |caps| && CodeAt(P, Alternatives(trees, caps, t), lo) && Ladder(trees, caps, t, lo, pc)
    ensures pc < |P| && k < t
    ensures || pc == PieceAt(trees, caps, t, lo, k)
            || (P[pc].Split? && Ladder(trees, caps, t, lo, P[pc].x) && Ladder(trees, caps, t, lo, P[pc].y))
    decreases t
  {
    if t == 1 {
      k := 0;
    } else if pc == PieceAt(trees, caps, t, lo, t - 1) {
      k := t - 1;
    } else if pc == lo {
      k := 0;
      assert P[lo] == Split(lo + 1, PieceAt(trees, caps, t, lo, t - 1));
      assert Ladder(trees, caps, t - 1, lo + 1, lo + 1);
    } else {
      k := LadderStep(P, trees, caps, t - 1, lo + 1, pc);
      assert PieceAt(trees, caps, t, lo, k) == PieceAt(trees, caps, t - 1, lo + 1, k);
      assert forall q: nat :: Ladder(trees, caps, t - 1, lo + 1, q) ==> Ladder(trees, caps, t, lo, q);
    }
  }

  /** SAVE slot, n instructions that mind their own business, SAVE slot + 1, MATCH k. */
  ghost predicate Framed(P: Program, at: nat, n: nat, k: nat, slot: nat) {
    && at + n + 2 < |P| && P[at] == Save(slot) && P[at + n + 1] == Save(slot + 1) && P[at + n + 2] == Match(k)
    && forall pc :: at < pc <= at + n ==> Mind(P[pc], at + 1, at + n + 1, slot)
  }

  predicate Mind(ins: Instr, lo: nat, hi: nat, slot: nat) {
    !ins.Match? && JumpsInto(ins, lo, hi) && (ins.Save? ==> ins.group > slot + 1)
  }

  lemma PieceFramed(P: Program, trees: seq<Regex>, caps: seq<nat>, k: nat)
    requires IsCompiled(P, trees, caps) && Numbered(trees, caps) && k < |trees|
    ensures Framed(P, PieceAt(trees, caps, |trees|, 3, k), ProgramLen(trees[k]), k, 2 * Base(caps, k))
    ensures ProgramLen(Piece(trees, caps, k)) == ProgramLen(trees[k]) + 3
  {
    hide CodeAt, ProgramLen, PieceAt, Alternatives, GroupsIn, Plain;
    PrefixCode(P, trees, caps);
    PieceStands(P, trees, caps, |trees|, 3, k);
    CodeFramed(P, k, Base(caps, k), trees[k], PieceAt(trees, caps, |trees|, 3, k), Base(caps, k + 1));
  }

  lemma CodeFramed(P: Program, id: nat, g: nat, r: Regex, at: nat, b: nat)
    requires CodeAt(P, Toplevel(id, Paren(g, r)), at) && Plain(r) && GroupsIn(r, g + 1, b)
    ensures Framed(P, at, ProgramLen(r), id, 2 * g)
    ensures ProgramLen(Toplevel(id, Paren(g, r))) == ProgramLen(r) + 3
  {
    var body := Paren(g, r);
    assert CodeAt(P, body, at) && CodeAt(P, r, at + 1);
    assert ProgramLen(Toplevel(id, body)) == ProgramLen(body) + 1 && ProgramLen(body) == ProgramLen(r) + 2;
    BodyMinds(P, r, at + 1, g, b);
  }

  lemma BodyMinds(P: Program, r: Regex, lo: nat, a: nat, b: nat)
    requires CodeAt(P, r, lo) && Plain(r) && GroupsIn(r, a + 1, b)
    ensures forall pc :: lo <= pc < lo + ProgramLen(r) ==> Mind(P[pc], lo, lo + ProgramLen(r), 2 * a)
  {
    CodeIsSegment(P, r, lo);
    CodeSlots(P, r, lo, a + 1, b);
    PlainCodeHasNoMatch(P, r, lo);
  }

  /** Control inside the code of regex k stays there and leaves the slot of its start alone;
      the slot of its end is saved to just before MATCH. */
  lemma InsideStays(P: Program, trees: seq<Regex>, caps: seq<nat>, pc: nat, k: nat)
    requires IsCompiled(P, trees, caps) && Numbered(trees, caps) && Inside(trees, caps, pc, k)
    ensures pc < |P|
    ensures forall q: nat :: Flows(P, pc, q) ==> Inside(trees, caps, q, k) && q < |P|
    ensures P[pc].Match? ==> P[pc].regexId == k
    ensures P[pc].Save? ==> P[pc].group != 2 * Base(caps, k)
    ensures forall q: nat :: Flows(P, pc, q) && P[q].Match? ==> P[pc] == Save(2 * Base(caps, k) + 1)
  {
    hide IsCompiled, PieceAt, ProgramLen, Base, Numbered;
    PieceFramed(P, trees, caps, k);
    var at, n := PieceAt(trees, caps, |trees|, 3, k), ProgramLen(trees[k]);
    assert pc <= at + n ==> Mind(P[pc], at + 1, at + n + 1, 2 * Base(caps, k));
  }

  lemma PieceOpens(P: Program, trees: seq<Regex>, caps: seq<nat>, k: nat)
    requires IsCompiled(P, trees, caps) && k < |trees|
    ensures var at := PieceAt(trees, caps, |trees|, 3, k);
            at < |P| && P[at] == Save(2 * Base(caps, k)) && Inside(trees, caps, at + 1, k)
  {
    PrefixCode(P, trees, caps);
    PieceStands(P, trees, caps, |trees|, 3, k);
    assert CodeAt(P, Paren(Base(caps, k), trees[k]), PieceAt(trees, caps, |trees|, 3, k));
  }

  // ---------- the hit of a branch ----------

  /** A hit found inside the code of regex k is one of regex k: its start slot is the one the
      branch came with, its end slot is where the branch ended. */
  lemma {:induction false} HitInside(P: Program, trees: seq<Regex>, caps: seq<nat>, s: seq<Byte>, k: nat,
                                     pc: nat, pos: nat, c: Captures, seen: set<nat>) returns (d: Conf)
    requires IsCompiled(P, trees, caps) && Numbered(trees, caps) && Inside(trees, caps, pc, k) && pc < |P|
    requires pos <= |s| && |c| == 2 * Base(caps, |caps|) && 2 * Base(caps, k) + 1 < |c|
    requires Backtrack(P, s, pc, pos, c, seen).Some?
    ensures d.pc < |P| && P[d.pc] == Match(k) && Runs(P, s, 0, |P|, Conf(pc, pos), d) && pos <= d.pos <= |s|
    ensures var h := Backtrack(P, s, pc, pos, c, seen).value;
            && h.regexId == k && |h.caps| == |c| && h.caps[2 * Base(caps, k)] == c[2 * Base(caps, k)]
            && (!P[pc].Match? ==> h.caps[2 * Base(caps, k) + 1] == d.pos)
    decreases |s| - pos, Addresses(P) - seen, pc in seen
  {
    hide IsCompiled, Inside, Base, Numbered;
    InsideStays(P, trees, caps, pc, k);
    var q, q', c', seen' := BacktrackStep(P, s, pc, pos, c, seen);
    if P[pc].Match? && pc !in seen {
      d := Conf(pc, pos);
      assert Path(P, s, 0, |P|, 0, d, d);
    } else {
      d := HitInside(P, trees, caps, s, k, q, q', c', seen');
      RunsStep(P, s, 0, |P|, Conf(pc, pos), Conf(q, q'));
      RunsTrans(P, s, 0, |P|, Conf(pc, pos), Conf(q, q'), d);
    }
  }

  /** Where a successful branch goes next. */
  lemma BacktrackStep(P: Program, s: seq<Byte>, pc: nat, pos: nat, c: Captures, seen: set<nat>)
    returns (q: nat, q': nat, c': Captures, seen': set<nat>)
    requires pos <= |s| && pc < |P| && Backtrack(P, s, pc, pos, c, seen).Some?
    ensures P[pc].Match? && pc !in seen ==> Backtrack(P, s, pc, pos, c, seen) == Some(Hit(c, P[pc].regexId))
    ensures pc in seen ==> P[pc].Split?
    ensures !(P[pc].Match? && pc !in seen) ==>
              && Flows(P, pc, q) && pos <= q' <= |s| && Step(P, s, Conf(pc, pos), Conf(q, q'))
              && Backtrack(P, s, q, q', c', seen') == Backtrack(P, s, pc, pos, c, seen)
              && c' == (if P[pc].Save? then Put(c, P[pc].group, pos) else c)
              && (!IsStop(P[pc]) ==> q' == pos)
              && (|s| - pos, Addresses(P) - seen, pc in seen decreases to |s| - q', Addresses(P) - seen', q in seen')
  {
    q, q', c', seen' := pc, pos, c, seen;
    if pc in seen {
      q := P[pc].y;
    } else {
      seen' := seen + {pc};
      assert pc in Addresses(P) - seen && pc !in Addresses(P) - seen';
      if P[pc].Split? {
        q := if Backtrack(P, s, P[pc].x, pos, c, seen').Some? then P[pc].x else P[pc].y;
      } else if P[pc].Jmp? {
        q := P[pc].x;
      } else if P[pc].Save? {
        q, c' := pc + 1, Put(c, P[pc].group, pos);
      } else if P[pc].Check? {
        q := pc + 1;
      } else if !P[pc].Match? {
        q, q', seen' := pc + 1, pos + 1, {};
      }
    }
  }

  /** The stretch [i, j) of the input that a hit claims for its regex. */
  predicate Claims(h: Hit, caps: seq<nat>, i: nat, j: nat) {
    h.regexId < |caps| && 2 * Base(caps, h.regexId) + 1 < |h.caps|
    && h.caps[2 * Base(caps, h.regexId)] == i && h.caps[2 * Base(caps, h.regexId) + 1] == j
  }

  lemma {:induction false} HitFromLadder(P: Program, trees: seq<Regex>, caps: seq<nat>, s: seq<Byte>,
                                         pc: nat, pos: nat, c: Captures, seen: set<nat>) returns (d: Conf)
    requires IsCompiled(P, trees, caps) && Numbered(trees, caps) && Ladder(trees, caps, |trees|, 3, pc)
    requires pos <= |s| && |c| == 2 * Base(caps, |caps|) && Backtrack(P, s, pc, pos, c, seen).Some?
    ensures d.pc < |P| && P[d.pc].Match? && Runs(P, s, 0, |P|, Conf(pc, pos), d) && pos <= d.pos <= |s|
    ensures var h := Backtrack(P, s, pc, pos, c, seen).value; P[d.pc] == Match(h.regexId) && Claims(h, caps, pos, d.pos)
    decreases |s| - pos, Addresses(P) - seen, pc in seen
  {
    hide IsCompiled, Ladder, Inside, Numbered, Backtrack, Base, Runs, Step, Addresses;
    var k := RungOrPiece(P, trees, caps, pc);
    var q, q', c', seen' := BacktrackStep(P, s, pc, pos, c, seen);
    if P[pc].Split? {
      d := HitFromLadder(P, trees, caps, s, q, q', c', seen');
    } else {
      BaseGrows(caps, k, |caps|);
      d := HitInside(P, trees, caps, s, k, q, q', c', seen');
    }
    RunsStep(P, s, 0, |P|, Conf(pc, pos), Conf(q, q'));
    RunsTrans(P, s, 0, |P|, Conf(pc, pos), Conf(q, q'), d);
  }

  lemma RungOrPiece(P: Program, trees: seq<Regex>, caps: seq<nat>, pc: nat) returns (k: nat)
    requires IsCompiled(P, trees, caps) && Numbered(trees, caps) && Ladder(trees, caps, |trees|, 3, pc)
    ensures pc + 1 < |P| && k < |trees| == |caps|
    ensures || (P[pc].Split? && Ladder(trees, caps, |trees|, 3, P[pc].x) && Ladder(trees, caps, |trees|, 3, P[pc].y))
            || (P[pc] == Save(2 * Base(caps, k)) && Inside(trees, caps, pc + 1, k) && !P[pc + 1].Match?)
  {
    PrefixCode(P, trees, caps);
    k := LadderStep(P, trees, caps, |trees|, 3, pc);
    if pc == PieceAt(trees, caps, |trees|, 3, k) {
      PieceOpens(P, trees, caps, k);
      PieceFramed(P, trees, caps, k);
      assert ProgramLen(trees[k]) > 0 ==> Mind(P[pc + 1], pc + 1, pc + ProgramLen(trees[k]) + 1, 2 * Base(caps, k));
    } else {
      PatternIsClosed(P, trees, caps);
    }
  }

  /** Some regex matches a stretch that starts at `i`. */
  ghost predicate StartsMatch(trees: seq<Regex>, s: seq<Byte>, i: nat) {
    exists k: nat, j: nat :: k < |trees| && i <= |s| && Matches(trees[k], s, i, j)
  }

  /** A hit of the alternatives at `pos` claims a stretch that starts there and that its regex matches. */
  lemma HitMatches(P: Program, trees: seq<Regex>, caps: seq<nat>, s: seq<Byte>, pos: nat, c: Captures) returns (j: nat)
    requires IsCompiled(P, trees, caps) && Numbered(trees, caps)
    requires pos <= |s| && |c| == 2 * Base(caps, |caps|) && Backtrack(P, s, 3, pos, c, {}).Some?
    ensures var h := Backtrack(P, s, 3, pos, c, {}).value;
            h.regexId < |trees| && Claims(h, caps, pos, j) && pos <= j <= |s| && Matches(trees[h.regexId], s, pos, j)
  {
    hide Backtrack, CodeAt, Base;
    var d := HitFromLadder(P, trees, caps, s, 3, pos, c, {});
    PrefixCode(P, trees, caps);
    var n: nat :| Path(P, s, 0, |P|, n, Conf(3, pos), d);
    var k := AlternativesSound(P, trees, caps, |trees|, s, n, Conf(3, pos), d);
    j := d.pos;
  }

  lemma CanMatchHere(P: Program, trees: seq<Regex>, caps: seq<nat>, s: seq<Byte>, i: nat)
    requires IsCompiled(P, trees, caps) && Numbered(trees, caps) && i <= |s|
    ensures CanMatch(P, s, 3, i, {}) <==> StartsMatch(trees, s, i)
  {
    hide Backtrack, CodeAt, Base;
    if CanMatch(P, s, 3, i, {}) {
      var c := Unset(2 * Base(caps, |caps|));
      SuccessIgnoresCaptures(P, s, 3, i, c, [], {});
      var j := HitMatches(P, trees, caps, s, i, c);
    }
    if StartsMatch(trees, s, i) {
      var k: nat, j: nat :| k < |trees| && i <= |s| && Matches(trees[k], s, i, j);
      PrefixCode(P, trees, caps);
      var pc := AlternativesComplete(P, trees, caps, |trees|, 3, s, k, i, j);
      var n: nat :| Path(P, s, 0, |P|, n, Conf(3, i), Conf(pc, j));
      PathCanMatch(P, s, n, Conf(3, i), Conf(pc, j));
    }
  }

  // ---------- the skipping loop looks for the leftmost start ----------

  /** Having passed the skipping loop makes no difference behind it. */
  lemma {:induction false} SeenAside(P: Program, s: seq<Byte>, pc: nat, pos: nat, c: Captures, seen: set<nat>, aside: set<nat>)
    requires SkipsFirst(P) && pc >= 3 && pos <= |s| && forall p: nat :: p in aside ==> p < 3
    ensures Backtrack(P, s, pc, pos, c, seen + aside) == Backtrack(P, s, pc, pos, c, seen)
    decreases |s| - pos, Addresses(P) - seen, pc in seen
  {
    if pc < |P| {
      if P[pc].Split? {
        assert Flows(P, pc, P[pc].x) && Flows(P, pc, P[pc].y);
      }
      if pc in seen {
        if P[pc].Split? && P[pc].y !in seen {
          SeenAside(P, s, P[pc].y, pos, c, seen, aside);
        }
      } else {
        var seen' := seen + {pc};
        assert seen + aside + {pc} == seen' + aside;
        assert pc in Addresses(P) - seen && pc !in Addresses(P) - seen';
        if P[pc].Split? {
          SeenAside(P, s, P[pc].x, pos, c, seen', aside);
          SeenAside(P, s, P[pc].y, pos, c, seen', aside);
        } else if !IsStop(P[pc]) {
          var q := if P[pc].Jmp? then P[pc].x else pc + 1;
          assert Flows(P, pc, q);
          SeenAside(P, s, q, pos, if P[pc].Save? then Put(c, P[pc].group, pos) else c, seen', aside);
        }
      }
    }
  }

  lemma StartHereOrLater(P: Program, s: seq<Byte>, pos: nat, c: Captures, seen: set<nat>)
    requires SkipsFirst(P) && pos <= |s| && seen <= {2}
    ensures Backtrack(P, s, 0, pos, c, seen)
            == OrElse(Backtrack(P, s, 3, pos, c, {}), if pos < |s| then Backtrack(P, s, 0, pos + 1, c, {2}) else None)
  {
    SeenAside(P, s, 3, pos, c, {}, seen + {0});
    assert {} + (seen + {0}) == seen + {0};
    if pos < |s| {
      assert {} + {2} == {2};
      assert Backtrack(P, s, 2, pos + 1, c, {}) == Backtrack(P, s, 0, pos + 1, c, {2});
      assert Backtrack(P, s, 1, pos, c, seen + {0}) == Backtrack(P, s, 2, pos + 1, c, {});
    }
  }

  /** The first position, from `pos` on, where the alternatives can match. */
  lemma {:induction false} FirstStart(P: Program, s: seq<Byte>, pos: nat, c: Captures, seen: set<nat>) returns (i: nat)
    requires SkipsFirst(P) && pos <= |s| && seen <= {2}
    ensures pos <= i <= |s| + 1 && forall i': nat :: pos <= i' < i && i' <= |s| ==> !CanMatch(P, s, 3, i', {})
    ensures Backtrack(P, s, 0, pos, c, seen) == if i <= |s| then Backtrack(P, s, 3, i, c, {}) else None
    ensures i <= |s| ==> CanMatch(P, s, 3, i, {})
    decreases |s| - pos
  {
    hide Backtrack;
    StartHereOrLater(P, s, pos, c, seen);
    SuccessIgnoresCaptures(P, s, 3, pos, c, [], {});
    if Backtrack(P, s, 3, pos, c, {}).Some? {
      i := pos;
    } else if pos == |s| {
      i := pos + 1;
    } else {
      i := FirstStart(P, s, pos + 1, c, {2});
    }
  }

  /** A run reports nothing exactly when no regex matches anywhere. The stretch of a hit is one
      its regex matches, and no regex matches a stretch that starts further left. */
  lemma RunIsLeftmost(P: Program, trees: seq<Regex>, caps: seq<nat>, s: seq<Byte>)
    requires IsCompiled(P, trees, caps) && Numbered(trees, caps)
    ensures match Run(P, s, 2 * Base(caps, |caps|))
            case None => forall i :: 0 <= i <= |s| ==> !StartsMatch(trees, s, i)
            case Some(h) => h.regexId < |trees| && exists i: nat, j: nat ::
              && Claims(h, caps, i, j) && i <= j <= |s| && Matches(trees[h.regexId], s, i, j)
              && forall i': nat :: i' < i ==> !StartsMatch(trees, s, i')
  {
    hide IsCompiled, Backtrack, Base, Numbered;
    var c := Unset(2 * Base(caps, |caps|));
    PatternSkipsFirst(P, trees, caps);
    RunIsBacktrack(P, s, |c|);
    var i := FirstStart(P, s, 0, c, {});
    forall i': nat | i' < i && i' <= |s|
      ensures !StartsMatch(trees, s, i')
    {
      CanMatchHere(P, trees, caps, s, i');
    }
    if i <= |s| {
      SuccessIgnoresCaptures(P, s, 3, i, c, [], {});
      var j := HitMatches(P, trees, caps, s, i, c);
    }
  }
}
