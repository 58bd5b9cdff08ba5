/** Which way of matching is preferred, told by the syntax tree alone: the left side of a choice
    first; one more round first if the operator is greedy, and last if it is not. The code of a
    regex tries its ways in just this order. */
module Preference {
  import opened Options
  import opened Regexes
  import opened Bytecode
  import opened Compiler
  import opened Patterns
  import opened Backtracking
  import opened PikeSpec
  import opened Priority
  import opened Loops

  /** One way to match: where it ends, and the captures it leaves. */
  datatype Way = Way(pos: nat, caps: Captures)

  ghost predicate Inside(ws: seq<Way>, i: int, s: seq<Byte>) { forall w <- ws :: i <= w.pos <= |s| }

  function InTurn(greedy: bool, more: seq<Way>, stop: seq<Way>): seq<Way> {
    if greedy then more + stop else stop + more
  }

  /** The ways to match `r` from position i with captures `a`, the preferred one first. */
  function Ways(r: Regex, s: seq<Byte>, i: nat, a: Captures): (ws: seq<Way>)
    requires i <= |s|
    ensures Inside(ws, i, s)
    decreases r, 0, 0, 0, 0
  {
    match r
    case Nil => [Way(i, a)]
    case Alt(l, r') => Ways(l, s, i, a) + Ways(r', s, i, a)
    case Cat(l, r') => Then(Ways(l, s, i, a), r', s, i)
    case Lit(c) => if i < |s| && s[i] == c then [Way(i + 1, a)] else []
    case Dot => if i < |s| then [Way(i + 1, a)] else []
    case Paren(g, b) => Ending(Ways(b, s, i, Put(a, 2 * g, i)), g, i, s)
    case Quest(greedy, b) => InTurn(greedy, Ways(b, s, i, a), [Way(i, a)])
    case Star(greedy, b) => Loop(greedy, b, s, i, a)
    case Plus(greedy, b) => Rounds(greedy, b, s, i, -1, Ways(b, s, i, a))
    case Class(rs) => if i < |s| && InRanges(rs, s[i]) then [Way(i + 1, a)] else []
    case NClass(rs) => if i < |s| && !InRanges(rs, s[i]) then [Way(i + 1, a)] else []
    case Assert(at) => if Holds(at, s, i) then [Way(i, a)] else []
    case Toplevel(_, b) => Ways(b, s, i, a)
  }

  /** Each way in turn, followed by `r`. */
  function Then(ws: seq<Way>, r: Regex, s: seq<Byte>, i: nat): (r': seq<Way>)
    requires i <= |s| && Inside(ws, i, s)
    ensures Inside(r', i, s)
    decreases r, 1, 0, 0, |ws|
  {
    if ws == [] then [] else Ways(r, s, ws[0].pos, ws[0].caps) + Then(ws[1..], r, s, i)
  }

  /** Group g ends where each way ends. */
  function Ending(ws: seq<Way>, g: nat, i: nat, s: seq<Byte>): (r: seq<Way>)
    requires Inside(ws, i, s)
    ensures Inside(r, i, s)
  {
    if ws == [] then [] else [Way(ws[0].pos, Put(ws[0].caps, 2 * g + 1, ws[0].pos))] + Ending(ws[1..], g, i, s)
  }

  /** Any number of rounds of `b`; after each the loop may stop. */
  function Loop(greedy: bool, b: Regex, s: seq<Byte>, i: nat, a: Captures): (ws: seq<Way>)
    requires i <= |s|
    ensures Inside(ws, i, s)
    decreases b, 1, |s| - i, 1, 0
  {
    InTurn(greedy, Rounds(greedy, b, s, i, i, Ways(b, s, i, a)), [Way(i, a)])
  }

  /** The rounds of a loop behind each way of a round before, as long as that came beyond `after`. */
  function Rounds(greedy: bool, b: Regex, s: seq<Byte>, i: nat, after: int, ws: seq<Way>): (r: seq<Way>)
    requires -1 <= after <= |s| && i <= |s| && Inside(ws, i, s)
    ensures Inside(r, i, s)
    decreases b, 1, |s| - after, 0, |ws|
  {
    if ws == [] then []
    else (if ws[0].pos > after then Loop(greedy, b, s, ws[0].pos, ws[0].caps) else []) + Rounds(greedy, b, s, i, after, ws[1..])
  }

  // ---------- the ways are the matches ----------

  /** Some way ends at j. */
  ghost predicate EndsAt(ws: seq<Way>, j: nat) { exists w <- ws :: w.pos == j }

  lemma EndsAtConcat(x: seq<Way>, y: seq<Way>, j: nat)
    ensures EndsAt(x + y, j) <==> EndsAt(x, j) || EndsAt(y, j)
  {
    if w :| w in x && w.pos == j {
      assert w in x + y;
    }
    if w :| w in y && w.pos == j {
      assert w in x + y;
    }
  }

  /** Any number of rounds lead from i to j. */
  ghost predicate Many(b: Regex, s: seq<Byte>, i: nat, j: nat)
    requires i <= |s|
  {
    exists n: nat :: Reps(b, n, s, i, j)
  }

  /** A round that reads, and any number of rounds behind it. */
  ghost predicate RoundThen(b: Regex, s: seq<Byte>, i: nat, after: int, k: nat, j: nat)
    requires i <= |s|
  {
    i <= k <= |s| && k > after && Matches(b, s, i, k) && Many(b, s, k, j)
  }

  lemma ManyMore(b: Regex, s: seq<Byte>, i: nat, k: nat, j: nat)
    requires i <= k <= |s| && Matches(b, s, i, k) && Many(b, s, k, j)
    ensures exists n: nat :: n > 0 && Reps(b, n, s, i, j)
  {
    hide Matches;
    var n: nat :| Reps(b, n, s, k, j);
    RepsLater(b, n, s, k, j);
    assert Reps(b, n + 1, s, i, j);
  }

  lemma RepsLater(b: Regex, n: nat, s: seq<Byte>, i: nat, j: nat)
    requires i <= |s| && Reps(b, n, s, i, j)
    ensures i <= j <= |s|
  {}

  /** Rounds that read nothing can be left out. */
  lemma {:induction false} FirstReading(b: Regex, n: nat, s: seq<Byte>, i: nat, j: nat)
    requires i <= |s| && Reps(b, n, s, i, j)
    ensures i == j || exists k: nat :: RoundThen(b, s, i, i, k, j)
    decreases n
  {
    hide Matches;
    if n > 0 {
      var k: nat :| i <= k <= |s| && Matches(b, s, i, k) && Reps(b, n - 1, s, k, j);
      if k == i {
        FirstReading(b, n - 1, s, i, j);
      } else {
        assert RoundThen(b, s, i, i, k, j);
      }
    }
  }

  lemma ManyIs(b: Regex, s: seq<Byte>, i: nat, j: nat)
    requires i <= |s|
    ensures Many(b, s, i, j) <==> i == j || exists k: nat :: RoundThen(b, s, i, i, k, j)
  {
    hide Matches;
    if Many(b, s, i, j) {
      var n: nat :| Reps(b, n, s, i, j);
      FirstReading(b, n, s, i, j);
    }
    if i == j {
      assert Reps(b, 0, s, i, j);
    }
    if k: nat :| RoundThen(b, s, i, i, k, j) {
      ManyMore(b, s, i, k, j);
    }
  }

  lemma FirstRound(b: Regex, n: nat, s: seq<Byte>, i: nat, j: nat)
    requires i <= |s| && n > 0 && Reps(b, n, s, i, j)
    ensures exists k: nat :: RoundThen(b, s, i, -1, k, j)
  {
    hide Matches;
    var k: nat :| i <= k <= |s| && Matches(b, s, i, k) && Reps(b, n - 1, s, k, j);
    assert RoundThen(b, s, i, -1, k, j);
  }

  lemma PlusIs(greedy: bool, b: Regex, s: seq<Byte>, i: nat, j: nat)
    requires i <= |s|
    ensures Matches(Plus(greedy, b), s, i, j) <==> exists k: nat :: RoundThen(b, s, i, -1, k, j)
  {
    if Matches(Plus(greedy, b), s, i, j) {
      var n := PlusReps(Plus(greedy, b), s, i, j);
      FirstRound(b, n, s, i, j);
    }
    if k: nat :| RoundThen(b, s, i, -1, k, j) {
      ManyMore(b, s, i, k, j);
      var n: nat :| n > 0 && Reps(b, n, s, i, j);
      RepsLater(b, n, s, i, j);
    }
  }

  lemma StarIs(greedy: bool, b: Regex, s: seq<Byte>, i: nat, j: nat)
    requires i <= |s|
    ensures Matches(Star(greedy, b), s, i, j) <==> Many(b, s, i, j)
  {
    if Many(b, s, i, j) {
      var n: nat :| Reps(b, n, s, i, j);
      RepsLater(b, n, s, i, j);
    }
  }

  /** The ways of a regex end exactly where its matches do. */
  lemma {:induction false} WaysAreMatches(r: Regex, s: seq<Byte>, i: nat, a: Captures, j: nat)
    requires i <= |s|
    ensures EndsAt(Ways(r, s, i, a), j) <==> Matches(r, s, i, j)
    decreases r, 0, 0, 1, 0
  {
    match r
    case Alt(l, r') =>
      WaysAreMatches(l, s, i, a, j);
      WaysAreMatches(r', s, i, a, j);
      EndsAtConcat(Ways(l, s, i, a), Ways(r', s, i, a), j);
      AltIs(r, s, i, j);
    case Cat(l, r') => CatWays(l, r', s, i, a, j);
    case Paren(g, b) =>
      WaysAreMatches(b, s, i, Put(a, 2 * g, i), j);
      EndingEnds(Ways(b, s, i, Put(a, 2 * g, i)), g, i, s, j);
    case Quest(greedy, b) =>
      WaysAreMatches(b, s, i, a, j);
      InTurnEnds(greedy, Ways(b, s, i, a), Way(i, a), j);
    case Star(greedy, b) =>
      LoopWays(greedy, b, s, i, a, j);
      StarIs(greedy, b, s, i, j);
    case Plus(greedy, b) =>
      RoundWays(greedy, b, s, i, -1, a, j);
      PlusIs(greedy, b, s, i, j);
    case Toplevel(_, b) => WaysAreMatches(b, s, i, a, j);
    case _ => LeafWays(r, s, i, a, j);
  }

  lemma AltIs(r: Regex, s: seq<Byte>, i: nat, j: nat)
    requires i <= |s| && r.Alt?
    ensures Matches(r, s, i, j) <==> Matches(r.left, s, i, j) || Matches(r.right, s, i, j)
  {
  }

  lemma LeafWays(r: Regex, s: seq<Byte>, i: nat, a: Captures, j: nat)
    requires i <= |s| && (r.Nil? || r.Lit? || r.Dot? || r.Class? || r.NClass? || r.Assert?)
    ensures EndsAt(Ways(r, s, i, a), j) <==> Matches(r, s, i, j)
  {
    assert EndsAt([Way(i, a)], j) <==> j == i by {
      assert Way(i, a) in [Way(i, a)];
    }
    assert EndsAt([Way(i + 1, a)], j) <==> j == i + 1 by {
      assert Way(i + 1, a) in [Way(i + 1, a)];
    }
  }

  lemma InTurnEnds(greedy: bool, more: seq<Way>, stop: Way, j: nat)
    ensures EndsAt(InTurn(greedy, more, [stop]), j) <==> EndsAt(more, j) || stop.pos == j
  {
    EndsAtConcat(more, [stop], j);
    EndsAtConcat([stop], more, j);
    assert stop in [stop];
  }

  lemma {:induction false} EndingEnds(ws: seq<Way>, g: nat, i: nat, s: seq<Byte>, j: nat)
    requires Inside(ws, i, s)
    ensures EndsAt(Ending(ws, g, i, s), j) <==> EndsAt(ws, j)
  {
    if ws != [] {
      EndingEnds(ws[1..], g, i, s, j);
      var w := Way(ws[0].pos, Put(ws[0].caps, 2 * g + 1, ws[0].pos));
      EndsAtConcat([w], Ending(ws[1..], g, i, s), j);
      EndsAtConcat([ws[0]], ws[1..], j);
      assert ws == [ws[0]] + ws[1..];
      assert w in [w] && ws[0] in [ws[0]];
    }
  }

  lemma CatWays(l: Regex, r: Regex, s: seq<Byte>, i: nat, a: Captures, j: nat)
    requires i <= |s|
    ensures EndsAt(Ways(Cat(l, r), s, i, a), j) <==> Matches(Cat(l, r), s, i, j)
    decreases Cat(l, r), 0, 0, 0, 0
  {
    hide Ways, Then, Matches;
    var ws := Ways(l, s, i, a);
    WaysOfCat(l, r, s, i, a);
    ThenWays(ws, r, s, i, j);
    if EndsAt(Then(ws, r, s, i), j) {
      var w :| w in ws && Matches(r, s, w.pos, j);
      assert EndsAt(ws, w.pos);
      WaysAreMatches(l, s, i, a, w.pos);
      CatFrom(l, r, s, i, w.pos, j);
    }
    if Matches(Cat(l, r), s, i, j) {
      var k := CatAt(l, r, s, i, j);
      WaysAreMatches(l, s, i, a, k);
      var w :| w in ws && w.pos == k;
    }
  }

  lemma WaysOfCat(l: Regex, r: Regex, s: seq<Byte>, i: nat, a: Captures)
    requires i <= |s|
    ensures Ways(Cat(l, r), s, i, a) == Then(Ways(l, s, i, a), r, s, i)
  {}

  lemma WaysOfQuest(greedy: bool, b: Regex, s: seq<Byte>, i: nat, a: Captures)
    requires i <= |s|
    ensures Ways(Quest(greedy, b), s, i, a) == InTurn(greedy, Ways(b, s, i, a), [Way(i, a)])
  {
    hide InTurn;
  }

  lemma WaysOfAlt(l: Regex, r: Regex, s: seq<Byte>, i: nat, a: Captures)
    requires i <= |s|
    ensures Ways(Alt(l, r), s, i, a) == Ways(l, s, i, a) + Ways(r, s, i, a)
  {}

  lemma WaysOfParen(g: nat, r: Regex, s: seq<Byte>, i: nat, a: Captures)
    requires i <= |s|
    ensures Ways(Paren(g, r), s, i, a) == Ending(Ways(r, s, i, Put(a, 2 * g, i)), g, i, s)
  {}

  lemma CatAt(l: Regex, r: Regex, s: seq<Byte>, i: nat, j: nat) returns (k: nat)
    requires i <= |s| && Matches(Cat(l, r), s, i, j)
    ensures i <= k <= |s| && Matches(l, s, i, k) && Matches(r, s, k, j)
  {
    k :| i <= k <= |s| && Matches(l, s, i, k) && Matches(r, s, k, j);
  }

  lemma CatFrom(l: Regex, r: Regex, s: seq<Byte>, i: nat, k: nat, j: nat)
    requires i <= k <= |s| && Matches(l, s, i, k) && Matches(r, s, k, j)
    ensures Matches(Cat(l, r), s, i, j)
  {}

  lemma {:induction false} ThenWays(ws: seq<Way>, r: Regex, s: seq<Byte>, i: nat, j: nat)
    requires i <= |s| && Inside(ws, i, s)
    ensures EndsAt(Then(ws, r, s, i), j) <==> exists w :: w in ws && Matches(r, s, w.pos, j)
    decreases r, 1, 0, 0, |ws|
  {
    hide Ways, Matches;
    if ws != [] {
      ThenWays(ws[1..], r, s, i, j);
      WaysAreMatches(r, s, ws[0].pos, ws[0].caps, j);
      EndsAtConcat(Ways(r, s, ws[0].pos, ws[0].caps), Then(ws[1..], r, s, i), j);
      assert ws == [ws[0]] + ws[1..];
    }
  }

  lemma {:induction false} LoopWays(greedy: bool, b: Regex, s: seq<Byte>, i: nat, a: Captures, j: nat)
    requires i <= |s|
    ensures EndsAt(Loop(greedy, b, s, i, a), j) <==> Many(b, s, i, j)
    decreases b, 1, |s| - i, 2, 0
  {
    hide Ways, Rounds, Matches, Many;
    RoundWays(greedy, b, s, i, i, a, j);
    InTurnEnds(greedy, Rounds(greedy, b, s, i, i, Ways(b, s, i, a)), Way(i, a), j);
    ManyIs(b, s, i, j);
  }

  lemma RoundWays(greedy: bool, b: Regex, s: seq<Byte>, i: nat, after: int, a: Captures, j: nat)
    requires -1 <= after <= |s| && i <= |s|
    ensures EndsAt(Rounds(greedy, b, s, i, after, Ways(b, s, i, a)), j) <==> exists k: nat :: RoundThen(b, s, i, after, k, j)
    decreases b, 1, |s| - after, 1, 0
  {
    hide Ways, Rounds, Matches, Many;
    var ws := Ways(b, s, i, a);
    RoundsWays(greedy, b, s, i, after, ws, j);
    if EndsAt(Rounds(greedy, b, s, i, after, ws), j) {
      var w :| w in ws && w.pos > after && Many(b, s, w.pos, j);
      assert EndsAt(ws, w.pos);
      WaysAreMatches(b, s, i, a, w.pos);
      assert RoundThen(b, s, i, after, w.pos, j);
    }
    if k: nat :| RoundThen(b, s, i, after, k, j) {
      WaysAreMatches(b, s, i, a, k);
      var w :| w in ws && w.pos == k;
    }
  }

  lemma {:induction false} RoundsWays(greedy: bool, b: Regex, s: seq<Byte>, i: nat, after: int, ws: seq<Way>, j: nat)
    requires -1 <= after <= |s| && i <= |s| && Inside(ws, i, s)
    ensures EndsAt(Rounds(greedy, b, s, i, after, ws), j) <==> exists w :: w in ws && w.pos > after && Many(b, s, w.pos, j)
    decreases b, 1, |s| - after, 0, |ws|
  {
    hide Ways, Loop, Many;
    if ws != [] {
      RoundsWays(greedy, b, s, i, after, ws[1..], j);
      var first := if ws[0].pos > after then Loop(greedy, b, s, ws[0].pos, ws[0].caps) else [];
      if ws[0].pos > after {
        LoopWays(greedy, b, s, ws[0].pos, ws[0].caps, j);
      }
      EndsAtConcat(first, Rounds(greedy, b, s, i, after, ws[1..]), j);
      assert ws == [ws[0]] + ws[1..];
    }
  }

  // ---------- the code tries the ways in their order ----------

  /** Where every silent step goes down in rank, what was passed before does not matter. */
  lemma {:induction false} PassedNoMatter(P: Program, rank: seq<nat>, s: seq<Byte>, pc: nat, pos: nat, c: Captures, seen: set<nat>)
    requires Ranked(P, rank) && pos <= |s|
    requires forall q :: q in seen ==> q < |P| && (pc < |P| ==> rank[pc] < rank[q])
    ensures Backtrack(P, s, pc, pos, c, seen) == Backtrack(P, s, pc, pos, c, {})
    decreases |s| - pos, if pc < |P| then rank[pc] else 0
  {
    if pc < |P| && !IsStop(P[pc]) {
      var d := if P[pc].Save? then Put(c, P[pc].group, pos) else c;
      forall q: nat | Flows(P, pc, q)
        ensures Backtrack(P, s, q, pos, d, seen + {pc}) == Backtrack(P, s, q, pos, d, {} + {pc})
      {
        if q < |P| {
          PassedNoMatter(P, rank, s, q, pos, d, seen + {pc});
          PassedNoMatter(P, rank, s, q, pos, d, {} + {pc});
        }
      }
      OneStep(P, s, pc, pos, c, seen);
      OneStep(P, s, pc, pos, c, {});
    }
  }

  /** What an instruction that is met for the first time does. */
  lemma OneStep(P: Program, s: seq<Byte>, pc: nat, pos: nat, c: Captures, seen: set<nat>)
    requires pos <= |s| && pc < |P| && pc !in seen && !IsStop(P[pc])
    ensures var seen' := seen + {pc};
      Backtrack(P, s, pc, pos, c, seen) ==
        match P[pc]
        case Jmp(x) => Backtrack(P, s, x, pos, c, seen')
        case Split(x, y) => OrElse(Backtrack(P, s, x, pos, c, seen'), Backtrack(P, s, y, pos, c, seen'))
        case Save(g) => Backtrack(P, s, pc + 1, pos, Put(c, g, pos), seen')
        case Check(a) => if Holds(a, s, pos) then Backtrack(P, s, pc + 1, pos, c, seen') else None
        case _ => None
    ensures !P[pc].Jmp? && !P[pc].Split? ==> Flows(P, pc, pc + 1)
  {
  }

  /** What is found from `pc` on. */
  function Found(P: Program, s: seq<Byte>, pc: nat, w: Way): Option<Hit>
    requires w.pos <= |s|
  {
    Backtrack(P, s, pc, w.pos, w.caps, {})
  }

  /** The first of some ways that goes on to a match from `pc`. */
  ghost function FirstFrom(P: Program, s: seq<Byte>, pc: nat, ws: seq<Way>): Option<Hit>
    requires Inside(ws, 0, s)
  {
    if ws == [] then None else OrElse(Found(P, s, pc, ws[0]), FirstFrom(P, s, pc, ws[1..]))
  }

  lemma {:induction false} FirstConcat(P: Program, s: seq<Byte>, pc: nat, x: seq<Way>, y: seq<Way>)
    requires Inside(x, 0, s) && Inside(y, 0, s)
    ensures Inside(x + y, 0, s) && FirstFrom(P, s, pc, x + y) == OrElse(FirstFrom(P, s, pc, x), FirstFrom(P, s, pc, y))
  {
    hide Found;
    if x == [] {
      assert x + y == y;
    } else {
      FirstConcat(P, s, pc, x[1..], y);
      assert (x + y)[1..] == x[1..] + y;
    }
  }

  lemma FirstOne(P: Program, s: seq<Byte>, pc: nat, w: Way)
    requires w.pos <= |s|
    ensures Inside([w], 0, s) && FirstFrom(P, s, pc, [w]) == Found(P, s, pc, w)
  {
    assert [w][1..] == [];
  }

  lemma {:induction false} FirstMoves(P: Program, s: seq<Byte>, pc: nat, q: nat, ws: seq<Way>)
    requires Inside(ws, 0, s) && forall w <- ws :: Found(P, s, pc, w) == Found(P, s, q, w)
    ensures FirstFrom(P, s, pc, ws) == FirstFrom(P, s, q, ws)
  {
    if ws != [] {
      FirstMoves(P, s, pc, q, ws[1..]);
    }
  }

  lemma FirstInTurn(P: Program, s: seq<Byte>, pc: nat, greedy: bool, more: seq<Way>, w: Way)
    requires Inside(more, 0, s) && w.pos <= |s|
    ensures Inside(InTurn(greedy, more, [w]), 0, s)
    ensures FirstFrom(P, s, pc, InTurn(greedy, more, [w])) ==
      if greedy then OrElse(FirstFrom(P, s, pc, more), Found(P, s, pc, w)) else OrElse(Found(P, s, pc, w), FirstFrom(P, s, pc, more))
  {
    FirstOne(P, s, pc, w);
    FirstConcat(P, s, pc, more, [w]);
    FirstConcat(P, s, pc, [w], more);
  }

  /** One instruction of ranked code, with nothing passed before. */
  lemma FoundStep(P: Program, rank: seq<nat>, s: seq<Byte>, pc: nat, w: Way)
    requires Ranked(P, rank) && w.pos <= |s| && pc < |P|
    ensures P[pc].Jmp? ==> Found(P, s, pc, w) == Found(P, s, P[pc].x, w)
    ensures P[pc].Split? ==> Found(P, s, pc, w) == OrElse(Found(P, s, P[pc].x, w), Found(P, s, P[pc].y, w))
    ensures P[pc].Save? ==> Found(P, s, pc, w) == Found(P, s, pc + 1, Way(w.pos, Put(w.caps, P[pc].group, w.pos)))
    ensures P[pc].Check? ==> Found(P, s, pc, w) == if Holds(P[pc].assertion, s, w.pos) then Found(P, s, pc + 1, w) else None
    ensures P[pc].Match? ==> Found(P, s, pc, w) == Some(Hit(w.caps, P[pc].regexId))
    ensures IsStop(P[pc]) && !P[pc].Match? ==>
      Found(P, s, pc, w) == if w.pos < |s| && Eats(P[pc], s[w.pos]) then Found(P, s, pc + 1, Way(w.pos + 1, w.caps)) else None
  {
    if !IsStop(P[pc]) {
      hide Backtrack;
      OneStep(P, s, pc, w.pos, w.caps, {});
      var d := if P[pc].Save? then Put(w.caps, P[pc].group, w.pos) else w.caps;
      forall q: nat | Flows(P, pc, q)
        ensures Backtrack(P, s, q, w.pos, d, {} + {pc}) == Backtrack(P, s, q, w.pos, d, {})
      {
        PassedNoMatter(P, rank, s, q, w.pos, d, {} + {pc});
      }
    }
  }

  lemma ReadsOn(b: Regex, s: seq<Byte>, i: nat, a: Captures)
    requires i <= |s| && Plain(b) && !Nullable(b)
    ensures forall w <- Ways(b, s, i, a) :: w.pos > i
  {
    hide Ways;
    forall w <- Ways(b, s, i, a) ensures w.pos > i {
      WaysAreMatches(b, s, i, a, w.pos);
      NullableMeansEmpty(b, s, i);
    }
  }

  /** The backtracker, and so the Pike machine, finds from the start of the code of `r` what it finds
      from behind it for the first way that goes on to a match. */
  lemma {:induction false} CodePrefers(P: Program, rank: seq<nat>, r: Regex, lo: nat, s: seq<Byte>, i: nat, a: Captures)
    requires Ranked(P, rank) && Plain(r) && LoopsRead(r) && CodeAt(P, r, lo) && i <= |s|
    ensures Found(P, s, lo, Way(i, a)) == FirstFrom(P, s, lo + ProgramLen(r), Ways(r, s, i, a))
    decreases r, 0, 0, 1, 0
  {
    hide *;
    PartsToo(r);
    UnaryIs(r);
    if r.Alt? {
      AltPrefers(P, rank, r, lo, s, i, a);
    } else if r.Cat? {
      CatPrefers(P, rank, r, lo, s, i, a);
    } else if r.Paren? {
      ParenPrefers(P, rank, r, lo, s, i, a);
    } else if r.Quest? {
      QuestPrefers(P, rank, r, lo, s, i, a);
    } else if r.Star? {
      IsLoop(P, r, lo);
      LoopWaysAre(r.greedy, r.body, s, i, a);
      LoopPrefers(P, rank, r.greedy, r.body, lo + 1, lo, lo + ProgramLen(r), s, i, a);
    } else if r.Plus? {
      IsLoop(P, r, lo);
      LoopWaysAre(r.greedy, r.body, s, i, a);
      CodePrefers(P, rank, r.body, lo, s, i, a);
      var ws := Ways(r.body, s, i, a);
      BeyondNothing(ws, i, s);
      RoundsPrefer(P, rank, r.greedy, r.body, lo, lo + ProgramLen(r.body), lo + ProgramLen(r), s, i, -1, ws);
    } else {
      LeafPrefers(P, rank, r, lo, s, i, a);
    }
  }

  lemma UnaryIs(r: Regex)
    ensures IsUnary(r) <==> r.Paren? || r.Quest? || r.Star? || r.Plus? || r.Toplevel?
    ensures Plain(r) ==> !r.Toplevel?
    ensures r.Plus? ==> forall lo :: BodyAt(r, lo) == lo
  {
  }

  lemma BeyondNothing(ws: seq<Way>, i: nat, s: seq<Byte>)
    requires Inside(ws, i, s)
    ensures forall w <- ws :: w.pos > -1
  {
  }

  lemma LeafPrefers(P: Program, rank: seq<nat>, r: Regex, lo: nat, s: seq<Byte>, i: nat, a: Captures)
    requires r.Nil? || r.Lit? || r.Dot? || r.Class? || r.NClass? || r.Assert?
    requires Ranked(P, rank) && CodeAt(P, r, lo) && i <= |s|
    ensures Found(P, s, lo, Way(i, a)) == FirstFrom(P, s, lo + ProgramLen(r), Ways(r, s, i, a))
  {
    hide Found, Ranked;
    if !r.Nil? {
      FoundStep(P, rank, s, lo, Way(i, a));
    }
    var hi := lo + ProgramLen(r);
    FirstOne(P, s, hi, Way(i, a));
    if i < |s| {
      FirstOne(P, s, hi, Way(i + 1, a));
    }
  }

  lemma PartsToo(r: Regex)
    requires Plain(r) && LoopsRead(r)
    ensures r.Alt? || r.Cat? ==> Plain(r.left) && LoopsRead(r.left) && Plain(r.right) && LoopsRead(r.right)
    ensures IsUnary(r) ==> Plain(r.body) && LoopsRead(r.body) && (r.Star? || r.Plus? ==> !Nullable(r.body))
  {
  }

  /** The instructions of a group or an optional regex around those of its body. */
  lemma AroundBody(P: Program, r: Regex, lo: nat)
    requires (r.Paren? || r.Quest?) && CodeAt(P, r, lo)
    ensures CodeAt(P, r.body, lo + 1) && lo < lo + ProgramLen(r) <= |P|
    ensures r.Paren? ==>
      P[lo] == Save(2 * r.group) && lo + 2 + ProgramLen(r.body) == lo + ProgramLen(r)
      && P[lo + 1 + ProgramLen(r.body)] == Save(2 * r.group + 1)
    ensures r.Quest? ==> P[lo] == Prefer(r.greedy, lo + 1, lo + ProgramLen(r)) && lo + 1 + ProgramLen(r.body) == lo + ProgramLen(r)
  {
  }

  /** A star, and a plus behind its first round, are loops. */
  lemma IsLoop(P: Program, r: Regex, lo: nat)
    requires (r.Star? || r.Plus?) && CodeAt(P, r, lo)
    ensures CodeAt(P, r.body, BodyAt(r, lo))
    ensures r.Star? ==> LoopAt(P, r.greedy, r.body, lo + 1, lo, lo + ProgramLen(r))
    ensures r.Plus? ==>
      lo + ProgramLen(r.body) + 1 == lo + ProgramLen(r)
      && LoopAt(P, r.greedy, r.body, lo, lo + ProgramLen(r.body), lo + ProgramLen(r))
  {
  }

  lemma AltPrefers(P: Program, rank: seq<nat>, r: Regex, lo: nat, s: seq<Byte>, i: nat, a: Captures)
    requires r.Alt? && Ranked(P, rank) && Plain(r) && LoopsRead(r) && CodeAt(P, r, lo) && i <= |s|
    ensures Found(P, s, lo, Way(i, a)) == FirstFrom(P, s, lo + ProgramLen(r), Ways(r, s, i, a))
    decreases r, 0, 0, 0, 0
  {
    hide *;
    PartsToo(r);
    CodeOfParts(P, r, lo);
    ChoiceCode(P, r, lo);
    WaysOfAlt(r.left, r.right, s, i, a);
    var mid, hi := lo + 1 + ProgramLen(r.left), lo + ProgramLen(r);
    var x, y := Ways(r.left, s, i, a), Ways(r.right, s, i, a);
    FoundStep(P, rank, s, lo, Way(i, a));
    CodePrefers(P, rank, r.left, lo + 1, s, i, a);
    CodePrefers(P, rank, r.right, mid + 1, s, i, a);
    InsideAny(x, i, s);
    InsideAny(y, i, s);
    forall w <- x ensures w.pos <= |s| && Found(P, s, mid, w) == Found(P, s, hi, w) {
      InsideIs(x, i, s, w);
      FoundStep(P, rank, s, mid, w);
    }
    FirstMoves(P, s, mid, hi, x);
    FirstConcat(P, s, hi, x, y);
  }

  lemma CatPrefers(P: Program, rank: seq<nat>, r: Regex, lo: nat, s: seq<Byte>, i: nat, a: Captures)
    requires r.Cat? && Ranked(P, rank) && Plain(r) && LoopsRead(r) && CodeAt(P, r, lo) && i <= |s|
    ensures Found(P, s, lo, Way(i, a)) == FirstFrom(P, s, lo + ProgramLen(r), Ways(r, s, i, a))
    decreases r, 0, 0, 0, 0
  {
    hide *;
    PartsToo(r);
    CodeOfParts(P, r, lo);
    WaysOfCat(r.left, r.right, s, i, a);
    CodePrefers(P, rank, r.left, lo, s, i, a);
    ThenPrefers(P, rank, r.right, lo + ProgramLen(r.left), s, i, Ways(r.left, s, i, a));
  }

  lemma {:induction false} ThenPrefers(P: Program, rank: seq<nat>, r: Regex, lo: nat, s: seq<Byte>, i: nat, ws: seq<Way>)
    requires Ranked(P, rank) && Plain(r) && LoopsRead(r) && CodeAt(P, r, lo) && i <= |s| && Inside(ws, i, s)
    ensures FirstFrom(P, s, lo, ws) == FirstFrom(P, s, lo + ProgramLen(r), Then(ws, r, s, i))
    decreases r, 1, 0, 0, |ws|
  {
    hide Found, Ranked, CodeAt, Ways;
    if ws != [] {
      ThenPrefers(P, rank, r, lo, s, i, ws[1..]);
      CodePrefers(P, rank, r, lo, s, ws[0].pos, ws[0].caps);
      FirstConcat(P, s, lo + ProgramLen(r), Ways(r, s, ws[0].pos, ws[0].caps), Then(ws[1..], r, s, i));
    }
  }

  lemma ParenPrefers(P: Program, rank: seq<nat>, r: Regex, lo: nat, s: seq<Byte>, i: nat, a: Captures)
    requires r.Paren? && Ranked(P, rank) && Plain(r) && LoopsRead(r) && CodeAt(P, r, lo) && i <= |s|
    ensures Found(P, s, lo, Way(i, a)) == FirstFrom(P, s, lo + ProgramLen(r), Ways(r, s, i, a))
    decreases r, 0, 0, 0, 0
  {
    hide *;
    PartsToo(r);
    UnaryIs(r);
    AroundBody(P, r, lo);
    var end, c := lo + 1 + ProgramLen(r.body), Put(a, 2 * r.group, i);
    WaysOfParen(r.group, r.body, s, i, a);
    FoundStep(P, rank, s, lo, Way(i, a));
    CodePrefers(P, rank, r.body, lo + 1, s, i, c);
    EndingPrefers(P, rank, r.group, end, s, i, Ways(r.body, s, i, c));
  }

  lemma {:induction false} EndingPrefers(P: Program, rank: seq<nat>, g: nat, pc: nat, s: seq<Byte>, i: nat, ws: seq<Way>)
    requires Ranked(P, rank) && pc < |P| && P[pc] == Save(2 * g + 1) && Inside(ws, i, s)
    ensures FirstFrom(P, s, pc, ws) == FirstFrom(P, s, pc + 1, Ending(ws, g, i, s))
  {
    hide Found, Ranked;
    if ws != [] {
      EndingPrefers(P, rank, g, pc, s, i, ws[1..]);
      FoundStep(P, rank, s, pc, ws[0]);
      var w := Way(ws[0].pos, Put(ws[0].caps, 2 * g + 1, ws[0].pos));
      FirstOne(P, s, pc + 1, w);
      FirstConcat(P, s, pc + 1, [w], Ending(ws[1..], g, i, s));
    }
  }

  lemma QuestPrefers(P: Program, rank: seq<nat>, r: Regex, lo: nat, s: seq<Byte>, i: nat, a: Captures)
    requires r.Quest? && Ranked(P, rank) && Plain(r) && LoopsRead(r) && CodeAt(P, r, lo) && i <= |s|
    ensures Found(P, s, lo, Way(i, a)) == FirstFrom(P, s, lo + ProgramLen(r), Ways(r, s, i, a))
    decreases r, 0, 0, 0, 0
  {
    hide *;
    PartsToo(r);
    UnaryIs(r);
    AroundBody(P, r, lo);
    WaysOfQuest(r.greedy, r.body, s, i, a);
    FoundStep(P, rank, s, lo, Way(i, a));
    CodePrefers(P, rank, r.body, lo + 1, s, i, a);
    PreferIs(r.greedy, lo + 1, lo + ProgramLen(r));
    InsideAny(Ways(r.body, s, i, a), i, s);
    FirstInTurn(P, s, lo + ProgramLen(r), r.greedy, Ways(r.body, s, i, a), Way(i, a));
  }

  lemma PreferIs(greedy: bool, first: nat, second: nat)
    ensures Prefer(greedy, first, second) == if greedy then Split(first, second) else Split(second, first)
  {
  }

  lemma InsideIs(ws: seq<Way>, i: nat, s: seq<Byte>, w: Way)
    requires Inside(ws, i, s) && w in ws
    ensures i <= w.pos <= |s|
  {
  }

  lemma InsideAny(ws: seq<Way>, i: nat, s: seq<Byte>)
    requires Inside(ws, i, s)
    ensures Inside(ws, 0, s)
  {
  }

  /** A loop: the split at `head`, a body whose code leads from `at` back to it, and `hi` behind. */
  ghost predicate LoopAt(P: Program, greedy: bool, b: Regex, at: nat, head: nat, hi: nat) {
    && head < |P| && P[head] == Prefer(greedy, at, hi) && CodeAt(P, b, at)
    && var end := at + ProgramLen(b); end == head || (end < |P| && P[end] == Jmp(head))
  }

  lemma {:induction false} LoopPrefers(P: Program, rank: seq<nat>, greedy: bool, b: Regex, at: nat, head: nat, hi: nat, s: seq<Byte>, i: nat, a: Captures)
    requires Ranked(P, rank) && Plain(b) && LoopsRead(b) && !Nullable(b) && LoopAt(P, greedy, b, at, head, hi) && i <= |s|
    ensures Found(P, s, head, Way(i, a)) == FirstFrom(P, s, hi, Loop(greedy, b, s, i, a))
    decreases b, 1, |s| - i, 1, 0
  {
    hide Found, Ranked, FirstFrom, InTurn, Rounds, CodeAt, Ways;
    var ws := Ways(b, s, i, a);
    FoundStep(P, rank, s, head, Way(i, a));
    CodePrefers(P, rank, b, at, s, i, a);
    ReadsOn(b, s, i, a);
    RoundsPrefer(P, rank, greedy, b, at, head, hi, s, i, i, ws);
    FirstInTurn(P, s, hi, greedy, Rounds(greedy, b, s, i, i, ws), Way(i, a));
  }

  lemma {:induction false} RoundsPrefer(P: Program, rank: seq<nat>, greedy: bool, b: Regex, at: nat, head: nat, hi: nat, s: seq<Byte>, i: nat, after: int, ws: seq<Way>)
    requires Ranked(P, rank) && Plain(b) && LoopsRead(b) && !Nullable(b) && LoopAt(P, greedy, b, at, head, hi) && i <= |s|
    requires -1 <= after <= |s| && Inside(ws, i, s) && forall w <- ws :: w.pos > after
    ensures FirstFrom(P, s, at + ProgramLen(b), ws) == FirstFrom(P, s, hi, Rounds(greedy, b, s, i, after, ws))
    decreases b, 1, |s| - after, 0, |ws|
  {
    hide Found, Ranked, CodeAt, Loop;
    if ws != [] {
      var w, end := ws[0], at + ProgramLen(b);
      if end != head {
        FoundStep(P, rank, s, end, w);
      }
      LoopPrefers(P, rank, greedy, b, at, head, hi, s, w.pos, w.caps);
      RoundsPrefer(P, rank, greedy, b, at, head, hi, s, i, after, ws[1..]);
      FirstConcat(P, s, hi, Loop(greedy, b, s, w.pos, w.caps), Rounds(greedy, b, s, i, after, ws[1..]));
    }
  }

  // ---------- the whole pattern ----------

  /** The preferred way of regex k from position i, its bounds in group 0. */
  function PieceWays(trees: seq<Regex>, caps: seq<nat>, k: nat, s: seq<Byte>, i: nat, a: Captures): seq<Way>
    requires k < |trees| == |caps| && i <= |s|
  {
    Ways(Paren(Base(caps, k), trees[k]), s, i, a)
  }

  /** The first of the first t regexes that matches from position i, by its preferred way. */
  function PreferredAt(trees: seq<Regex>, caps: seq<nat>, t: nat, s: seq<Byte>, i: nat, a: Captures): Option<Hit>
    requires t <= |trees| == |caps| && i <= |s|
  {
    if t == 0 then None
    else
      var ws := PieceWays(trees, caps, t - 1, s, i, a);
      OrElse(PreferredAt(trees, caps, t - 1, s, i, a), if ws == [] then None else Some(Hit(ws[0].caps, t - 1)))
  }

  /** The same from the first position at or behind i where one matches. */
  function Preferred(trees: seq<Regex>, caps: seq<nat>, s: seq<Byte>, i: nat, a: Captures): Option<Hit>
    requires |trees| == |caps| && i <= |s|
    decreases |s| - i
  {
    OrElse(PreferredAt(trees, caps, |trees|, s, i, a), if i < |s| then Preferred(trees, caps, s, i + 1, a) else None)
  }

  lemma PiecePrefers(P: Program, rank: seq<nat>, trees: seq<Regex>, caps: seq<nat>, k: nat, lo: nat, s: seq<Byte>, i: nat, a: Captures)
    requires k < |trees| == |caps| && Plain(trees[k]) && LoopsRead(trees[k]) && CodeAt(P, Piece(trees, caps, k), lo)
    requires Ranked(P, rank) && i <= |s|
    ensures var ws := PieceWays(trees, caps, k, s, i, a);
      Found(P, s, lo, Way(i, a)) == if ws == [] then None else Some(Hit(ws[0].caps, k))
  {
    hide Found, Ranked, CodeAt, Ways;
    var body := Paren(Base(caps, k), trees[k]);
    Patterns.PieceCode(P, trees, caps, k, lo);
    CodePrefers(P, rank, body, lo, s, i, a);
    var ws := PieceWays(trees, caps, k, s, i, a);
    if ws != [] {
      FoundStep(P, rank, s, lo + ProgramLen(body), ws[0]);
    }
  }

  lemma {:induction false} AlternativesPrefer(P: Program, rank: seq<nat>, trees: seq<Regex>, caps: seq<nat>, t: nat, lo: nat, s: seq<Byte>, i: nat, a: Captures)
    requires 0 < t <= |trees| == |caps| && (forall t <- trees :: Plain(t) && LoopsRead(t))
    requires CodeAt(P, Alternatives(trees, caps, t), lo) && Ranked(P, rank) && i <= |s|
    ensures Found(P, s, lo, Way(i, a)) == PreferredAt(trees, caps, t, s, i, a)
    decreases t
  {
    hide Found, Ranked, CodeAt, Alternatives, PieceWays, LoopsRead, Plain;
    AlternativesCode(P, trees, caps, t, lo);
    if t == 1 {
      PiecePrefers(P, rank, trees, caps, 0, lo, s, i, a);
      assert PreferredAt(trees, caps, 0, s, i, a) == None;
    } else {
      var mid := lo + 1 + ProgramLen(Alternatives(trees, caps, t - 1));
      FoundStep(P, rank, s, lo, Way(i, a));
      AlternativesPrefer(P, rank, trees, caps, t - 1, lo + 1, s, i, a);
      PiecePrefers(P, rank, trees, caps, t - 1, mid + 1, s, i, a);
    }
  }

  lemma {:induction false} SearchPrefers(P: Program, rank: seq<nat>, trees: seq<Regex>, caps: seq<nat>, s: seq<Byte>, i: nat, a: Captures)
    requires IsCompiled(P, trees, caps) && (forall t <- trees :: LoopsRead(t)) && Ranked(P, rank) && i <= |s|
    ensures Found(P, s, 0, Way(i, a)) == Preferred(trees, caps, s, i, a)
    decreases |s| - i
  {
    hide Found, Ranked, PreferredAt, CodeAt, Alternatives, LoopsRead, Plain;
    PrefixCode(P, trees, caps);
    FoundStep(P, rank, s, 0, Way(i, a));
    FoundStep(P, rank, s, 1, Way(i, a));
    AlternativesPrefer(P, rank, trees, caps, |trees|, 3, s, i, a);
    if i < |s| {
      FoundStep(P, rank, s, 2, Way(i + 1, a));
      SearchPrefers(P, rank, trees, caps, s, i + 1, a);
    }
  }

  /** For a pattern whose loops read, the Pike machine reports, from the leftmost position where some
      regex matches, the first such regex, matched in the way its syntax tree prefers to all others. */
  lemma PikePrefers(P: Program, trees: seq<Regex>, caps: seq<nat>, s: seq<Byte>, slots: nat)
    requires IsCompiled(P, trees, caps) && forall t <- trees :: LoopsRead(t)
    ensures Run(P, s, slots) == Preferred(trees, caps, s, 0, Unset(slots))
  {
    hide Ranked, IsCompiled, Run, Preferred, LoopsRead;
    RankedIffLoopsRead(P, trees, caps);
    var rank :| Ranked(P, rank);
    RunIsBacktrack(P, s, slots);
    SearchPrefers(P, rank, trees, caps, s, 0, Unset(slots));
  }

  // ---------- greedy and lazy ----------

  /** A greedy loop stops last of all, a lazy one at once. */
  lemma LoopEnds(b: Regex, s: seq<Byte>, i: nat, a: Captures)
    requires i <= |s|
    ensures var ws := Ways(Star(true, b), s, i, a); |ws| > 0 && ws[|ws| - 1] == Way(i, a)
    ensures var ws := Ways(Star(false, b), s, i, a); |ws| > 0 && ws[0] == Way(i, a)
  {
  }

  /** A regex that takes one byte. */
  predicate TakesOne(b: Regex) { b.Lit? || b.Dot? || b.Class? || b.NClass? }

  /** How far bytes that `b` takes go on from i. */
  function RunEnd(b: Regex, s: seq<Byte>, i: nat): (j: nat)
    requires TakesOne(b) && i <= |s|
    ensures i <= j <= |s|
    decreases |s| - i
  {
    if i < |s| && Ways(b, s, i, []) != [] then RunEnd(b, s, i + 1) else i
  }

  lemma OneWay(b: Regex, s: seq<Byte>, i: nat, a: Captures)
    requires TakesOne(b) && i <= |s|
    ensures Ways(b, s, i, a) == if i < RunEnd(b, s, i) then [Way(i + 1, a)] else []
  {
  }

  lemma RoundsOfOne(greedy: bool, b: Regex, s: seq<Byte>, i: nat, after: int, w: Way)
    requires -1 <= after <= |s| && i <= w.pos <= |s| && w.pos > after
    ensures Inside([w], i, s) && Rounds(greedy, b, s, i, after, [w]) == Loop(greedy, b, s, w.pos, w.caps)
  {
    var none: seq<Way> := [];
    assert [w][1..] == none && Inside(none, i, s);
    assert Rounds(greedy, b, s, i, after, none) == [];
  }

  lemma LoopWaysAre(greedy: bool, b: Regex, s: seq<Byte>, i: nat, a: Captures)
    requires i <= |s|
    ensures Ways(Star(greedy, b), s, i, a) == Loop(greedy, b, s, i, a)
    ensures Ways(Plus(greedy, b), s, i, a) == Rounds(greedy, b, s, i, -1, Ways(b, s, i, a))
  {
    hide InTurn, InRanges;
  }

  lemma OneRound(greedy: bool, b: Regex, s: seq<Byte>, i: nat, a: Captures)
    requires TakesOne(b) && i <= |s| && i < RunEnd(b, s, i)
    ensures Ways(Star(greedy, b), s, i, a) == InTurn(greedy, Ways(Star(greedy, b), s, i + 1, a), [Way(i, a)])
    ensures Ways(Plus(greedy, b), s, i, a) == Ways(Star(greedy, b), s, i + 1, a)
  {
    hide Rounds, InTurn, Ways;
    OneWay(b, s, i, a);
    LoopWaysAre(greedy, b, s, i, a);
    LoopWaysAre(greedy, b, s, i + 1, a);
    RoundsOfOne(greedy, b, s, i, i, Way(i + 1, a));
    RoundsOfOne(greedy, b, s, i, -1, Way(i + 1, a));
  }

  /** Repeating one byte greedily takes the whole run of them, lazily as few as it may. */
  lemma {:induction false} GreedyTakesAll(b: Regex, s: seq<Byte>, i: nat, a: Captures)
    requires TakesOne(b) && i <= |s|
    ensures var ws := Ways(Star(true, b), s, i, a); |ws| > 0 && ws[0] == Way(RunEnd(b, s, i), a)
    ensures i < RunEnd(b, s, i) ==>
      var ws, ws' := Ways(Plus(true, b), s, i, a), Ways(Plus(false, b), s, i, a);
      |ws| > 0 && |ws'| > 0 && ws[0] == Way(RunEnd(b, s, i), a) && ws'[0] == Way(i + 1, a)
    decreases |s| - i
  {
    hide Ways;
    if i < RunEnd(b, s, i) {
      GreedyTakesAll(b, s, i + 1, a);
      LoopEnds(b, s, i + 1, a);
      OneRound(true, b, s, i, a);
      OneRound(false, b, s, i, a);
    } else {
      NoRound(b, s, i, a);
    }
  }

  lemma NoRound(b: Regex, s: seq<Byte>, i: nat, a: Captures)
    requires TakesOne(b) && i <= |s| && RunEnd(b, s, i) == i
    ensures Ways(Star(true, b), s, i, a) == [Way(i, a)]
  {
    hide Ways;
    OneWay(b, s, i, a);
    LoopWaysAre(true, b, s, i, a);
    var none: seq<Way> := [];
    assert Inside(none, i, s) && Rounds(true, b, s, i, i, none) == [];
  }
}
