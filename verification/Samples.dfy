/** Small patterns whose result can be said outright: one repeated byte, and a byte at the start of a line. */
module Samples {
  import opened Options
  import opened Regexes
  import opened Bytecode
  import opened Patterns
  import opened Backtracking
  import opened PikeSpec
  import opened Preference

  /** `^` holds at the very start and right behind a line feed, byte 10, and nowhere else; `\A` at the
      very start alone. */
  lemma WhereAssertionsHold(s: seq<Byte>, i: nat, j: nat)
    requires i <= |s|
    ensures Matches(Assert(LineStart), s, i, j) <==> i == j && (i == 0 || s[i - 1] == 10)
    ensures Matches(Assert(BufferStart), s, i, j) <==> i == j == 0
  {
  }

  /** A capture vector of one group. */
  function Slots(from: int, to: int): Captures { [from, to] }

  /** The first position from i on where `b` takes a byte, or the end. */
  function FirstTaken(b: Regex, s: seq<Byte>, i: nat): (j: nat)
    requires TakesOne(b) && i <= |s|
    ensures i <= j <= |s|
    decreases |s| - i
  {
    if i == |s| || RunEnd(b, s, i) > i then i else FirstTaken(b, s, i + 1)
  }

  /** What `b+` or `b+?` finds: from the first byte that `b` takes, as many as follow or that one. */
  function PlusFinds(greedy: bool, b: Regex, s: seq<Byte>, i: nat): Option<Hit>
    requires TakesOne(b) && i <= |s|
  {
    var j := FirstTaken(b, s, i);
    if j == |s| then None else Some(Hit(Slots(j, if greedy then RunEnd(b, s, j) else j + 1), 0))
  }

  lemma WaysOfPlus(greedy: bool, b: Regex, s: seq<Byte>, i: nat, a: Captures)
    requires TakesOne(b) && i <= |s|
    ensures var ws := Ways(Plus(greedy, b), s, i, a);
      if i < RunEnd(b, s, i) then ws != [] && ws[0] == Way(if greedy then RunEnd(b, s, i) else i + 1, a) else ws == []
  {
    hide Ways;
    if i < RunEnd(b, s, i) {
      GreedyTakesAll(b, s, i, a);
    } else {
      OneWay(b, s, i, a);
      LoopWaysAre(greedy, b, s, i, a);
      var none: seq<Way> := [];
      assert Inside(none, i, s) && Rounds(greedy, b, s, i, -1, none) == [];
    }
  }

  lemma PlusAt(greedy: bool, b: Regex, s: seq<Byte>, i: nat)
    requires TakesOne(b) && i <= |s|
    ensures PreferredAt([Plus(greedy, b)], [0], 1, s, i, Slots(-1, -1)) ==
      if i < RunEnd(b, s, i) then Some(Hit(Slots(i, if greedy then RunEnd(b, s, i) else i + 1), 0)) else None
  {
    hide Ways;
    OnePiece(Plus(greedy, b), s, i);
    WaysOfPlus(greedy, b, s, i, Slots(i, -1));
    var end := if greedy then RunEnd(b, s, i) else i + 1;
    assert Put(Slots(i, -1), 1, end) == Slots(i, end);
  }

  /** A pattern of one regex without groups: $0 is where its preferred way starts and ends. */
  lemma OnePiece(r: Regex, s: seq<Byte>, i: nat)
    requires i <= |s|
    ensures var ws := Ways(r, s, i, Slots(i, -1));
      PreferredAt([r], [0], 1, s, i, Slots(-1, -1)) ==
        if ws == [] then None else Some(Hit(Put(ws[0].caps, 1, ws[0].pos), 0))
  {
    hide Ways, Ending;
    assert Base([0], 0) == 0 && PreferredAt([r], [0], 0, s, i, Slots(-1, -1)) == None;
    assert Put(Slots(-1, -1), 0, i) == Slots(i, -1);
    WaysOfParen(0, r, s, i, Slots(-1, -1));
    EndingFirst(Ways(r, s, i, Slots(i, -1)), 0, i, s);
  }

  lemma EndingFirst(ws: seq<Way>, g: nat, i: nat, s: seq<Byte>)
    requires Inside(ws, i, s)
    ensures var e := Ending(ws, g, i, s);
      if ws == [] then e == [] else e != [] && e[0] == Way(ws[0].pos, Put(ws[0].caps, 2 * g + 1, ws[0].pos))
  {
  }

  lemma {:induction false} PlusFrom(greedy: bool, b: Regex, s: seq<Byte>, i: nat)
    requires TakesOne(b) && i <= |s|
    ensures Preferred([Plus(greedy, b)], [0], s, i, Slots(-1, -1)) == PlusFinds(greedy, b, s, i)
    decreases |s| - i
  {
    hide PreferredAt, RunEnd;
    PlusAt(greedy, b, s, i);
    if i < |s| {
      PlusFrom(greedy, b, s, i + 1);
    }
  }

  /** The pattern `b+` ends with the whole first run of bytes that `b` takes, `b+?` with its first byte. */
  lemma PikeRunsPlus(P: Program, greedy: bool, b: Regex, s: seq<Byte>)
    requires TakesOne(b) && IsCompiled(P, [Plus(greedy, b)], [0])
    ensures Run(P, s, 2) == PlusFinds(greedy, b, s, 0)
  {
    hide IsCompiled, Preferred, PlusFinds, Run;
    assert Unset(2) == Slots(-1, -1);
    PikePrefers(P, [Plus(greedy, b)], [0], s, 2);
    PlusFrom(greedy, b, s, 0);
  }

  /** The first position from i on, or -1, that starts a line, behind byte 10 or at the very start, and
      holds byte c. */
  function LineWith(c: Byte, s: seq<Byte>, i: nat): int
    requires i <= |s|
    decreases |s| - i
  {
    if i == |s| then -1
    else if (i == 0 || s[i - 1] == 10) && s[i] == c then i
    else LineWith(c, s, i + 1)
  }

  function LineFinds(c: Byte, s: seq<Byte>, i: nat): Option<Hit>
    requires i <= |s|
  {
    var j := LineWith(c, s, i);
    if j < 0 then None else Some(Hit(Slots(j, j + 1), 0))
  }

  lemma LineAt(c: Byte, s: seq<Byte>, i: nat)
    requires i <= |s|
    ensures PreferredAt([Cat(Assert(LineStart), Lit(c))], [0], 1, s, i, Slots(-1, -1)) ==
      if i < |s| && (i == 0 || s[i - 1] == 10) && s[i] == c then Some(Hit(Slots(i, i + 1), 0)) else None
  {
    hide PreferredAt;
    var r := Cat(Assert(LineStart), Lit(c));
    OnePiece(r, s, i);
    assert Put(Slots(i, -1), 1, i + 1) == Slots(i, i + 1);
    WaysOfCat(Assert(LineStart), Lit(c), s, i, Slots(i, -1));
    var here, none: seq<Way> := Ways(Assert(LineStart), s, i, Slots(i, -1)), [];
    assert here == if i == 0 || s[i - 1] == 10 then [Way(i, Slots(i, -1))] else [];
    assert here != [] ==> here[1..] == none;
    assert Inside(none, i, s) && Then(none, Lit(c), s, i) == [];
  }

  lemma {:induction false} LineFrom(c: Byte, s: seq<Byte>, i: nat)
    requires i <= |s|
    ensures Preferred([Cat(Assert(LineStart), Lit(c))], [0], s, i, Slots(-1, -1)) == LineFinds(c, s, i)
    decreases |s| - i
  {
    hide PreferredAt;
    LineAt(c, s, i);
    if i < |s| {
      LineFrom(c, s, i + 1);
    }
  }

  /** The pattern `^c` ends with the first c that starts a line. */
  lemma PikeRunsLine(P: Program, c: Byte, s: seq<Byte>)
    requires IsCompiled(P, [Cat(Assert(LineStart), Lit(c))], [0])
    ensures Run(P, s, 2) == LineFinds(c, s, 0)
  {
    hide IsCompiled, Preferred, LineFinds, Run;
    assert Unset(2) == Slots(-1, -1);
    PikePrefers(P, [Cat(Assert(LineStart), Lit(c))], [0], s, 2);
    LineFrom(c, s, 0);
  }

  /** `a+?` and `a+` on aaa, and `^b` on a, line feed, b. */
  lemma ThreeSearches(lazy: Program, greedy: Program, line: Program)
    requires IsCompiled(lazy, [Plus(false, Lit(97))], [0]) && IsCompiled(greedy, [Plus(true, Lit(97))], [0])
    requires IsCompiled(line, [Cat(Assert(LineStart), Lit(98))], [0])
    ensures Run(lazy, [97, 97, 97], 2) == Some(Hit([0, 1], 0))
    ensures Run(greedy, [97, 97, 97], 2) == Some(Hit([0, 3], 0))
    ensures Run(line, [97, 10, 98], 2) == Some(Hit([2, 3], 0))
  {
    hide IsCompiled, Run, Ways;
    var s: seq<Byte> := [97, 97, 97];
    PikeRunsPlus(lazy, false, Lit(97), s);
    PikeRunsPlus(greedy, true, Lit(97), s);
    TakesA(s, 0);
    TakesA(s, 1);
    TakesA(s, 2);
    PikeRunsLine(line, 98, [97, 10, 98]);
  }

  lemma TakesA(s: seq<Byte>, i: nat)
    requires i < |s| && s[i] == 97
    ensures RunEnd(Lit(97), s, i) == RunEnd(Lit(97), s, i + 1)
  {
  }
}
