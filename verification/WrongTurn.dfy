/** An input on which the first-byte shortcut, as coded, shortens a match. */
module WrongTurn {
  import opened Options
  import opened Regexes
  import opened Bytecode
  import opened Compiler
  import opened Patterns
  import opened Backtracking
  import opened PikeSpec
  import opened LeadingBytes
  import opened Skipping
  import opened ShortcutResult

  /** The code of .*?(a+b?) with its one leading instruction, and the input xab. */
  const A: Byte := 97
  const B: Byte := 98
  const TREE := Cat(Plus(true, Lit(A)), Quest(true, Lit(B)))
  const CODE: Program := [Split(3, 1), Any, Jmp(0), Save(0), Char(A), Split(4, 6), Split(7, 8), Char(B), Save(1), Match(0)]
  const INPUT: seq<Byte> := [120, A, B]

  lemma TreeCode()
    ensures ProgramLen(TREE) == 4 && CodeAt(CODE, TREE, 4) && Plain(TREE)
  {
    var a, b := Lit(A), Lit(B);
    var plus, quest := Plus(true, a), Quest(true, b);
    assert ProgramLen(a) == 1 && ProgramLen(b) == 1;
    assert ProgramLen(plus) == 2 && ProgramLen(quest) == 2;
    assert CodeAt(CODE, a, 4) && CodeAt(CODE, b, 7);
    assert CODE[5] == Prefer(true, 4, 6) && CodeAt(CODE, plus, 4);
    assert CODE[6] == Prefer(true, 7, 8) && CodeAt(CODE, quest, 6);
  }

  lemma TopCode()
    requires CodeAt(CODE, TREE, 4) && ProgramLen(TREE) == 4
    ensures var top := Toplevel(0, Paren(0, TREE)); ProgramLen(top) == 7 && CodeAt(CODE, top, 3)
  {
    assert ProgramLen(Paren(0, TREE)) == 6 && CodeAt(CODE, Paren(0, TREE), 3);
  }

  lemma DotsCode()
    ensures var dots := Star(false, Dot); ProgramLen(dots) == 3 && CodeAt(CODE, dots, 0)
  {
    assert ProgramLen(Dot) == 1 && CodeAt(CODE, Dot, 1);
  }

  lemma PatternCode()
    ensures IsCompiled(CODE, [TREE], [0])
  {
    TreeCode();
    TopCode();
    DotsCode();
    var paren, dots := Paren(0, TREE), Star(false, Dot);
    var top := Toplevel(0, paren);
    assert Base([0], 0) == 0 && Alternatives([TREE], [0], 1) == top;
    assert Wrapped([TREE], [0]) == Cat(dots, top);
    assert ProgramLen(Cat(dots, top)) == 10 && CodeAt(CODE, Cat(dots, top), 0);
  }

  lemma TreeIsCompiled()
    ensures Setting(CODE, [TREE], [0]) && Base([0], 1) == 1
    ensures Covers(CODE, [4], {0, 3, 4}) && SkipsFirst(CODE)
  {
    hide CodeAt, ProgramLen;
    PatternCode();
    assert Base([0], 0) == 0;
    forall c: Byte | Eats(CODE[4], c)
      ensures Leads(CODE, [4], c)
    {
      assert [4][0] == 4;
    }
  }

  lemma LeadsOnlyA(c: Byte)
    ensures Leads(CODE, [4], c) <==> c == A
  {
    assert [4][0] == 4;
  }

  /** The list a run starts with, anywhere. */
  lemma StartsHere(s: seq<Byte>, pos: int)
    requires 0 <= pos <= |s|
    ensures StartThreads(CODE, s, 2, pos) == [Thread(4, [pos, -1]), Thread(1, [-1, -1])]
  {
    var c := Unset(2);
    var d := Put(c, 0, pos);
    assert c == [-1, -1] && d == [pos, -1];
    AddBoth(CODE, s, pos, {}, 0, c, false);
    AddNext(CODE, s, pos, {0}, 3, c, false, 4, d);
    AddEnd(CODE, s, pos, {0, 3}, 4, d, false);
    AddEnd(CODE, s, pos, {0, 3, 4}, 1, c, false);
    assert {} + {0} == {0} && {0} + {3} == {0, 3} && {0, 3} + {4} == {0, 3, 4};
  }

  /** Reading an a: both loops of the pattern stay open, and there is a match. */
  lemma ReadsA(s: seq<Byte>, pos: int)
    requires 0 <= pos < |s| && s[pos] == A
    ensures var step := StepThreads(CODE, s, pos, StartThreads(CODE, s, 2, pos), {});
            step.next == [Thread(4, [pos, -1]), Thread(7, [pos, -1])] && step.hit == Some(Hit([pos, pos + 1], 0))
  {
    StartsHere(s, pos);
    var c, end := [pos, -1], pos + 1;
    assert Put(c, 1, end) == [pos, end];
    AddEnd(CODE, s, end, {5}, 4, c, true);
    AddEnd(CODE, s, end, {5, 4, 6}, 7, c, true);
    AddEnd(CODE, s, end, {5, 4, 6, 7, 8}, 9, [pos, end], true);
    AddNext(CODE, s, end, {5, 4, 6, 7}, 8, c, true, 9, [pos, end]);
    AddBoth(CODE, s, end, {5, 4}, 6, c, true);
    AddBoth(CODE, s, end, {}, 5, c, true);
    assert {} + {5} == {5} && {5} + {4} == {5, 4} && {5, 4} + {6} == {5, 4, 6} && {5, 4, 6} + {7} == {5, 4, 6, 7};
    assert {5, 4, 6, 7} + {8} == {5, 4, 6, 7, 8};
    assert [Thread(4, c)] + [Thread(7, c)] == [Thread(4, c), Thread(7, c)];
  }

  /** Reading the b: the longer match. */
  lemma ReadsB()
    ensures var step := StepThreads(CODE, INPUT, 2, [Thread(4, [1, -1]), Thread(7, [1, -1])], {});
            step.next == [] && step.hit == Some(Hit([1, 3], 0))
  {
    var c := [1, -1];
    var l := [Thread(4, c), Thread(7, c)];
    assert Put(c, 1, 3) == [1, 3] && l[1..] == [Thread(7, c)];
    AddNext(CODE, INPUT, 3, {}, 8, c, true, 9, [1, 3]);
    AddEnd(CODE, INPUT, 3, {8}, 9, [1, 3], true);
    assert {} + {8} == {8};
  }

  /** On xab the pattern a+b? matches ab, and so does a run without the shortcut; with the
      shortcut, as coded, the run reports a. */
  lemma ShortcutLosesAMatch()
    ensures Run(CODE, INPUT, 2) == Some(Hit([1, 3], 0))
    ensures SkippingRun(CODE, INPUT, 2, [4]) == Some(Hit([1, 2], 0))
    ensures TurnsWrong(CODE, INPUT, 2, [4])
  {
    hide Add, StepThreads, StartThreads, GoesAstray, Covers, Setting, SkipsFirst;
    TreeIsCompiled();
    var first, second := StartThreads(CODE, INPUT, 2, 0), [Thread(4, [1, -1]), Thread(7, [1, -1])];
    StartsHere(INPUT, 0);
    StartsHere(INPUT, 1);
    ReadsA(INPUT, 1);
    ReadsB();
    LeadsOnlyA(120);
    LeadsOnlyA(A);
    LeadsOnlyA(B);
    assert FirstByte(CODE, [4], INPUT, 1) == 1 && FirstByte(CODE, [4], INPUT, 0) == 1;
    assert FirstByte(CODE, [4], INPUT, 3) == 3 && FirstByte(CODE, [4], INPUT, 2) == 3;
    StartCovered(CODE, INPUT, 2, [4], {0, 3, 4}, 0);
    StartSearches(CODE, INPUT, 2, 0);
    SkipTo(CODE, INPUT, 2, [4], {0, 3, 4}, 0, first, None);
    RunFromStep(CODE, INPUT, 1, StartThreads(CODE, INPUT, 2, 1), None);
    RunFromStep(CODE, INPUT, 2, second, Some(Hit([1, 2], 0)));
    assert InitialStates(first) == [4];
    SkippingRound(CODE, INPUT, 2, [4], [4], 0, first, true, None, 1, StartThreads(CODE, INPUT, 2, 1), true);
    SkippingRound(CODE, INPUT, 2, [4], [4], 2, second, true, Some(Hit([1, 2], 0)), 3, StartThreads(CODE, INPUT, 2, 3), true);
    ShortcutIsExact(CODE, [TREE], [0], INPUT, [4], {0, 3, 4});
  }

  const LONGER: seq<Byte> := [120, A, B, A]

  /** On xaba it even reports the second a, although a match starts at the first. */
  lemma ShortcutMovesOn()
    ensures SearchStartsOver(CODE, LONGER, 2, [4]) && SkippingRun(CODE, LONGER, 2, [4]) == Some(Hit([3, 4], 0))
    ensures !LeftmostHit([TREE], [0], LONGER, SkippingRun(CODE, LONGER, 2, [4]))
  {
    hide Add, StepThreads, StartThreads, StartsOver, Covers, Setting, SkipsFirst, LeftmostHit, Best, CanMatch;
    TreeIsCompiled();
    var first, second := StartThreads(CODE, LONGER, 2, 0), [Thread(4, [1, -1]), Thread(7, [1, -1])];
    StartsHere(LONGER, 0);
    StartsHere(LONGER, 3);
    ReadsA(LONGER, 1);
    ReadsA(LONGER, 3);
    LeadsOnlyA(120);
    LeadsOnlyA(A);
    LeadsOnlyA(B);
    assert FirstByte(CODE, [4], LONGER, 1) == 1 && FirstByte(CODE, [4], LONGER, 0) == 1;
    assert FirstByte(CODE, [4], LONGER, 3) == 3 && FirstByte(CODE, [4], LONGER, 2) == 3;
    assert InitialStates(first) == [4];
    StartStops(CODE, LONGER, 2, 3);
    NextBest(CODE, LONGER, 3, StartThreads(CODE, LONGER, 2, 3));
    StartBest(CODE, LONGER, 2, 3);
    OverRound(CODE, LONGER, 2, [4], [4], 0, first, true, None);
    OverRound(CODE, LONGER, 2, [4], [4], 2, second, true, Some(Hit([1, 2], 0)));
    SkippingRound(CODE, LONGER, 2, [4], [4], 0, first, true, None, 1, StartThreads(CODE, LONGER, 2, 1), true);
    SkippingRound(CODE, LONGER, 2, [4], [4], 2, second, true, Some(Hit([1, 2], 0)), 3, StartThreads(CODE, LONGER, 2, 3), true);
    var third := [Thread(4, [3, -1]), Thread(7, [3, -1])];
    NothingAtEnd(CODE, LONGER, third, {});
    SkippingRound(CODE, LONGER, 2, [4], [4], 4, third, true, Some(Hit([3, 4], 0)), 4, third, false);
    ResultIsLeftmost(CODE, [TREE], [0], LONGER, [4], {0, 3, 4});
  }
}
