/** Sentences put together from clauses are split into those clauses, and what the tests of the branching
    forms let through. */
module Phrases {
  import opened Kana
  import opened Agreement

  // ---------- clauses ----------

  /** A clause by itself: one word that stands alone, or the marker of a slot with its object, or a verb
      with objects. */
  predicate IsClause(c: seq<Expr>) {
    c != [] &&
    if StartsVerb(c[0]) then forall k :: 0 < k < |c| ==> c[k] != Lit(Mark(ClauseEnd))
    else if c[0] == Lit(Mark(GetSlot)) then |c| == 2
    else |c| == 1
  }

  /** A literal that is not the empty list and not the marker of a slot. */
  predicate StartsVerb(e: Expr) { e.Lit? && e.lit != Const(NIL) && e.lit != Mark(GetSlot) }

  /** A clause with a verb is closed by a semicolon. */
  function Closed(c: seq<Expr>): seq<Expr>
    requires c != []
  {
    if StartsVerb(c[0]) then c + [Lit(Mark(ClauseEnd))] else c
  }

  /** The words of some clauses in a row. */
  function Joined(clauses: seq<seq<Expr>>): seq<Expr>
    requires forall k :: 0 <= k < |clauses| ==> IsClause(clauses[k])
  {
    if clauses == [] then [] else assert IsClause(clauses[0]); Closed(clauses[0]) + Joined(clauses[1..])
  }

  lemma {:induction false} ObjectsTaken(objects: seq<Expr>, rest: seq<Expr>, clause: seq<Expr>, done: seq<seq<Expr>>)
    requires forall k :: 0 <= k < |objects| ==> objects[k] != Lit(Mark(ClauseEnd))
    ensures SplitFrom(objects + rest, NeedObjects, clause, done) == SplitFrom(rest, NeedObjects, clause + objects, done)
  {
    if objects == [] {
      assert objects + rest == rest && clause + objects == clause;
    } else {
      assert (objects + rest)[0] == objects[0] && (objects + rest)[1..] == objects[1..] + rest;
      ObjectsTaken(objects[1..], rest, clause + [objects[0]], done);
      assert clause + [objects[0]] + objects[1..] == clause + objects;
    }
  }

  /** The words of a clause with a verb, up to its semicolon. */
  lemma VerbTaken(c: seq<Expr>, rest: seq<Expr>, done: seq<seq<Expr>>)
    requires IsClause(c) && StartsVerb(c[0])
    ensures SplitFrom(c + rest, NeedVerb, [], done) == SplitFrom(rest, NeedObjects, c, done)
  {
    var objects := c[1..];
    assert (c + rest)[0] == c[0] && (c + rest)[1..] == objects + rest;
    assert SplitFrom(c + rest, NeedVerb, [], done) == SplitFrom(objects + rest, NeedObjects, [] + [c[0]], done);
    ObjectsTaken(objects, rest, [c[0]], done);
    assert [] + [c[0]] == [c[0]] && [c[0]] + objects == c;
  }

  /** A whole clause and what is left of the sentence. */
  lemma ClauseTaken(c: seq<Expr>, rest: seq<Expr>, done: seq<seq<Expr>>)
    requires IsClause(c)
    ensures SplitFrom(Closed(c) + rest, NeedVerb, [], done) == SplitFrom(rest, NeedVerb, [], done + [c])
  {
    if StartsVerb(c[0]) {
      var end := [Lit(Mark(ClauseEnd))];
      assert c + end + rest == c + (end + rest);
      VerbTaken(c, end + rest, done);
      assert (end + rest)[0] == end[0] && (end + rest)[1..] == rest;
    } else if c[0] == Lit(Mark(GetSlot)) {
      var words := c + rest;
      assert words[0] == c[0] && words[1..][0] == c[1] && words[1..][1..] == rest;
      assert c == [] + [c[0]] + [c[1]];
    } else {
      assert (c + rest)[0] == c[0] && (c + rest)[1..] == rest && c == [c[0]];
    }
  }

  lemma {:induction false} JoinedSplits(clauses: seq<seq<Expr>>, last: seq<Expr>, done: seq<seq<Expr>>)
    requires forall k :: 0 <= k < |clauses| ==> IsClause(clauses[k])
    ensures SplitFrom(Joined(clauses) + last, NeedVerb, [], done) == SplitFrom(last, NeedVerb, [], done + clauses)
    decreases |clauses|
  {
    if clauses == [] {
      assert Joined(clauses) + last == last && done + clauses == done;
    } else {
      var c, rest := clauses[0], clauses[1..];
      assert Joined(clauses) + last == Closed(c) + (Joined(rest) + last);
      ClauseTaken(c, Joined(rest) + last, done);
      JoinedSplits(rest, last, done + [c]);
      assert done + [c] + rest == done + clauses;
    }
  }

  /** Clauses put in a row are split into those clauses; the last one may do without its semicolon. */
  lemma SplitUndoesJoin(clauses: seq<seq<Expr>>, last: seq<Expr>)
    requires (forall k :: 0 <= k < |clauses| ==> IsClause(clauses[k])) && IsClause(last) && StartsVerb(last[0])
    ensures Split(Joined(clauses)) == clauses
    ensures Split(Joined(clauses) + last) == clauses + [last]
  {
    var none: seq<seq<Expr>> := [];
    JoinedSplits(clauses, [], none);
    assert Joined(clauses) + [] == Joined(clauses) && none + clauses == clauses;
    JoinedSplits(clauses, last, none);
    VerbTaken(last, [], clauses);
    assert last + [] == last;
  }

  // ---------- tests ----------

  /** The expression comes to the value `v`, with `job` to do next. */
  ghost predicate ComesTo(d: Natives, e: Expr, job: Job, env: nat, k: Kont, st: Store, v: Value, st1: Store) {
    Reaches(d, Eval(e, env, Frame(job, env, k), st), Run(v, Frame(job, env, k), st1))
  }

  /** The step to an expression, its evaluation, and the step from its value. */
  lemma Through(d: Natives, s: State, e: Expr, job: Job, env: nat, k: Kont, st: Store, v: Value, st1: Store)
    requires Step(d, s) == Eval(e, env, Frame(job, env, k), st) && ComesTo(d, e, job, env, k, st, v, st1)
    ensures Reaches(d, s, RunStep(v, Frame(job, env, k), st1))
  {
    hide Step, RunStep;
    var s1, s2 := Step(d, s), Run(v, Frame(job, env, k), st1);
    StepReaches(d, s);
    ReachesAll(d, s, s1, s2);
    StepReaches(d, s2);
    RunSteps(d, v, Frame(job, env, k), st1);
    ReachesAll(d, s, s2, Step(d, s2));
  }

  lemma RunSteps(d: Natives, v: Value, k: Kont, st: Store)
    ensures Step(d, Run(v, k, st)) == RunStep(v, k, st)
  {
  }

  const NO: Value := Plain(Const(FALSE))

  const YES: Value := Plain(Const(TRUE))

  /** `if` goes on with its second part exactly if the test gives the constant FALSE; any other value, the
      empty list and the undefined constants too, leads to the first part. */
  lemma IfChooses(d: Natives, test: Expr, yes: seq<Expr>, no: seq<Expr>, env: nat, k: Kont, st: Store, v: Value, st1: Store)
    requires ComesTo(d, test, AfterIf(yes, no), env, k, st, v, st1)
    ensures Reaches(d, Eval(If(test, yes, no), env, k, st),
      if v != NO then Body(yes, env, k, st1) else if no == [] then Run(NO, k, st1) else Body(no, env, k, st1))
  {
    Through(d, Eval(If(test, yes, no), env, k, st), test, AfterIf(yes, no), env, k, st, v, st1);
  }

  /** A clause of `cond` is chosen unless its test gives FALSE; `else` needs no test. */
  lemma CondChooses(d: Natives, test: Expr, action: seq<Expr>, other: seq<Expr>, env: nat, k: Kont, st: Store, v: Value, st1: Store)
    requires ComesTo(d, test, AfterCond(action, [Clause(true, Break, other)]), env, k, st, v, st1)
    ensures Reaches(d, Eval(Cond([Clause(false, test, action), Clause(true, Break, other)]), env, k, st),
      Body(if v != NO then action else other, env, k, st1))
  {
    var clauses := [Clause(false, test, action), Clause(true, Break, other)];
    assert clauses[1..] == [Clause(true, Break, other)];
    Through(d, Eval(Cond(clauses), env, k, st), test, AfterCond(action, clauses[1..]), env, k, st, v, st1);
  }

  /** `and` ends at the first test that gives FALSE or the empty list, `or` at the first that gives
      anything but FALSE; what they give is TRUE or FALSE. */
  lemma AndOrChoose(d: Natives, test: Expr, env: nat, k: Kont, st: Store, v: Value, st1: Store)
    ensures ComesTo(d, test, AfterAnd([]), env, k, st, v, st1) ==>
      Reaches(d, Eval(And([test]), env, k, st), Run(if v == NO || v == Plain(Const(NIL)) then NO else YES, k, st1))
    ensures ComesTo(d, test, AfterOr([]), env, k, st, v, st1) ==>
      Reaches(d, Eval(Or([test]), env, k, st), Run(if v == NO then NO else YES, k, st1))
  {
    assert [test][1..] == [];
    if ComesTo(d, test, AfterAnd([]), env, k, st, v, st1) {
      Through(d, Eval(And([test]), env, k, st), test, AfterAnd([]), env, k, st, v, st1);
    }
    if ComesTo(d, test, AfterOr([]), env, k, st, v, st1) {
      Through(d, Eval(Or([test]), env, k, st), test, AfterOr([]), env, k, st, v, st1);
    }
  }

  /** A loop goes round again unless its test gives FALSE. */
  lemma LoopChooses(d: Natives, u: Value, test: Expr, after: Expr, body: seq<Expr>, env: nat, k: Kont, st: Store, v: Value, st1: Store)
    requires ComesTo(d, test, AfterTest(test, after, body), env, k, st, v, st1)
    ensures Reaches(d, Run(u, Frame(BeforeTest(test, after, body), env, k), st),
      if v != NO then Body(body, env, Frame(AfterBody(test, after, body), env, k), st1) else Run(YES, k, st1))
  {
    Through(d, Run(u, Frame(BeforeTest(test, after, body), env, k), st), test, AfterTest(test, after, body), env, k, st, v, st1);
  }
}
