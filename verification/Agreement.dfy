/** The trampoline computes what the direct-style evaluator says, and nothing else. */
module Agreement {
  import opened Options
  import opened Lists
  import opened Kana
  import opened Direct

  // ---------- runs of the machine ----------

  function Steps(d: Natives, n: nat, s: State): State {
    if n == 0 then s else Steps(d, n - 1, Step(d, s))
  }

  predicate Over(s: State) { s.Landed? || s.Stuck? }

  predicate Halts(d: Natives, n: nat, s: State) { Over(Steps(d, n, s)) }

  ghost predicate Reaches(d: Natives, s: State, s': State) { exists n: nat :: Steps(d, n, s) == s' }

  lemma {:induction false} StepsJoin(d: Natives, n: nat, m: nat, s: State)
    ensures Steps(d, n + m, s) == Steps(d, m, Steps(d, n, s))
  {
    if n > 0 {
      StepsJoin(d, n - 1, m, Step(d, s));
    }
  }

  lemma {:induction false} OverStays(d: Natives, n: nat, s: State)
    requires Over(s)
    ensures Steps(d, n, s) == s
  {
    if n > 0 {
      OverStays(d, n - 1, s);
    }
  }

  lemma ReachesAll(d: Natives, s: State, s1: State, s2: State)
    requires Reaches(d, s, s1) && Reaches(d, s1, s2)
    ensures Reaches(d, s, s2)
  {
    var n: nat :| Steps(d, n, s) == s1;
    var m: nat :| Steps(d, m, s1) == s2;
    StepsJoin(d, n, m, s);
  }

  lemma StepReaches(d: Natives, s: State)
    ensures Reaches(d, s, s) && Reaches(d, s, Step(d, s))
  {
    assert Steps(d, 0, s) == s;
    assert Steps(d, 1, s) == Steps(d, 0, Step(d, s)) == Step(d, s);
  }

  /** A machine that halts in n steps does so in as many from anywhere it gets to, and in one less
      if that is one step further. */
  lemma StillHalts(d: Natives, n: nat, s: State, s1: State)
    requires Halts(d, n, s) && Reaches(d, s, s1)
    ensures Halts(d, n, s1)
    ensures !Over(s1) ==> n > 0 && Halts(d, n - 1, Step(d, s1))
  {
    var m: nat :| Steps(d, m, s) == s1;
    StepsJoin(d, m, n, s);
    StepsJoin(d, n, m, s);
    OverStays(d, m, Steps(d, n, s));
  }

  // ---------- where the machine stands ----------

  /** The machine about to do `t`. */
  function At(t: Task, env: nat, k: Kont, st: Store): State {
    match t
    case Expression(e) => Eval(e, env, k, st)
    case InOrder(l) => Body(l, env, k, st)
    case Clauses(subj, clauses) =>
      if clauses == [] then Run(subj, k, st) else Verb(subj, clauses[0], env, Frame(ClauseList(subj, clauses[1..]), env, k), st)
    case Arguments(subj, rest, done) =>
      if rest == [] then Applying(subj, done, env, k, st) else Eval(rest[0], env, Frame(Args(subj, rest[1..], Reverse(done)), env, k), st)
    case Application(subj, args) => Applying(subj, args, env, k, st)
    case FirstTrue(cases) =>
      if cases == [] then Run(Plain(Const(FALSE)), k, st)
      else if cases[0].isElse then Body(cases[0].action, env, k, st)
      else Eval(cases[0].test, env, Frame(AfterCond(cases[0].action, cases[1..]), env, k), st)
    case AllOf(tests) =>
      if tests == [] then Run(Plain(Const(TRUE)), k, st) else Eval(tests[0], env, Frame(AfterAnd(tests[1..]), env, k), st)
    case AnyOf(tests) =>
      if tests == [] then Run(Plain(Const(FALSE)), k, st) else Eval(tests[0], env, Frame(AfterOr(tests[1..]), env, k), st)
    case Loop(test, after, body) => Eval(test, env, Frame(AfterTest(test, after, body), env, k), st)
    case Round(test, after, body) => Body(body, env, Frame(AfterBody(test, after, body), env, k), st)
    case Advance(test, after, body) => Eval(after, env, Frame(BeforeTest(test, after, body), env, k), st)
  }

  /** The machine that has come to the answer `a` of something whose continuation is `k`. */
  function Answered(a: Answer, k: Kont): State {
    match a
    case Gives(v, st) => Run(v, k, st)
    case Jumps(to, v, st) => Run(v, to, st)
    case Fails => Stuck
    case Unfinished => Stuck
  }

  ghost predicate Agrees(d: Natives, s: State, a: Answer, k: Kont) {
    a.Unfinished? || Reaches(d, s, Answered(a, k))
  }

  ghost predicate SoundFor(d: Natives, fuel: nat, t: Task, env: nat, k: Kont, st: Store) {
    Agrees(d, At(t, env, k, st), Evaluate(d, fuel, t, env, k, st), k)
  }

  ghost predicate Sound(d: Natives, fuel: nat) {
    forall t, env: nat, k, st :: SoundFor(d, fuel, t, env, k, st)
  }

  // ---------- putting answers together ----------

  lemma Now(d: Natives, s: State, a: Answer, k: Kont)
    requires Answered(a, k) == s || Answered(a, k) == Step(d, s)
    ensures Agrees(d, s, a, k)
  {
    StepReaches(d, s);
  }

  lemma Later(d: Natives, s: State, a: Answer, k: Kont)
    requires Agrees(d, Step(d, s), a, k)
    ensures Agrees(d, s, a, k)
  {
    StepReaches(d, s);
    if !a.Unfinished? {
      ReachesAll(d, s, Step(d, s), Answered(a, k));
    }
  }

  /** First `a`, under the frame `k1`, then `b`. */
  lemma Then(d: Natives, s: State, a: Answer, k1: Kont, b: Answer, k: Kont)
    requires Agrees(d, s, a, k1)
    requires a.Gives? ==> Agrees(d, Step(d, Run(a.v, k1, a.st)), b, k)
    ensures Agrees(d, s, if a.Gives? then b else a, k)
  {
    if a.Gives? && !b.Unfinished? {
      Later(d, Run(a.v, k1, a.st), b, k);
      ReachesAll(d, s, Run(a.v, k1, a.st), Answered(b, k));
    }
  }

  lemma Caught(d: Natives, s: State, a: Answer, k: Kont)
    requires Agrees(d, s, a, k)
    ensures Agrees(d, s, Catch(a, k), k)
  {
  }

  /** The accumulator of a clause's arguments is reversed, and is reversed back. */
  lemma SourceOrder<T>(done: seq<T>, v: T)
    ensures [v] + Reverse(done) == Reverse(done + [v])
    ensures Reverse([v] + Reverse(done)) == done + [v]
  {
    ReverseAppend(done, v);
    ReverseReverse(done + [v]);
  }

  // ---------- soundness ----------

  lemma CallSound(d: Natives, n: nat, proc: Value, args: seq<Value>, env: nat, k: Kont, st: Store)
    requires proc.Proc? && Sound(d, n)
    ensures Agrees(d, CallStep(proc, args, env, k, st), EvaluateCall(d, n, proc, args, env, k, st), k)
  {
    match Enter(proc, args, env, k, st)
    case None => Now(d, Stuck, Fails, k);
    case Some(st1) => assert SoundFor(d, n, InOrder(proc.body), |st|, k, st1);
  }

  lemma ForSound(d: Natives, n: nat, e: Expr, env: nat, k: Kont, st: Store)
    requires e.For? && Sound(d, n)
    ensures Agrees(d, Eval(e, env, k, st), EvaluateExpr(d, n, e, env, k, st), k)
  {
    hide Agrees, Reaches, EnvLookup, EnvDefine, Split, Reverse, Enter, Steps;
    var s, test, after, body := Eval(e, env, k, st), e.test, e.after, e.body;
    var st1 := st + [Env(map["break" := Cont(k), "continue" := Cont(Frame(AfterBody(test, after, body), |st|, k))], env)];
    var k1 := Frame(BeforeTest(test, after, body), |st|, k);
    assert SoundFor(d, n, Expression(e.init), |st|, k1, st1);
    var a1 := Evaluate(d, n, Expression(e.init), |st|, k1, st1);
    var a2 := if a1.Gives? then Evaluate(d, n, Loop(test, after, body), |st|, k, a1.st) else a1;
    if a1.Gives? {
      assert SoundFor(d, n, Loop(test, after, body), |st|, k, a1.st);
    }
    Then(d, Step(d, s), a1, k1, a2, k);
    Later(d, s, a2, k);
    Caught(d, s, a2, k);
  }

  lemma ExprSound(d: Natives, n: nat, e: Expr, env: nat, k: Kont, st: Store)
    requires Sound(d, n)
    ensures Agrees(d, Eval(e, env, k, st), EvaluateExpr(d, n, e, env, k, st), k)
  {
    hide Agrees, Reaches, EnvLookup, EnvDefine, Split, Reverse, Enter, Steps;
    var s, a := Eval(e, env, k, st), EvaluateExpr(d, n, e, env, k, st);
    match e
    case Lit(_) => Now(d, s, a, k);
    case Ref(name) => Now(d, s, a, k);
    case Call(words) =>
      if words == [] {
        Now(d, s, a, k);
      } else {
        var rest := [Lit(Mark(Apply))] + words[1..];
        var k1 := Frame(Subject(rest), env, k);
        assert SoundFor(d, n, Expression(words[0]), env, k1, st);
        var a1 := Evaluate(d, n, Expression(words[0]), env, k1, st);
        if a1.Gives? {
          assert SoundFor(d, n, Clauses(a1.v, Split(rest)), env, k, a1.st);
        }
        Then(d, Step(d, s), a1, k1, a, k);
        Later(d, s, a, k);
      }
    case Do(body) =>
      assert SoundFor(d, n, InOrder(body), env, k, st);
      Later(d, s, a, k);
    case Blk(body) =>
      assert SoundFor(d, n, InOrder(body), |st|, k, st + [Env(map[], env)]);
      Later(d, s, a, k);
    case Let(name, start) =>
      if start == None {
        Now(d, s, a, k);
      } else {
        var k1 := Frame(AfterLet(name), env, k);
        assert SoundFor(d, n, Expression(start.value), env, k1, st);
        var a1 := Evaluate(d, n, Expression(start.value), env, k1, st);
        if a1.Gives? {
          Now(d, Step(d, Run(a1.v, k1, a1.st)), a, k);
        }
        Then(d, Step(d, s), a1, k1, a, k);
        Later(d, s, a, k);
      }
    case If(test, yes, no) =>
      var k1 := Frame(AfterIf(yes, no), env, k);
      assert SoundFor(d, n, Expression(test), env, k1, st);
      var a1 := Evaluate(d, n, Expression(test), env, k1, st);
      if a1.Gives? {
        if !IsFalse(a1.v) {
          assert SoundFor(d, n, InOrder(yes), env, k, a1.st);
        } else if no != [] {
          assert SoundFor(d, n, InOrder(no), env, k, a1.st);
        } else {
          Now(d, Step(d, Run(a1.v, k1, a1.st)), a, k);
        }
      }
      Then(d, Step(d, s), a1, k1, a, k);
      Later(d, s, a, k);
    case Cond(clauses) =>
      if clauses == [] {
        Now(d, s, a, k);
      } else {
        assert SoundFor(d, n, FirstTrue(clauses), env, k, st);
        Later(d, s, a, k);
      }
    case And(tests) =>
      if tests == [] {
        Now(d, s, a, k);
      } else {
        assert SoundFor(d, n, AllOf(tests), env, k, st);
        Later(d, s, a, k);
      }
    case Or(tests) =>
      if tests == [] {
        Now(d, s, a, k);
      } else {
        assert SoundFor(d, n, AnyOf(tests), env, k, st);
        Later(d, s, a, k);
      }
    case Lambda(lambda, procName, params, capture, body) => Now(d, s, a, k);
    case For(_, _, _, _) => ForSound(d, n, e, env, k, st);
    case Break => Now(d, s, a, k);
    case Continue => Now(d, s, a, k);
    case CallCc(proc) =>
      var p := if proc.Ref? then EnvLookup(st, env, proc.name) else if proc.Lit? then Plain(proc.lit) else Plain(Const(UNDEF));
      if p.Proc? {
        CallSound(d, n, p.(lambda := true), [Cont(k)], env, k, st);
        Later(d, s, a, k);
      } else {
        Now(d, s, a, k);
      }
  }

  lemma ListsSound(d: Natives, n: nat, t: Task, env: nat, k: Kont, st: Store)
    requires Sound(d, n) && (t.InOrder? || t.Clauses? || t.Arguments? || t.Application?)
    ensures SoundFor(d, n + 1, t, env, k, st)
  {
    hide Agrees, Reaches, EnvLookup, EnvDefine, Split, Reverse, Enter, Steps;
    var s, a := At(t, env, k, st), Evaluate(d, n + 1, t, env, k, st);
    match t
    case InOrder(l) =>
      if l == [] {
        Now(d, s, a, k);
      } else {
        var k1 := Frame(Sentences(l[1..]), env, k);
        assert SoundFor(d, n, Expression(l[0]), env, k1, st);
        var a1 := Evaluate(d, n, Expression(l[0]), env, k1, st);
        if a1.Gives? {
          if |l| == 1 {
            Now(d, Step(d, Run(a1.v, k1, a1.st)), a, k);
          } else {
            assert SoundFor(d, n, InOrder(l[1..]), env, k, a1.st);
          }
        }
        Then(d, Step(d, s), a1, k1, a, k);
        Later(d, s, a, k);
      }
    case Clauses(subj, clauses) =>
      if clauses == [] || !IsInfix(clauses[0]) {
        Now(d, s, a, k);
      } else {
        var k1 := Frame(ClauseList(subj, clauses[1..]), env, k);
        assert SoundFor(d, n, Arguments(subj, clauses[0], []), env, k1, st);
        var a1 := Evaluate(d, n, Arguments(subj, clauses[0], []), env, k1, st);
        if a1.Gives? {
          assert SoundFor(d, n, Clauses(a1.v, clauses[1..]), env, k, a1.st);
        }
        Then(d, Step(d, s), a1, k1, a, k);
        Later(d, s, a, k);
      }
    case Arguments(subj, rest, done) =>
      if rest == [] {
        assert SoundFor(d, n, Application(subj, done), env, k, st);
      } else {
        var k1 := Frame(Args(subj, rest[1..], Reverse(done)), env, k);
        assert SoundFor(d, n, Expression(rest[0]), env, k1, st);
        var a1 := Evaluate(d, n, Expression(rest[0]), env, k1, st);
        if a1.Gives? {
          SourceOrder(done, a1.v);
          assert SoundFor(d, n, Arguments(subj, rest[1..], done + [a1.v]), env, k, a1.st);
        }
        Then(d, s, a1, k1, a, k);
      }
    case Application(subj, args) =>
      if args == [] || args[0] != Plain(Mark(Apply)) || !subj.Proc? {
        Now(d, s, a, k);
      } else {
        CallSound(d, n, subj, args[1..], env, k, st);
        Later(d, s, a, k);
      }
  }

  lemma TestsSound(d: Natives, n: nat, t: Task, env: nat, k: Kont, st: Store)
    requires Sound(d, n) && (t.FirstTrue? || t.AllOf? || t.AnyOf?)
    ensures SoundFor(d, n + 1, t, env, k, st)
  {
    hide Agrees, Reaches, EnvLookup, EnvDefine, Split, Reverse, Enter, Steps;
    var s, a := At(t, env, k, st), Evaluate(d, n + 1, t, env, k, st);
    match t
    case FirstTrue(cases) =>
      if cases == [] {
        Now(d, s, a, k);
      } else if cases[0].isElse {
        assert SoundFor(d, n, InOrder(cases[0].action), env, k, st);
      } else {
        var k1 := Frame(AfterCond(cases[0].action, cases[1..]), env, k);
        assert SoundFor(d, n, Expression(cases[0].test), env, k1, st);
        var a1 := Evaluate(d, n, Expression(cases[0].test), env, k1, st);
        if a1.Gives? {
          if !IsFalse(a1.v) {
            assert SoundFor(d, n, InOrder(cases[0].action), env, k, a1.st);
          } else {
            assert SoundFor(d, n, FirstTrue(cases[1..]), env, k, a1.st);
          }
        }
        Then(d, s, a1, k1, a, k);
      }
    case AllOf(tests) =>
      if tests == [] {
        Now(d, s, a, k);
      } else {
        var k1 := Frame(AfterAnd(tests[1..]), env, k);
        assert SoundFor(d, n, Expression(tests[0]), env, k1, st);
        var a1 := Evaluate(d, n, Expression(tests[0]), env, k1, st);
        if a1.Gives? {
          if IsFalse(a1.v) || a1.v == Plain(Const(NIL)) {
            Now(d, Step(d, Run(a1.v, k1, a1.st)), a, k);
          } else {
            assert SoundFor(d, n, AllOf(tests[1..]), env, k, a1.st);
          }
        }
        Then(d, s, a1, k1, a, k);
      }
    case AnyOf(tests) =>
      if tests == [] {
        Now(d, s, a, k);
      } else {
        var k1 := Frame(AfterOr(tests[1..]), env, k);
        assert SoundFor(d, n, Expression(tests[0]), env, k1, st);
        var a1 := Evaluate(d, n, Expression(tests[0]), env, k1, st);
        if a1.Gives? {
          if !IsFalse(a1.v) {
            Now(d, Step(d, Run(a1.v, k1, a1.st)), a, k);
          } else {
            assert SoundFor(d, n, AnyOf(tests[1..]), env, k, a1.st);
          }
        }
        Then(d, s, a1, k1, a, k);
      }
  }

  lemma LoopsSound(d: Natives, n: nat, t: Task, env: nat, k: Kont, st: Store)
    requires Sound(d, n) && (t.Loop? || t.Round? || t.Advance?)
    ensures SoundFor(d, n + 1, t, env, k, st)
  {
    hide Agrees, Reaches, EnvLookup, EnvDefine, Split, Reverse, Enter, Steps;
    var s, a := At(t, env, k, st), Evaluate(d, n + 1, t, env, k, st);
    match t
    case Loop(test, after, body) =>
      var k1 := Frame(AfterTest(test, after, body), env, k);
      assert SoundFor(d, n, Expression(test), env, k1, st);
      var a1 := Evaluate(d, n, Expression(test), env, k1, st);
      if a1.Gives? {
        if IsFalse(a1.v) {
          Now(d, Step(d, Run(a1.v, k1, a1.st)), a, k);
        } else {
          assert SoundFor(d, n, Round(test, after, body), env, k, a1.st);
        }
      }
      Then(d, s, a1, k1, a, k);
    case Round(test, after, body) =>
      var k1 := Frame(AfterBody(test, after, body), env, k);
      assert SoundFor(d, n, InOrder(body), env, k1, st);
      Caught(d, s, Evaluate(d, n, InOrder(body), env, k1, st), k1);
      var a1 := Catch(Evaluate(d, n, InOrder(body), env, k1, st), k1);
      if a1.Gives? {
        assert SoundFor(d, n, Advance(test, after, body), env, k, a1.st);
      }
      Then(d, s, a1, k1, a, k);
    case Advance(test, after, body) =>
      var k1 := Frame(BeforeTest(test, after, body), env, k);
      assert SoundFor(d, n, Expression(after), env, k1, st);
      var a1 := Evaluate(d, n, Expression(after), env, k1, st);
      if a1.Gives? {
        assert SoundFor(d, n, Loop(test, after, body), env, k, a1.st);
      }
      Then(d, s, a1, k1, a, k);
  }

  lemma OneMore(d: Natives, n: nat, t: Task, env: nat, k: Kont, st: Store)
    requires Sound(d, n)
    ensures SoundFor(d, n + 1, t, env, k, st)
  {
    hide Sound, Agrees;
    match t
    case Expression(e) => ExprSound(d, n, e, env, k, st);
    case InOrder(_) => ListsSound(d, n, t, env, k, st);
    case Clauses(_, _) => ListsSound(d, n, t, env, k, st);
    case Arguments(_, _, _) => ListsSound(d, n, t, env, k, st);
    case Application(_, _) => ListsSound(d, n, t, env, k, st);
    case FirstTrue(_) => TestsSound(d, n, t, env, k, st);
    case AllOf(_) => TestsSound(d, n, t, env, k, st);
    case AnyOf(_) => TestsSound(d, n, t, env, k, st);
    case Loop(_, _, _) => LoopsSound(d, n, t, env, k, st);
    case Round(_, _, _) => LoopsSound(d, n, t, env, k, st);
    case Advance(_, _, _) => LoopsSound(d, n, t, env, k, st);
  }

  /** Whatever the direct evaluation answers, the machine comes to. */
  lemma {:induction false} EvaluationIsReached(d: Natives, fuel: nat)
    ensures Sound(d, fuel)
  {
    forall t, env: nat, k, st ensures SoundFor(d, fuel, t, env, k, st) {
      if fuel > 0 {
        EvaluationIsReached(d, fuel - 1);
        OneMore(d, fuel - 1, t, env, k, st);
      }
    }
  }

  // ---------- completeness ----------

  /** Within n steps of the machine, `fuel` is enough. */
  ghost predicate Ends(d: Natives, n: nat, fuel: nat, t: Task, env: nat, k: Kont, st: Store) {
    Halts(d, n, At(t, env, k, st)) ==> !Evaluate(d, fuel, t, env, k, st).Unfinished?
  }

  ghost predicate AllEnd(d: Natives, n: nat, fuel: nat) {
    forall t, env: nat, k, st :: Ends(d, n, fuel, t, env, k, st)
  }

  /** A task that the machine takes a step for before it turns to another one. */
  predicate TakesAStep(t: Task) { t.Expression? || t.InOrder? || t.Clauses? || t.Application? }

  ghost predicate SteppingEnd(d: Natives, n: nat, fuel: nat) {
    forall t, env: nat, k, st | TakesAStep(t) :: Ends(d, n, fuel, t, env, k, st)
  }

  /** What gives a value within a halting run leaves a shorter run for what follows it. */
  lemma Leaves(d: Natives, n: nat, s: State, a: Answer, k: Kont)
    requires Agrees(d, s, a, k) && a.Gives? && Halts(d, n, s)
    ensures n > 0 && Halts(d, n - 1, Step(d, Run(a.v, k, a.st))) && Halts(d, n, Step(d, Run(a.v, k, a.st)))
  {
    StillHalts(d, n, s, Run(a.v, k, a.st));
    StepReaches(d, Run(a.v, k, a.st));
    StillHalts(d, n, Run(a.v, k, a.st), Step(d, Run(a.v, k, a.st)));
  }

  lemma First(d: Natives, n: nat, fuel: nat, t: Task, env: nat, k: Kont, st: Store) returns (a: Answer)
    requires SoundFor(d, fuel, t, env, k, st) && Ends(d, n, fuel, t, env, k, st)
    requires Halts(d, n, At(t, env, k, st))
    ensures a == Evaluate(d, fuel, t, env, k, st) && !a.Unfinished?
    ensures a.Gives? ==> n > 0 && Halts(d, n - 1, Step(d, Run(a.v, k, a.st))) && Halts(d, n, Step(d, Run(a.v, k, a.st)))
  {
    a := Evaluate(d, fuel, t, env, k, st);
    if a.Gives? {
      Leaves(d, n, At(t, env, k, st), a, k);
    }
  }

  lemma OneStep(d: Natives, n: nat, s: State)
    requires Halts(d, n, s) && !Over(s)
    ensures n > 0 && Halts(d, n - 1, Step(d, s))
  {
  }

  lemma CallEnds(d: Natives, n: nat, fuel: nat, proc: Value, args: seq<Value>, env: nat, k: Kont, st: Store)
    requires proc.Proc? && AllEnd(d, n, fuel)
    requires Halts(d, n, CallStep(proc, args, env, k, st))
    ensures !EvaluateCall(d, fuel, proc, args, env, k, st).Unfinished?
  {
    match Enter(proc, args, env, k, st)
    case None =>
    case Some(st1) => assert Ends(d, n, fuel, InOrder(proc.body), |st|, k, st1);
  }

  lemma ForEnds(d: Natives, n: nat, fuel: nat, e: Expr, env: nat, k: Kont, st: Store)
    requires e.For? && Sound(d, fuel) && AllEnd(d, n, fuel)
    requires Halts(d, n, EvalStep(e, env, k, st))
    ensures !EvaluateExpr(d, fuel, e, env, k, st).Unfinished?
  {
    hide Agrees, Reaches, EnvLookup, EnvDefine, Split, Reverse, Enter, Steps, Halts;
    var test, after, body := e.test, e.after, e.body;
    var st1 := st + [Env(map["break" := Cont(k), "continue" := Cont(Frame(AfterBody(test, after, body), |st|, k))], env)];
    var a := First(d, n, fuel, Expression(e.init), |st|, Frame(BeforeTest(test, after, body), |st|, k), st1);
    if a.Gives? {
      assert Ends(d, n, fuel, Loop(test, after, body), |st|, k, a.st);
    }
  }

  lemma ExprEnds(d: Natives, n: nat, fuel: nat, e: Expr, env: nat, k: Kont, st: Store)
    requires Sound(d, fuel) && AllEnd(d, n, fuel)
    requires Halts(d, n, EvalStep(e, env, k, st))
    ensures !EvaluateExpr(d, fuel, e, env, k, st).Unfinished?
  {
    hide Agrees, Reaches, EnvLookup, EnvDefine, Split, Reverse, Enter, Steps, Halts;
    match e
    case Lit(_) =>
    case Ref(name) =>
    case Call(words) =>
      if words != [] {
        var rest := [Lit(Mark(Apply))] + words[1..];
        var a := First(d, n, fuel, Expression(words[0]), env, Frame(Subject(rest), env, k), st);
        if a.Gives? {
          assert Ends(d, n, fuel, Clauses(a.v, Split(rest)), env, k, a.st);
        }
      }
    case Do(body) => assert Ends(d, n, fuel, InOrder(body), env, k, st);
    case Blk(body) => assert Ends(d, n, fuel, InOrder(body), |st|, k, st + [Env(map[], env)]);
    case Let(name, start) =>
      if start.Some? {
        var a := First(d, n, fuel, Expression(start.value), env, Frame(AfterLet(name), env, k), st);
      }
    case If(test, yes, no) =>
      var a := First(d, n, fuel, Expression(test), env, Frame(AfterIf(yes, no), env, k), st);
      if a.Gives? {
        assert Ends(d, n, fuel, InOrder(if !IsFalse(a.v) then yes else no), env, k, a.st);
      }
    case Cond(clauses) => assert Ends(d, n, fuel, FirstTrue(clauses), env, k, st);
    case And(tests) => assert Ends(d, n, fuel, AllOf(tests), env, k, st);
    case Or(tests) => assert Ends(d, n, fuel, AnyOf(tests), env, k, st);
    case Lambda(lambda, procName, params, capture, body) =>
    case For(_, _, _, _) => ForEnds(d, n, fuel, e, env, k, st);
    case Break =>
    case Continue =>
    case CallCc(proc) =>
      var p := if proc.Ref? then EnvLookup(st, env, proc.name) else if proc.Lit? then Plain(proc.lit) else Plain(Const(UNDEF));
      if p.Proc? {
        CallEnds(d, n, fuel, p.(lambda := true), [Cont(k)], env, k, st);
      }
  }

  lemma SteppingEnds(d: Natives, n: nat, fuel: nat, t: Task, env: nat, k: Kont, st: Store)
    requires Sound(d, fuel) && (n > 0 ==> AllEnd(d, n - 1, fuel)) && TakesAStep(t)
    ensures Ends(d, n, fuel + 1, t, env, k, st)
  {
    hide Agrees, Reaches, EnvLookup, EnvDefine, Split, Reverse, Enter, Steps, Halts, EvaluateExpr, EvaluateCall, EvalStep, CallStep;
    var s := At(t, env, k, st);
    if Halts(d, n, s) && !s.Run? {
      OneStep(d, n, s);
      match t
      case Expression(e) => ExprEnds(d, n - 1, fuel, e, env, k, st);
      case InOrder(l) =>
        if l != [] {
          var a := First(d, n - 1, fuel, Expression(l[0]), env, Frame(Sentences(l[1..]), env, k), st);
          if a.Gives? && |l| > 1 {
            assert Ends(d, n - 1, fuel, InOrder(l[1..]), env, k, a.st);
          }
        }
      case Clauses(subj, clauses) =>
        if IsInfix(clauses[0]) {
          var a := First(d, n - 1, fuel, Arguments(subj, clauses[0], []), env, Frame(ClauseList(subj, clauses[1..]), env, k), st);
          if a.Gives? {
            assert Ends(d, n - 1, fuel, Clauses(a.v, clauses[1..]), env, k, a.st);
          }
        }
      case Application(subj, args) =>
        if args != [] && args[0] == Plain(Mark(Apply)) && subj.Proc? {
          CallEnds(d, n - 1, fuel, subj, args[1..], env, k, st);
        }
    }
  }

  lemma TestsEnd(d: Natives, n: nat, fuel: nat, t: Task, env: nat, k: Kont, st: Store)
    requires Sound(d, fuel) && SteppingEnd(d, n, fuel) && (n > 0 ==> AllEnd(d, n - 1, fuel)) && (t.Arguments? || t.FirstTrue? || t.AllOf? || t.AnyOf?)
    ensures Ends(d, n, fuel + 1, t, env, k, st)
  {
    hide Agrees, Reaches, EnvLookup, EnvDefine, Split, Reverse, Enter, Steps, Halts, EvaluateExpr, EvaluateCall, EvalStep, CallStep;
    if Halts(d, n, At(t, env, k, st)) {
      match t
      case Arguments(subj, rest, done) =>
        if rest == [] {
          assert Ends(d, n, fuel, Application(subj, done), env, k, st);
        } else {
          var a := First(d, n, fuel, Expression(rest[0]), env, Frame(Args(subj, rest[1..], Reverse(done)), env, k), st);
          if a.Gives? {
            SourceOrder(done, a.v);
            assert Ends(d, n - 1, fuel, Arguments(subj, rest[1..], done + [a.v]), env, k, a.st);
          }
        }
      case FirstTrue(cases) =>
        if cases != [] {
          var action := InOrder(cases[0].action);
          if cases[0].isElse {
            assert Ends(d, n, fuel, action, env, k, st);
          } else {
            var a := First(d, n, fuel, Expression(cases[0].test), env, Frame(AfterCond(cases[0].action, cases[1..]), env, k), st);
            if a.Gives? {
              assert Ends(d, n - 1, fuel, if !IsFalse(a.v) then action else FirstTrue(cases[1..]), env, k, a.st);
            }
          }
        }
      case AllOf(tests) =>
        if tests != [] {
          var a := First(d, n, fuel, Expression(tests[0]), env, Frame(AfterAnd(tests[1..]), env, k), st);
          if a.Gives? {
            assert Ends(d, n - 1, fuel, AllOf(tests[1..]), env, k, a.st);
          }
        }
      case AnyOf(tests) =>
        if tests != [] {
          var a := First(d, n, fuel, Expression(tests[0]), env, Frame(AfterOr(tests[1..]), env, k), st);
          if a.Gives? {
            assert Ends(d, n - 1, fuel, AnyOf(tests[1..]), env, k, a.st);
          }
        }
    }
  }

  lemma LoopsEnd(d: Natives, n: nat, fuel: nat, t: Task, env: nat, k: Kont, st: Store)
    requires Sound(d, fuel) && SteppingEnd(d, n, fuel) && (n > 0 ==> AllEnd(d, n - 1, fuel)) && (t.Loop? || t.Round? || t.Advance?)
    ensures Ends(d, n, fuel + 1, t, env, k, st)
  {
    hide Agrees, Reaches, EnvLookup, EnvDefine, Split, Reverse, Enter, Steps, Halts, EvaluateExpr, EvaluateCall, EvalStep, CallStep;
    if Halts(d, n, At(t, env, k, st)) {
      match t
      case Loop(test, after, body) =>
        var a := First(d, n, fuel, Expression(test), env, Frame(AfterTest(test, after, body), env, k), st);
        if a.Gives? {
          assert Ends(d, n - 1, fuel, Round(test, after, body), env, k, a.st);
        }
      case Round(test, after, body) =>
        var again := Frame(AfterBody(test, after, body), env, k);
        assert SoundFor(d, fuel, InOrder(body), env, again, st) && Ends(d, n, fuel, InOrder(body), env, again, st);
        var b := Evaluate(d, fuel, InOrder(body), env, again, st);
        Caught(d, At(t, env, k, st), b, again);
        var a := Catch(b, again);
        if a.Gives? {
          Leaves(d, n, At(t, env, k, st), a, again);
          assert Ends(d, n - 1, fuel, Advance(test, after, body), env, k, a.st);
        }
      case Advance(test, after, body) =>
        var a := First(d, n, fuel, Expression(after), env, Frame(BeforeTest(test, after, body), env, k), st);
        if a.Gives? {
          assert Ends(d, n - 1, fuel, Loop(test, after, body), env, k, a.st);
        }
    }
  }

  /** A machine that halts is matched by the direct evaluation, with twice as much fuel as it took steps. */
  lemma {:induction false} HaltingIsEnough(d: Natives, n: nat, fuel: nat)
    ensures fuel >= 2 * n + 1 ==> SteppingEnd(d, n, fuel)
    ensures fuel >= 2 * n + 2 ==> AllEnd(d, n, fuel)
    decreases n, fuel
  {
    hide Ends, Sound;
    if fuel >= 2 * n + 1 {
      EvaluationIsReached(d, fuel - 1);
      if n > 0 {
        HaltingIsEnough(d, n - 1, fuel - 1);
      }
      forall t, env: nat, k, st | TakesAStep(t) ensures Ends(d, n, fuel, t, env, k, st) {
        SteppingEnds(d, n, fuel - 1, t, env, k, st);
      }
    }
    if fuel >= 2 * n + 2 {
      HaltingIsEnough(d, n, fuel - 1);
      forall t, env: nat, k, st ensures Ends(d, n, fuel, t, env, k, st) {
        if t.Loop? || t.Round? || t.Advance? {
          LoopsEnd(d, n, fuel - 1, t, env, k, st);
        } else if !TakesAStep(t) {
          TestsEnd(d, n, fuel - 1, t, env, k, st);
        }
      }
    }
  }

  // ---------- whole programs ----------

  /** One step of the machine re-enters a frame the way the direct style does. */
  lemma FrameStep(job: Job, v: Value, env: nat, k: Kont, st: Store)
    ensures RunStep(v, Frame(job, env, k), st) ==
      match Onward(job, v, env, st)
      case Done(w, st1) => Run(w, k, st1)
      case ToDo(t) => At(t, env, k, st)
  {
    hide EnvDefine, Split, Reverse;
    match job
    case Sentences(rest) =>
    case Subject(rest) => NoClauses(rest);
    case ClauseList(_, rest) =>
    case Args(subj, rest, evaled) =>
      ReverseReverse(evaled);
      SourceOrder(Reverse(evaled), v);
    case AfterIf(yes, no) =>
    case AfterCond(action, rest) =>
    case AfterAnd(rest) =>
    case AfterOr(rest) =>
    case AfterLet(name) =>
    case BeforeTest(test, after, body) =>
    case AfterTest(test, after, body) =>
    case AfterBody(test, after, body) =>
  }

  lemma NoClauses(rest: seq<Expr>)
    ensures rest == [] ==> Split(rest) == []
  {
  }

  lemma ReenterSound(d: Natives, fuel: nat, job: Job, v: Value, env: nat, k: Kont, st: Store)
    ensures Agrees(d, Run(v, Frame(job, env, k), st), Reenter(d, fuel, job, v, env, k, st), k)
  {
    hide Evaluate, RunStep, Onward, Agrees, At;
    FrameStep(job, v, env, k, st);
    EvaluationIsReached(d, fuel);
    var s, a := Run(v, Frame(job, env, k), st), Reenter(d, fuel, job, v, env, k, st);
    match Onward(job, v, env, st)
    case Done(w, st1) => Now(d, s, a, k);
    case ToDo(t) =>
      assert SoundFor(d, fuel, t, env, k, st);
      Later(d, s, a, k);
  }

  lemma ReenterEnds(d: Natives, n: nat, fuel: nat, job: Job, v: Value, env: nat, k: Kont, st: Store)
    requires Halts(d, n, Run(v, Frame(job, env, k), st)) && fuel >= 2 * n
    ensures n > 0 && !Reenter(d, fuel, job, v, env, k, st).Unfinished?
  {
    hide Evaluate, RunStep, Onward, At, Halts;
    FrameStep(job, v, env, k, st);
    OneStep(d, n, Run(v, Frame(job, env, k), st));
    HaltingIsEnough(d, n - 1, fuel);
    match Onward(job, v, env, st)
    case Done(w, st1) =>
    case ToDo(t) => assert Ends(d, n - 1, fuel, t, env, k, st);
  }

  /** How a machine that is over shows an answer. */
  function Shown(a: Answer): State {
    if a.Gives? then Landed(a.v, a.st) else Stuck
  }

  lemma {:induction false} ResumeSound(d: Natives, fuel: nat, v: Value, k: Kont, st: Store)
    ensures var a := Resume(d, fuel, v, k, st); !a.Unfinished? ==> Reaches(d, Run(v, k, st), Shown(a))
    decreases fuel, 0
  {
    hide Evaluate, Reenter, Agrees, Reaches;
    var s := Run(v, k, st);
    if k.Return? {
      StepReaches(d, s);
    } else if fuel > 0 {
      ReenterSound(d, fuel - 1, k.job, v, k.env, k.next, st);
      SettleSound(d, fuel - 1, s, Reenter(d, fuel - 1, k.job, v, k.env, k.next, st), k.next);
    }
  }

  lemma {:induction false} SettleSound(d: Natives, fuel: nat, s: State, a: Answer, k: Kont)
    requires Agrees(d, s, a, k)
    ensures var b := Settle(d, fuel, a, k); !b.Unfinished? ==> Reaches(d, s, Shown(b))
    decreases fuel, 1
  {
    if a.Gives? || a.Jumps? {
      var to := if a.Gives? then k else a.to;
      ResumeSound(d, fuel, a.v, to, a.st);
      if !Resume(d, fuel, a.v, to, a.st).Unfinished? {
        ReachesAll(d, s, Answered(a, k), Shown(Settle(d, fuel, a, k)));
      }
    }
  }

  lemma {:induction false} ResumeEnds(d: Natives, n: nat, fuel: nat, v: Value, k: Kont, st: Store)
    requires Halts(d, n, Run(v, k, st)) && fuel >= 2 * n + 1
    ensures !Resume(d, fuel, v, k, st).Unfinished?
    decreases n
  {
    hide Evaluate, Reenter, Agrees, Reaches, Steps, RunStep;
    if k.Frame? {
      var a := Reenter(d, fuel - 1, k.job, v, k.env, k.next, st);
      ReenterEnds(d, n, fuel - 1, k.job, v, k.env, k.next, st);
      ReenterSound(d, fuel - 1, k.job, v, k.env, k.next, st);
      if !a.Fails? {
        var s1 := Answered(a, k.next);
        ReenterSteps(d, n, fuel - 1, k.job, v, k.env, k.next, st);
        ResumeEnds(d, n - 1, fuel - 1, a.v, if a.Gives? then k.next else a.to, a.st);
      }
    }
  }

  /** Coming to an answer takes at least the step of the frame itself. */
  lemma ReenterSteps(d: Natives, n: nat, fuel: nat, job: Job, v: Value, env: nat, k: Kont, st: Store)
    requires Halts(d, n, Run(v, Frame(job, env, k), st)) && n > 0
    ensures var a := Reenter(d, fuel, job, v, env, k, st); !a.Unfinished? ==> Halts(d, n - 1, Answered(a, k))
  {
    hide Evaluate, RunStep, Onward, At, Agrees, Halts;
    FrameStep(job, v, env, k, st);
    OneStep(d, n, Run(v, Frame(job, env, k), st));
    match Onward(job, v, env, st)
    case Done(w, st1) =>
    case ToDo(t) =>
      EvaluationIsReached(d, fuel);
      assert SoundFor(d, fuel, t, env, k, st);
      var a := Evaluate(d, fuel, t, env, k, st);
      AgreedHalts(d, n - 1, At(t, env, k, st), a, k);
  }

  lemma AgreedHalts(d: Natives, n: nat, s: State, a: Answer, k: Kont)
    requires Halts(d, n, s) && Agrees(d, s, a, k)
    ensures !a.Unfinished? ==> Halts(d, n, Answered(a, k))
  {
    if !a.Unfinished? {
      StillHalts(d, n, s, Answered(a, k));
    }
  }

  /** The machine at the start of a program. */
  function Start(program: seq<Expr>, root: nat, st: Store): State {
    Body(program, root, Return, EnvDefine(st, root, "return", Cont(Return)))
  }

  lemma MeaningSound(d: Natives, fuel: nat, program: seq<Expr>, root: nat, st: Store)
    ensures var a := Meaning(d, fuel, program, root, st); !a.Unfinished? ==> Reaches(d, Start(program, root, st), Shown(a))
  {
    hide Evaluate, Agrees, Reaches;
    var st1 := EnvDefine(st, root, "return", Cont(Return));
    EvaluationIsReached(d, fuel);
    assert SoundFor(d, fuel, InOrder(program), root, Return, st1);
    SettleSound(d, fuel, Start(program, root, st), Evaluate(d, fuel, InOrder(program), root, Return, st1), Return);
  }

  lemma MeaningEnds(d: Natives, n: nat, program: seq<Expr>, root: nat, st: Store)
    requires Halts(d, n, Start(program, root, st))
    ensures !Meaning(d, 2 * n + 2, program, root, st).Unfinished?
  {
    hide Evaluate, Agrees, Reaches, Halts;
    var fuel, st1 := 2 * n + 2, EnvDefine(st, root, "return", Cont(Return));
    HaltingIsEnough(d, n, fuel);
    EvaluationIsReached(d, fuel);
    var t := InOrder(program);
    assert Ends(d, n, fuel, t, root, Return, st1) && SoundFor(d, fuel, t, root, Return, st1);
    var a := Evaluate(d, fuel, t, root, Return, st1);
    AgreedHalts(d, n, Start(program, root, st), a, Return);
    if !a.Fails? {
      ResumeEnds(d, n, fuel, a.v, if a.Gives? then Return else a.to, a.st);
    }
  }

  lemma OneEnd(d: Natives, s: State, s1: State, s2: State)
    requires Reaches(d, s, s1) && Reaches(d, s, s2) && Over(s1) && Over(s2)
    ensures s1 == s2
  {
    var n: nat :| Steps(d, n, s) == s1;
    var m: nat :| Steps(d, m, s) == s2;
    StepsJoin(d, n, m, s);
    StepsJoin(d, m, n, s);
    OverStays(d, m, s1);
    OverStays(d, n, s2);
  }

  /** The trampoline lands on a value, with a store, if and only if that is the program's meaning;
      and it gets stuck if and only if the program has none. */
  lemma TrampolineIsDirect(d: Natives, program: seq<Expr>, root: nat, st: Store, v: Value, st1: Store)
    ensures Reaches(d, Start(program, root, st), Landed(v, st1))
      <==> exists fuel: nat :: Meaning(d, fuel, program, root, st) == Gives(v, st1)
    ensures Reaches(d, Start(program, root, st), Stuck)
      <==> exists fuel: nat :: Meaning(d, fuel, program, root, st) == Fails
  {
    hide Meaning, Step, Start;
    var s := Start(program, root, st);
    forall end | Over(end) && Reaches(d, s, end)
      ensures exists fuel: nat :: var a := Meaning(d, fuel, program, root, st); !a.Unfinished? && Shown(a) == end
    {
      var n: nat :| Steps(d, n, s) == end;
      MeaningEnds(d, n, program, root, st);
      MeaningSound(d, 2 * n + 2, program, root, st);
      OneEnd(d, s, end, Shown(Meaning(d, 2 * n + 2, program, root, st)));
    }
    forall fuel: nat ensures var a := Meaning(d, fuel, program, root, st); !a.Unfinished? ==> Reaches(d, s, Shown(a)) {
      MeaningSound(d, fuel, program, root, st);
    }
  }

  /** The trampoline's loop, for at most `limit` bounces. */
  method ProcessSentences(d: Natives, program: seq<Expr>, root: nat, st: Store, limit: nat) returns (s: State, bounces: nat)
    ensures bounces <= limit && s == Steps(d, bounces, Start(program, root, st))
    ensures bounces < limit ==> Over(s)
    ensures s.Landed? ==> exists fuel: nat :: Meaning(d, fuel, program, root, st) == Gives(s.v, s.st)
    ensures s.Stuck? ==> exists fuel: nat :: Meaning(d, fuel, program, root, st) == Fails
  {
    hide Meaning, Step;
    var st1 := EnvDefine(st, root, "return", Cont(Return));
    s, bounces := Body(program, root, Return, st1), 0;
    while bounces < limit && !s.Landed? && !s.Stuck?
      invariant bounces <= limit && s == Steps(d, bounces, Start(program, root, st))
    {
      StepsJoin(d, bounces, 1, Start(program, root, st));
      assert Steps(d, 1, s) == Steps(d, 0, Step(d, s));
      s, bounces := Step(d, s), bounces + 1;
    }
    assert Reaches(d, Start(program, root, st), s);
    if s.Landed? {
      TrampolineIsDirect(d, program, root, st, s.v, s.st);
    } else if s.Stuck? {
      TrampolineIsDirect(d, program, root, st, Plain(Const(NIL)), st);
    }
  }

  // ---------- arguments ----------

  /** The i-th argument has the value vals[i], evaluated after those before it. */
  ghost predicate ArgumentHas(d: Natives, subj: Value, args: seq<Expr>, vals: seq<Value>, sts: seq<Store>, i: nat, env: nat, k: Kont)
    requires i < |args| == |vals| && |sts| == |args| + 1
  {
    var k1 := Frame(Args(subj, args[i + 1..], Reverse(vals[..i])), env, k);
    Reaches(d, Eval(args[i], env, k1, sts[i]), Run(vals[i], k1, sts[i + 1]))
  }

  /** Arguments are evaluated once each, left to right, each in the store the last one left, and
      are applied in source order although the machine collects them in reverse. */
  lemma {:induction false} ArgumentsInSourceOrder(d: Natives, subj: Value, args: seq<Expr>, vals: seq<Value>, sts: seq<Store>, i: nat, env: nat, k: Kont)
    requires i <= |args| == |vals| && |sts| == |args| + 1
    requires forall j: nat | i <= j < |args| :: ArgumentHas(d, subj, args, vals, sts, j, env, k)
    ensures Reaches(d, At(Arguments(subj, args[i..], vals[..i]), env, k, sts[i]), Applying(subj, vals, env, k, sts[|args|]))
    decreases |args| - i
  {
    if i == |args| {
      assert vals[..i] == vals;
      StepReaches(d, Applying(subj, vals, env, k, sts[i]));
    } else {
      var k1 := Frame(Args(subj, args[i + 1..], Reverse(vals[..i])), env, k);
      assert ArgumentHas(d, subj, args, vals, sts, i, env, k);
      assert args[i..][1..] == args[i + 1..] && vals[..i] + [vals[i]] == vals[..i + 1];
      SourceOrder(vals[..i], vals[i]);
      ArgumentsInSourceOrder(d, subj, args, vals, sts, i + 1, env, k);
      StepReaches(d, Run(vals[i], k1, sts[i + 1]));
      ReachesAll(d, Run(vals[i], k1, sts[i + 1]), Step(d, Run(vals[i], k1, sts[i + 1])), Applying(subj, vals, env, k, sts[|args|]));
      ReachesAll(d, Eval(args[i], env, k1, sts[i]), Run(vals[i], k1, sts[i + 1]), Applying(subj, vals, env, k, sts[|args|]));
    }
  }
}
