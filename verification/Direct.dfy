/** The meaning of a Kana program in direct style: an expression has a value in an environment,
    arguments are evaluated left to right, and leaving a procedure, a loop or a call-cc early is an
    answer of its own that the construct being left turns back into a value.

    The continuation is carried along only because programs can keep it: it is bound to `return`,
    `break` and `continue`, and handed to the argument of call-cc. The evaluator goes on by
    recursion, not by running it. */
module Direct {
  import opened Lists
  import opened Kana

  datatype Answer =
    | Gives(v: Value, st: Store)
    | Jumps(to: Kont, v: Value, st: Store)
    | Fails
    | Unfinished

  /** What can be evaluated. A loop has three places to start from: its test, its body, and the
      expression after the body. */
  datatype Task =
    | Expression(e: Expr)
    | InOrder(sentences: seq<Expr>)
    | Clauses(subj: Value, clauses: seq<seq<Expr>>)
    | Arguments(subj: Value, rest: seq<Expr>, done: seq<Value>)
    | Application(subj: Value, args: seq<Value>)
    | FirstTrue(cases: seq<Clause>)
    | AllOf(tests: seq<Expr>)
    | AnyOf(tests: seq<Expr>)
    | Loop(test: Expr, after: Expr, body: seq<Expr>)
    | Round(test: Expr, after: Expr, body: seq<Expr>)
    | Advance(test: Expr, after: Expr, body: seq<Expr>)

  /** A jump to the construct's own continuation has arrived. */
  function Catch(a: Answer, k: Kont): Answer {
    if a.Jumps? && a.to == k then Gives(a.v, a.st) else a
  }

  /** The answer to `t`, if at most `fuel` recursive calls deep. */
  function Evaluate(d: Natives, fuel: nat, t: Task, env: nat, k: Kont, st: Store): Answer
    decreases fuel, 0
  {
    if fuel == 0 then Unfinished
    else
      var n := fuel - 1;
      match t
      case Expression(e) => EvaluateExpr(d, n, e, env, k, st)
      case InOrder(l) =>
        if l == [] then Gives(Plain(Const(TRUE)), st)
        else
          var a := Evaluate(d, n, Expression(l[0]), env, Frame(Sentences(l[1..]), env, k), st);
          if !a.Gives? || |l| == 1 then a else Evaluate(d, n, InOrder(l[1..]), env, k, a.st)
      case Clauses(subj, clauses) =>
        if clauses == [] then Gives(subj, st)
        else if !IsInfix(clauses[0]) then Fails
        else
          var a := Evaluate(d, n, Arguments(subj, clauses[0], []), env, Frame(ClauseList(subj, clauses[1..]), env, k), st);
          if a.Gives? then Evaluate(d, n, Clauses(a.v, clauses[1..]), env, k, a.st) else a
      case Arguments(subj, rest, done) =>
        if rest == [] then Evaluate(d, n, Application(subj, done), env, k, st)
        else
          var a := Evaluate(d, n, Expression(rest[0]), env, Frame(Args(subj, rest[1..], Reverse(done)), env, k), st);
          if a.Gives? then Evaluate(d, n, Arguments(subj, rest[1..], done + [a.v]), env, k, a.st) else a
      case Application(subj, args) =>
        if args == [] || args[0] != Plain(Mark(Apply)) then Fails
        else if subj.Cont? then if |args| > 1 then Jumps(subj.k, args[1], st) else Fails
        else if subj.Native? then Gives(d(subj.id, args[1..]), st)
        else if subj.Proc? then EvaluateCall(d, n, subj, args[1..], env, k, st)
        else Fails
      case FirstTrue(cases) =>
        if cases == [] then Gives(Plain(Const(FALSE)), st)
        else if cases[0].isElse then Evaluate(d, n, InOrder(cases[0].action), env, k, st)
        else
          var a := Evaluate(d, n, Expression(cases[0].test), env, Frame(AfterCond(cases[0].action, cases[1..]), env, k), st);
          if !a.Gives? then a
          else if !IsFalse(a.v) then Evaluate(d, n, InOrder(cases[0].action), env, k, a.st)
          else Evaluate(d, n, FirstTrue(cases[1..]), env, k, a.st)
      case AllOf(tests) =>
        if tests == [] then Gives(Plain(Const(TRUE)), st)
        else
          var a := Evaluate(d, n, Expression(tests[0]), env, Frame(AfterAnd(tests[1..]), env, k), st);
          if !a.Gives? then a
          else if IsFalse(a.v) || a.v == Plain(Const(NIL)) then Gives(Plain(Const(FALSE)), a.st)
          else Evaluate(d, n, AllOf(tests[1..]), env, k, a.st)
      case AnyOf(tests) =>
        if tests == [] then Gives(Plain(Const(FALSE)), st)
        else
          var a := Evaluate(d, n, Expression(tests[0]), env, Frame(AfterOr(tests[1..]), env, k), st);
          if !a.Gives? then a
          else if !IsFalse(a.v) then Gives(Plain(Const(TRUE)), a.st)
          else Evaluate(d, n, AnyOf(tests[1..]), env, k, a.st)
      case Loop(test, after, body) =>
        var a := Evaluate(d, n, Expression(test), env, Frame(AfterTest(test, after, body), env, k), st);
        if !a.Gives? then a
        else if IsFalse(a.v) then Gives(Plain(Const(TRUE)), a.st)
        else Evaluate(d, n, Round(test, after, body), env, k, a.st)
      case Round(test, after, body) =>
        var again := Frame(AfterBody(test, after, body), env, k);
        var a := Catch(Evaluate(d, n, InOrder(body), env, again, st), again);
        if a.Gives? then Evaluate(d, n, Advance(test, after, body), env, k, a.st) else a
      case Advance(test, after, body) =>
        var a := Evaluate(d, n, Expression(after), env, Frame(BeforeTest(test, after, body), env, k), st);
        if a.Gives? then Evaluate(d, n, Loop(test, after, body), env, k, a.st) else a
  }

  function EvaluateExpr(d: Natives, n: nat, e: Expr, env: nat, k: Kont, st: Store): Answer
    decreases n, 2
  {
    match e
    case Lit(lit) => Gives(Plain(lit), st)
    case Ref(name) => Gives(EnvLookup(st, env, name), st)
    case Call(words) =>
      if words == [] then Fails
      else
        var rest := [Lit(Mark(Apply))] + words[1..];
        var a := Evaluate(d, n, Expression(words[0]), env, Frame(Subject(rest), env, k), st);
        if a.Gives? then Evaluate(d, n, Clauses(a.v, Split(rest)), env, k, a.st) else a
    case Do(body) => Evaluate(d, n, InOrder(body), env, k, st)
    case Blk(body) => Evaluate(d, n, InOrder(body), |st|, k, st + [Env(map[], env)])
    case Let(name, start) =>
      (match start
       case None => Gives(Plain(Const(TRUE)), EnvDefine(st, env, name, Plain(Const(UKN))))
       case Some(e1) =>
         var a := Evaluate(d, n, Expression(e1), env, Frame(AfterLet(name), env, k), st);
         if a.Gives? then Gives(Plain(Const(TRUE)), EnvDefine(a.st, env, name, a.v)) else a)
    case If(test, yes, no) =>
      var a := Evaluate(d, n, Expression(test), env, Frame(AfterIf(yes, no), env, k), st);
      if !a.Gives? then a
      else if !IsFalse(a.v) then Evaluate(d, n, InOrder(yes), env, k, a.st)
      else if no != [] then Evaluate(d, n, InOrder(no), env, k, a.st)
      else Gives(Plain(Const(FALSE)), a.st)
    case Cond(clauses) => if clauses == [] then Fails else Evaluate(d, n, FirstTrue(clauses), env, k, st)
    case And(tests) => if tests == [] then Fails else Evaluate(d, n, AllOf(tests), env, k, st)
    case Or(tests) => if tests == [] then Fails else Evaluate(d, n, AnyOf(tests), env, k, st)
    case Lambda(lambda, procName, params, capture, body) =>
      var proc := Proc(lambda, params, body, env, capture);
      Gives(proc, if procName.Some? then EnvDefine(st, env, procName.value, proc) else st)
    case For(init, test, after, body) =>
      var st1 := st + [Env(map["break" := Cont(k), "continue" := Cont(Frame(AfterBody(test, after, body), |st|, k))], env)];
      var a := Evaluate(d, n, Expression(init), |st|, Frame(BeforeTest(test, after, body), |st|, k), st1);
      Catch(if a.Gives? then Evaluate(d, n, Loop(test, after, body), |st|, k, a.st) else a, k)
    case Break =>
      var c := EnvLookup(st, env, "break");
      if c.Cont? then Jumps(c.k, Plain(Const(FALSE)), st) else Gives(Plain(Const(FALSE)), st)
    case Continue =>
      var c := EnvLookup(st, env, "continue");
      if c.Cont? then Jumps(c.k, Plain(Const(TRUE)), st) else Gives(Plain(Const(TRUE)), st)
    case CallCc(proc) =>
      var p := if proc.Ref? then EnvLookup(st, env, proc.name) else if proc.Lit? then Plain(proc.lit) else Plain(Const(UNDEF));
      if p.Proc? then EvaluateCall(d, n, p.(lambda := true), [Cont(k)], env, k, st) else Fails
  }

  function EvaluateCall(d: Natives, n: nat, proc: Value, args: seq<Value>, env: nat, k: Kont, st: Store): Answer
    requires proc.Proc?
    decreases n, 1
  {
    match Enter(proc, args, env, k, st)
    case None => Fails
    case Some(st1) => Catch(Evaluate(d, n, InOrder(proc.body), |st|, k, st1), k)
  }

  datatype Rest = Done(v: Value, st: Store) | ToDo(t: Task)

  /** What is left of the construct a frame belongs to, once the frame is given `v`: the way back
      into a construct that has been left. */
  function Onward(job: Job, v: Value, env: nat, st: Store): Rest {
    match job
    case Sentences(rest) => if rest == [] then Done(v, st) else ToDo(InOrder(rest))
    case Subject(rest) => ToDo(Clauses(v, Split(rest)))
    case ClauseList(_, rest) => ToDo(Clauses(v, rest))
    case Args(subj, rest, evaled) => ToDo(Arguments(subj, rest, Reverse(evaled) + [v]))
    case AfterIf(yes, no) =>
      if !IsFalse(v) then ToDo(InOrder(yes)) else if no != [] then ToDo(InOrder(no)) else Done(Plain(Const(FALSE)), st)
    case AfterCond(action, rest) => ToDo(if !IsFalse(v) then InOrder(action) else FirstTrue(rest))
    case AfterAnd(rest) => if IsFalse(v) || v == Plain(Const(NIL)) then Done(Plain(Const(FALSE)), st) else ToDo(AllOf(rest))
    case AfterOr(rest) => if !IsFalse(v) then Done(Plain(Const(TRUE)), st) else ToDo(AnyOf(rest))
    case AfterLet(name) => Done(Plain(Const(TRUE)), EnvDefine(st, env, name, v))
    case BeforeTest(test, after, body) => ToDo(Loop(test, after, body))
    case AfterTest(test, after, body) => if IsFalse(v) then Done(Plain(Const(TRUE)), st) else ToDo(Round(test, after, body))
    case AfterBody(test, after, body) => ToDo(Advance(test, after, body))
  }

  function Reenter(d: Natives, fuel: nat, job: Job, v: Value, env: nat, k: Kont, st: Store): Answer {
    match Onward(job, v, env, st)
    case Done(w, st1) => Gives(w, st1)
    case ToDo(t) => Evaluate(d, fuel, t, env, k, st)
  }

  /** What becomes of the whole program when `k` is given `v`. */
  function Resume(d: Natives, fuel: nat, v: Value, k: Kont, st: Store): (a: Answer)
    ensures !a.Jumps?
    decreases fuel, 0
  {
    if k.Return? then Gives(v, st)
    else if fuel == 0 then Unfinished
    else Settle(d, fuel - 1, Reenter(d, fuel - 1, k.job, v, k.env, k.next, st), k.next)
  }

  /** What becomes of the whole program when something whose continuation is `k` answers `a`. */
  function Settle(d: Natives, fuel: nat, a: Answer, k: Kont): (b: Answer)
    ensures !b.Jumps?
    decreases fuel, 1
  {
    match a
    case Gives(v, st) => Resume(d, fuel, v, k, st)
    case Jumps(to, v, st) => Resume(d, fuel, v, to, st)
    case Fails => Fails
    case Unfinished => Unfinished
  }

  /** The meaning of a program: its last sentence's value, with `return` at the top ending it. */
  function Meaning(d: Natives, fuel: nat, program: seq<Expr>, root: nat, st: Store): (a: Answer)
    ensures !a.Jumps?
  {
    Settle(d, fuel, Evaluate(d, fuel, InOrder(program), root, Return, EnvDefine(st, root, "return", Cont(Return))), Return)
  }
}
