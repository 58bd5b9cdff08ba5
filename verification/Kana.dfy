/** The Kana interpreter as a machine: expressions, values, continuation frames, environments,
    and one step of the trampoline. */
module Kana {
  import opened Options
  import opened Lists

  datatype Marker = Apply | MsgSignal | ProcPipe | Assign | GetSlot | ClauseEnd

  datatype Constant = NIL | TRUE | FALSE | UKN | UNDEF

  datatype Literal =
    | Num(n: int)
    | Str(s: string)
    | Const(c: Constant)
    | Mark(m: Marker)

  /** Values, with continuations represented by K. */
  datatype ValueOf<K> =
    | Plain(lit: Literal)
    | List(items: seq<ValueOf<K>>)
    | Native(id: int)
    | Proc(lambda: bool, params: seq<string>, body: seq<Expr>, env: nat, capture: seq<string>)
    | Cont(k: K)

  type Value = ValueOf<Kont>

  /** The forms of an expression; `Call` is a list [f a b ...]. */
  datatype Expr =
    | Lit(lit: Literal)
    | Ref(name: string)
    | Call(words: seq<Expr>)
    | Do(body: seq<Expr>)
    | Blk(body: seq<Expr>)
    | Let(name: string, start: Option<Expr>)
    | If(test: Expr, yes: seq<Expr>, no: seq<Expr>)
    | Cond(clauses: seq<Clause>)
    | And(tests: seq<Expr>)
    | Or(tests: seq<Expr>)
    | Lambda(lambda: bool, procName: Option<string>, params: seq<string>, capture: seq<string>, body: seq<Expr>)
    | For(init: Expr, test: Expr, after: Expr, body: seq<Expr>)
    | Break
    | Continue
    | CallCc(proc: Expr)

  /** A clause of a cond; the word `else` stands for its test. */
  datatype Clause = Clause(isElse: bool, test: Expr, action: seq<Expr>)

  /** What a continuation does with the value it is given, before it goes on with the next one. */
  datatype Job =
    | Sentences(rest: seq<Expr>)
    | Subject(rest: seq<Expr>)
    | ClauseList(subj: Value, restClauses: seq<seq<Expr>>)
    | Args(subj: Value, restArgs: seq<Expr>, evaled: seq<Value>)
    | AfterIf(yes: seq<Expr>, no: seq<Expr>)
    | AfterCond(action: seq<Expr>, restClauses_: seq<Clause>)
    | AfterAnd(restTests: seq<Expr>)
    | AfterOr(restTests: seq<Expr>)
    | AfterLet(name: string)
    | BeforeTest(test: Expr, after: Expr, body: seq<Expr>)
    | AfterTest(test: Expr, after: Expr, body: seq<Expr>)
    | AfterBody(test: Expr, after: Expr, body: seq<Expr>)

  datatype Kont = Return | Frame(job: Job, env: nat, next: Kont)

  // ---------- environments ----------

  datatype EnvOf<K> = Env(bindings: map<string, ValueOf<K>>, parent: int)

  type EnvsOf<K> = seq<EnvOf<K>>

  type Store = EnvsOf<Kont>

  /** A binding to UNDEF is passed over; a name that is not bound anywhere is UKN. */
  function EnvLookup<K(==)>(st: EnvsOf<K>, e: int, name: string): ValueOf<K>
    decreases if e < 0 then 0 else e
  {
    if e < 0 || e >= |st| then Plain(Const(UKN))
    else if name in st[e].bindings && st[e].bindings[name] != Plain(Const(UNDEF)) then st[e].bindings[name]
    else if st[e].parent < 0 || st[e].parent >= e then Plain(Const(UKN))
    else EnvLookup(st, st[e].parent, name)
  }

  function EnvDefine<K>(st: EnvsOf<K>, e: nat, name: string, v: ValueOf<K>): EnvsOf<K> {
    if e < |st| then st[e := st[e].(bindings := st[e].bindings[name := v])] else st
  }

  /** Captured variables, looked up in `from`. */
  function Capture<K(==)>(st: EnvsOf<K>, from: nat, names: seq<string>, b: map<string, ValueOf<K>>): map<string, ValueOf<K>> {
    if names == [] then b else Capture(st, from, names[1..], b[names[0] := EnvLookup(st, from, names[0])])
  }

  /** Parameters take arguments in order; the last one takes all that are left, as a list, if
      more than one is. None: too few arguments. */
  function BindParams<K>(params: seq<string>, args: seq<ValueOf<K>>, b: map<string, ValueOf<K>>): Option<map<string, ValueOf<K>>> {
    if params == [] then Some(b)
    else if args == [] then None
    else BindParams(params[1..], args[1..], b[params[0] := if |params| == 1 && |args| > 1 then List(args) else args[0]])
  }

  /** The environment of a call: `return` is the caller's continuation, then the captured
      variables, then the parameters. A lambda's parent is the environment it was made in, and
      it captures from the caller's; for a func it is the other way round. */
  function Enter<K(==)>(proc: ValueOf<K>, args: seq<ValueOf<K>>, caller: nat, k: K, st: EnvsOf<K>): Option<EnvsOf<K>>
    requires proc.Proc?
  {
    var b: map<string, ValueOf<K>> := Capture(st, if proc.lambda then caller else proc.env, proc.capture, map["return" := Cont(k)]);
    match BindParams(proc.params, args, b)
    case None => None
    case Some(bound) => Some(st + [Env(bound, if proc.lambda then proc.env else caller)])
  }

  // ---------- clauses of a sentence ----------

  predicate IsMark(e: Expr, m: Marker) { e == Lit(Mark(m)) }

  predicate StartsClause(e: Expr) {
    IsMark(e, Apply) || IsMark(e, MsgSignal) || IsMark(e, ProcPipe) || IsMark(e, Assign)
  }

  /** A word, a list or a cell, and the empty list, are clauses by themselves. */
  predicate StandsAlone(e: Expr) {
    !e.Lit? || e.lit == Const(NIL)
  }

  /** How far a clause has come: a verb is needed, or objects up to a semicolon, or one object. */
  datatype Phase = NeedVerb | NeedObjects | NeedOne

  function SplitFrom(words: seq<Expr>, phase: Phase, clause: seq<Expr>, done: seq<seq<Expr>>): seq<seq<Expr>> {
    if words == [] then if clause == [] then done else done + [clause]
    else
      var w := words[0];
      match phase
      case NeedVerb =>
        if StartsClause(w) then SplitFrom(words[1..], NeedObjects, clause + [w], done)
        else if IsMark(w, GetSlot) then SplitFrom(words[1..], NeedOne, clause + [w], done)
        else if StandsAlone(w) then SplitFrom(words[1..], NeedVerb, clause, done + [[w]])
        else SplitFrom(words[1..], NeedObjects, clause + [w], done)
      case NeedOne => SplitFrom(words[1..], NeedVerb, [], done + [clause + [w]])
      case NeedObjects =>
        if IsMark(w, ClauseEnd) then SplitFrom(words[1..], NeedVerb, [], done + [clause])
        else SplitFrom(words[1..], NeedObjects, clause + [w], done)
  }

  function Split(words: seq<Expr>): seq<seq<Expr>> { SplitFrom(words, NeedVerb, [], []) }

  method SplitClauses(words: seq<Expr>) returns (clauses: seq<seq<Expr>>)
    requires words != []
    ensures clauses == Split(words)
  {
    clauses := [];
    var clause: seq<Expr>, state, i := [], 1, 0;
    while i < |words|
      invariant i <= |words| && 1 <= state <= 3
      invariant Split(words) == SplitFrom(words[i..], if state == 1 then NeedVerb else if state == 2 then NeedObjects else NeedOne, clause, clauses)
    {
      var item := words[i];
      assert words[i..][1..] == words[i + 1..];
      if state == 1 {
        if StartsClause(item) {
          clause, state := clause + [item], 2;
        } else if IsMark(item, GetSlot) {
          clause, state := clause + [item], 3;
        } else if StandsAlone(item) {
          clauses := clauses + [[item]];
        } else {
          clause, state := clause + [item], 2;
        }
      } else if state == 3 {
        clauses, clause, state := clauses + [clause + [item]], [], 1;
      } else if IsMark(item, ClauseEnd) {
        clauses, clause, state := clauses + [clause], [], 1;
      } else {
        clause := clause + [item];
      }
      i := i + 1;
    }
    if clause != [] {
      clauses := clauses + [clause];
    }
  }

  /** A call without semicolons is one clause. */
  lemma {:induction false} CallIsOneClause(words: seq<Expr>, clause: seq<Expr>)
    requires forall w <- words :: !IsMark(w, ClauseEnd)
    ensures SplitFrom(words, NeedObjects, clause, []) == if clause + words == [] then [] else [clause + words]
  {
    if words == [] {
      assert clause + words == clause;
    } else {
      CallIsOneClause(words[1..], clause + [words[0]]);
      assert clause + [words[0]] + words[1..] == clause + words;
    }
  }

  // ---------- the machine ----------

  type Natives = (int, seq<Value>) -> Value

  /** What the trampoline is about to do, with the store represented by S. */
  datatype StateOf<K, S> =
    | Eval(e: Expr, env: nat, k: K, st: S)
    | Body(sentences: seq<Expr>, env: nat, k: K, st: S)
    | Verb(subj: ValueOf<K>, clause: seq<Expr>, env: nat, k: K, st: S)
    | Applying(subj: ValueOf<K>, args: seq<ValueOf<K>>, env: nat, k: K, st: S)
    | Run(v: ValueOf<K>, k: K, st: S)
    | Landed(v: ValueOf<K>, st: S)
    | Stuck

  type State = StateOf<Kont, Store>

  /** The clause is led by a marker: the only kind that is evaluated here. */
  predicate IsInfix(clause: seq<Expr>) { clause != [] && clause[0].Lit? && clause[0].lit.Mark? }

  predicate IsFalse<K(==)>(v: ValueOf<K>) { v == Plain(Const(FALSE)) }

  function EvalStep(e: Expr, env: nat, k: Kont, st: Store): State {
    match e
    case Lit(lit) => Run(Plain(lit), k, st)
    case Ref(name) => Run(EnvLookup(st, env, name), k, st)
    case Call(words) =>
      if words == [] then Stuck
      else Eval(words[0], env, Frame(Subject([Lit(Mark(Apply))] + words[1..]), env, k), st)
    case Do(body) => Body(body, env, k, st)
    case Blk(body) => Body(body, |st|, k, st + [Env(map[], env)])
    case Let(name, start) =>
      (match start
       case None => Run(Plain(Const(TRUE)), k, EnvDefine(st, env, name, Plain(Const(UKN))))
       case Some(e1) => Eval(e1, env, Frame(AfterLet(name), env, k), st))
    case If(test, yes, no) => Eval(test, env, Frame(AfterIf(yes, no), env, k), st)
    case Cond(clauses) =>
      if clauses == [] then Stuck
      else if clauses[0].isElse then Body(clauses[0].action, env, k, st)
      else Eval(clauses[0].test, env, Frame(AfterCond(clauses[0].action, clauses[1..]), env, k), st)
    case And(tests) => if tests == [] then Stuck else Eval(tests[0], env, Frame(AfterAnd(tests[1..]), env, k), st)
    case Or(tests) => if tests == [] then Stuck else Eval(tests[0], env, Frame(AfterOr(tests[1..]), env, k), st)
    case Lambda(lambda, procName, params, capture, body) =>
      var proc := Proc(lambda, params, body, env, capture);
      Run(proc, k, if procName.Some? then EnvDefine(st, env, procName.value, proc) else st)
    case For(init, test, after, body) =>
      var continue_ := Cont(Frame(AfterBody(test, after, body), |st|, k));
      Eval(init, |st|, Frame(BeforeTest(test, after, body), |st|, k),
           st + [Env(map["break" := Cont(k), "continue" := continue_], env)])
    case Break =>
      var c := EnvLookup(st, env, "break");
      Run(Plain(Const(FALSE)), if c.Cont? then c.k else k, st)
    case Continue =>
      var c := EnvLookup(st, env, "continue");
      Run(Plain(Const(TRUE)), if c.Cont? then c.k else k, st)
    case CallCc(proc) =>
      var p := if proc.Ref? then EnvLookup(st, env, proc.name) else if proc.Lit? then Plain(proc.lit) else Plain(Const(UNDEF));
      if p.Proc? then CallStep(p.(lambda := true), [Cont(k)], env, k, st) else Stuck
  }

  /** The body of a procedure in its own environment. */
  function CallStep(proc: Value, args: seq<Value>, env: nat, k: Kont, st: Store): State
    requires proc.Proc?
  {
    match Enter(proc, args, env, k, st)
    case None => Stuck
    case Some(st1) => Body(proc.body, |st|, k, st1)
  }

  /** The two loops of a call: captured variables, then parameters. */
  method ApplyComposite(proc: Value, args: seq<Value>, env: nat, k: Kont, st: Store) returns (s: State)
    requires proc.Proc?
    ensures s == CallStep(proc, args, env, k, st)
  {
    var from := if proc.lambda then env else proc.env;
    var bindings: map<string, Value> := map["return" := Cont(k)];
    ghost var start := bindings;
    var captureVarIter := proc.capture;
    while captureVarIter != []
      invariant Capture(st, from, proc.capture, start) == Capture(st, from, captureVarIter, bindings)
    {
      var varName := captureVarIter[0];
      var varValue := EnvLookup(st, from, varName);
      bindings := bindings[varName := varValue];
      captureVarIter := captureVarIter[1..];
    }
    ghost var captured := bindings;
    var iterParam, iterArg := proc.params, args;
    while iterParam != []
      invariant BindParams(proc.params, args, captured) == BindParams(iterParam, iterArg, bindings)
    {
      if iterArg == [] {
        return Stuck;
      }
      var arg := iterArg[0];
      if |iterParam| == 1 && |iterArg| > 1 {
        arg := List(iterArg);
      }
      bindings := bindings[iterParam[0] := arg];
      iterParam, iterArg := iterParam[1..], iterArg[1..];
    }
    s := Body(proc.body, |st|, k, st + [Env(bindings, if proc.lambda then proc.env else env)]);
  }

  /** A subject applied to the evaluated words of a clause; the first is the marker. */
  function ApplyStep(d: Natives, subj: Value, args: seq<Value>, env: nat, k: Kont, st: Store): State {
    if args == [] || args[0] != Plain(Mark(Apply)) then Stuck
    else if subj.Cont? then if |args| > 1 then Run(args[1], subj.k, st) else Stuck
    else if subj.Native? then Run(d(subj.id, args[1..]), k, st)
    else if subj.Proc? then CallStep(subj, args[1..], env, k, st)
    else Stuck
  }

  function RunStep(v: Value, k: Kont, st: Store): State {
    if k.Return? then Landed(v, st)
    else
      var env, next := k.env, k.next;
      match k.job
      case Sentences(rest) => if rest == [] then Run(v, next, st) else Body(rest, env, next, st)
      case Subject(rest) =>
        if rest == [] then Run(v, next, st)
        else
          var clauses := Split(rest);
          if clauses == [] then Run(v, next, st)
          else Verb(v, clauses[0], env, Frame(ClauseList(v, clauses[1..]), env, next), st)
      case ClauseList(_, rest) =>
        if rest == [] then Run(v, next, st)
        else Verb(v, rest[0], env, Frame(ClauseList(v, rest[1..]), env, next), st)
      case Args(subj, rest, evaled) =>
        if rest == [] then Applying(subj, Reverse([v] + evaled), env, next, st)
        else Eval(rest[0], env, Frame(Args(subj, rest[1..], [v] + evaled), env, next), st)
      case AfterIf(yes, no) =>
        if !IsFalse(v) then Body(yes, env, next, st)
        else if no != [] then Body(no, env, next, st)
        else Run(Plain(Const(FALSE)), next, st)
      case AfterCond(action, rest) =>
        if !IsFalse(v) then Body(action, env, next, st)
        else if rest == [] then Run(Plain(Const(FALSE)), next, st)
        else if rest[0].isElse then Body(rest[0].action, env, next, st)
        else Eval(rest[0].test, env, Frame(AfterCond(rest[0].action, rest[1..]), env, next), st)
      case AfterAnd(rest) =>
        if IsFalse(v) || v == Plain(Const(NIL)) then Run(Plain(Const(FALSE)), next, st)
        else if rest == [] then Run(Plain(Const(TRUE)), next, st)
        else Eval(rest[0], env, Frame(AfterAnd(rest[1..]), env, next), st)
      case AfterOr(rest) =>
        if !IsFalse(v) then Run(Plain(Const(TRUE)), next, st)
        else if rest == [] then Run(Plain(Const(FALSE)), next, st)
        else Eval(rest[0], env, Frame(AfterOr(rest[1..]), env, next), st)
      case AfterLet(name) => Run(Plain(Const(TRUE)), next, EnvDefine(st, env, name, v))
      case BeforeTest(test, after, body) => Eval(test, env, Frame(AfterTest(test, after, body), env, next), st)
      case AfterTest(test, after, body) =>
        if !IsFalse(v) then Body(body, env, Frame(AfterBody(test, after, body), env, next), st)
        else Run(Plain(Const(TRUE)), next, st)
      case AfterBody(test, after, body) => Eval(after, env, Frame(BeforeTest(test, after, body), env, next), st)
  }

  function Step(d: Natives, s: State): State {
    match s
    case Eval(e, env, k, st) => EvalStep(e, env, k, st)
    case Body(sentences, env, k, st) =>
      if sentences == [] then Run(Plain(Const(TRUE)), k, st)
      else Eval(sentences[0], env, Frame(Sentences(sentences[1..]), env, k), st)
    case Verb(subj, clause, env, k, st) =>
      if !IsInfix(clause) then Stuck
      else Eval(clause[0], env, Frame(Args(subj, clause[1..], []), env, k), st)
    case Applying(subj, args, env, k, st) => ApplyStep(d, subj, args, env, k, st)
    case Run(v, k, st) => RunStep(v, k, st)
    case Landed(_, _) => s
    case Stuck => s
  }
}
