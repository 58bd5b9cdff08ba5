/** No run of the interpreter refers to an environment that was not made, and scopes nest. */
module Scopes {
  import opened Lists
  import opened Kana
  import opened Agreement

  /** Every environment a value refers to is one of the first n. */
  predicate ValueOk(v: Value, n: nat) {
    match v
    case Plain(_) => true
    case List(items) => forall i <- items :: ValueOk(i, n)
    case Native(_) => true
    case Proc(_, _, _, env, _) => env < n
    case Cont(k) => KontOk(k, n)
  }

  predicate KontOk(k: Kont, n: nat) {
    k.Frame? ==>
      k.env < n && KontOk(k.next, n)
      && (k.job.ClauseList? ==> ValueOk(k.job.subj, n))
      && (k.job.Args? ==> ValueOk(k.job.subj, n) && forall v <- k.job.evaled :: ValueOk(v, n))
  }

  predicate BindingsOk(b: map<string, Value>, n: nat) { forall x <- b :: ValueOk(b[x], n) }

  /** A parent is an older environment. */
  predicate EnvOk(st: Store, i: nat)
    requires i < |st|
  {
    st[i].parent < i && BindingsOk(st[i].bindings, |st|)
  }

  predicate StoreOk(st: Store) { forall i: nat | i < |st| :: EnvOk(st, i) }

  predicate StateOk(s: State) {
    match s
    case Eval(_, env, k, st) => env < |st| && KontOk(k, |st|) && StoreOk(st)
    case Body(_, env, k, st) => env < |st| && KontOk(k, |st|) && StoreOk(st)
    case Verb(subj, _, env, k, st) => ValueOk(subj, |st|) && env < |st| && KontOk(k, |st|) && StoreOk(st)
    case Applying(subj, args, env, k, st) =>
      ValueOk(subj, |st|) && AllOk(args, |st|) && env < |st| && KontOk(k, |st|) && StoreOk(st)
    case Run(v, k, st) => ValueOk(v, |st|) && KontOk(k, |st|) && StoreOk(st)
    case Landed(v, st) => ValueOk(v, |st|) && StoreOk(st)
    case Stuck => true
  }

  predicate AllOk(vs: seq<Value>, n: nat) { forall v <- vs :: ValueOk(v, n) }

  /** Built-in procedures make no references of their own. */
  ghost predicate NativesOk(d: Natives) {
    forall id, args, n: nat :: AllOk(args, n) ==> ValueOk(d(id, args), n)
  }

  // ---------- more environments ----------

  lemma {:induction false} ValueStaysOk(v: Value, n: nat, m: nat)
    requires ValueOk(v, n) && n <= m
    ensures ValueOk(v, m)
    decreases v
  {
    if v.List? {
      forall i <- v.items ensures ValueOk(i, m) {
        ValueStaysOk(i, n, m);
      }
    } else if v.Cont? {
      KontStaysOk(v.k, n, m);
    }
  }

  lemma {:induction false} KontStaysOk(k: Kont, n: nat, m: nat)
    requires KontOk(k, n) && n <= m
    ensures KontOk(k, m)
    decreases k
  {
    if k.Frame? {
      KontStaysOk(k.next, n, m);
      if k.job.ClauseList? {
        ValueStaysOk(k.job.subj, n, m);
      } else if k.job.Args? {
        ValueStaysOk(k.job.subj, n, m);
        forall v <- k.job.evaled ensures ValueOk(v, m) {
          ValueStaysOk(v, n, m);
        }
      }
    }
  }

  lemma BindingsStayOk(b: map<string, Value>, n: nat, m: nat)
    requires BindingsOk(b, n) && n <= m
    ensures BindingsOk(b, m)
  {
    forall x <- b ensures ValueOk(b[x], m) {
      ValueStaysOk(b[x], n, m);
    }
  }

  lemma NewEnv(st: Store, e: EnvOf<Kont>)
    requires StoreOk(st) && e.parent < |st| && BindingsOk(e.bindings, |st| + 1)
    ensures StoreOk(st + [e])
  {
    forall i: nat | i < |st| + 1 ensures EnvOk(st + [e], i) {
      if i < |st| {
        assert EnvOk(st, i);
        BindingsStayOk(st[i].bindings, |st|, |st| + 1);
      }
    }
  }

  lemma Defined(st: Store, e: nat, name: string, v: Value)
    requires StoreOk(st) && ValueOk(v, |st|)
    ensures StoreOk(EnvDefine(st, e, name, v)) && |EnvDefine(st, e, name, v)| == |st|
  {
    var st1 := EnvDefine(st, e, name, v);
    forall i: nat | i < |st| ensures EnvOk(st1, i) {
      assert EnvOk(st, i);
    }
  }

  lemma {:induction false} LookedUp(st: Store, e: int, name: string)
    requires StoreOk(st)
    ensures ValueOk(EnvLookup(st, e, name), |st|)
    decreases if e < 0 then 0 else e
  {
    if 0 <= e < |st| {
      assert EnvOk(st, e);
      if st[e].parent >= 0 {
        LookedUp(st, st[e].parent, name);
      }
    }
  }

  lemma {:induction false} Captured(st: Store, from: nat, names: seq<string>, b: map<string, Value>)
    requires StoreOk(st) && BindingsOk(b, |st|)
    ensures BindingsOk(Capture(st, from, names, b), |st|)
    decreases |names|
  {
    if names != [] {
      LookedUp(st, from, names[0]);
      Captured(st, from, names[1..], b[names[0] := EnvLookup(st, from, names[0])]);
    }
  }

  lemma {:induction false} Bound(params: seq<string>, args: seq<Value>, b: map<string, Value>, n: nat)
    requires AllOk(args, n) && BindingsOk(b, n)
    ensures var r := BindParams(params, args, b); r.Some? ==> BindingsOk(r.value, n)
    decreases |params|
  {
    if params != [] && args != [] {
      var v := if |params| == 1 && |args| > 1 then List(args) else args[0];
      assert ValueOk(v, n);
      Bound(params[1..], args[1..], b[params[0] := v], n);
    }
  }

  lemma CallOk(proc: Value, args: seq<Value>, env: nat, k: Kont, st: Store)
    requires proc.Proc? && ValueOk(proc, |st|) && AllOk(args, |st|) && env < |st| && KontOk(k, |st|) && StoreOk(st)
    ensures StateOk(CallStep(proc, args, env, k, st))
  {
    var start: map<string, Value> := map["return" := Cont(k)];
    var from := if proc.lambda then env else proc.env;
    Captured(st, from, proc.capture, start);
    var b := Capture(st, from, proc.capture, start);
    Bound(proc.params, args, b, |st|);
    var r := BindParams(proc.params, args, b);
    if r.Some? {
      BindingsStayOk(r.value, |st|, |st| + 1);
      NewEnv(st, Env(r.value, if proc.lambda then proc.env else env));
      KontStaysOk(k, |st|, |st| + 1);
    }
  }

  // ---------- one step ----------

  lemma PushOk(job: Job, env: nat, k: Kont, n: nat)
    requires env < n && KontOk(k, n) && !job.ClauseList? && !job.Args?
    ensures KontOk(Frame(job, env, k), n)
  {
  }

  lemma EvalOk(e: Expr, env: nat, k: Kont, st: Store)
    requires env < |st| && KontOk(k, |st|) && StoreOk(st)
    ensures StateOk(EvalStep(e, env, k, st))
  {
    hide StoreOk, EnvLookup, EnvDefine, CallStep, BindingsOk, KontOk, AllOk, ValueOk;
    match e
    case Lit(lit) => PlainOk(lit, |st|);
    case Ref(name) => LookedUp(st, env, name);
    case Call(words) =>
      if words != [] {
        PushOk(Subject([Lit(Mark(Apply))] + words[1..]), env, k, |st|);
      }
    case Do(_) =>
    case Blk(_) =>
      BlkOk(st, env);
      KontStaysOk(k, |st|, |st| + 1);
    case Let(name, _) =>
      PlainOk(Const(UKN), |st|);
      PlainOk(Const(TRUE), |st|);
      Defined(st, env, name, Plain(Const(UKN)));
      PushOk(AfterLet(name), env, k, |st|);
    case If(_, yes, no) => PushOk(AfterIf(yes, no), env, k, |st|);
    case Cond(clauses) =>
      if clauses != [] {
        PushOk(AfterCond(clauses[0].action, clauses[1..]), env, k, |st|);
      }
    case And(tests) =>
      if tests != [] {
        PushOk(AfterAnd(tests[1..]), env, k, |st|);
      }
    case Or(tests) =>
      if tests != [] {
        PushOk(AfterOr(tests[1..]), env, k, |st|);
      }
    case Lambda(lambda, procName, params, capture, body) =>
      var proc := Proc(lambda, params, body, env, capture);
      ProcOk(proc, |st|);
      if procName.Some? {
        Defined(st, env, procName.value, proc);
      }
    case For(_, test, after, body) =>
      KontStaysOk(k, |st|, |st| + 1);
      LoopOk(test, after, body, env, k, st);
      PushOk(BeforeTest(test, after, body), |st|, k, |st| + 1);
    case Break => JumpOk(FALSE, "break", env, k, st);
    case Continue => JumpOk(TRUE, "continue", env, k, st);
    case CallCc(proc) => CallCcOk(proc, env, k, st);
  }

  lemma PlainOk(lit: Literal, n: nat)
    ensures ValueOk(Plain(lit), n)
  {
  }

  lemma ProcOk(proc: Value, n: nat)
    requires proc.Proc? && proc.env < n
    ensures ValueOk(proc, n)
  {
  }

  lemma JumpOk(c: Constant, name: string, env: nat, k: Kont, st: Store)
    requires env < |st| && KontOk(k, |st|) && StoreOk(st)
    ensures var v := EnvLookup(st, env, name); StateOk(Run(Plain(Const(c)), if v.Cont? then v.k else k, st))
  {
    LookedUp(st, env, name);
  }

  lemma CallCcOk(proc: Expr, env: nat, k: Kont, st: Store)
    requires env < |st| && KontOk(k, |st|) && StoreOk(st)
    ensures StateOk(EvalStep(CallCc(proc), env, k, st))
  {
    hide StoreOk, EnvLookup, CallStep;
    if proc.Ref? {
      LookedUp(st, env, proc.name);
      var p := EnvLookup(st, env, proc.name);
      if p.Proc? {
        CallOk(p.(lambda := true), [Cont(k)], env, k, st);
      }
    }
  }

  lemma BlkOk(st: Store, env: nat)
    requires StoreOk(st) && env < |st|
    ensures StoreOk(st + [Env(map[], env)])
  {
    NewEnv(st, Env(map[], env));
  }

  lemma LoopOk(test: Expr, after: Expr, body: seq<Expr>, env: nat, k: Kont, st: Store)
    requires env < |st| && KontOk(k, |st| + 1) && StoreOk(st)
    ensures StoreOk(st + [Env(map["break" := Cont(k), "continue" := Cont(Frame(AfterBody(test, after, body), |st|, k))], env)])
  {
    var again := Cont(Frame(AfterBody(test, after, body), |st|, k));
    assert KontOk(again.k, |st| + 1);
    assert ValueOk(Cont(k), |st| + 1) && ValueOk(again, |st| + 1);
    NewEnv(st, Env(map["break" := Cont(k), "continue" := again], env));
  }

  lemma {:induction false} ReversedOk(vs: seq<Value>, n: nat)
    requires AllOk(vs, n)
    ensures AllOk(Reverse(vs), n)
  {
    if vs != [] {
      ReversedOk(vs[1..], n);
    }
  }

  lemma ResumeOk(v: Value, k: Kont, st: Store)
    requires ValueOk(v, |st|) && KontOk(k, |st|) && StoreOk(st)
    ensures StateOk(RunStep(v, k, st))
  {
    hide StoreOk, EnvDefine, Split, Reverse;
    if k.Frame? && k.job.AfterLet? {
      Defined(st, k.env, k.job.name, v);
    } else if k.Frame? && k.job.Args? {
      assert AllOk([v] + k.job.evaled, |st|);
      ReversedOk([v] + k.job.evaled, |st|);
    }
  }

  lemma AppliedOk(d: Natives, subj: Value, args: seq<Value>, env: nat, k: Kont, st: Store)
    requires NativesOk(d) && ValueOk(subj, |st|) && AllOk(args, |st|) && env < |st| && KontOk(k, |st|) && StoreOk(st)
    ensures StateOk(ApplyStep(d, subj, args, env, k, st))
  {
    hide StoreOk, CallStep;
    if args != [] {
      assert AllOk(args[1..], |st|);
      if subj.Proc? {
        CallOk(subj, args[1..], env, k, st);
      }
    }
  }

  /** Every step keeps all references to environments within those that exist. */
  lemma StepIsScoped(d: Natives, s: State)
    requires NativesOk(d) && StateOk(s)
    ensures StateOk(Step(d, s))
  {
    hide StoreOk, EvalStep, RunStep, ApplyStep;
    match s
    case Eval(e, env, k, st) => EvalOk(e, env, k, st);
    case Body(_, _, _, _) =>
    case Verb(_, _, _, _, _) =>
    case Applying(subj, args, env, k, st) => AppliedOk(d, subj, args, env, k, st);
    case Run(v, k, st) => ResumeOk(v, k, st);
    case Landed(_, _) =>
    case Stuck =>
  }

  lemma {:induction false} RunsAreScoped(d: Natives, n: nat, s: State)
    requires NativesOk(d) && StateOk(s)
    ensures StateOk(Steps(d, n, s))
  {
    if n > 0 {
      StepIsScoped(d, s);
      RunsAreScoped(d, n - 1, Step(d, s));
    }
  }

  /** So does every run of a program. */
  lemma ProgramsAreScoped(d: Natives, n: nat, program: seq<Expr>, root: nat, st: Store)
    requires NativesOk(d) && StoreOk(st) && root < |st|
    ensures StateOk(Steps(d, n, Start(program, root, st)))
  {
    Defined(st, root, "return", Cont(Return));
    RunsAreScoped(d, n, Start(program, root, st));
  }

  // ---------- scopes ----------

  /** A definition is seen in its environment, hides what the name meant outside, and touches no
      other name; a name defined as undefined is as if it were not there. */
  lemma DefinedIsFound(st: Store, e: nat, name: string, v: Value, other: string)
    requires StoreOk(st) && e < |st|
    ensures EnvLookup(EnvDefine(st, e, name, v), e, name) ==
      if v != Plain(Const(UNDEF)) then v else EnvLookup(st, st[e].parent, name)
    ensures other != name ==> EnvLookup(EnvDefine(st, e, name, v), e, other) == EnvLookup(st, e, other)
  {
    assert EnvOk(st, e);
    OutsideIsKept(st, e, name, v, st[e].parent, name);
    OutsideIsKept(st, e, name, v, st[e].parent, other);
  }

  /** Older environments do not see a newer one's definitions. */
  lemma {:induction false} OutsideIsKept(st: Store, e: nat, name: string, v: Value, from: int, other: string)
    requires StoreOk(st) && e < |st| && from < e
    ensures EnvLookup(EnvDefine(st, e, name, v), from, other) == EnvLookup(st, from, other)
    decreases if from < 0 then 0 else from + 1
  {
    if from >= 0 {
      assert EnvOk(st, from);
      OutsideIsKept(st, e, name, v, st[from].parent, other);
    }
  }
}
