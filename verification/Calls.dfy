/** What names mean inside a procedure, a block and a loop: looked up in the store that the step into
    the body leaves. */
module Calls {
  import opened Options
  import opened Kana

  // ---------- stores that grow ----------

  /** The older environments mean what they did. */
  lemma {:induction false} OlderSeesTheSame(st: Store, more: Store, e: int, name: string)
    requires e < |st|
    ensures EnvLookup(st + more, e, name) == EnvLookup(st, e, name)
    decreases if e < 0 then 0 else e
  {
    if e >= 0 && 0 <= st[e].parent < e {
      OlderSeesTheSame(st, more, st[e].parent, name);
    }
  }

  /** A name never means UNDEF. */
  lemma {:induction false} NeverUndefined(st: Store, e: int, name: string)
    ensures EnvLookup(st, e, name) != Plain(Const(UNDEF))
    decreases if e < 0 then 0 else e
  {
    if 0 <= e < |st| && 0 <= st[e].parent < e {
      NeverUndefined(st, st[e].parent, name);
    }
  }

  /** A name in a new environment: its binding there, or what it means in the environment around. */
  lemma NewEnvSees(st: Store, bindings: map<string, Value>, parent: nat, name: string)
    requires parent < |st|
    ensures EnvLookup(st + [Env(bindings, parent)], |st|, name) ==
      if name in bindings && bindings[name] != Plain(Const(UNDEF)) then bindings[name] else EnvLookup(st, parent, name)
  {
    OlderSeesTheSame(st, [Env(bindings, parent)], parent, name);
  }

  // ---------- bindings of a call ----------

  /** What parameter i is given: argument i, or, for the last one, all that are left if more than one is. */
  function Given(params: seq<string>, args: seq<Value>, i: nat): Value
    requires i < |params| <= |args|
  {
    if i == |params| - 1 && |args| > |params| then List(args[i..]) else args[i]
  }

  /** Parameter i is called `name`, and no later one is. */
  predicate LastNamed(params: seq<string>, i: nat, name: string) {
    i < |params| && params[i] == name && name !in params[i + 1..]
  }

  lemma {:induction false} ParamsBound(params: seq<string>, args: seq<Value>, b: map<string, Value>, name: string)
    ensures BindParams(params, args, b) == None <==> |args| < |params|
    ensures |args| >= |params| ==>
      var m := BindParams(params, args, b).value;
      && (name !in params ==> (name in m <==> name in b) && (name in m ==> m[name] == b[name]))
      && forall i: nat | LastNamed(params, i, name) :: name in m && m[name] == Given(params, args, i)
    decreases |params|
  {
    if params != [] && args != [] {
      var v := if |params| == 1 && |args| > 1 then List(args) else args[0];
      var b1 := b[params[0] := v];
      ParamsBound(params[1..], args[1..], b1, name);
      if |args| >= |params| {
        assert args[0..] == args;
        forall i: nat | LastNamed(params, i, name)
          ensures name in BindParams(params, args, b).value && BindParams(params, args, b).value[name] == Given(params, args, i)
        {
          if i == 0 {
            assert v == Given(params, args, 0);
          } else {
            assert params[1..][i..] == params[i + 1..] && args[1..][i - 1..] == args[i..];
            assert LastNamed(params[1..], i - 1, name);
            assert Given(params[1..], args[1..], i - 1) == Given(params, args, i);
          }
        }
      }
    }
  }

  lemma {:induction false} CapturesBound(st: Store, from: nat, names: seq<string>, b: map<string, Value>, name: string)
    ensures var m := Capture(st, from, names, b);
      if name in names then name in m && m[name] == EnvLookup(st, from, name)
      else (name in m <==> name in b) && (name in m ==> m[name] == b[name])
    decreases |names|
  {
    hide EnvLookup;
    if names != [] {
      CapturesBound(st, from, names[1..], b[names[0] := EnvLookup(st, from, names[0])], name);
    }
  }

  // ---------- inside a procedure ----------

  /** A call with enough arguments goes on with the body in an environment of its own; the others stay. */
  lemma CallEnters(proc: Value, args: seq<Value>, env: nat, k: Kont, st: Store)
    requires proc.Proc?
    ensures var s := CallStep(proc, args, env, k, st);
      if |args| < |proc.params| then s.Stuck?
      else s.Body? && s.sentences == proc.body && s.env == |st| && s.k == k && |s.st| == |st| + 1 && s.st[..|st|] == st
  {
    var b: map<string, Value> := Capture(st, if proc.lambda then env else proc.env, proc.capture, map["return" := Cont(k)]);
    ParamsBound(proc.params, args, b, "");
  }

  /** The environment around the body: where a lambda was made, where a func is called. */
  function Around(proc: Value, env: nat): nat
    requires proc.Proc?
  {
    if proc.lambda then proc.env else env
  }

  /** The environment a procedure captures from: where a lambda is called, where a func was made. */
  function Across(proc: Value, env: nat): nat
    requires proc.Proc?
  {
    if proc.lambda then env else proc.env
  }

  /** What a name means when the body of a procedure begins: a parameter is what it was given, a captured
      name what it means across, `return` the continuation of the call, and any other name what it means
      around the body. In every older environment it means what it did. */
  lemma BodySees(proc: Value, args: seq<Value>, env: nat, k: Kont, st: Store, name: string)
    requires proc.Proc? && |args| >= |proc.params| && proc.env < |st| && env < |st|
    ensures var s := CallStep(proc, args, env, k, st);
      s.Body?
      && var seen := EnvLookup(s.st, s.env, name);
         && (name !in proc.params && name !in proc.capture && name != "return" ==> seen == EnvLookup(st, Around(proc, env), name))
         && (name !in proc.params && name in proc.capture ==> seen == EnvLookup(st, Across(proc, env), name))
         && (name !in proc.params && name !in proc.capture && name == "return" ==> seen == Cont(k))
         && (forall i: nat | LastNamed(proc.params, i, name) ::
               seen == if Given(proc.params, args, i) == Plain(Const(UNDEF)) then EnvLookup(st, Around(proc, env), name) else Given(proc.params, args, i))
         && forall e: nat | e < |st| :: EnvLookup(s.st, e, name) == EnvLookup(st, e, name)
  {
    hide EnvLookup, Given;
    var start: map<string, Value> := map["return" := Cont(k)];
    var b: map<string, Value> := Capture(st, Across(proc, env), proc.capture, start);
    CapturesBound(st, Across(proc, env), proc.capture, start, name);
    NeverUndefined(st, Across(proc, env), name);
    ParamsBound(proc.params, args, b, name);
    var bound := BindParams(proc.params, args, b).value;
    var added := Env(bound, Around(proc, env));
    assert CallStep(proc, args, env, k, st) == Body(proc.body, |st|, k, st + [added]);
    NewEnvSees(st, bound, Around(proc, env), name);
    forall e: nat | e < |st| ensures EnvLookup(st + [added], e, name) == EnvLookup(st, e, name) {
      OlderSeesTheSame(st, [added], e, name);
    }
  }

  // ---------- inside a block and a loop ----------

  /** In a block every name means what it means outside, until something is defined there. */
  lemma BlockSees(body: seq<Expr>, env: nat, k: Kont, st: Store, name: string)
    requires env < |st|
    ensures var s := EvalStep(Blk(body), env, k, st);
      s.Body? && s.env == |st| && EnvLookup(s.st, s.env, name) == EnvLookup(st, env, name)
      && forall e: nat | e < |st| :: EnvLookup(s.st, e, name) == EnvLookup(st, e, name)
  {
    hide EnvLookup;
    NewEnvSees(st, map[], env, name);
    forall e: nat | e < |st| ensures EnvLookup(st + [Env(map[], env)], e, name) == EnvLookup(st, e, name) {
      OlderSeesTheSame(st, [Env(map[], env)], e, name);
    }
  }

  /** In a loop `break` leads out of it, `continue` to what comes after its body, and every other name
      means what it means outside. */
  lemma LoopSees(init: Expr, test: Expr, after: Expr, body: seq<Expr>, env: nat, k: Kont, st: Store, name: string)
    requires env < |st|
    ensures var s := EvalStep(For(init, test, after, body), env, k, st);
      s.Eval? && s.env == |st|
      && EnvLookup(s.st, s.env, name) ==
         if name == "break" then Cont(k)
         else if name == "continue" then Cont(Frame(AfterBody(test, after, body), |st|, k))
         else EnvLookup(st, env, name)
  {
    hide EnvLookup;
    NewEnvSees(st, map["break" := Cont(k), "continue" := Cont(Frame(AfterBody(test, after, body), |st|, k))], env, name);
  }
}
