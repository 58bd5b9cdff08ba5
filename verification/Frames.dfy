/** The same machine with its continuation frames and memo tables in a store: what a step allocates
    and clones, and what it leaves alone. */
module Frames {
  import opened Options
  import opened Lists
  import opened Kana
  import opened TableItems

  /** What a memo table keeps for a callback. */
  datatype MemoVal = OneExpr(e: Expr) | Exprs(l: seq<Expr>) | Pairs(clauses: seq<Clause>) | VarName(name: string)

  type Items = seq<Item<MemoVal>>

  /** A memo table, and whether it is a shadow clone. */
  datatype Memo = Memo(items: Items, cloned: bool)

  datatype Callback =
    | AfterIfConditionEvaled
    | AfterCondClauseEvaled
    | AfterAndConditionEvaled
    | AfterOrConditionEvaled
    | AfterLetValExprEvaled
    | BeforeForPrediction
    | AfterForPrediction
    | AfterForBodyEvaled

  /** What a frame keeps; values refer to frames by number, callbacks to memo tables. */
  datatype Work =
    | EvalSentenceList(rest: seq<Expr>)
    | EvalSubj(restWords: seq<Expr>)
    | EvalClauseList(subj: ValueOf<nat>, restClauses: seq<seq<Expr>>)
    | EvalClauseArgs(subj: ValueOf<nat>, restArgs: seq<Expr>, evaled: seq<ValueOf<nat>>)
    | NativeCallback(callback: Callback, memo: nat)

  datatype FrameRec = ReturnFrame | FrameRec(work: Work, env: nat, next: nat)

  datatype Heap = Heap(frames: seq<FrameRec>, memos: seq<Memo>, envs: EnvsOf<nat>)

  type HState = StateOf<nat, Heap>

  type HNatives = (int, seq<ValueOf<nat>>) -> ValueOf<nat>

  // ---------- memo tables ----------

  /** Every memo table is made with 2^4 asked for. */
  const MemoBuckets := 32

  function ReadMemo(p: Fingerprints, m: Memo, key: string): Found<MemoVal> {
    if m.cloned then ReadPushed(p, MemoBuckets, m.items, key) else ReadPut(p, m.items, key)
  }

  /** None: cloning does not end. */
  function CloneMemo(p: Fingerprints, m: Memo): Option<Memo> {
    if CanPushAll(p, MemoBuckets, m.items) then Some(Memo(m.items, true)) else None
  }

  function Memo1(p: Fingerprints, key: string, v: MemoVal): Memo { Memo(Put(p, [], key, v), false) }

  function Memo2(p: Fingerprints, key1: string, v1: MemoVal, key2: string, v2: MemoVal): Memo {
    Memo(Put(p, Put(p, [], key1, v1), key2, v2), false)
  }

  function ForMemo(p: Fingerprints, test: Expr, after: Expr, body: seq<Expr>): Memo {
    Memo(Put(p, Put(p, Put(p, [], "PredictExpr", OneExpr(test)), "AfterExpr", OneExpr(after)), "BodyExprs", Exprs(body)), false)
  }

  // ---------- one step ----------

  function Alloc(h: Heap, work: Work, env: nat, next: nat): Heap { h.(frames := h.frames + [FrameRec(work, env, next)]) }

  /** A native frame with a memo table of its own. */
  function AllocCallback(h: Heap, callback: Callback, m: Memo, env: nat, next: nat): Heap {
    Alloc(h.(memos := h.memos + [m]), NativeCallback(callback, |h.memos|), env, next)
  }

  function Define(h: Heap, env: nat, name: string, v: ValueOf<nat>): Heap { h.(envs := EnvDefine(h.envs, env, name, v)) }

  /** `e` under a new frame. */
  function EvalUnder(e: Expr, env: nat, work: Work, k: nat, h: Heap): HState {
    Eval(e, env, |h.frames|, Alloc(h, work, env, k))
  }

  function EvalWith(e: Expr, env: nat, callback: Callback, m: Memo, k: nat, h: Heap): HState {
    Eval(e, env, |h.frames|, AllocCallback(h, callback, m, env, k))
  }

  function HEvalStep(p: Fingerprints, e: Expr, env: nat, k: nat, h: Heap): HState {
    match e
    case Lit(lit) => Run(Plain(lit), k, h)
    case Ref(name) => Run(EnvLookup(h.envs, env, name), k, h)
    case Call(words) =>
      if words == [] then Stuck else EvalUnder(words[0], env, EvalSubj([Lit(Mark(Apply))] + words[1..]), k, h)
    case Do(body) => Body(body, env, k, h)
    case Blk(body) => Body(body, |h.envs|, k, h.(envs := h.envs + [Env(map[], env)]))
    case Let(name, start) =>
      (match start
       case None => Run(Plain(Const(TRUE)), k, Define(h, env, name, Plain(Const(UKN))))
       case Some(e1) => EvalWith(e1, env, AfterLetValExprEvaled, Memo1(p, "VarName", VarName(name)), k, h))
    case If(test, yes, no) =>
      EvalWith(test, env, AfterIfConditionEvaled, Memo2(p, "TrueClause", Exprs(yes), "FalseClause", Exprs(no)), k, h)
    case Cond(clauses) => if clauses == [] then Stuck else CondStep(p, clauses, env, k, h)
    case And(tests) =>
      if tests == [] then Stuck
      else EvalWith(tests[0], env, AfterAndConditionEvaled, Memo1(p, "RestCondition", Exprs(tests[1..])), k, h)
    case Or(tests) =>
      if tests == [] then Stuck
      else EvalWith(tests[0], env, AfterOrConditionEvaled, Memo1(p, "RestCondition", Exprs(tests[1..])), k, h)
    case Lambda(lambda, procName, params, capture, body) =>
      var proc := Proc(lambda, params, body, env, capture);
      Run(proc, k, if procName.Some? then Define(h, env, procName.value, proc) else h)
    case For(init, test, after, body) => ForStep(p, init, test, after, body, env, k, h)
    case Break =>
      var c: ValueOf<nat> := EnvLookup(h.envs, env, "break");
      Run(Plain(Const(FALSE)), if c.Cont? then c.k else k, h)
    case Continue =>
      var c: ValueOf<nat> := EnvLookup(h.envs, env, "continue");
      Run(Plain(Const(TRUE)), if c.Cont? then c.k else k, h)
    case CallCc(proc) =>
      var q: ValueOf<nat> := if proc.Ref? then EnvLookup(h.envs, env, proc.name) else if proc.Lit? then Plain(proc.lit) else Plain(Const(UNDEF));
      if q.Proc? then HCallStep(q.(lambda := true), [Cont(k)], env, k, h) else Stuck
  }

  function CondStep(p: Fingerprints, clauses: seq<Clause>, env: nat, k: nat, h: Heap): HState
    requires clauses != []
  {
    if clauses[0].isElse then Body(clauses[0].action, env, k, h)
    else EvalWith(clauses[0].test, env, AfterCondClauseEvaled,
                  Memo2(p, "RestPairs", Pairs(clauses[1..]), "IfTrue", Exprs(clauses[0].action)), k, h)
  }

  /** A loop has an environment, a frame for its start, and one for `continue` with a clone of the
      memo table. */
  function ForStep(p: Fingerprints, init: Expr, test: Expr, after: Expr, body: seq<Expr>, env: nat, k: nat, h: Heap): HState {
    var memo, loopEnv := ForMemo(p, test, after, body), |h.envs|;
    match CloneMemo(p, memo)
    case None => Stuck
    case Some(copy) =>
      var h1 := AllocCallback(h, BeforeForPrediction, memo, loopEnv, k);
      var h2 := AllocCallback(h1, AfterForBodyEvaled, copy, loopEnv, k);
      Eval(init, loopEnv, |h.frames|,
           h2.(envs := h.envs + [Env(map["break" := Cont(k), "continue" := Cont(|h1.frames|)], env)]))
  }

  function HCallStep(proc: ValueOf<nat>, args: seq<ValueOf<nat>>, env: nat, k: nat, h: Heap): HState
    requires proc.Proc?
  {
    match Enter(proc, args, env, k, h.envs)
    case None => Stuck
    case Some(envs1) => Body(proc.body, |h.envs|, k, h.(envs := envs1))
  }

  function HApplyStep(d: HNatives, subj: ValueOf<nat>, args: seq<ValueOf<nat>>, env: nat, k: nat, h: Heap): HState {
    if args == [] || args[0] != Plain(Mark(Apply)) then Stuck
    else if subj.Cont? then if |args| > 1 then Run(args[1], subj.k, h) else Stuck
    else if subj.Native? then Run(d(subj.id, args[1..]), k, h)
    else if subj.Proc? then HCallStep(subj, args[1..], env, k, h)
    else Stuck
  }

  /** A value given to a frame. */
  function HRunStep(p: Fingerprints, v: ValueOf<nat>, k: nat, h: Heap): HState {
    if k >= |h.frames| then Stuck
    else if h.frames[k].ReturnFrame? then Landed(v, h)
    else
      var env, next := h.frames[k].env, h.frames[k].next;
      match h.frames[k].work
      case EvalSentenceList(rest) => if rest == [] then Run(v, next, h) else Body(rest, env, next, h)
      case EvalSubj(rest) =>
        if rest == [] then Run(v, next, h)
        else
          var clauses := Split(rest);
          if clauses == [] then Run(v, next, h)
          else Verb(v, clauses[0], env, |h.frames|, Alloc(h, EvalClauseList(v, clauses[1..]), env, next))
      case EvalClauseList(_, rest) =>
        if rest == [] then Run(v, next, h)
        else Verb(v, rest[0], env, |h.frames|, Alloc(h, EvalClauseList(v, rest[1..]), env, next))
      case EvalClauseArgs(subj, rest, evaled) =>
        if rest == [] then Applying(subj, Reverse([v] + evaled), env, next, h)
        else EvalUnder(rest[0], env, EvalClauseArgs(subj, rest[1..], [v] + evaled), next, h)
      case NativeCallback(callback, memo) => if memo < |h.memos| then CallbackStep(p, callback, v, memo, env, next, h) else Stuck
  }

  /** What the callbacks do. Those of cond, or and for clone the memo table before they read it. */
  function CallbackStep(p: Fingerprints, callback: Callback, v: ValueOf<nat>, memo: nat, env: nat, next: nat, h: Heap): HState
    requires memo < |h.memos|
  {
    var m := h.memos[memo];
    if callback.AfterIfConditionEvaled? then IfStep(p, v, m, env, next, h)
    else if callback.AfterAndConditionEvaled? then AndStep(p, v, m, env, next, h)
    else if callback.AfterLetValExprEvaled? then LetStep(p, v, m, env, next, h)
    else
      match CloneMemo(p, m)
      case None => Stuck
      case Some(copy) =>
        var h1 := h.(memos := h.memos + [copy]);
        if callback.AfterCondClauseEvaled? then CondNext(p, v, copy, env, next, h1)
        else if callback.AfterOrConditionEvaled? then OrStep(p, v, copy, env, next, h1)
        else if callback.BeforeForPrediction? then BeforeTestStep(p, copy, |h.memos|, env, next, h1)
        else if callback.AfterForPrediction? then AfterTestStep(p, v, copy, |h.memos|, env, next, h1)
        else AfterBodyStep(p, copy, |h.memos|, env, next, h1)
  }

  function IfStep(p: Fingerprints, v: ValueOf<nat>, m: Memo, env: nat, next: nat, h: Heap): HState {
    match (ReadMemo(p, m, "TrueClause"), ReadMemo(p, m, "FalseClause"))
    case (Present(Exprs(yes)), Present(Exprs(no))) =>
      if !IsFalse(v) then Body(yes, env, next, h)
      else if no != [] then Body(no, env, next, h)
      else Run(Plain(Const(FALSE)), next, h)
    case _ => Stuck
  }

  function AndStep(p: Fingerprints, v: ValueOf<nat>, m: Memo, env: nat, next: nat, h: Heap): HState {
    match ReadMemo(p, m, "RestCondition")
    case Present(Exprs(rest)) =>
      if IsFalse(v) || v == Plain(Const(NIL)) then Run(Plain(Const(FALSE)), next, h)
      else if rest == [] then Run(Plain(Const(TRUE)), next, h)
      else EvalWith(rest[0], env, AfterAndConditionEvaled, Memo1(p, "RestCondition", Exprs(rest[1..])), next, h)
    case _ => Stuck
  }

  function OrStep(p: Fingerprints, v: ValueOf<nat>, m: Memo, env: nat, next: nat, h: Heap): HState {
    match ReadMemo(p, m, "RestCondition")
    case Present(Exprs(rest)) =>
      if !IsFalse(v) then Run(Plain(Const(TRUE)), next, h)
      else if rest == [] then Run(Plain(Const(FALSE)), next, h)
      else EvalWith(rest[0], env, AfterOrConditionEvaled, Memo1(p, "RestCondition", Exprs(rest[1..])), next, h)
    case _ => Stuck
  }

  function LetStep(p: Fingerprints, v: ValueOf<nat>, m: Memo, env: nat, next: nat, h: Heap): HState {
    match ReadMemo(p, m, "VarName")
    case Present(VarName(name)) => Run(Plain(Const(TRUE)), next, Define(h, env, name, v))
    case _ => Stuck
  }

  function CondNext(p: Fingerprints, v: ValueOf<nat>, m: Memo, env: nat, next: nat, h: Heap): HState {
    match (ReadMemo(p, m, "RestPairs"), ReadMemo(p, m, "IfTrue"))
    case (Present(Pairs(rest)), Present(Exprs(action))) =>
      if !IsFalse(v) then Body(action, env, next, h)
      else if rest == [] then Run(Plain(Const(FALSE)), next, h)
      else CondStep(p, rest, env, next, h)
    case _ => Stuck
  }

  // The three callbacks of a loop each make the frame of the next, with the clone in it.

  function BeforeTestStep(p: Fingerprints, m: Memo, memo: nat, env: nat, next: nat, h: Heap): HState {
    match ReadMemo(p, m, "PredictExpr")
    case Present(OneExpr(test)) => EvalUnder(test, env, NativeCallback(AfterForPrediction, memo), next, h)
    case _ => Stuck
  }

  function AfterTestStep(p: Fingerprints, v: ValueOf<nat>, m: Memo, memo: nat, env: nat, next: nat, h: Heap): HState {
    match ReadMemo(p, m, "BodyExprs")
    case Present(Exprs(body)) =>
      var h1 := Alloc(h, NativeCallback(AfterForBodyEvaled, memo), env, next);
      if !IsFalse(v) then Body(body, env, |h.frames|, h1) else Run(Plain(Const(TRUE)), next, h1)
    case _ => Stuck
  }

  function AfterBodyStep(p: Fingerprints, m: Memo, memo: nat, env: nat, next: nat, h: Heap): HState {
    match ReadMemo(p, m, "AfterExpr")
    case Present(OneExpr(after)) => EvalUnder(after, env, NativeCallback(BeforeForPrediction, memo), next, h)
    case _ => Stuck
  }

  function HStep(p: Fingerprints, d: HNatives, s: HState): HState {
    match s
    case Eval(e, env, k, h) => HEvalStep(p, e, env, k, h)
    case Body(sentences, env, k, h) =>
      if sentences == [] then Run(Plain(Const(TRUE)), k, h)
      else EvalUnder(sentences[0], env, EvalSentenceList(sentences[1..]), k, h)
    case Verb(subj, clause, env, k, h) =>
      if !IsInfix(clause) then Stuck
      else EvalUnder(clause[0], env, EvalClauseArgs(subj, clause[1..], []), k, h)
    case Applying(subj, args, env, k, h) => HApplyStep(d, subj, args, env, k, h)
    case Run(v, k, h) => HRunStep(p, v, k, h)
    case Landed(_, _) => s
    case Stuck => s
  }

  function HSteps(p: Fingerprints, d: HNatives, n: nat, s: HState): HState {
    if n == 0 then s else HSteps(p, d, n - 1, HStep(p, d, s))
  }

  // ---------- what is written stays written ----------

  /** `h1` has all frames and memo tables of `h`, as they were, and perhaps more. */
  predicate Extends(h: Heap, h1: Heap) { h.frames <= h1.frames && h.memos <= h1.memos }

  lemma CallbackOnlyAdds(p: Fingerprints, callback: Callback, v: ValueOf<nat>, memo: nat, env: nat, next: nat, h: Heap)
    requires memo < |h.memos|
    ensures var s := CallbackStep(p, callback, v, memo, env, next, h); !s.Stuck? ==> Extends(h, s.st)
  {
    hide ReadMemo, CloneMemo, EnvDefine, Put;
  }

  /** No step changes a frame or a memo table that is there. */
  lemma StepOnlyAdds(p: Fingerprints, d: HNatives, s: HState)
    ensures var s1 := HStep(p, d, s); !s.Stuck? && !s1.Stuck? ==> Extends(s.st, s1.st)
  {
    hide CloneMemo, EnvLookup, EnvDefine, Enter, Split, Reverse, Put, CallbackStep;
    if s.Run? && s.k < |s.st.frames| && s.st.frames[s.k].FrameRec? {
      var frame := s.st.frames[s.k];
      if frame.work.NativeCallback? && frame.work.memo < |s.st.memos| {
        CallbackOnlyAdds(p, frame.work.callback, s.v, frame.work.memo, frame.env, frame.next, s.st);
      }
    }
  }

  /** Nor does a run. */
  lemma {:induction false} RunOnlyAdds(p: Fingerprints, d: HNatives, n: nat, s: HState)
    ensures var s1 := HSteps(p, d, n, s); !s.Stuck? && !s1.Stuck? ==> Extends(s.st, s1.st)
  {
    hide HStep;
    if n > 0 && !s.Stuck? {
      StepOnlyAdds(p, d, s);
      StaysStuck(p, d, n - 1);
      RunOnlyAdds(p, d, n - 1, HStep(p, d, s));
    }
  }

  lemma {:induction false} StaysStuck(p: Fingerprints, d: HNatives, n: nat)
    ensures HSteps(p, d, n, Stuck) == Stuck
  {
    if n > 0 {
      StaysStuck(p, d, n - 1);
    }
  }
}
