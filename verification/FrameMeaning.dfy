/** What the frames in the store mean: read as immutable continuations they make the machine of Kana,
    as long as no callback loses a key by cloning its memo table. */
module FrameMeaning {
  import opened Options
  import opened Lists
  import opened Kana
  import opened TableItems
  import opened Frames

  // ---------- values with other continuations ----------

  function Rename<K, L>(f: K -> L, v: ValueOf<K>): ValueOf<L> {
    match v
    case Plain(lit) => Plain(lit)
    case List(items) => List(seq(|items|, i requires 0 <= i < |items| => Rename(f, items[i])))
    case Native(id) => Native(id)
    case Proc(lambda, params, body, env, capture) => Proc(lambda, params, body, env, capture)
    case Cont(k) => Cont(f(k))
  }

  function RenameAll<K, L>(f: K -> L, vs: seq<ValueOf<K>>): seq<ValueOf<L>> {
    seq(|vs|, i requires 0 <= i < |vs| => Rename(f, vs[i]))
  }

  function RenameBindings<K, L>(f: K -> L, b: map<string, ValueOf<K>>): map<string, ValueOf<L>> {
    map x | x in b :: Rename(f, b[x])
  }

  function RenameEnvs<K, L>(f: K -> L, envs: EnvsOf<K>): EnvsOf<L> {
    seq(|envs|, i requires 0 <= i < |envs| => Env(RenameBindings(f, envs[i].bindings), envs[i].parent))
  }

  /** Every frame a value refers to is one of the first n. */
  predicate Below(v: ValueOf<nat>, n: nat) {
    match v
    case List(items) => forall i <- items :: Below(i, n)
    case Cont(k) => k < n
    case _ => true
  }

  predicate AllBelow(vs: seq<ValueOf<nat>>, n: nat) { forall v <- vs :: Below(v, n) }

  predicate BindingsBelow(b: map<string, ValueOf<nat>>, n: nat) { forall x <- b :: Below(b[x], n) }

  predicate EnvsBelow(envs: EnvsOf<nat>, n: nat) { forall i | 0 <= i < |envs| :: BindingsBelow(envs[i].bindings, n) }

  // ---------- frames as continuations ----------

  function ExprAt(p: Fingerprints, items: Items, key: string): Expr {
    match At<MemoVal>(p, items, key)
    case Some(OneExpr(e)) => e
    case _ => Lit(Const(UNDEF))
  }

  function ExprsAt(p: Fingerprints, items: Items, key: string): seq<Expr> {
    match At<MemoVal>(p, items, key)
    case Some(Exprs(l)) => l
    case _ => []
  }

  function PairsAt(p: Fingerprints, items: Items, key: string): seq<Clause> {
    match At<MemoVal>(p, items, key)
    case Some(Pairs(clauses)) => clauses
    case _ => []
  }

  function NameAt(p: Fingerprints, items: Items, key: string): string {
    match At<MemoVal>(p, items, key)
    case Some(VarName(name)) => name
    case _ => ""
  }

  function CallbackJob(p: Fingerprints, callback: Callback, items: Items): Job {
    match callback
    case AfterIfConditionEvaled => AfterIf(ExprsAt(p, items, "TrueClause"), ExprsAt(p, items, "FalseClause"))
    case AfterCondClauseEvaled => AfterCond(ExprsAt(p, items, "IfTrue"), PairsAt(p, items, "RestPairs"))
    case AfterAndConditionEvaled => AfterAnd(ExprsAt(p, items, "RestCondition"))
    case AfterOrConditionEvaled => AfterOr(ExprsAt(p, items, "RestCondition"))
    case AfterLetValExprEvaled => AfterLet(NameAt(p, items, "VarName"))
    case BeforeForPrediction => BeforeTest(ExprAt(p, items, "PredictExpr"), ExprAt(p, items, "AfterExpr"), ExprsAt(p, items, "BodyExprs"))
    case AfterForPrediction => AfterTest(ExprAt(p, items, "PredictExpr"), ExprAt(p, items, "AfterExpr"), ExprsAt(p, items, "BodyExprs"))
    case AfterForBodyEvaled => AfterBody(ExprAt(p, items, "PredictExpr"), ExprAt(p, items, "AfterExpr"), ExprsAt(p, items, "BodyExprs"))
  }

  function JobOf(p: Fingerprints, memos: seq<Memo>, work: Work, f: nat -> Kont): Job {
    match work
    case EvalSentenceList(rest) => Sentences(rest)
    case EvalSubj(rest) => Subject(rest)
    case EvalClauseList(subj, rest) => ClauseList(Rename(f, subj), rest)
    case EvalClauseArgs(subj, rest, evaled) => Args(Rename(f, subj), rest, RenameAll(f, evaled))
    case NativeCallback(callback, memo) => if memo < |memos| then CallbackJob(p, callback, memos[memo].items) else Sentences([])
  }

  /** The continuation that starts at a frame. */
  function KontOf(p: Fingerprints, h: Heap, k: nat): Kont
    decreases k, 1
  {
    if k >= |h.frames| || h.frames[k].ReturnFrame? then Return
    else
      var f := h.frames[k];
      Frame(JobOf(p, h.memos, f.work, Older(p, h, k)), f.env, if f.next < k then KontOf(p, h, f.next) else Return)
  }

  function Older(p: Fingerprints, h: Heap, k: nat): nat -> Kont
    decreases k, 0
  {
    (j: nat) => if j < k then KontOf(p, h, j) else Return
  }

  function All(p: Fingerprints, h: Heap): nat -> Kont { (k: nat) => KontOf(p, h, k) }

  function Val(p: Fingerprints, h: Heap, v: ValueOf<nat>): Value { Rename(All(p, h), v) }

  function Envs(p: Fingerprints, h: Heap): Store { RenameEnvs(All(p, h), h.envs) }

  function Erase(p: Fingerprints, s: HState): State {
    match s
    case Eval(e, env, k, h) => Eval(e, env, KontOf(p, h, k), Envs(p, h))
    case Body(sentences, env, k, h) => Body(sentences, env, KontOf(p, h, k), Envs(p, h))
    case Verb(subj, clause, env, k, h) => Verb(Val(p, h, subj), clause, env, KontOf(p, h, k), Envs(p, h))
    case Applying(subj, args, env, k, h) => Applying(Val(p, h, subj), RenameAll(All(p, h), args), env, KontOf(p, h, k), Envs(p, h))
    case Run(v, k, h) => Run(Val(p, h, v), KontOf(p, h, k), Envs(p, h))
    case Landed(v, h) => Landed(Val(p, h, v), Envs(p, h))
    case Stuck => Stuck
  }

  // ---------- what every reachable heap keeps ----------

  function KeysOf(callback: Callback): seq<string> {
    match callback
    case AfterIfConditionEvaled => ["TrueClause", "FalseClause"]
    case AfterCondClauseEvaled => ["RestPairs", "IfTrue"]
    case AfterAndConditionEvaled => ["RestCondition"]
    case AfterOrConditionEvaled => ["RestCondition"]
    case AfterLetValExprEvaled => ["VarName"]
    case _ => ["PredictExpr", "AfterExpr", "BodyExprs"]
  }

  /** The callback reads a clone of its memo table. */
  predicate Clones(callback: Callback) {
    !callback.AfterIfConditionEvaled? && !callback.AfterAndConditionEvaled? && !callback.AfterLetValExprEvaled?
  }

  predicate KindOk(v: MemoVal, key: string) {
    if key == "PredictExpr" || key == "AfterExpr" then v.OneExpr?
    else if key == "RestPairs" then v.Pairs?
    else if key == "VarName" then v.VarName?
    else v.Exprs?
  }

  predicate MemoOk(callback: Callback, m: Memo) {
    var keys := KeysOf(callback);
    (m.cloned ==> Clones(callback)) && |m.items| == |keys|
    && forall i | 0 <= i < |keys| :: m.items[i].key == Some(keys[i]) && KindOk(m.items[i].val, keys[i])
  }

  predicate WorkOk(memos: seq<Memo>, work: Work, n: nat) {
    match work
    case EvalClauseList(subj, _) => Below(subj, n)
    case EvalClauseArgs(subj, _, evaled) => Below(subj, n) && AllBelow(evaled, n)
    case NativeCallback(callback, memo) => memo < |memos| && MemoOk(callback, memos[memo])
    case _ => true
  }

  /** A frame refers to older ones only. */
  predicate FrameOk(h: Heap, k: nat)
    requires k < |h.frames|
  {
    h.frames[k].FrameRec? ==> h.frames[k].next < k && WorkOk(h.memos, h.frames[k].work, k)
  }

  predicate HeapOk(h: Heap) {
    EnvsBelow(h.envs, |h.frames|) && forall k: nat | k < |h.frames| :: FrameOk(h, k)
  }

  predicate HStateOk(s: HState) {
    match s
    case Eval(_, _, k, h) => k < |h.frames| && HeapOk(h)
    case Body(_, _, k, h) => k < |h.frames| && HeapOk(h)
    case Verb(subj, _, _, k, h) => k < |h.frames| && HeapOk(h) && Below(subj, |h.frames|)
    case Applying(subj, args, _, k, h) => k < |h.frames| && HeapOk(h) && Below(subj, |h.frames|) && AllBelow(args, |h.frames|)
    case Run(v, k, h) => k < |h.frames| && HeapOk(h) && Below(v, |h.frames|)
    case Landed(v, h) => HeapOk(h) && Below(v, |h.frames|)
    case Stuck => true
  }

  // ---------- more frames, same meaning ----------

  lemma {:induction false} RenameAgrees(f: nat -> Kont, g: nat -> Kont, v: ValueOf<nat>, n: nat)
    requires Below(v, n) && forall j: nat | j < n :: f(j) == g(j)
    ensures Rename(f, v) == Rename(g, v)
    decreases v
  {
    if v.List? {
      forall i | 0 <= i < |v.items| ensures Rename(f, v.items[i]) == Rename(g, v.items[i]) {
        RenameAgrees(f, g, v.items[i], n);
      }
    }
  }

  lemma {:induction false} BelowMore(v: ValueOf<nat>, n: nat, m: nat)
    requires Below(v, n) && n <= m
    ensures Below(v, m)
    decreases v
  {
    if v.List? {
      forall i <- v.items ensures Below(i, m) {
        BelowMore(i, n, m);
      }
    }
  }

  lemma {:induction false} KontKept(p: Fingerprints, h: Heap, h1: Heap, k: nat)
    requires HeapOk(h) && Extends(h, h1) && k < |h.frames|
    ensures KontOf(p, h1, k) == KontOf(p, h, k)
  {
    var frame := h.frames[k];
    assert FrameOk(h, k) && h1.frames[k] == frame;
    if frame.FrameRec? {
      var f, g := Older(p, h1, k), Older(p, h, k);
      forall j: nat | j < k ensures f(j) == g(j) {
        KontKept(p, h, h1, j);
      }
      JobKept(p, h.memos, h1.memos, frame.work, f, g, k);
      KontKept(p, h, h1, frame.next);
    }
  }

  lemma JobKept(p: Fingerprints, memos: seq<Memo>, memos1: seq<Memo>, work: Work, f: nat -> Kont, g: nat -> Kont, n: nat)
    requires WorkOk(memos, work, n) && memos <= memos1 && forall j: nat | j < n :: f(j) == g(j)
    ensures JobOf(p, memos1, work, f) == JobOf(p, memos, work, g)
  {
    if work.EvalClauseList? {
      RenameAgrees(f, g, work.subj, n);
    } else if work.EvalClauseArgs? {
      RenameAgrees(f, g, work.subj, n);
      forall i | 0 <= i < |work.evaled| ensures Rename(f, work.evaled[i]) == Rename(g, work.evaled[i]) {
        RenameAgrees(f, g, work.evaled[i], n);
      }
    }
  }

  // ---------- what does not look into continuations ----------

  lemma {:induction false} LookupRenamed<K, L>(f: K -> L, envs: EnvsOf<K>, e: int, name: string)
    ensures Rename(f, EnvLookup(envs, e, name)) == EnvLookup(RenameEnvs(f, envs), e, name)
    decreases if e < 0 then 0 else e
  {
    if 0 <= e < |envs| && !(name in envs[e].bindings && envs[e].bindings[name] != Plain(Const(UNDEF)))
      && 0 <= envs[e].parent < e {
      LookupRenamed(f, envs, envs[e].parent, name);
    }
  }

  lemma DefineRenamed<K, L>(f: K -> L, envs: EnvsOf<K>, e: nat, name: string, v: ValueOf<K>)
    ensures RenameEnvs(f, EnvDefine(envs, e, name, v)) == EnvDefine(RenameEnvs(f, envs), e, name, Rename(f, v))
  {
    if e < |envs| {
      assert RenameBindings(f, envs[e].bindings[name := v]) == RenameBindings(f, envs[e].bindings)[name := Rename(f, v)];
    }
  }

  lemma {:induction false} CaptureRenamed<K, L>(f: K -> L, envs: EnvsOf<K>, from: nat, names: seq<string>, b: map<string, ValueOf<K>>)
    ensures RenameBindings(f, Capture(envs, from, names, b)) == Capture(RenameEnvs(f, envs), from, names, RenameBindings(f, b))
  {
    if names != [] {
      var v := EnvLookup(envs, from, names[0]);
      LookupRenamed(f, envs, from, names[0]);
      assert RenameBindings(f, b[names[0] := v]) == RenameBindings(f, b)[names[0] := Rename(f, v)];
      CaptureRenamed(f, envs, from, names[1..], b[names[0] := v]);
    }
  }

  lemma {:induction false} BindRenamed<K, L>(f: K -> L, params: seq<string>, args: seq<ValueOf<K>>, b: map<string, ValueOf<K>>)
    ensures BindParams(params, RenameAll(f, args), RenameBindings(f, b))
      == match BindParams(params, args, b) case None => None case Some(bound) => Some(RenameBindings(f, bound))
  {
    if params != [] && args != [] {
      var v := if |params| == 1 && |args| > 1 then List(args) else args[0];
      assert RenameAll(f, args)[1..] == RenameAll(f, args[1..]);
      assert Rename(f, v) == if |params| == 1 && |args| > 1 then List(RenameAll(f, args)) else Rename(f, args[0]);
      assert RenameBindings(f, b[params[0] := v]) == RenameBindings(f, b)[params[0] := Rename(f, v)];
      BindRenamed(f, params[1..], args[1..], b[params[0] := v]);
    }
  }

  lemma EnterRenamed<K, L>(f: K -> L, proc: ValueOf<K>, args: seq<ValueOf<K>>, caller: nat, k: K, envs: EnvsOf<K>)
    requires proc.Proc?
    ensures Enter(Rename(f, proc), RenameAll(f, args), caller, f(k), RenameEnvs(f, envs))
      == match Enter(proc, args, caller, k, envs) case None => None case Some(envs1) => Some(RenameEnvs(f, envs1))
  {
    var from := if proc.lambda then caller else proc.env;
    var start: map<string, ValueOf<K>> := map["return" := Cont(k)];
    assert RenameBindings(f, start) == map["return" := Cont(f(k))];
    CaptureRenamed(f, envs, from, proc.capture, start);
    BindRenamed(f, proc.params, args, Capture(envs, from, proc.capture, start));
    var entered := Enter(proc, args, caller, k, envs);
    if entered.Some? {
      var last := entered.value[|envs|];
      assert RenameEnvs(f, envs + [last]) == RenameEnvs(f, envs) + [Env(RenameBindings(f, last.bindings), last.parent)];
    }
  }

  lemma {:induction false} ReverseRenamed<K, L>(f: K -> L, vs: seq<ValueOf<K>>)
    ensures RenameAll(f, Reverse(vs)) == Reverse(RenameAll(f, vs))
  {
    if vs != [] {
      ReverseRenamed(f, vs[1..]);
      assert RenameAll(f, vs)[1..] == RenameAll(f, vs[1..]);
      assert RenameAll(f, Reverse(vs[1..]) + [vs[0]]) == RenameAll(f, Reverse(vs[1..])) + [Rename(f, vs[0])];
    }
  }

  lemma {:induction false} LookupBelow(envs: EnvsOf<nat>, e: int, name: string, n: nat)
    requires EnvsBelow(envs, n)
    ensures Below(EnvLookup(envs, e, name), n)
    decreases if e < 0 then 0 else e
  {
    if 0 <= e < |envs| && !(name in envs[e].bindings && envs[e].bindings[name] != Plain(Const(UNDEF)))
      && 0 <= envs[e].parent < e {
      LookupBelow(envs, envs[e].parent, name, n);
    }
  }

  lemma {:induction false} CaptureBelow(envs: EnvsOf<nat>, from: nat, names: seq<string>, b: map<string, ValueOf<nat>>, n: nat)
    requires EnvsBelow(envs, n) && BindingsBelow(b, n)
    ensures BindingsBelow(Capture(envs, from, names, b), n)
  {
    if names != [] {
      LookupBelow(envs, from, names[0], n);
      CaptureBelow(envs, from, names[1..], b[names[0] := EnvLookup(envs, from, names[0])], n);
    }
  }

  lemma {:induction false} BindBelow(params: seq<string>, args: seq<ValueOf<nat>>, b: map<string, ValueOf<nat>>, n: nat)
    requires AllBelow(args, n) && BindingsBelow(b, n)
    ensures BindParams(params, args, b).Some? ==> BindingsBelow(BindParams(params, args, b).value, n)
  {
    if params != [] && args != [] {
      var v := if |params| == 1 && |args| > 1 then List(args) else args[0];
      assert Below(v, n);
      BindBelow(params[1..], args[1..], b[params[0] := v], n);
    }
  }

  lemma EnterBelow(proc: ValueOf<nat>, args: seq<ValueOf<nat>>, caller: nat, k: nat, envs: EnvsOf<nat>, n: nat)
    requires proc.Proc? && AllBelow(args, n) && k < n && EnvsBelow(envs, n)
    ensures Enter(proc, args, caller, k, envs).Some? ==> EnvsBelow(Enter(proc, args, caller, k, envs).value, n)
  {
    var from := if proc.lambda then caller else proc.env;
    var start: map<string, ValueOf<nat>> := map["return" := Cont(k)];
    assert BindingsBelow(start, n);
    CaptureBelow(envs, from, proc.capture, start, n);
    BindBelow(proc.params, args, Capture(envs, from, proc.capture, start), n);
  }
}
