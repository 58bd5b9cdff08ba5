/** The machine over the store of frames takes the steps of the machine of Kana. */
module FrameSteps {
  import opened Options
  import opened Lists
  import opened Kana
  import opened TableItems
  import opened Frames
  import opened FrameMeaning

  // ---------- memo tables ----------

  predicate SameBucket(p: Fingerprints, a: string, b: string) { p(a).hash % MemoBuckets == p(b).hash % MemoBuckets }

  /** The keys of one memo table are told apart, and are in buckets of their own if it is cloned. */
  predicate KeysSeparate(p: Fingerprints, callback: Callback) {
    var keys := KeysOf(callback);
    forall i, j | 0 <= i < j < |keys| :: if Clones(callback) then !SameBucket(p, keys[i], keys[j]) else p(keys[i]) != p(keys[j])
  }

  ghost predicate Separate(p: Fingerprints) { forall callback: Callback :: KeysSeparate(p, callback) }

  /** What a callback finds in its memo table. */
  ghost predicate Finds(p: Fingerprints, m: Memo, keys: seq<string>, i: nat)
    requires i < |keys| == |m.items|
  {
    ReadMemo(p, m, keys[i]) == Present(m.items[i].val) && At(p, m.items, keys[i]) == Some(m.items[i].val)
  }

  function Seen(callback: Callback, m: Memo): Memo { if Clones(callback) then Memo(m.items, true) else m }

  lemma MemoReads(p: Fingerprints, callback: Callback, m: Memo)
    requires MemoOk(callback, m) && KeysSeparate(p, callback)
    ensures Clones(callback) ==> CloneMemo(p, m) == Some(Memo(m.items, true))
    ensures forall i: nat | i < |KeysOf(callback)| :: Finds(p, Seen(callback, m), KeysOf(callback), i)
  {
    var keys, items := KeysOf(callback), m.items;
    forall i, j | 0 <= i < j < |items| ensures p(items[i].key.value) != p(items[j].key.value) {
      assert items[i].key == Some(keys[i]) && items[j].key == Some(keys[j]);
    }
    if Clones(callback) {
      forall i, j | 0 <= i < j < |items| ensures !SameBucket(p, items[i].key.value, items[j].key.value) {
        assert items[i].key == Some(keys[i]) && items[j].key == Some(keys[j]);
      }
      assert Apart(p, MemoBuckets, items);
      ApartCanBePushed(p, MemoBuckets, items);
    }
    forall i: nat | i < |keys| ensures Finds(p, Seen(callback, m), keys, i) {
      FindIsOnly(p, items, keys[i], i);
      if Clones(callback) {
        ReadsAlike(p, MemoBuckets, items, keys[i]);
      }
    }
  }

  lemma FindsAt(p: Fingerprints, callback: Callback, m: Memo)
    requires MemoOk(callback, m) && KeysSeparate(p, callback)
    ensures var keys, m1 := KeysOf(callback), Seen(callback, m);
      ReadMemo(p, m1, keys[0]) == Present(m.items[0].val) && At(p, m.items, keys[0]) == Some(m.items[0].val)
      && (|keys| > 1 ==> ReadMemo(p, m1, keys[1]) == Present(m.items[1].val) && At(p, m.items, keys[1]) == Some(m.items[1].val))
      && (|keys| > 2 ==> ReadMemo(p, m1, keys[2]) == Present(m.items[2].val) && At(p, m.items, keys[2]) == Some(m.items[2].val))
  {
    hide ReadMemo, At;
    var keys, m1 := KeysOf(callback), Seen(callback, m);
    MemoReads(p, callback, m);
    assert Finds(p, m1, keys, 0);
    assert |keys| > 1 ==> Finds(p, m1, keys, 1);
    assert |keys| > 2 ==> Finds(p, m1, keys, 2);
  }

  /** The job of a callback, from the items by place. */
  function JobKeptIn(callback: Callback, items: Items): Job
    requires MemoOk(callback, Memo(items, Clones(callback)))
  {
    match callback
    case AfterIfConditionEvaled => AfterIf(items[0].val.l, items[1].val.l)
    case AfterCondClauseEvaled => AfterCond(items[1].val.l, items[0].val.clauses)
    case AfterAndConditionEvaled => AfterAnd(items[0].val.l)
    case AfterOrConditionEvaled => AfterOr(items[0].val.l)
    case AfterLetValExprEvaled => AfterLet(items[0].val.name)
    case BeforeForPrediction => BeforeTest(items[0].val.e, items[1].val.e, items[2].val.l)
    case AfterForPrediction => AfterTest(items[0].val.e, items[1].val.e, items[2].val.l)
    case AfterForBodyEvaled => AfterBody(items[0].val.e, items[1].val.e, items[2].val.l)
  }

  lemma JobIsKept(p: Fingerprints, callback: Callback, m: Memo)
    requires MemoOk(callback, m) && KeysSeparate(p, callback)
    ensures MemoOk(callback, Memo(m.items, Clones(callback)))
    ensures CallbackJob(p, callback, m.items) == JobKeptIn(callback, m.items)
  {
    hide At, ReadMemo, Find, KeysSeparate, KindOk;
    FindsAt(p, callback, m);
    KindsAre(callback, m);
  }

  lemma KindsAre(callback: Callback, m: Memo)
    requires MemoOk(callback, m)
    ensures var keys := KeysOf(callback);
      KindOk(m.items[0].val, keys[0]) && (|keys| > 1 ==> KindOk(m.items[1].val, keys[1])) && (|keys| > 2 ==> KindOk(m.items[2].val, keys[2]))
  {
  }

  lemma SeparateHere(p: Fingerprints, callback: Callback)
    requires Separate(p)
    ensures KeysSeparate(p, callback)
  {
  }

  // ---------- the store grows ----------

  lemma ValGrown(p: Fingerprints, h: Heap, h1: Heap, v: ValueOf<nat>)
    requires HeapOk(h) && Extends(h, h1) && Below(v, |h.frames|)
    ensures Val(p, h1, v) == Val(p, h, v) && Below(v, |h1.frames|)
  {
    forall j: nat | j < |h.frames| ensures All(p, h1)(j) == All(p, h)(j) {
      KontKept(p, h, h1, j);
    }
    RenameAgrees(All(p, h1), All(p, h), v, |h.frames|);
    BelowMore(v, |h.frames|, |h1.frames|);
  }

  lemma EnvsGrown(p: Fingerprints, h: Heap, h1: Heap, envs: EnvsOf<nat>)
    requires HeapOk(h) && Extends(h, h1) && EnvsBelow(envs, |h.frames|)
    ensures RenameEnvs(All(p, h1), envs) == RenameEnvs(All(p, h), envs) && EnvsBelow(envs, |h1.frames|)
  {
    forall i | 0 <= i < |envs|
      ensures RenameBindings(All(p, h1), envs[i].bindings) == RenameBindings(All(p, h), envs[i].bindings)
      ensures BindingsBelow(envs[i].bindings, |h1.frames|)
    {
      var b := envs[i].bindings;
      assert BindingsBelow(b, |h.frames|);
      forall x <- b ensures Rename(All(p, h1), b[x]) == Rename(All(p, h), b[x]) && Below(b[x], |h1.frames|) {
        ValGrown(p, h, h1, b[x]);
        assert Val(p, h1, b[x]) == Val(p, h, b[x]);
      }
    }
  }

  /** A frame that refers to what is there already. */
  lemma Allocated(p: Fingerprints, h: Heap, work: Work, env: nat, next: nat)
    requires HeapOk(h) && WorkOk(h.memos, work, |h.frames|) && next < |h.frames|
    ensures var h1 := Alloc(h, work, env, next);
      HeapOk(h1) && Extends(h, h1) && Envs(p, h1) == Envs(p, h)
      && KontOf(p, h1, |h.frames|) == Frame(JobOf(p, h.memos, work, All(p, h)), env, KontOf(p, h, next))
  {
    var h1, n := Alloc(h, work, env, next), |h.frames|;
    EnvsGrown(p, h, h1, h.envs);
    forall k: nat | k < n + 1 ensures FrameOk(h1, k) {
      assert k < n ==> FrameOk(h, k);
    }
    var f, g := Older(p, h1, n), All(p, h);
    forall j: nat | j < n ensures f(j) == g(j) {
      KontKept(p, h, h1, j);
    }
    KontKept(p, h, h1, next);
    JobKept(p, h.memos, h1.memos, work, f, g, n);
  }

  lemma MemoAdded(p: Fingerprints, h: Heap, m: Memo)
    requires HeapOk(h)
    ensures var h1 := h.(memos := h.memos + [m]);
      HeapOk(h1) && Extends(h, h1) && Envs(p, h1) == Envs(p, h) && forall k: nat | k < |h.frames| :: KontOf(p, h1, k) == KontOf(p, h, k)
  {
    var h1 := h.(memos := h.memos + [m]);
    EnvsGrown(p, h, h1, h.envs);
    forall k: nat | k < |h.frames| ensures KontOf(p, h1, k) == KontOf(p, h, k) && FrameOk(h1, k) {
      KontKept(p, h, h1, k);
      assert FrameOk(h, k);
    }
  }

  lemma CallbackAllocated(p: Fingerprints, h: Heap, callback: Callback, m: Memo, env: nat, next: nat)
    requires HeapOk(h) && MemoOk(callback, m) && next < |h.frames|
    ensures var h1 := AllocCallback(h, callback, m, env, next);
      HeapOk(h1) && Extends(h, h1) && Envs(p, h1) == Envs(p, h)
      && KontOf(p, h1, |h.frames|) == Frame(CallbackJob(p, callback, m.items), env, KontOf(p, h, next))
  {
    MemoAdded(p, h, m);
    Allocated(p, h.(memos := h.memos + [m]), NativeCallback(callback, |h.memos|), env, next);
  }

  /** Environments may change: frames do not look into them. */
  lemma EnvsChanged(p: Fingerprints, h: Heap, envs: EnvsOf<nat>)
    requires HeapOk(h) && EnvsBelow(envs, |h.frames|)
    ensures var h1 := h.(envs := envs);
      HeapOk(h1) && Extends(h, h1) && Envs(p, h1) == RenameEnvs(All(p, h), envs)
      && forall k: nat | k < |h.frames| :: KontOf(p, h1, k) == KontOf(p, h, k)
  {
    var h1 := h.(envs := envs);
    EnvsGrown(p, h, h1, envs);
    forall k: nat | k < |h.frames| ensures KontOf(p, h1, k) == KontOf(p, h, k) && FrameOk(h1, k) {
      KontKept(p, h, h1, k);
      assert FrameOk(h, k);
    }
  }

  lemma Defined(p: Fingerprints, h: Heap, env: nat, name: string, v: ValueOf<nat>)
    requires HeapOk(h) && Below(v, |h.frames|)
    ensures var h1 := Define(h, env, name, v);
      HeapOk(h1) && Extends(h, h1) && Envs(p, h1) == EnvDefine(Envs(p, h), env, name, Val(p, h, v))
      && forall k: nat | k < |h.frames| :: KontOf(p, h1, k) == KontOf(p, h, k)
  {
    DefineRenamed(All(p, h), h.envs, env, name, v);
    assert EnvsBelow(EnvDefine(h.envs, env, name, v), |h.frames|);
    EnvsChanged(p, h, EnvDefine(h.envs, env, name, v));
  }

  // ---------- steps ----------

  /** The step keeps the store in order and means the step of the other machine. */
  ghost predicate Follows(p: Fingerprints, s: HState, t: State) { HStateOk(s) && Erase(p, s) == t }

  lemma EvalUnderFollows(p: Fingerprints, e: Expr, env: nat, work: Work, env1: nat, k: nat, h: Heap)
    requires HeapOk(h) && WorkOk(h.memos, work, |h.frames|) && k < |h.frames|
    ensures Follows(p, Eval(e, env, |h.frames|, Alloc(h, work, env1, k)),
                    Eval(e, env, Frame(JobOf(p, h.memos, work, All(p, h)), env1, KontOf(p, h, k)), Envs(p, h)))
  {
    Allocated(p, h, work, env1, k);
  }

  lemma EvalWithFollows(p: Fingerprints, e: Expr, env: nat, callback: Callback, m: Memo, k: nat, h: Heap)
    requires Separate(p) && HeapOk(h) && MemoOk(callback, m) && k < |h.frames|
    ensures MemoOk(callback, Memo(m.items, Clones(callback)))
    ensures Follows(p, EvalWith(e, env, callback, m, k, h),
                    Eval(e, env, Frame(JobKeptIn(callback, m.items), env, KontOf(p, h, k)), Envs(p, h)))
  {
    SeparateHere(p, callback);
    JobIsKept(p, callback, m);
    CallbackAllocated(p, h, callback, m, env, k);
  }

  lemma RunFollows(p: Fingerprints, v: ValueOf<nat>, k: nat, h: Heap)
    requires HeapOk(h) && k < |h.frames| && Below(v, |h.frames|)
    ensures Follows(p, Run(v, k, h), Run(Val(p, h, v), KontOf(p, h, k), Envs(p, h)))
  {
  }

  /** Memo tables as they are made. */
  lemma OneMade(p: Fingerprints, key: string, v: MemoVal)
    ensures Memo1(p, key, v) == Memo([Item(Some(key), v)], false)
  {
  }

  lemma TwoMade(p: Fingerprints, key1: string, v1: MemoVal, key2: string, v2: MemoVal)
    requires p(key1) != p(key2)
    ensures Memo2(p, key1, v1, key2, v2) == Memo([Item(Some(key1), v1), Item(Some(key2), v2)], false)
  {
    OneMade(p, key1, v1);
    NotFound(p, [Item(Some(key1), v1)], key2);
    PutsLast(p, [Item(Some(key1), v1)], key2, v2);
  }

  function ForItems(test: Expr, after: Expr, body: seq<Expr>): Items {
    [Item(Some("PredictExpr"), OneExpr(test)), Item(Some("AfterExpr"), OneExpr(after)), Item(Some("BodyExprs"), Exprs(body))]
  }

  lemma ForMade(p: Fingerprints, test: Expr, after: Expr, body: seq<Expr>)
    requires p("PredictExpr") != p("AfterExpr") && p("PredictExpr") != p("BodyExprs") && p("AfterExpr") != p("BodyExprs")
    ensures ForMemo(p, test, after, body) == Memo(ForItems(test, after, body), false)
    ensures MemoOk(BeforeForPrediction, Memo(ForItems(test, after, body), false))
  {
    hide Put, Find;
    var keys := KeysOf(BeforeForPrediction);
    TwoMade(p, keys[0], OneExpr(test), keys[1], OneExpr(after));
    var two := [Item(Some("PredictExpr"), OneExpr(test)), Item(Some("AfterExpr"), OneExpr(after))];
    NotFound(p, two, keys[2]);
    PutsLast(p, two, keys[2], Exprs(body));
  }

  /** Built-in procedures do not look into continuations, and make none. */
  ghost predicate Uniform(d: Natives, hd: HNatives) {
    (forall f: nat -> Kont, id, args :: Rename(f, hd(id, args)) == d(id, RenameAll(f, args)))
    && forall n: nat, id, args :: AllBelow(args, n) ==> Below(hd(id, args), n)
  }

  lemma CallFollows(p: Fingerprints, proc: ValueOf<nat>, args: seq<ValueOf<nat>>, env: nat, k: nat, h: Heap)
    requires proc.Proc? && HeapOk(h) && k < |h.frames| && AllBelow(args, |h.frames|)
    ensures Follows(p, HCallStep(proc, args, env, k, h),
                    CallStep(Val(p, h, proc), RenameAll(All(p, h), args), env, KontOf(p, h, k), Envs(p, h)))
  {
    EnterRenamed(All(p, h), proc, args, env, k, h.envs);
    EnterBelow(proc, args, env, k, h.envs, |h.frames|);
    match Enter(proc, args, env, k, h.envs)
    case None =>
    case Some(envs1) => EnvsChanged(p, h, envs1);
  }

  lemma ApplyFollows(p: Fingerprints, d: Natives, hd: HNatives, subj: ValueOf<nat>, args: seq<ValueOf<nat>>, env: nat, k: nat, h: Heap)
    requires Uniform(d, hd) && HStateOk(Applying(subj, args, env, k, h))
    ensures Follows(p, HApplyStep(hd, subj, args, env, k, h),
                    ApplyStep(d, Val(p, h, subj), RenameAll(All(p, h), args), env, KontOf(p, h, k), Envs(p, h)))
  {
    hide HeapOk, Enter, RenameEnvs, KontOf;
    if args != [] {
      assert RenameAll(All(p, h), args)[1..] == RenameAll(All(p, h), args[1..]);
      assert args[0] == Plain(Mark(Apply)) <==> Rename(All(p, h), args[0]) == Plain(Mark(Apply));
      assert AllBelow(args[1..], |h.frames|);
      if args[0] == Plain(Mark(Apply)) {
        if subj.Cont? && |args| > 1 {
          RunFollows(p, args[1], subj.k, h);
        } else if subj.Native? {
          RunFollows(p, hd(subj.id, args[1..]), k, h);
        } else if subj.Proc? {
          CallFollows(p, subj, args[1..], env, k, h);
        }
      }
    }
  }

  lemma CondFollows(p: Fingerprints, clauses: seq<Clause>, env: nat, k: nat, h: Heap)
    requires Separate(p) && HeapOk(h) && k < |h.frames| && clauses != []
    ensures Follows(p, CondStep(p, clauses, env, k, h),
                    if clauses[0].isElse then Body(clauses[0].action, env, KontOf(p, h, k), Envs(p, h))
                    else Eval(clauses[0].test, env, Frame(AfterCond(clauses[0].action, clauses[1..]), env, KontOf(p, h, k)), Envs(p, h)))
  {
    hide HeapOk, Put;
    if !clauses[0].isElse {
      SeparateHere(p, AfterCondClauseEvaled);
      var keys := KeysOf(AfterCondClauseEvaled);
      assert !SameBucket(p, keys[0], keys[1]);
      TwoMade(p, "RestPairs", Pairs(clauses[1..]), "IfTrue", Exprs(clauses[0].action));
      var m := Memo2(p, "RestPairs", Pairs(clauses[1..]), "IfTrue", Exprs(clauses[0].action));
      EvalWithFollows(p, clauses[0].test, env, AfterCondClauseEvaled, m, k, h);
    }
  }

  /** The two frames of a loop. */
  lemma LoopFrames(p: Fingerprints, test: Expr, after: Expr, body: seq<Expr>, loopEnv: nat, k: nat, h: Heap)
    requires Separate(p) && HeapOk(h) && k < |h.frames|
    ensures var memo := ForMemo(p, test, after, body);
      CloneMemo(p, memo) == Some(Memo(memo.items, true)) &&
      var h1 := AllocCallback(h, BeforeForPrediction, memo, loopEnv, k);
      var h2 := AllocCallback(h1, AfterForBodyEvaled, Memo(memo.items, true), loopEnv, k);
      HeapOk(h2) && Extends(h, h2) && h2.envs == h.envs && |h2.frames| == |h.frames| + 2 && |h1.frames| == |h.frames| + 1
      && KontOf(p, h2, |h.frames|) == Frame(BeforeTest(test, after, body), loopEnv, KontOf(p, h, k))
      && KontOf(p, h2, |h.frames| + 1) == Frame(AfterBody(test, after, body), loopEnv, KontOf(p, h, k))
  {
    hide HeapOk, Put, CloneMemo, JobOf, KontOf, RenameEnvs, CallbackJob;
    var memo := ForMemo(p, test, after, body);
    SeparateHere(p, BeforeForPrediction);
    SeparateHere(p, AfterForBodyEvaled);
    var keys := KeysOf(BeforeForPrediction);
    assert !SameBucket(p, keys[0], keys[1]) && !SameBucket(p, keys[0], keys[2]) && !SameBucket(p, keys[1], keys[2]);
    ForMade(p, test, after, body);
    MemoReads(p, BeforeForPrediction, memo);
    var copy := Memo(memo.items, true);
    JobIsKept(p, BeforeForPrediction, memo);
    JobIsKept(p, AfterForBodyEvaled, copy);
    var h1 := AllocCallback(h, BeforeForPrediction, memo, loopEnv, k);
    CallbackAllocated(p, h, BeforeForPrediction, memo, loopEnv, k);
    var h2 := AllocCallback(h1, AfterForBodyEvaled, copy, loopEnv, k);
    CallbackAllocated(p, h1, AfterForBodyEvaled, copy, loopEnv, k);
    KontKept(p, h, h1, k);
    KontKept(p, h1, h2, |h.frames|);
  }

  lemma ForFollows(p: Fingerprints, e: Expr, env: nat, k: nat, h: Heap)
    requires e.For? && Separate(p) && HeapOk(h) && k < |h.frames|
    ensures Follows(p, ForStep(p, e.init, e.test, e.after, e.body, env, k, h), EvalStep(e, env, KontOf(p, h, k), Envs(p, h)))
  {
    hide ForMemo, CloneMemo, KontOf;
    var memo, loopEnv, n := ForMemo(p, e.test, e.after, e.body), |h.envs|, |h.frames|;
    LoopFrames(p, e.test, e.after, e.body, loopEnv, k, h);
    var h1 := AllocCallback(h, BeforeForPrediction, memo, loopEnv, k);
    var h2 := AllocCallback(h1, AfterForBodyEvaled, Memo(memo.items, true), loopEnv, k);
    KontKept(p, h, h2, k);
    LoopEnv(p, h, h2, env, k, n + 1);
    EnvsChanged(p, h2, h.envs + [Env(map["break" := Cont(k), "continue" := Cont(n + 1)], env)]);
  }

  lemma LoopEnv(p: Fingerprints, h: Heap, h2: Heap, env: nat, k: nat, k1: nat)
    requires HeapOk(h) && Extends(h, h2) && k < |h.frames| && k1 < |h2.frames|
    ensures var envs := h.envs + [Env(map["break" := Cont(k), "continue" := Cont(k1)], env)];
      EnvsBelow(envs, |h2.frames|) && RenameEnvs(All(p, h2), envs)
        == Envs(p, h) + [Env(map["break" := Cont(KontOf(p, h2, k)), "continue" := Cont(KontOf(p, h2, k1))], env)]
  {
    hide KontOf;
    var last: EnvOf<nat> := Env(map["break" := Cont(k), "continue" := Cont(k1)], env);
    EnvsGrown(p, h, h2, h.envs);
    var f := All(p, h2);
    assert RenameBindings(f, last.bindings) == map["break" := Cont(f(k)), "continue" := Cont(f(k1))];
    assert RenameEnvs(f, h.envs + [last]) == RenameEnvs(f, h.envs) + [Env(RenameBindings(f, last.bindings), env)];
  }

  lemma EvalFollows(p: Fingerprints, e: Expr, env: nat, k: nat, h: Heap)
    requires Separate(p) && HeapOk(h) && k < |h.frames|
    ensures Follows(p, HEvalStep(p, e, env, k, h), EvalStep(e, env, KontOf(p, h, k), Envs(p, h)))
  {
    hide HeapOk, EnvLookup, EnvDefine, RenameEnvs, KontOf, CallStep, HCallStep, CondStep, ForStep, Envs, EvalWith;
    match e
    case Lit(_) =>
    case Ref(name) => SeenFollows(p, name, env, k, h);
    case Call(words) =>
      if words != [] {
        EvalUnderFollows(p, words[0], env, EvalSubj([Lit(Mark(Apply))] + words[1..]), env, k, h);
      }
    case Do(_) =>
    case Blk(_) => BlkFollows(p, env, h);
    case Let(_, _) => LetFollows(p, e, env, k, h);
    case If(_, _, _) => IfFollows(p, e, env, k, h);
    case Cond(clauses) =>
      if clauses != [] {
        CondFollows(p, clauses, env, k, h);
      }
    case And(tests) => RestFollows(p, tests, AfterAndConditionEvaled, env, k, h);
    case Or(tests) => RestFollows(p, tests, AfterOrConditionEvaled, env, k, h);
    case Lambda(_, _, _, _, _) => LambdaFollows(p, e, env, k, h);
    case For(_, _, _, _) => ForFollows(p, e, env, k, h);
    case Break => SeenFollows(p, "break", env, k, h);
    case Continue => SeenFollows(p, "continue", env, k, h);
    case CallCc(proc) => CallCcFollows(p, e, env, k, h);
  }

  lemma LetFollows(p: Fingerprints, e: Expr, env: nat, k: nat, h: Heap)
    requires e.Let? && Separate(p) && HeapOk(h) && k < |h.frames|
    ensures Follows(p, HEvalStep(p, e, env, k, h), EvalStep(e, env, KontOf(p, h, k), Envs(p, h)))
  {
    hide HeapOk, EnvDefine, KontOf, Envs;
    if e.start.None? {
      Defined(p, h, env, e.name, Plain(Const(UKN)));
    } else {
      OneMade(p, "VarName", VarName(e.name));
      EvalWithFollows(p, e.start.value, env, AfterLetValExprEvaled, Memo1(p, "VarName", VarName(e.name)), k, h);
    }
  }

  lemma IfFollows(p: Fingerprints, e: Expr, env: nat, k: nat, h: Heap)
    requires e.If? && Separate(p) && HeapOk(h) && k < |h.frames|
    ensures Follows(p, HEvalStep(p, e, env, k, h), EvalStep(e, env, KontOf(p, h, k), Envs(p, h)))
  {
    hide HeapOk, Put, KontOf, Envs;
    SeparateHere(p, AfterIfConditionEvaled);
    var keys := KeysOf(AfterIfConditionEvaled);
    assert p(keys[0]) != p(keys[1]);
    TwoMade(p, "TrueClause", Exprs(e.yes), "FalseClause", Exprs(e.no));
    EvalWithFollows(p, e.test, env, AfterIfConditionEvaled, Memo2(p, "TrueClause", Exprs(e.yes), "FalseClause", Exprs(e.no)), k, h);
  }

  lemma LambdaFollows(p: Fingerprints, e: Expr, env: nat, k: nat, h: Heap)
    requires e.Lambda? && HeapOk(h) && k < |h.frames|
    ensures Follows(p, HEvalStep(p, e, env, k, h), EvalStep(e, env, KontOf(p, h, k), Envs(p, h)))
  {
    hide HeapOk, EnvDefine, KontOf, Envs;
    if e.procName.Some? {
      Defined(p, h, env, e.procName.value, Proc(e.lambda, e.params, e.body, env, e.capture));
    }
  }

  /** A variable means the same. */
  lemma SeenFollows(p: Fingerprints, name: string, env: nat, k: nat, h: Heap)
    requires HeapOk(h) && k < |h.frames|
    ensures EnvLookup(Envs(p, h), env, name) == Val(p, h, EnvLookup(h.envs, env, name))
    ensures Below(EnvLookup(h.envs, env, name), |h.frames|)
  {
    LookupRenamed(All(p, h), h.envs, env, name);
    LookupBelow(h.envs, env, name, |h.frames|);
  }

  lemma BlkFollows(p: Fingerprints, env: nat, h: Heap)
    requires HeapOk(h)
    ensures var h1 := h.(envs := h.envs + [Env(map[], env)]);
      HeapOk(h1) && Envs(p, h1) == Envs(p, h) + [Env(map[], env)] && |Envs(p, h)| == |h.envs|
      && forall k: nat | k < |h.frames| :: KontOf(p, h1, k) == KontOf(p, h, k)
  {
    hide KontOf;
    var last: EnvOf<nat> := Env(map[], env);
    assert RenameBindings(All(p, h), last.bindings) == map[];
    assert RenameEnvs(All(p, h), h.envs + [last]) == Envs(p, h) + [Env(map[], env)];
    EnvsChanged(p, h, h.envs + [last]);
  }

  /** The tests of and, or. */
  lemma RestFollows(p: Fingerprints, tests: seq<Expr>, callback: Callback, env: nat, k: nat, h: Heap)
    requires callback.AfterAndConditionEvaled? || callback.AfterOrConditionEvaled?
    requires Separate(p) && HeapOk(h) && k < |h.frames|
    ensures tests != [] ==>
      Follows(p, EvalWith(tests[0], env, callback, Memo1(p, "RestCondition", Exprs(tests[1..])), k, h),
        Eval(tests[0], env, Frame(if callback.AfterAndConditionEvaled? then AfterAnd(tests[1..]) else AfterOr(tests[1..]), env, KontOf(p, h, k)), Envs(p, h)))
  {
    hide HeapOk, KontOf, Envs;
    if tests != [] {
      var m := Memo1(p, "RestCondition", Exprs(tests[1..]));
      OneMade(p, "RestCondition", Exprs(tests[1..]));
      EvalWithFollows(p, tests[0], env, callback, m, k, h);
    }
  }

  lemma CallCcFollows(p: Fingerprints, e: Expr, env: nat, k: nat, h: Heap)
    requires e.CallCc? && HeapOk(h) && k < |h.frames|
    ensures Follows(p, HEvalStep(p, e, env, k, h), EvalStep(e, env, KontOf(p, h, k), Envs(p, h)))
  {
    hide HeapOk, EnvLookup, KontOf, CallStep, HCallStep, Envs;
    if e.proc.Ref? {
      SeenFollows(p, e.proc.name, env, k, h);
    }
    var q: ValueOf<nat> := if e.proc.Ref? then EnvLookup(h.envs, env, e.proc.name) else if e.proc.Lit? then Plain(e.proc.lit) else Plain(Const(UNDEF));
    if q.Proc? {
      var args: seq<ValueOf<nat>> := [Cont(k)];
      assert RenameAll(All(p, h), args) == [Cont(KontOf(p, h, k))];
      CallFollows(p, q.(lambda := true), args, env, k, h);
    }
  }

  // ---------- callbacks ----------

  /** A callback, seen from the items of its memo table. */
  lemma SimpleCallbackFollows(p: Fingerprints, callback: Callback, v: ValueOf<nat>, memo: nat, env: nat, next: nat, h: Heap)
    requires Separate(p) && HeapOk(h) && next < |h.frames| && Below(v, |h.frames|)
    requires memo < |h.memos| && MemoOk(callback, h.memos[memo]) && !Clones(callback)
    ensures Follows(p, CallbackStep(p, callback, v, memo, env, next, h),
                    RunStep(Val(p, h, v), Frame(CallbackJob(p, callback, h.memos[memo].items), env, KontOf(p, h, next)), Envs(p, h)))
  {
    hide HeapOk, KontOf, Envs, CallbackJob, JobKeptIn, RunStep, IfStep, AndStep, LetStep, KeysSeparate, KindOk;
    var m := h.memos[memo];
    SeparateHere(p, callback);
    JobIsKept(p, callback, m);
    match callback
    case AfterIfConditionEvaled => IfCallbackFollows(p, m, v, env, next, h);
    case AfterAndConditionEvaled => AndCallbackFollows(p, m, v, env, next, h);
    case AfterLetValExprEvaled => LetCallbackFollows(p, m, v, env, next, h);
  }

  lemma IfCallbackFollows(p: Fingerprints, m: Memo, v: ValueOf<nat>, env: nat, next: nat, h: Heap)
    requires Separate(p) && HeapOk(h) && next < |h.frames| && Below(v, |h.frames|) && MemoOk(AfterIfConditionEvaled, m)
    ensures Follows(p, IfStep(p, v, m, env, next, h),
                    RunStep(Val(p, h, v), Frame(JobKeptIn(AfterIfConditionEvaled, m.items), env, KontOf(p, h, next)), Envs(p, h)))
  {
    hide HeapOk, KontOf, Envs, ReadMemo, EvalWith, EnvDefine, KeysSeparate, At, KindOk, RenameEnvs;
    SeparateHere(p, AfterIfConditionEvaled);
    FindsAt(p, AfterIfConditionEvaled, m);
    KindsAre(AfterIfConditionEvaled, m);
  }

  lemma AndCallbackFollows(p: Fingerprints, m: Memo, v: ValueOf<nat>, env: nat, next: nat, h: Heap)
    requires Separate(p) && HeapOk(h) && next < |h.frames| && Below(v, |h.frames|) && MemoOk(AfterAndConditionEvaled, m)
    ensures Follows(p, AndStep(p, v, m, env, next, h),
                    RunStep(Val(p, h, v), Frame(JobKeptIn(AfterAndConditionEvaled, m.items), env, KontOf(p, h, next)), Envs(p, h)))
  {
    hide HeapOk, KontOf, Envs, ReadMemo, EvalWith, EnvDefine, KeysSeparate, At, KindOk, RenameEnvs;
    SeparateHere(p, AfterAndConditionEvaled);
    FindsAt(p, AfterAndConditionEvaled, m);
    KindsAre(AfterAndConditionEvaled, m);
    RestFollows(p, m.items[0].val.l, AfterAndConditionEvaled, env, next, h);
  }

  lemma LetCallbackFollows(p: Fingerprints, m: Memo, v: ValueOf<nat>, env: nat, next: nat, h: Heap)
    requires Separate(p) && HeapOk(h) && next < |h.frames| && Below(v, |h.frames|) && MemoOk(AfterLetValExprEvaled, m)
    ensures Follows(p, LetStep(p, v, m, env, next, h),
                    RunStep(Val(p, h, v), Frame(JobKeptIn(AfterLetValExprEvaled, m.items), env, KontOf(p, h, next)), Envs(p, h)))
  {
    hide HeapOk, KontOf, Envs, ReadMemo, EvalWith, EnvDefine, KeysSeparate, At, KindOk, RenameEnvs;
    SeparateHere(p, AfterLetValExprEvaled);
    FindsAt(p, AfterLetValExprEvaled, m);
    KindsAre(AfterLetValExprEvaled, m);
    Defined(p, h, env, m.items[0].val.name, v);
  }

  /** The callbacks that clone. */
  lemma CloningCallbackFollows(p: Fingerprints, callback: Callback, v: ValueOf<nat>, memo: nat, env: nat, next: nat, h: Heap)
    requires Separate(p) && HeapOk(h) && next < |h.frames| && Below(v, |h.frames|)
    requires memo < |h.memos| && MemoOk(callback, h.memos[memo]) && Clones(callback)
    ensures Follows(p, CallbackStep(p, callback, v, memo, env, next, h),
                    RunStep(Val(p, h, v), Frame(CallbackJob(p, callback, h.memos[memo].items), env, KontOf(p, h, next)), Envs(p, h)))
  {
    hide HeapOk, KontOf, Envs, ReadMemo, CallbackJob, CloneMemo, KeysSeparate, KindOk, RunStep, JobKeptIn;
    hide BeforeTestStep, AfterTestStep, AfterBodyStep, CondNext, OrStep;
    var m := h.memos[memo];
    SeparateHere(p, callback);
    JobIsKept(p, callback, m);
    MemoReads(p, callback, m);
    var copy := Memo(m.items, true);
    MemoAdded(p, h, copy);
    var h1 := h.(memos := h.memos + [copy]);
    ValGrown(p, h, h1, v);
    if callback.AfterCondClauseEvaled? {
      CondCallbackFollows(p, m.items, v, env, next, h1);
    } else if callback.AfterOrConditionEvaled? {
      OrCallbackFollows(p, m.items, v, env, next, h1);
    } else {
      LoopFollows(p, callback, m.items, v, |h.memos|, env, next, h1);
    }
  }

  lemma CondCallbackFollows(p: Fingerprints, items: Items, v: ValueOf<nat>, env: nat, next: nat, h: Heap)
    requires Separate(p) && HeapOk(h) && next < |h.frames| && Below(v, |h.frames|) && MemoOk(AfterCondClauseEvaled, Memo(items, true))
    ensures Follows(p, CondNext(p, v, Memo(items, true), env, next, h),
                    RunStep(Val(p, h, v), Frame(JobKeptIn(AfterCondClauseEvaled, items), env, KontOf(p, h, next)), Envs(p, h)))
  {
    hide HeapOk, KontOf, Envs, ReadMemo, CondStep, KeysSeparate, At, KindOk;
    var m := Memo(items, true);
    SeparateHere(p, AfterCondClauseEvaled);
    FindsAt(p, AfterCondClauseEvaled, m);
    KindsAre(AfterCondClauseEvaled, m);
    if items[0].val.clauses != [] {
      CondFollows(p, items[0].val.clauses, env, next, h);
    }
  }

  lemma OrCallbackFollows(p: Fingerprints, items: Items, v: ValueOf<nat>, env: nat, next: nat, h: Heap)
    requires Separate(p) && HeapOk(h) && next < |h.frames| && Below(v, |h.frames|) && MemoOk(AfterOrConditionEvaled, Memo(items, true))
    ensures Follows(p, OrStep(p, v, Memo(items, true), env, next, h),
                    RunStep(Val(p, h, v), Frame(JobKeptIn(AfterOrConditionEvaled, items), env, KontOf(p, h, next)), Envs(p, h)))
  {
    hide HeapOk, KontOf, Envs, ReadMemo, EvalWith, KeysSeparate, At, KindOk;
    var m := Memo(items, true);
    SeparateHere(p, AfterOrConditionEvaled);
    FindsAt(p, AfterOrConditionEvaled, m);
    KindsAre(AfterOrConditionEvaled, m);
    RestFollows(p, items[0].val.l, AfterOrConditionEvaled, env, next, h);
  }

  /** The frame that a callback of a loop makes for the next one. */
  lemma NextInLoop(p: Fingerprints, after: Callback, items: Items, memo: nat, env: nat, next: nat, h: Heap)
    requires Separate(p) && HeapOk(h) && next < |h.frames| && after in {BeforeForPrediction, AfterForPrediction, AfterForBodyEvaled}
    requires memo < |h.memos| && h.memos[memo] == Memo(items, true) && MemoOk(after, h.memos[memo])
    ensures var h1 := Alloc(h, NativeCallback(after, memo), env, next);
      HeapOk(h1) && Extends(h, h1) && Envs(p, h1) == Envs(p, h) && KontOf(p, h1, next) == KontOf(p, h, next)
      && KontOf(p, h1, |h.frames|) == Frame(JobKeptIn(after, items), env, KontOf(p, h, next))
  {
    hide HeapOk, KontOf, RenameEnvs, CallbackJob, JobKeptIn;
    SeparateHere(p, after);
    JobIsKept(p, after, Memo(items, true));
    Allocated(p, h, NativeCallback(after, memo), env, next);
    KontKept(p, h, Alloc(h, NativeCallback(after, memo), env, next), next);
  }

  lemma LoopFollows(p: Fingerprints, callback: Callback, items: Items, v: ValueOf<nat>, memo: nat, env: nat, next: nat, h: Heap)
    requires Separate(p) && HeapOk(h) && next < |h.frames| && Below(v, |h.frames|)
    requires callback in {BeforeForPrediction, AfterForPrediction, AfterForBodyEvaled}
    requires memo < |h.memos| && h.memos[memo] == Memo(items, true) && MemoOk(callback, h.memos[memo])
    ensures Follows(p,
      if callback.BeforeForPrediction? then BeforeTestStep(p, Memo(items, true), memo, env, next, h)
      else if callback.AfterForPrediction? then AfterTestStep(p, v, Memo(items, true), memo, env, next, h)
      else AfterBodyStep(p, Memo(items, true), memo, env, next, h),
      RunStep(Val(p, h, v), Frame(JobKeptIn(callback, items), env, KontOf(p, h, next)), Envs(p, h)))
  {
    hide BeforeTestStep, AfterTestStep, AfterBodyStep, RunStep, HeapOk, KontOf, Envs, Follows, JobKeptIn, MemoOk;
    if callback.BeforeForPrediction? {
      BeforeTestFollows(p, items, v, memo, env, next, h);
    } else if callback.AfterForPrediction? {
      AfterTestFollows(p, items, v, memo, env, next, h);
    } else {
      AfterBodyFollows(p, items, v, memo, env, next, h);
    }
  }

  lemma BeforeTestFollows(p: Fingerprints, items: Items, v: ValueOf<nat>, memo: nat, env: nat, next: nat, h: Heap)
    requires Separate(p) && HeapOk(h) && next < |h.frames| && memo < |h.memos|
    requires h.memos[memo] == Memo(items, true) && MemoOk(BeforeForPrediction, h.memos[memo])
    ensures Follows(p, BeforeTestStep(p, Memo(items, true), memo, env, next, h),
                    RunStep(Val(p, h, v), Frame(JobKeptIn(BeforeForPrediction, items), env, KontOf(p, h, next)), Envs(p, h)))
  {
    hide HeapOk, KontOf, Envs, ReadMemo, KeysSeparate, At, KindOk;
    SeparateHere(p, BeforeForPrediction);
    FindsAt(p, BeforeForPrediction, Memo(items, true));
    KindsAre(BeforeForPrediction, Memo(items, true));
    NextInLoop(p, AfterForPrediction, items, memo, env, next, h);
  }

  lemma AfterTestFollows(p: Fingerprints, items: Items, v: ValueOf<nat>, memo: nat, env: nat, next: nat, h: Heap)
    requires Separate(p) && HeapOk(h) && next < |h.frames| && memo < |h.memos|
    requires h.memos[memo] == Memo(items, true) && MemoOk(AfterForPrediction, h.memos[memo])
    ensures Follows(p, AfterTestStep(p, v, Memo(items, true), memo, env, next, h),
                    RunStep(Val(p, h, v), Frame(JobKeptIn(AfterForPrediction, items), env, KontOf(p, h, next)), Envs(p, h)))
  {
    hide HeapOk, KontOf, Envs, ReadMemo, KeysSeparate, At, KindOk;
    SeparateHere(p, AfterForPrediction);
    FindsAt(p, AfterForPrediction, Memo(items, true));
    KindsAre(AfterForPrediction, Memo(items, true));
    NextInLoop(p, AfterForBodyEvaled, items, memo, env, next, h);
  }

  lemma AfterBodyFollows(p: Fingerprints, items: Items, v: ValueOf<nat>, memo: nat, env: nat, next: nat, h: Heap)
    requires Separate(p) && HeapOk(h) && next < |h.frames| && memo < |h.memos|
    requires h.memos[memo] == Memo(items, true) && MemoOk(AfterForBodyEvaled, h.memos[memo])
    ensures Follows(p, AfterBodyStep(p, Memo(items, true), memo, env, next, h),
                    RunStep(Val(p, h, v), Frame(JobKeptIn(AfterForBodyEvaled, items), env, KontOf(p, h, next)), Envs(p, h)))
  {
    hide HeapOk, KontOf, Envs, ReadMemo, KeysSeparate, At, KindOk;
    SeparateHere(p, AfterForBodyEvaled);
    FindsAt(p, AfterForBodyEvaled, Memo(items, true));
    KindsAre(AfterForBodyEvaled, Memo(items, true));
    NextInLoop(p, BeforeForPrediction, items, memo, env, next, h);
  }

  lemma RunStepFollows(p: Fingerprints, v: ValueOf<nat>, k: nat, h: Heap)
    requires Separate(p) && HStateOk(Run(v, k, h))
    ensures Follows(p, HRunStep(p, v, k, h), RunStep(Val(p, h, v), KontOf(p, h, k), Envs(p, h)))
  {
    hide HeapOk, Envs, Split, CallbackStep, CallbackJob;
    var frame := h.frames[k];
    if frame.FrameRec? {
      FrameHere(p, h, k);
      var env, next := frame.env, frame.next;
      match frame.work
      case EvalSentenceList(_) =>
      case EvalSubj(rest) =>
        if rest != [] && Split(rest) != [] {
          VerbFollows(p, v, Split(rest), env, next, h);
        }
      case EvalClauseList(_, rest) =>
        if rest != [] {
          VerbFollows(p, v, rest, env, next, h);
        }
      case EvalClauseArgs(subj, rest, evaled) => ArgsFollow(p, v, subj, rest, evaled, env, next, h);
      case NativeCallback(callback, memo) =>
        if Clones(callback) {
          CloningCallbackFollows(p, callback, v, memo, env, next, h);
        } else {
          SimpleCallbackFollows(p, callback, v, memo, env, next, h);
        }
    }
  }

  /** What a frame means, with all that is there now. */
  lemma FrameHere(p: Fingerprints, h: Heap, k: nat)
    requires HeapOk(h) && k < |h.frames| && h.frames[k].FrameRec?
    ensures var frame := h.frames[k];
      frame.next < k && WorkOk(h.memos, frame.work, |h.frames|)
      && KontOf(p, h, k) == Frame(JobOf(p, h.memos, frame.work, All(p, h)), frame.env, KontOf(p, h, frame.next))
  {
    var frame := h.frames[k];
    assert FrameOk(h, k);
    JobKept(p, h.memos, h.memos, frame.work, Older(p, h, k), All(p, h), k);
    match frame.work
    case EvalClauseList(subj, _) => BelowMore(subj, k, |h.frames|);
    case EvalClauseArgs(subj, _, evaled) =>
      BelowMore(subj, k, |h.frames|);
      forall w <- evaled ensures Below(w, |h.frames|) {
        BelowMore(w, k, |h.frames|);
      }
    case _ =>
  }

  lemma VerbFollows(p: Fingerprints, v: ValueOf<nat>, clauses: seq<seq<Expr>>, env: nat, k: nat, h: Heap)
    requires HeapOk(h) && k < |h.frames| && Below(v, |h.frames|) && clauses != []
    ensures Follows(p, Verb(v, clauses[0], env, |h.frames|, Alloc(h, EvalClauseList(v, clauses[1..]), env, k)),
                    Verb(Val(p, h, v), clauses[0], env, Frame(ClauseList(Val(p, h, v), clauses[1..]), env, KontOf(p, h, k)), Envs(p, h)))
  {
    hide HeapOk, KontOf, Envs;
    var work := EvalClauseList(v, clauses[1..]);
    Allocated(p, h, work, env, k);
    ValGrown(p, h, Alloc(h, work, env, k), v);
  }

  lemma ArgsFollow(p: Fingerprints, v: ValueOf<nat>, subj: ValueOf<nat>, rest: seq<Expr>, evaled: seq<ValueOf<nat>>, env: nat, k: nat, h: Heap)
    requires HeapOk(h) && k < |h.frames| && Below(v, |h.frames|) && Below(subj, |h.frames|) && AllBelow(evaled, |h.frames|)
    ensures Follows(p,
      if rest == [] then Applying(subj, Reverse([v] + evaled), env, k, h)
      else EvalUnder(rest[0], env, EvalClauseArgs(subj, rest[1..], [v] + evaled), k, h),
      RunStep(Val(p, h, v), Frame(Args(Val(p, h, subj), rest, RenameAll(All(p, h), evaled)), env, KontOf(p, h, k)), Envs(p, h)))
  {
    hide HeapOk, KontOf, Envs;
    var vs := [v] + evaled;
    assert RenameAll(All(p, h), vs) == [Val(p, h, v)] + RenameAll(All(p, h), evaled);
    assert AllBelow(vs, |h.frames|);
    if rest == [] {
      ReverseRenamed(All(p, h), vs);
      ReverseBelow(vs, |h.frames|);
    } else {
      EvalUnderFollows(p, rest[0], env, EvalClauseArgs(subj, rest[1..], vs), env, k, h);
    }
  }

  lemma {:induction false} ReverseBelow(vs: seq<ValueOf<nat>>, n: nat)
    requires AllBelow(vs, n)
    ensures AllBelow(Reverse(vs), n)
  {
    if vs != [] {
      ReverseBelow(vs[1..], n);
    }
  }

  // ---------- runs ----------

  /** Each step means the step of the other machine. */
  lemma StepFollows(p: Fingerprints, d: Natives, hd: HNatives, s: HState)
    requires Separate(p) && Uniform(d, hd) && HStateOk(s)
    ensures Follows(p, HStep(p, hd, s), Step(d, Erase(p, s)))
  {
    hide HeapOk, KontOf, Envs, EvalStep, HEvalStep, ApplyStep, HApplyStep, RunStep, HRunStep;
    match s
    case Eval(e, env, k, h) => EvalFollows(p, e, env, k, h);
    case Body(sentences, env, k, h) =>
      if sentences != [] {
        EvalUnderFollows(p, sentences[0], env, EvalSentenceList(sentences[1..]), env, k, h);
      }
    case Verb(subj, clause, env, k, h) =>
      if IsInfix(clause) {
        var work := EvalClauseArgs(subj, clause[1..], []);
        assert RenameAll(All(p, h), []) == [];
        EvalUnderFollows(p, clause[0], env, work, env, k, h);
      }
    case Applying(subj, args, env, k, h) => ApplyFollows(p, d, hd, subj, args, env, k, h);
    case Run(v, k, h) => RunStepFollows(p, v, k, h);
    case Landed(_, _) =>
    case Stuck =>
  }
}
