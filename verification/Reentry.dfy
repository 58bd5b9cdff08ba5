/** Whole runs over the store of frames: what a continuation that was kept finds when it is run again,
    what a program comes to, and what it takes that no callback loses a key. */
module Reentry {
  import opened Kana
  import opened Direct
  import opened Agreement
  import opened TableItems
  import opened Frames
  import opened FrameMeaning
  import opened FrameSteps

  // ---------- what a run means ----------

  lemma {:induction false} RunMeans(p: Fingerprints, d: Natives, hd: HNatives, n: nat, s: HState)
    requires Separate(p) && Uniform(d, hd) && HStateOk(s)
    ensures HStateOk(HSteps(p, hd, n, s)) && Erase(p, HSteps(p, hd, n, s)) == Steps(d, n, Erase(p, s))
  {
    hide HStep, Step, HStateOk, Erase;
    if n > 0 {
      StepIsFollowed(p, d, hd, s);
      RunMeans(p, d, hd, n - 1, HStep(p, hd, s));
    }
  }

  lemma StepIsFollowed(p: Fingerprints, d: Natives, hd: HNatives, s: HState)
    requires Separate(p) && Uniform(d, hd) && HStateOk(s)
    ensures HStateOk(HStep(p, hd, s)) && Erase(p, HStep(p, hd, s)) == Step(d, Erase(p, s))
  {
    hide HStep, Step, HStateOk, Erase;
    StepFollows(p, d, hd, s);
  }

  /** The start of a program: a frame to return to, and `return` bound to it. */
  function HStart(program: seq<Expr>, root: nat, h: Heap): HState {
    var h1 := h.(frames := h.frames + [ReturnFrame]);
    Body(program, root, |h.frames|, Define(h1, root, "return", Cont(|h.frames|)))
  }

  lemma StartMeans(p: Fingerprints, program: seq<Expr>, root: nat, h: Heap)
    requires HeapOk(h)
    ensures HStateOk(HStart(program, root, h)) && Erase(p, HStart(program, root, h)) == Start(program, root, Envs(p, h))
  {
    var h1 := h.(frames := h.frames + [ReturnFrame]);
    EnvsGrown(p, h, h1, h.envs);
    forall k: nat | k < |h1.frames| ensures FrameOk(h1, k) {
      assert k < |h.frames| ==> FrameOk(h, k);
    }
    Defined(p, h1, root, "return", Cont(|h.frames|));
  }

  ghost predicate Lands(p: Fingerprints, hd: HNatives, n: nat, s: HState, v: Value, st: Store) {
    var s1 := HSteps(p, hd, n, s);
    s1.Landed? && Val(p, s1.st, s1.v) == v && Envs(p, s1.st) == st
  }

  ghost predicate Sticks(p: Fingerprints, hd: HNatives, n: nat, s: HState) { HSteps(p, hd, n, s).Stuck? }

  lemma LandingMeans(p: Fingerprints, d: Natives, hd: HNatives, n: nat, s: HState, v: Value, st: Store)
    requires Separate(p) && Uniform(d, hd) && HStateOk(s)
    ensures Lands(p, hd, n, s, v, st) <==> Steps(d, n, Erase(p, s)) == Landed(v, st)
    ensures Sticks(p, hd, n, s) <==> Steps(d, n, Erase(p, s)) == Stuck
  {
    RunMeans(p, d, hd, n, s);
  }

  /** The trampoline over the store of frames lands on a value, with environments, if and only if the
      program's meaning is that value and those environments; and gets stuck iff it has none. */
  lemma HeapTrampolineIsDirect(p: Fingerprints, d: Natives, hd: HNatives, program: seq<Expr>, root: nat, h: Heap, v: Value, st: Store)
    requires Separate(p) && Uniform(d, hd) && HeapOk(h)
    ensures (exists n: nat :: Lands(p, hd, n, HStart(program, root, h), v, st))
      <==> exists fuel: nat :: Meaning(d, fuel, program, root, Envs(p, h)) == Gives(v, st)
    ensures (exists n: nat :: Sticks(p, hd, n, HStart(program, root, h)))
      <==> exists fuel: nat :: Meaning(d, fuel, program, root, Envs(p, h)) == Fails
  {
    hide Meaning, Lands, Sticks, HStateOk, HeapOk, Start, HStart, Steps, HSteps, Envs;
    var s0, t0 := HStart(program, root, h), Start(program, root, Envs(p, h));
    StartMeans(p, program, root, h);
    TrampolineIsDirect(d, program, root, Envs(p, h), v, st);
    forall n: nat
      ensures Lands(p, hd, n, s0, v, st) <==> Steps(d, n, t0) == Landed(v, st)
      ensures Sticks(p, hd, n, s0) <==> Steps(d, n, t0) == Stuck
    {
      LandingMeans(p, d, hd, n, s0, v, st);
    }
  }

  // ---------- running a continuation again ----------

  /** Frame `k`, its memo table, and all it leads to are in `h1` as they were in `h`. */
  ghost predicate Kept(p: Fingerprints, h: Heap, h1: Heap, k: nat) {
    k < |h.frames| <= |h1.frames| && h1.frames[k] == h.frames[k] && KontOf(p, h1, k) == KontOf(p, h, k)
    && (h.frames[k].FrameRec? && h.frames[k].work.NativeCallback? && h.frames[k].work.memo < |h.memos| ==>
      |h.memos| <= |h1.memos| && h1.memos[h.frames[k].work.memo] == h.memos[h.frames[k].work.memo])
  }

  /** Whatever a run does in between, a frame stays what it was. No two keys need be separate. */
  lemma FrameIsKept(p: Fingerprints, hd: HNatives, n: nat, s: HState, k: nat)
    requires !s.Stuck? && !HSteps(p, hd, n, s).Stuck? && HeapOk(s.st) && k < |s.st.frames|
    ensures Kept(p, s.st, HSteps(p, hd, n, s).st, k)
  {
    hide HeapOk, HSteps, KontOf;
    RunOnlyAdds(p, hd, n, s);
    KontKept(p, s.st, HSteps(p, hd, n, s).st, k);
  }

  /** A continuation that is applied, after any number of steps, and so any number of times: it runs
      on what it was when `s` was reached, and neither the environment nor the continuation of the
      place where it is applied matters. */
  lemma AppliedFindsTheSame(p: Fingerprints, hd: HNatives, n: nat, s: HState, k: nat, env: nat, next: nat)
    requires !s.Stuck? && HeapOk(s.st) && k < |s.st.frames|
    requires var s1 := HSteps(p, hd, n, s); s1.Applying? && s1.subj == Cont(k) && |s1.args| > 1 && s1.args[0] == Plain(Mark(Apply))
    ensures var s1 := HSteps(p, hd, n, s);
      HStep(p, hd, s1) == Run(s1.args[1], k, s1.st) == HStep(p, hd, Applying(s1.subj, s1.args, env, next, s1.st))
      && Kept(p, s.st, s1.st, k)
      && Erase(p, HStep(p, hd, s1)) == Run(Val(p, s1.st, s1.args[1]), KontOf(p, s.st, k), Envs(p, s1.st))
  {
    hide HeapOk, KontOf, HSteps;
    FrameIsKept(p, hd, n, s, k);
  }
}
