/** When callbacks lose keys: exactly if two keys of a cloned memo table share a bucket; and with the
    hash that is used, none do. */
module MemoKeys {
  import opened Options
  import opened Kana
  import opened TableItems
  import opened Frames
  import opened FrameMeaning
  import opened FrameSteps
  import Murmur

  // ---------- with any hash ----------

  /** The keys of a memo table are told apart at all. */
  predicate ToldApart(p: Fingerprints, callback: Callback) {
    var keys := KeysOf(callback);
    forall i, j | 0 <= i < j < |keys| :: p(keys[i]) != p(keys[j])
  }

  predicate AllShare(p: Fingerprints) { SameBucket(p, "PredictExpr", "AfterExpr") && SameBucket(p, "AfterExpr", "BodyExprs") }

  /** The callback does not find a key in its clone, or the clone is never finished. */
  predicate Loses(p: Fingerprints, callback: Callback) {
    match callback
    case AfterCondClauseEvaled => SameBucket(p, "RestPairs", "IfTrue")
    case BeforeForPrediction => SameBucket(p, "PredictExpr", "AfterExpr") || SameBucket(p, "PredictExpr", "BodyExprs")
    case AfterForPrediction => AllShare(p)
    case AfterForBodyEvaled => SameBucket(p, "AfterExpr", "BodyExprs")
    case _ => false
  }

  /** No callback loses a key if and only if the keys of each cloned table are in different buckets. */
  lemma NoneLosesIffSeparate(p: Fingerprints)
    requires forall callback: Callback :: ToldApart(p, callback)
    ensures (forall callback: Callback :: !Loses(p, callback)) <==> Separate(p)
  {
    if forall callback: Callback :: !Loses(p, callback) {
      assert !Loses(p, AfterCondClauseEvaled) && !Loses(p, BeforeForPrediction) && !Loses(p, AfterForBodyEvaled);
      forall callback: Callback ensures KeysSeparate(p, callback) {
        assert ToldApart(p, callback);
      }
    }
    if Separate(p) {
      forall callback: Callback ensures !Loses(p, callback) {
        assert KeysSeparate(p, callback);
        ThreeOrTwo(p, callback);
      }
    }
  }

  lemma ThreeOrTwo(p: Fingerprints, callback: Callback)
    requires KeysSeparate(p, callback)
    ensures !Loses(p, callback)
  {
    var keys := KeysOf(callback);
    if |keys| == 3 {
      assert keys[0] == "PredictExpr" && keys[1] == "AfterExpr" && keys[2] == "BodyExprs";
    } else if |keys| == 2 {
      assert Clones(callback) ==> keys[0] == "RestPairs" && keys[1] == "IfTrue";
    }
  }

  /** Three keys can be pushed unless they are all in one bucket. */
  lemma ThreePushed(p: Fingerprints, size: nat, items: Items, a: string, b: string, c: string)
    requires size > 0 && |items| == 3
    requires items[0].key == Some(a) && items[1].key == Some(b) && items[2].key == Some(c)
    ensures CanPushAll(p, size, items) <==> !(p(a).hash % size == p(b).hash % size == p(c).hash % size)
  {
    assert items[..2][..1] == items[..1] && items[..1][..0] == [];
    assert items[..2][1] == items[1] && items[..1][0] == items[0];
    if p(a).hash % size == p(b).hash % size == p(c).hash % size {
      var h := p(a).hash % size;
      assert InBucket(p, size, items[0], h) && InBucket(p, size, items[1], h) && InBucket(p, size, items[2], h);
      assert |Shelf(p, size, items[..2], h)| == 2;
      assert |Shelf(p, size, items, h)| == 3;
    } else {
      forall h: nat | h < size ensures |Shelf(p, size, items, h)| <= 2 {
        assert !InBucket(p, size, items[0], h) || !InBucket(p, size, items[1], h) || !InBucket(p, size, items[2], h);
      }
    }
  }

  lemma FindsThree(p: Fingerprints, items: Items, a: string, b: string, c: string)
    requires |items| == 3 && p(a) != p(b) && p(a) != p(c) && p(b) != p(c)
    requires items[0].key == Some(a) && items[1].key == Some(b) && items[2].key == Some(c)
    ensures ReadPushed(p, MemoBuckets, items, a)
      == if SameBucket(p, a, b) || SameBucket(p, a, c) then Endless else Present(items[0].val)
    ensures ReadPushed(p, MemoBuckets, items, b) == if SameBucket(p, b, c) then Endless else Present(items[1].val)
    ensures ReadPushed(p, MemoBuckets, items, c) == Present(items[2].val)
  {
    ReadOfItem(p, MemoBuckets, items, 0);
    ReadOfItem(p, MemoBuckets, items, 1);
    ReadOfItem(p, MemoBuckets, items, 2);
    assert SameBucket(p, a, b) ==> InBucket(p, MemoBuckets, items[1], p(a).hash % MemoBuckets);
    assert SameBucket(p, a, c) ==> InBucket(p, MemoBuckets, items[2], p(a).hash % MemoBuckets);
    assert SameBucket(p, b, c) ==> InBucket(p, MemoBuckets, items[2], p(b).hash % MemoBuckets);
  }

  lemma FindsTwo(p: Fingerprints, items: Items, a: string, b: string)
    requires |items| == 2 && p(a) != p(b) && items[0].key == Some(a) && items[1].key == Some(b)
    ensures CanPushAll(p, MemoBuckets, items)
    ensures ReadPushed(p, MemoBuckets, items, a) == if SameBucket(p, a, b) then Endless else Present(items[0].val)
    ensures ReadPushed(p, MemoBuckets, items, b) == Present(items[1].val)
  {
    ReadOfItem(p, MemoBuckets, items, 0);
    ReadOfItem(p, MemoBuckets, items, 1);
    assert SameBucket(p, a, b) ==> InBucket(p, MemoBuckets, items[1], p(a).hash % MemoBuckets);
  }

  /** A callback gets stuck, whatever it is given, exactly if it loses a key. */
  lemma CallbackSticks(p: Fingerprints, callback: Callback, v: ValueOf<nat>, memo: nat, env: nat, next: nat, h: Heap)
    requires memo < |h.memos| && MemoOk(callback, h.memos[memo]) && ToldApart(p, callback)
    ensures CallbackStep(p, callback, v, memo, env, next, h).Stuck? <==> Loses(p, callback)
  {
    hide CallbackStep, Loses, MemoOk, ToldApart;
    if !Clones(callback) || callback.AfterOrConditionEvaled? {
      NeverSticks(p, callback, v, memo, env, next, h);
    } else if callback.AfterCondClauseEvaled? {
      CondSticks(p, v, memo, env, next, h);
    } else {
      LoopSticks(p, callback, v, memo, env, next, h);
    }
  }

  lemma NeverSticks(p: Fingerprints, callback: Callback, v: ValueOf<nat>, memo: nat, env: nat, next: nat, h: Heap)
    requires memo < |h.memos| && MemoOk(callback, h.memos[memo]) && ToldApart(p, callback)
    requires !Clones(callback) || callback.AfterOrConditionEvaled?
    ensures !CallbackStep(p, callback, v, memo, env, next, h).Stuck? && !Loses(p, callback)
  {
    hide ReadMemo, KindOk;
    KindsAre(callback, h.memos[memo]);
    MemoReads(p, callback, h.memos[memo]);
    FindsAt(p, callback, h.memos[memo]);
  }

  lemma CondSticks(p: Fingerprints, v: ValueOf<nat>, memo: nat, env: nat, next: nat, h: Heap)
    requires memo < |h.memos| && MemoOk(AfterCondClauseEvaled, h.memos[memo]) && ToldApart(p, AfterCondClauseEvaled)
    ensures CallbackStep(p, AfterCondClauseEvaled, v, memo, env, next, h).Stuck? <==> Loses(p, AfterCondClauseEvaled)
  {
    hide ReadPushed, CanPushAll, KindOk;
    var keys := KeysOf(AfterCondClauseEvaled);
    KindsAre(AfterCondClauseEvaled, h.memos[memo]);
    assert p(keys[0]) != p(keys[1]);
    FindsTwo(p, h.memos[memo].items, keys[0], keys[1]);
  }

  lemma LoopSticks(p: Fingerprints, callback: Callback, v: ValueOf<nat>, memo: nat, env: nat, next: nat, h: Heap)
    requires memo < |h.memos| && MemoOk(callback, h.memos[memo]) && ToldApart(p, callback)
    requires callback in {BeforeForPrediction, AfterForPrediction, AfterForBodyEvaled}
    ensures CallbackStep(p, callback, v, memo, env, next, h).Stuck? <==> Loses(p, callback)
  {
    hide ReadPushed, CanPushAll, KindOk;
    var keys, items := KeysOf(callback), h.memos[memo].items;
    KindsAre(callback, h.memos[memo]);
    assert p(keys[0]) != p(keys[1]) && p(keys[0]) != p(keys[2]) && p(keys[1]) != p(keys[2]);
    FindsThree(p, items, keys[0], keys[1], keys[2]);
    ThreePushed(p, MemoBuckets, items, keys[0], keys[1], keys[2]);
  }

  /** The start of a loop does so exactly if `continue` cannot get its clone. */
  lemma ForSticks(p: Fingerprints, e: Expr, env: nat, k: nat, h: Heap)
    requires e.For? && ToldApart(p, BeforeForPrediction)
    ensures ForStep(p, e.init, e.test, e.after, e.body, env, k, h).Stuck? <==> AllShare(p)
  {
    hide Put, Find, CanPushAll;
    var keys := KeysOf(BeforeForPrediction);
    assert p(keys[0]) != p(keys[1]) && p(keys[0]) != p(keys[2]) && p(keys[1]) != p(keys[2]);
    ForMade(p, e.test, e.after, e.body);
    ThreePushed(p, MemoBuckets, ForItems(e.test, e.after, e.body), keys[0], keys[1], keys[2]);
  }

  // ---------- with the hash that is used ----------

  ghost predicate UsesMurmur(p: Fingerprints) {
    forall key | Murmur.IsKey(key) :: p(key).hash == Murmur.Hash(key, 31) as nat
  }

  /** In the 32 buckets of a memo table no two keys of one table meet. */
  lemma KeysAreSeparate(p: Fingerprints)
    requires UsesMurmur(p)
    ensures Separate(p)
  {
    hide UsesMurmur;
    LoopHashes(p);
    PairHashes(p);
    forall callback: Callback ensures KeysSeparate(p, callback) {
      var keys := KeysOf(callback);
      if |keys| == 3 {
        assert keys == ["PredictExpr", "AfterExpr", "BodyExprs"];
      }
    }
  }

  lemma LoopHashes(p: Fingerprints)
    requires UsesMurmur(p)
    ensures p("PredictExpr").hash % MemoBuckets == 28 && p("AfterExpr").hash % MemoBuckets == 26
    ensures p("BodyExprs").hash % MemoBuckets == 5
  {
    hide Murmur.Hash;
    Murmur.PredictExprHash();
    Murmur.AfterExprHash();
    Murmur.BodyExprsHash();
    assert Murmur.IsKey("PredictExpr") && Murmur.IsKey("AfterExpr") && Murmur.IsKey("BodyExprs");
  }

  lemma PairHashes(p: Fingerprints)
    requires UsesMurmur(p)
    ensures p("RestPairs").hash % MemoBuckets == 4 && p("IfTrue").hash % MemoBuckets == 17
    ensures p("TrueClause").hash % MemoBuckets == 22 && p("FalseClause").hash % MemoBuckets == 30
  {
    hide Murmur.Hash;
    Murmur.RestPairsHash();
    Murmur.IfTrueHash();
    Murmur.TrueClauseHash();
    Murmur.FalseClauseHash();
    assert Murmur.IsKey("RestPairs") && Murmur.IsKey("IfTrue") && Murmur.IsKey("TrueClause") && Murmur.IsKey("FalseClause");
  }
}
