/** What an ordered table holds: a list of items, some of them under a key. */
module TableItems {
  import opened Options

  // ---------- what the table means ----------

  /** What identifies a key: nothing else is compared. */
  datatype Fingerprint = Fingerprint(hash: nat, len: nat, verify: nat)

  type Fingerprints = string -> Fingerprint

  datatype Item<V> = Item(key: Option<string>, val: V)

  predicate Holds<V>(p: Fingerprints, item: Item<V>, key: string) { item.key.Some? && p(item.key.value) == p(key) }

  /** The first item under the key, or the number of items. */
  function Find<V>(p: Fingerprints, items: seq<Item<V>>, key: string): (i: nat)
    ensures i <= |items|
    ensures i < |items| ==> Holds(p, items[i], key)
    ensures forall j | 0 <= j < i :: !Holds(p, items[j], key)
  {
    if items == [] || Holds(p, items[0], key) then 0 else 1 + Find(p, items[1..], key)
  }

  /** The value under a key, if there is one. */
  function At<V>(p: Fingerprints, items: seq<Item<V>>, key: string): Option<V> {
    var i := Find(p, items, key);
    if i < |items| then Some(items[i].val) else None
  }

  /** A key that is there gets the new value where it stands; another one comes last. */
  function Put<V>(p: Fingerprints, items: seq<Item<V>>, key: string, v: V): seq<Item<V>> {
    var i := Find(p, items, key);
    if i < |items| then items[i := Item(Some(key), v)] else items + [Item(Some(key), v)]
  }

  lemma PutsLast<V>(p: Fingerprints, items: seq<Item<V>>, key: string, v: V)
    requires Find(p, items, key) == |items|
    ensures Put(p, items, key, v) == items + [Item(Some(key), v)]
  {
  }

  lemma PutsAt<V>(p: Fingerprints, items: seq<Item<V>>, key: string, v: V)
    requires Find(p, items, key) < |items|
    ensures Put(p, items, key, v) == items[Find(p, items, key) := Item(Some(key), v)]
  {
  }

  // ---------- histories ----------

  datatype Op<V> = PushOp(v: V) | UnshiftOp(v: V) | PutOp(key: string, v: V)

  function Do<V>(p: Fingerprints, items: seq<Item<V>>, op: Op<V>): seq<Item<V>> {
    match op
    case PushOp(v) => items + [Item(None, v)]
    case UnshiftOp(v) => [Item(None, v)] + items
    case PutOp(key, v) => Put(p, items, key, v)
  }

  /** The items after a history of operations on `items`. */
  function After<V>(p: Fingerprints, items: seq<Item<V>>, ops: seq<Op<V>>): seq<Item<V>>
    decreases |ops|
  {
    if ops == [] then items else After(p, Do(p, items, ops[0]), ops[1..])
  }

  /** The value of the last put under the key, or `v` if there is none. */
  function Latest<V>(p: Fingerprints, ops: seq<Op<V>>, key: string, v: Option<V>): Option<V> {
    if ops == [] then v
    else Latest(p, ops[1..], key, if ops[0].PutOp? && p(ops[0].key) == p(key) then Some(ops[0].v) else v)
  }

  function Unshifts<V>(ops: seq<Op<V>>): nat {
    if ops == [] then 0 else (if ops[0].UnshiftOp? then 1 else 0) + Unshifts(ops[1..])
  }

  /** No two items have keys of one fingerprint. */
  predicate Distinct<V>(p: Fingerprints, items: seq<Item<V>>) {
    forall i, j | 0 <= i < j < |items| && items[i].key.Some? && items[j].key.Some? ::
      p(items[i].key.value) != p(items[j].key.value)
  }

  /** Find is the only item under the key. */
  lemma FindIsOnly<V>(p: Fingerprints, items: seq<Item<V>>, key: string, i: nat)
    requires Distinct(p, items) && i < |items| && Holds(p, items[i], key)
    ensures Find(p, items, key) == i
  {
  }

  lemma NotFound<V>(p: Fingerprints, items: seq<Item<V>>, key: string)
    requires forall i | 0 <= i < |items| :: !Holds(p, items[i], key)
    ensures Find(p, items, key) == |items|
  {
  }

  /** What one operation does to the place of a key. */
  lemma DoFind<V>(p: Fingerprints, items: seq<Item<V>>, op: Op<V>, key: string)
    requires Distinct(p, items)
    ensures var items1, i := Do(p, items, op), Find(p, items, key);
      Distinct(p, items1)
      && At(p, items1, key) == (if op.PutOp? && p(op.key) == p(key) then Some(op.v) else At(p, items, key))
      && (i < |items| ==> Find(p, items1, key) == i + if op.UnshiftOp? then 1 else 0)
  {
    match op
    case PushOp(v) => PushFind(p, items, v, key);
    case UnshiftOp(v) => UnshiftFind(p, items, v, key);
    case PutOp(k, v) => PutFind(p, items, k, v, key);
  }

  lemma PushFind<V>(p: Fingerprints, items: seq<Item<V>>, v: V, key: string)
    requires Distinct(p, items)
    ensures var items1 := items + [Item(None, v)];
      Distinct(p, items1) && At(p, items1, key) == At(p, items, key)
      && (Find(p, items, key) < |items| ==> Find(p, items1, key) == Find(p, items, key))
  {
    var items1, i := items + [Item(None, v)], Find(p, items, key);
    if i < |items| {
      FindIsOnly(p, items1, key, i);
    } else {
      NotFound(p, items1, key);
    }
  }

  lemma UnshiftFind<V>(p: Fingerprints, items: seq<Item<V>>, v: V, key: string)
    ensures var items1 := [Item(None, v)] + items;
      (Distinct(p, items) ==> Distinct(p, items1)) && At(p, items1, key) == At(p, items, key)
      && Find(p, items1, key) == Find(p, items, key) + 1
  {
    var items1 := [Item(None, v)] + items;
    assert items1[1..] == items && !Holds(p, items1[0], key);
    assert forall i | 1 <= i < |items1| :: items1[i] == items[i - 1];
  }

  lemma PutFind<V>(p: Fingerprints, items: seq<Item<V>>, putKey: string, v: V, key: string)
    requires Distinct(p, items)
    ensures var items1, i := Put(p, items, putKey, v), Find(p, items, key);
      Distinct(p, items1)
      && At(p, items1, key) == (if p(putKey) == p(key) then Some(v) else At(p, items, key))
      && (i < |items| ==> Find(p, items1, key) == i)
  {
    var items1, i, at := Put(p, items, putKey, v), Find(p, items, key), Find(p, items, putKey);
    assert Distinct(p, items1);
    if p(putKey) == p(key) {
      FindIsOnly(p, items1, key, at);
      if i < |items| {
        FindIsOnly(p, items, putKey, i);
      }
    } else if i < |items| {
      FindIsOnly(p, items1, key, i);
    } else {
      NotFound(p, items1, key);
    }
  }

  /** After any history from an empty table a key leads to the value put last under it, and keys
      stay distinct. */
  lemma {:induction false} LatestIsFound<V>(p: Fingerprints, items: seq<Item<V>>, ops: seq<Op<V>>, key: string)
    requires Distinct(p, items)
    ensures Distinct(p, After(p, items, ops))
    ensures At(p, After(p, items, ops), key) == Latest(p, ops, key, At(p, items, key))
    decreases |ops|
  {
    if ops != [] {
      DoFind(p, items, ops[0], key);
      LatestIsFound(p, Do(p, items, ops[0]), ops[1..], key);
    }
  }

  /** A key keeps its place: only values put in front move it. */
  lemma {:induction false} PlaceIsKept<V>(p: Fingerprints, items: seq<Item<V>>, ops: seq<Op<V>>, key: string)
    requires Distinct(p, items) && Find(p, items, key) < |items|
    ensures Find(p, After(p, items, ops), key) == Find(p, items, key) + Unshifts(ops)
    decreases |ops|
  {
    if ops != [] {
      DoFind(p, items, ops[0], key);
      PlaceIsKept(p, Do(p, items, ops[0]), ops[1..], key);
    }
  }

  /** If no two keys share a fingerprint, the table is a map from keys: each key leads to its own last
      value, and to nothing if it was never put. */
  lemma {:induction false} OwnValue<V>(p: Fingerprints, ops: seq<Op<V>>, key: string, v: Option<V>)
    requires forall a, b | p(a) == p(b) :: a == b
    ensures (forall i | 0 <= i < |ops| :: ops[i].PutOp? ==> ops[i].key != key) ==> Latest(p, ops, key, v) == v
    ensures forall i | 0 <= i < |ops| && ops[i].PutOp? && ops[i].key == key
      && (forall j | i < j < |ops| && ops[j].PutOp? :: ops[j].key != key) :: Latest(p, ops, key, v) == Some(ops[i].v)
    decreases |ops|
  {
    if ops != [] {
      var v1 := if ops[0].PutOp? && ops[0].key == key then Some(ops[0].v) else v;
      OwnValue(p, ops[1..], key, v1);
      forall i | 0 <= i < |ops| && ops[i].PutOp? && ops[i].key == key
        && (forall j | i < j < |ops| && ops[j].PutOp? :: ops[j].key != key)
        ensures Latest(p, ops, key, v) == Some(ops[i].v)
      {
        if i > 0 {
          assert ops[1..][i - 1] == ops[i];
        }
      }
    }
  }

  /** And if two do, putting one replaces the other. */
  lemma SharedFingerprint<V>(p: Fingerprints, a: string, b: string, v: V, w: V)
    requires p(a) == p(b)
    ensures Put(p, Put(p, [], a, v), b, w) == [Item(Some(b), w)]
  {
    assert Put(p, [], a, v) == [Item(Some(a), v)];
    FindIsOnly(p, [Item(Some(a), v)], b, 0);
  }

  // ---------- shadow clones ----------

  /** What looking for a key comes to: a loop in a bucket that does not hold it has no end. */
  datatype Found<V> = Present(v: V) | Absent | Endless

  predicate InBucket<V>(p: Fingerprints, size: nat, item: Item<V>, h: nat)
    requires size > 0
  {
    item.key.Some? && p(item.key.value).hash % size == h
  }

  /** The items with keys of one bucket. */
  function Shelf<V>(p: Fingerprints, size: nat, items: seq<Item<V>>, h: nat): (shelf: seq<Item<V>>)
    requires size > 0
    ensures |shelf| <= |items|
    ensures forall i | 0 <= i < |shelf| :: InBucket(p, size, shelf[i], h)
  {
    if items == [] then []
    else
      var n := |items| - 1;
      Shelf(p, size, items[..n], h) + if InBucket(p, size, items[n], h) then [items[n]] else []
  }

  lemma ShelfPlus<V>(p: Fingerprints, size: nat, items: seq<Item<V>>, item: Item<V>, h: nat)
    requires size > 0
    ensures Shelf(p, size, items + [item], h) == Shelf(p, size, items, h) + if InBucket(p, size, item, h) then [item] else []
  {
    assert (items + [item])[..|items|] == items;
  }

  /** Looking for a key where all keys have been pushed: only the last one of a bucket is found. */
  function ReadPushed<V>(p: Fingerprints, size: nat, items: seq<Item<V>>, key: string): Found<V>
    requires size > 0
  {
    var shelf := Shelf(p, size, items, p(key).hash % size);
    if shelf == [] then Absent
    else if Holds(p, shelf[|shelf| - 1], key) then Present(shelf[|shelf| - 1].val)
    else if |shelf| == 1 then Absent
    else Endless
  }

  /** Pushing a value under a key takes the key away from the item that had it. */
  function PushedOnto<V>(p: Fingerprints, items: seq<Item<V>>, key: string, v: V): seq<Item<V>> {
    var i := Find(p, items, key);
    (if i < |items| then items[i := Item(None, items[i].val)] else items) + [Item(Some(key), v)]
  }

  lemma PushedOntoDistinct<V>(p: Fingerprints, items: seq<Item<V>>, key: string, v: V)
    requires Distinct(p, items)
    ensures Distinct(p, PushedOnto(p, items, key, v))
  {
    OnlyFound(p, items, key);
  }

  lemma OnlyFound<V>(p: Fingerprints, items: seq<Item<V>>, key: string)
    requires Distinct(p, items)
    ensures forall j: nat | j < |items| && Holds(p, items[j], key) :: Find(p, items, key) == j
  {
    forall j: nat | j < |items| && Holds(p, items[j], key) ensures Find(p, items, key) == j {
      FindIsOnly(p, items, key, j);
    }
  }

  /** Looking for a key where all keys have been put. */
  function ReadPut<V>(p: Fingerprints, items: seq<Item<V>>, key: string): Found<V> {
    match At(p, items, key)
    case None => Absent
    case Some(v) => Present(v)
  }

  /** Pushing every key ends: no bucket gets a third. */
  predicate CanPushAll<V>(p: Fingerprints, size: nat, items: seq<Item<V>>)
    requires size > 0
  {
    forall h: nat | h < size :: |Shelf(p, size, items, h)| <= 2
  }

  /** No two keys share a bucket. */
  predicate Apart<V>(p: Fingerprints, size: nat, items: seq<Item<V>>)
    requires size > 0
  {
    forall i, j | 0 <= i < j < |items| && items[i].key.Some? && items[j].key.Some? ::
      p(items[i].key.value).hash % size != p(items[j].key.value).hash % size
  }

  lemma {:induction false} ShelfHas<V>(p: Fingerprints, size: nat, items: seq<Item<V>>, h: nat, i: nat)
    requires size > 0 && i < |items| && InBucket(p, size, items[i], h)
    ensures var shelf := Shelf(p, size, items, h);
      shelf != [] && exists j :: i <= j < |items| && shelf[|shelf| - 1] == items[j] && InBucket(p, size, items[j], h)
  {
    var n := |items| - 1;
    if i < n && !InBucket(p, size, items[n], h) {
      ShelfHas(p, size, items[..n], h, i);
      var shelf := Shelf(p, size, items[..n], h);
      var j :| i <= j < n && shelf[|shelf| - 1] == items[..n][j] && InBucket(p, size, items[..n][j], h);
      assert items[j] == items[..n][j];
    }
  }

  lemma {:induction false} ShelfLast<V>(p: Fingerprints, size: nat, items: seq<Item<V>>, h: nat)
    requires size > 0
    ensures var shelf := Shelf(p, size, items, h);
      shelf != [] ==> exists j :: 0 <= j < |items| && shelf[|shelf| - 1] == items[j]
  {
    if items != [] {
      var n := |items| - 1;
      ShelfLast(p, size, items[..n], h);
      var shelf := Shelf(p, size, items[..n], h);
      if shelf != [] {
        var j :| 0 <= j < n && shelf[|shelf| - 1] == items[..n][j];
        assert items[j] == items[..n][j];
      }
    }
  }

  lemma {:induction false} ShelfHasTwo<V>(p: Fingerprints, size: nat, items: seq<Item<V>>, h: nat)
    requires size > 0 && |Shelf(p, size, items, h)| >= 2
    ensures exists i, j :: 0 <= i < j < |items| && InBucket(p, size, items[i], h) && InBucket(p, size, items[j], h)
  {
    var n := |items| - 1;
    if |Shelf(p, size, items[..n], h)| >= 2 {
      ShelfHasTwo(p, size, items[..n], h);
      var i, j :| 0 <= i < j < n && InBucket(p, size, items[..n][i], h) && InBucket(p, size, items[..n][j], h);
      assert items[i] == items[..n][i] && items[j] == items[..n][j];
    } else {
      ShelfLast(p, size, items[..n], h);
      var shelf := Shelf(p, size, items[..n], h);
      var i :| 0 <= i < n && shelf[|shelf| - 1] == items[..n][i];
      assert items[i] == items[..n][i] && InBucket(p, size, items[n], h);
    }
  }

  lemma ShelfOfApart<V>(p: Fingerprints, size: nat, items: seq<Item<V>>, h: nat)
    requires size > 0 && Apart(p, size, items)
    ensures |Shelf(p, size, items, h)| <= 1
  {
    if |Shelf(p, size, items, h)| >= 2 {
      ShelfHasTwo(p, size, items, h);
    }
  }

  lemma {:induction false} TwoOnShelf<V>(p: Fingerprints, size: nat, items: seq<Item<V>>, h: nat, i: nat, j: nat)
    requires size > 0 && i < j < |items| && InBucket(p, size, items[i], h) && InBucket(p, size, items[j], h)
    ensures |Shelf(p, size, items, h)| >= 2
  {
    var n := |items| - 1;
    if j < n {
      TwoOnShelf(p, size, items[..n], h, i, j);
    } else {
      ShelfHas(p, size, items[..n], h, i);
    }
  }

  lemma ApartCanBePushed<V>(p: Fingerprints, size: nat, items: seq<Item<V>>)
    requires size > 0 && Apart(p, size, items)
    ensures CanPushAll(p, size, items)
  {
    forall h: nat | h < size ensures |Shelf(p, size, items, h)| <= 2 {
      ShelfOfApart(p, size, items, h);
    }
  }

  /** More items, fuller shelves. */
  lemma {:induction false} ShelfGrows<V>(p: Fingerprints, size: nat, items: seq<Item<V>>, n: nat, h: nat)
    requires size > 0 && n <= |items|
    ensures |Shelf(p, size, items[..n], h)| <= |Shelf(p, size, items, h)|
  {
    if n < |items| {
      assert items[..|items| - 1][..n] == items[..n];
      ShelfGrows(p, size, items[..|items| - 1], n, h);
    } else {
      assert items[..n] == items;
    }
  }

  lemma ReadOfNewKey<V>(p: Fingerprints, size: nat, items: seq<Item<V>>, key: string)
    requires size > 0 && Find(p, items, key) == |items|
    ensures ReadPushed(p, size, items, key) == if |Shelf(p, size, items, p(key).hash % size)| < 2 then Absent else Endless
  {
    ShelfLast(p, size, items, p(key).hash % size);
  }

  predicate IsNew<V>(p: Fingerprints, items: seq<Item<V>>, key: Option<string>) {
    key.Some? ==> Find(p, items, key.value) == |items|
  }

  /** There is room for a key, if there is one: its bucket has no loop yet. */
  predicate Fits<V>(p: Fingerprints, size: nat, items: seq<Item<V>>, key: Option<string>)
    requires size > 0
  {
    key.Some? ==> |Shelf(p, size, items, p(key.value).hash % size)| < 2
  }

  lemma NextIsNew<V>(p: Fingerprints, size: nat, items: seq<Item<V>>, i: nat)
    requires size > 0 && Distinct(p, items) && i < |items|
    ensures IsNew(p, items[..i], items[i].key) && Distinct(p, items[..i])
    ensures CanPushAll(p, size, items) ==> Fits(p, size, items[..i], items[i].key)
  {
    if items[i].key.Some? {
      var h := p(items[i].key.value).hash % size;
      NotFound(p, items[..i], items[i].key.value);
      assert items[..i + 1][..i] == items[..i] && InBucket(p, size, items[..i + 1][i], h);
      ShelfGrows(p, size, items, i + 1, h);
    }
  }

  /** A key is found in a clone exactly if no later one shares its bucket; looking for another one
      has no end. */
  lemma ReadOfItem<V>(p: Fingerprints, size: nat, items: seq<Item<V>>, i: nat)
    requires size > 0 && Distinct(p, items) && i < |items| && items[i].key.Some?
    ensures var key := items[i].key.value;
      ReadPushed(p, size, items, key)
      == if exists j :: i < j < |items| && InBucket(p, size, items[j], p(key).hash % size) then Endless else Present(items[i].val)
  {
    var key := items[i].key.value;
    var h := p(key).hash % size;
    if j :| i < j < |items| && InBucket(p, size, items[j], h) {
      LosesKey(p, size, items, i, j);
    } else {
      assert InBucket(p, size, items[i], h);
      ShelfHas(p, size, items, h, i);
    }
  }

  /** The item a key is found at is the last of its bucket. */
  lemma FoundIsLast<V>(p: Fingerprints, size: nat, items: seq<Item<V>>, key: string)
    requires size > 0 && Distinct(p, items) && ReadPushed(p, size, items, key).Present?
    ensures var i := Find(p, items, key);
      i < |items| && forall j | i < j < |items| :: !InBucket(p, size, items[j], p(key).hash % size)
  {
    var h := p(key).hash % size;
    ShelfLast(p, size, items, h);
    OnlyFound(p, items, key);
    var shelf := Shelf(p, size, items, h);
    var i: nat :| i < |items| && shelf[|shelf| - 1] == items[i];
    forall j: nat | j < |items| && InBucket(p, size, items[j], h) ensures j <= i {
      ShelfHas(p, size, items, h, j);
      var m: nat :| j <= m < |items| && shelf[|shelf| - 1] == items[m] && InBucket(p, size, items[m], h);
    }
  }

  /** Taking the key away from the last item of a bucket takes it off the shelf. */
  lemma {:induction false} ShelfWithout<V>(p: Fingerprints, size: nat, items: seq<Item<V>>, i: nat, g: nat)
    requires size > 0 && i < |items| && items[i].key.Some?
    requires forall j | i < j < |items| :: !InBucket(p, size, items[j], p(items[i].key.value).hash % size)
    ensures var h, shelf := p(items[i].key.value).hash % size, Shelf(p, size, items, g);
      if g == h then shelf != [] && Shelf(p, size, items[i := Item(None, items[i].val)], g) == shelf[..|shelf| - 1]
      else Shelf(p, size, items[i := Item(None, items[i].val)], g) == shelf
  {
    var n := |items| - 1;
    var item: Item<V> := Item(None, items[i].val);
    var items1 := items[i := item];
    if i < n {
      assert items1[..n] == items[..n][i := item];
      ShelfWithout(p, size, items[..n], i, g);
    } else {
      assert items1[..n] == items[..n];
    }
  }

  lemma AbsentIsNew<V>(p: Fingerprints, size: nat, items: seq<Item<V>>, key: string)
    requires size > 0 && Distinct(p, items) && ReadPushed(p, size, items, key).Absent?
    ensures Find(p, items, key) == |items|
  {
    var i := Find(p, items, key);
    if i < |items| {
      ReadOfItem(p, size, items, i);
    }
  }

  /** A shadow clone reads like its original, for every key, exactly if no two keys share a bucket. */
  lemma CloneReadsAlike<V>(p: Fingerprints, size: nat, items: seq<Item<V>>)
    requires size > 0 && Distinct(p, items)
    ensures (forall key :: ReadPushed(p, size, items, key) == ReadPut(p, items, key)) <==> Apart(p, size, items)
  {
    if Apart(p, size, items) {
      forall key ensures ReadPushed(p, size, items, key) == ReadPut(p, items, key) {
        ReadsAlike(p, size, items, key);
      }
    } else {
      var i, j :| 0 <= i < j < |items| && items[i].key.Some? && items[j].key.Some?
        && p(items[i].key.value).hash % size == p(items[j].key.value).hash % size;
      LosesKey(p, size, items, i, j);
    }
  }

  lemma ReadsAlike<V>(p: Fingerprints, size: nat, items: seq<Item<V>>, key: string)
    requires size > 0 && Distinct(p, items) && Apart(p, size, items)
    ensures ReadPushed(p, size, items, key) == ReadPut(p, items, key)
  {
    var h, i := p(key).hash % size, Find(p, items, key);
    var shelf := Shelf(p, size, items, h);
    ShelfOfApart(p, size, items, h);
    ShelfLast(p, size, items, h);
    if i < |items| {
      assert InBucket(p, size, items[i], h);
      ShelfHas(p, size, items, h, i);
      var j :| i <= j < |items| && shelf[|shelf| - 1] == items[j] && InBucket(p, size, items[j], h);
    }
  }

  /** The earlier of two keys in a bucket is never found again. */
  lemma LosesKey<V>(p: Fingerprints, size: nat, items: seq<Item<V>>, i: nat, j: nat)
    requires size > 0 && Distinct(p, items) && i < j < |items| && items[i].key.Some? && items[j].key.Some?
    requires p(items[i].key.value).hash % size == p(items[j].key.value).hash % size
    ensures ReadPushed(p, size, items, items[i].key.value) == Endless
    ensures ReadPut(p, items, items[i].key.value) == Present(items[i].val)
  {
    var key := items[i].key.value;
    var h := p(key).hash % size;
    var shelf := Shelf(p, size, items, h);
    assert InBucket(p, size, items[i], h) && InBucket(p, size, items[j], h);
    TwoOnShelf(p, size, items, h, i, j);
    ShelfHas(p, size, items, h, j);
    var l :| j <= l < |items| && shelf[|shelf| - 1] == items[l] && InBucket(p, size, items[l], h);
    FindIsOnly(p, items, key, i);
  }
}
