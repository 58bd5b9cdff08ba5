/** A hash table that keeps its values in order: bucket chains of key entries over a doubly linked
    list of values. */
module OrderedTable {
  import opened Options
  import opened TableItems

  type Val = int

  const Undef: Val := 0x0e

  // ---------- the table ----------

  class ValEntry {
    var prev: ValEntry?
    var next: ValEntry?
    var key: Option<string>
    var val: Val

    constructor (value: Val)
      ensures prev == null && next == null && key == None && val == value
    {
      prev, next, key, val := null, null, None, value;
    }
  }

  class KeyEntry {
    var prev: KeyEntry?
    var next: KeyEntry?
    var valEntry: ValEntry
    const code: Fingerprint

    constructor (p: Fingerprint, v: ValEntry)
      ensures prev == null && next == null && valEntry == v && code == p
    {
      prev, next, valEntry, code := null, null, v, p;
    }
  }

  ghost function ItemsOf(vs: seq<ValEntry>): (items: seq<Item<Val>>)
    reads vs`key, vs`val
    ensures |items| == |vs| && forall i | 0 <= i < |vs| :: items[i] == Item(vs[i].key, vs[i].val)
  {
    if vs == [] then [] else [Item(vs[0].key, vs[0].val)] + ItemsOf(vs[1..])
  }

  class KxHashTable {
    const fingerprints: Fingerprints
    const powerOfTwo: nat
    const hashSize: nat := TwiceTwoTo(powerOfTwo)
    const buckets: array<KeyEntry?>
    var valListHead: ValEntry?
    var valListTail: ValEntry?
    var itemNum: nat
    ghost var vals: seq<ValEntry>
    ghost var chains: seq<seq<KeyEntry>>
    ghost var byCode: map<Fingerprint, KeyEntry>

    // ---------- the list of values ----------

    ghost predicate NodeAt(i: nat)
      requires i < |vals|
      reads this`vals, vals`prev, vals`next
    {
      vals[i].prev == (if i == 0 then null else vals[i - 1])
      && vals[i].next == (if i + 1 < |vals| then vals[i + 1] else null)
    }

    ghost predicate ListOk()
      reads this`vals, this`valListHead, this`valListTail, this`itemNum, vals`prev, vals`next
    {
      itemNum == |vals|
      && (forall i, j | 0 <= i < j < |vals| :: vals[i] != vals[j])
      && valListHead == (if |vals| == 0 then null else vals[0])
      && valListTail == (if |vals| == 0 then null else vals[|vals| - 1])
      && forall i: nat | i < |vals| :: NodeAt(i)
    }

    ghost function Items(): (items: seq<Item<Val>>)
      reads this`vals, vals`key, vals`val
      ensures |items| == |vals|
      ensures forall i | 0 <= i < |vals| :: items[i] == Item(vals[i].key, vals[i].val)
    {
      ItemsOf(vals)
    }

    // ---------- the chains of keys ----------

    function Index(p: Fingerprint): (h: nat)
      requires hashSize > 0
      ensures h < hashSize
    {
      p.hash % hashSize
    }

    /** The j-th entry of a chain is one of the table's, and belongs there. */
    ghost predicate EntryAt(h: nat, j: nat)
      requires h < |chains| && j < |chains[h]| && hashSize > 0
      reads this`chains, this`byCode
    {
      var e := chains[h][j];
      e.code in byCode && byCode[e.code] == e && Index(e.code) == h
    }

    ghost predicate LinkAt(h: nat, j: nat)
      requires h < |chains| && j < |chains[h]|
      reads this`chains, {chains[h][j]}`prev, {chains[h][j]}`next
    {
      chains[h][j].prev == (if j == 0 then null else chains[h][j - 1])
      && chains[h][j].next == (if j + 1 < |chains[h]| then chains[h][j + 1] else null)
    }

    ghost predicate ChainOk(h: nat)
      requires h < |chains| && hashSize > 0
      reads this`chains, this`byCode, buckets, byCode.Values`prev, byCode.Values`next
    {
      h < buckets.Length
      && buckets[h] == (if chains[h] == [] then null else chains[h][0])
      && (forall j: nat | j < |chains[h]| :: EntryAt(h, j) && LinkAt(h, j))
    }

    ghost predicate ChainsOk()
      reads this`chains, this`byCode, buckets, byCode.Values`prev, byCode.Values`next
    {
      hashSize > 0 && buckets.Length == hashSize == |chains|
      && forall h: nat | h < |chains| :: ChainOk(h)
    }

    /** The entry of a fingerprint is in its chain, and its value has a key of that fingerprint. */
    ghost predicate KeyOk(p: Fingerprint)
      requires p in byCode
      reads this`chains, this`byCode, this`vals, byCode.Values`valEntry, vals`key
    {
      var e := byCode[p];
      hashSize > 0 && Index(p) < |chains| && e in chains[Index(p)] && e.code == p
      && e.valEntry in vals && e.valEntry.key.Some? && fingerprints(e.valEntry.key.value) == p
    }

    /** A value with a key is the one that the key's entry leads to. */
    ghost predicate ValOk(i: nat)
      requires i < |vals|
      reads this`byCode, this`vals, byCode.Values`valEntry, vals`key
    {
      vals[i].key.Some? ==>
        var p := fingerprints(vals[i].key.value);
        p in byCode && byCode[p].valEntry == vals[i]
    }

    ghost predicate KeysOk()
      reads this`chains, this`byCode, this`vals, byCode.Values`valEntry, vals`key
    {
      (forall p <- byCode :: KeyOk(p)) && forall i: nat | i < |vals| :: ValOk(i)
    }

    ghost predicate Valid()
      reads this, buckets, vals, byCode.Values
    {
      ListOk() && ChainsOk() && KeysOk()
    }

    // ---------- operations ----------

    /** Twice 2 to the power of `powerOfTwo` empty buckets. */
    constructor (p: Fingerprints, power: nat)
      ensures Valid() && fingerprints == p && Items() == [] && vals == [] && fresh(buckets)
      ensures powerOfTwo == power && buckets.Length == hashSize == TwiceTwoTo(power)
      ensures Pushed() && Heads() <= {null}
    {
      fingerprints := p;
      powerOfTwo := power;
      var b := new KeyEntry?[TwiceTwoTo(power)](_ => null);
      buckets := b;
      valListHead, valListTail, itemNum := null, null, 0;
      vals, byCode, chains := [], map[], seq(TwiceTwoTo(power), _ => []);
    }

    /** The entry of a key. */
    method GetKeyEntry(key: string) returns (e: KeyEntry?)
      requires Valid()
      ensures e == if fingerprints(key) in byCode then byCode[fingerprints(key)] else null
    {
      var p := fingerprints(key);
      var h := Index(p);
      e := buckets[h];
      assert ChainOk(h);
      assert p in byCode ==> KeyOk(p);
      ghost var j := 0;
      while e != null
        invariant j <= |chains[h]|
        invariant e == if j < |chains[h]| then chains[h][j] else null
        invariant forall i | 0 <= i < j :: chains[h][i].code != p
        decreases |chains[h]| - j
      {
        assert EntryAt(h, j) && LinkAt(h, j);
        if e.code == p {
          return;
        }
        e, j := e.next, j + 1;
      }
    }

    lemma FindsEntry(key: string)
      requires ListOk() && KeysOk()
      ensures var i, p := Find(fingerprints, Items(), key), fingerprints(key);
        if p in byCode then i < |vals| && vals[i] == byCode[p].valEntry else i == |vals|
    {
      var i, p := Find(fingerprints, Items(), key), fingerprints(key);
      if i < |vals| {
        assert ValOk(i);
      }
      if p in byCode {
        assert KeyOk(p);
        var j :| 0 <= j < |vals| && vals[j] == byCode[p].valEntry;
        assert Holds(fingerprints, Items()[j], key);
      }
    }

    method AtKey(key: string) returns (v: Val)
      requires Valid()
      ensures v == match At(fingerprints, Items(), key) case None => Undef case Some(w) => w
    {
      var e := GetKeyEntry(key);
      FindsEntry(key);
      if e == null {
        return Undef;
      }
      assert KeyOk(fingerprints(key));
      v := e.valEntry.val;
    }

    /** The value at a place, walking from the nearer end. */
    method ValAtIndex(index: int) returns (v: Val)
      requires Valid()
      ensures v == if 0 <= index < |Items()| then Items()[index].val else Undef
    {
      if index >= itemNum || index < 0 {
        return Undef;
      }
      if index >= itemNum / 2 {
        var curIndex, iter := itemNum - 1, valListTail;
        while curIndex != index
          invariant index <= curIndex < |vals| && iter == vals[curIndex]
        {
          assert NodeAt(curIndex);
          iter, curIndex := iter.prev, curIndex - 1;
        }
        v := iter.val;
      } else {
        var curIndex, iter := 0, valListHead;
        while curIndex != index
          invariant curIndex <= index && iter == vals[curIndex]
        {
          assert NodeAt(curIndex);
          iter, curIndex := iter.next, curIndex + 1;
        }
        v := iter.val;
      }
    }

    // ---------- adding values ----------

    method PushValEntry(v: ValEntry)
      requires ListOk() && v !in vals && v.next == null
      modifies this`valListHead, this`valListTail, this`itemNum, this`vals, v`prev, vals`next
      ensures ListOk() && vals == old(vals) + [v]
    {
      ghost var before := vals;
      var oldTail := valListTail;
      if oldTail != null {
        assert NodeAt(|vals| - 1);
        oldTail.next := v;
      }
      if valListHead == null {
        valListHead := v;
      }
      v.prev := oldTail;
      valListTail := v;
      itemNum := itemNum + 1;
      vals := vals + [v];
      forall i: nat | i < |vals| ensures NodeAt(i) {
        assert i < |before| ==> old(NodeAt(i));
      }
    }

    method UnshiftValEntry(v: ValEntry)
      requires ListOk() && v !in vals && v.prev == null
      modifies this`valListHead, this`valListTail, this`itemNum, this`vals, v`next, vals`prev
      ensures ListOk() && vals == [v] + old(vals)
    {
      ghost var before := vals;
      var oldHead := valListHead;
      if oldHead != null {
        assert NodeAt(0);
        oldHead.prev := v;
      }
      if valListTail == null {
        valListTail := v;
      }
      v.next := oldHead;
      valListHead := v;
      itemNum := itemNum + 1;
      vals := [v] + vals;
      forall i: nat | i < |vals| ensures NodeAt(i) {
        assert 0 < i ==> old(NodeAt(i - 1));
      }
    }

    method PushVal(value: Val)
      requires ListOk()
      modifies this`valListHead, this`valListTail, this`itemNum, this`vals, vals`next
      ensures ListOk() && Items() == old(Items()) + [Item(None, value)]
      ensures old(Valid()) ==> Valid()
      ensures old(Pushed()) ==> Pushed()
      ensures fresh(set v <- vals | v !in old(vals)) && byCode == old(byCode)
    {
      hide Valid, ListOk, ChainsOk, KeysOk, BucketPushed, Pushed, Items, ItemsOf;
      Parts();
      var v := new ValEntry(value);
      PushValEntry(v);
      if old(KeysOk()) {
        KeysStay();
      }
      Parts();
      if old(Pushed()) {
        BucketsStay();
      }
    }

    /** Values without keys leave the keys in order. */
    twostate lemma KeysStay()
      requires old(KeysOk()) && byCode == old(byCode) && chains == old(chains)
      requires forall v <- old(vals) :: v in vals
      requires forall v <- vals :: v in old(vals) || v.key == None
      requires unchanged(old(byCode).Values`valEntry) && unchanged(old(vals)`key)
      ensures KeysOk()
    {
      forall p <- byCode ensures KeyOk(p) { assert old(KeyOk(p)); }
      forall i: nat | i < |vals| ensures ValOk(i) {
        if vals[i] in old(vals) {
          var j: nat :| j < |old(vals)| && old(vals)[j] == vals[i];
          assert old(ValOk(j));
        }
      }
    }

    method UnshiftVal(value: Val)
      requires Valid()
      modifies this`valListHead, this`valListTail, this`itemNum, this`vals, vals`prev
      ensures Valid() && Items() == [Item(None, value)] + old(Items())
      ensures fresh(set v <- vals | v !in old(vals)) && byCode == old(byCode)
    {
      hide *;
      Parts();
      var v := new ValEntry(value);
      UnshiftValEntry(v);
      KeysStay();
      Parts();
    }

    /** A new key entry becomes the first of its bucket. */
    method AddKeyEntry(e: KeyEntry)
      requires ChainsOk() && e.code !in byCode && e !in byCode.Values && e.prev == null && e.next == null
      modifies this`chains, this`byCode, buckets, e`next, byCode.Values`prev
      ensures ChainsOk() && byCode == old(byCode)[e.code := e]
      ensures hashSize > 0 && Index(e.code) < |chains| == |old(chains)| == buckets.Length
      ensures buckets[Index(e.code)] == e && e.next == old(if ChainsOk() then buckets[Index(e.code)] else null)
      ensures chains == old(chains)[Index(e.code) := [e] + old(chains)[Index(e.code)]]
    {
      var h := Index(e.code);
      ghost var chain := chains[h];
      assert ChainOk(h);
      if buckets[h] != null {
        assert EntryAt(h, 0) && LinkAt(h, 0);
        buckets[h].prev := e;
        e.next := buckets[h];
      }
      buckets[h] := e;
      chains := chains[h := [e] + chain];
      byCode := byCode[e.code := e];
      forall g: nat | g < |chains| ensures ChainOk(g) {
        assert old(ChainOk(g));
        forall j: nat | j < |chains[g]| ensures EntryAt(g, j) && LinkAt(g, j) {
          if g == h && j > 0 {
            assert old(EntryAt(g, j - 1)) && old(LinkAt(g, j - 1));
          } else if g != h {
            assert old(EntryAt(g, j)) && old(LinkAt(g, j));
          }
        }
      }
    }

    /** How a key that comes with a pushed value is entered: the new entry is linked to the old
        first one's `prev`, which has just been set to the new entry itself. Only an empty bucket
        gets a chain out of this; another one loses its keys and ends in a loop. */
    method LinkPushedEntry(e: KeyEntry)
      requires ChainsOk() && e.code !in byCode && e !in byCode.Values && e.prev == null && e.next == null
      modifies this`chains, this`byCode, buckets, e`next, byCode.Values`prev
      ensures ChainsOk() <==> old(ChainsOk() && buckets[Index(e.code)] == null)
      ensures hashSize > 0 && Index(e.code) < buckets.Length && buckets[Index(e.code)] == e
      ensures e.next == if old(ChainsOk() && buckets[Index(e.code)] == null) then null else e
    {
      var h := Index(e.code);
      ghost var chain := chains[h];
      assert ChainOk(h);
      if buckets[h] != null {
        assert EntryAt(h, 0) && LinkAt(h, 0);
        buckets[h].prev := e;
        e.next := buckets[h].prev;
        buckets[h] := e;
        LoopIsNoChain(h, e);
      } else {
        AddKeyEntry(e);
      }
    }

    lemma LoopIsNoChain(h: nat, e: KeyEntry)
      requires h < buckets.Length && buckets[h] == e && e.next == e && e.prev == null
      ensures !ChainsOk()
    {
      if h < |chains| && chains[h] != [] && chains[h][0] == e {
        if |chains[h]| == 1 || chains[h][1] != e {
          assert !LinkAt(h, 0);
        } else {
          assert !LinkAt(h, 1);
        }
      }
      assert ChainsOk() ==> ChainOk(h);
    }

    /** Whether the key was new (1) or its value was replaced (2). */
    method PutKv(key: string, value: Val) returns (r: int)
      requires Valid()
      modifies this`valListHead, this`valListTail, this`itemNum, this`vals, this`chains, this`byCode, buckets
      modifies vals, byCode.Values
      ensures Valid() && Items() == Put(fingerprints, old(Items()), key, value)
      ensures r == if Find(fingerprints, old(Items()), key) < |old(Items())| then 2 else 1
      ensures fresh(set v <- vals | v !in old(vals)) && fresh(byCode.Values - old(byCode).Values)
    {
      hide Valid, ListOk, ChainsOk, KeysOk, Items, ItemsOf, Put, Find;
      var e := GetKeyEntry(key);
      Parts();
      FindsEntry(key);
      if e != null {
        Update(e, key, value);
        return 2;
      }
      Append(key, value);
      return 1;
    }

    method Update(e: KeyEntry, key: string, value: Val)
      requires Valid() && fingerprints(key) in byCode && e == byCode[fingerprints(key)]
      modifies e.valEntry`key, e.valEntry`val
      ensures Valid() && Items() == Put(fingerprints, old(Items()), key, value)
    {
      hide *;
      Parts();
      FindsEntry(key);
      ghost var i := Find(fingerprints, Items(), key);
      ApartInList(i);
      PutsAt(fingerprints, Items(), key, value);
      e.valEntry.val := value;
      e.valEntry.key := Some(key);
      KeysUpdated(key);
      ItemUpdated(i);
      Parts();
    }

    lemma ApartInList(i: nat)
      requires ListOk() && i < |vals|
      ensures forall j | 0 <= j < |vals| && j != i :: vals[j] != vals[i]
    {
    }

    /** One value, and its key by one of the same fingerprint, leave the keys in order. */
    twostate lemma KeysUpdated(key: string)
      requires old(KeysOk()) && fingerprints(key) in byCode && byCode[fingerprints(key)].valEntry.key == Some(key)
      requires byCode == old(byCode) && chains == old(chains) && vals == old(vals) && unchanged(byCode.Values`valEntry)
      requires forall v <- vals :: v == byCode[fingerprints(key)].valEntry || v.key == old(v.key)
      ensures KeysOk()
    {
      hide Index;
      forall p <- byCode ensures KeyOk(p) { assert old(KeyOk(p)); }
      forall j: nat | j < |vals| ensures ValOk(j) { assert old(ValOk(j)); }
    }

    twostate lemma ItemUpdated(i: nat)
      requires i < |vals| && vals == old(vals)
      requires forall j | 0 <= j < |vals| && j != i :: vals[j].key == old(vals[j].key) && vals[j].val == old(vals[j].val)
      ensures Items() == old(Items())[i := Item(vals[i].key, vals[i].val)]
    {
    }

    method Append(key: string, value: Val)
      requires Valid() && fingerprints(key) !in byCode
      modifies this`valListHead, this`valListTail, this`itemNum, this`vals, this`chains, this`byCode, buckets
      modifies vals`next, byCode.Values`prev
      ensures Valid() && Items() == Put(fingerprints, old(Items()), key, value)
      ensures fresh(set v <- vals | v !in old(vals)) && fresh(byCode.Values - old(byCode).Values)
    {
      hide *;
      Parts();
      FindsEntry(key);
      var v := new ValEntry(value);
      var e := new KeyEntry(fingerprints(key), v);
      v.key := Some(key);
      Enter(e, v);
      KeysKept(e.code);
      Parts();
      PutsLast(fingerprints, old(Items()), key, value);
    }

    /** A new key and its value. */
    method Enter(e: KeyEntry, v: ValEntry)
      requires ListOk() && ChainsOk() && e.code !in byCode && e !in byCode.Values && e.prev == null && e.next == null
      requires v !in vals && v.next == null && e.valEntry == v && v.key.Some? && fingerprints(v.key.value) == e.code
      modifies this`valListHead, this`valListTail, this`itemNum, this`vals, this`chains, this`byCode, buckets
      modifies e`next, v`prev, vals`next, byCode.Values`prev
      ensures ListOk() && ChainsOk() && vals == old(vals) + [v] && byCode == old(byCode)[e.code := e]
      ensures KeyOk(e.code) && Index(e.code) < |chains| == |old(chains)|
      ensures chains == old(chains)[Index(e.code) := [e] + old(chains)[Index(e.code)]]
    {
      hide *;
      AddKeyEntry(e);
      PushValEntry(v);
      assert chains[Index(e.code)][0] == e && vals[|vals| - 1] == v;
      EntryIsOk(e);
    }

    lemma Parts()
      ensures Valid() <==> ListOk() && ChainsOk() && KeysOk()
    {
    }

    lemma EntryIsOk(e: KeyEntry)
      requires hashSize > 0 && Index(e.code) < |chains| && e in chains[Index(e.code)]
      requires e.code in byCode && byCode[e.code] == e
      requires e.valEntry in vals && e.valEntry.key.Some? && fingerprints(e.valEntry.key.value) == e.code
      ensures KeyOk(e.code)
    {
    }

    /** One more value, and its key's entry at the front of a chain, leave the keys in order. */
    twostate lemma KeysKept(p: Fingerprint)
      requires old(KeysOk()) && hashSize > 0 && p !in old(byCode) && p in byCode && KeyOk(p)
      requires Index(p) < |chains| == |old(chains)|
      requires byCode == old(byCode)[p := byCode[p]] && byCode[p].valEntry !in old(vals)
      requires vals == old(vals) + [byCode[p].valEntry]
      requires chains == old(chains)[Index(p) := [byCode[p]] + old(chains)[Index(p)]]
      requires unchanged(old(byCode).Values`valEntry) && unchanged(old(vals)`key)
      ensures KeysOk()
    {
      hide Index;
      forall q <- byCode ensures KeyOk(q) {
        if q != p {
          assert old(KeyOk(q));
          StaysInChain(old(chains), Index(p), byCode[p], Index(q), byCode[q]);
        }
      }
      forall i: nat | i < |vals| ensures ValOk(i) { assert i < |old(vals)| ==> old(ValOk(i)); }
    }

    static lemma StaysInChain(before: seq<seq<KeyEntry>>, h: nat, e: KeyEntry, g: nat, x: KeyEntry)
      requires h < |before| && g < |before| && x in before[g]
      ensures x in before[h := [e] + before[h]][g]
    {
    }

    // ---------- histories ----------

    /** One operation after the other. */
    method Replay(ops: seq<Op<Val>>)
      requires Valid()
      modifies this`valListHead, this`valListTail, this`itemNum, this`vals, this`chains, this`byCode, buckets
      modifies vals, byCode.Values
      ensures Valid() && Items() == After(fingerprints, old(Items()), ops)
    {
      hide *;
      var i := 0;
      NothingLeft(Items(), ops);
      while i < |ops|
        invariant i <= |ops| && Valid()
        invariant After(fingerprints, Items(), ops[i..]) == After(fingerprints, old(Items()), ops)
        invariant fresh(set v <- vals | v !in old(vals)) && fresh(byCode.Values - old(byCode).Values)
      {
        NextOp(Items(), ops, i);
        Parts();
        match ops[i] {
          case PushOp(v) => PushVal(v);
          case UnshiftOp(v) => UnshiftVal(v);
          case PutOp(key, v) => var _ := PutKv(key, v);
        }
        i := i + 1;
      }
      NothingLeft(Items(), ops);
    }

    lemma NothingLeft(items: seq<Item<Val>>, ops: seq<Op<Val>>)
      ensures After(fingerprints, items, ops[|ops|..]) == items && ops[0..] == ops
    {
    }

    lemma NextOp(items: seq<Item<Val>>, ops: seq<Op<Val>>, i: nat)
      requires i < |ops|
      ensures After(fingerprints, items, ops[i..]) == After(fingerprints, Do(fingerprints, items, ops[i]), ops[i + 1..])
      ensures var op, items1 := ops[i], Do(fingerprints, items, ops[i]);
        (op.PushOp? ==> items1 == items + [Item(None, op.v)])
        && (op.UnshiftOp? ==> items1 == [Item(None, op.v)] + items)
        && (op.PutOp? ==> items1 == Put(fingerprints, items, op.key, op.v))
    {
      assert ops[i..][1..] == ops[i + 1..];
    }

    /** What a key leads to after any history of a new table: the value put last, or undefined. */
    static method ReadAfter(p: Fingerprints, power: nat, ops: seq<Op<Val>>, key: string) returns (v: Val)
      ensures v == match Latest(p, ops, key, None) case None => Undef case Some(w) => w
    {
      var table := new KxHashTable(p, power);
      table.Replay(ops);
      v := table.AtKey(key);
      LatestIsFound(p, [], ops, key);
    }

    // ---------- shadow clones ----------

    /** The entry leads to the item's value. */
    ghost predicate Leads(e: KeyEntry, item: Item<Val>)
      reads this`vals, e`valEntry, vals`key, vals`val
    {
      e.valEntry in vals && e.valEntry.key == item.key && e.valEntry.val == item.val
      && item.key.Some? && e.code == fingerprints(item.key.value)
    }

    /** A bucket whose keys were all pushed holds nothing, an entry by itself, or the second of two
        in a loop. */
    ghost predicate BucketPushed(h: nat)
      requires h < buckets.Length
      reads this`vals, buckets, {buckets[h]}`next, {buckets[h]}`valEntry, vals`key, vals`val
    {
      hashSize > 0 &&
      var shelf := Shelf(fingerprints, hashSize, Items(), h);
      |shelf| <= 2
      && (shelf == [] ==> buckets[h] == null)
      && (shelf != [] ==>
        buckets[h] != null && Leads(buckets[h], shelf[|shelf| - 1])
        && buckets[h].next == if |shelf| == 1 then null else buckets[h])
    }

    /** The first entries of the buckets. */
    ghost function Heads(): set<KeyEntry?>
      reads buckets
    {
      set h | 0 <= h < buckets.Length :: buckets[h]
    }

    /** A table all of whose keys were pushed. */
    ghost predicate Pushed()
      reads this`vals, this`valListHead, this`valListTail, this`itemNum, vals, buckets, Heads()
    {
      ListOk() && buckets.Length == hashSize && hashSize > 0
      && forall h: nat | h < buckets.Length :: BucketPushed(h)
    }

    /** Looking for a key in such a table. In the source the walk through a loop goes on for ever. */
    method ReadPushedKey(key: string) returns (found: Found<Val>)
      requires Pushed()
      ensures hashSize > 0 && found == ReadPushed(fingerprints, hashSize, Items(), key)
    {
      found := Absent;
      var p := fingerprints(key);
      var h := Index(p);
      assert BucketPushed(h);
      var iter := buckets[h];
      while iter != null
        invariant iter == null || iter == buckets[h]
        invariant iter == null && buckets[h] != null ==> buckets[h].next == null && buckets[h].code != p
        decreases if iter == null then 0 else 1
      {
        if iter.code == p {
          return Present(iter.valEntry.val);
        }
        if iter.next == iter {
          return Endless;
        }
        iter := iter.next;
      }
    }

    /** What entering a pushed key does to the buckets. */
    twostate lemma PushedOn(new e: KeyEntry)
      requires old(Pushed()) && ListOk() && buckets.Length == hashSize > 0
      requires buckets[..] == old(buckets[..])[Index(e.code) := e]
      requires |Shelf(fingerprints, hashSize, old(Items()), Index(e.code))| < 2
      requires e.next == if old(buckets[..])[Index(e.code)] == null then null else e
      requires vals == old(vals) + [e.valEntry] && unchanged(old(vals)`key) && unchanged(old(vals)`val)
      requires forall g: nat | g < hashSize :: SameEntry(old(buckets[..])[g])
      requires e.valEntry.key.Some? && e.code == fingerprints(e.valEntry.key.value)
      ensures Pushed()
    {
      hide BucketPushed, ListOk, Shelf, Items, Index, SameEntry;
      forall g: nat | g < hashSize ensures BucketPushed(g) {
        BucketOn(e, g);
      }
    }

    lemma ListAndBuckets()
      ensures forall p :: hashSize > 0 ==> Index(p) == p.hash % hashSize
      ensures Pushed() <==>
        ListOk() && buckets.Length == hashSize && hashSize > 0 && forall h: nat | h < buckets.Length :: BucketPushed(h)
    {
    }

    /** An entry is as it was, `prev` apart. */
    twostate predicate SameEntry(entry: KeyEntry?)
      reads entry
    {
      entry != null ==> entry.next == old(entry.next) && entry.valEntry == old(entry.valEntry)
    }

    twostate lemma BucketOn(new e: KeyEntry, g: nat)
      requires hashSize > 0 && buckets.Length == hashSize && g < hashSize && SameEntry(old(buckets[..])[g])
      requires old(BucketPushed(g)) && buckets[g] == if g == Index(e.code) then e else old(buckets[g])
      requires g == Index(e.code) ==>
        |Shelf(fingerprints, hashSize, old(Items()), g)| < 2 && e.next == if old(buckets[g]) == null then null else e
      requires vals == old(vals) + [e.valEntry] && unchanged(old(vals)`key) && unchanged(old(vals)`val)
      requires e.valEntry.key.Some? && e.code == fingerprints(e.valEntry.key.value)
      ensures BucketPushed(g)
    {
      hide Shelf;
      var last := Items()[|vals| - 1];
      assert Items() == old(Items()) + [last] && vals[|vals| - 1] == e.valEntry;
      ShelfPlus(fingerprints, hashSize, old(Items()), last, g);
    }

    /** A value under a key. One that is found leaves its item and leads to the new value; a new one gets
        an entry. It fails, where the source never ends, in a bucket with a loop. */
    method PushKv(key: string, value: Val) returns (ends: bool)
      requires Pushed() && Distinct(fingerprints, Items())
      modifies this`valListHead, this`valListTail, this`itemNum, this`vals, vals`next, vals`key
      modifies buckets, Heads()`prev, Heads()`valEntry
      ensures hashSize > 0 && ends == !ReadPushed(fingerprints, hashSize, old(Items()), key).Endless?
      ensures ends ==> Pushed() && Distinct(fingerprints, Items()) && Items() == PushedOnto(fingerprints, old(Items()), key, value)
      ensures fresh(set v <- vals | v !in old(vals)) && fresh(Heads() - old(Heads()) - {null})
    {
      hide BucketPushed, ListOk, Shelf, Items, ItemsOf, Find, Pushed, Index, Distinct, PushedOnto, ReadPushed;
      ListAndBuckets();
      PushedOntoDistinct(fingerprints, Items(), key, value);
      var found := ReadPushedKey(key);
      if found.Endless? {
        return false;
      }
      var v := new ValEntry(value);
      v.key := Some(key);
      if found.Present? {
        Retarget(key, v);
      } else {
        PushNew(key, v);
      }
      return true;
    }

    /** A new key becomes the head of its bucket. */
    method PushNew(key: string, v: ValEntry)
      requires Pushed() && Distinct(fingerprints, Items()) && hashSize > 0 && ReadPushed(fingerprints, hashSize, Items(), key).Absent?
      requires v !in vals && v.next == null && v.key == Some(key)
      modifies this`valListHead, this`valListTail, this`itemNum, this`vals, vals`next, v`prev
      modifies buckets, Heads()`prev
      ensures Pushed() && Items() == PushedOnto(fingerprints, old(Items()), key, v.val) && vals == old(vals) + [v]
      ensures fresh(Heads() - old(Heads()) - {null})
    {
      hide BucketPushed, ListOk, Shelf, Items, ItemsOf, ReadPushed, Find, Pushed, Index, Distinct;
      ListAndBuckets();
      AbsentIsNew(fingerprints, hashSize, Items(), key);
      ReadOfNewKey(fingerprints, hashSize, Items(), key);
      var e := new KeyEntry(fingerprints(key), v);
      var h := Index(e.code);
      if buckets[h] != null {
        buckets[h].prev := e;
        e.next := buckets[h].prev;
      }
      buckets[h] := e;
      PushValEntry(v);
      PushedOn(e);
      OneItemMore(v);
    }

    twostate lemma OneItemMore(v: ValEntry)
      requires vals == old(vals) + [v] && unchanged(old(vals)`key) && unchanged(old(vals)`val)
      ensures Items() == old(Items()) + [Item(v.key, v.val)]
    {
    }

    /** A key that is found gets another value behind all others. */
    method Retarget(key: string, v: ValEntry)
      requires Pushed() && Distinct(fingerprints, Items()) && hashSize > 0 && ReadPushed(fingerprints, hashSize, Items(), key).Present?
      requires v !in vals && v.next == null && v.key == Some(key)
      modifies this`valListHead, this`valListTail, this`itemNum, this`vals, vals`next, vals`key, v`prev, Heads()`valEntry
      ensures Pushed() && Items() == PushedOnto(fingerprints, old(Items()), key, v.val) && vals == old(vals) + [v]
      ensures unchanged(buckets)
    {
      hide BucketPushed, ListOk, Shelf, Items, ItemsOf, ReadPushed, Find, Pushed, Index, Distinct;
      ListAndBuckets();
      var h := Index(fingerprints(key));
      ghost var i := HeadIs(key);
      HeadsApart(h);
      var e := buckets[h];
      e.valEntry.key := None;
      e.valEntry := v;
      PushValEntry(v);
      Retargeted(i, h);
      ItemsRetargeted(i);
    }

    /** Values without keys leave the buckets as they are. */
    twostate lemma BucketsStay()
      requires old(Pushed()) && ListOk() && unchanged(buckets)
      requires |vals| == |old(vals)| + 1 && vals[..|old(vals)|] == old(vals) && vals[|old(vals)|].key == None
      requires unchanged(old(vals)`key) && unchanged(old(vals)`val)
      requires forall g: nat | g < buckets.Length :: SameEntry(buckets[g])
      ensures Pushed()
    {
      hide BucketPushed, ListOk, Shelf, Items, Index, SameEntry;
      forall g: nat | g < buckets.Length ensures BucketPushed(g) {
        BucketStays(g);
      }
    }

    twostate lemma BucketStays(g: nat)
      requires g < buckets.Length && unchanged(buckets) && old(BucketPushed(g)) && SameEntry(buckets[g])
      requires |vals| == |old(vals)| + 1 && vals[..|old(vals)|] == old(vals) && vals[|old(vals)|].key == None
      requires unchanged(old(vals)`key) && unchanged(old(vals)`val)
      ensures BucketPushed(g)
    {
      hide Shelf;
      var last := Items()[|vals| - 1];
      assert Items() == old(Items()) + [last];
      ShelfPlus(fingerprints, hashSize, old(Items()), last, g);
    }

    /** The item that is found is the one its bucket's first entry leads to. */
    lemma HeadIs(key: string) returns (i: nat)
      requires Pushed() && Distinct(fingerprints, Items()) && hashSize > 0 && ReadPushed(fingerprints, hashSize, Items(), key).Present?
      ensures i == Find(fingerprints, Items(), key) < |vals| && Index(fingerprints(key)) < buckets.Length
      ensures vals[i].key.Some? && fingerprints(vals[i].key.value) == fingerprints(key)
      ensures forall j | i < j < |vals| :: !InBucket(fingerprints, hashSize, Items()[j], Index(fingerprints(key)))
      ensures var e := buckets[Index(fingerprints(key))]; e != null && e.valEntry == vals[i] && e.code == fingerprints(key)
    {
      hide ListOk, Shelf;
      var h := Index(fingerprints(key));
      assert BucketPushed(h);
      FoundIsLast(fingerprints, hashSize, Items(), key);
      OnlyFound(fingerprints, Items(), key);
      i := Find(fingerprints, Items(), key);
      var m: nat :| m < |vals| && vals[m] == buckets[h].valEntry;
      assert Holds(fingerprints, Items()[m], key);
    }

    /** Buckets share no first entry. */
    lemma HeadsApart(h: nat)
      requires Pushed() && h < buckets.Length
      ensures forall g: nat | g < buckets.Length && g != h && buckets[g] != null :: buckets[g] != buckets[h]
    {
      hide ListOk, Shelf;
      assert BucketPushed(h);
      forall g: nat | g < buckets.Length && g != h && buckets[g] != null ensures buckets[g] != buckets[h] {
        assert BucketPushed(g);
      }
    }

    /** What leading a found key to another value does to the buckets. */
    twostate lemma Retargeted(i: nat, new h: nat)
      requires old(Pushed()) && ListOk() && unchanged(buckets) && h < buckets.Length && i < |old(vals)|
      requires |vals| == |old(vals)| + 1 && vals[..|old(vals)|] == old(vals) && unchanged(old(vals)`val)
      requires forall j: nat | j < |old(vals)| && j != i :: vals[j].key == old(vals[j].key)
      requires old(vals[i].key).Some? && vals[i].key == None && vals[|old(vals)|].key.Some?
      requires fingerprints(vals[|old(vals)|].key.value) == old(fingerprints(vals[i].key.value))
      requires hashSize > 0 && Index(old(fingerprints(vals[i].key.value))) == h
      requires forall j | i < j < |old(vals)| :: !InBucket(fingerprints, hashSize, old(Items())[j], h)
      requires buckets[h] != null && buckets[h].valEntry == vals[|old(vals)|] && buckets[h].next == old(buckets[h].next)
      requires buckets[h].code == fingerprints(vals[|old(vals)|].key.value)
      requires forall g: nat | g < buckets.Length && g != h :: SameEntry(buckets[g])
      ensures Pushed()
    {
      hide BucketPushed, ListOk, Shelf, Items, Index, SameEntry;
      forall g: nat | g < buckets.Length ensures BucketPushed(g) {
        BucketRetargeted(i, h, g);
      }
    }

    twostate lemma BucketRetargeted(i: nat, new h: nat, new g: nat)
      requires g < buckets.Length && h < buckets.Length && old(BucketPushed(g)) && unchanged(buckets) && i < |old(vals)|
      requires |vals| == |old(vals)| + 1 && vals[..|old(vals)|] == old(vals) && unchanged(old(vals)`val)
      requires forall j: nat | j < |old(vals)| && j != i :: vals[j].key == old(vals[j].key)
      requires old(vals[i].key).Some? && vals[i].key == None && vals[|old(vals)|].key.Some?
      requires fingerprints(vals[|old(vals)|].key.value) == old(fingerprints(vals[i].key.value))
      requires hashSize > 0 && Index(old(fingerprints(vals[i].key.value))) == h
      requires forall j | i < j < |old(vals)| :: !InBucket(fingerprints, hashSize, old(Items())[j], h)
      requires buckets[h] != null && buckets[h].valEntry == vals[|old(vals)|] && buckets[h].next == old(buckets[h].next)
      requires buckets[h].code == fingerprints(vals[|old(vals)|].key.value)
      requires g != h ==> SameEntry(buckets[g])
      ensures BucketPushed(g)
    {
      hide Shelf;
      var before, n := old(Items()), |old(vals)|;
      var item, last: Item<Val> := Item(None, before[i].val), Items()[n];
      assert Items() == before[i := item] + [last];
      ShelfWithout(fingerprints, hashSize, before, i, g);
      ShelfPlus(fingerprints, hashSize, before[i := item], last, g);
    }

    twostate lemma ItemsRetargeted(i: nat)
      requires i < |old(vals)| < |vals| == |old(vals)| + 1 && vals[..|old(vals)|] == old(vals) && unchanged(old(vals)`val)
      requires forall j: nat | j < |old(vals)| && j != i :: vals[j].key == old(vals[j].key)
      requires vals[i].key == None
      ensures Items() == old(Items())[i := Item(None, vals[i].val)] + [Item(vals[|old(vals)|].key, vals[|old(vals)|].val)]
      ensures vals[i].val == old(Items())[i].val
    {
    }

    /** One item of a clone. */
    method PushItem(key: Option<string>, value: Val) returns (ends: bool)
      requires Pushed() && Distinct(fingerprints, Items()) && IsNew(fingerprints, Items(), key)
      modifies this`valListHead, this`valListTail, this`itemNum, this`vals, vals`next, vals`key
      modifies buckets, Heads()`prev, Heads()`valEntry
      ensures hashSize > 0
      ensures ends == Fits(fingerprints, hashSize, old(Items()), key)
      ensures ends ==> Pushed() && Items() == old(Items()) + [Item(key, value)]
      ensures fresh(set v <- vals | v !in old(vals)) && fresh(Heads() - old(Heads()) - {null})
    {
      hide BucketPushed, ListOk, Shelf, Items, ItemsOf, Find, Pushed, Valid, Distinct, ReadPushed;
      PushedAll();
      if key != None {
        ReadOfNewKey(fingerprints, hashSize, Items(), key.value);
        ends := PushKv(key.value, value);
      } else {
        PushVal(value);
        ends := true;
      }
    }

    /** A copy that shares the values: every item is pushed, in order. It fails, where the source
        never ends, if a bucket gets a third key. */
    method ShadowClone() returns (ends: bool, copy: KxHashTable)
      requires ListOk() && Distinct(fingerprints, Items())
      ensures hashSize > 0 && ends == CanPushAll(fingerprints, hashSize, Items())
      ensures fresh(copy) && copy.fingerprints == fingerprints && copy.hashSize == hashSize
      ensures ends ==> copy.Pushed() && copy.Items() == Items() && fresh(copy.vals)
    {
      hide Valid, ListOk, BucketPushed, Items, ItemsOf, Shelf, Find, Distinct, CanPushAll, Pushed, Index, InBucket, Holds, ReadPushed, IsNew, Fits, TwiceTwoTo, SameEntry, NodeAt;
      copy := new KxHashTable(fingerprints, powerOfTwo);
      ends := true;
      NodeIs(0);
      var iter := valListHead;
      ghost var i, items := 0, Items();
      while iter != null
        invariant i <= |vals| && iter == if i < |vals| then vals[i] else null
        invariant Items() == items && ListOk()
        invariant copy.fingerprints == fingerprints && copy.powerOfTwo == powerOfTwo
        invariant copy.Pushed() && copy.Items() == items[..i]
        invariant fresh(copy) && fresh(copy.buckets) && fresh(copy.vals) && fresh(copy.Heads() - {null})
        decreases |vals| - i
      {
        NodeIs(i);
        var next, key, val := iter.next, iter.key, iter.val;
        NextIsNew(fingerprints, hashSize, items, i);
        ends := copy.PushItem(key, val);
        assert Items() == items && ListOk();
        if !ends {
          return;
        }
        assert copy.Items() == items[..i + 1];
        iter, i := next, i + 1;
      }
      assert items[..i] == items;
      copy.PushedAll();
    }

    lemma NodeIs(i: nat)
      requires ListOk()
      ensures valListHead == if |vals| == 0 then null else vals[0]
      ensures i < |vals| ==> vals[i].next == if i + 1 < |vals| then vals[i + 1] else null
      ensures i < |vals| ==> Items()[i] == Item(vals[i].key, vals[i].val) && Items()[..i + 1] == Items()[..i] + [Items()[i]]
    {
      assert i < |vals| ==> NodeAt(i);
    }

    lemma PushedAll()
      requires Pushed()
      ensures ListOk() && hashSize > 0 && CanPushAll(fingerprints, hashSize, Items())
    {
      forall h: nat | h < hashSize ensures |Shelf(fingerprints, hashSize, Items(), h)| <= 2 {
        assert BucketPushed(h);
      }
    }
  }

  function TwiceTwoTo(n: nat): (r: nat)
    ensures r > 0
  {
    if n == 0 then 2 else 2 * TwiceTwoTo(n - 1)
  }

  /** The number of buckets: two, and twice as many for each step; a memo table, made with 4, has 32. */
  lemma BucketNumbers(n: nat)
    ensures TwiceTwoTo(0) == 2 && TwiceTwoTo(n + 1) == TwiceTwoTo(n) + TwiceTwoTo(n) && TwiceTwoTo(4) == 32
  {
    assert TwiceTwoTo(2) == 8;
  }
}
