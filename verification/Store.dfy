/** The store of recorded nodes: a list of segments of growing, fixed capacity. */
module Store {
  import opened Heap

  const FIRST_SEGMENT_SIZE := 512
  const MAX_SEGMENTS := 7

  type Segments = seq<seq<KonBase>>

  function Flatten(segs: Segments): seq<KonBase> {
    if segs == [] then [] else Flatten(segs[..|segs| - 1]) + segs[|segs| - 1]
  }

  function Sum(sizes: seq<nat>): nat {
    if sizes == [] then 0 else Sum(sizes[..|sizes| - 1]) + sizes[|sizes| - 1]
  }

  /** The next capacity: 1.618 times as much, rounded down, then up to a multiple of four, by at
      least one. */
  function NextSize(size: nat): nat {
    var notAligned := size * 1618 / 1000;
    notAligned + 4 - notAligned % 4
  }

  function SizeAt(i: nat): nat {
    if i == 0 then FIRST_SEGMENT_SIZE else NextSize(SizeAt(i - 1))
  }

  /** Capacities, the object limit, and the threshold from which a collection is wanted. */
  method InitGc() returns (sizes: seq<nat>, maxObjCntLimit: nat, gcThreshold: int)
    ensures |sizes| == MAX_SEGMENTS && (forall i :: 0 <= i < |sizes| ==> sizes[i] == SizeAt(i))
    ensures maxObjCntLimit == Sum(sizes) == 23400 && gcThreshold == maxObjCntLimit - SizeAt(MAX_SEGMENTS) / 4 == 19652
  {
    hide NextSize;
    var nextSize := FIRST_SEGMENT_SIZE;
    sizes, maxObjCntLimit := [], 0;
    for i := 0 to MAX_SEGMENTS
      invariant |sizes| == i && nextSize == SizeAt(i) && maxObjCntLimit == Sum(sizes)
      invariant forall k :: 0 <= k < i ==> sizes[k] == SizeAt(k)
    {
      maxObjCntLimit := maxObjCntLimit + nextSize;
      assert (sizes + [nextSize])[..i] == sizes;
      sizes := sizes + [nextSize];
      nextSize := NextSize(nextSize);
    }
    gcThreshold := maxObjCntLimit - nextSize / 4;
    Limits(sizes);
  }

  lemma Capacities()
    ensures SizeAt(0) == 512 && SizeAt(1) == 832 && SizeAt(2) == 1348 && SizeAt(3) == 2184
    ensures SizeAt(4) == 3536 && SizeAt(5) == 5724 && SizeAt(6) == 9264 && SizeAt(7) == 14992
  {
  }

  /** The capacities, and what they add up to. */
  lemma Limits(sizes: seq<nat>)
    requires |sizes| == MAX_SEGMENTS && forall i :: 0 <= i < |sizes| ==> sizes[i] == SizeAt(i)
    ensures Sum(sizes) == 23400 && SizeAt(MAX_SEGMENTS) == 14992
  {
    hide SizeAt;
    Capacities();
    for n := 0 to MAX_SEGMENTS
      invariant Sum(sizes[..n]) == [0, 512, 1344, 2692, 4876, 8412, 14136, 23400][n]
    {
      assert sizes[..n + 1][..n] == sizes[..n];
    }
    assert sizes[..MAX_SEGMENTS] == sizes;
  }

  /** Every segment but the last is full, the last is not empty unless it is the only one, and
      none is over its capacity. */
  ghost predicate Packed(segs: Segments, sizes: seq<nat>) {
    && 0 < |segs| <= |sizes|
    && (forall i :: 0 <= i < |segs| - 1 ==> |segs[i]| == sizes[i])
    && |segs[|segs| - 1]| <= sizes[|segs| - 1]
    && (|segs| > 1 ==> segs[|segs| - 1] != [])
  }

  ghost predicate Positive(sizes: seq<nat>) {
    forall i :: 0 <= i < |sizes| ==> sizes[i] > 0
  }

  lemma {:induction false} FlattenSize(segs: Segments, sizes: seq<nat>, n: nat)
    requires Packed(segs, sizes) && n < |segs|
    ensures |Flatten(segs[..n])| == Sum(sizes[..n])
  {
    if n > 0 {
      FlattenSize(segs, sizes, n - 1);
      assert segs[..n][..n - 1] == segs[..n - 1] && sizes[..n][..n - 1] == sizes[..n - 1];
    }
  }

  lemma PackedSize(segs: Segments, sizes: seq<nat>)
    requires Packed(segs, sizes)
    ensures |Flatten(segs)| == Sum(sizes[..|segs| - 1]) + |segs[|segs| - 1]|
  {
    FlattenSize(segs, sizes, |segs| - 1);
  }

  lemma {:induction false} SumGrows(sizes: seq<nat>, a: nat, b: nat)
    requires a <= b <= |sizes|
    ensures Sum(sizes[..a]) <= Sum(sizes[..b]) && (a < b ==> Sum(sizes[..a]) + sizes[a] <= Sum(sizes[..b]))
    decreases b
  {
    if a < b {
      SumGrows(sizes, a, b - 1);
      assert sizes[..b][..b - 1] == sizes[..b - 1];
    }
  }

  /** A packed store with fewer nodes has no more segments. */
  lemma FewerNodesFewerSegments(a: Segments, b: Segments, sizes: seq<nat>)
    requires Packed(a, sizes) && Packed(b, sizes) && |Flatten(a)| <= |Flatten(b)|
    ensures |a| <= |b|
  {
    hide Flatten, Sum;
    PackedSize(a, sizes);
    PackedSize(b, sizes);
    if |a| > |b| {
      SumGrows(sizes, |b| - 1, |a| - 1);
    }
  }

  lemma PackedFits(segs: Segments, sizes: seq<nat>)
    requires Packed(segs, sizes) && Positive(sizes)
    ensures |Flatten(segs)| <= Sum(sizes)
    ensures |Flatten(segs)| == Sum(sizes) <==> |segs| == |sizes| && |segs[|segs| - 1]| == sizes[|segs| - 1]
  {
    hide Flatten;
    PackedSize(segs, sizes);
    SumGrows(sizes, |segs|, |sizes|);
    assert sizes[..|sizes|] == sizes && sizes[..|segs|][..|segs| - 1] == sizes[..|segs| - 1];
  }

  /** Puts a node into the first segment with space left, or into a new one. Fails when every
      segment is full and there may be no more of them. */
  method PushToHeapPtrSeg(segs: Segments, sizes: seq<nat>, ptr: KonBase) returns (ok: bool, r: Segments)
    requires Packed(segs, sizes) && Positive(sizes)
    ensures ok == (|Flatten(segs)| < Sum(sizes))
    ensures if ok then Packed(r, sizes) && Flatten(r) == Flatten(segs) + [ptr] else r == segs
  {
    PackedFits(segs, sizes);
    r := segs;
    for i := 0 to |segs|
      invariant i == 0 || |segs[i - 1]| == sizes[i - 1]
    {
      if sizes[i] - |segs[i]| > 0 {
        r := segs[i := segs[i] + [ptr]];
        LastGrows(segs, r, ptr);
        return true, r;
      }
    }
    if |segs| >= |sizes| {
      return false, segs;
    }
    r := segs + [[ptr]];
    assert r[..|segs|] == segs;
    return true, r;
  }

  lemma LastGrows(segs: Segments, r: Segments, ptr: KonBase)
    requires segs != [] && r == segs[|segs| - 1 := segs[|segs| - 1] + [ptr]]
    ensures Flatten(r) == Flatten(segs) + [ptr]
  {
    var n := |segs| - 1;
    assert r[..n] == segs[..n];
    assert Flatten(segs[..n]) + (segs[n] + [ptr]) == Flatten(segs[..n]) + segs[n] + [ptr];
  }
}
