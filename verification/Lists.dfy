/** Lists without repeats, reversing a list, and the larger of two numbers. */
module Lists {

  ghost predicate NoRepeats<T>(l: seq<T>) {
    forall i, j :: 0 <= i < j < |l| ==> l[i] != l[j]
  }

  function Max(a: int, b: int): int { if a > b then a else b }

  function Reverse<T>(l: seq<T>): (r: seq<T>)
    ensures |r| == |l|
  {
    if l == [] then [] else Reverse(l[1..]) + [l[0]]
  }

  lemma {:induction false} ReverseReverse<T>(l: seq<T>)
    ensures Reverse(Reverse(l)) == l
  {
    if l != [] {
      ReverseReverse(l[1..]);
      ReverseAppend(Reverse(l[1..]), l[0]);
    }
  }

  lemma {:induction false} ReverseAppend<T>(l: seq<T>, x: T)
    ensures Reverse(l + [x]) == [x] + Reverse(l)
  {
    if l != [] {
      ReverseAppend(l[1..], x);
      assert (l + [x])[1..] == l[1..] + [x];
    }
  }

  /** Taking items off the front and putting each in front of the result. */
  method PairListRevert<T>(source: seq<T>) returns (result: seq<T>)
    ensures result == Reverse(source)
  {
    result := [];
    var iter := source;
    while iter != []
      invariant Reverse(source) == Reverse(iter) + result
    {
      result, iter := [iter[0]] + result, iter[1..];
    }
  }
}
