/** Sums over sequences of integers. */
module Sums {

  function Sum(a: seq<int>): int {
    if a == [] then 0 else Sum(a[..|a| - 1]) + a[|a| - 1]
  }

  lemma {:induction false} SumUpdate(a: seq<int>, i: nat, x: int)
    requires i < |a|
    ensures Sum(a[i := x]) == Sum(a) - a[i] + x
  {
    var last := |a| - 1;
    if i == last {
      assert a[i := x][..last] == a[..last];
    } else {
      assert a[i := x][..last] == a[..last][i := x];
      SumUpdate(a[..last], i, x);
    }
  }

  lemma {:induction false} SumAdd(a: seq<int>, b: seq<int>, c: seq<int>)
    requires |a| == |b| == |c|
    requires forall k :: 0 <= k < |a| ==> a[k] == b[k] + c[k]
    ensures Sum(a) == Sum(b) + Sum(c)
  {
    if a != [] {
      var last := |a| - 1;
      SumAdd(a[..last], b[..last], c[..last]);
    }
  }

  lemma {:induction false} SumMonotone(a: seq<int>, b: seq<int>)
    requires |a| == |b|
    requires forall k :: 0 <= k < |a| ==> a[k] <= b[k]
    ensures Sum(a) <= Sum(b)
  {
    if a != [] {
      var last := |a| - 1;
      SumMonotone(a[..last], b[..last]);
    }
  }

  lemma {:induction false} SumZero(a: seq<int>)
    requires forall k :: 0 <= k < |a| ==> a[k] == 0
    ensures Sum(a) == 0
  {
    if a != [] {
      SumZero(a[..|a| - 1]);
    }
  }

  lemma {:induction false} SumNonNegative(a: seq<int>)
    requires forall k :: 0 <= k < |a| ==> 0 <= a[k]
    ensures 0 <= Sum(a)
  {
    if a != [] {
      SumNonNegative(a[..|a| - 1]);
    }
  }

  lemma {:induction false} SumAtLeast(a: seq<int>, i: nat)
    requires i < |a|
    requires forall k :: 0 <= k < |a| ==> 0 <= a[k]
    ensures a[i] <= Sum(a)
  {
    SumNonNegative(a[..|a| - 1]);
    if i < |a| - 1 {
      SumAtLeast(a[..|a| - 1], i);
    }
  }

  /** A sum without negative terms is zero only if every term is. */
  lemma SumZeroIff(a: seq<int>)
    requires forall k :: 0 <= k < |a| ==> 0 <= a[k]
    ensures Sum(a) == 0 <==> forall k :: 0 <= k < |a| ==> a[k] == 0
  {
    if Sum(a) == 0 {
      forall k | 0 <= k < |a| ensures a[k] == 0 {
        SumAtLeast(a, k);
      }
    } else if forall k :: 0 <= k < |a| ==> a[k] == 0 {
      SumZero(a);
    }
  }
}
