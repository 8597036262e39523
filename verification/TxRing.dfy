/** The 4096-slot transmit ring: stretches of consecutive slots, and sums over them. */
module TxRing {
  import opened Sums

  /** How many steps forward around the ring it takes to go from position lo to slot k. */
  function Distance(lo: int, k: int): (d: int)
    ensures 0 <= d < 4096
  {
    (k - lo) % 4096
  }

  lemma Remainder(x: int, q: int, r: int)
    requires x == 4096 * q + r && 0 <= r < 4096
    ensures x % 4096 == r
  {
  }

  /** Slot k lies among the len slots that start at ring position lo. */
  predicate InStretch(lo: int, len: int, k: int) {
    Distance(lo, k) < len
  }

  /** The values of a on a stretch of the ring, zero elsewhere. */
  function Gate(a: seq<int>, lo: int, len: int): (g: seq<int>)
    requires |a| == 4096
    ensures |g| == 4096
    ensures forall k :: 0 <= k < 4096 ==> g[k] == if InStretch(lo, len, k) then a[k] else 0
  {
    seq(4096, k requires 0 <= k < 4096 => if InStretch(lo, len, k) then a[k] else 0)
  }

  /** The slot reached after len steps is the only one at that distance. */
  lemma StretchEnd(lo: int, len: nat, k: nat)
    requires len < 4096 && k < 4096
    ensures Distance(lo, k) == len <==> k == (lo + len) % 4096
  {
  }

  /** A stretch one slot longer holds exactly the slot past its old end besides the old ones. */
  lemma StretchGrows(lo: int, len: nat)
    requires len < 4096
    ensures !InStretch(lo, len, (lo + len) % 4096)
    ensures forall k :: 0 <= k < 4096 ==>
              (InStretch(lo, len + 1, k) <==> InStretch(lo, len, k) || k == (lo + len) % 4096)
  {
    StretchEnd(lo, len, (lo + len) % 4096);
    forall k | 0 <= k < 4096
      ensures InStretch(lo, len + 1, k) <==> InStretch(lo, len, k) || k == (lo + len) % 4096
    {
      StretchEnd(lo, len, k);
    }
  }

  lemma GateEmpty(a: seq<int>, lo: int)
    requires |a| == 4096
    ensures Sum(Gate(a, lo, 0)) == 0
  {
    SumZero(Gate(a, lo, 0));
  }

  /** Extending a stretch by one slot adds that slot's value. */
  lemma GateStep(a: seq<int>, lo: int, len: nat)
    requires |a| == 4096 && len < 4096
    ensures Sum(Gate(a, lo, len + 1)) == Sum(Gate(a, lo, len)) + a[(lo + len) % 4096]
  {
    var i := (lo + len) % 4096;
    var g, longer := Gate(a, lo, len), Gate(a, lo, len + 1);
    StretchGrows(lo, len);
    assert longer == g[i := a[i]];
    SumUpdate(g, i, a[i]);
  }

  lemma GateBounds(a: seq<int>, lo: int, len: int)
    requires |a| == 4096
    requires forall k :: 0 <= k < |a| ==> 0 <= a[k]
    ensures 0 <= Sum(Gate(a, lo, len)) <= Sum(a)
  {
    SumMonotone(Gate(a, lo, len), a);
    SumNonNegative(Gate(a, lo, len));
  }
}
