/** The rate allocation at the end of updateCwnd: iterative weighted water-filling with caps. */
module RateAllocation {
  import opened Serial

  /** One stream as the allocation sees it. */
  datatype Share = Share(active: bool, priority: real, cap: real, share: real, capped: bool)

  /** The share of a stream of the given priority at the given level. */
  function Height(level: real, priority: real): real { level * priority }

  lemma HeightSum(a: real, b: real, p: real)
    ensures Height(a + b, p) == Height(a, p) + Height(b, p)
    ensures Height(p, a + b) == Height(p, a) + Height(p, b)
  {
  }

  lemma HeightMonotone(a: real, b: real, p: real)
    requires a <= b && p >= 0.0
    ensures Height(a, p) <= Height(b, p)
  {
  }

  lemma HeightZero(p: real)
    ensures Height(p, 0.0) == Height(0.0, p) == 0.0
  {
  }

  lemma HeightPositive(a: real, p: real)
    requires a > 0.0 && p > 0.0
    ensures Height(a, p) > 0.0
  {
  }

  /** Still taking part in the sharing. */
  predicate Rising(s: Share) { s.active && !s.capped }

  function Total(v: seq<Share>): real {
    if v == [] then 0.0 else Total(v[..|v| - 1]) + v[|v| - 1].share
  }

  /** Sum of the priorities of the streams still taking part. */
  function RisingPriority(v: seq<Share>): real {
    if v == [] then 0.0
    else RisingPriority(v[..|v| - 1]) + if Rising(v[|v| - 1]) then v[|v| - 1].priority else 0.0
  }

  function RisingCount(v: seq<Share>): nat {
    if v == [] then 0 else RisingCount(v[..|v| - 1]) + if Rising(v[|v| - 1]) then 1 else 0
  }

  /** What stands above the caps. */
  function Excess(v: seq<Share>): real {
    if v == [] then 0.0
    else Excess(v[..|v| - 1]) + if Over(v[|v| - 1]) then v[|v| - 1].share - v[|v| - 1].cap else 0.0
  }

  predicate Over(s: Share) { s.share > s.cap && !s.capped }

  /** First pass: the level rises by x for every stream taking part. */
  function Raise(s: Share, x: real): Share {
    if Rising(s) then s.(share := s.share + Height(x, s.priority)) else s
  }

  /** Second pass: a share above its cap is cut back to it, and the stream takes no further part. */
  function Trim(s: Share): Share { if Over(s) then s.(share := s.cap, capped := true) else s }

  function RaiseAll(v: seq<Share>, x: real): (r: seq<Share>)
    ensures |r| == |v|
  {
    if v == [] then [] else RaiseAll(v[..|v| - 1], x) + [Raise(v[|v| - 1], x)]
  }

  function TrimAll(v: seq<Share>): (r: seq<Share>)
    ensures |r| == |v|
  {
    if v == [] then [] else TrimAll(v[..|v| - 1]) + [Trim(v[|v| - 1])]
  }

  lemma RaiseOne(s: Share, x: real)
    ensures Raise(s, x).share == s.share + Height(x, if Rising(s) then s.priority else 0.0)
    ensures Raise(s, x) == s.(share := Raise(s, x).share) && Rising(Raise(s, x)) == Rising(s)
  {
  }

  lemma {:induction false} RaiseAt(v: seq<Share>, x: real, i: nat)
    requires i < |v|
    ensures RaiseAll(v, x)[i] == Raise(v[i], x)
  {
    if i < |v| - 1 {
      RaiseAt(v[..|v| - 1], x, i);
    }
  }

  lemma {:induction false} TrimAt(v: seq<Share>, i: nat)
    requires i < |v|
    ensures TrimAll(v)[i] == Trim(v[i])
  {
    if i < |v| - 1 {
      TrimAt(v[..|v| - 1], i);
    }
  }

  /** How the folds extend by one stream. */
  lemma Snoc(v: seq<Share>, s: Share, x: real)
    ensures Total(v + [s]) == Total(v) + s.share
    ensures RisingPriority(v + [s]) == RisingPriority(v) + if Rising(s) then s.priority else 0.0
    ensures RisingCount(v + [s]) == RisingCount(v) + if Rising(s) then 1 else 0
    ensures Excess(v + [s]) == Excess(v) + if Over(s) then s.share - s.cap else 0.0
    ensures RaiseAll(v + [s], x) == RaiseAll(v, x) + [Raise(s, x)]
    ensures TrimAll(v + [s]) == TrimAll(v) + [Trim(s)]
  {
    assert (v + [s])[..|v|] == v;
  }

  /** The first pass hands out x per unit of priority. */
  lemma {:induction false} RaiseTotals(v: seq<Share>, x: real)
    ensures Total(RaiseAll(v, x)) == Total(v) + Height(x, RisingPriority(v))
    ensures RisingPriority(RaiseAll(v, x)) == RisingPriority(v)
    ensures RisingCount(RaiseAll(v, x)) == RisingCount(v)
  {
    HeightZero(x);
    if v != [] {
      hide *;
      var front, s := v[..|v| - 1], v[|v| - 1];
      assert v == front + [s];
      RaiseTotals(front, x);
      Snoc(front, s, x);
      Snoc(RaiseAll(front, x), Raise(s, x), x);
      HeightSum(RisingPriority(front), if Rising(s) then s.priority else 0.0, x);
      RaiseOne(s, x);
    }
  }

  /** The second pass takes back exactly the excess; if there is any, fewer streams take part afterwards. */
  lemma {:induction false} TrimTotals(v: seq<Share>)
    requires forall i :: 0 <= i < |v| && Over(v[i]) ==> v[i].active
    ensures Total(TrimAll(v)) == Total(v) - Excess(v)
    ensures RisingCount(TrimAll(v)) <= RisingCount(v)
    ensures Excess(v) > 0.0 ==> RisingCount(TrimAll(v)) < RisingCount(v)
    ensures Excess(v) >= 0.0
  {
    if v != [] {
      var n := |v| - 1;
      TrimTotals(v[..n]);
      assert TrimAll(v)[..n] == TrimAll(v[..n]);
    }
  }

  /** Priorities are positive and caps are not negative. */
  ghost predicate Weighted(v: seq<Share>) {
    forall i :: 0 <= i < |v| ==> v[i].priority > 0.0 && v[i].cap >= 0.0
  }

  /** Every active share stands at level * priority, or at its cap if that is lower; inactive streams have none. */
  ghost predicate AtLevel(v: seq<Share>, level: real) {
    forall i :: 0 <= i < |v| ==>
      v[i].share == if v[i].active then MinReal(v[i].cap, Height(level, v[i].priority)) else 0.0
  }

  /** AtLevel while the loop runs: who is marked as capped stands at its cap. */
  ghost predicate Filling(v: seq<Share>, level: real) {
    && AtLevel(v, level)
    && forall i :: 0 <= i < |v| ==>
         && (v[i].capped ==> v[i].active && v[i].cap <= Height(level, v[i].priority))
         && (Rising(v[i]) ==> v[i].share == Height(level, v[i].priority))
  }

  lemma MulDiv(a: real, p: real, s: real)
    requires s != 0.0
    ensures a * p / s == Height(a / s, p)
    ensures Height(a / s, s) == a
    ensures a > 0.0 && s > 0.0 ==> a / s > 0.0
  {
  }

  /** One round of the loop keeps the form, with the level up by rate per unit of priority. */
  lemma RoundFills(v: seq<Share>, level: real, rate: real)
    requires Weighted(v) && Filling(v, level) && rate > 0.0 && RisingPriority(v) > 0.0
    ensures var x := rate / RisingPriority(v);
            var raised := RaiseAll(v, x);
            var r := TrimAll(raised);
            && x > 0.0 && Weighted(r) && Filling(r, level + x)
            && (forall i :: 0 <= i < |v| && Over(raised[i]) ==> raised[i].active)
            && Total(raised) == Total(v) + rate
            && Total(r) + Excess(raised) == Total(v) + rate
            && (Excess(raised) > 0.0 ==> RisingCount(r) < RisingCount(v))
            && RisingCount(r) <= RisingCount(v)
            && Excess(raised) >= 0.0
  {
    hide *;
    var x := rate / RisingPriority(v);
    MulDiv(rate, 1.0, RisingPriority(v));
    var raised := RaiseAll(v, x);
    RaiseTotals(v, x);
    forall i | 0 <= i < |v|
      ensures Over(raised[i]) ==> raised[i].active
      ensures raised[i] == Raise(v[i], x)
    {
      RaiseAt(v, x, i);
      RaisedOver(v, level, x, i);
    }
    TrimTotals(raised);
    forall i | 0 <= i < |v|
      ensures TrimAll(raised)[i] == Trim(Raise(v[i], x))
    {
      TrimAt(raised, i);
    }
    FillsAt(v, level, x, TrimAll(raised));
  }

  lemma RaisedOver(v: seq<Share>, level: real, x: real, i: nat)
    requires Weighted(v) && Filling(v, level) && i < |v|
    ensures Over(Raise(v[i], x)) ==> v[i].active
    ensures Raise(v[i], x).active == v[i].active
  {
    hide Height;
  }

  lemma FillsAt(v: seq<Share>, level: real, x: real, r: seq<Share>)
    requires Weighted(v) && Filling(v, level) && x > 0.0 && |r| == |v|
    requires forall i :: 0 <= i < |v| ==> r[i] == Trim(Raise(v[i], x))
    ensures Weighted(r) && Filling(r, level + x)
  {
    hide Height;
    forall i | 0 <= i < |v|
      ensures Height(level + x, v[i].priority) == Height(level, v[i].priority) + Height(x, v[i].priority)
      ensures Height(x, v[i].priority) > 0.0
    {
      HeightSum(level, x, v[i].priority);
      HeightPositive(x, v[i].priority);
    }
  }

  // ---------- What the allocation is ----------

  /** Weighted max-min fairness: within the same total and the same caps, giving one stream more takes something away
      from a stream that has no more per unit of priority. */
  lemma MaxMinFair(v: seq<Share>, level: real, other: seq<Share>, i: nat)
    requires Weighted(v) && AtLevel(v, level) && level >= 0.0
    requires |other| == |v| && Total(other) <= Total(v)
    requires forall k :: 0 <= k < |v| ==> 0.0 <= other[k].share <= if v[k].active then v[k].cap else 0.0
    requires i < |v| && other[i].share > v[i].share
    ensures exists j :: 0 <= j < |v| && v[j].active && other[j].share < v[j].share
                        && Height(v[j].share, v[i].priority) <= Height(v[i].share, v[j].priority)
  {
    hide Height, Total;
    if forall k :: 0 <= k < |v| ==> other[k].share >= v[k].share {
      TotalGreater(other, v, i);
    }
    var j :| 0 <= j < |v| && other[j].share < v[j].share;
    assert v[j].active && v[i].active;
    var p, q := v[i].priority, v[j].priority;
    assert v[i].share == Height(level, p) && v[j].share <= Height(level, q);
    HeightMonotone(v[j].share, Height(level, q), p);
    HeightSwap(level, q, p);
  }

  lemma HeightSwap(level: real, q: real, p: real)
    ensures Height(Height(level, q), p) == Height(Height(level, p), q)
  {
  }

  lemma {:induction false} TotalGreater(a: seq<Share>, b: seq<Share>, i: nat)
    requires |a| == |b| && i < |a| && a[i].share > b[i].share
    requires forall k :: 0 <= k < |a| ==> a[k].share >= b[k].share
    ensures Total(a) > Total(b)
  {
    var n := |a| - 1;
    if i < n {
      TotalGreater(a[..n], b[..n], i);
    } else {
      TotalAtLeast(a[..n], b[..n]);
    }
  }

  lemma {:induction false} TotalAtLeast(a: seq<Share>, b: seq<Share>)
    requires |a| == |b|
    requires forall k :: 0 <= k < |a| ==> a[k].share >= b[k].share
    ensures Total(a) >= Total(b)
  {
    if a != [] {
      TotalAtLeast(a[..|a| - 1], b[..|a| - 1]);
    }
  }

  /** The allocation is determined by its total: two levels with the same total give the same shares. */
  lemma LevelUnique(v: seq<Share>, level: real, w: seq<Share>, level': real)
    requires |v| == |w| && Weighted(v) && AtLevel(v, level) && AtLevel(w, level') && level <= level'
    requires forall i :: 0 <= i < |v| ==> v[i].active == w[i].active && v[i].cap == w[i].cap && v[i].priority == w[i].priority
    requires Total(v) == Total(w)
    ensures forall i :: 0 <= i < |v| ==> v[i].share == w[i].share
  {
    hide Height, Total;
    forall i | 0 <= i < |v|
      ensures v[i].share <= w[i].share
    {
      HeightMonotone(level, level', v[i].priority);
    }
    forall i | 0 <= i < |v|
      ensures v[i].share == w[i].share
    {
      if v[i].share < w[i].share {
        TotalGreater(w, v, i);
      }
    }
  }

  // ---------- The loop ----------

  class RateStream {
    const targetPriority: real
    const maxBitrate: real
    const isActive: bool
    var rateShare: real
    var isMaxrate: bool

    constructor (targetPriority_: real, maxBitrate_: real, isActive_: bool)
      ensures targetPriority == targetPriority_ && maxBitrate == maxBitrate_ && isActive == isActive_
      ensures rateShare == 0.0 && !isMaxrate
    {
      targetPriority, maxBitrate, isActive := targetPriority_, maxBitrate_, isActive_;
      rateShare, isMaxrate := 0.0, false;
    }

    function View(): Share
      reads this
    {
      Share(isActive, targetPriority, maxBitrate, rateShare, isMaxrate)
    }
  }

  function Views(streams: seq<RateStream>): (v: seq<Share>)
    reads streams
    ensures |v| == |streams|
    ensures forall i :: 0 <= i < |v| ==> v[i] == streams[i].View()
  {
    if streams == [] then [] else Views(streams[..|streams| - 1]) + [streams[|streams| - 1].View()]
  }

  ghost predicate Distinct(streams: seq<RateStream>) {
    forall i, j :: 0 <= i < j < |streams| ==> streams[i] != streams[j]
  }

  /** The first pass over the streams. */
  method RaisePass(streams: seq<RateStream>, rateLeft: real, prioritySum: real)
    requires Distinct(streams) && prioritySum > 0.0
    modifies streams
    ensures Views(streams) == RaiseAll(old(Views(streams)), rateLeft / prioritySum)
  {
    hide Height, Views, RaiseAll;
    ghost var v, x := Views(streams), rateLeft / prioritySum;
    for n := 0 to |streams|
      invariant forall i :: 0 <= i < |streams| ==> streams[i].View() == if i < n then Raise(v[i], x) else v[i]
    {
      var stream := streams[n];
      if stream.isActive && !stream.isMaxrate {
        MulDiv(rateLeft, stream.targetPriority, prioritySum);
        var tmp := rateLeft * stream.targetPriority / prioritySum;
        stream.rateShare := stream.rateShare + tmp;
      }
    }
    forall i | 0 <= i < |streams|
      ensures Views(streams)[i] == RaiseAll(v, x)[i]
    {
      RaiseAt(v, x, i);
    }
  }

  /** The second pass for one stream: the surplus above its cap, and the priority that leaves the sharing. */
  method TrimOne(stream: RateStream) returns (surplus: real, priority: real)
    modifies stream
    ensures stream.View() == Trim(old(stream.View()))
    ensures surplus == if Over(old(stream.View())) then old(stream.View().share - stream.View().cap) else 0.0
    ensures priority == if Over(old(stream.View())) then old(stream.View()).priority else 0.0
  {
    surplus, priority := 0.0, 0.0;
    if stream.rateShare > stream.maxBitrate && !stream.isMaxrate {
      surplus := stream.rateShare - stream.maxBitrate;
      stream.rateShare := stream.maxBitrate;
      priority := stream.targetPriority;
      stream.isMaxrate := true;
    }
  }

  lemma Apart(streams: seq<RateStream>)
    requires Distinct(streams)
    ensures forall i, j :: 0 <= i < j < |streams| ==> streams[i] != streams[j]
  {
  }

  lemma TrimNone(v: seq<Share>)
    ensures Excess(v[..0]) == 0.0 && RisingPriority(TrimAll(v[..0])) == RisingPriority(v[..0]) == Total(v[..0]) == 0.0
  {
  }

  /** The second pass extends over one more stream. */
  lemma TrimMore(v: seq<Share>, n: nat)
    requires n < |v| && (Over(v[n]) ==> v[n].active)
    ensures Excess(v[..n + 1]) == Excess(v[..n]) + if Over(v[n]) then v[n].share - v[n].cap else 0.0
    ensures RisingPriority(TrimAll(v[..n + 1])) - RisingPriority(v[..n + 1])
            == RisingPriority(TrimAll(v[..n])) - RisingPriority(v[..n]) - if Over(v[n]) then v[n].priority else 0.0
  {
    assert v[..n + 1] == v[..n] + [v[n]];
    Snoc(v[..n], v[n], 0.0);
    Snoc(TrimAll(v[..n]), Trim(v[n]), 0.0);
  }

  /** The second pass: cut shares back to their caps and collect the surplus. */
  method TrimPass(streams: seq<RateStream>, prioritySum: real) returns (rateLeft: real, prioritySum': real)
    requires Distinct(streams) && prioritySum == RisingPriority(Views(streams))
    requires forall i :: 0 <= i < |streams| && Over(Views(streams)[i]) ==> Views(streams)[i].active
    modifies streams
    ensures Views(streams) == TrimAll(old(Views(streams)))
    ensures rateLeft == Excess(old(Views(streams)))
    ensures prioritySum' == RisingPriority(Views(streams))
  {
    hide *;
    ghost var v := Views(streams);
    rateLeft, prioritySum' := 0.0, prioritySum;
    TrimNone(v);
    Apart(streams);
    for n := 0 to |streams|
      invariant forall i :: 0 <= i < |streams| ==> streams[i].View() == if i < n then Trim(v[i]) else v[i]
      invariant rateLeft == Excess(v[..n])
      invariant prioritySum' == RisingPriority(TrimAll(v[..n])) - RisingPriority(v[..n]) + RisingPriority(v)
    {
      TrimMore(v, n);
      var surplus, priority := TrimOne(streams[n]);
      rateLeft := rateLeft + surplus;
      prioritySum' := prioritySum' - priority;
    }
    assert v[..|streams|] == v;
    forall i | 0 <= i < |streams|
      ensures Views(streams)[i] == TrimAll(v)[i]
    {
      TrimAt(v, i);
    }
  }

  /** Clear all shares and add up the priorities of the active streams. */
  method ClearShares(streams: seq<RateStream>) returns (prioritySum: real)
    requires Distinct(streams)
    modifies streams
    ensures forall i :: 0 <= i < |streams| ==> Views(streams)[i] == old(Views(streams))[i].(share := 0.0, capped := false)
    ensures prioritySum == RisingPriority(Views(streams)) && Total(Views(streams)) == 0.0
  {
    hide Views, Total, RisingPriority;
    ghost var v := Views(streams);
    prioritySum := 0.0;
    TrimNone(Views(streams));
    for n := 0 to |streams|
      invariant forall i :: 0 <= i < |streams| ==>
                  streams[i].View() == if i < n then v[i].(share := 0.0, capped := false) else v[i]
      invariant prioritySum == RisingPriority(Views(streams)[..n]) && Total(Views(streams)[..n]) == 0.0
    {
      ghost var done := Views(streams)[..n];
      var stream := streams[n];
      stream.isMaxrate := false;
      stream.rateShare := 0.0;
      if stream.isActive {
        prioritySum := prioritySum + stream.targetPriority;
      }
      assert Views(streams)[..n + 1] == done + [stream.View()];
      Snoc(done, stream.View(), 0.0);
    }
    assert Views(streams)[..|streams|] == Views(streams);
  }

  /** The allocation loop: shares and what is left over always add up to the initial rate, all active shares end up
      at one level or at their lower cap, and what is left over is at most 1 bps unless (almost) nobody is below the cap. */
  method AllocateRates(streams: seq<RateStream>, rate: real) returns (rateLeft: real, ghost level: real)
    requires Distinct(streams)
    requires forall i :: 0 <= i < |streams| ==> streams[i].targetPriority > 0.0 && streams[i].maxBitrate >= 0.0
    modifies streams
    ensures level >= 0.0 && AtLevel(Views(streams), level)
    ensures forall i :: 0 <= i < |streams| ==>
              && Views(streams)[i].active == old(Views(streams))[i].active
              && Views(streams)[i].cap == old(Views(streams))[i].cap
              && Views(streams)[i].priority == old(Views(streams))[i].priority
    ensures Total(Views(streams)) + rateLeft == rate
    ensures rateLeft <= 1.0 || RisingPriority(Views(streams)) <= 0.01
    ensures (forall i :: 0 <= i < |streams| ==> streams[i].targetPriority > 0.01) ==>
              rateLeft <= 1.0
              || forall i :: 0 <= i < |streams| && streams[i].isActive ==> streams[i].rateShare == streams[i].maxBitrate
  {
    hide Height, Total, RisingPriority, RisingCount, Excess, RaiseAll, TrimAll, Filling, AtLevel, Views, Raise, Trim;
    var prioritySum := ClearShares(streams);
    rateLeft, level := rate, 0.0;
    assert Filling(Views(streams), 0.0) by {
      ClearedFilling(Views(streams));
    }
    while rateLeft > 1.0 && prioritySum > 0.01
      invariant Weighted(Views(streams)) && level >= 0.0 && Filling(Views(streams), level)
      invariant prioritySum == RisingPriority(Views(streams))
      invariant Total(Views(streams)) + rateLeft == rate
      decreases RisingCount(Views(streams)) + if rateLeft > 1.0 then 1 else 0
    {
      ghost var v, x := Views(streams), rateLeft / prioritySum;
      RoundFills(v, level, rateLeft);
      RaisePass(streams, rateLeft, prioritySum);
      RaiseTotals(v, x);
      rateLeft, prioritySum := TrimPass(streams, prioritySum);
      assert Views(streams) == TrimAll(RaiseAll(v, x));
      level := level + x;
      assert Filling(Views(streams), level);
    }
    FillingAtLevel(Views(streams), level);
    NobodyRising(Views(streams));
  }

  lemma FillingAtLevel(v: seq<Share>, level: real)
    requires Filling(v, level)
    ensures AtLevel(v, level)
    ensures forall i :: 0 <= i < |v| && v[i].active && !Rising(v[i]) ==> v[i].share == v[i].cap
  {
  }

  lemma ClearedFilling(v: seq<Share>)
    requires Weighted(v) && forall i :: 0 <= i < |v| ==> v[i].share == 0.0 && !v[i].capped
    ensures Filling(v, 0.0)
  {
  }

  /** With every priority above 0.01, a priority sum of at most 0.01 means that nobody takes part any more. */
  lemma {:induction false} NobodyRising(v: seq<Share>)
    requires Weighted(v)
    ensures RisingPriority(v) >= 0.0
    ensures (forall i :: 0 <= i < |v| ==> v[i].priority > 0.01) && RisingPriority(v) <= 0.01 ==>
              forall i :: 0 <= i < |v| ==> !Rising(v[i])
  {
    if v != [] {
      NobodyRising(v[..|v| - 1]);
    }
  }
}
