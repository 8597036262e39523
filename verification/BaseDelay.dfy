/** The windowed minimum of the one-way delay: a 50-period ring, a running minimum and a cached ring minimum
    that together agree with a plain minimum over the samples. */
module BaseDelay {
  import opened Serial

  /** No sample: the largest 32-bit value. */
  const NO_DELAY: uint32 := 4294967295

  /** Every sample since the last reset: those of the period still open, and those of each closed period. */
  datatype Samples = Samples(open: seq<uint32>, closed: seq<seq<uint32>>)

  const NO_SAMPLES: Samples := Samples([], [])

  function MinOf(s: seq<uint32>): (m: uint32)
    ensures forall x :: x in s ==> m <= x
    ensures s != [] ==> m in s
    ensures s == [] ==> m == NO_DELAY
  {
    if s == [] then NO_DELAY
    else
      assert s == s[..|s| - 1] + [s[|s| - 1]];
      if MinOf(s[..|s| - 1]) <= s[|s| - 1] && |s| > 1 then MinOf(s[..|s| - 1]) else s[|s| - 1]
  }

  function Concat(ss: seq<seq<uint32>>): seq<uint32> {
    if ss == [] then [] else Concat(ss[..|ss| - 1]) + ss[|ss| - 1]
  }

  /** The last n periods. */
  function Last(ss: seq<seq<uint32>>, n: nat): seq<seq<uint32>> {
    if |ss| <= n then ss else ss[|ss| - n..]
  }

  /** The samples of the open period and of the last 50 closed ones. */
  function Recent(log: Samples): seq<uint32> { Concat(Last(log.closed, 50)) + log.open }

  /** What the base delay is meant to be. */
  function BaseOf(log: Samples): uint32 { MinOf(Recent(log)) }

  /** A sample is added; when the period is over, it closes. */
  function AddSample(log: Samples, owd: uint32, periodOver: bool): Samples {
    var open := log.open + [owd];
    if periodOver then Samples([], log.closed + [open]) else log.(open := open)
  }

  lemma MinOfAppend(a: seq<uint32>, b: seq<uint32>)
    ensures MinOf(a + b) == if MinOf(a) <= MinOf(b) then MinOf(a) else MinOf(b)
  {
    var m := MinOf(a + b);
    if a + b != [] {
      assert m in a || m in b;
    }
    assert forall x :: x in a ==> x in a + b;
    assert forall x :: x in b ==> x in a + b;
  }

  function Mins(ss: seq<seq<uint32>>): (r: seq<uint32>)
    ensures |r| == |ss|
    ensures forall i :: 0 <= i < |ss| ==> r[i] == MinOf(ss[i])
  {
    seq(|ss|, i requires 0 <= i < |ss| => MinOf(ss[i]))
  }

  /** The minimum over periods is the minimum of their minima. */
  lemma {:induction false} MinOfConcat(ss: seq<seq<uint32>>)
    ensures MinOf(Concat(ss)) == MinOf(Mins(ss))
  {
    hide MinOf;
    if ss != [] {
      var n := |ss| - 1;
      MinOfConcat(ss[..n]);
      MinOfAppend(Concat(ss[..n]), ss[n]);
      MinOfAppend(Mins(ss[..n]), [MinOf(ss[n])]);
      assert Mins(ss) == Mins(ss[..n]) + [MinOf(ss[n])];
    }
  }

  /** How many periods ago ring slot k was written, when ptr was written last. */
  function Age(ptr: nat, k: nat): (age: nat)
    requires ptr < 50 && k < 50
    ensures age < 50
  {
    if k <= ptr then ptr - k else ptr - k + 50
  }

  /** A ring that holds the minima of the closed periods, the newest at ptr. */
  ghost predicate Holds(hist: seq<uint32>, ptr: nat, closed: seq<seq<uint32>>) {
    && |hist| == 50 && ptr < 50
    && forall k :: 0 <= k < 50 ==>
         hist[k] == if Age(ptr, k) < |closed| then MinOf(closed[|closed| - 1 - Age(ptr, k)]) else NO_DELAY
  }

  lemma HoldsShape(hist: seq<uint32>, ptr: nat, closed: seq<seq<uint32>>)
    requires Holds(hist, ptr, closed)
    ensures |hist| == 50 && ptr < 50
  {
  }

  lemma SameMinimum(a: seq<uint32>, b: seq<uint32>)
    requires forall k :: 0 <= k < |a| ==> a[k] == NO_DELAY || a[k] in b
    requires forall j :: 0 <= j < |b| ==> b[j] in a
    ensures MinOf(a) == MinOf(b)
  {
  }

  /** The minimum over the ring is the minimum over the last 50 closed periods. */
  lemma RingMinimum(hist: seq<uint32>, ptr: nat, closed: seq<seq<uint32>>)
    requires Holds(hist, ptr, closed)
    ensures MinOf(hist) == MinOf(Concat(Last(closed, 50)))
  {
    var last := Last(closed, 50);
    MinOfConcat(last);
    hide MinOf, Concat, Holds;
    HoldsShape(hist, ptr, closed);
    forall k | 0 <= k < 50
      ensures hist[k] == NO_DELAY || hist[k] in Mins(last)
    {
      RingSlot(hist, ptr, closed, k);
    }
    forall j | 0 <= j < |last|
      ensures Mins(last)[j] in hist
    {
      RingPeriod(hist, ptr, closed, j);
    }
    SameMinimum(hist, Mins(last));
  }

  lemma RingSlot(hist: seq<uint32>, ptr: nat, closed: seq<seq<uint32>>, k: nat)
    requires Holds(hist, ptr, closed) && k < 50
    ensures hist[k] == NO_DELAY || hist[k] in Mins(Last(closed, 50))
  {
    hide MinOf;
    var last := Last(closed, 50);
    if Age(ptr, k) < |closed| {
      assert hist[k] == Mins(last)[|last| - 1 - Age(ptr, k)];
    }
  }

  lemma RingPeriod(hist: seq<uint32>, ptr: nat, closed: seq<seq<uint32>>, j: nat)
    requires Holds(hist, ptr, closed) && j < |Last(closed, 50)|
    ensures Mins(Last(closed, 50))[j] in hist
  {
    hide MinOf;
    var last := Last(closed, 50);
    var i := |last| - 1 - j;
    var k := if i <= ptr then ptr - i else ptr - i + 50;
    assert Age(ptr, k) == i;
    assert hist[k] == Mins(last)[j];
  }

  lemma AgeTurns(ptr: nat, next: nat, k: nat)
    requires ptr < 50 && k < 50 && next == if ptr == 49 then 0 else ptr + 1
    ensures Age(next, k) == if k == next then 0 else Age(ptr, k) + 1
  {
  }

  /** What slot k is to hold. */
  function SlotValue(age: nat, closed: seq<seq<uint32>>): uint32 {
    if age < |closed| then MinOf(closed[|closed| - 1 - age]) else NO_DELAY
  }

  lemma SlotValueTurns(age: nat, closed: seq<seq<uint32>>, period: seq<uint32>)
    ensures SlotValue(age + 1, closed + [period]) == SlotValue(age, closed)
    ensures SlotValue(0, closed + [period]) == MinOf(period)
  {
    hide MinOf;
    var more := closed + [period];
    assert more[|more| - 1] == period;
    if age < |closed| {
      assert more[|more| - 1 - (age + 1)] == closed[|closed| - 1 - age];
    }
  }

  lemma HoldsSlots(hist: seq<uint32>, ptr: nat, closed: seq<seq<uint32>>)
    requires |hist| == 50 && ptr < 50
    ensures Holds(hist, ptr, closed) <==> forall k :: 0 <= k < 50 ==> hist[k] == SlotValue(Age(ptr, k), closed)
  {
    hide MinOf, Age;
  }

  /** Closing a period turns the ring by one and keeps it in step. */
  lemma RingTurn(hist: seq<uint32>, ptr: nat, closed: seq<seq<uint32>>, period: seq<uint32>)
    requires Holds(hist, ptr, closed)
    ensures var next := (ptr + 1) % 50; Holds(hist[next := MinOf(period)], next, closed + [period])
  {
    HoldsShape(hist, ptr, closed);
    hide MinOf, Age, SlotValue, Holds;
    var next := if ptr == 49 then 0 else ptr + 1;
    assert next == (ptr + 1) % 50;
    var more, turned := closed + [period], hist[next := MinOf(period)];
    HoldsSlots(hist, ptr, closed);
    HoldsSlots(turned, next, more);
    forall k | 0 <= k < 50
      ensures turned[k] == SlotValue(Age(next, k), more)
    {
      AgeTurns(ptr, next, k);
      SlotValueTurns(Age(ptr, k), closed, period);
    }
  }

  /** A delay sample, with the unbounded time it was taken at. */
  datatype Sample = Sample(at: int, owd: uint32)

  /** The log, and the unbounded time at which its last period was closed, after a sequence of samples. */
  function Sampled(log: Samples, closedAt: int, samples: seq<Sample>): (Samples, int) {
    if samples == [] then (log, closedAt)
    else
      var (l, c) := Sampled(log, closedAt, samples[..|samples| - 1]);
      var s := samples[|samples| - 1];
      (AddSample(l, s.owd, s.at - c >= 655360), if s.at - c >= 655360 then s.at else c)
  }

  /** The sample is in the period that is still open, or in the one closed n periods ago. */
  ghost predicate InPeriod(log: Samples, owd: uint32, n: nat) {
    n <= |log.closed| && owd in if n == 0 then log.open else log.closed[|log.closed| - n]
  }

  lemma StaysInPeriod(log: Samples, owd: uint32, n: nat, s: Sample, periodOver: bool)
    requires InPeriod(log, owd, n)
    ensures InPeriod(AddSample(log, s.owd, periodOver), owd, if periodOver then n + 1 else n)
  {
    var open, next := log.open + [s.owd], AddSample(log, s.owd, periodOver);
    assert owd in log.open ==> owd in open;
    if periodOver && n > 0 {
      assert next.closed[|next.closed| - (n + 1)] == log.closed[|log.closed| - n];
    }
  }

  /** Closing n periods takes at least n - 1 times 10 s. */
  lemma {:induction false} PeriodsTake(log: Samples, closedAt: int, samples: seq<Sample>, owd: uint32, n: nat, from: int)
    returns (later: nat)
    requires InPeriod(log, owd, n) && (n > 0 ==> closedAt - from >= 655360 * (n - 1))
    requires forall i :: 0 <= i < |samples| ==> from <= samples[i].at
    ensures var (l, c) := Sampled(log, closedAt, samples);
            InPeriod(l, owd, later) && (later > 0 ==> c - from >= 655360 * (later - 1))
  {
    if samples == [] {
      later := n;
    } else {
      var front, s := samples[..|samples| - 1], samples[|samples| - 1];
      later := PeriodsTake(log, closedAt, front, owd, n, from);
      var (l, c) := Sampled(log, closedAt, front);
      StaysInPeriod(l, owd, later, s, s.at - c >= 655360);
      if s.at - c >= 655360 {
        later := later + 1;
      }
    }
  }

  /** A sample counts for at least 500 s: the base delay never exceeds any sample of that time, in any sequence of samples. */
  lemma RecentSamplesCount(log: Samples, closedAt: int, first: Sample, rest: seq<Sample>)
    requires rest != [] && forall i :: 0 <= i < |rest| ==> first.at <= rest[i].at
    requires forall i, j :: 0 <= i < j < |rest| ==> rest[i].at <= rest[j].at
    requires rest[|rest| - 1].at - first.at < 50 * 655360 && closedAt <= first.at
    ensures BaseOf(Sampled(log, closedAt, [first] + rest).0) <= first.owd
  {
    var over := first.at - closedAt >= 655360;
    var start, c0 := AddSample(log, first.owd, over), if over then first.at else closedAt;
    SampledCons(log, closedAt, first, rest);
    var n := PeriodsTake(start, c0, rest, first.owd, if over then 1 else 0, first.at);
    ClosedBefore(start, c0, rest, first.at);
    InPeriodCounts(Sampled(start, c0, rest).0, first.owd, n);
  }

  lemma {:induction false} SampledCons(log: Samples, closedAt: int, first: Sample, rest: seq<Sample>)
    ensures var over := first.at - closedAt >= 655360;
            Sampled(log, closedAt, [first] + rest)
            == Sampled(AddSample(log, first.owd, over), if over then first.at else closedAt, rest)
  {
    hide AddSample;
    if rest == [] {
      assert [first] + rest == [first] && [first][..0] == [];
    } else {
      assert ([first] + rest)[..|rest|] == [first] + rest[..|rest| - 1];
      SampledCons(log, closedAt, first, rest[..|rest| - 1]);
    }
  }

  lemma {:induction false} ClosedBefore(log: Samples, closedAt: int, samples: seq<Sample>, from: int)
    requires closedAt <= from && forall i :: 0 <= i < |samples| ==> from <= samples[i].at
    requires forall i, j :: 0 <= i < j < |samples| ==> samples[i].at <= samples[j].at
    ensures Sampled(log, closedAt, samples).1 <= if samples == [] then from else samples[|samples| - 1].at
  {
    hide AddSample;
    if samples != [] {
      ClosedBefore(log, closedAt, samples[..|samples| - 1], from);
    }
  }

  lemma InPeriodCounts(log: Samples, owd: uint32, n: nat)
    requires InPeriod(log, owd, n) && n <= 50
    ensures BaseOf(log) <= owd
  {
    hide MinOf;
    if n > 0 {
      var last := Last(log.closed, 50);
      assert last[|last| - n] == log.closed[|log.closed| - n];
      InConcat(last, |last| - n, owd);
    }
    assert owd in Recent(log);
  }

  lemma {:induction false} InConcat(ss: seq<seq<uint32>>, i: nat, x: uint32)
    requires i < |ss| && x in ss[i]
    ensures x in Concat(ss)
  {
    if i < |ss| - 1 {
      InConcat(ss[..|ss| - 1], i, x);
    }
  }

  /** The delay part of ScreamV2Tx, with clock drift compensation off. */
  class BaseDelayCache {
    const baseOwdHist: array<uint32>
    var baseOwd: uint32
    var baseOwdHistMin: uint32
    var baseOwdHistPtr: nat
    var ackedOwd: uint32
    var lastBaseOwdAddT: uint32
    var lastRateLimitT: uint32
    var canResetBaseDelayHistory: bool

    ghost var log: Samples

    ghost predicate Valid()
      reads this, baseOwdHist
    {
      && Holds(baseOwdHist[..], baseOwdHistPtr, log.closed)
      && baseOwdHistMin == MinOf(baseOwdHist[..])
      && baseOwd == MinOf(log.open)
    }

    constructor (t: uint32)
      ensures Valid() && log == NO_SAMPLES && fresh(baseOwdHist)
      ensures lastBaseOwdAddT == lastRateLimitT == t && !canResetBaseDelayHistory
    {
      baseOwdHist := new uint32[50](_ => NO_DELAY);
      baseOwd, baseOwdHistMin, baseOwdHistPtr, ackedOwd := NO_DELAY, NO_DELAY, 0, 0;
      lastBaseOwdAddT, lastRateLimitT, canResetBaseDelayHistory := t, t, false;
      log := NO_SAMPLES;
      new;
      assert forall k :: 0 <= k < 50 ==> baseOwdHist[..][k] == NO_DELAY;
    }

    /** getBaseOwd: the minimum of all samples of the open period and the last 50 closed ones since the last reset. */
    method GetBaseOwd() returns (base: uint32)
      requires Valid()
      ensures base == BaseOf(log)
    {
      RingMinimum(baseOwdHist[..], baseOwdHistPtr, log.closed);
      MinOfAppend(Concat(Last(log.closed, 50)), log.open);
      base := Min(baseOwd, baseOwdHistMin);
    }

    /** estimateOwd takes ackedOwd as a sample, and closes the period after 10 s. */
    method EstimateOwd(t: uint32)
      requires Valid()
      modifies this`baseOwd, this`baseOwdHistMin, this`baseOwdHistPtr, this`lastBaseOwdAddT, this`log, baseOwdHist
      ensures Valid()
      ensures log == AddSample(old(log), ackedOwd, Sub32(t, old(lastBaseOwdAddT)) >= 655360)
      ensures lastBaseOwdAddT == if Sub32(t, old(lastBaseOwdAddT)) >= 655360 then t else old(lastBaseOwdAddT)
    {
      hide MinOf, Holds;
      var periodOver := Sub32(t, lastBaseOwdAddT) >= 655360;
      ghost var period := log.open + [ackedOwd];
      MinOfAppend(log.open, [ackedOwd]);
      baseOwd := Min(baseOwd, ackedOwd);
      if periodOver {
        RingTurn(baseOwdHist[..], baseOwdHistPtr, log.closed, period);
        ghost var before := baseOwdHist[..];
        HoldsShape(before, baseOwdHistPtr, log.closed);
        baseOwdHistPtr := (baseOwdHistPtr + 1) % 50;
        baseOwdHist[baseOwdHistPtr] := baseOwd;
        assert baseOwdHist[..] == before[baseOwdHistPtr := MinOf(period)];
        lastBaseOwdAddT := t;
        baseOwd := NO_DELAY;
        baseOwdHistMin := RingMin();
      }
      log := AddSample(log, ackedOwd, periodOver);
    }

    /** The loop that refreshes the cached minimum of the ring. */
    method RingMin() returns (m: uint32)
      requires baseOwdHist.Length == 50
      ensures m == MinOf(baseOwdHist[..])
    {
      m := NO_DELAY;
      for n := 0 to 50
        invariant m == MinOf(baseOwdHist[..n])
      {
        MinOfAppend(baseOwdHist[..n], [baseOwdHist[n]]);
        assert baseOwdHist[..n + 1] == baseOwdHist[..n] + [baseOwdHist[n]];
        m := Min(m, baseOwdHist[n]);
      }
      assert baseOwdHist[..50] == baseOwdHist[..];
    }

    /** The three resets: every sample so far is forgotten. */
    method Reset()
      requires baseOwdHist.Length == 50 && baseOwdHistPtr < 50
      modifies this`baseOwd, this`baseOwdHistMin, this`log, baseOwdHist
      ensures Valid() && log == NO_SAMPLES
    {
      for n := 0 to 50
        invariant forall k :: 0 <= k < n ==> baseOwdHist[k] == NO_DELAY
      {
        baseOwdHist[n] := NO_DELAY;
      }
      baseOwd := NO_DELAY;
      baseOwdHistMin := NO_DELAY;
      log := NO_SAMPLES;
      assert forall k :: 0 <= k < 50 ==> baseOwdHist[..][k] == NO_DELAY;
    }

    /** The delay part of markAcked: the queue delay of a packet sent at timeTx and received at timestamp. The base never
        exceeds the sample, so the subtraction cannot underflow; only a delay of more than 0xFFFF0000 above the
        base, which means that the clocks have wrapped apart, resets the history. */
    method OnAcked(t: uint32, timestamp: uint32, timeTx: uint32) returns (qDel: uint32)
      requires Valid()
      modifies this`ackedOwd, this`baseOwd, this`baseOwdHistMin, this`baseOwdHistPtr, this`lastBaseOwdAddT, this`log, baseOwdHist
      ensures Valid()
      ensures ackedOwd == Sub32(timestamp, timeTx)
      ensures var sampled := AddSample(old(log), ackedOwd, Sub32(t, old(lastBaseOwdAddT)) >= 655360);
              && BaseOf(sampled) <= ackedOwd
              && if ackedOwd - BaseOf(sampled) > 0xFFFF0000 then qDel == 0 && log == NO_SAMPLES
                 else qDel == ackedOwd - BaseOf(sampled) && log == sampled
    {
      hide BaseOf, AddSample, MinOf, Holds;
      ackedOwd := Sub32(timestamp, timeTx);
      ghost var before := log;
      EstimateOwd(t);
      SampleCounts(before, ackedOwd, Sub32(t, old(lastBaseOwdAddT)) >= 655360);
      var base := GetBaseOwd();
      qDel := Sub32(ackedOwd, base);
      assert qDel == ackedOwd - base;
      if qDel > 0xFFFF0000 {
        HoldsShape(baseOwdHist[..], baseOwdHistPtr, log.closed);
        Reset();
        qDel := 0;
      }
    }

    /** The standing-queue guard of getTargetBitrate: when the long-term minimum queue delay is high, halve the
        rate for a while and then reset the base delay history once. */
    method LimitRate(t: uint32, delayIsHigh: bool, sRtt: uint32) returns (halve: bool)
      requires Valid()
      modifies this`baseOwd, this`baseOwdHistMin, this`lastRateLimitT, this`canResetBaseDelayHistory, this`log, baseOwdHist
      ensures Valid()
      ensures var since := if delayIsHigh && Sub32(t, old(lastRateLimitT)) > 3932160 then t else old(lastRateLimitT);
              && lastRateLimitT == since
              && halve == (delayIsHigh && Sub32(t, since) < Max(6554, Wrap32(5 * sRtt)))
              && log == (if delayIsHigh && !halve && old(canResetBaseDelayHistory) then NO_SAMPLES else old(log))
              && canResetBaseDelayHistory == (if !delayIsHigh then old(canResetBaseDelayHistory) else halve)
    {
      halve := false;
      if delayIsHigh {
        if Sub32(t, lastRateLimitT) > 3932160 {
          lastRateLimitT := t;
        }
        if Sub32(t, lastRateLimitT) < Max(6554, Wrap32(5 * sRtt)) {
          halve := true;
          canResetBaseDelayHistory := true;
        } else if canResetBaseDelayHistory {
          Reset();
          canResetBaseDelayHistory := false;
        }
      }
    }
  }

  /** The newest sample is always among the recent ones. */
  lemma SampleCounts(log: Samples, owd: uint32, periodOver: bool)
    ensures BaseOf(AddSample(log, owd, periodOver)) <= owd
  {
    var next := AddSample(log, owd, periodOver);
    if periodOver {
      var last := Last(next.closed, 50);
      assert last[|last| - 1] == log.open + [owd];
      assert owd in Concat(last);
    } else {
      assert owd in next.open;
    }
    assert owd in Recent(next);
  }
}
