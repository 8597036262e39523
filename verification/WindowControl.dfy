/** The congestion window of ScreamV2Tx: what each call does to it, and the range it never leaves. */
module WindowControl {
  import opened Serial
  import opened WindowMath
  import opened CongestionEvents

  const INIT_MSS := 100

  predicate Sorted(s: seq<int>) { forall i, j :: 0 <= i < j < |s| ==> s[i] <= s[j] }

  /** Sorted and with the same entries: the middle one is the median. */
  lemma MiddleIsMedian(s: seq<int>, a: int, b: int, c: int)
    requires |s| == 3 && Sorted(s) && multiset(s) == multiset{a, b, c}
    ensures s[1] == Median(a, b, c)
  {
    assert s == [s[0], s[1], s[2]];
    var m := multiset{s[0], s[1], s[2]};
    assert multiset(s) == m;
    assert a in m && b in m && c in m;
    assert s[0] in multiset{a, b, c} && s[1] in multiset{a, b, c} && s[2] in multiset{a, b, c};
    assert m[a] == multiset{a, b, c}[a] && m[b] == multiset{a, b, c}[b] && m[c] == multiset{a, b, c}[c];
  }

  /** The history of inflexion points after one more; the first one fills it. */
  function HistoryWith(h: seq<int>, ix: nat, w: int): (r: seq<int>)
    requires |h| == 3 && ix < 3
    ensures |r| == 3
  {
    (if h[0] == 0 then [w, w, w] else h)[ix := w]
  }

  function MedianWith(h: seq<int>, ix: nat, w: int): int
    requires |h| == 3 && ix < 3
  {
    var r := HistoryWith(h, ix, w);
    Median(r[0], r[1], r[2])
  }

  /** Three times of congestion after a calm of more than five round trips: the inflexion point is the median of the three
      windows, whatever was in the history before. */
  lemma ThreeInflexions(ix: nat, w1: int, w2: int, w3: int)
    requires ix < 3 && w1 != 0 && w2 != 0
    ensures var (i2, i3) := ((ix + 1) % 3, (ix + 2) % 3);
            var h := HistoryWith([w1, w1, w1], i2, w2);
            MedianWith([w1, w1, w1], i2, w2) == w1 && MedianWith(h, i3, w3) == Median(w1, w2, w3)
  {
  }

  /** The largest entry, or least if that is larger. */
  function MostOf(h: seq<int>, least: int): (m: int)
    ensures m >= least && forall k :: 0 <= k < |h| ==> m >= h[k]
    ensures m == least || m in h
  {
    if h == [] then least else Max(MostOf(h[..|h| - 1], least), h[|h| - 1])
  }

  /** What a window update finds: the history of inflexion points with the times of the last entry and the last congestion,
      and the history of bytes in flight with the time of its last entry. */
  datatype Before = Before(
    points: seq<int>, pointIx: nat, cwndI: int, noted: uint32, met: uint32,
    flights: seq<int>, flightIx: nat, most: int, mostPrev: int, slowT: uint32)

  /** The marking averages, with the counters of the running interval and the time of its start. */
  datatype Marks = Marks(delivered: int, packets: int, marked: int, density: real, fraction: real, alpha: real, since: uint32)

  function Swapped(s: seq<int>, i: nat, j: nat): (r: seq<int>)
    requires i < |s| && j < |s|
  {
    s[i := s[j]][j := s[i]]
  }

  lemma SwappedMultiset(s: seq<int>, i: nat, j: nat)
    requires i < |s| && j < |s|
    ensures multiset(Swapped(s, i, j)) == multiset(s)
  {
  }

  /** The first n entries are in their final place, and entry n is the least of those up to m. */
  ghost predicate Settled(s: seq<int>, n: nat, m: nat) {
    && (forall i, j :: 0 <= i < n && i < j < |s| ==> s[i] <= s[j])
    && (forall j :: n < j < m && j < |s| ==> s[n] <= s[j])
  }

  lemma SettledStep(s: seq<int>, n: nat, m: nat)
    requires n < m < |s| && Settled(s, n, m)
    ensures s[n] <= s[m] ==> Settled(s, n, m + 1)
    ensures s[n] > s[m] ==> Settled(Swapped(s, n, m), n, m + 1)
  {
    var t := Swapped(s, n, m);
    if s[n] > s[m] {
      forall i, j | 0 <= i < n && i < j < |t| ensures t[i] <= t[j] {
        assert s[i] <= s[j] && s[i] <= s[n] && s[i] <= s[m];
      }
    }
  }

  lemma SettledRound(s: seq<int>, n: nat)
    requires n < |s| && Settled(s, n, |s|)
    ensures Settled(s, n + 1, 0)
  {
  }

  method Exchange(tmp: array<int>, n: nat, m: nat)
    requires n < m < tmp.Length
    modifies tmp
    ensures tmp[..] == if old(tmp[n]) > old(tmp[m]) then Swapped(old(tmp[..]), n, m) else old(tmp[..])
  {
    if tmp[n] > tmp[m] {
      tmp[n], tmp[m] := tmp[m], tmp[n];
    }
  }

  /** The exchange sort in updateCwndI. */
  method SortInPlace(tmp: array<int>)
    modifies tmp
    ensures Sorted(tmp[..]) && multiset(tmp[..]) == multiset(old(tmp[..]))
  {
    hide Settled, Swapped;
    NothingSettled(tmp[..]);
    for n := 0 to tmp.Length
      invariant multiset(tmp[..]) == multiset(old(tmp[..])) && Settled(tmp[..], n, 0)
    {
      NothingLess(tmp[..], n);
      for m := n + 1 to tmp.Length
        invariant multiset(tmp[..]) == multiset(old(tmp[..])) && Settled(tmp[..], n, m)
      {
        SettledStep(tmp[..], n, m);
        SwappedMultiset(tmp[..], n, m);
        Exchange(tmp, n, m);
      }
      SettledRound(tmp[..], n);
    }
    SettledSorted(tmp[..]);
  }

  lemma NothingSettled(s: seq<int>)
    ensures Settled(s, 0, 0)
  {
  }

  lemma NothingLess(s: seq<int>, n: nat)
    requires Settled(s, n, 0)
    ensures Settled(s, n, n + 1)
  {
  }

  lemma SettledSorted(s: seq<int>)
    requires Settled(s, |s|, 0)
    ensures Sorted(s)
  {
  }

  /** The increment factor of the growth bound: only what was acknowledged beyond the CE marked bytes counts. */
  function Surplus(acked: int, marked: int): int { Max(0, acked - marked) }

  /** A reaction that starts from the window start: never below the minimum or below half, never up. */
  ghost predicate HalvedAtMost(start: int, reacted: int, cwndMin: int) {
    Max(cwndMin, start / 2) <= reacted <= Max(cwndMin, start)
  }

  /** A growth step: bounded by the surplus of acknowledged over CE marked bytes, and by what was in flight.
      A surplus of CE marked bytes shrinks the window instead. */
  ghost predicate GrewWithin(before: int, cwnd: int, cwndMin: int, acked: int, marked: int, steepest: real, allowed: real) {
    && cwnd >= cwndMin
    && cwnd as real <= MaxReal(cwndMin as real, before as real + Times(Surplus(acked, marked) as real, steepest) + 0.5)
    && (acked <= marked ==> cwnd as real >= before as real + Times((acked - marked) as real, steepest))
    && (acked >= marked ==> cwnd >= before)
    && (acked <= marked ==> cwnd <= Max(cwndMin, before))
    && (cwnd > Max(cwndMin, before) ==> cwnd as real <= allowed)
  }

  /** The rounded increment added to a window. */
  function Grown(cwnd: int, increment: real): int { cwnd + Truncate(increment + 0.5) }

  lemma GrownBounds(cwnd: int, increment: real)
    ensures increment >= 0.0 ==> cwnd as real <= Grown(cwnd, increment) as real <= cwnd as real + increment + 0.5
    ensures increment <= 0.0 ==> cwnd as real + increment <= Grown(cwnd, increment) as real <= cwnd as real + 0.5
    ensures increment >= 0.0 ==> Grown(cwnd, increment) as real > cwnd as real + increment - 0.5
    ensures increment <= 0.0 ==> Grown(cwnd, increment) as real < cwnd as real + increment + 1.5
  {
  }

  lemma GrownFalls(cwnd: int, increment: real)
    ensures Grown(cwnd, increment) < cwnd <==> increment <= -1.5
  {
  }

  class WindowControl {
    const lossBeta: real
    const ecnCeBeta: real
    const isL4s: bool
    const isEnablePacketPacing: bool
    const multiplicativeIncreaseScalefactor: real
    const bytesInFlightHeadRoom: real
    const packetPacingHeadroom: real
    const maxWindowHeadroom: real
    const cwndIHist: array<int>
    const maxBytesInFlightHist: array<int>

    var mss: int
    var prevMss: int
    var cwnd: int
    var cwndMin: int
    var cwndMinLow: int
    var cwndI: int
    var cwndIHistIx: nat
    var windowHeadroom: real
    var postCongestionScale: real

    var maxBytesInFlight: int
    var maxBytesInFlightPrev: int
    var maxBytesInFlightHistIx: nat

    var bytesNewlyAcked: int
    var bytesNewlyAckedCe: int
    var bytesDeliveredThisRtt: int
    var packetsDeliveredThisRtt: int
    var packetsMarkedThisRtt: int

    var fractionMarked: real
    var l4sAlpha: real
    var virtualL4sAlpha: real
    var ceDensity: real

    var lossEvent: bool
    var ecnCeEvent: bool
    var virtualCeEvent: bool

    var lastLossEventT: uint32
    var lastL4sAlphaUpdateT: uint32
    var lastCwndIUpdateT: uint32
    var lastCongestionDetectedT: uint32
    var lastSlowUpdateT: uint32
    var lastCwndUpdateT: uint32
    var initTime: uint32

    function GetMss(): (r: int)
      reads this`mss, this`prevMss
    {
      Max(mss, prevMss)
    }

    /** The configuration: what the constructor takes. */
    ghost predicate Configured() {
      && multiplicativeIncreaseScalefactor >= 0.0 && maxWindowHeadroom >= 1.5
      && cwndIHist.Length == 3 && maxBytesInFlightHist.Length == 20
    }

    /** Marked packets are among the delivered ones, and every average is a fraction. */
    ghost predicate MarkingInRange()
      reads this`packetsMarkedThisRtt, this`packetsDeliveredThisRtt, this`bytesDeliveredThisRtt, this`ceDensity,
            this`fractionMarked, this`l4sAlpha, this`virtualL4sAlpha
    {
      && 0 <= packetsMarkedThisRtt <= packetsDeliveredThisRtt
      && 0 <= bytesDeliveredThisRtt && (bytesDeliveredThisRtt > 0 ==> packetsDeliveredThisRtt > 0)
      && 0.25 <= ceDensity <= 1.0 && 0.0 <= fractionMarked <= 1.0
      && 0.0 <= l4sAlpha <= 1.0 && 0.0 <= virtualL4sAlpha <= 1.0
    }

    /** The inflexion point is a window the sender had. */
    ghost predicate HistoryInRange()
      reads this`cwndI, this`cwndIHistIx, this`maxBytesInFlight, this`maxBytesInFlightPrev, this`maxBytesInFlightHistIx,
            cwndIHist
    {
      && cwndIHist.Length == 3 && maxBytesInFlightHist.Length == 20
      && cwndI >= 1 && cwndIHistIx < 3 && maxBytesInFlightHistIx < 20
      && (cwndIHist[0] == cwndIHist[1] == cwndIHist[2] == 0
          || (cwndIHist[0] >= 1 && cwndIHist[1] >= 1 && cwndIHist[2] >= 1))
      && maxBytesInFlight >= 0 && maxBytesInFlightPrev >= 0
    }

    /** The minimum window holds two packets, and the window is never below the minimum. */
    ghost predicate WindowInRange()
      reads this`mss, this`prevMss, this`cwnd, this`cwndMin, this`windowHeadroom, this`postCongestionScale
    {
      && INIT_MSS <= mss && INIT_MSS <= prevMss
      && 2 * GetMss() <= cwndMin <= cwnd
      && 1.5 <= windowHeadroom <= maxWindowHeadroom
      && 0.0 <= postCongestionScale <= 1.0
    }

    ghost predicate Valid()
      reads this, cwndIHist, maxBytesInFlightHist
    {
      Configured() && MarkingInRange() && HistoryInRange() && WindowInRange()
    }

    /** All of Valid, except that the window may still be below its minimum. */
    ghost predicate Startable()
      reads this, cwndIHist, maxBytesInFlightHist
    {
      && Configured() && MarkingInRange() && HistoryInRange()
      && INIT_MSS <= mss && INIT_MSS <= prevMss
      && 1.5 <= windowHeadroom <= maxWindowHeadroom && 0.0 <= postCongestionScale <= 1.0
    }

    constructor (lossBeta_: real, ecnCeBeta_: real, cwnd_: int, scale: real, inFlightHeadRoom: real, pacingHeadroom: real,
                 headroom: real, l4s: bool, pacing: bool)
      requires scale >= 0.0 && headroom >= 1.5
      ensures Startable() && (Valid() <==> cwnd_ == 0 || cwnd_ >= 2 * INIT_MSS)
      ensures lossBeta == lossBeta_ && ecnCeBeta == ecnCeBeta_ && isL4s == l4s && multiplicativeIncreaseScalefactor == scale
      ensures bytesInFlightHeadRoom == inFlightHeadRoom
      ensures cwnd == (if cwnd_ == 0 then 200 else cwnd_) && cwndMin == 200 && cwndMinLow == 0 && cwndI == 1
      ensures mss == prevMss == INIT_MSS && maxBytesInFlight == bytesNewlyAcked == bytesNewlyAckedCe == 0 && !Congested()
      ensures lastCwndUpdateT == 0 && maxBytesInFlightPrev == 0
      ensures fresh(cwndIHist) && fresh(maxBytesInFlightHist)
      ensures windowHeadroom == maxWindowHeadroom == headroom && packetPacingHeadroom == pacingHeadroom
      ensures isEnablePacketPacing == pacing && virtualL4sAlpha == 0.0 && postCongestionScale == 1.0
      ensures MarksNow() == Marks(0, 0, 0, 1.0, 0.0, 0.1, 0)
      ensures Now() == Before([0, 0, 0], 0, 1, 0, 0, seq(20, _ => 0), 0, 0, 0, 0) && lastLossEventT == initTime == 0
    {
      lossBeta, ecnCeBeta, isL4s, isEnablePacketPacing := lossBeta_, ecnCeBeta_, l4s, pacing;
      multiplicativeIncreaseScalefactor, bytesInFlightHeadRoom := scale, inFlightHeadRoom;
      packetPacingHeadroom, maxWindowHeadroom := pacingHeadroom, headroom;
      cwndIHist := new int[3](_ => 0);
      maxBytesInFlightHist := new int[20](_ => 0);
      mss, prevMss, cwndMin, cwndMinLow, cwndI, cwndIHistIx := INIT_MSS, INIT_MSS, 2 * INIT_MSS, 0, 1, 0;
      cwnd := if cwnd_ == 0 then 2 * INIT_MSS else cwnd_;
      windowHeadroom, postCongestionScale := headroom, 1.0;
      maxBytesInFlight, maxBytesInFlightPrev, maxBytesInFlightHistIx := 0, 0, 0;
      bytesNewlyAcked, bytesNewlyAckedCe := 0, 0;
      bytesDeliveredThisRtt, packetsDeliveredThisRtt, packetsMarkedThisRtt := 0, 0, 0;
      fractionMarked, l4sAlpha, virtualL4sAlpha, ceDensity := 0.0, 0.1, 0.0, 1.0;
      lossEvent, ecnCeEvent, virtualCeEvent := false, false, false;
      lastLossEventT, lastL4sAlphaUpdateT, lastCwndIUpdateT, lastCongestionDetectedT := 0, 0, 0, 0;
      lastSlowUpdateT, lastCwndUpdateT, initTime := 0, 0, 0;
    }

    /** initialize, at the first call. */
    method Initialize(time: uint32)
      requires Startable()
      modifies this`lastLossEventT, this`lastSlowUpdateT, this`lastL4sAlphaUpdateT, this`initTime
      ensures Startable() && (old(Valid()) ==> Valid())
      ensures lastLossEventT == lastSlowUpdateT == lastL4sAlphaUpdateT == initTime == time
    {
      lastLossEventT, lastSlowUpdateT, lastL4sAlphaUpdateT, initTime := time, time, time, time;
    }

    // ---------- The packet size and the minimum window ----------

    method RaiseMinimum(packets: int)
      requires packets >= 2 && INIT_MSS <= mss && INIT_MSS <= prevMss
      modifies this`cwndMin, this`cwnd
      ensures cwndMin == Max(cwndMinLow, packets * GetMss()) && cwnd == Max(old(cwnd), cwndMin)
      ensures 2 * GetMss() <= cwndMin <= cwnd
    {
      cwndMin := Max(cwndMinLow, packets * GetMss());
      cwnd := Max(cwnd, cwndMin);
    }

    /** addTransmitted: a packet of this size was sent. */
    method AddTransmitted(size: int)
      requires Startable()
      modifies this`mss, this`cwndMin, this`cwnd
      ensures Valid() && mss == Max(old(mss), size) && prevMss == old(prevMss)
      ensures GetMss() == Max(old(GetMss()), size)
      ensures cwnd == Max(old(cwnd), cwndMin) && cwndMin == Max(cwndMinLow, 2 * GetMss())
    {
      mss := Max(mss, size);
      RaiseMinimum(2);
    }

    /** newMediaFrame: the next packet in the queue may be larger than any before, -1 when there is none. */
    method NewMediaFrame(sizeOfNextRtp: int)
      requires Startable()
      modifies this`mss, this`cwndMin, this`cwnd
      ensures Valid() && mss == Max(old(mss), sizeOfNextRtp)
      ensures cwnd == Max(old(cwnd), cwndMin) && cwndMin == Max(cwndMinLow, 2 * GetMss())
    {
      mss := Max(mss, sizeOfNextRtp);
      RaiseMinimum(2);
    }

    /** isOkToTransmit, once a second: forget the largest packet size after one more second. */
    method ResetMss()
      requires Startable()
      modifies this`mss, this`prevMss, this`cwndMin, this`cwnd
      ensures Valid() && mss == INIT_MSS && prevMss == old(mss)
      ensures GetMss() == Max(100, old(mss))
      ensures cwnd == Max(old(cwnd), cwndMin) && cwndMin == Max(cwndMinLow, 3 * GetMss())
    {
      prevMss := mss;
      mss := INIT_MSS;
      RaiseMinimum(3);
    }

    // ---------- Marking ----------

    /** markAcked: a packet was newly acknowledged. */
    method CountAcked(size: nat, ceBits: nat) returns (isCe: bool)
      requires Valid()
      modifies this`bytesDeliveredThisRtt, this`packetsDeliveredThisRtt, this`bytesNewlyAckedCe, this`packetsMarkedThisRtt
      ensures Valid() && isCe == (ceBits == 3)
      ensures bytesDeliveredThisRtt == old(bytesDeliveredThisRtt) + size
      ensures bytesNewlyAckedCe == old(bytesNewlyAckedCe) + if isCe then size else 0
      ensures packetsDeliveredThisRtt == old(packetsDeliveredThisRtt) + 1
      ensures packetsMarkedThisRtt == old(packetsMarkedThisRtt) + if isCe then 1 else 0
    {
      bytesDeliveredThisRtt := bytesDeliveredThisRtt + size;
      packetsDeliveredThisRtt := packetsDeliveredThisRtt + 1;
      isCe := false;
      if ceBits == 3 {
        bytesNewlyAckedCe := bytesNewlyAckedCe + size;
        packetsMarkedThisRtt := packetsMarkedThisRtt + 1;
        isCe := true;
      }
    }

    /** detectLoss: a packet passed the received edge, so its bytes count as acknowledged. */
    method CountPassed(size: nat)
      requires Valid()
      modifies this`bytesNewlyAcked
      ensures Valid() && bytesNewlyAcked == old(bytesNewlyAcked) + size
    {
      bytesNewlyAcked := bytesNewlyAcked + size;
    }

    /** detectLoss declared packets lost: an event, if the last one is a round trip ago. */
    method RaiseLoss(time: uint32, net: Net, lost: bool)
      modifies this`lossEvent
      ensures old(Valid()) ==> Valid()
      ensures lossEvent == (old(lossEvent) || (lost && Sub32(time, lastLossEventT) > net.sRttNtp && lossBeta < 1.0))
    {
      if lost && Sub32(time, lastLossEventT) > net.sRttNtp && lossBeta < 1.0 {
        lossEvent := true;
      }
    }

    /** Every report element first records how much is in flight. */
    method NoteInFlight(bytesInFlight: nat)
      requires Valid()
      modifies this`maxBytesInFlight
      ensures Valid() && maxBytesInFlight == Max(old(maxBytesInFlight), bytesInFlight)
    {
      maxBytesInFlight := Max(bytesInFlight, maxBytesInFlight);
    }

    /** What one report element adds to the counters. */
    method CountElement(time: uint32, net: Net, inFlight: nat, acked: bool, size: nat, ceBits: nat, credited: nat, lost: bool)
      returns (isCe: bool)
      requires Valid()
      modifies this`maxBytesInFlight, this`lossEvent, this`bytesDeliveredThisRtt, this`packetsDeliveredThisRtt,
               this`bytesNewlyAcked, this`bytesNewlyAckedCe, this`packetsMarkedThisRtt
      ensures Valid() && isCe == (acked && ceBits == 3)
      ensures maxBytesInFlight == Max(old(maxBytesInFlight), inFlight)
      ensures bytesNewlyAcked == old(bytesNewlyAcked) + credited
      ensures bytesNewlyAckedCe == old(bytesNewlyAckedCe) + if isCe then size else 0
      ensures bytesDeliveredThisRtt == old(bytesDeliveredThisRtt) + if acked then size else 0
      ensures packetsDeliveredThisRtt == old(packetsDeliveredThisRtt) + if acked then 1 else 0
      ensures packetsMarkedThisRtt == old(packetsMarkedThisRtt) + if isCe then 1 else 0
      ensures lossEvent == (old(lossEvent) || (lost && Sub32(time, lastLossEventT) > net.sRttNtp && lossBeta < 1.0))
    {
      hide Valid, Sub32;
      NoteInFlight(inFlight);
      isCe := false;
      if acked {
        isCe := CountAcked(size, ceBits);
      }
      CountPassed(credited);
      RaiseLoss(time, net, lost);
    }

    /** The marking average takes in the fraction of marked packets since the last time. */
    method UpdateAlpha()
      requires MarkingInRange()
      modifies this`ceDensity, this`fractionMarked, this`l4sAlpha, this`bytesDeliveredThisRtt,
               this`packetsDeliveredThisRtt, this`packetsMarkedThisRtt
      ensures MarkingInRange()
      ensures l4sAlpha <= MaxReal(old(l4sAlpha), fractionMarked)
      ensures old(bytesDeliveredThisRtt) > 0 ==>
                && bytesDeliveredThisRtt == packetsDeliveredThisRtt == packetsMarkedThisRtt == 0
                && l4sAlpha == NextAlpha(old(l4sAlpha), fractionMarked)
                && fractionMarked
                   == Times(old(packetsMarkedThisRtt) as real / old(packetsDeliveredThisRtt) as real, ceDensity)
      ensures old(bytesDeliveredThisRtt) == 0 ==> l4sAlpha == old(l4sAlpha) && fractionMarked == 0.0
      ensures old(packetsMarkedThisRtt) == 0 ==> fractionMarked == 0.0 && l4sAlpha <= old(l4sAlpha)
      ensures old(bytesDeliveredThisRtt) > 0 && old(packetsMarkedThisRtt) == old(packetsDeliveredThisRtt) ==>
                fractionMarked == ceDensity == 1.0 && l4sAlpha >= old(l4sAlpha)
      ensures old(bytesDeliveredThisRtt) > 0 ==>
                ceDensity == if old(packetsMarkedThisRtt) == old(packetsDeliveredThisRtt) then 1.0 else old(ceDensity)
      ensures old(bytesDeliveredThisRtt) <= 0 ==> MarksNow() == old(MarksNow()).(fraction := 0.0)
      ensures fractionMarked == 1.0
              <==> old(bytesDeliveredThisRtt) > 0 && old(packetsMarkedThisRtt) == old(packetsDeliveredThisRtt)
    {
      hide NextAlpha;
      fractionMarked := 0.0;
      if bytesDeliveredThisRtt > 0 {
        Fraction(packetsMarkedThisRtt, packetsDeliveredThisRtt);
        fractionMarked := packetsMarkedThisRtt as real / packetsDeliveredThisRtt as real;
        if fractionMarked == 1.0 {
          ceDensity := 1.0;
        }
        PortionIs(fractionMarked, ceDensity);
        fractionMarked := Portion(fractionMarked, ceDensity);
        l4sAlpha := NextAlpha(l4sAlpha, fractionMarked);
        bytesDeliveredThisRtt := 0;
        packetsDeliveredThisRtt := 0;
        packetsMarkedThisRtt := 0;
      }
    }

    ghost function MarksNow(): Marks
      reads this`bytesDeliveredThisRtt, this`packetsDeliveredThisRtt, this`packetsMarkedThisRtt, this`ceDensity,
            this`fractionMarked, this`l4sAlpha, this`lastL4sAlphaUpdateT
    {
      Marks(bytesDeliveredThisRtt, packetsDeliveredThisRtt, packetsMarkedThisRtt, ceDensity, fractionMarked, l4sAlpha,
            lastL4sAlphaUpdateT)
    }

    /** The averages after a block: the density changes only without packet pacing; in L4S mode, once 10 ms or a round trip
        have passed with something delivered, the marked part of the packets, times the density, goes into the average and
        the counters start again. */
    ghost predicate Averaged(time: uint32, net: Net, isCe: bool, m: Marks)
      requires 0.25 <= m.density <= 1.0 && 0.0 <= m.alpha <= 1.0
      requires m.delivered > 0 ==> 0 <= m.marked <= m.packets && m.packets > 0
      reads this`bytesDeliveredThisRtt, this`packetsDeliveredThisRtt, this`packetsMarkedThisRtt, this`ceDensity,
            this`fractionMarked, this`l4sAlpha, this`lastL4sAlphaUpdateT
    {
      var density := if isEnablePacketPacing then m.density else NextDensity(m.density, isCe);
      if !isL4s then MarksNow() == m.(density := density, alpha := 0.0)
      else if Sub32(time, m.since) <= Min(655, net.sRttNtp) then MarksNow() == m.(density := density)
      else if m.delivered <= 0 then MarksNow() == m.(density := density, fraction := 0.0, since := time)
      else
        && 0.0 <= fractionMarked <= 1.0
        && MarksNow() == Marks(0, 0, 0, if m.marked == m.packets then 1.0 else density,
                               Times(m.marked as real / m.packets as real, ceDensity), NextAlpha(m.alpha, fractionMarked), time)
    }

    /** Every packet of the last marking interval was marked, once this block is counted; the interval is 10 ms or one round
        trip, whichever is less. */
    predicate AllMarked(time: uint32, net: Net)
      reads this`lastL4sAlphaUpdateT, this`bytesDeliveredThisRtt, this`packetsMarkedThisRtt, this`packetsDeliveredThisRtt,
            this`fractionMarked
    {
      if isL4s && Sub32(time, lastL4sAlphaUpdateT) > Min(655, net.sRttNtp)
      then bytesDeliveredThisRtt > 0 && packetsMarkedThisRtt == packetsDeliveredThisRtt
      else fractionMarked == 1.0
    }

    lemma MarksInRange()
      requires MarkingInRange()
      ensures 0.25 <= ceDensity <= 1.0 && 0.0 <= l4sAlpha <= 1.0
      ensures bytesDeliveredThisRtt > 0 ==> 0 <= packetsMarkedThisRtt <= packetsDeliveredThisRtt && packetsDeliveredThisRtt > 0
    {
    }

    /** One feedback block: the CE density (only without packet pacing) and the L4S marking average. */
    method UpdateMarking(time: uint32, net: Net, isCe: bool)
      requires MarkingInRange()
      modifies this`ceDensity, this`fractionMarked, this`l4sAlpha, this`lastL4sAlphaUpdateT, this`bytesDeliveredThisRtt,
               this`packetsDeliveredThisRtt, this`packetsMarkedThisRtt
      ensures MarkingInRange()
      ensures Averaged(time, net, isCe, old(MarksNow()))
      ensures old(packetsMarkedThisRtt) == 0 ==> l4sAlpha <= old(l4sAlpha)
      ensures fractionMarked == 1.0 <==> old(AllMarked(time, net))
    {
      hide NextDensity, NextAlpha, Sub32, Times;
      if !isEnablePacketPacing {
        ceDensity := NextDensity(ceDensity, isCe);
      }
      if !isL4s {
        l4sAlpha := 0.0;
        return;
      }
      if Sub32(time, lastL4sAlphaUpdateT) > Min(655, net.sRttNtp) {
        lastL4sAlphaUpdateT := time;
        UpdateAlpha();
      }
    }

    // ---------- The inflexion point ----------

    method FillOnce(cwndI_: int)
      requires cwndIHist.Length == 3
      modifies cwndIHist
      ensures cwndIHist[..] == if old(cwndIHist[0]) == 0 then [cwndI_, cwndI_, cwndI_] else old(cwndIHist[..])
    {
      if cwndIHist[0] == 0 {
        for n := 0 to 3
          invariant forall k :: 0 <= k < n ==> cwndIHist[k] == cwndI_
        {
          cwndIHist[n] := cwndI_;
        }
      }
    }

    method MiddleOfHistory() returns (m: int)
      requires cwndIHist.Length == 3
      ensures m == Median(cwndIHist[0], cwndIHist[1], cwndIHist[2])
    {
      hide Median, Sorted;
      var tmp := new int[3];
      for n := 0 to 3
        invariant forall k :: 0 <= k < n ==> tmp[k] == cwndIHist[k]
      {
        tmp[n] := cwndIHist[n];
      }
      assert tmp[..] == [cwndIHist[0], cwndIHist[1], cwndIHist[2]];
      SortInPlace(tmp);
      MiddleIsMedian(tmp[..], cwndIHist[0], cwndIHist[1], cwndIHist[2]);
      m := tmp[3 / 2];
    }

    /** updateCwndI: the inflexion point is the median of the last three windows at which congestion was met. */
    method UpdateCwndI(cwndI_: int)
      requires HistoryInRange() && cwndI_ >= 1
      modifies this`cwndI, this`cwndIHistIx, cwndIHist
      ensures HistoryInRange()
      ensures cwndIHist[..] == HistoryWith(old(cwndIHist[..]), old(cwndIHistIx), cwndI_)
      ensures cwndI == MedianWith(old(cwndIHist[..]), old(cwndIHistIx), cwndI_)
      ensures cwndIHistIx == (old(cwndIHistIx) + 1) % 3
    {
      FillOnce(cwndI_);
      ghost var before := cwndIHist[..];
      assert cwndIHist[0] == before[0] && cwndIHist[1] == before[1] && cwndIHist[2] == before[2];
      cwndIHist[cwndIHistIx] := cwndI_;
      assert cwndIHist[..] == before[cwndIHistIx := cwndI_];
      cwndIHistIx := (cwndIHistIx + 1) % 3;
      cwndI := MiddleOfHistory();
    }

    // ---------- The window update ----------

    /** What the maximum rate needs for one round trip, with pacing headroom. */
    function RateWindow(net: Net): int
    {
      Truncate(packetPacingHeadroom * net.relFrameSizeHigh * net.maxBitrate / 8.0 * (net.sRtt + 0.001))
    }

    /** That is the bytes of one round trip and one millisecond at the maximum rate, rounded down. */
    lemma RateWindowIs(net: Net)
      requires packetPacingHeadroom >= 0.0 && net.relFrameSizeHigh >= 0.0 && net.maxBitrate >= 0.0 && net.sRtt >= 0.0
      ensures var bits := packetPacingHeadroom * net.relFrameSizeHigh * net.maxBitrate * (net.sRtt + 0.001);
              8.0 * RateWindow(net) as real <= bits < 8.0 * (RateWindow(net) + 1) as real
    {
      var a := packetPacingHeadroom * net.relFrameSizeHigh * net.maxBitrate;
      var d := net.sRtt + 0.001;
      assert packetPacingHeadroom * net.relFrameSizeHigh >= 0.0;
      assert a >= 0.0;
      assert a / 8.0 * d * 8.0 == a * d;
      assert a / 8.0 * d >= 0.0;
    }

    ghost function Now(): Before
      reads this`cwndI, this`cwndIHistIx, this`lastCwndIUpdateT, this`lastCongestionDetectedT, this`maxBytesInFlight,
            this`maxBytesInFlightPrev, this`maxBytesInFlightHistIx, this`lastSlowUpdateT, cwndIHist, maxBytesInFlightHist
    {
      Before(cwndIHist[..], cwndIHistIx, cwndI, lastCwndIUpdateT, lastCongestionDetectedT,
             maxBytesInFlightHist[..], maxBytesInFlightHistIx, maxBytesInFlight, maxBytesInFlightPrev, lastSlowUpdateT)
    }

    /** Every 50 ms the most that was in flight enters a ring of 20, and after the first two seconds starts again. */
    ghost predicate SlowStep(time: uint32, b: Before)
      requires b.flightIx < |b.flights|
      reads this`maxBytesInFlight, this`maxBytesInFlightPrev, this`maxBytesInFlightHistIx, this`lastSlowUpdateT,
            this`initTime, maxBytesInFlightHist
    {
      if Sub32(time, b.slowT) <= 3277 then
        && maxBytesInFlightHist[..] == b.flights && maxBytesInFlightHistIx == b.flightIx
        && maxBytesInFlight == b.most && maxBytesInFlightPrev == b.mostPrev && lastSlowUpdateT == b.slowT
      else
        && maxBytesInFlightHist[..] == b.flights[b.flightIx := b.most] && maxBytesInFlightHistIx == (b.flightIx + 1) % 20
        && lastSlowUpdateT == time
        && if Sub32(time, initTime) > 131072 then maxBytesInFlightPrev == b.most && maxBytesInFlight == 0
           else maxBytesInFlight == b.most && maxBytesInFlightPrev == b.mostPrev
    }

    /** The window near the maximum rate: what was in flight in the last 20 intervals, or what that rate needs. */
    ghost function LimitedWindow(time: uint32, net: Net, before: int, b: Before): int
      requires b.flightIx < |b.flights|
    {
      if Sub32(time, b.slowT) > 3277 && net.targetBitrate > net.maxBitrate * 0.95
      then Min(before, Max(MostOf(b.flights[b.flightIx := b.most], b.most), RateWindow(net))) else before
    }

    /** A window enters the history of inflexion points, alone or beside the others, if the last entry is older than pause. */
    ghost predicate PointsMoved(time: uint32, pause: int, alone: bool, window: int, b: Before)
      requires |b.points| == 3 && b.pointIx < 3
      reads this`cwndI, this`cwndIHistIx, this`lastCwndIUpdateT, cwndIHist
    {
      if Sub32(time, b.noted) <= pause then
        cwndIHist[..] == b.points && cwndIHistIx == b.pointIx && cwndI == b.cwndI && lastCwndIUpdateT == b.noted
      else
        && cwndI == MedianWith(b.points, b.pointIx, window) && cwndIHistIx == (b.pointIx + 1) % 3
        && lastCwndIUpdateT == time
        && cwndIHist[..] == if alone then [window, window, window] else HistoryWith(b.points, b.pointIx, window)
    }

    /** Where congestion was met: after a loss the window before it is noted every half second; after marks every round trip,
        and alone if the last congestion is more than five round trips ago. */
    ghost predicate PointNoted(time: uint32, net: Net, window: int, reaction: Reaction, b: Before)
      requires |b.points| == 3 && b.pointIx < 3
      reads this`cwndI, this`cwndIHistIx, this`lastCwndIUpdateT, this`lastCongestionDetectedT, cwndIHist
    {
      match reaction
      case Calm =>
        && cwndIHist[..] == b.points && cwndIHistIx == b.pointIx && cwndI == b.cwndI && lastCwndIUpdateT == b.noted
        && lastCongestionDetectedT == b.met
      case OnLoss => PointsMoved(time, 32768, false, window, b) && lastCongestionDetectedT == time
      case _ =>
        PointsMoved(time, net.sRttNtp, Sub32(time, b.met) > 5 * net.sRttNtp, window, b) && lastCongestionDetectedT == time
    }

    /** How much of the headroom and of the multiplicative growth the window has. */
    ghost predicate Loosened(time: uint32, net: Net, window: int, reaction: Reaction, b: Before)
      requires Sane(net) && window >= 1 && maxWindowHeadroom >= 1.5
      reads this`windowHeadroom, this`postCongestionScale, this`mss, this`prevMss
    {
      && windowHeadroom == Headroom(maxWindowHeadroom, DelayTolerance(Ratio(GetMss(), window)), net.queueDelayDev)
      && postCongestionScale == if reaction == Calm then PostCongestion(Sub32(time, b.met), net.sRttNtp) else 0.0
    }

    /** The rest of the window's state after an update. */
    ghost predicate Aftermath(time: uint32, net: Net, window: int, reaction: Reaction, b: Before)
      requires Sane(net) && window >= 1 && maxWindowHeadroom >= 1.5
      requires |b.points| == 3 && b.pointIx < 3 && b.flightIx < |b.flights|
      reads this`cwndI, this`cwndIHistIx, this`lastCwndIUpdateT, this`lastCongestionDetectedT, this`maxBytesInFlight,
            this`maxBytesInFlightPrev, this`maxBytesInFlightHistIx, this`lastSlowUpdateT, this`initTime,
            this`windowHeadroom, this`postCongestionScale, this`mss, this`prevMss, cwndIHist, maxBytesInFlightHist
    {
      SlowStep(time, b) && PointNoted(time, net, window, reaction, b) && Loosened(time, net, window, reaction, b)
    }

    method MostInFlight() returns (m: int)
      requires maxBytesInFlightHist.Length == 20
      ensures m == MostOf(maxBytesInFlightHist[..], maxBytesInFlight)
    {
      m := maxBytesInFlight;
      for n := 0 to 20
        invariant m == MostOf(maxBytesInFlightHist[..n], maxBytesInFlight)
      {
        assert maxBytesInFlightHist[..n + 1][..n] == maxBytesInFlightHist[..n];
        m := Max(m, maxBytesInFlightHist[n]);
      }
      assert maxBytesInFlightHist[..20] == maxBytesInFlightHist[..];
    }

    /** The window limited to what was in flight lately and what the maximum rate needs. */
    method LimitedTo(net: Net) returns (w: int)
      requires maxBytesInFlightHist.Length == 20 && maxBytesInFlight >= 0 && cwnd >= 1
      ensures 0 <= w <= cwnd && w >= Min(cwnd, RateWindow(net)) && w >= Min(cwnd, maxBytesInFlight)
      ensures w >= 1 <==> SomethingInFlight(net)
      ensures w == Min(cwnd, Max(MostOf(maxBytesInFlightHist[..], maxBytesInFlight), RateWindow(net)))
    {
      hide RateWindow;
      MostIsPositive(maxBytesInFlightHist[..], maxBytesInFlight);
      var tmp := MostInFlight();
      tmp := Max(tmp, RateWindow(net));
      w := Min(cwnd, tmp);
    }

    /** The limit near the maximum rate, if it applies, leaves a window of at least one byte; otherwise the code goes on to
        divide by a window of zero. */
    predicate RoomAtLimit(time: uint32, net: Net)
      requires maxBytesInFlightHist.Length == 20
      reads this`lastSlowUpdateT, this`maxBytesInFlight, this`maxBytesInFlightHistIx, maxBytesInFlightHist
    {
      || Sub32(time, lastSlowUpdateT) <= 3277
      || net.targetBitrate <= net.maxBitrate * 0.95
      || RateWindow(net) >= 1 || maxBytesInFlight >= 1
      || exists k :: 0 <= k < 20 && k != maxBytesInFlightHistIx && maxBytesInFlightHist[k] >= 1
    }

    /** Some window of the last second had bytes in flight, or the maximum rate needs some. */
    predicate SomethingInFlight(net: Net)
      requires maxBytesInFlightHist.Length == 20
      reads this`maxBytesInFlight, maxBytesInFlightHist
    {
      RateWindow(net) >= 1 || maxBytesInFlight >= 1 || exists k :: 0 <= k < 20 && maxBytesInFlightHist[k] >= 1
    }

    /** What was in flight since the last slow update enters the ring. */
    method PushInFlight(ghost time: uint32, ghost net: Net)
      requires maxBytesInFlightHist.Length == 20 && maxBytesInFlightHistIx < 20
      modifies this`maxBytesInFlightHistIx, maxBytesInFlightHist
      ensures maxBytesInFlightHistIx == (old(maxBytesInFlightHistIx) + 1) % 20
      ensures maxBytesInFlightHist[..] == old(maxBytesInFlightHist[..])[old(maxBytesInFlightHistIx) := maxBytesInFlight]
      ensures old(SlowDue(time)) && net.targetBitrate > net.maxBitrate * 0.95 ==>
                (SomethingInFlight(net) <==> old(RoomAtLimit(time, net)))
    {
      hide RateWindow, Sub32;
      ghost var ix, before := maxBytesInFlightHistIx, maxBytesInFlightHist[..];
      maxBytesInFlightHist[maxBytesInFlightHistIx] := maxBytesInFlight;
      assert forall k :: 0 <= k < 20 ==> maxBytesInFlightHist[k] == if k == ix then maxBytesInFlight else before[k];
      maxBytesInFlightHistIx := maxBytesInFlightHistIx + 1;
      if maxBytesInFlightHistIx == 20 {
        maxBytesInFlightHistIx := 0;
      }
    }

    /** 50 ms since the last slow update. */
    predicate SlowDue(time: uint32)
      reads this`lastSlowUpdateT
    {
      Sub32(time, lastSlowUpdateT) > 3277
    }

    /** Every 50 ms: close to the maximum rate, limit the window to what was in flight lately and what that rate needs. */
    method SlowUpdate(time: uint32, net: Net)
      requires HistoryInRange() && cwnd >= 1
      modifies this`cwnd, this`maxBytesInFlight, this`maxBytesInFlightPrev, this`maxBytesInFlightHistIx,
               this`lastSlowUpdateT, maxBytesInFlightHist
      ensures HistoryInRange() && 0 <= cwnd <= old(cwnd)
      ensures cwnd >= 1 <==> old(RoomAtLimit(time, net))
      ensures cwnd >= Min(old(cwnd), RateWindow(net)) && cwnd >= Min(old(cwnd), old(maxBytesInFlight))
      ensures cwnd < old(cwnd) ==>
                Sub32(time, old(lastSlowUpdateT)) > 3277 && net.targetBitrate > net.maxBitrate * 0.95
      ensures old(maxBytesInFlight) <= Max(maxBytesInFlight, maxBytesInFlightPrev)
              <= old(Max(maxBytesInFlight, maxBytesInFlightPrev))
      ensures !old(SlowDue(time)) ==>
                maxBytesInFlight == old(maxBytesInFlight) && maxBytesInFlightPrev == old(maxBytesInFlightPrev)
                && lastSlowUpdateT == old(lastSlowUpdateT)
      ensures SlowStep(time, old(Now())) && cwnd == LimitedWindow(time, net, old(cwnd), old(Now()))
    {
      hide Sub32, RateWindow, SomethingInFlight, MostOf;
      if Sub32(time, lastSlowUpdateT) <= 3277 {
        return;
      }
      PushInFlight(time, net);
      if net.targetBitrate > net.maxBitrate * 0.95 {
        cwnd := LimitedTo(net);
      }
      if Sub32(time, initTime) > 131072 {
        maxBytesInFlightPrev := maxBytesInFlight;
        maxBytesInFlight := 0;
      }
      lastSlowUpdateT := time;
    }

    /** Both configured factors are at least one half. */
    ghost predicate Gentle() { 0.5 <= lossBeta <= 1.0 && 0.5 <= ecnCeBeta <= 1.0 }

    /** Scale the window by a factor, not below the minimum. */
    method ScaleWindow(factor: real)
      requires cwnd >= 0
      modifies this`cwnd
      ensures cwnd == Scaled(old(cwnd), factor, cwndMin) && cwnd >= cwndMin
      ensures 0.5 <= factor <= 1.0 ==> HalvedAtMost(old(cwnd), cwnd, cwndMin)
    {
      hide Scaled;
      if 0.5 <= factor <= 1.0 {
        ScaledBounds(cwnd, factor, cwndMin);
      }
      ScaledFloor(cwnd, factor, cwndMin);
      cwnd := Scaled(cwnd, factor, cwndMin);
    }

    /** The reaction to a loss. */
    method ReactToLoss(time: uint32, ghost net: Net)
      requires HistoryInRange() && cwnd >= 1
      modifies this`cwnd, this`lossEvent, this`postCongestionScale, this`lastCwndIUpdateT, this`lastCongestionDetectedT,
               this`cwndI, this`cwndIHistIx, cwndIHist
      ensures HistoryInRange() && cwnd >= cwndMin && !lossEvent && postCongestionScale == 0.0
      ensures cwnd == Scaled(old(cwnd), lossBeta, cwndMin)
      ensures Gentle() ==> HalvedAtMost(old(cwnd), cwnd, cwndMin)
      ensures PointNoted(time, net, old(cwnd), OnLoss, old(Now()))
    {
      hide Scaled, Sub32, Median, HalvedAtMost, HistoryWith, MedianWith;
      if Sub32(time, lastCwndIUpdateT) > 32768 {
        lastCwndIUpdateT := time;
        UpdateCwndI(cwnd);
      }
      ScaleWindow(lossBeta);
      lossEvent := false;
      lastCongestionDetectedT := time;
      postCongestionScale := 0.0;
    }

    method FillHistory()
      requires HistoryInRange() && cwnd >= 1 && cwndIHist[0] >= 1
      modifies cwndIHist
      ensures HistoryInRange() && cwndIHist[..] == [cwnd, cwnd, cwnd]
    {
      for n := 0 to 3
        invariant HistoryInRange() && cwndIHist[0] >= 1 && forall k :: 0 <= k < n ==> cwndIHist[k] == cwnd
      {
        cwndIHist[n] := cwnd;
      }
    }

    /** Congestion is met at this window: it enters the history, alone if the last congestion was long ago. */
    method NoteInflexion(time: uint32, net: Net)
      requires HistoryInRange() && cwnd >= 1
      modifies this`lastCwndIUpdateT, this`cwndI, this`cwndIHistIx, cwndIHist
      ensures HistoryInRange()
      ensures PointsMoved(time, net.sRttNtp, Sub32(time, lastCongestionDetectedT) > 5 * net.sRttNtp, cwnd, old(Now()))
    {
      hide Median, Sub32;
      if Sub32(time, lastCwndIUpdateT) > net.sRttNtp {
        lastCwndIUpdateT := time;
        UpdateCwndI(cwnd);
        if Sub32(time, lastCongestionDetectedT) > 5 * net.sRttNtp {
          FillHistory();
        }
      }
    }

    /** No congestion for 100 round trips: the window may have grown far beyond what is in flight. */
    predicate LongCalm(time: uint32, net: Net)
      reads this`lastCongestionDetectedT
    {
      Sub32(time, lastCongestionDetectedT) as real > 100.0 * MaxReal(net.sRtt, 0.025) * 65536.0
    }

    /** In seconds: more than 100 round trips, and more than two and a half seconds. */
    lemma LongCalmIs(time: uint32, net: Net)
      ensures LongCalm(time, net)
              <==> var seconds := Sub32(time, lastCongestionDetectedT) as real / 65536.0;
                   seconds > 100.0 * net.sRtt && seconds > 2.5
    {
      hide Sub32;
    }

    /** The window a reaction to marks starts from. */
    function ReactionBase(time: uint32, net: Net): (r: int)
      reads this`ecnCeEvent, this`cwnd, this`maxBytesInFlightPrev, this`lastCongestionDetectedT
      ensures r == cwnd || (r == Min(cwnd, maxBytesInFlightPrev) && ecnCeEvent && isL4s && LongCalm(time, net))
    {
      var least := Min(cwnd, maxBytesInFlightPrev);
      if ecnCeEvent && isL4s && LongCalm(time, net) then least else cwnd
    }

    /** How far the window is scaled down for CE marks, real or virtual. */
    function MarkFactor(net: Net, sclI: real, tolerance: real): (factor: real)
      requires MarkingInRange() && Sane(net) && sclI <= 1.0 && tolerance > 0.0
      reads this`packetsMarkedThisRtt, this`packetsDeliveredThisRtt, this`bytesDeliveredThisRtt, this`ceDensity,
            this`fractionMarked, this`l4sAlpha, this`virtualL4sAlpha, this`ecnCeEvent
      ensures ecnCeEvent && !isL4s ==> factor == ecnCeBeta
      ensures ecnCeEvent && isL4s ==> 1.0 - l4sAlpha / 2.0 <= factor <= 1.0
      ensures !ecnCeEvent ==> 1.0 - virtualL4sAlpha / 2.0 <= factor <= 1.0
    {
      if ecnCeEvent then
        if isL4s then 1.0 - L4sBackOff(l4sAlpha, net, sclI, tolerance) else ecnCeBeta
      else
        1.0 - VirtualBackOff(virtualL4sAlpha, net)
    }

    /** After a long calm a CE event in L4S mode starts from what was in flight. */
    method LimitToFlight(time: uint32, net: Net)
      requires cwnd >= 1 && maxBytesInFlightPrev >= 0
      modifies this`cwnd
      ensures cwnd == old(ReactionBase(time, net)) && cwnd >= 0
    {
      hide LongCalm;
      if ecnCeEvent && isL4s && LongCalm(time, net) {
        cwnd := Min(cwnd, maxBytesInFlightPrev);
      }
    }

    /** The reaction to CE marks, or to a queue delay that stands for them. */
    method ReactToMarks(time: uint32, net: Net, sclI: real, tolerance: real)
      requires MarkingInRange() && HistoryInRange() && cwnd >= 1 && Sane(net) && sclI <= 1.0 && tolerance > 0.0
      modifies this`cwnd, this`ecnCeEvent, this`virtualCeEvent, this`postCongestionScale, this`lastCwndIUpdateT,
               this`lastCongestionDetectedT, this`cwndI, this`cwndIHistIx, cwndIHist
      ensures HistoryInRange() && cwnd >= cwndMin && !ecnCeEvent && !virtualCeEvent && postCongestionScale == 0.0
      ensures var base := old(ReactionBase(time, net));
              && cwnd == Scaled(base, old(MarkFactor(net, sclI, tolerance)), cwndMin)
              && (Gentle() ==> HalvedAtMost(base, cwnd, cwndMin))
      ensures PointNoted(time, net, old(cwnd), OnMarks, old(Now())) && PointNoted(time, net, old(cwnd), OnQueue, old(Now()))
    {
      hide Scaled, Sub32, MaxReal, L4sBackOff, VirtualBackOff, HistoryWith, MedianWith, HalvedAtMost, PointsMoved, MarkFactor,
           ReactionBase;
      var factor := MarkFactor(net, sclI, tolerance);
      NoteInflexion(time, net);
      LimitToFlight(time, net);
      ScaleWindow(factor);
      ecnCeEvent := false;
      virtualCeEvent := false;
      lastCongestionDetectedT := time;
      postCongestionScale := 0.0;
    }

    function MaxAllowed(): real
      reads this`mss, this`prevMss, this`maxBytesInFlight, this`maxBytesInFlightPrev
    {
      GetMss() as real + Max(maxBytesInFlight, maxBytesInFlightPrev) as real * bytesInFlightHeadRoom
    }

    /** The increment takes the given window down: it is negative beyond rounding, and it applies. */
    predicate Falls(window: int, increment: real, net: Net)
      reads this`cwndMin, this`mss, this`prevMss, this`maxBytesInFlight, this`maxBytesInFlightPrev
    {
      && window > cwndMin && increment <= -1.5
      && Grown(window, increment) as real <= MaxAllowed() && net.targetBitrate < net.maxBitrate
    }

    /** The window after an increment, if it applies. */
    function GrownTo(window: int, increment: real, net: Net): int
      reads this`cwndMin, this`mss, this`prevMss, this`maxBytesInFlight, this`maxBytesInFlightPrev
    {
      if Grown(window, increment) as real <= MaxAllowed() && net.targetBitrate < net.maxBitrate
      then Max(cwndMin, Grown(window, increment))
      else Max(cwndMin, window)
    }

    /** The increment applies below the maximum rate, up to one packet and a multiple of what was in flight. */
    lemma GrownToIs(window: int, increment: real, net: Net)
      ensures net.targetBitrate < net.maxBitrate
              && Grown(window, increment) as real
                 <= GetMss() as real + Max(maxBytesInFlight, maxBytesInFlightPrev) as real * bytesInFlightHeadRoom ==>
                GrownTo(window, increment, net) == Max(cwndMin, Grown(window, increment))
    {
      hide Grown;
    }

    /** The increment of one update: from the window base, in a window that the reaction left, close to an inflexion point. */
    function IncrementFrom(base: int, window: int, inflexion: int, surplus: int, net: Net): real
      requires Sane(net) && base >= 1 && window >= 0 && inflexion >= 1 && GetMss() >= 1
      requires multiplicativeIncreaseScalefactor >= 0.0 && 0.0 <= postCongestionScale <= 1.0
      reads this`mss, this`prevMss, this`postCongestionScale
    {
      var ratio := Ratio(GetMss(), base);
      Increment(surplus, ratio, window, GetMss(), multiplicativeIncreaseScalefactor, postCongestionScale,
                Closeness(base, inflexion), net, DelayTolerance(ratio))
    }

    /** The increment. base is the window that the ratio, the packet size to the window, was computed from. */
    method Grow(net: Net, ratio: real, sclI: real, tolerance: real, ghost base: int)
      requires Configured() && Sane(net) && 0.0 <= sclI <= 1.0 && tolerance > 0.0
      requires GetMss() >= 1 && cwnd >= 0 && cwndMin >= 0 && 0.0 <= postCongestionScale <= 1.0
      requires base >= 1 && ratio == Ratio(GetMss(), base) && (cwnd == base || postCongestionScale == 0.0)
      modifies this`cwnd
      ensures GrewWithin(old(cwnd), cwnd, cwndMin, bytesNewlyAcked, bytesNewlyAckedCe,
                         Steepest(GetMss(), base, multiplicativeIncreaseScalefactor), MaxAllowed())
      ensures cwnd >= cwndMin
      ensures cwnd == GrownTo(old(cwnd), Increment(bytesNewlyAcked - bytesNewlyAckedCe, ratio, old(cwnd), GetMss(),
                                                   multiplicativeIncreaseScalefactor, postCongestionScale, sclI, net,
                                                   tolerance), net)
      ensures cwnd < old(cwnd)
              <==> Falls(old(cwnd), Increment(bytesNewlyAcked - bytesNewlyAckedCe, ratio, old(cwnd), GetMss(),
                                              multiplicativeIncreaseScalefactor, postCongestionScale, sclI, net, tolerance), net)
    {
      hide Increment, Steepest, Times, Grown, Ratio, MaxAllowed;
      var increment := Increment(bytesNewlyAcked - bytesNewlyAckedCe, ratio, cwnd, GetMss(),
                                 multiplicativeIncreaseScalefactor, postCongestionScale, sclI, net, tolerance);
      IncrementBounds(bytesNewlyAcked - bytesNewlyAckedCe, base, cwnd, GetMss(), multiplicativeIncreaseScalefactor,
                      postCongestionScale, sclI, net, tolerance);
      GrownBounds(cwnd, increment);
      GrownFalls(cwnd, increment);
      TimesZero(Steepest(GetMss(), base, multiplicativeIncreaseScalefactor));
      var cwndTmp := Grown(cwnd, increment);
      if cwndTmp as real <= MaxAllowed() && net.targetBitrate < net.maxBitrate {
        cwnd := cwndTmp;
      }
      cwnd := Max(cwndMin, cwnd);
    }

    predicate Congested()
      reads this`lossEvent, this`ecnCeEvent, this`virtualCeEvent
    {
      lossEvent || ecnCeEvent || virtualCeEvent
    }

    /** What the next update reacts to: a loss comes first, then CE marks. */
    function Pending(): (r: Reaction)
      reads this`lossEvent, this`ecnCeEvent, this`virtualCeEvent
      ensures r != Calm <==> Congested()
    {
      if lossEvent then OnLoss else if ecnCeEvent then OnMarks else if virtualCeEvent then OnQueue else Calm
    }

    /** The window after a reaction that starts from the window start. The averages are those that the reaction used. */
    ghost predicate Reduced(net: Net, start: int, reacted: int, reaction: Reaction)
      reads this`cwndMin, this`l4sAlpha, this`virtualL4sAlpha
    {
      match reaction
      case Calm => reacted == start
      case OnLoss => reacted == Scaled(start, lossBeta, cwndMin)
      case OnQueue =>
        net.targetBitrate >= 0.0 ==> reacted == Scaled(start, 1.0 - PlainBackOff(virtualL4sAlpha, net), cwndMin)
      case OnMarks =>
        if !isL4s then reacted == Scaled(start, ecnCeBeta, cwndMin)
        else net.targetBitrate >= 0.0 ==>
               && (net.queueDelay >= net.queueDelayTarget * 0.25 ==>
                     reacted == Scaled(start, 1.0 - PlainBackOff(l4sAlpha, net), cwndMin))
               && reacted as real
                  <= MaxReal(cwndMin as real, Times(1.0 - PlainBackOff(l4sAlpha, net) / 16.0, start as real))
    }

    /** The reaction is that. */
    lemma ReactedIsReduced(start: int, net: Net, sclI: real, tolerance: real)
      requires MarkingInRange() && Sane(net) && 0.0 <= sclI <= 1.0 && tolerance > 0.0 && start >= 0
      ensures Reduced(net, start, ReactedFrom(start, net, sclI, tolerance), Pending())
    {
      hide Scaled, PlainBackOff, L4sBackOff, VirtualBackOff, Times;
      if net.targetBitrate >= 0.0 {
        VirtualBackOffIs(virtualL4sAlpha, net);
        L4sBackOffIs(l4sAlpha, net, sclI, tolerance);
        ScaledLowers(start, L4sBackOff(l4sAlpha, net, sclI, tolerance), PlainBackOff(l4sAlpha, net) / 16.0, cwndMin);
      }
    }

    /** The window after the reaction to a loss, to CE marks or to neither, from the window start. */
    function ReactedFrom(start: int, net: Net, sclI: real, tolerance: real): int
      requires MarkingInRange() && Sane(net) && sclI <= 1.0 && tolerance > 0.0
      reads this`packetsMarkedThisRtt, this`packetsDeliveredThisRtt, this`bytesDeliveredThisRtt, this`ceDensity,
            this`fractionMarked, this`l4sAlpha, this`virtualL4sAlpha, this`lossEvent, this`ecnCeEvent, this`virtualCeEvent,
            this`cwndMin
    {
      if lossEvent then Scaled(start, lossBeta, cwndMin)
      else if ecnCeEvent || virtualCeEvent then Scaled(start, MarkFactor(net, sclI, tolerance), cwndMin)
      else start
    }

    /** A CE event in L4S mode after 100 round trips without congestion; then the reaction starts from what was in flight. */
    predicate ClampDue(time: uint32, net: Net)
      reads this`lossEvent, this`ecnCeEvent, this`lastCongestionDetectedT
    {
      !lossEvent && ecnCeEvent && isL4s && LongCalm(time, net)
    }

    /** The window the reaction starts from. */
    function StartOf(time: uint32, net: Net): (r: int)
      reads this`lossEvent, this`ecnCeEvent, this`virtualCeEvent, this`cwnd, this`maxBytesInFlightPrev,
            this`lastCongestionDetectedT
      ensures r == if ClampDue(time, net) then Min(cwnd, maxBytesInFlightPrev) else cwnd
    {
      if Congested() && !lossEvent then ReactionBase(time, net) else cwnd
    }

    /** The reaction part of updateCwnd: a loss comes first, then CE marks. */
    method React(time: uint32, net: Net, sclI: real, tolerance: real)
      requires MarkingInRange() && HistoryInRange() && cwnd >= 1 && Sane(net) && sclI <= 1.0 && tolerance > 0.0
      modifies this`cwnd, this`lossEvent, this`ecnCeEvent, this`virtualCeEvent, this`postCongestionScale,
               this`lastCwndIUpdateT, this`lastCongestionDetectedT, this`cwndI, this`cwndIHistIx, cwndIHist
      ensures HistoryInRange() && !lossEvent
      ensures cwnd == old(ReactedFrom(StartOf(time, net), net, sclI, tolerance))
      ensures !old(Congested()) ==> cwnd == old(cwnd) && postCongestionScale == old(postCongestionScale)
      ensures old(Congested()) ==> cwnd >= cwndMin && postCongestionScale == 0.0
      ensures old(Congested()) && Gentle() ==> HalvedAtMost(old(StartOf(time, net)), cwnd, cwndMin)
      ensures PointNoted(time, net, old(cwnd), old(Pending()), old(Now()))
    {
      hide MedianWith, HistoryWith, Sub32, LongCalm, MarkingInRange, HistoryInRange, Gentle, HalvedAtMost, MarkFactor, Scaled,
           ReactionBase;
      if lossEvent {
        ReactToLoss(time, net);
      } else if ecnCeEvent || virtualCeEvent {
        ReactToMarks(time, net, sclI, tolerance);
      }
    }

    /** updateCwnd. base is the window after the limit near the maximum rate, reacted the window after the reaction. */
    method UpdateCwnd(time: uint32, net: Net) returns (ghost base: int, ghost start: int, ghost reacted: int)
      requires Valid() && Sane(net) && RoomAtLimit(time, net)
      modifies this`cwnd, this`lossEvent, this`ecnCeEvent, this`virtualCeEvent, this`postCongestionScale, this`windowHeadroom,
               this`lastCwndIUpdateT, this`lastCongestionDetectedT, this`lastSlowUpdateT, this`cwndI, this`cwndIHistIx,
               this`maxBytesInFlight, this`maxBytesInFlightPrev, this`maxBytesInFlightHistIx,
               this`bytesNewlyAcked, this`bytesNewlyAckedCe, cwndIHist, maxBytesInFlightHist
      ensures Valid() && bytesNewlyAcked == bytesNewlyAckedCe == 0 && !lossEvent
      ensures Max(maxBytesInFlight, maxBytesInFlightPrev) >= old(maxBytesInFlight)
      // The limit applies only close to the maximum rate, and never below what that rate needs.
      ensures Min(old(cwnd), RateWindow(net)) <= base <= old(cwnd) && base >= 1
      ensures net.targetBitrate <= net.maxBitrate * 0.95 ==> base == old(cwnd)
      // Reaction and growth.
      ensures ReactedWithin(net, base, start, reacted, old(Pending()), old(ClampDue(time, net)), old(cwndI),
                            old(bytesNewlyAcked), old(bytesNewlyAckedCe))
      ensures reacted == old(ReactedFrom(start, net, Closeness(base, cwndI), DelayTolerance(Ratio(GetMss(), base))))
      ensures base == LimitedWindow(time, net, old(cwnd), old(Now()))
      ensures Aftermath(time, net, base, old(Pending()), old(Now()))
      ensures !old(SlowDue(time)) ==>
                maxBytesInFlight == old(maxBytesInFlight) && maxBytesInFlightPrev == old(maxBytesInFlightPrev)
                && lastSlowUpdateT == old(lastSlowUpdateT)
    {
      hide SlowDue, Sub32, Sane, RateWindow, LongCalm, MarkingInRange, HistoryInRange, GetMss, Congested, WindowInRange, Ratio,
           ReactedFrom, Closeness, DelayTolerance, RoomAtLimit, ReactedWithin, ClampDue, Pending, Aftermath, LimitedWindow;
      WindowShape();
      base, start, reacted := UpdateParts(time, net);
      bytesNewlyAcked := 0;
      bytesNewlyAckedCe := 0;
      WindowKept();
    }

    lemma SamePoints(time: uint32, net: Net, window: int, reaction: Reaction, b: Before, c: Before)
      requires |b.points| == 3 && b.pointIx < 3
      requires b.points == c.points && b.pointIx == c.pointIx && b.cwndI == c.cwndI && b.noted == c.noted && b.met == c.met
      requires PointNoted(time, net, window, reaction, c)
      ensures PointNoted(time, net, window, reaction, b)
    {
    }

    /** The parts of updateCwnd, before the counters start again. */
    method UpdateParts(time: uint32, net: Net) returns (ghost base: int, ghost start: int, ghost reacted: int)
      requires Configured() && MarkingInRange() && HistoryInRange() && WindowInRange() && Sane(net) && RoomAtLimit(time, net)
      requires GetMss() >= 1 && cwndMin >= 1
      modifies this`cwnd, this`lossEvent, this`ecnCeEvent, this`virtualCeEvent, this`postCongestionScale, this`windowHeadroom,
               this`lastCwndIUpdateT, this`lastCongestionDetectedT, this`lastSlowUpdateT, this`cwndI, this`cwndIHistIx,
               this`maxBytesInFlight, this`maxBytesInFlightPrev, this`maxBytesInFlightHistIx, cwndIHist, maxBytesInFlightHist
      ensures HistoryInRange() && cwnd >= cwndMin && !lossEvent
      ensures 1.5 <= windowHeadroom <= maxWindowHeadroom && 0.0 <= postCongestionScale <= 1.0
      ensures Max(maxBytesInFlight, maxBytesInFlightPrev) >= old(maxBytesInFlight)
      ensures Min(old(cwnd), RateWindow(net)) <= base <= old(cwnd) && base >= 1
      ensures net.targetBitrate <= net.maxBitrate * 0.95 ==> base == old(cwnd)
      ensures old(cwndI) >= 1 && ReactedWithin(net, base, start, reacted, old(Pending()), old(ClampDue(time, net)), old(cwndI),
                                               bytesNewlyAcked, bytesNewlyAckedCe)
      ensures reacted == old(ReactedFrom(start, net, Closeness(base, cwndI), DelayTolerance(Ratio(GetMss(), base))))
      ensures base == LimitedWindow(time, net, old(cwnd), old(Now()))
      ensures Aftermath(time, net, base, old(Pending()), old(Now()))
      ensures !old(SlowDue(time)) ==>
                maxBytesInFlight == old(maxBytesInFlight) && maxBytesInFlightPrev == old(maxBytesInFlightPrev)
                && lastSlowUpdateT == old(lastSlowUpdateT)
    {
      hide SlowDue, Sub32, Sane, RateWindow, LongCalm, MarkingInRange, HistoryInRange, GetMss, Congested, WindowInRange,
           Ratio, ReactedFrom, Closeness, DelayTolerance, StartOf, RoomAtLimit, ReactedWithin, ClampDue, SlowStep, PointNoted,
           LimitedWindow, Headroom, PostCongestion, Pending;
      HistoryShape();
      ghost var before := Now();
      var ratio, tolerance, sclI := Prepare(time, net);
      base := cwnd;
      ghost var prepared := Now();
      start, reacted := ReactAndGrow(time, net, ratio, sclI, tolerance);
      SamePoints(time, net, base, old(Pending()), before, prepared);
    }

    /** One reaction and growth from the window base: on congestion reduced from start, which is base or after a long calm
        what was in flight, to reacted; and grown from there, or taken down by a surplus of CE marked bytes. */
    ghost predicate ReactedWithin(net: Net, base: int, start: int, reacted: int, reaction: Reaction, clamped: bool,
                                  inflexion: int, acked: int, marked: int)
      requires Sane(net) && base >= 1 && inflexion >= 1 && GetMss() >= 1
      requires multiplicativeIncreaseScalefactor >= 0.0 && 0.0 <= postCongestionScale <= 1.0
      reads this`mss, this`prevMss, this`cwnd, this`cwndMin, this`maxBytesInFlight, this`maxBytesInFlightPrev,
            this`postCongestionScale, this`l4sAlpha, this`virtualL4sAlpha
    {
      && start == (if clamped then Min(base, maxBytesInFlightPrev) else base)
      && (reaction == Calm ==> reacted == start == base)
      // The window is reduced by what the marking calls for, or by the configured factor.
      && Reduced(net, start, reacted, reaction)
      // The reaction halves the window at most.
      && (reaction != Calm && Gentle() ==> HalvedAtMost(start, reacted, cwndMin))
      // The growth is bounded by what was acknowledged, and by what was in flight.
      && GrewWithin(reacted, cwnd, cwndMin, acked, marked, Steepest(GetMss(), base, multiplicativeIncreaseScalefactor),
                    MaxAllowed())
      // Apart from limit and reaction, the window falls exactly on a surplus of CE marked bytes that weighs in.
      && reacted >= 1
      && cwnd == GrownTo(reacted, IncrementFrom(base, reacted, inflexion, acked - marked, net), net)
      && (net.targetBitrate < net.maxBitrate ==>
            var grown := Grown(reacted, IncrementFrom(base, reacted, inflexion, acked - marked, net));
            grown as real <= GetMss() as real + Max(maxBytesInFlight, maxBytesInFlightPrev) as real * bytesInFlightHeadRoom ==>
              cwnd == Max(cwndMin, grown))
      && (cwnd < reacted <==> Falls(reacted, IncrementFrom(base, reacted, inflexion, acked - marked, net), net))
    }

    /** The reaction and the growth that follows it. */
    method ReactAndGrow(time: uint32, net: Net, ratio: real, sclI: real, tolerance: real)
      returns (ghost start: int, ghost reacted: int)
      requires Configured() && MarkingInRange() && HistoryInRange() && Sane(net)
      requires cwnd >= 1 && cwndI >= 1 && GetMss() >= 1 && cwndMin >= 1 && 0.0 <= postCongestionScale <= 1.0
      requires ratio == Ratio(GetMss(), cwnd) && sclI == Closeness(cwnd, cwndI) && tolerance == DelayTolerance(ratio)
      modifies this`cwnd, this`lossEvent, this`ecnCeEvent, this`virtualCeEvent, this`postCongestionScale,
               this`lastCwndIUpdateT, this`lastCongestionDetectedT, this`cwndI, this`cwndIHistIx, cwndIHist
      ensures HistoryInRange() && cwnd >= cwndMin && 0.0 <= postCongestionScale <= 1.0 && !lossEvent
      ensures reacted == old(ReactedFrom(start, net, sclI, tolerance))
      ensures PointNoted(time, net, old(cwnd), old(Pending()), old(Now()))
      ensures postCongestionScale == if old(Pending()) == Calm then old(postCongestionScale) else 0.0
      ensures ReactedWithin(net, old(cwnd), start, reacted, old(Pending()), old(ClampDue(time, net)), old(cwndI),
                            bytesNewlyAcked, bytesNewlyAckedCe)
    {
      hide Falls, GrownTo, Steepest, Times, Sane, MarkingInRange, HistoryInRange, Gentle, GetMss, MaxAllowed, Congested,
           ReactionBase, GrewWithin, HalvedAtMost, Ratio, ReactedFrom, Increment, Grown, Closeness, DelayTolerance, LongCalm,
           PointNoted, Reduced;
      ghost var base, point := cwnd, cwndI;
      start := StartOf(time, net);
      HistoryShape();
      ReactedIsReduced(start, net, sclI, tolerance);
      React(time, net, sclI, tolerance);
      reacted := cwnd;
      Grow(net, ratio, sclI, tolerance, base);
      GrownToIs(reacted, IncrementFrom(base, reacted, point, bytesNewlyAcked - bytesNewlyAckedCe, net), net);
    }

    lemma MayStart()
      requires Valid()
      ensures Startable()
    {
    }

    lemma WindowShape()
      requires WindowInRange()
      ensures INIT_MSS <= GetMss() && 2 * GetMss() <= cwndMin <= cwnd && INIT_MSS <= mss && INIT_MSS <= prevMss
      ensures 0.0 <= postCongestionScale <= 1.0
    {
    }

    lemma AtLeastTwo()
      requires Valid()
      ensures GetMss() >= INIT_MSS && cwnd >= 2 * GetMss() && windowHeadroom >= 1.5
    {
    }

    lemma WindowKept()
      requires INIT_MSS <= mss && INIT_MSS <= prevMss && 2 * GetMss() <= cwndMin <= cwnd
      requires 1.5 <= windowHeadroom <= maxWindowHeadroom && 0.0 <= postCongestionScale <= 1.0
      ensures WindowInRange()
    {
    }

    /** The last event was more than 30 ms or one round trip ago. */
    predicate Spaced(time: uint32, net: Net)
      reads this`lastLossEventT
    {
      Sub32(time, lastLossEventT) > Min(1966, net.sRttNtp)
    }

    /** A standing queue after the pause, in a block without CE marks, which come first. */
    predicate QueueAlarm(time: uint32, net: Net, isCe: bool)
      reads this`lastLossEventT
    {
      net.queueDelayAvg > net.queueDelayTarget / 2.0 && Spaced(time, net) && !isCe
    }

    /** What the next update reacts to once a block is counted. */
    function PendingAfter(time: uint32, net: Net, isCe: bool): Reaction
      reads this`lossEvent, this`ecnCeEvent, this`virtualCeEvent, this`lastLossEventT, this`lastL4sAlphaUpdateT,
            this`bytesDeliveredThisRtt, this`packetsMarkedThisRtt, this`packetsDeliveredThisRtt, this`fractionMarked
    {
      if lossEvent then OnLoss
      else if (ecnCeEvent || (isCe && Spaced(time, net))) && !(net.sRttFalls && AllMarked(time, net)) then OnMarks
      else if virtualCeEvent || QueueAlarm(time, net, isCe) then OnQueue
      else Calm
    }

    /** With no mark or queue event left from before, it is the reaction to the block. */
    lemma PendingIsReaction(time: uint32, net: Net, isCe: bool)
      requires !ecnCeEvent && !virtualCeEvent
      ensures PendingAfter(time, net, isCe)
              == ReactionTo(lastLossEventT, Digest(time, net, isCe, lossEvent, AllMarked(time, net)))
    {
    }

    /** CE marks and a standing queue become congestion events, at most one in 30 ms or one round trip. */
    method RaiseEvents(time: uint32, net: Net, isCe: bool)
      requires MarkingInRange() && Sane(net)
      modifies this`ecnCeEvent, this`virtualCeEvent, this`virtualL4sAlpha, this`lastLossEventT
      ensures MarkingInRange()
      ensures ecnCeEvent
              == ((old(ecnCeEvent) || (isCe && old(Spaced(time, net)))) && !(net.sRttFalls && fractionMarked == 1.0))
      ensures virtualCeEvent == (old(virtualCeEvent) || old(QueueAlarm(time, net, isCe)))
      ensures virtualL4sAlpha == if old(QueueAlarm(time, net, isCe)) then VirtualAlpha(net) else old(virtualL4sAlpha)
      ensures lastLossEventT == if Congested() || (isCe && old(Spaced(time, net))) then time else old(lastLossEventT)
    {
      hide Sub32, VirtualAlpha;
      NoTime(time);
      var pause := Min(1966, net.sRttNtp);
      if Sub32(time, lastLossEventT) > pause {
        if isCe {
          ecnCeEvent := true;
          lastLossEventT := time;
        }
      }
      if net.queueDelayAvg > net.queueDelayTarget / 2.0 && Sub32(time, lastLossEventT) > pause {
        virtualCeEvent := true;
        virtualL4sAlpha := VirtualAlpha(net);
      }
      if net.sRttFalls && fractionMarked == 1.0 {
        ecnCeEvent := false;
      }
      if lossEvent || ecnCeEvent || virtualCeEvent {
        lastLossEventT := time;
      }
    }

    /** More than 30 ms or one round trip, whichever is less, since the last update; the first call starts the clock. */
    predicate Due(time: uint32, net: Net)
      reads this`lastCwndUpdateT
    {
      Sub32(time, if lastCwndUpdateT == 0 then time else lastCwndUpdateT) > Min(1966, net.sRttNtp)
    }

    /** Update the window after 30 ms or one round trip, at once on congestion or a new frame. */
    method UpdateWhenDue(time: uint32, net: Net, isNewFrame: bool)
      returns (updated: bool, ghost base: int, ghost start: int, ghost reacted: int)
      requires Valid() && Sane(net) && RoomAtLimit(time, net)
      modifies this`cwnd, this`lossEvent, this`ecnCeEvent, this`virtualCeEvent, this`postCongestionScale, this`windowHeadroom,
               this`lastCwndIUpdateT, this`lastCongestionDetectedT, this`lastSlowUpdateT, this`lastCwndUpdateT, this`cwndI,
               this`cwndIHistIx, this`maxBytesInFlight, this`maxBytesInFlightPrev, this`maxBytesInFlightHistIx,
               this`bytesNewlyAcked, this`bytesNewlyAckedCe, cwndIHist, maxBytesInFlightHist
      ensures Valid()
      ensures Max(maxBytesInFlight, maxBytesInFlightPrev) >= old(maxBytesInFlight)
      ensures !updated ==> cwnd == old(cwnd)
      ensures !updated ==> bytesNewlyAcked == old(bytesNewlyAcked) && bytesNewlyAckedCe == old(bytesNewlyAckedCe)
      ensures updated ==> bytesNewlyAcked == bytesNewlyAckedCe == 0
      ensures updated <==> old(Due(time, net)) || old(Congested()) || isNewFrame
      ensures !Congested()
      ensures lastCwndUpdateT == if updated || old(lastCwndUpdateT) == 0 then time else old(lastCwndUpdateT)
      ensures updated ==>
                UpdatedWithin(net, old(cwnd), base, start, reacted, old(Pending()), old(ClampDue(time, net)), old(cwndI),
                              old(bytesNewlyAcked), old(bytesNewlyAckedCe))
      ensures updated ==> base >= 1 && base == LimitedWindow(time, net, old(cwnd), old(Now()))
                          && Aftermath(time, net, base, old(Pending()), old(Now()))
      ensures !updated ==> Now() == old(Now()) && windowHeadroom == old(windowHeadroom)
      ensures !old(SlowDue(time)) ==>
                maxBytesInFlight == old(maxBytesInFlight) && maxBytesInFlightPrev == old(maxBytesInFlightPrev)
                && lastSlowUpdateT == old(lastSlowUpdateT)
    {
      hide Aftermath, LimitedWindow, Pending, SlowDue, Sub32, Sane, LongCalm, RoomAtLimit, UpdatedWithin,
           MarkingInRange, HistoryInRange, WindowInRange, GetMss;
      WindowShape();
      HistoryShape();
      if lastCwndUpdateT == 0 {
        lastCwndUpdateT := time;
      }
      updated := Sub32(time, lastCwndUpdateT) > Min(1966, net.sRttNtp) || Congested() || isNewFrame;
      base, start, reacted := cwnd, cwnd, cwnd;
      if updated {
        base, start, reacted := UpdateNow(time, net);
      }
    }

    /** One window update, after which the events are handled. */
    method UpdateNow(time: uint32, net: Net) returns (ghost base: int, ghost start: int, ghost reacted: int)
      requires Valid() && Sane(net) && RoomAtLimit(time, net) && cwndI >= 1 && GetMss() >= 1
      modifies this`cwnd, this`lossEvent, this`ecnCeEvent, this`virtualCeEvent, this`postCongestionScale, this`windowHeadroom,
               this`lastCwndIUpdateT, this`lastCongestionDetectedT, this`lastSlowUpdateT, this`lastCwndUpdateT, this`cwndI,
               this`cwndIHistIx, this`maxBytesInFlight, this`maxBytesInFlightPrev, this`maxBytesInFlightHistIx,
               this`bytesNewlyAcked, this`bytesNewlyAckedCe, cwndIHist, maxBytesInFlightHist
      ensures Valid()
      ensures Max(maxBytesInFlight, maxBytesInFlightPrev) >= old(maxBytesInFlight)
      ensures GetMss() >= 1 && 0.0 <= postCongestionScale <= 1.0 && !Congested() && lastCwndUpdateT == time
      ensures bytesNewlyAcked == bytesNewlyAckedCe == 0
      ensures UpdatedWithin(net, old(cwnd), base, start, reacted, old(Pending()), old(ClampDue(time, net)), old(cwndI),
                            old(bytesNewlyAcked), old(bytesNewlyAckedCe))
      ensures base == LimitedWindow(time, net, old(cwnd), old(Now())) && base >= 1
      ensures Aftermath(time, net, base, old(Pending()), old(Now()))
      ensures !old(SlowDue(time)) ==>
                maxBytesInFlight == old(maxBytesInFlight) && maxBytesInFlightPrev == old(maxBytesInFlightPrev)
                && lastSlowUpdateT == old(lastSlowUpdateT)
    {
      hide Aftermath, LimitedWindow, Pending, SlowDue, Sub32, Sane, RateWindow, LongCalm, RoomAtLimit, ReactedWithin,
           ReactedFrom, MarkingInRange, HistoryInRange,
           WindowInRange, GetMss, Closeness, DelayTolerance, Ratio;
      base, start, reacted := UpdateCwnd(time, net);
      ecnCeEvent := false;
      virtualCeEvent := false;
      lastCwndUpdateT := time;
      WindowShape();
    }

    /** One window update from the window before: limited near the maximum rate to base, and from there within
        ReactedWithin. */
    ghost predicate UpdatedWithin(net: Net, before: int, base: int, start: int, reacted: int, reaction: Reaction, clamped: bool,
                                  inflexion: int, acked: int, marked: int)
      requires Sane(net) && inflexion >= 1 && GetMss() >= 1
      requires multiplicativeIncreaseScalefactor >= 0.0 && 0.0 <= postCongestionScale <= 1.0
      reads this`mss, this`prevMss, this`cwnd, this`cwndMin, this`maxBytesInFlight, this`maxBytesInFlightPrev,
            this`postCongestionScale, this`l4sAlpha, this`virtualL4sAlpha
    {
      && 1 <= base && Min(before, RateWindow(net)) <= base <= before
      && (net.targetBitrate <= net.maxBitrate * 0.95 ==> base == before)
      && ReactedWithin(net, base, start, reacted, reaction, clamped, inflexion, acked, marked)
    }

    /** The averages and events of a feedback block, before any update of the window. */
    method CountBlock(time: uint32, net: Net, isCe: bool) returns (ghost reaction: Reaction, ghost clamped: bool)
      requires MarkingInRange() && Sane(net)
      modifies this`ecnCeEvent, this`virtualCeEvent, this`virtualL4sAlpha, this`lastLossEventT, this`ceDensity,
               this`fractionMarked, this`l4sAlpha, this`lastL4sAlphaUpdateT, this`bytesDeliveredThisRtt,
               this`packetsDeliveredThisRtt, this`packetsMarkedThisRtt
      ensures MarkingInRange()
      ensures reaction == Pending() == old(PendingAfter(time, net, isCe)) && clamped == ClampDue(time, net)
      ensures clamped <==> reaction == OnMarks && isL4s && old(LongCalm(time, net))
      ensures Averaged(time, net, isCe, old(MarksNow()))
      ensures lastLossEventT == if reaction != Calm || (isCe && old(Spaced(time, net))) then time else old(lastLossEventT)
      ensures virtualL4sAlpha == if old(QueueAlarm(time, net, isCe)) then VirtualAlpha(net) else old(virtualL4sAlpha)
    {
      MarksInRange();
      hide MarkingInRange, Sane, Sub32, LongCalm, VirtualAlpha, AllMarked, NextAlpha, Averaged;
      UpdateMarking(time, net, isCe);
      RaiseEvents(time, net, isCe);
      reaction, clamped := Pending(), ClampDue(time, net);
    }

    /** The last element of a feedback block: update the averages, raise events, and update the window when it is due. */
    method IncomingLast(time: uint32, net: Net, isCe: bool, isNewFrame: bool)
      returns (updated: bool, ghost base: int, ghost start: int, ghost reacted: int, ghost reaction: Reaction,
               ghost clamped: bool)
      requires Valid() && Sane(net) && RoomAtLimit(time, net)
      modifies this`cwnd, this`lossEvent, this`ecnCeEvent, this`virtualCeEvent, this`postCongestionScale, this`windowHeadroom,
               this`lastCwndIUpdateT, this`lastCongestionDetectedT, this`lastSlowUpdateT, this`lastCwndUpdateT, this`cwndI,
               this`cwndIHistIx, this`maxBytesInFlight, this`maxBytesInFlightPrev, this`maxBytesInFlightHistIx,
               this`bytesNewlyAcked, this`bytesNewlyAckedCe, this`ceDensity, this`fractionMarked,
               this`l4sAlpha, this`virtualL4sAlpha, this`lastL4sAlphaUpdateT, this`lastLossEventT, this`bytesDeliveredThisRtt,
               this`packetsDeliveredThisRtt, this`packetsMarkedThisRtt, cwndIHist, maxBytesInFlightHist
      ensures Valid()
      ensures Max(maxBytesInFlight, maxBytesInFlightPrev) >= old(maxBytesInFlight)
      ensures !updated ==> cwnd == old(cwnd)
      ensures reaction == old(PendingAfter(time, net, isCe))
      ensures updated <==> old(Due(time, net)) || reaction != Calm || isNewFrame
      ensures !Congested()
      ensures lastCwndUpdateT == if updated || old(lastCwndUpdateT) == 0 then time else old(lastCwndUpdateT)
      ensures Averaged(time, net, isCe, old(MarksNow()))
      ensures lastLossEventT == if reaction != Calm || (isCe && old(Spaced(time, net))) then time else old(lastLossEventT)
      ensures virtualL4sAlpha == if old(QueueAlarm(time, net, isCe)) then VirtualAlpha(net) else old(virtualL4sAlpha)
      ensures !updated ==> bytesNewlyAcked == old(bytesNewlyAcked) && bytesNewlyAckedCe == old(bytesNewlyAckedCe)
      ensures updated ==> bytesNewlyAcked == bytesNewlyAckedCe == 0
      ensures clamped <==> reaction == OnMarks && isL4s && old(LongCalm(time, net))
      ensures updated ==> UpdatedWithin(net, old(cwnd), base, start, reacted, reaction, clamped, old(cwndI),
                                        old(bytesNewlyAcked), old(bytesNewlyAckedCe))
      ensures updated ==> base >= 1 && base == LimitedWindow(time, net, old(cwnd), old(Now()))
                          && Aftermath(time, net, base, reaction, old(Now()))
      ensures !updated ==> Now() == old(Now()) && windowHeadroom == old(windowHeadroom)
      ensures !old(SlowDue(time)) ==>
                maxBytesInFlight == old(maxBytesInFlight) && maxBytesInFlightPrev == old(maxBytesInFlightPrev)
                && lastSlowUpdateT == old(lastSlowUpdateT)
    {
      hide SlowDue, MarkingInRange, HistoryInRange, WindowInRange, UpdatedWithin, Sane, RateWindow, RoomAtLimit, Sub32,
           LongCalm, PendingAfter, AllMarked, VirtualAlpha, Aftermath, LimitedWindow, Now, Pending, ClampDue, Spaced, QueueAlarm, Due,
           Averaged;
      MarksInRange();
      reaction, clamped := CountBlock(time, net, isCe);
      updated, base, start, reacted := UpdateWhenDue(time, net, isNewFrame);
    }

    /** The start of updateCwnd: the slow update, and the factors the rest of it uses. */
    method Prepare(time: uint32, net: Net) returns (ratio: real, tolerance: real, sclI: real)
      requires Configured() && HistoryInRange() && WindowInRange() && Sane(net) && RoomAtLimit(time, net)
      modifies this`postCongestionScale, this`windowHeadroom, this`cwnd, this`maxBytesInFlight, this`maxBytesInFlightPrev,
               this`maxBytesInFlightHistIx, this`lastSlowUpdateT, maxBytesInFlightHist
      ensures HistoryInRange()
      ensures 1.5 <= windowHeadroom <= maxWindowHeadroom && 0.0 <= postCongestionScale <= 1.0
      ensures Min(old(cwnd), RateWindow(net)) <= cwnd <= old(cwnd) && cwnd >= 1
      ensures net.targetBitrate <= net.maxBitrate * 0.95 ==> cwnd == old(cwnd)
      ensures ratio == Ratio(GetMss(), cwnd) && tolerance == DelayTolerance(ratio) && cwndI >= 1
      ensures sclI == Closeness(cwnd, cwndI)
      ensures SlowStep(time, old(Now())) && cwnd == LimitedWindow(time, net, old(cwnd), old(Now()))
      ensures Loosened(time, net, cwnd, Calm, old(Now()))
      ensures Max(maxBytesInFlight, maxBytesInFlightPrev) >= old(maxBytesInFlight)
      ensures !old(SlowDue(time)) ==>
                maxBytesInFlight == old(maxBytesInFlight) && maxBytesInFlightPrev == old(maxBytesInFlightPrev)
                && lastSlowUpdateT == old(lastSlowUpdateT)
    {
      hide RoomAtLimit, Sub32, Closeness, DelayTolerance, Headroom, HistoryInRange, Sane, RateWindow, Ratio, PostCongestion,
           SlowStep, LimitedWindow;
      SaneShape(net);
      postCongestionScale := PostCongestion(Sub32(time, lastCongestionDetectedT), net.sRttNtp);
      SlowUpdate(time, net);
      ratio := Ratio(GetMss(), cwnd);
      tolerance := DelayTolerance(ratio);
      windowHeadroom := Headroom(maxWindowHeadroom, tolerance, net.queueDelayDev);
      HistoryShape();
      sclI := Closeness(cwnd, cwndI);
    }

    lemma HistoryShape()
      requires HistoryInRange()
      ensures cwndI >= 1 && maxBytesInFlight >= 0 && maxBytesInFlightPrev >= 0
      ensures cwndIHist.Length == 3 && cwndIHistIx < 3 && maxBytesInFlightHist.Length == 20 && maxBytesInFlightHistIx < 20
    {
    }
  }

  lemma SaneShape(net: Net)
    requires Sane(net)
    ensures net.sRttNtp > 0 && net.queueDelayDev >= 0.0
  {
  }

  lemma AtLeastOne(a: nat, b: nat)
    requires b > 0
    ensures a >= b ==> a as real / b as real >= 1.0
  {
  }

  /** How long ago congestion was met, as a fraction of 200 round trips. */
  function PostCongestion(since: nat, sRttNtp: nat): (r: real)
    requires sRttNtp > 0
    ensures 0.0 <= r <= 1.0
    ensures since >= 200 * sRttNtp ==> r == 1.0
  {
    var x := since as real / (200 * sRttNtp) as real;
    AtLeastOne(since, 200 * sRttNtp);
    MaxReal(0.0, MinReal(1.0, x))
  }

  /** In between, in proportion. */
  lemma PostCongestionIs(since: nat, sRttNtp: nat)
    requires sRttNtp > 0 && since <= 200 * sRttNtp
    ensures PostCongestion(since, sRttNtp) * (200 * sRttNtp) as real == since as real
  {
    QuotientIff(since as real, (200 * sRttNtp) as real, 0.0);
    QuotientIff(since as real, (200 * sRttNtp) as real, 1.0);
  }

  lemma NoTime(t: uint32)
    ensures Sub32(t, t) == 0
  {
  }

  lemma MostIsPositive(h: seq<int>, least: int)
    ensures MostOf(h, least) >= 1 <==> least >= 1 || exists k :: 0 <= k < |h| && h[k] >= 1
  {
    var m := MostOf(h, least);
    if m >= 1 && m != least {
      assert m in h;
    }
  }

  lemma TimesZero(x: real)
    ensures Times(0.0, x) == 0.0
  {
  }

  lemma ScaledFloor(cwnd: int, factor: real, cwndMin: int)
    ensures Scaled(cwnd, factor, cwndMin) >= cwndMin
  {
  }

  lemma Fraction(a: int, b: int)
    requires 0 <= a <= b && b > 0
    ensures 0.0 <= a as real / b as real <= 1.0
    ensures a == 0 ==> a as real / b as real == 0.0
    ensures a as real / b as real == 1.0 <==> a == b
  {
  }
}
