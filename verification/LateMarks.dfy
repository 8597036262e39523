/** A window that shrinks without a congestion event: packets that arrive late with CE marks, after the received edge has
    passed them and an update has counted them as acknowledged. */
module LateMarks {
  import opened Serial
  import opened Sums
  import opened TxRing
  import opened InFlight
  import opened InFlightLedgers
  import opened Surplus
  import opened WindowMath
  import opened CongestionEvents
  import opened WindowControl
  import opened Senders

  // ---------- The ledger ----------

  /** The first n of four packets of 1000 bytes have been sent, the fourth ends a frame. */
  ghost predicate Sending(l: Ledger, n: nat) {
    && |l.slots| == 4096 && l.hiSeqAck == 0 && l.timeTxAck == 0 && l.timeStampAckHigh == 0
    && l.bytesInFlight == 1000 * n
    && forall k :: 0 <= k < 4096 ==>
         if k < n then l.slots[k] == Transmitted(100, 1000, k, 0, k == 3, true, false, false) else !l.slots[k].isUsed
  }

  /** The edge has passed all four; the fourth is settled, and so are the first n of the others. */
  ghost predicate Passed(l: Ledger, n: nat) {
    && |l.slots| == 4096 && l.hiSeqAck == 3
    && forall k :: 0 <= k < 4096 ==>
         if k < 3 then l.slots[k] == Transmitted(100, 1000, k, 0, false, true, k < n, true) else !l.slots[k].isUsed
  }

  lemma SendingStep(l: Ledger, n: nat)
    requires Sending(l, n) && n < 4
    ensures Sending(Step(l, Sent(100, 1000, n, n == 3, 0)), n + 1)
  {
  }

  lemma FourThousand(w: seq<int>)
    requires |w| == 4096 && forall k :: 0 <= k < 4096 ==> w[k] == if k < 4 then 1000 else 0
    ensures Sum(w) == 4000
  {
    var rest := w[0 := 0][1 := 0][2 := 0][3 := 0];
    SumZero(rest);
    SumUpdate(w, 0, 0);
    SumUpdate(w[0 := 0], 1, 0);
    SumUpdate(w[0 := 0][1 := 0], 2, 0);
    SumUpdate(w[0 := 0][1 := 0][2 := 0], 3, 0);
  }

  /** All four are sent, and the fourth is acknowledged. */
  ghost predicate FourthSettled(l: Ledger) {
    && |l.slots| == 4096 && l.hiSeqAck == 0 && l.timeTxAck == 100 && l.timeStampAckHigh == 0
    && forall k :: 0 <= k < 4096 ==>
         if k < 4 then l.slots[k] == Transmitted(100, 1000, k, 0, k == 3, true, k == 3, false) else !l.slots[k].isUsed
  }

  /** The edge moves from 0 to 3: slots 3581 to 3583 are dropped, slots 3584 to 3 scanned. */
  lemma EdgeStarts()
    ensures DropStart(0, 3) == 3581 && DropLength(0, 3) == 3 && ScanStart(0, 3) == 3584 && ScanLength(0, 3) == 516
  {
  }

  lemma OneSlotMoves(l: Ledger, k: nat)
    requires FourthSettled(l) && k < 4096
    ensures var q := DetectLoss(l, 3).slots[k];
            && (if k < 3 then q == Transmitted(100, 1000, k, 0, false, true, false, true) else !q.isUsed)
            && (k < 4 ==> q.isAfterReceivedEdge)
    ensures Open(l.slots[k]) ==>
              !InStretch(DropStart(0, 3), DropLength(0, 3), k) && !Late(l.slots[k], l.timeTxAck, l.timeStampAckHigh)
  {
    hide DropStart, DropLength, ScanStart, ScanLength, DetectLoss;
    EdgeStarts();
    DetectLossAt(l, 3, k);
  }

  lemma EdgeMoves(l: Ledger)
    requires FourthSettled(l)
    ensures Passed(DetectLoss(l, 3), 0) && DetectLoss(l, 3).packetLost == l.packetLost
    ensures forall k :: 0 <= k < 4 ==> DetectLoss(l, 3).slots[k].isAfterReceivedEdge
  {
    forall k | 0 <= k < 4096
      ensures var q := DetectLoss(l, 3).slots[k];
              && (if k < 3 then q == Transmitted(100, 1000, k, 0, false, true, false, true) else !q.isUsed)
              && (k < 4 ==> q.isAfterReceivedEdge)
      ensures Open(l.slots[k]) ==>
                !InStretch(DropStart(0, 3), DropLength(0, 3), k) && !Late(l.slots[k], l.timeTxAck, l.timeStampAckHigh)
    {
      OneSlotMoves(l, k);
    }
    NothingLate(l, 3);
    EdgeSet(l, 3);
    hide DetectLoss, DropStart, DropLength, Late, InStretch;
  }

  lemma EdgeSet(l: Ledger, h: uint16)
    requires |l.slots| == 4096
    ensures DetectLoss(l, h).hiSeqAck == h
  {
  }

  lemma EdgeCredits(l: Ledger)
    requires FourthSettled(l)
    ensures DetectLoss(l, 3).bytesAcked == l.bytesAcked + 4000
  {
    EdgeMoves(l);
    DetectCredits(l, 3);
    hide DetectLoss;
    FourThousand(CreditedSizes(l.slots, DetectLoss(l, 3).slots));
  }

  /** The report of the fourth packet alone credits all four, and settles only that one. */
  lemma EdgePasses(l: Ledger, rxTime: uint32)
    requires Sending(l, 4)
    ensures var e := Reported(3, rxTime, 0, true);
            Passed(Step(l, e), 0) && Step(l, e).packetLost == l.packetLost && CreditOf(l, e) == 4000 && MarkedOf(l, e) == 0
  {
    hide DetectLoss, Passed;
    var marked := MarkAcked(l, 3, rxTime, 0);
    EdgeMoves(marked);
    EdgeCredits(marked);
  }

  /** No packet in the two stretches is open and dropped, or open and late. */
  lemma NothingLate(l: Ledger, h: uint16)
    requires |l.slots| == 4096
    requires forall k :: 0 <= k < 4096 && Open(l.slots[k]) ==>
               && !InStretch(DropStart(l.hiSeqAck, h), DropLength(l.hiSeqAck, h), k)
               && !Late(l.slots[k], l.timeTxAck, l.timeStampAckHigh)
    ensures DetectLoss(l, h).packetLost == l.packetLost
  {
    var lo, len := DropStart(l.hiSeqAck, h), DropLength(l.hiSeqAck, h);
    var dropped := DropRegion(l, lo, len);
    SumZero(Gate(Opens(l.slots), lo, len));
    SumZero(Gate(Lates(dropped), ScanStart(l.hiSeqAck, h), ScanLength(l.hiSeqAck, h)));
  }

  lemma MarkSettles(l: Ledger, n: uint16, rxTime: uint32)
    requires Passed(l, n) && n < 3
    ensures var e := Reported(n, rxTime, 3, false);
            Passed(Step(l, e), n + 1) && Step(l, e).packetLost == l.packetLost && CreditOf(l, e) == 0 && MarkedOf(l, e) == 1000
  {
  }

  lemma EdgeStays(l: Ledger, rxTime: uint32)
    requires Passed(l, 3)
    ensures var e := Reported(3, rxTime, 0, true);
            Step(l, e).packetLost == l.packetLost && CreditOf(l, e) == 0 && MarkedOf(l, e) == 0
  {
    DetectCredits(l, 3);
    SumZero(CreditedSizes(l.slots, DetectLoss(l, 3).slots));
    NothingLate(l, 3);
  }

  // ---------- The window ----------

  /** No queue, a round trip of 25 ms or more, and a rate well below the maximum. */
  predicate Quiet(net: Net) {
    && Sane(net) && net.sRtt >= 0.025 && net.sRttNtp >= 1638
    && net.queueDelayAvg <= net.queueDelayTarget / 2.0
    && 0.0 < net.targetBitrate <= net.maxBitrate * 0.95
  }

  /** The window's fields that stay as they are for the rest of the run. */
  ghost predicate Settings(w: WindowControl)
    reads w`mss, w`prevMss, w`cwndMin, w`cwndMinLow, w`maxBytesInFlightPrev, w`lastLossEventT, w`lastSlowUpdateT,
          w`lossEvent, w`ecnCeEvent, w`virtualCeEvent
  {
    && w.multiplicativeIncreaseScalefactor == 0.05 && w.bytesInFlightHeadRoom == 2.0
    && w.mss == 1000 && w.prevMss == 100 && w.cwndMin == 2000 && w.cwndMinLow == 0
    && w.maxBytesInFlightPrev == 0 && w.lastLossEventT == w.lastSlowUpdateT == 65 && !w.Congested()
  }

  /** The increments of the two updates, whatever the inflexion point and the time since congestion. */
  lemma UpBy(net: Net, post: real, sclI: real, tolerance: real)
    requires Sane(net) && net.sRtt >= 0.025 && 0.0 <= post <= 1.0 && 0.0 <= sclI <= 1.0 && tolerance > 0.0
    ensures 50.0 <= Increment(4000, Ratio(1000, 2000), 2000, 1000, 0.05, post, sclI, net, tolerance) <= 2200.0
  {
    hide Increment;
    IncrementAtLeast(4000, 2000, 2000, 1000, 0.05, post, sclI, net, tolerance);
    IncrementBounds(4000, 2000, 2000, 1000, 0.05, post, sclI, net, tolerance);
  }

  lemma DownBy(before: int, net: Net, post: real, sclI: real, tolerance: real)
    requires Sane(net) && net.sRtt >= 0.025 && 0.0 <= post <= 1.0 && 0.0 <= sclI <= 1.0 && tolerance > 0.0
    requires 2000 < before <= 4200
    ensures Increment(-3000, Ratio(1000, before), before, 1000, 0.05, post, sclI, net, tolerance) <= -1.5
  {
    hide Increment;
    IncrementAtLeast(-3000, before, before, 1000, 0.05, post, sclI, net, tolerance);
    assert Ratio(1000, before) >= 1000.0 / 4200.0;
  }

  /** 4000 bytes acknowledged in a window of two packets: it grows by 50 to 2200 bytes. */
  lemma GrowsBy(w: WindowControl, net: Net, base: int, start: int, reacted: int, clamped: bool, inflexion: int)
    requires Settings(w) && Quiet(net) && inflexion >= 1 && 0.0 <= w.postCongestionScale <= 1.0 && w.maxBytesInFlight == 4000
    requires w.UpdatedWithin(net, 2000, base, start, reacted, Calm, clamped, inflexion, 4000, 0)
    ensures 2000 < w.cwnd <= 4200
  {
    hide Increment, GrewWithin, Steepest, WindowControl.RateWindow, Closeness, DelayTolerance, Ratio;
    UpBy(net, w.postCongestionScale, Closeness(2000, inflexion), DelayTolerance(Ratio(1000, 2000)));
  }

  /** 3000 CE marked bytes and none acknowledged, without congestion: the window falls. */
  lemma FallsBelow(w: WindowControl, net: Net, before: int, base: int, start: int, reacted: int, clamped: bool,
                   inflexion: int)
    requires Settings(w) && Quiet(net) && inflexion >= 1 && 0.0 <= w.postCongestionScale <= 1.0 && w.maxBytesInFlight == 4000
    requires 2000 < before <= 4200
    requires w.UpdatedWithin(net, before, base, start, reacted, Calm, clamped, inflexion, 0, 3000)
    ensures w.cwnd < before
  {
    hide Increment, GrewWithin, Steepest, WindowControl.RateWindow, Closeness, DelayTolerance, Ratio;
    DownBy(before, net, w.postCongestionScale, Closeness(before, inflexion), DelayTolerance(Ratio(1000, before)));
  }

  // ---------- The run ----------

  /** A new sender, as the controller sets it up, with the first packet of a frame in its queue. */
  method StartFrame() returns (s: Sender)
    ensures fresh(s) && fresh(s.ledger) && fresh(s.ledger.txPackets) && fresh(s.window) && fresh(s.window.cwndIHist)
            && fresh(s.window.maxBytesInFlightHist)
    ensures s.Valid() && Sending(s.ledger.Abs(), 0) && Settings(s.window) && s.isNewFrame && !s.isCeThisFeedback
    ensures s.window.cwnd == 2000 && s.window.maxBytesInFlight == 0 && s.window.windowHeadroom == 3.0
    ensures s.window.bytesNewlyAcked == s.window.bytesNewlyAckedCe == 0
    ensures s.ledger.lastTransmitT == s.ledger.nextTransmitT == 65
  {
    hide InFlightLedger.Valid, InFlightLedger.Abs, WindowControl.Valid, Kept;
    s := new Sender(0.8, 0.9, true, 65);
    s.NewMediaFrame(1000, true);
  }

  /** The four packets of the frame are sent. */
  method SendFrame(s: Sender)
    requires s.Valid() && Sending(s.ledger.Abs(), 0) && Settings(s.window) && s.window.cwnd == 2000
    requires s.window.windowHeadroom == 3.0 && s.ledger.lastTransmitT == s.ledger.nextTransmitT == 65
    modifies s`books, s.ledger, s.ledger.txPackets, s.window`mss, s.window`cwndMin, s.window`cwnd
    ensures s.Valid() && Sending(s.ledger.Abs(), 4) && Settings(s.window) && s.window.cwnd == 2000
  {
    hide InFlightLedger.Valid, InFlightLedger.Abs, WindowControl.Valid, Kept, Step, StepTally;
    for n := 0 to 4
      invariant s.Valid() && Sending(s.ledger.Abs(), n) && Settings(s.window) && s.window.cwnd == 2000
      invariant s.ledger.lastTransmitT == s.ledger.nextTransmitT == if n == 0 then 65 else 100
    {
      SendingStep(s.ledger.Abs(), n);
      var sent := s.Send(100, 1000, n, n == 3, 0, 0);
    }
  }

  /** The fourth packet alone is reported: all four are credited. */
  method CountEdge(s: Sender, net: Net)
    requires s.Valid() && Sending(s.ledger.Abs(), 4) && Settings(s.window) && !s.isCeThisFeedback
    requires s.window.maxBytesInFlight == 0 && s.window.bytesNewlyAcked == s.window.bytesNewlyAckedCe == 0
    modifies s`isCeThisFeedback, s`books, s.ledger, s.ledger.txPackets, s.window`maxBytesInFlight, s.window`lossEvent,
             s.window`bytesDeliveredThisRtt, s.window`packetsDeliveredThisRtt, s.window`bytesNewlyAcked,
             s.window`bytesNewlyAckedCe, s.window`packetsMarkedThisRtt
    ensures s.Valid() && Passed(s.ledger.Abs(), 0) && Settings(s.window) && !s.isCeThisFeedback
    ensures s.window.maxBytesInFlight == 4000 && s.window.bytesNewlyAcked == 4000 && s.window.bytesNewlyAckedCe == 0
    ensures s.ledger.bytesInFlight <= 4000
  {
    hide InFlightLedger.Valid, WindowControl.Valid, Kept, Step, StepTally, CreditOf, MarkedOf, Acknowledges, Passed,
         WindowControl.MarksNow, Sub32;
    EdgePasses(s.ledger.Abs(), 500);
    s.CountElement(1000, net, 3, 500, 0, true);
  }

  lemma NoSlowUpdate(w: WindowControl, time: uint32, net: Net)
    requires Settings(w) && 65 <= time <= 1500 && Quiet(net) && w.maxBytesInFlightHist.Length == 20
    ensures !w.SlowDue(time) && w.RoomAtLimit(time, net) && Sub32(time, w.lastLossEventT) <= Min(1966, net.sRttNtp)
  {
  }

  /** The update for a new frame, at a time when no event can be raised: whatever was marked, it is without congestion. */
  method UpdateForFrame(s: Sender, time: uint32, net: Net)
    returns (ghost base: int, ghost start: int, ghost reacted: int, ghost clamped: bool)
    requires s.Valid() && Settings(s.window) && s.isNewFrame && Quiet(net) && 65 <= time <= 1500
    modifies s, s.window, s.window.cwndIHist, s.window.maxBytesInFlightHist
    ensures s.Valid() && s.ledger.Abs() == old(s.ledger.Abs()) && Settings(s.window) && !s.isCeThisFeedback
    ensures s.window.bytesNewlyAcked == s.window.bytesNewlyAckedCe == 0
    ensures s.window.maxBytesInFlight == old(s.window.maxBytesInFlight)
    ensures s.window.UpdatedWithin(net, old(s.window.cwnd), base, start, reacted, Calm, clamped, old(s.window.cwndI),
                                   old(s.window.bytesNewlyAcked), old(s.window.bytesNewlyAckedCe))
  {
    hide InFlightLedger.Valid, WindowControl.UpdatedWithin, Kept, WindowControl.Due, WindowControl.SlowDue,
         WindowControl.RoomAtLimit, Sub32;
    NoSlowUpdate(s.window, time, net);
    ghost var reaction: Reaction;
    var updated: bool;
    updated, base, start, reacted, reaction, clamped := s.FinishBlock(time, net);
  }

  lemma InRange(s: Sender)
    requires s.Valid()
    ensures s.window.cwndI >= 1 && 0.0 <= s.window.postCongestionScale <= 1.0
  {
  }

  /** The three other packets are reported late, all of them CE marked. */
  method CountMarks(s: Sender, net: Net)
    requires s.Valid() && Passed(s.ledger.Abs(), 0) && Settings(s.window) && s.window.maxBytesInFlight == 4000
    requires s.window.bytesNewlyAcked == s.window.bytesNewlyAckedCe == 0 && s.ledger.bytesInFlight <= 4000
    modifies s`isCeThisFeedback, s`books, s.ledger, s.ledger.txPackets, s.window`maxBytesInFlight, s.window`lossEvent,
             s.window`bytesDeliveredThisRtt, s.window`packetsDeliveredThisRtt, s.window`bytesNewlyAcked,
             s.window`bytesNewlyAckedCe, s.window`packetsMarkedThisRtt
    ensures s.Valid() && Settings(s.window) && s.window.maxBytesInFlight == 4000
    ensures s.window.bytesNewlyAcked == 0 && s.window.bytesNewlyAckedCe == 3000
  {
    hide InFlightLedger.Valid, WindowControl.Valid, Kept, Step, StepTally, CreditOf, MarkedOf, Acknowledges, Passed,
         WindowControl.MarksNow, Sub32;
    for n := 0 to 3
      invariant s.Valid() && Passed(s.ledger.Abs(), n) && Settings(s.window) && s.window.maxBytesInFlight == 4000
      invariant s.window.bytesNewlyAcked == 0 && s.window.bytesNewlyAckedCe == 1000 * n && s.ledger.bytesInFlight <= 4000
    {
      MarkSettles(s.ledger.Abs(), n, 1200);
      s.CountElement(1500, net, n, 1200, 3, false);
    }
    EdgeStays(s.ledger.Abs(), 500);
    s.CountElement(1500, net, 3, 500, 0, true);
  }

  /** Four packets are sent. The fourth is reported first, and an update counts all four as acknowledged. Then the other
      three are reported, late and CE marked. The window falls, although nothing is congested and the update is for a frame. */
  method LateMarksShrink(first: Net, second: Net) returns (s: Sender, before: int)
    requires Quiet(first) && Quiet(second)
    ensures fresh(s) && s.Valid()
    ensures 2000 < before <= 4200 && s.window.cwnd < before && !s.window.Congested()
  {
    hide *;
    s := StartFrame();
    SendFrame(s);
    CountEdge(s, first);
    InRange(s);
    ghost var inflexion := s.window.cwndI;
    ghost var base, start, reacted, clamped := UpdateForFrame(s, 1000, first);
    InRange(s);
    GrowsBy(s.window, first, base, start, reacted, clamped, inflexion);
    NextFrame(s);
    before := s.window.cwnd;
    CountMarks(s, second);
    InRange(s);
    inflexion := s.window.cwndI;
    base, start, reacted, clamped := UpdateForFrame(s, 1500, second);
    InRange(s);
    FallsBelow(s.window, second, before, base, start, reacted, clamped, inflexion);
    NotCongested(s.window);
  }

  /** The first packet of the next frame is queued. */
  method NextFrame(s: Sender)
    requires s.Valid() && Settings(s.window) && s.window.cwnd >= 2000
    modifies s`isNewFrame, s.window`mss, s.window`cwndMin, s.window`cwnd
    ensures s.Valid() && Settings(s.window) && s.isNewFrame && s.window.cwnd == old(s.window.cwnd)
  {
    hide InFlightLedger.Valid, WindowControl.Valid, Kept;
    s.NewMediaFrame(1000, true);
  }

  lemma NotCongested(w: WindowControl)
    requires Settings(w)
    ensures !w.Congested()
  {
  }
}
