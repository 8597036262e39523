/** The sender's ledger and its congestion window together: the window's byte counters are those of the ledger's run. */
module Senders {
  import opened Serial
  import opened Sums
  import opened InFlight
  import opened InFlightLedgers
  import opened Surplus
  import opened WindowMath
  import opened CongestionEvents
  import opened WindowControl

  /** The state of the books when the window was last updated. */
  datatype Snapshot = Snapshot(credited: int, books: Books, prepaid: int, owed: int)

  /** The window's counters acked and marked are the bytes credited and the bytes reported as CE marked since the snapshot. */
  ghost predicate Kept(l: Ledger, y: Tally, b: Books, last: Snapshot, acked: int, marked: int) {
    && Balanced(l, y, b) && Continues(last.books, b)
    && last.credited - last.books.acked == last.prepaid - last.owed + last.books.lost - last.books.forgotten
    && last.prepaid >= 0 && last.owed >= 0
    && acked == Credited(l, y) - last.credited && marked == b.marked - last.books.marked
  }

  /** What the counters differ by, and how far below zero that can be. */
  lemma SurplusSince(l: Ledger, y: Tally, b: Books, last: Snapshot, acked: int, marked: int)
    requires Kept(l, y, b, last, acked, marked)
    ensures acked - marked
            == (b.acked - b.marked) - (last.books.acked - last.books.marked)
               + (PrepaidBytes(l.slots) - OwedBytes(l.slots)) - (last.prepaid - last.owed)
               + (b.lost - last.books.lost) - (b.forgotten - last.books.forgotten)
    ensures acked - marked >= -last.prepaid - OwedBytes(l.slots) - (b.forgotten - last.books.forgotten)
  {
    SumNonNegative(PrepaidSizes(l.slots));
  }

  lemma KeptBalanced(l: Ledger, y: Tally, b: Books, last: Snapshot, acked: int, marked: int)
    requires Kept(l, y, b, last, acked, marked)
    ensures Balanced(l, y, b)
  {
  }

  function SnapshotOf(l: Ledger, y: Tally, b: Books): Snapshot {
    Snapshot(Credited(l, y), b, PrepaidBytes(l.slots), OwedBytes(l.slots))
  }

  lemma SnapshotKept(l: Ledger, y: Tally, b: Books)
    requires Balanced(l, y, b)
    ensures Kept(l, y, b, SnapshotOf(l, y, b), 0, 0)
  {
    SumNonNegative(PrepaidSizes(l.slots));
    SumNonNegative(OwedSizes(l.slots));
  }

  /** Bytes that event e credits, and bytes that it reports as CE marked. */
  function CreditOf(l: Ledger, e: Event): int
    requires |l.slots| == 4096 && e.Reported?
  {
    Step(l, e).bytesAcked - l.bytesAcked
  }

  function MarkedOf(l: Ledger, e: Event): int
    requires |l.slots| == 4096 && e.Reported?
  {
    if Acknowledges(l, e.sn) && e.ceBits == 3 then l.slots[Slot(e.sn)].size else 0
  }

  lemma KeptReported(l: Ledger, y: Tally, b: Books, last: Snapshot, acked: int, marked: int, e: Event)
    requires Kept(l, y, b, last, acked, marked) && e.Reported?
    ensures Kept(Step(l, e), StepTally(l, y, e), StepBooks(l, b, e), last, acked + CreditOf(l, e), marked + MarkedOf(l, e))
    ensures CreditOf(l, e) >= 0 && MarkedOf(l, e) >= 0
  {
    StepBalanced(l, y, b, e);
    ReportTallies(l, y, b, e);
    hide Step, StepTally, StepBooks, Balanced;
  }

  lemma ReportTallies(l: Ledger, y: Tally, b: Books, e: Event)
    requires |l.slots| == 4096 && e.Reported?
    ensures StepTally(l, y, e).pastAcked == y.pastAcked
    ensures Step(l, e).bytesAcked >= l.bytesAcked
    ensures StepBooks(l, b, e).marked == b.marked + MarkedOf(l, e)
  {
    hide DetectLoss, DetectLeak;
    var marked := MarkAcked(l, e.sn, e.rxTime, e.ceBits);
    DetectCredits(marked, e.sn);
    SumNonNegative(CreditedSizes(marked.slots, DetectLoss(marked, e.sn).slots));
  }

  lemma KeptSilent(l: Ledger, y: Tally, b: Books, last: Snapshot, acked: int, marked: int, e: Event)
    requires Kept(l, y, b, last, acked, marked) && !e.Reported?
    ensures Kept(Step(l, e), StepTally(l, y, e), StepBooks(l, b, e), last, acked, marked)
  {
    StepBalanced(l, y, b, e);
    SilentTallies(l, y, b, e);
    hide Step, StepTally, StepBooks, Balanced;
  }

  lemma SilentTallies(l: Ledger, y: Tally, b: Books, e: Event)
    requires |l.slots| == 4096 && !e.Reported?
    ensures Credited(Step(l, e), StepTally(l, y, e)) == Credited(l, y)
    ensures StepBooks(l, b, e).marked == b.marked
  {
  }

  class Sender {
    const ledger: InFlightLedger
    const window: WindowControl
    var isCeThisFeedback: bool
    var isNewFrame: bool

    ghost var books: Books
    ghost var last: Snapshot

    ghost predicate Apart()
      reads {}
    {
      ledger.txPackets as object != window.cwndIHist && ledger.txPackets as object != window.maxBytesInFlightHist
    }

    ghost predicate Valid()
      reads this, ledger, ledger.txPackets, window, window.cwndIHist, window.maxBytesInFlightHist
    {
      && Apart() && ledger.Valid() && window.Valid() && !window.ecnCeEvent && !window.virtualCeEvent
      && Kept(ledger.Abs(), ledger.tally, books, last, window.bytesNewlyAcked, window.bytesNewlyAckedCe)
    }

    /** A sender as the controller sets it up, initialized at time t. */
    constructor (lossBeta: real, ecnCeBeta: real, isL4s: bool, t: uint32)
      ensures Valid() && fresh(ledger) && fresh(window) && fresh(ledger.txPackets)
      ensures fresh(window.cwndIHist) && fresh(window.maxBytesInFlightHist)
      ensures IsFresh(ledger.Abs()) && ledger.tally == NO_TALLY && books == NO_BOOKS
      ensures ledger.lastTransmitT == ledger.nextTransmitT == t
      ensures window.mss == window.prevMss == 100 && window.cwnd == window.cwndMin == 200 && window.cwndMinLow == 0
      ensures window.windowHeadroom == 3.0 && window.bytesInFlightHeadRoom == 2.0
      ensures window.multiplicativeIncreaseScalefactor == 0.05 && window.cwndI == 1
      ensures window.maxBytesInFlight == window.maxBytesInFlightPrev == 0 && !window.Congested()
      ensures window.lastLossEventT == window.lastSlowUpdateT == t && window.lastCwndUpdateT == 0
      ensures !isCeThisFeedback && !isNewFrame && window.isL4s == isL4s
      ensures window.bytesNewlyAcked == window.bytesNewlyAckedCe == 0
    {
      hide IsFresh, InFlightLedger.Abs, InFlightLedger.Valid, WindowControl.Valid, WindowControl.Startable, Kept, Balanced;
      var led := new InFlightLedger(t);
      var w := new WindowControl(lossBeta, ecnCeBeta, 0, 0.05, 2.0, 1.5, 3.0, isL4s, true);
      w.Initialize(t);
      ledger, window := led, w;
      isCeThisFeedback, isNewFrame := false, false;
      books := NO_BOOKS;
      last := SnapshotOf(led.Abs(), led.tally, NO_BOOKS);
      new;
      FreshBalanced(ledger.Abs());
      SnapshotKept(ledger.Abs(), ledger.tally, NO_BOOKS);
    }

    /** newMediaFrame: the window makes room for the next packet; a marker announces a new frame. */
    method NewMediaFrame(sizeOfNextRtp: int, isMarker: bool)
      requires Valid()
      modifies this`isNewFrame, window`mss, window`cwndMin, window`cwnd
      ensures Valid() && isNewFrame == (old(isNewFrame) || isMarker)
      ensures window.mss == Max(old(window.mss), sizeOfNextRtp)
      ensures window.cwnd == Max(old(window.cwnd), window.cwndMin)
      ensures window.cwndMin == Max(window.cwndMinLow, 2 * window.GetMss())
    {
      hide InFlightLedger.Abs, InFlightLedger.Valid, WindowControl.Valid, WindowControl.Startable, Kept;
      window.MayStart();
      isNewFrame := isNewFrame || isMarker;
      window.NewMediaFrame(sizeOfNextRtp);
    }

    /** Every window holds four packets: up to there, only the pacing delays a packet. */
    lemma SmallFlightAdmitted(t: uint32, size: nat)
      requires Valid() && ledger.bytesInFlight + size <= 4 * window.GetMss() && ledger.nextTransmitT <= t
      ensures Admit(ledger.Abs(), ledger.lastTransmitT, ledger.nextTransmitT, t, size, window.cwnd, window.windowHeadroom,
                    window.GetMss()).1 == 0.0
    {
      hide InFlightLedger.Valid, WindowControl.Valid, Kept;
      window.AtLeastTwo();
      NeverStalls(ledger.Abs(), ledger.lastTransmitT, ledger.nextTransmitT, t, size, window.cwnd, window.windowHeadroom,
                  window.GetMss());
    }

    /** isOkToTransmit, and addTransmitted if it allows. */
    method Send(t: uint32, size: nat, sn: uint16, mark: bool, ts: uint32, paceInterval: uint32) returns (sent: bool)
      requires Valid()
      modifies this`books, ledger, ledger.txPackets, window`mss, window`cwndMin, window`cwnd
      ensures Valid()
      ensures sent <==> Admit(old(ledger.Abs()), old(ledger.lastTransmitT), old(ledger.nextTransmitT), t, size,
                              old(window.cwnd), window.windowHeadroom, old(window.GetMss())).1 == 0.0
      // after the reset, if a time-out was due
      ensures sent ==>
                var due := TimeOutDue(old(ledger.lastTransmitT), t);
                var (l, y) := (if due then TimeOut(old(ledger.Abs())) else old(ledger.Abs()),
                               if due then TallyTimeOut(old(ledger.Abs()), old(ledger.tally)) else old(ledger.tally));
                && ledger.Abs() == Step(l, Sent(t, size, sn, mark, ts))
                && ledger.tally == StepTally(l, y, Sent(t, size, sn, mark, ts))
                && ledger.lastTransmitT == t && ledger.nextTransmitT == Wrap32(t + paceInterval)
                && window.mss == Max(old(window.mss), size)
                && window.cwnd == Max(old(window.cwnd), window.cwndMin)
                && window.cwndMin == Max(window.cwndMinLow, 2 * window.GetMss())
      ensures !sent ==>
                && ledger.Abs() == old(ledger.Abs()) && ledger.tally == old(ledger.tally)
                && window.cwnd == old(window.cwnd) && window.mss == old(window.mss) && window.cwndMin == old(window.cwndMin)
    {
      hide InFlightLedger.Valid, InFlightLedger.Abs, WindowControl.Valid, WindowControl.Startable, Kept, Balanced, Transmit,
           TallyTransmit, TimeOut, TallyTimeOut, TimeOutDue, Fits, StepBooks;
      ghost var l, y := ledger.Abs(), ledger.tally;
      var verdict := ledger.IsOkToTransmit(t, size, window.cwnd, window.windowHeadroom, window.GetMss());
      if TimeOutDue(ledger.lastTransmitT, t) {
        KeptSilent(l, y, books, last, window.bytesNewlyAcked, window.bytesNewlyAckedCe, TimedOut);
        books := StepBooks(l, books, TimedOut);
      }
      sent := verdict == 0.0;
      if sent {
        ghost var e := Sent(t, size, sn, mark, ts);
        ledger.InFlightCovered();
        KeptSilent(ledger.Abs(), ledger.tally, books, last, window.bytesNewlyAcked, window.bytesNewlyAckedCe, e);
        books := StepBooks(ledger.Abs(), books, e);
        ledger.AddTransmitted(t, size, sn, mark, ts, paceInterval);
        window.MayStart();
        window.AddTransmitted(size);
      }
    }

    /** One received report element, up to the averages: note what is in flight, settle the packet, detect losses, and count
        what was acknowledged with a mark and what was credited. */
    method CountElement(time: uint32, net: Net, sn: uint16, ghost rxTime: uint32, ceBits: nat, isLast: bool)
      requires Valid()
      modifies this`isCeThisFeedback, this`books, ledger, ledger.txPackets, window`maxBytesInFlight, window`lossEvent,
               window`bytesDeliveredThisRtt, window`packetsDeliveredThisRtt, window`bytesNewlyAcked, window`bytesNewlyAckedCe,
               window`packetsMarkedThisRtt
      ensures Valid()
      ensures var e := Reported(sn, rxTime, ceBits, isLast);
              && ledger.Abs() == Step(old(ledger.Abs()), e)
              && ledger.tally == StepTally(old(ledger.Abs()), old(ledger.tally), e)
              && books == StepBooks(old(ledger.Abs()), old(books), e)
              && window.bytesNewlyAcked == old(window.bytesNewlyAcked) + CreditOf(old(ledger.Abs()), e)
              && window.bytesNewlyAckedCe == old(window.bytesNewlyAckedCe) + MarkedOf(old(ledger.Abs()), e)
      ensures isCeThisFeedback == (old(isCeThisFeedback) || (ceBits == 3 && Acknowledges(old(ledger.Abs()), sn)))
      ensures window.maxBytesInFlight == Max(old(window.maxBytesInFlight), old(ledger.bytesInFlight))
      ensures window.lossEvent
              == (old(window.lossEvent)
                  || (ledger.packetLost > old(ledger.packetLost) && Sub32(time, window.lastLossEventT) > net.sRttNtp
                      && window.lossBeta < 1.0))
      ensures window.MarksNow()
              == var (m, acked) := (old(window.MarksNow()), Acknowledges(old(ledger.Abs()), sn));
                 if acked then m.(delivered := m.delivered + old(ledger.Abs()).slots[Slot(sn)].size, packets := m.packets + 1,
                                  marked := m.marked + if ceBits == 3 then 1 else 0)
                 else m
      ensures ledger.bytesInFlight <= old(ledger.bytesInFlight)
      ensures ledger.lastTransmitT == old(ledger.lastTransmitT) && ledger.nextTransmitT == old(ledger.nextTransmitT)
    {
      hide InFlightLedger.Valid, InFlightLedger.Abs, WindowControl.Valid, Kept, StepBooks, Step, StepTally, Acknowledges,
           CreditOf, MarkedOf;
      ghost var l, y, e := ledger.Abs(), ledger.tally, Reported(sn, rxTime, ceBits, isLast);
      ledger.InFlightCovered();
      KeptReported(l, y, books, last, window.bytesNewlyAcked, window.bytesNewlyAckedCe, e);
      MarkedIs(l, e);
      var inFlight := ledger.bytesInFlight;
      var acked, size, credited, lost := Settle(sn, rxTime, ceBits, isLast);
      var isCe := window.CountElement(time, net, inFlight, acked, size, ceBits, credited, lost);
      isCeThisFeedback := isCeThisFeedback || isCe;
      books := StepBooks(l, books, e);
    }

    /** The end of a block: averages, events, and the window update if it is due, after which the counters start again. */
    method FinishBlock(time: uint32, net: Net)
      returns (updated: bool, ghost base: int, ghost start: int, ghost reacted: int, ghost reaction: Reaction,
               ghost clamped: bool)
      requires Valid() && Sane(net) && window.RoomAtLimit(time, net)
      modifies this`isCeThisFeedback, this`isNewFrame, this`last, window`cwnd, window`lossEvent, window`ecnCeEvent,
               window`virtualCeEvent, window`postCongestionScale, window`windowHeadroom, window`lastCwndIUpdateT,
               window`lastCongestionDetectedT, window`lastSlowUpdateT, window`lastCwndUpdateT, window`cwndI,
               window`cwndIHistIx, window`maxBytesInFlight, window`maxBytesInFlightPrev,
               window`maxBytesInFlightHistIx, window`bytesNewlyAcked, window`bytesNewlyAckedCe, window`ceDensity,
               window`fractionMarked, window`l4sAlpha, window`virtualL4sAlpha, window`lastL4sAlphaUpdateT,
               window`lastLossEventT, window`bytesDeliveredThisRtt, window`packetsDeliveredThisRtt,
               window`packetsMarkedThisRtt, window.cwndIHist, window.maxBytesInFlightHist
      ensures Valid() && !isCeThisFeedback
      ensures var d := Digest(time, net, old(isCeThisFeedback), old(window.lossEvent), old(window.AllMarked(time, net)));
              && reaction == ReactionTo(old(window.lastLossEventT), d)
              && window.lastLossEventT == LastEvent(old(window.lastLossEventT), d)
      ensures updated <==> old(window.Due(time, net)) || reaction != Calm || old(isNewFrame)
      ensures isNewFrame == (old(isNewFrame) && !updated) && !window.Congested()
      ensures !updated ==> window.cwnd == old(window.cwnd) && last == old(last)
      ensures updated ==> window.bytesNewlyAcked == window.bytesNewlyAckedCe == 0
      ensures updated ==> last == SnapshotOf(ledger.Abs(), ledger.tally, books)
      ensures updated ==>
                window.UpdatedWithin(net, old(window.cwnd), base, start, reacted, reaction, clamped, old(window.cwndI),
                                     old(window.bytesNewlyAcked), old(window.bytesNewlyAckedCe))
      ensures window.Averaged(time, net, old(isCeThisFeedback), old(window.MarksNow()))
      ensures updated ==> base >= 1 && base == window.LimitedWindow(time, net, old(window.cwnd), old(window.Now()))
                          && window.Aftermath(time, net, base, reaction, old(window.Now()))
      ensures !old(window.SlowDue(time)) ==>
                window.maxBytesInFlight == old(window.maxBytesInFlight)
                && window.maxBytesInFlightPrev == old(window.maxBytesInFlightPrev)
                && window.lastSlowUpdateT == old(window.lastSlowUpdateT)
    {
      hide InFlightLedger.Valid, InFlightLedger.Abs, WindowControl.Valid, Sub32, Kept, Balanced, WindowControl.UpdatedWithin,
           WindowControl.RoomAtLimit, WindowControl.SlowDue, WindowControl.Due, WindowControl.LongCalm, WindowControl.Now,
           WindowControl.MarksNow, WindowControl.Averaged, WindowControl.Aftermath, WindowControl.LimitedWindow;
      KeptBalanced(ledger.Abs(), ledger.tally, books, last, window.bytesNewlyAcked, window.bytesNewlyAckedCe);
      window.PendingIsReaction(time, net, isCeThisFeedback);
      updated, base, start, reacted, reaction, clamped := window.IncomingLast(time, net, isCeThisFeedback, isNewFrame);
      isCeThisFeedback := false;
      if updated {
        isNewFrame := false;
        SnapshotKept(ledger.Abs(), ledger.tally, books);
        last := SnapshotOf(ledger.Abs(), ledger.tally, books);
      }
    }

    /** What the window's counters become with a reported element: bytes credited and bytes CE marked since the last update. */
    ghost predicate CountersWith(acked: int, marked: int, e: Event)
      requires ledger.txPackets.Length == 4096 && e.Reported?
      reads ledger, ledger.txPackets, window`bytesNewlyAcked, window`bytesNewlyAckedCe
    {
      && acked == window.bytesNewlyAcked + CreditOf(ledger.Abs(), e)
      && marked == window.bytesNewlyAckedCe + MarkedOf(ledger.Abs(), e)
    }

    /** One received report element. The window is updated from exactly the bytes that the ledger credited and that were
        reported as CE marked since the last update. */
    method ReportElement(time: uint32, net: Net, sn: uint16, ghost rxTime: uint32, ceBits: nat, isLast: bool)
      returns (updated: bool, ghost base: int, ghost start: int, ghost reacted: int, ghost reaction: Reaction,
               ghost clamped: bool, ghost acked: int, ghost marked: int)
      requires Valid() && Sane(net)
      requires isLast ==> ledger.bytesInFlight >= 1 || window.RoomAtLimit(time, net)
      modifies this, ledger, ledger.txPackets, window, window.cwndIHist, window.maxBytesInFlightHist
      ensures Valid()
      ensures ledger.Abs() == Step(old(ledger.Abs()), Reported(sn, rxTime, ceBits, isLast))
      ensures books == StepBooks(old(ledger.Abs()), old(books), Reported(sn, rxTime, ceBits, isLast))
      ensures old(CountersWith(acked, marked, Reported(sn, rxTime, ceBits, isLast)))
      ensures !updated ==> window.cwnd == old(window.cwnd) && last == old(last)
      ensures updated ==> isLast && last == SnapshotOf(ledger.Abs(), ledger.tally, books)
      ensures isLast ==> (updated <==> old(window.Due(time, net)) || reaction != Calm || old(isNewFrame))
      ensures updated ==>
                window.UpdatedWithin(net, old(window.cwnd), base, start, reacted, reaction, clamped, old(window.cwndI),
                                     acked, marked)
    {
      hide InFlightLedger.Valid, InFlightLedger.Abs, WindowControl.Valid, Sub32, Kept, Balanced, WindowControl.UpdatedWithin,
           WindowControl.SlowDue, WindowControl.Due, WindowControl.LongCalm, WindowControl.RateWindow, Step, StepTally,
           StepBooks, CreditOf, MarkedOf, Acknowledges, WindowControl.Now, WindowControl.MarksNow, WindowControl.Averaged,
           WindowControl.Aftermath, WindowControl.LimitedWindow, WindowControl.AllMarked, ReactionTo, LastEvent, SnapshotOf;
      ledger.InFlightCovered();
      acked := window.bytesNewlyAcked + CreditOf(ledger.Abs(), Reported(sn, rxTime, ceBits, isLast));
      marked := window.bytesNewlyAckedCe + MarkedOf(ledger.Abs(), Reported(sn, rxTime, ceBits, isLast));
      CountElement(time, net, sn, rxTime, ceBits, isLast);
      updated, base, start, reacted, reaction, clamped := false, window.cwnd, window.cwnd, window.cwnd, Calm, false;
      if isLast {
        updated, base, start, reacted, reaction, clamped := FinishBlock(time, net);
      }
    }

    /** The ledger's part of an element: whether it acknowledged a packet, of what size, what was credited, and whether packets
        were declared lost. */
    method Settle(sn: uint16, ghost rxTime: uint32, ghost ceBits: nat, isLast: bool)
      returns (acked: bool, size: nat, credited: nat, lost: bool)
      requires ledger.Valid() && |ledger.Abs().slots| == 4096
      modifies ledger, ledger.txPackets
      ensures var l, e := old(ledger.Abs()), Reported(sn, rxTime, ceBits, isLast);
              && ledger.Valid() && ledger.Abs() == Step(l, e) && ledger.tally == StepTally(l, old(ledger.tally), e)
              && acked == Acknowledges(l, sn) && size == l.slots[Slot(sn)].size && credited == CreditOf(l, e)
      ensures lost <==> ledger.packetLost > old(ledger.packetLost)
      ensures ledger.bytesInFlight <= old(ledger.bytesInFlight)
      ensures ledger.lastTransmitT == old(ledger.lastTransmitT) && ledger.nextTransmitT == old(ledger.nextTransmitT)
    {
      hide InFlightLedger.Valid, Report, TallyReport, Balanced;
      ghost var l, y, e := ledger.Abs(), ledger.tally, Reported(sn, rxTime, ceBits, isLast);
      ReportTallies(l, y, NO_BOOKS, e);
      ledger.OnlySendingRaises(e);
      var p := ledger.txPackets[sn % 4096];
      acked, size := p.isUsed && !p.isAcked && p.seqNr == sn, p.size;
      var before, lostBefore := ledger.bytesAcked, ledger.packetLost;
      ledger.ReportInPlace(sn, rxTime, ceBits, isLast);
      credited, lost := ledger.bytesAcked - before, ledger.packetLost > lostBefore;
    }
  }

  lemma MarkedIs(l: Ledger, e: Event)
    requires |l.slots| == 4096 && e.Reported?
    ensures MarkedOf(l, e) == if Acknowledges(l, e.sn) && e.ceBits == 3 then l.slots[Slot(e.sn)].size else 0
  {
  }
}
