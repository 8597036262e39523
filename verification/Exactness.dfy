/** When bytesInFlight is the sum it stands for, step by step and over every run. */
module Exactness {
  import opened Serial
  import opened Sums
  import opened TxRing
  import opened InFlight

  /** bytesInFlight is the sum of the sizes of the used slots that are not yet behind the received edge. */
  predicate Exact(l: Ledger) { l.bytesInFlight == InFlightBytes(l.slots) }

  /** Transmitting breaks exactness exactly when it overwrites a packet that still counts. */
  lemma TransmitLeaksIff(l: Ledger, y: Tally, t: uint32, size: nat, sn: uint16, mark: bool, ts: uint32)
    requires Accounted(l, y) && Exact(l)
    ensures var r := Transmit(l, t, size, sn, mark, ts); var p := l.slots[Slot(sn)];
            Exact(r) <==> !Counted(p) || p.size == 0
  {
    TransmitAccounted(l, y, t, size, sn, mark, ts);
  }

  /** detectLoss up to h releases the packet of slot k although it still counts: the packet falls out of the loss window, or
      it lies past the received edge and is acknowledged or late. */
  predicate Forgets(l: Ledger, h: uint16, k: nat)
    requires |l.slots| == 4096 && k < 4096
  {
    var p := l.slots[k];
    && Counted(p) && p.size > 0
    && (|| InStretch(DropStart(l.hiSeqAck, h), DropLength(l.hiSeqAck, h), k)
        || (InStretch(ScanStart(l.hiSeqAck, h), ScanLength(l.hiSeqAck, h), k)
            && !AtOrBelow(p.seqNr, h) && (p.isAcked || LateOpen(p, l))))
  }

  lemma LeakIff(l: Ledger, h: uint16)
    requires |l.slots| == 4096
    ensures DetectLeak(l, h) >= 0
    ensures DetectLeak(l, h) == 0 <==> forall k :: 0 <= k < 4096 ==> !Forgets(l, h, k)
  {
    hide AtOrBelow, Late, InStretch, DropStart, DropLength, ScanStart, ScanLength;
    var lo, d, at, n := DropStart(l.hiSeqAck, h), DropLength(l.hiSeqAck, h), ScanStart(l.hiSeqAck, h), ScanLength(l.hiSeqAck, h);
    var dropped := DropRegion(l, lo, d);
    var a, b := Gate(CountedSizes(l.slots), lo, d), Gate(ScanLeaks(dropped, h), at, n);
    SumNonNegative(a);
    SumNonNegative(b);
    SumZeroIff(a);
    SumZeroIff(b);
    forall k | 0 <= k < 4096
      ensures Forgets(l, h, k) <==> a[k] != 0 || b[k] != 0
    {
    }
  }

  /** detectLoss breaks exactness exactly when it releases a packet that still counts. */
  lemma DetectLeaksIff(l: Ledger, y: Tally, h: uint16)
    requires Accounted(l, y) && Exact(l)
    ensures Exact(DetectLoss(l, h)) <==> forall k :: 0 <= k < 4096 ==> !Forgets(l, h, k)
  {
    hide DetectLoss, DetectLeak, Forgets;
    DetectLossAccounted(l, y, h);
    LeakIff(l, h);
  }

  // ---------- Every run ----------

  /** The event takes a packet out of the ring that still counts. */
  predicate StepForgets(l: Ledger, e: Event)
    requires |l.slots| == 4096
  {
    match e
    case Sent(_, _, sn, _, _) => Counted(l.slots[Slot(sn)]) && l.slots[Slot(sn)].size > 0
    case Reported(sn, rxTime, ceBits, isLast) =>
      && (isLast || (Acknowledges(l, sn) && l.slots[Slot(sn)].isMark))
      && exists k :: 0 <= k < 4096 && Forgets(MarkAcked(l, sn, rxTime, ceBits), sn, k)
    case TimedOut => false
    case RateUpdated => false
  }

  /** Since the last time-out reset, or ever, no event took a packet out of the ring that still counted. */
  predicate NothingForgotten(start: Ledger, events: seq<Event>)
    requires |start.slots| == 4096
  {
    events == []
    || var before, e := events[..|events| - 1], events[|events| - 1];
       e == TimedOut || (NothingForgotten(start, before) && !StepForgets(Run(start, NO_TALLY, before).0, e))
  }

  lemma StepLeaksIff(l: Ledger, y: Tally, e: Event)
    requires Accounted(l, y)
    ensures StepTally(l, y, e).leaked == 0 <==> e == TimedOut || (y.leaked == 0 && !StepForgets(l, e))
  {
    hide Forgets, DetectLeak, InFlightBytes;
    if e.Reported? {
      LeakIff(MarkAcked(l, e.sn, e.rxTime, e.ceBits), e.sn);
    }
  }

  /** Over every run, bytesInFlight is exact if and only if nothing that still counted was forgotten since the last
      time-out reset; otherwise it is too high. */
  lemma {:induction false} RunExactIff(start: Ledger, events: seq<Event>)
    requires IsFresh(start)
    ensures var (l, y) := Run(start, NO_TALLY, events);
            && Accounted(l, y)
            && (y.leaked == 0 <==> NothingForgotten(start, events))
            && (Exact(l) <==> NothingForgotten(start, events))
            && l.bytesInFlight >= InFlightBytes(l.slots)
  {
    hide StepForgets, Step, StepTally, InFlightBytes;
    FreshAccounted(start);
    if events != [] {
      var before, e := events[..|events| - 1], events[|events| - 1];
      RunExactIff(start, before);
      var (l, y) := Run(start, NO_TALLY, before);
      StepAccounted(l, y, e);
      StepLeaksIff(l, y, e);
    }
  }

  // ---------- Runs that are not exact; the numbers in between were given to packets that the queue discarded ----------

  /** One packet a whole ring turn ahead of another: overwriting leaves its bytes in flight for good. */
  lemma OverwriteForgets(start: Ledger, t: uint32)
    requires IsFresh(start)
    ensures var l := Run(start, NO_TALLY, [Sent(t, 1000, 1, false, 0), Sent(t, 1000, 4097, false, 0)]).0;
            !Exact(l) && l.bytesInFlight == 2000
  {
    var e1, e2 := Sent(t, 1000, 1, false, 0), Sent(t, 1000, 4097, false, 0);
    TwoEvents(start, e1, e2);
    RunExactIff(start, [e1, e2]);
  }

  lemma TwoEvents(start: Ledger, e1: Event, e2: Event)
    requires |start.slots| == 4096
    ensures Run(start, NO_TALLY, [e1]).0 == Step(start, e1)
    ensures Run(start, NO_TALLY, [e1, e2]).0 == Step(Step(start, e1), e2)
    ensures [e1, e2][..1] == [e1]
  {
    hide Step, StepTally;
    RunOneMore(start, NO_TALLY, [], e1);
    RunOneMore(start, NO_TALLY, [e1], e2);
    assert [] + [e1] == [e1] && [e1] + [e2] == [e1, e2];
  }

  /** A packet sent 3560 ahead of the received edge lies in the stretch that detectLoss drops when the edge first moves. */
  lemma DropForgets(start: Ledger, t: uint32)
    requires IsFresh(start)
    ensures var l := Run(start, NO_TALLY,
                         [Sent(t, 1000, 40, false, 0), Sent(t, 1000, 3560, false, 0), Reported(40, t, 0, true)]).0;
            !Exact(l)
  {
    var e1, e2, e3 := Sent(t, 1000, 40, false, 0), Sent(t, 1000, 3560, false, 0), Reported(40, t, 0, true);
    var all := [e1, e2, e3];
    assert all[..2] == [e1, e2];
    TwoEvents(start, e1, e2);
    var l := Run(start, NO_TALLY, [e1, e2]).0;
    assert l.hiSeqAck == 0 && l.slots[3560].size == 1000 && Counted(l.slots[3560]);
    assert DropStart(0, 40) == 3552 && DropLength(0, 40) == 32 && InStretch(3552, 32, 3560);
    assert Forgets(MarkAcked(l, 40, t, 0), 40, 3560);
    RunExactIff(start, all);
  }
}
