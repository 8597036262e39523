/** When a packet is declared lost, in unbounded times: the clocks of the ledger wrap, and the frame clock follows only
    small steps. */
module LossTimes {
  import opened Serial
  import opened TxRing
  import opened InFlight
  import opened Lifted

  /** When a packet was sent, and the frame timestamp it carries. */
  datatype Stamp = Stamp(sentAt: int, frame: int)

  /** What the 32-bit ledger does not know: the times of each slot's packet, and of every acknowledged one in order. */
  datatype Times = Times(slots: seq<Stamp>, settled: seq<Stamp>)

  datatype TEvent =
    | TSent(u: int, at: Stamp, size: nat, mark: bool)
    | TReported(u: int, rxTime: uint32, ceBits: nat, isLast: bool)
    | TTimedOut
    | TRateUpdated

  /** The event with wrapped times. */
  function Plain(e: TEvent): LEvent {
    match e
    case TSent(u, at, size, mark) => LSent(u, Wrap32(at.sentAt), size, mark, Wrap32(at.frame))
    case TReported(u, rxTime, ceBits, isLast) => LReported(u, rxTime, ceBits, isLast)
    case TTimedOut => LTimedOut
    case TRateUpdated => LRateUpdated
  }

  function TStep(l: Ledger, c: Times, e: TEvent): (r: Times)
    requires |l.slots| == |c.slots| == 4096
    ensures |r.slots| == 4096
  {
    match e
    case TSent(u, at, _, _) => c.(slots := c.slots[Slot(u) := at])
    case TReported(u, _, _, _) =>
      if Acknowledges(l, Wrap16(u)) then c.(settled := c.settled + [c.slots[Slot(u)]]) else c
    case _ => c
  }

  /** When the last acknowledged packet was sent; 0 before the first. */
  function LastSentAt(settled: seq<Stamp>): int {
    if settled == [] then 0 else settled[|settled| - 1].sentAt
  }

  /** The highest acknowledged frame timestamp, or 0. */
  function TopFrame(settled: seq<Stamp>): int {
    if settled == [] then 0 else Max(TopFrame(settled[..|settled| - 1]), settled[|settled| - 1].frame)
  }

  /** No acknowledged frame was 50000 or more ticks ahead of the highest one before it, and none almost a whole cycle behind. */
  ghost predicate SmallSteps(settled: seq<Stamp>) {
    settled == []
    || var front, frame := settled[..|settled| - 1], settled[|settled| - 1].frame;
       SmallSteps(front) && 50000 - 4294967296 <= frame - TopFrame(front) < 50000
  }

  /** The ledger's clocks are the wrapped times of the acknowledgements; its frame clock is, after small steps only. */
  ghost predicate Agree(l: Ledger, c: Times) {
    && |l.slots| == |c.slots| == 4096
    && (forall k :: 0 <= k < 4096 && l.slots[k].isUsed ==>
          l.slots[k].timeTx == Wrap32(c.slots[k].sentAt) && l.slots[k].timeStamp == Wrap32(c.slots[k].frame))
    && |c.settled| == |l.acks|
    && l.timeTxAck == Wrap32(LastSentAt(c.settled))
    && (SmallSteps(c.settled) ==> l.timeStampAckHigh == Wrap32(TopFrame(c.settled)))
  }

  /** The frame clock follows the highest acknowledged timestamp exactly through steps of less than 50000 ticks. */
  lemma FrameFollowsIff(top: int, frame: int)
    requires 50000 - 4294967296 <= frame - top < 4294967296
    ensures (if Sub32(Wrap32(frame), Wrap32(top)) < 50000 then Wrap32(frame) else Wrap32(top)) == Wrap32(Max(top, frame))
            <==> frame - top < 50000
  {
    var p: int, q: int := frame / 4294967296, top / 4294967296;
    assert frame == 4294967296 * p + Wrap32(frame) && top == 4294967296 * q + Wrap32(top);
    assert p - q == 0 || p - q == 1 || p - q == -1;
  }

  lemma AgreeStep(l: Ledger, x: Lift, c: Times, e: TEvent)
    requires Agree(l, c)
    ensures Agree(Step(l, Project(Plain(e))), TStep(l, c, e))
  {
    match e
    case TSent(u, _, _, _) => WrappedSlot(u);
    case TReported(u, rxTime, ceBits, isLast) =>
      MarkedAgree(l, c, e);
      var marked := MarkAcked(l, Wrap16(u), rxTime, ceBits);
      DetectedAgree(marked, TStep(l, c, e), Wrap16(u));
    case _ =>
  }

  lemma MarkedAgree(l: Ledger, c: Times, e: TEvent)
    requires Agree(l, c) && e.TReported?
    ensures Agree(MarkAcked(l, Wrap16(e.u), e.rxTime, e.ceBits), TStep(l, c, e))
  {
    WrappedSlot(e.u);
    var c' := TStep(l, c, e);
    if Acknowledges(l, Wrap16(e.u)) {
      assert c'.settled[..|c.settled|] == c.settled;
      if SmallSteps(c'.settled) {
        FrameFollowsIff(TopFrame(c.settled), c.slots[Slot(e.u)].frame);
      }
    }
  }

  lemma DetectedAgree(l: Ledger, c: Times, h: uint16)
    requires Agree(l, c)
    ensures Agree(DetectLoss(l, h), c)
  {
    hide SmallSteps, TopFrame, LastSentAt, InStretch, LateOpen, AtOrBelow;
  }

  // ---------- When a packet is lost ----------

  /** The time at which a packet becomes overdue: 1966 ticks, 30 ms, after it was sent, and 65536/90000 more for each tick
      by which its frame precedes the highest acknowledged one. */
  function Deadline(p: Stamp, top: int): int {
    p.sentAt + 1966 + 65536 * ((top - p.frame) % 4294967296) / 90000
  }

  /** Lost once the last acknowledged packet was sent after the deadline, if the two lie in the same cycle of the 32-bit
      clock; in different cycles the comparison is the wrong way round. */
  ghost predicate Overdue(p: Stamp, last: int, top: int) {
    if Deadline(p, top) / 4294967296 == last / 4294967296 then Deadline(p, top) < last else Deadline(p, top) > last
  }

  lemma CorrectionLifted(frame: int, top: int)
    ensures Sub32(Wrap32(top), Wrap32(frame)) == (top - frame) % 4294967296
  {
    var p: int, q: int := frame / 4294967296, top / 4294967296;
    assert Wrap32(top) - Wrap32(frame) == top - frame + 4294967296 * (p - q);
    Turns32(top - frame, p - q);
  }

  lemma Turns32(x: int, m: int)
    ensures (x + 4294967296 * m) % 4294967296 == x % 4294967296
  {
  }

  lemma WrapThenAdd32(a: int, b: int)
    ensures Wrap32(Wrap32(a) + b) == Wrap32(a + b)
  {
    assert Wrap32(a) + b == a + b + 4294967296 * (-(a / 4294967296));
    Turns32(a + b, -(a / 4294967296));
  }

  lemma LessIff(a: int, b: int)
    requires -4294967296 < a - b < 4294967296
    ensures Wrap32(a) < Wrap32(b) <==> if a / 4294967296 == b / 4294967296 then a < b else a > b
  {
    var p: int, q: int := a / 4294967296, b / 4294967296;
    assert a == 4294967296 * p + Wrap32(a) && b == 4294967296 * q + Wrap32(b);
    assert p - q == 0 || p - q == 1 || p - q == -1;
  }

  lemma LateIff(p: Transmitted, s: Stamp, last: int, top: int)
    requires p.timeTx == Wrap32(s.sentAt) && p.timeStamp == Wrap32(s.frame)
    requires -4294967296 < Deadline(s, top) - last < 4294967296
    ensures Late(p, Wrap32(last), Wrap32(top)) <==> Overdue(s, last, top)
  {
    CorrectionLifted(s.frame, top);
    WrapThenAdd32(s.sentAt, 1966 + 65536 * ((top - s.frame) % 4294967296) / 90000);
    LessIff(Deadline(s, top), last);
    hide Wrap32, Sub32;
  }

  /** What detectLoss makes of an open packet, wherever it is in the ring: behind the loss window it is lost, in the scanned
      stretch it is lost if and only if it is overdue, and elsewhere nothing happens to it. */
  lemma SlotFate(l: Ledger, c: Times, h: uint16, k: nat)
    requires Agree(l, c) && SmallSteps(c.settled) && k < 4096 && Open(l.slots[k])
    requires -4294967296 < Deadline(c.slots[k], TopFrame(c.settled)) - LastSentAt(c.settled) < 4294967296
    ensures var r := DetectLoss(l, h).slots[k];
            if InStretch(DropStart(l.hiSeqAck, h), DropLength(l.hiSeqAck, h), k) then !r.isUsed
            else if InStretch(ScanStart(l.hiSeqAck, h), ScanLength(l.hiSeqAck, h), k)
            then r.isUsed == !Overdue(c.slots[k], LastSentAt(c.settled), TopFrame(c.settled))
            else r == l.slots[k]
  {
    LateIff(l.slots[k], c.slots[k], LastSentAt(c.settled), TopFrame(c.settled));
    hide Late, Overdue, Deadline, SmallSteps, InStretch, DropStart, DropLength, ScanStart, ScanLength, AtOrBelow, Gate;
  }

  /** The edge moves to u: what becomes of an open packet v up to u, inside the window. */
  lemma ScannedIff(l: Ledger, x: Lift, c: Times, u: int, v: int)
    requires Windowed(l, x) && x.hiAck - 512 <= u <= x.hiTx && x.hiTx < u + 3552
    requires Held(l, x, v) && x.hiAck - 512 <= v <= u
    requires Agree(l, c) && SmallSteps(c.settled)
    requires var (s, last, top) := (c.slots[Slot(v)], LastSentAt(c.settled), TopFrame(c.settled));
             -4294967296 < Deadline(s, top) - last < 4294967296
    ensures DetectLoss(l, Wrap16(u)).slots[Slot(v)].isUsed
            == !Overdue(c.slots[Slot(v)], LastSentAt(c.settled), TopFrame(c.settled))
    ensures DetectLoss(l, Wrap16(u)).slots[Slot(v)].isAcked == l.slots[Slot(v)].isAcked
  {
    SlotInWindow(x.hiAck, u, v);
    SlotFate(l, c, Wrap16(u), Slot(v));
    DetectLossKeeps(l, Wrap16(u));
    hide DetectLoss, Overdue, Deadline, SmallSteps, InStretch, DropStart, DropLength, ScanStart, ScanLength;
  }

  lemma MarkedWindowed(l: Ledger, x: Lift, u: int, v: int, rxTime: uint32, ceBits: nat)
    requires Windowed(l, x) && Held(l, x, v) && u != v && v < u + 65536 && u < v + 65536
    ensures Windowed(MarkAcked(l, Wrap16(u), rxTime, ceBits), x) && Held(MarkAcked(l, Wrap16(u), rxTime, ceBits), x, v)
  {
    WrappedSlot(u);
    var m: int, n: int := u / 65536, v / 65536;
    assert u == 65536 * m + Wrap16(u) && v == 65536 * n + Wrap16(v);
  }

  /** A report that runs detectLoss, for number u, inside the window: an open packet v of the 512 numbers below the highest
      acknowledged one and up to u is lost if and only if it is overdue, by the acknowledgements so far including u's own;
      otherwise it stays open in its slot. */
  lemma ReportLoses(l: Ledger, x: Lift, c: Times, e: TEvent, v: int)
    requires Windowed(l, x) && Agree(l, c) && e.TReported? && Detects(l, Plain(e))
    requires x.hiAck - 512 <= e.u <= x.hiTx && x.hiTx < e.u + 3552
    requires Held(l, x, v) && x.hiAck - 512 <= v < e.u && v !in x.lost
    requires SmallSteps(TStep(l, c, e).settled)
    requires var settled := TStep(l, c, e).settled;
             -4294967296 < Deadline(c.slots[Slot(v)], TopFrame(settled)) - LastSentAt(settled) < 4294967296
    ensures var (l', x', settled) := (Step(l, Project(Plain(e))), LStep(l, x, Plain(e)), TStep(l, c, e).settled);
            && (v in x'.lost <==> Overdue(c.slots[Slot(v)], LastSentAt(settled), TopFrame(settled)))
            && (v !in x'.lost ==> Held(l', x', v))
  {
    var marked := MarkAcked(l, Wrap16(e.u), e.rxTime, e.ceBits);
    MarkedWindowed(l, x, e.u, v, e.rxTime, e.ceBits);
    MarkedAgree(l, c, e);
    ScannedIff(marked, x, TStep(l, c, e), e.u, v);
    hide DetectLoss, Agree, Overdue, Deadline, SmallSteps, TopFrame, LastSentAt, MarkAcked;
    NewlyLostIff(marked, DetectLoss(marked, Wrap16(e.u)), x, v);
  }

  lemma NewlyLostIff(before: Ledger, after: Ledger, x: Lift, v: int)
    requires |after.slots| == 4096 && Windowed(before, x) && Held(before, x, v)
    ensures v in NewlyLost(before, after, x.ext) <==> !after.slots[Slot(v)].isUsed
  {
  }

  /** Within one cycle of the clock and for a frame no newer than the highest acknowledged one, in plain terms. */
  lemma OverdueMeans(p: Stamp, last: int, top: int)
    requires p.frame <= top < p.frame + 4294967296 && Deadline(p, top) / 4294967296 == last / 4294967296
    ensures Overdue(p, last, top) <==> last - p.sentAt > 1966 + 65536 * (top - p.frame) / 90000
  {
  }

  // ---------- Every run ----------

  ghost function TRun(start: Ledger, origin: Lift, times: Times, events: seq<TEvent>): (r: (Ledger, Lift, Times))
    requires |start.slots| == |origin.ext| == |times.slots| == 4096
    ensures |r.0.slots| == |r.1.ext| == |r.2.slots| == 4096
  {
    if events == [] then (start, origin, times)
    else
      var (l, x, c) := TRun(start, origin, times, events[..|events| - 1]);
      var e := events[|events| - 1];
      (Step(l, Project(Plain(e))), LStep(l, x, Plain(e)), TStep(l, c, e))
  }

  function Plains(events: seq<TEvent>): (r: seq<LEvent>)
    ensures |r| == |events| && forall i :: 0 <= i < |r| ==> r[i] == Plain(events[i])
  {
    seq(|events|, i requires 0 <= i < |events| => Plain(events[i]))
  }

  lemma {:induction false} RunsAgree(start: Ledger, origin: Lift, times: Times, events: seq<TEvent>)
    requires |start.slots| == |origin.ext| == |times.slots| == 4096
    ensures var (l, x, _) := TRun(start, origin, times, events);
            var (l', _, x') := LRun(start, origin, Plains(events));
            l == l' && x == x'
  {
    hide Step, LStep, Plain, StepTally;
    if events != [] {
      var n := |events| - 1;
      RunsAgree(start, origin, times, events[..n]);
      assert Plains(events)[..n] == Plains(events[..n]);
    }
  }

  /** Over every run the ledger's clocks are those of its acknowledgements. */
  lemma {:induction false} RunAgrees(start: Ledger, origin: Lift, times: Times, events: seq<TEvent>)
    requires IsFresh(start) && |start.slots| == |origin.ext| == |times.slots| == 4096 && times.settled == []
    ensures var (l, _, c) := TRun(start, origin, times, events); Agree(l, c)
  {
    hide Step, LStep, TStep, Agree, IsFresh;
    if events == [] {
      FreshAgrees(start, times);
    } else {
      var n := |events| - 1;
      RunAgrees(start, origin, times, events[..n]);
      var (l, x, c) := TRun(start, origin, times, events[..n]);
      AgreeStep(l, x, c, events[n]);
    }
  }

  lemma FreshAgrees(l: Ledger, c: Times)
    requires IsFresh(l) && |c.slots| == 4096 && c.settled == []
    ensures Agree(l, c)
  {
  }

  /** Loss detection over every run inside the window: a report that runs detectLoss declares an open packet v among the 512
      numbers below the edge and up to the reported one lost if and only if it is overdue by the acknowledgements of the run. */
  lemma RunLoses(start: Ledger, origin: Lift, times: Times, events: seq<TEvent>, e: TEvent, v: int)
    requires IsFresh(start) && Unlifted(origin) && |times.slots| == 4096 && times.settled == []
    requires AllWithinWindow(start, origin, Plains(events)) && AllIncreasing(start, origin, Plains(events))
    requires e.TReported?
    requires var (l, x, c) := TRun(start, origin, times, events);
             && Detects(l, Plain(e)) && WithinWindow(l, x, Plain(e))
             && Held(l, x, v) && x.hiAck - 512 <= v < e.u
             && var settled := TStep(l, c, e).settled;
                && SmallSteps(settled)
                && -4294967296 < Deadline(c.slots[Slot(v)], TopFrame(settled)) - LastSentAt(settled) < 4294967296
    ensures var (l, x, c) := TRun(start, origin, times, events);
            var (l', x', settled) := (Step(l, Project(Plain(e))), LStep(l, x, Plain(e)), TStep(l, c, e).settled);
            && (v in x'.lost <==> Overdue(c.slots[Slot(v)], LastSentAt(settled), TopFrame(settled)))
            && (v !in x'.lost ==> Held(l', x', v))
  {
    RunsAgree(start, origin, times, events);
    RunExact(start, origin, Plains(events));
    RunOneFate(start, origin, Plains(events));
    RunAgrees(start, origin, times, events);
    var (l, x, c) := TRun(start, origin, times, events);
    HeldNotLost(l, x, v);
    hide IsFresh, Unlifted, AllWithinWindow, AllIncreasing, TRun, LRun, OneFate, Accounted, Overdue, Deadline;
    ReportLoses(l, x, c, e, v);
  }

  lemma HeldNotLost(l: Ledger, x: Lift, v: int)
    requires OneFate(l, x) && Held(l, x, v)
    ensures v !in x.lost && v !in x.delivered
  {
  }

  /** At one frame per second the frame clock does not follow: a packet of frame 90000 is sent and acknowledged, and the
      clock stays at 0. */
  lemma FrameClockStuck(start: Ledger, t: uint32)
    requires IsFresh(start)
    ensures var (l, _) := Run(start, NO_TALLY, [Sent(t, 1000, 0, true, 90000), Reported(0, t, 0, false)]);
            |l.acks| == 1 && l.timeStampAckHigh == 0
  {
    var sent, reported := Sent(t, 1000, 0, true, 90000), Reported(0, t, 0, false);
    RunNothing(start, NO_TALLY);
    RunOneMore(start, NO_TALLY, [], sent);
    RunOneMore(start, NO_TALLY, [sent], reported);
    assert [] + [sent] == [sent] && [sent] + [reported] == [sent, reported];
    MarkedFresh(start, t);
    hide Run, DetectLoss, DetectLeak;
    FrameKept(MarkAcked(Step(start, sent), 0, t, 0), 0);
  }

  lemma MarkedFresh(start: Ledger, t: uint32)
    requires IsFresh(start)
    ensures var l := MarkAcked(Step(start, Sent(t, 1000, 0, true, 90000)), 0, t, 0);
            |l.slots| == 4096 && |l.acks| == 1 && l.timeStampAckHigh == 0
  {
  }

  lemma FrameKept(l: Ledger, h: uint16)
    requires |l.slots| == 4096
    ensures DetectLoss(l, h).timeStampAckHigh == l.timeStampAckHigh && DetectLoss(l, h).acks == l.acks
  {
    hide InStretch, LateOpen, AtOrBelow;
  }
}
