/** The ledger seen through unbounded sequence numbers: when bytesInFlight is exact, and why no
    packet is counted twice. */
module Lifted {
  import opened Serial
  import opened Sums
  import opened TxRing
  import opened InFlight

  /** What the 16-bit ledger does not know: the unbounded number of each slot's packet, of the highest
      acknowledged packet and of the last transmitted one, and the packets delivered and lost so far. */
  datatype Lift = Lift(ext: seq<int>, hiAck: int, hiTx: int, delivered: set<int>, lost: set<int>)

  datatype LEvent =
    | LSent(u: int, t: uint32, size: nat, mark: bool, ts: uint32)
    | LReported(u: int, rxTime: uint32, ceBits: nat, isLast: bool)
    | LTimedOut
    | LRateUpdated

  /** The event as the ledger sees it, with 16-bit numbers. */
  function Project(e: LEvent): Event {
    match e
    case LSent(u, t, size, mark, ts) => Sent(t, size, Wrap16(u), mark, ts)
    case LReported(u, rxTime, ceBits, isLast) => Reported(Wrap16(u), rxTime, ceBits, isLast)
    case LTimedOut => TimedOut
    case LRateUpdated => RateUpdated
  }

  /** The report runs detectLoss. */
  predicate Detects(l: Ledger, e: LEvent)
    requires |l.slots| == 4096
  {
    e.LReported? && (e.isLast || (Acknowledges(l, Wrap16(e.u)) && l.slots[Slot(Wrap16(e.u))].isMark))
  }

  /** The packets that were open before and are no longer used: the lost ones. */
  function NewlyLost(before: Ledger, after: Ledger, ext: seq<int>): set<int>
    requires |before.slots| == |after.slots| == |ext|
  {
    set k | 0 <= k < |ext| && Open(before.slots[k]) && !after.slots[k].isUsed :: ext[k]
  }

  function LStep(l: Ledger, x: Lift, e: LEvent): (r: Lift)
    requires |l.slots| == |x.ext| == 4096
    ensures |r.ext| == 4096
  {
    match e
    case LSent(u, _, _, _, _) => x.(ext := x.ext[Slot(u) := u], hiTx := u)
    case LReported(u, rxTime, ceBits, _) =>
      var sn := Wrap16(u);
      var marked := MarkAcked(l, sn, rxTime, ceBits);
      var x' := if Acknowledges(l, sn) then x.(delivered := x.delivered + {x.ext[Slot(sn)]}) else x;
      if Detects(l, e)
      then x'.(hiAck := u, lost := x'.lost + NewlyLost(marked, DetectLoss(marked, sn), x.ext))
      else x'
    case _ => x
  }

  /** Sequence numbers are transmitted in increasing order. */
  predicate Increasing(x: Lift, e: LEvent) { e.LSent? ==> x.hiTx < e.u }

  /** Transmission stays under 4096 - 544 ahead of the highest acknowledged number, and the received
      edge never moves back by more than 512. */
  predicate WithinWindow(l: Ledger, x: Lift, e: LEvent)
    requires |l.slots| == 4096
  {
    && (e.LSent? ==> x.hiTx < e.u < x.hiAck + 3552)
    && (Detects(l, e) ==> x.hiAck - 512 <= e.u <= x.hiTx && x.hiTx < e.u + 3552)
  }

  /** ext holds the unbounded number of every used slot's packet, none beyond hiTx. */
  ghost predicate Describes(l: Ledger, ext: seq<int>, hiTx: int) {
    && |l.slots| == |ext| == 4096
    && forall k :: 0 <= k < 4096 && l.slots[k].isUsed ==>
         ext[k] % 4096 == k && Wrap16(ext[k]) == l.slots[k].seqNr && ext[k] <= hiTx
  }

  /** Every used slot not yet credited is at or above 512 below the highest acknowledged number. */
  ghost predicate Windowed(l: Ledger, x: Lift) {
    && Describes(l, x.ext, x.hiTx)
    && Wrap16(x.hiAck) == l.hiSeqAck
    && x.hiAck <= x.hiTx + 1 && x.hiTx < x.hiAck + 3552
    && forall k :: 0 <= k < 4096 && Counted(l.slots[k]) ==> x.hiAck - 512 <= x.ext[k]
  }

  /** The packet with unbounded number u is in its slot, and its fate is open. */
  ghost predicate Held(l: Ledger, x: Lift, u: int)
    requires |l.slots| == |x.ext| == 4096
  {
    x.ext[Slot(u)] == u && Open(l.slots[Slot(u)])
  }

  lemma AtOrBelowLifted(e: int, h: int)
    requires e <= h <= e + 20000
    ensures AtOrBelow(Wrap16(e), Wrap16(h))
  {
  }

  lemma RingTurns(a: int, m: int)
    ensures (a + 4096 * m) % 4096 == a % 4096
  {
  }

  /** 16-bit wrapping does not disturb ring positions: 4096 divides 65536. */
  lemma WrappedPosition(a: int, b: int)
    ensures (Wrap16(a) - b) % 4096 == (a - b) % 4096
  {
    RingTurns(a - b, -16 * (a / 65536));
  }

  lemma WrappedSlot(u: int)
    ensures Slot(Wrap16(u)) == Slot(u)
  {
    WrappedPosition(u, 0);
  }

  /** A number less than one ring turn past lo lies at its own distance from lo's position. */
  lemma RingDistance(lo: int, e: int, a: int)
    requires lo <= e < lo + 4096 && a % 4096 == lo % 4096
    ensures Distance(a, e) == Distance(a, e % 4096) == e - lo
  {
    var m: int, n: int := (a - lo) / 4096, e / 4096;
    assert a == lo + 4096 * m;
    RingTurns(e - lo, -m);
    assert e % 4096 - a == (e - lo) + 4096 * (-n - m);
    RingTurns(e - lo, -n - m);
  }

  lemma EdgeDistance(lo: int, u: int, a: int)
    requires lo <= u < lo + 4096 && a % 4096 == lo % 4096
    ensures Distance(a, Wrap16(u)) == u - lo
  {
    RingDistance(lo, u, a);
    WrappedPosition(u, a);
  }

  lemma StartsLifted(hiAck: int, d: nat)
    ensures var s := (Wrap16(hiAck) - 512 - d) % 4096;
            && s % 4096 == (hiAck - 512 - d) % 4096
            && (s + d) % 4096 == (hiAck - 512) % 4096
  {
    WrappedPosition(hiAck, 512 + d);
    var x: int := hiAck - 512 - d;
    var q: int := x / 4096;
    assert x % 4096 + d == hiAck - 512 + 4096 * (-q);
    RingTurns(hiAck - 512, -q);
  }

  /** Where detectLoss's two stretches start, in unbounded numbers. */
  lemma StretchesLifted(hiAck: int, h: uint16)
    ensures var a := Wrap16(hiAck);
            && DropStart(a, h) % 4096 == (hiAck - 512 - DropLength(a, h)) % 4096
            && ScanStart(a, h) % 4096 == (hiAck - 512) % 4096
  {
    var a := Wrap16(hiAck);
    StartsLifted(hiAck, DropLength(a, h));
    StartsFrom(a, h, DropLength(a, h));
  }

  lemma StartsFrom(a: uint16, h: uint16, d: nat)
    requires d == DropLength(a, h)
    ensures DropStart(a, h) == (a as int - 512 - d) % 4096
    ensures ScanStart(a, h) == (a as int - 512 - d) % 4096 + d
  {
    hide DropLength;
  }

  /** Inside the window, a counted packet is out of the dropped stretch, and scanned exactly when the edge has passed it. */
  lemma SlotInWindow(hiAck: int, u: int, e: int)
    requires hiAck - 512 <= u < hiAck + 3552
    requires hiAck - 512 <= e < hiAck + 3552
    ensures var a, h := Wrap16(hiAck), Wrap16(u);
            && !InStretch(DropStart(a, h), DropLength(a, h), e % 4096)
            && (InStretch(ScanStart(a, h), ScanLength(a, h), e % 4096) <==> e <= u)
            && (e <= u ==> AtOrBelow(Wrap16(e), h))
  {
    var a, h := Wrap16(hiAck), Wrap16(u);
    StretchesLifted(hiAck, h);
    EdgeDistance(hiAck - 512, u, ScanStart(a, h));
    RingDistance(hiAck - 512 - DropLength(a, h), e, DropStart(a, h));
    RingDistance(hiAck - 512, e, ScanStart(a, h));
    if e <= u {
      AtOrBelowLifted(e, u);
    }
  }

  /** Inside the window, detectLoss removes no packet it has not credited. */
  lemma DetectLossExact(l: Ledger, x: Lift, u: int)
    requires Windowed(l, x) && x.hiAck - 512 <= u <= x.hiTx && x.hiTx < u + 3552
    ensures DetectLeak(l, Wrap16(u)) == 0
    ensures Windowed(DetectLoss(l, Wrap16(u)), x.(hiAck := u))
  {
    var h := Wrap16(u);
    var lo, d := DropStart(l.hiSeqAck, h), DropLength(l.hiSeqAck, h);
    var at, n := ScanStart(l.hiSeqAck, h), ScanLength(l.hiSeqAck, h);
    forall k | 0 <= k < 4096 && Counted(l.slots[k])
      ensures !InStretch(lo, d, k)
      ensures InStretch(at, n, k) <==> x.ext[k] <= u
      ensures x.ext[k] <= u ==> AtOrBelow(l.slots[k].seqNr, h)
    {
      SlotInWindow(x.hiAck, u, x.ext[k]);
    }
    SumZero(Gate(CountedSizes(l.slots), lo, d));
    SumZero(Gate(ScanLeaks(DropRegion(l, lo, d), h), at, n));
  }

  /** Overwriting a slot inside the window forgets no packet that still counts. */
  lemma TransmitExact(l: Ledger, x: Lift, u: int)
    requires Windowed(l, x) && x.hiTx < u < x.hiAck + 3552
    ensures !Counted(l.slots[Slot(Wrap16(u))])
  {
    WrappedSlot(u);
    var k := Slot(u);
    if Counted(l.slots[k]) {
      RingDistance(x.ext[k], u, x.ext[k]);
      RingDistance(x.ext[k], x.ext[k], x.ext[k]);
    }
  }

  /** Inside the window no byte leaks, so bytesInFlight stays exact. */
  lemma StepExact(l: Ledger, y: Tally, x: Lift, e: LEvent)
    requires Windowed(l, x) && WithinWindow(l, x, e)
    ensures Windowed(Step(l, Project(e)), LStep(l, x, e))
    ensures y.leaked == 0 ==> StepTally(l, y, Project(e)).leaked == 0
  {
    match e
    case LSent(u, _, _, _, _) =>
      TransmitExact(l, x, u);
      WrappedSlot(u);
    case LReported(u, rxTime, ceBits, _) =>
      if Detects(l, e) {
        var marked := MarkAcked(l, Wrap16(u), rxTime, ceBits);
        assert Windowed(marked, x);
        DetectLossExact(marked, x, u);
      }
    case _ =>
  }

  // ---------- Runs ----------

  /** Nothing transmitted yet. */
  ghost predicate Unlifted(x: Lift) {
    |x.ext| == 4096 && x.hiAck == 0 && x.hiTx == -1 && x.delivered == x.lost == {}
  }

  function LRun(start: Ledger, origin: Lift, events: seq<LEvent>): (r: (Ledger, Tally, Lift))
    requires |start.slots| == |origin.ext| == 4096
    ensures |r.0.slots| == |r.2.ext| == 4096
  {
    if events == [] then (start, NO_TALLY, origin)
    else
      var (l, y, x) := LRun(start, origin, events[..|events| - 1]);
      var e := events[|events| - 1];
      (Step(l, Project(e)), StepTally(l, y, Project(e)), LStep(l, x, e))
  }

  /** Every event of the run kept to the window. */
  ghost predicate AllWithinWindow(start: Ledger, origin: Lift, events: seq<LEvent>)
    requires |start.slots| == |origin.ext| == 4096
  {
    events == []
    || var (l, _, x) := LRun(start, origin, events[..|events| - 1]);
       AllWithinWindow(start, origin, events[..|events| - 1]) && WithinWindow(l, x, events[|events| - 1])
  }

  ghost predicate AllIncreasing(start: Ledger, origin: Lift, events: seq<LEvent>)
    requires |start.slots| == |origin.ext| == 4096
  {
    events == []
    || var (_, _, x) := LRun(start, origin, events[..|events| - 1]);
       AllIncreasing(start, origin, events[..|events| - 1]) && Increasing(x, events[|events| - 1])
  }

  /** In-flight exactness: as long as transmission and acknowledgement keep to the window, bytesInFlight is
      at all times the sum of the sizes of the used slots that are not yet behind the received edge. */
  lemma {:induction false} RunExact(start: Ledger, origin: Lift, events: seq<LEvent>)
    requires IsFresh(start) && Unlifted(origin) && AllWithinWindow(start, origin, events)
    ensures var (l, y, x) := LRun(start, origin, events);
            && Accounted(l, y) && Windowed(l, x)
            && y.leaked == 0 && l.bytesInFlight == InFlightBytes(l.slots)
  {
    if events == [] {
      FreshAccounted(start);
    } else {
      var before, e := events[..|events| - 1], events[|events| - 1];
      RunExact(start, origin, before);
      var (l, y, x) := LRun(start, origin, before);
      StepAccounted(l, y, Project(e));
      StepExact(l, y, x, e);
    }
  }

  // ---------- One fate per packet ----------

  /** Each transmitted packet is delivered, lost, or still open, and never two of these. */
  ghost predicate OneFate(l: Ledger, x: Lift) {
    && Describes(l, x.ext, x.hiTx)
    && x.delivered !! x.lost
    && (forall u :: u in x.delivered || u in x.lost ==> u <= x.hiTx)
    && (forall k :: 0 <= k < 4096 && Open(l.slots[k]) ==> x.ext[k] !in x.delivered && x.ext[k] !in x.lost)
    && |x.delivered| == |l.acks|
    && |x.lost| == l.packetLost
  }

  /** The numbers of the slots with weight 1. */
  function Selected(ext: seq<int>, w: seq<int>): set<int>
    requires |ext| == |w|
  {
    set k | 0 <= k < |w| && w[k] == 1 :: ext[k]
  }

  lemma SelectedFront(ext: seq<int>, w: seq<int>)
    requires |ext| == |w| && w != []
    ensures var n := |w| - 1;
            Selected(ext, w) == Selected(ext[..n], w[..n]) + if w[n] == 1 then {ext[n]} else {}
  {
    var n := |w| - 1;
    forall u | u in Selected(ext, w)
      ensures u in Selected(ext[..n], w[..n]) || (w[n] == 1 && u == ext[n])
    {
      var k :| 0 <= k < |w| && w[k] == 1 && ext[k] == u;
      assert k < n ==> w[..n][k] == 1 && ext[..n][k] == u;
    }
    forall u | u in Selected(ext[..n], w[..n])
      ensures u in Selected(ext, w)
    {
      var k :| 0 <= k < n && w[..n][k] == 1 && ext[..n][k] == u;
      assert w[k] == 1 && ext[k] == u;
    }
  }

  /** The slots selected by a 0/1 weighting carry as many different numbers as the weights sum to. */
  lemma {:induction false} CountSelected(ext: seq<int>, w: seq<int>)
    requires |ext| == |w|
    requires forall k :: 0 <= k < |w| ==> w[k] == 0 || w[k] == 1
    requires forall i, k :: 0 <= i < k < |w| && w[i] == 1 && w[k] == 1 ==> ext[i] != ext[k]
    ensures |Selected(ext, w)| == Sum(w)
  {
    if w == [] {
      assert Selected(ext, w) == {};
    } else {
      var n := |w| - 1;
      CountSelected(ext[..n], w[..n]);
      SelectedFront(ext, w);
      if w[n] == 1 {
        forall k | 0 <= k < n && w[..n][k] == 1
          ensures ext[..n][k] != ext[n]
        {
          assert w[k] == 1;
        }
        assert ext[n] !in Selected(ext[..n], w[..n]);
      }
    }
  }

  lemma LossTotals(l: Ledger, h: uint16)
    requires |l.slots| == 4096
    ensures DetectLoss(l, h).packetLost - l.packetLost == OpenCount(l.slots) - OpenCount(DetectLoss(l, h).slots)
  {
    hide OpenCount, InFlightBytes, DropStart, DropLength, ScanStart, ScanLength;
    var lo, d := DropStart(l.hiSeqAck, h), DropLength(l.hiSeqAck, h);
    DropTotals(l, lo, d);
    ScanTotals(DropRegion(l, lo, d), ScanStart(l.hiSeqAck, h), ScanLength(l.hiSeqAck, h), h);
  }

  /** detectLoss counts as lost exactly the open packets it removes. */
  lemma LossesCounted(l: Ledger, ext: seq<int>, h: uint16)
    requires |l.slots| == |ext| == 4096
    requires forall i, k :: 0 <= i < k < 4096 && l.slots[i].isUsed && l.slots[k].isUsed ==> ext[i] != ext[k]
    ensures |NewlyLost(l, DetectLoss(l, h), ext)| == DetectLoss(l, h).packetLost - l.packetLost
  {
    LossTotals(l, h);
    DetectLossKeeps(l, h);
    hide DetectLoss;
    var after := DetectLoss(l, h);
    var gone := seq(4096, k requires 0 <= k < 4096 => Opens(l.slots)[k] - Opens(after.slots)[k]);
    assert forall k :: 0 <= k < 4096 ==> gone[k] == if Open(l.slots[k]) && !after.slots[k].isUsed then 1 else 0;
    SumAdd(Opens(l.slots), Opens(after.slots), gone);
    CountSelected(ext, gone);
    assert NewlyLost(l, after, ext) == Selected(ext, gone);
  }

  lemma DetectLossOneFate(l: Ledger, x: Lift, h: uint16, u: int)
    requires OneFate(l, x)
    ensures OneFate(DetectLoss(l, h), x.(hiAck := u, lost := x.lost + NewlyLost(l, DetectLoss(l, h), x.ext)))
  {
    hide DetectLoss;
    forall i, k | 0 <= i < k < 4096 && l.slots[i].isUsed && l.slots[k].isUsed
      ensures x.ext[i] != x.ext[k]
    {
      assert x.ext[i] % 4096 == i && x.ext[k] % 4096 == k;
    }
    LossesCounted(l, x.ext, h);
    DetectLossKeeps(l, h);
    var gone := NewlyLost(l, DetectLoss(l, h), x.ext);
    assert x.lost !! gone;
  }

  lemma MarkAckedOneFate(l: Ledger, x: Lift, sn: uint16, rxTime: uint32, ceBits: nat)
    requires OneFate(l, x)
    ensures OneFate(MarkAcked(l, sn, rxTime, ceBits),
                    if Acknowledges(l, sn) then x.(delivered := x.delivered + {x.ext[Slot(sn)]}) else x)
  {
    var marked := MarkAcked(l, sn, rxTime, ceBits);
    if Acknowledges(l, sn) {
      forall k | 0 <= k < 4096 && Open(marked.slots[k])
        ensures x.ext[k] != x.ext[Slot(sn)]
      {
        assert x.ext[k] % 4096 == k;
      }
    }
  }

  lemma TransmitOneFate(l: Ledger, x: Lift, u: int, t: uint32, size: nat, mark: bool, ts: uint32)
    requires OneFate(l, x) && x.hiTx < u
    ensures OneFate(Transmit(l, t, size, Wrap16(u), mark, ts), x.(ext := x.ext[Slot(u) := u], hiTx := u))
  {
    WrappedSlot(u);
  }

  lemma StepOneFate(l: Ledger, x: Lift, e: LEvent)
    requires OneFate(l, x) && Increasing(x, e)
    ensures OneFate(Step(l, Project(e)), LStep(l, x, e))
  {
    hide OneFate, Transmit, MarkAcked, DetectLoss, NewlyLost, TimeOut, UpdateRate;
    OneFateShape(l, x);
    match e
    case LSent(u, t, size, mark, ts) =>
      TransmitOneFate(l, x, u, t, size, mark, ts);
    case LReported(u, rxTime, ceBits, _) =>
      var sn := Wrap16(u);
      var marked := MarkAcked(l, sn, rxTime, ceBits);
      var x' := if Acknowledges(l, sn) then x.(delivered := x.delivered + {x.ext[Slot(sn)]}) else x;
      MarkAckedOneFate(l, x, sn, rxTime, ceBits);
      DetectLossOneFate(marked, x', sn, u);
    case _ =>
      SilentOneFate(l, x);
  }

  lemma OneFateShape(l: Ledger, x: Lift)
    requires OneFate(l, x)
    ensures |l.slots| == |x.ext| == 4096
  {
  }

  lemma SilentOneFate(l: Ledger, x: Lift)
    requires OneFate(l, x)
    ensures OneFate(TimeOut(l), x) && OneFate(UpdateRate(l), x)
  {
  }

  /** Every transmission is counted at most once, as delivered or as lost, never both: the packets delivered and
      those lost are disjoint, there are as many of each as the sender has counted, and the open ones are in neither. */
  lemma {:induction false} RunOneFate(start: Ledger, origin: Lift, events: seq<LEvent>)
    requires IsFresh(start) && Unlifted(origin) && AllIncreasing(start, origin, events)
    ensures var (l, _, x) := LRun(start, origin, events); OneFate(l, x)
  {
    if events != [] {
      var before, e := events[..|events| - 1], events[|events| - 1];
      RunOneFate(start, origin, before);
      var (l, _, x) := LRun(start, origin, before);
      StepOneFate(l, x, e);
    }
  }
}
