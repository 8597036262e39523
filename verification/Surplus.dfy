/** Acknowledged against credited bytes: a packet is credited when the received edge passes it and acknowledged when it is
    reported, in either order. What the two differ by, at any time and between any two times. */
module Surplus {
  import opened Serial
  import opened Sums
  import opened TxRing
  import opened InFlight

  /** Acknowledged, but not yet credited. */
  predicate Owed(p: Transmitted) { p.isUsed && p.isAcked && !p.isAfterReceivedEdge }

  /** Credited, but not yet acknowledged. */
  predicate Prepaid(p: Transmitted) { p.isUsed && !p.isAcked && p.isAfterReceivedEdge }

  function OwedSizes(s: seq<Transmitted>): (w: seq<int>)
    ensures |w| == |s|
    ensures forall k :: 0 <= k < |s| ==> w[k] == if Owed(s[k]) then s[k].size else 0
  {
    seq(|s|, k requires 0 <= k < |s| => if Owed(s[k]) then s[k].size else 0)
  }

  function PrepaidSizes(s: seq<Transmitted>): (w: seq<int>)
    ensures |w| == |s|
    ensures forall k :: 0 <= k < |s| ==> w[k] == if Prepaid(s[k]) then s[k].size else 0
  {
    seq(|s|, k requires 0 <= k < |s| => if Prepaid(s[k]) then s[k].size else 0)
  }

  function OwedBytes(s: seq<Transmitted>): int { Sum(OwedSizes(s)) }

  function PrepaidBytes(s: seq<Transmitted>): int { Sum(PrepaidSizes(s)) }

  /** What detectLoss credits: slots before and after. */
  function CreditedSizes(s: seq<Transmitted>, r: seq<Transmitted>): (w: seq<int>)
    requires |s| == |r|
    ensures |w| == |s|
    ensures forall k :: 0 <= k < |s| ==> w[k] == if Counted(s[k]) && r[k].isAfterReceivedEdge then s[k].size else 0
  {
    seq(|s|, k requires 0 <= k < |s| => if Counted(s[k]) && r[k].isAfterReceivedEdge then s[k].size else 0)
  }

  /** What leaves the ring credited, now or before, but never acknowledged. */
  function LostSizes(s: seq<Transmitted>, r: seq<Transmitted>): (w: seq<int>)
    requires |s| == |r|
    ensures |w| == |s|
    ensures forall k :: 0 <= k < |s| ==>
              w[k] == if Open(s[k]) && !r[k].isUsed && r[k].isAfterReceivedEdge then s[k].size else 0
  {
    seq(|s|, k requires 0 <= k < |s| =>
      if Open(s[k]) && !r[k].isUsed && r[k].isAfterReceivedEdge then s[k].size else 0)
  }

  /** What leaves the ring acknowledged, but never credited. */
  function ForgottenSizes(s: seq<Transmitted>, r: seq<Transmitted>): (w: seq<int>)
    requires |s| == |r|
    ensures |w| == |s|
    ensures forall k :: 0 <= k < |s| ==>
              w[k] == if Owed(s[k]) && !r[k].isUsed && !r[k].isAfterReceivedEdge then s[k].size else 0
  {
    seq(|s|, k requires 0 <= k < |s| =>
      if Owed(s[k]) && !r[k].isUsed && !r[k].isAfterReceivedEdge then s[k].size else 0)
  }

  /** Cumulative bytes: acknowledged, those of them CE marked, and what left the ring on one side of the books only. */
  datatype Books = Books(acked: int, marked: int, lost: int, forgotten: int)

  const NO_BOOKS: Books := Books(0, 0, 0, 0)

  /** Bytes credited since the start, over all measurement periods. */
  function Credited(l: Ledger, y: Tally): int { y.pastAcked + l.bytesAcked }

  function DetectBooks(l: Ledger, b: Books, h: uint16): Books
    requires |l.slots| == 4096
  {
    var r := DetectLoss(l, h);
    b.(lost := b.lost + Sum(LostSizes(l.slots, r.slots)), forgotten := b.forgotten + Sum(ForgottenSizes(l.slots, r.slots)))
  }

  function AckBooks(l: Ledger, b: Books, sn: uint16, ceBits: nat): Books
    requires |l.slots| == 4096
  {
    if !Acknowledges(l, sn) then b else
    var size := l.slots[Slot(sn)].size;
    b.(acked := b.acked + size, marked := b.marked + if ceBits == 3 then size else 0)
  }

  function StepBooks(l: Ledger, b: Books, e: Event): Books
    requires |l.slots| == 4096
  {
    match e
    case Sent(_, _, sn, _, _) =>
      var p := l.slots[Slot(sn)];
      b.(lost := b.lost + (if Prepaid(p) then p.size else 0), forgotten := b.forgotten + if Owed(p) then p.size else 0)
    case Reported(sn, rxTime, ceBits, isLast) =>
      var b' := AckBooks(l, b, sn, ceBits);
      if isLast || (Acknowledges(l, sn) && l.slots[Slot(sn)].isMark)
      then DetectBooks(MarkAcked(l, sn, rxTime, ceBits), b', sn) else b'
    case TimedOut => b.(lost := b.lost + PrepaidBytes(l.slots), forgotten := b.forgotten + OwedBytes(l.slots))
    case RateUpdated => b
  }

  /** Credited and acknowledged bytes differ by what is prepaid, owed, lost and forgotten. */
  ghost predicate Balanced(l: Ledger, y: Tally, b: Books) {
    && |l.slots| == 4096
    && Credited(l, y) - b.acked == PrepaidBytes(l.slots) - OwedBytes(l.slots) + b.lost - b.forgotten
  }

  /** The later books go on from the earlier ones. */
  ghost predicate Continues(b: Books, later: Books) {
    && b.lost <= later.lost && b.forgotten <= later.forgotten
    && 0 <= later.marked - b.marked <= later.acked - b.acked
  }

  // ---------- One step ----------

  /** What detectLoss makes of one slot. */
  lemma DetectSlot(l: Ledger, h: uint16, k: nat)
    requires |l.slots| == 4096 && k < 4096
    ensures var p, q := l.slots[k], DetectLoss(l, h).slots[k];
            && q.size == p.size && q.isAcked == p.isAcked && (q.isUsed ==> p.isUsed)
            && (p.isAfterReceivedEdge ==> q.isAfterReceivedEdge)
            && (Counted(p) && q.isAfterReceivedEdge && p.isAcked ==> !q.isUsed)
    ensures var dropped := DropRegion(l, DropStart(l.hiSeqAck, h), DropLength(l.hiSeqAck, h));
            Gate(Credits(dropped.slots, h), ScanStart(l.hiSeqAck, h), ScanLength(l.hiSeqAck, h))[k]
            == CreditedSizes(l.slots, DetectLoss(l, h).slots)[k]
  {
    hide AtOrBelow, Late, InStretch, DropStart, DropLength, ScanStart, ScanLength;
  }

  /** detectLoss credits what it takes behind the received edge. */
  lemma DetectCredits(l: Ledger, h: uint16)
    requires |l.slots| == 4096
    ensures DetectLoss(l, h).bytesAcked == l.bytesAcked + Sum(CreditedSizes(l.slots, DetectLoss(l, h).slots))
  {
    hide AtOrBelow, Late, InStretch, DropStart, DropLength, ScanStart, ScanLength, Gate, Scanned;
    var dropped := DropRegion(l, DropStart(l.hiSeqAck, h), DropLength(l.hiSeqAck, h));
    var gate := Gate(Credits(dropped.slots, h), ScanStart(l.hiSeqAck, h), ScanLength(l.hiSeqAck, h));
    var credited := CreditedSizes(l.slots, DetectLoss(l, h).slots);
    forall k | 0 <= k < 4096
      ensures gate[k] == credited[k]
    {
      DetectSlot(l, h, k);
    }
    assert gate == credited;
  }

  lemma DetectBalanced(l: Ledger, y: Tally, b: Books, h: uint16)
    requires Balanced(l, y, b)
    ensures Balanced(DetectLoss(l, h), y, DetectBooks(l, b, h)) && Continues(b, DetectBooks(l, b, h))
  {
    DetectCredits(l, h);
    forall k | 0 <= k < 4096
      ensures var p, q := l.slots[k], DetectLoss(l, h).slots[k];
              && q.size == p.size && q.isAcked == p.isAcked && (q.isUsed ==> p.isUsed)
              && (p.isAfterReceivedEdge ==> q.isAfterReceivedEdge)
              && (Counted(p) && q.isAfterReceivedEdge && p.isAcked ==> !q.isUsed)
    {
      DetectSlot(l, h, k);
    }
    hide DetectLoss;
    SlotsBalance(l.slots, DetectLoss(l, h).slots);
  }

  /** What a change of the slots, of the kind detectLoss makes, does to the six sums. */
  lemma SlotsBalance(s: seq<Transmitted>, r: seq<Transmitted>)
    requires |s| == |r| == 4096
    requires forall k :: 0 <= k < 4096 ==>
               var p, q := s[k], r[k];
               && q.size == p.size && q.isAcked == p.isAcked && (q.isUsed ==> p.isUsed)
               && (p.isAfterReceivedEdge ==> q.isAfterReceivedEdge)
               && (Counted(p) && q.isAfterReceivedEdge && p.isAcked ==> !q.isUsed)
    ensures Sum(CreditedSizes(s, r)) + OwedBytes(r) + PrepaidBytes(s) + Sum(ForgottenSizes(s, r))
            == OwedBytes(s) + PrepaidBytes(r) + Sum(LostSizes(s, r))
    ensures Sum(LostSizes(s, r)) >= 0 && Sum(ForgottenSizes(s, r)) >= 0
  {
    var a, b := Plus(CreditedSizes(s, r), OwedSizes(r)), Plus(PrepaidSizes(s), ForgottenSizes(s, r));
    var c := Plus(OwedSizes(s), PrepaidSizes(r));
    assert Plus(a, b) == Plus(c, LostSizes(s, r));
    SumPlus(CreditedSizes(s, r), OwedSizes(r));
    SumPlus(PrepaidSizes(s), ForgottenSizes(s, r));
    SumPlus(OwedSizes(s), PrepaidSizes(r));
    SumPlus(a, b);
    SumPlus(c, LostSizes(s, r));
    SumNonNegative(LostSizes(s, r));
    SumNonNegative(ForgottenSizes(s, r));
  }

  function Plus(a: seq<int>, b: seq<int>): (c: seq<int>)
    requires |a| == |b|
    ensures |c| == |a| && forall k :: 0 <= k < |a| ==> c[k] == a[k] + b[k]
  {
    seq(|a|, k requires 0 <= k < |a| => a[k] + b[k])
  }

  lemma SumPlus(a: seq<int>, b: seq<int>)
    requires |a| == |b|
    ensures Sum(Plus(a, b)) == Sum(a) + Sum(b)
  {
    SumAdd(Plus(a, b), a, b);
  }

  lemma AckBalanced(l: Ledger, y: Tally, b: Books, sn: uint16, rxTime: uint32, ceBits: nat)
    requires Balanced(l, y, b)
    ensures Balanced(MarkAcked(l, sn, rxTime, ceBits), y, AckBooks(l, b, sn, ceBits))
    ensures Continues(b, AckBooks(l, b, sn, ceBits))
  {
    if Acknowledges(l, sn) {
      var k, after := Slot(sn), MarkAcked(l, sn, rxTime, ceBits).slots;
      var p := l.slots[k];
      assert OwedSizes(after) == OwedSizes(l.slots)[k := if p.isAfterReceivedEdge then 0 else p.size];
      assert PrepaidSizes(after) == PrepaidSizes(l.slots)[k := 0];
      SumUpdate(OwedSizes(l.slots), k, if p.isAfterReceivedEdge then 0 else p.size);
      SumUpdate(PrepaidSizes(l.slots), k, 0);
    }
  }

  lemma SentBalanced(l: Ledger, y: Tally, b: Books, e: Event)
    requires Balanced(l, y, b) && e.Sent?
    ensures Balanced(Step(l, e), StepTally(l, y, e), StepBooks(l, b, e)) && Continues(b, StepBooks(l, b, e))
  {
    var k, after := Slot(e.sn), Step(l, e).slots;
    assert OwedSizes(after) == OwedSizes(l.slots)[k := 0];
    assert PrepaidSizes(after) == PrepaidSizes(l.slots)[k := 0];
    SumUpdate(OwedSizes(l.slots), k, 0);
    SumUpdate(PrepaidSizes(l.slots), k, 0);
  }

  lemma TimedOutBalanced(l: Ledger, y: Tally, b: Books)
    requires Balanced(l, y, b)
    ensures Balanced(TimeOut(l), TallyTimeOut(l, y), StepBooks(l, b, TimedOut)) && Continues(b, StepBooks(l, b, TimedOut))
  {
    SumZero(OwedSizes(TimeOut(l).slots));
    SumZero(PrepaidSizes(TimeOut(l).slots));
    SumNonNegative(OwedSizes(l.slots));
    SumNonNegative(PrepaidSizes(l.slots));
  }

  lemma StepBalanced(l: Ledger, y: Tally, b: Books, e: Event)
    requires Balanced(l, y, b)
    ensures Balanced(Step(l, e), StepTally(l, y, e), StepBooks(l, b, e)) && Continues(b, StepBooks(l, b, e))
  {
    match e
    case Sent(_, _, _, _, _) => SentBalanced(l, y, b, e);
    case TimedOut => TimedOutBalanced(l, y, b);
    case RateUpdated =>
    case Reported(sn, rxTime, ceBits, isLast) =>
      hide DetectLoss, DetectBooks, AckBooks, DetectLeak, OwedBytes, PrepaidBytes;
      AckBalanced(l, y, b, sn, rxTime, ceBits);
      DetectBalanced(MarkAcked(l, sn, rxTime, ceBits), y, AckBooks(l, b, sn, ceBits), sn);
  }

  // ---------- Every run ----------

  function RunBooks(start: Ledger, events: seq<Event>): Books
    requires |start.slots| == 4096
  {
    if events == [] then NO_BOOKS
    else
      var before := events[..|events| - 1];
      StepBooks(Run(start, NO_TALLY, before).0, RunBooks(start, before), events[|events| - 1])
  }

  /** Over every run: credited - acknowledged = prepaid - owed + lost - forgotten. */
  lemma {:induction false} RunBalanced(start: Ledger, events: seq<Event>)
    requires IsFresh(start)
    ensures var (l, y) := Run(start, NO_TALLY, events); Balanced(l, y, RunBooks(start, events))
  {
    hide Balanced, Step, StepTally, StepBooks;
    if events == [] {
      FreshBalanced(start);
    } else {
      var before := events[..|events| - 1];
      RunBalanced(start, before);
      var (l, y) := Run(start, NO_TALLY, before);
      StepBalanced(l, y, RunBooks(start, before), events[|events| - 1]);
    }
  }

  lemma FreshBalanced(l: Ledger)
    requires IsFresh(l)
    ensures Balanced(l, NO_TALLY, NO_BOOKS)
  {
    SumZero(OwedSizes(l.slots));
    SumZero(PrepaidSizes(l.slots));
  }

  lemma {:induction false} RunContinues(start: Ledger, a: seq<Event>, b: seq<Event>)
    requires IsFresh(start)
    ensures Continues(RunBooks(start, a), RunBooks(start, a + b))
  {
    if b == [] {
      assert a + b == a;
    } else {
      var front, e := b[..|b| - 1], b[|b| - 1];
      assert (a + b)[..|a + b| - 1] == a + front;
      RunContinues(start, a, front);
      RunBalanced(start, a + front);
      var (l, y) := Run(start, NO_TALLY, a + front);
      StepBalanced(l, y, RunBooks(start, a + front), e);
      hide StepBooks, Run;
    }
  }

  /** Between any two times of a run, the bytes credited, less the bytes reported as CE marked, are what was acknowledged
      without a mark, what was lost, and what has become prepaid or is no longer owed; less what was forgotten. They fall
      below zero only by what was prepaid at the first time, is owed at the second, or was forgotten in between. */
  lemma SurplusBetween(start: Ledger, a: seq<Event>, b: seq<Event>)
    requires IsFresh(start)
    ensures var (l0, y0) := Run(start, NO_TALLY, a);
            var (l1, y1) := Run(start, NO_TALLY, a + b);
            var b0, b1 := RunBooks(start, a), RunBooks(start, a + b);
            var surplus := Credited(l1, y1) - Credited(l0, y0) - (b1.marked - b0.marked);
            && surplus == (b1.acked - b1.marked) - (b0.acked - b0.marked)
                          + (PrepaidBytes(l1.slots) - OwedBytes(l1.slots)) - (PrepaidBytes(l0.slots) - OwedBytes(l0.slots))
                          + (b1.lost - b0.lost) - (b1.forgotten - b0.forgotten)
            && surplus >= -PrepaidBytes(l0.slots) - OwedBytes(l1.slots) - (b1.forgotten - b0.forgotten)
  {
    RunBalanced(start, a);
    RunBalanced(start, a + b);
    RunContinues(start, a, b);
    hide Run, RunBooks;
    var (l0, y0) := Run(start, NO_TALLY, a);
    var (l1, y1) := Run(start, NO_TALLY, a + b);
    SumNonNegative(OwedSizes(l0.slots));
    SumNonNegative(PrepaidSizes(l1.slots));
  }
}
