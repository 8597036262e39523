/** The sender's ledger of transmitted packets: what every operation on the transmit ring does
    to the packets in it, and the account of bytes and packets that every run keeps.
    The functions here are the specification; InFlightLedger carries them out in place. */
module InFlight {
  import opened Serial
  import opened Sums
  import opened TxRing

  /** Reordering margin: 30 ms in Q16, rounded. */
  const REORDER_TIME: int := 1966

  /** RTP clock ticks per second. */
  const CLOCK_RATE: int := 90000

  datatype Transmitted = Transmitted(
    timeTx: uint32, size: nat, seqNr: uint16, timeStamp: uint32,
    isMark: bool, isUsed: bool, isAcked: bool, isAfterReceivedEdge: bool)

  /** A packet the sender has just learnt was received, with what the report said of it. */
  datatype Ack = Ack(slot: nat, seqNr: uint16, rxTime: uint32, ceBits: nat)

  datatype Ledger = Ledger(
    slots: seq<Transmitted>,
    bytesInFlight: int,
    hiSeqAck: uint16,
    timeTxAck: uint32,
    timeStampAckHigh: uint32,
    bytesTransmitted: int,
    bytesAcked: int,
    bytesLost: int,
    packetLost: int,
    acks: seq<Ack>)

  /** Cumulative totals that no field of the sender keeps. */
  datatype Tally = Tally(
    pastTransmitted: int,  // transmitted bytes already cleared by rate updates
    pastAcked: int,        // credited bytes already cleared by rate updates
    writtenOff: int,       // bytes in flight forgotten by time-out resets
    leaked: int,           // bytes still counted in flight although no slot holds them any more
    sent: int,             // packets transmitted
    wiped: int)            // packets that left the ring neither delivered nor lost

  // ---------- Weights of one packet ----------

  /** A packet counts towards bytesInFlight until the received edge has passed it. */
  predicate Counted(p: Transmitted) { p.isUsed && !p.isAfterReceivedEdge }

  /** A packet whose fate is open. */
  predicate Open(p: Transmitted) { p.isUsed && !p.isAcked }

  /** The received edge h is at or past sequence number sn, by the wrap-around rule of the scan. */
  predicate AtOrBelow(sn: uint16, h: uint16) {
    var snExt := if sn < h && h - sn > 20000 then sn + 65536 else sn;
    var hExt := if sn > h && sn - h > 20000 then h + 65536 else h;
    snExt <= hExt
  }

  /** The packet was sent more than the reordering margin before the last acknowledged one. */
  predicate Late(p: Transmitted, timeTxAck: uint32, timeStampAckHigh: uint32) {
    var correction := 65536 * Sub32(timeStampAckHigh, p.timeStamp) / CLOCK_RATE;
    Wrap32(p.timeTx + REORDER_TIME + correction) < timeTxAck
  }

  function CountedSizes(s: seq<Transmitted>): (w: seq<int>)
    ensures |w| == |s|
    ensures forall k :: 0 <= k < |s| ==> w[k] == if Counted(s[k]) then s[k].size else 0
  {
    seq(|s|, k requires 0 <= k < |s| => if Counted(s[k]) then s[k].size else 0)
  }

  function Opens(s: seq<Transmitted>): (w: seq<int>)
    ensures |w| == |s|
    ensures forall k :: 0 <= k < |s| ==> w[k] == if Open(s[k]) then 1 else 0
  {
    seq(|s|, k requires 0 <= k < |s| => if Open(s[k]) then 1 else 0)
  }

  function OpenSizes(s: seq<Transmitted>): (w: seq<int>)
    ensures |w| == |s|
    ensures forall k :: 0 <= k < |s| ==> w[k] == if Open(s[k]) then s[k].size else 0
  {
    seq(|s|, k requires 0 <= k < |s| => if Open(s[k]) then s[k].size else 0)
  }

  /** Bytes a scan up to h takes off bytesInFlight, slot by slot. */
  function Credits(s: seq<Transmitted>, h: uint16): (w: seq<int>)
    ensures |w| == |s|
    ensures forall k :: 0 <= k < |s| ==> w[k] == if Counted(s[k]) && AtOrBelow(s[k].seqNr, h) then s[k].size else 0
  {
    seq(|s|, k requires 0 <= k < |s| => if Counted(s[k]) && AtOrBelow(s[k].seqNr, h) then s[k].size else 0)
  }

  predicate LateOpen(p: Transmitted, l: Ledger) { Open(p) && Late(p, l.timeTxAck, l.timeStampAckHigh) }

  function Lates(l: Ledger): (w: seq<int>)
    ensures |w| == |l.slots|
    ensures forall k :: 0 <= k < |w| ==> w[k] == if LateOpen(l.slots[k], l) then 1 else 0
  {
    seq(|l.slots|, k requires 0 <= k < |l.slots| => if LateOpen(l.slots[k], l) then 1 else 0)
  }

  function LateSizes(l: Ledger): (w: seq<int>)
    ensures |w| == |l.slots|
    ensures forall k :: 0 <= k < |w| ==> w[k] == if LateOpen(l.slots[k], l) then l.slots[k].size else 0
  {
    seq(|l.slots|, k requires 0 <= k < |l.slots| => if LateOpen(l.slots[k], l) then l.slots[k].size else 0)
  }

  /** Bytes of packets a scan up to h removes without ever having credited them. */
  function ScanLeaks(l: Ledger, h: uint16): (w: seq<int>)
    ensures |w| == |l.slots|
    ensures forall k :: 0 <= k < |w| ==>
              w[k] == if Counted(l.slots[k]) && !AtOrBelow(l.slots[k].seqNr, h) && (l.slots[k].isAcked || LateOpen(l.slots[k], l))
                      then l.slots[k].size else 0
  {
    seq(|l.slots|, k requires 0 <= k < |l.slots| =>
      if Counted(l.slots[k]) && !AtOrBelow(l.slots[k].seqNr, h) && (l.slots[k].isAcked || LateOpen(l.slots[k], l))
      then l.slots[k].size else 0)
  }

  /** Sum of the sizes of the used slots that are not yet behind the received edge. */
  function InFlightBytes(s: seq<Transmitted>): int { Sum(CountedSizes(s)) }

  /** Number of used slots whose packet is not acknowledged. */
  function OpenCount(s: seq<Transmitted>): int { Sum(Opens(s)) }

  // ---------- Operations ----------

  function Slot(sn: int): (k: nat)
    ensures k < 4096
  {
    sn % 4096
  }

  /** addTransmitted */
  function Transmit(l: Ledger, t: uint32, size: nat, sn: uint16, mark: bool, ts: uint32): Ledger
    requires |l.slots| == 4096
  {
    l.(slots := l.slots[Slot(sn) := Transmitted(t, size, sn, ts, mark, true, false, false)],
       bytesInFlight := l.bytesInFlight + size,
       bytesTransmitted := l.bytesTransmitted + size)
  }

  /** A report for sn settles the packet in its ring slot. */
  predicate Acknowledges(l: Ledger, sn: uint16)
    requires |l.slots| == 4096
  {
    Open(l.slots[Slot(sn)]) && l.slots[Slot(sn)].seqNr == sn
  }

  /** markAcked */
  function MarkAcked(l: Ledger, sn: uint16, rxTime: uint32, ceBits: nat): Ledger
    requires |l.slots| == 4096
  {
    if !Acknowledges(l, sn) then l else
    var p := l.slots[Slot(sn)];
    l.(slots := l.slots[Slot(sn) := p.(isAcked := true)],
       timeStampAckHigh := if Sub32(p.timeStamp, l.timeStampAckHigh) < 50000 then p.timeStamp else l.timeStampAckHigh,
       timeTxAck := p.timeTx,
       acks := l.acks + [Ack(Slot(sn), sn, rxTime, ceBits)])
  }

  /** What the scan up to h makes of one packet. */
  function Scanned(p: Transmitted, l: Ledger, h: uint16): Transmitted {
    if !p.isUsed then p else
    var q := if AtOrBelow(p.seqNr, h) then p.(isAfterReceivedEdge := true) else p;
    if p.isAcked || LateOpen(p, l) then q.(isUsed := false) else q
  }

  /** The len slots from lo on leave the ring; what is unacknowledged among them is lost. */
  function DropRegion(l: Ledger, lo: int, len: nat): (r: Ledger)
    requires |l.slots| == 4096
    ensures |r.slots| == 4096
    ensures forall k :: 0 <= k < 4096 ==>
              r.slots[k] == if InStretch(lo, len, k) then l.slots[k].(isUsed := false) else l.slots[k]
  {
    l.(slots := seq(4096, k requires 0 <= k < 4096 =>
         if InStretch(lo, len, k) then l.slots[k].(isUsed := false) else l.slots[k]),
       bytesLost := l.bytesLost + Sum(Gate(OpenSizes(l.slots), lo, len)),
       packetLost := l.packetLost + Sum(Gate(Opens(l.slots), lo, len)))
  }

  /** The len slots from lo on are scanned against the received edge h. */
  function ScanRegion(l: Ledger, lo: int, len: nat, h: uint16): (r: Ledger)
    requires |l.slots| == 4096
    ensures |r.slots| == 4096
    ensures forall k :: 0 <= k < 4096 ==>
              r.slots[k] == if InStretch(lo, len, k) then Scanned(l.slots[k], l, h) else l.slots[k]
  {
    l.(slots := seq(4096, k requires 0 <= k < 4096 =>
         if InStretch(lo, len, k) then Scanned(l.slots[k], l, h) else l.slots[k]),
       bytesInFlight := l.bytesInFlight - Sum(Gate(Credits(l.slots, h), lo, len)),
       bytesAcked := l.bytesAcked + Sum(Gate(Credits(l.slots, h), lo, len)),
       bytesLost := l.bytesLost + Sum(Gate(LateSizes(l), lo, len)),
       packetLost := l.packetLost + Sum(Gate(Lates(l), lo, len)))
  }

  /** One round of the dropping loop. */
  function DropOne(l: Ledger, n: nat): Ledger
    requires n < |l.slots|
  {
    var p := l.slots[n];
    l.(slots := l.slots[n := p.(isUsed := false)],
       bytesLost := l.bytesLost + (if Open(p) then p.size else 0),
       packetLost := l.packetLost + (if Open(p) then 1 else 0))
  }

  /** One round of the scanning loop. */
  function ScanOne(l: Ledger, n: nat, h: uint16): Ledger
    requires n < |l.slots|
  {
    var p := l.slots[n];
    var credit := if Counted(p) && AtOrBelow(p.seqNr, h) then p.size else 0;
    l.(slots := l.slots[n := Scanned(p, l, h)],
       bytesInFlight := l.bytesInFlight - credit,
       bytesAcked := l.bytesAcked + credit,
       bytesLost := l.bytesLost + (if LateOpen(p, l) then p.size else 0),
       packetLost := l.packetLost + (if LateOpen(p, l) then 1 else 0))
  }

  /** The dropping loop after len rounds from ring position lo. */
  function DropLoop(l: Ledger, lo: int, len: nat): (r: Ledger)
    requires |l.slots| == 4096
    ensures |r.slots| == 4096
  {
    if len == 0 then l else DropOne(DropLoop(l, lo, len - 1), (lo + len - 1) % 4096)
  }

  /** The scanning loop after len rounds from ring position lo. */
  function ScanLoop(l: Ledger, lo: int, len: nat, h: uint16): (r: Ledger)
    requires |l.slots| == 4096
    ensures |r.slots| == 4096
  {
    if len == 0 then l else ScanOne(ScanLoop(l, lo, len - 1, h), (lo + len - 1) % 4096, h)
  }

  /** The dropping loop visits each slot of its stretch exactly once, through any wrap of the ring. */
  lemma {:induction false} DropLoopIsRegion(l: Ledger, lo: int, len: nat)
    requires |l.slots| == 4096 && len <= 4096
    ensures DropLoop(l, lo, len) == DropRegion(l, lo, len)
  {
    if len == 0 {
      DropNothing(l, lo);
    } else {
      DropLoopIsRegion(l, lo, len - 1);
      DropStep(l, lo, len - 1, (lo + len - 1) % 4096);
    }
  }

  /** So does the scanning loop; and while bytesInFlight covers the ring's total, no round makes it negative. */
  lemma {:induction false} ScanLoopIsRegion(l: Ledger, lo: int, len: nat, h: uint16)
    requires |l.slots| == 4096 && len <= 4096
    ensures ScanLoop(l, lo, len, h) == ScanRegion(l, lo, len, h)
    ensures InFlightBytes(l.slots) <= l.bytesInFlight ==> 0 <= ScanLoop(l, lo, len, h).bytesInFlight
  {
    if len == 0 {
      ScanNothing(l, lo, h);
      SumNonNegative(CountedSizes(l.slots));
    } else {
      ScanLoopIsRegion(l, lo, len - 1, h);
      ScanStep(l, lo, len - 1, (lo + len - 1) % 4096, h);
    }
  }

  /** A stretch is dropped slot by slot. */
  lemma DropStep(l: Ledger, lo: int, len: nat, n: nat)
    requires |l.slots| == 4096 && len < 4096 && n == (lo + len) % 4096
    ensures DropRegion(l, lo, len + 1) == DropOne(DropRegion(l, lo, len), n)
  {
    var before := DropRegion(l, lo, len);
    StretchGrows(lo, len);
    GateStep(OpenSizes(l.slots), lo, len);
    GateStep(Opens(l.slots), lo, len);
    assert DropRegion(l, lo, len + 1).slots == DropOne(before, n).slots;
  }

  /** A stretch is scanned slot by slot, and bytesInFlight covers each credit. */
  lemma ScanStep(l: Ledger, lo: int, len: nat, n: nat, h: uint16)
    requires |l.slots| == 4096 && len < 4096 && n == (lo + len) % 4096
    ensures ScanRegion(l, lo, len + 1, h) == ScanOne(ScanRegion(l, lo, len, h), n, h)
    ensures InFlightBytes(l.slots) <= l.bytesInFlight ==> 0 <= ScanRegion(l, lo, len + 1, h).bytesInFlight
  {
    var before := ScanRegion(l, lo, len, h);
    StretchGrows(lo, len);
    GateStep(Credits(l.slots, h), lo, len);
    GateStep(LateSizes(l), lo, len);
    GateStep(Lates(l), lo, len);
    assert ScanRegion(l, lo, len + 1, h).slots == ScanOne(before, n, h).slots;
    GateBounds(Credits(l.slots, h), lo, len + 1);
    SumMonotone(Credits(l.slots, h), CountedSizes(l.slots));
  }

  lemma DropNothing(l: Ledger, lo: int)
    requires |l.slots| == 4096
    ensures DropRegion(l, lo, 0) == l
  {
    GateEmpty(OpenSizes(l.slots), lo);
    GateEmpty(Opens(l.slots), lo);
    assert DropRegion(l, lo, 0).slots == l.slots;
  }

  lemma ScanNothing(l: Ledger, lo: int, h: uint16)
    requires |l.slots| == 4096
    ensures ScanRegion(l, lo, 0, h) == l
  {
    GateEmpty(Credits(l.slots, h), lo);
    GateEmpty(LateSizes(l), lo);
    GateEmpty(Lates(l), lo);
    assert ScanRegion(l, lo, 0, h).slots == l.slots;
  }

  /** Number of slots that fall out of the loss window when the edge moves to h. */
  function DropLength(hiSeqAck: uint16, h: uint16): nat { Min(32, Sub16(h, hiSeqAck)) }

  /** First ring position that falls out of the loss window, 512 behind the old edge. */
  function DropStart(hiSeqAck: uint16, h: uint16): nat { (hiSeqAck - 512 - DropLength(hiSeqAck, h)) % 4096 }

  function ScanStart(hiSeqAck: uint16, h: uint16): nat { DropStart(hiSeqAck, h) + DropLength(hiSeqAck, h) }

  /** The scan goes from 512 behind the old edge up to the slot of h. */
  function ScanLength(hiSeqAck: uint16, h: uint16): nat { Distance(ScanStart(hiSeqAck, h), h) + 1 }

  /** detectLoss */
  function DetectLoss(l: Ledger, h: uint16): (r: Ledger)
    requires |l.slots| == 4096
    ensures |r.slots| == 4096
  {
    var dropped := DropRegion(l, DropStart(l.hiSeqAck, h), DropLength(l.hiSeqAck, h));
    ScanRegion(dropped, ScanStart(l.hiSeqAck, h), ScanLength(l.hiSeqAck, h), h).(hiSeqAck := h)
  }

  /** detectLoss slot by slot. */
  lemma DetectLossAt(l: Ledger, h: uint16, k: nat)
    requires |l.slots| == 4096 && k < 4096
    ensures DetectLoss(l, h).slots[k]
            == var p := if InStretch(DropStart(l.hiSeqAck, h), DropLength(l.hiSeqAck, h), k) then l.slots[k].(isUsed := false)
                        else l.slots[k];
               if InStretch(ScanStart(l.hiSeqAck, h), ScanLength(l.hiSeqAck, h), k) then Scanned(p, l, h) else p
  {
    hide InStretch, DropStart, DropLength, ScanStart, ScanLength, Gate, Late, AtOrBelow;
  }

  /** detectLoss changes no number and acknowledges nothing. */
  lemma DetectLossKeeps(l: Ledger, h: uint16)
    requires |l.slots| == 4096
    ensures var r := DetectLoss(l, h);
            && r.acks == l.acks
            && forall k :: 0 <= k < 4096 ==>
                 && (r.slots[k].isUsed ==> l.slots[k].isUsed)
                 && r.slots[k].seqNr == l.slots[k].seqNr
                 && r.slots[k].isAcked == l.slots[k].isAcked
  {
    hide InStretch, LateOpen, AtOrBelow;
  }

  /** detectLoss as its two loops carry it out. */
  function DetectLossLoops(l: Ledger, h: uint16): Ledger
    requires |l.slots| == 4096
  {
    var dropped := DropLoop(l, DropStart(l.hiSeqAck, h), DropLength(l.hiSeqAck, h));
    ScanLoop(dropped, ScanStart(l.hiSeqAck, h), ScanLength(l.hiSeqAck, h), h).(hiSeqAck := h)
  }

  lemma DetectLossLoopsAgree(l: Ledger, h: uint16)
    requires |l.slots| == 4096
    ensures DetectLossLoops(l, h) == DetectLoss(l, h)
    ensures DropLoop(l, DropStart(l.hiSeqAck, h), DropLength(l.hiSeqAck, h))
            == DropRegion(l, DropStart(l.hiSeqAck, h), DropLength(l.hiSeqAck, h))
  {
    DropLoopIsRegion(l, DropStart(l.hiSeqAck, h), DropLength(l.hiSeqAck, h));
    ScanLoopIsRegion(DropRegion(l, DropStart(l.hiSeqAck, h), DropLength(l.hiSeqAck, h)),
                     ScanStart(l.hiSeqAck, h), ScanLength(l.hiSeqAck, h), h);
  }

  /** The retransmission time-out of isOkToTransmit. */
  function TimeOut(l: Ledger): (r: Ledger)
    ensures |r.slots| == |l.slots|
    ensures forall k :: 0 <= k < |r.slots| ==> r.slots[k] == l.slots[k].(isUsed := false)
  {
    l.(slots := seq(|l.slots|, k requires 0 <= k < |l.slots| => l.slots[k].(isUsed := false)), bytesInFlight := 0)
  }

  /** More than half a second without a transmission. */
  predicate TimeOutDue(lastTransmitT: uint32, t: uint32) {
    Sub32(t, lastTransmitT) > 32768 && lastTransmitT < t
  }

  /** The congestion window has room for a packet of size bytes. */
  predicate Fits(l: Ledger, size: int, cwnd: int, headroom: real, mss: int) {
    (l.bytesInFlight + size) as real <= cwnd as real * headroom + mss as real
  }

  /** isOkToTransmit: the ledger after it and the verdict. */
  function Admit(l: Ledger, lastTransmitT: uint32, nextTransmitT: uint32, t: uint32,
                 size: int, cwnd: int, headroom: real, mss: int): (r: (Ledger, real))
    ensures |r.0.slots| == |l.slots|
  {
    if size == -1 then (l, -1.0)
    else if TimeOutDue(lastTransmitT, t) then (TimeOut(l), 0.0)
    else if !Fits(l, size, cwnd, headroom, mss) then (l, -1.0)
    else if nextTransmitT > t && nextTransmitT - t < 0xFFFF0000 then (l, (nextTransmitT - t) as real / 65536.0)
    else (l, 0.0)
  }

  /** The time-out is due if and only if more than half a second has passed without a transmission and the 32-bit clock has
      not wrapped in the meantime. */
  lemma TimeOutDueIff(last: int, now: int)
    requires 0 <= now - last < 4294967296
    ensures TimeOutDue(Wrap32(last), Wrap32(now)) <==> now - last > 32768 && last / 4294967296 == now / 4294967296
  {
    var a: int, b: int := last / 4294967296, now / 4294967296;
    var x: int, y: int := Wrap32(last), Wrap32(now);
    assert last == 4294967296 * a + x && now == 4294967296 * b + y;
    assert b == a || b == a + 1;
  }

  /** No deadlock, short of a clock wrap: with a packet queued and half a second without a transmission, the gate is open
      if the clock has not wrapped since; and if it has, the gate is open only for a packet that fits and is not paced. */
  lemma GateOpensIff(l: Ledger, last: int, nextTransmitT: uint32, now: int, size: nat, cwnd: int, headroom: real, mss: int)
    requires 32768 < now - last < 4294967296
    ensures var t := Wrap32(now);
            Admit(l, Wrap32(last), nextTransmitT, t, size, cwnd, headroom, mss).1 == 0.0
            <==> last / 4294967296 == now / 4294967296
                 || (Fits(l, size, cwnd, headroom, mss) && !(nextTransmitT > t && nextTransmitT - t < 0xFFFF0000))
  {
    hide TimeOutDue, Fits, Wrap32, TimeOut;
    TimeOutDueIff(last, now);
  }

  /** The gate in plain terms, for a queued packet: it is open at once if and only if half a second has passed without a
      transmission, or the packet fits into the window and its time has come; it is shut for now if and only if the packet
      does not fit; and otherwise the verdict is the time to wait. */
  lemma AdmitIff(l: Ledger, last: uint32, nextTransmitT: uint32, t: uint32, size: nat, cwnd: int, headroom: real, mss: int)
    requires last <= t
    ensures var verdict := Admit(l, last, nextTransmitT, t, size, cwnd, headroom, mss).1;
            var room := (l.bytesInFlight + size) as real <= cwnd as real * headroom + mss as real;
            && (verdict == 0.0 <==> t - last > 32768 || (room && (nextTransmitT <= t || nextTransmitT - t >= 4294901760)))
            && (verdict == -1.0 <==> t - last <= 32768 && !room)
            && (verdict > 0.0 ==> verdict * 65536.0 == (nextTransmitT - t) as real)
  {
  }

  /** A window of two packets or more, with a headroom of one half, never stops a sender with little in flight: whatever
      leaves it at four packets or less is admitted when its time has come. */
  lemma NeverStalls(l: Ledger, last: uint32, nextTransmitT: uint32, t: uint32, size: nat, cwnd: int, headroom: real, mss: nat)
    requires cwnd >= 2 * mss && headroom >= 1.5 && l.bytesInFlight + size <= 4 * mss && nextTransmitT <= t
    ensures Admit(l, last, nextTransmitT, t, size, cwnd, headroom, mss).1 == 0.0
  {
    hide TimeOut, TimeOutDue;
    assert cwnd as real * headroom >= (2 * mss) as real * headroom by {
      assert (cwnd - 2 * mss) as real * headroom >= 0.0;
    }
    assert (2 * mss) as real * headroom >= (2 * mss) as real * 1.5 by {
      assert (2 * mss) as real * (headroom - 1.5) >= 0.0;
    }
  }

  /** updateRate starts a new measurement period. */
  function UpdateRate(l: Ledger): Ledger {
    l.(bytesTransmitted := 0, bytesAcked := 0, bytesLost := 0)
  }

  /** One received report element: markAcked, then detectLoss for the last element or a marker packet. */
  function Report(l: Ledger, sn: uint16, rxTime: uint32, ceBits: nat, isLast: bool): Ledger
    requires |l.slots| == 4096
  {
    var marked := MarkAcked(l, sn, rxTime, ceBits);
    if isLast || (Acknowledges(l, sn) && l.slots[Slot(sn)].isMark) then DetectLoss(marked, sn) else marked
  }

  /** A packet that ends a frame moves the received edge as soon as it is reported, the last element of a block always, and no
      other element does. */
  lemma FrameEndMovesEdge(l: Ledger, t: uint32, size: nat, sn: uint16, mark: bool, ts: uint32, rxTime: uint32, ceBits: nat,
                          isLast: bool)
    requires |l.slots| == 4096
    ensures Report(Transmit(l, t, size, sn, mark, ts), sn, rxTime, ceBits, isLast).hiSeqAck
            == if isLast || mark then sn else l.hiSeqAck
  {
    hide InStretch, DropStart, DropLength, ScanStart, ScanLength, Gate, Late, AtOrBelow;
  }

  // ---------- The account ----------

  ghost predicate Accounted(l: Ledger, y: Tally) {
    && |l.slots| == 4096
    // every transmitted byte is in flight, credited, or written off
    && y.pastTransmitted + l.bytesTransmitted == l.bytesInFlight + y.pastAcked + l.bytesAcked + y.writtenOff
    // bytesInFlight is the ring's own total plus what has leaked
    && l.bytesInFlight == InFlightBytes(l.slots) + y.leaked
    && 0 <= y.leaked
    // every transmitted packet has one fate
    && y.sent == |l.acks| + l.packetLost + OpenCount(l.slots) + y.wiped
    && 0 <= y.wiped && 0 <= l.packetLost
  }

  function TallyTransmit(l: Ledger, y: Tally, sn: uint16): Tally
    requires |l.slots| == 4096
  {
    var p := l.slots[Slot(sn)];
    y.(sent := y.sent + 1,
       leaked := y.leaked + (if Counted(p) then p.size else 0),
       wiped := y.wiped + (if Open(p) then 1 else 0))
  }

  /** Bytes that leave the ring in detectLoss without having been credited. */
  function DetectLeak(l: Ledger, h: uint16): int
    requires |l.slots| == 4096
  {
    var dropped := DropRegion(l, DropStart(l.hiSeqAck, h), DropLength(l.hiSeqAck, h));
    Sum(Gate(CountedSizes(l.slots), DropStart(l.hiSeqAck, h), DropLength(l.hiSeqAck, h)))
    + Sum(Gate(ScanLeaks(dropped, h), ScanStart(l.hiSeqAck, h), ScanLength(l.hiSeqAck, h)))
  }

  function TallyDetect(l: Ledger, y: Tally, h: uint16): Tally
    requires |l.slots| == 4096
  {
    y.(leaked := y.leaked + DetectLeak(l, h))
  }

  function TallyTimeOut(l: Ledger, y: Tally): Tally {
    y.(writtenOff := y.writtenOff + l.bytesInFlight, leaked := 0, wiped := y.wiped + OpenCount(l.slots))
  }

  function TallyRate(l: Ledger, y: Tally): Tally {
    y.(pastTransmitted := y.pastTransmitted + l.bytesTransmitted, pastAcked := y.pastAcked + l.bytesAcked)
  }

  function TallyReport(l: Ledger, y: Tally, sn: uint16, rxTime: uint32, ceBits: nat, isLast: bool): Tally
    requires |l.slots| == 4096
  {
    if isLast || (Acknowledges(l, sn) && l.slots[Slot(sn)].isMark)
    then TallyDetect(MarkAcked(l, sn, rxTime, ceBits), y, sn) else y
  }

  lemma TransmitAccounted(l: Ledger, y: Tally, t: uint32, size: nat, sn: uint16, mark: bool, ts: uint32)
    requires Accounted(l, y)
    ensures Accounted(Transmit(l, t, size, sn, mark, ts), TallyTransmit(l, y, sn))
  {
    var after := Transmit(l, t, size, sn, mark, ts).slots;
    var k := Slot(sn);
    assert CountedSizes(after) == CountedSizes(l.slots)[k := size];
    SumUpdate(CountedSizes(l.slots), k, size);
    assert Opens(after) == Opens(l.slots)[k := 1];
    SumUpdate(Opens(l.slots), k, 1);
  }

  lemma MarkAckedAccounted(l: Ledger, y: Tally, sn: uint16, rxTime: uint32, ceBits: nat)
    requires Accounted(l, y)
    ensures Accounted(MarkAcked(l, sn, rxTime, ceBits), y)
  {
    if Acknowledges(l, sn) {
      var after := MarkAcked(l, sn, rxTime, ceBits).slots;
      var k := Slot(sn);
      assert CountedSizes(after) == CountedSizes(l.slots);
      assert Opens(after) == Opens(l.slots)[k := 0];
      SumUpdate(Opens(l.slots), k, 0);
    }
  }

  /** Dropping a stretch takes its packets, and nothing else, out of the ring's totals. */
  lemma DropTotals(l: Ledger, lo: int, len: nat)
    requires |l.slots| == 4096
    ensures var r := DropRegion(l, lo, len);
            && InFlightBytes(r.slots) == InFlightBytes(l.slots) - Sum(Gate(CountedSizes(l.slots), lo, len))
            && OpenCount(r.slots) == OpenCount(l.slots) - Sum(Gate(Opens(l.slots), lo, len))
            && 0 <= Sum(Gate(CountedSizes(l.slots), lo, len))
            && 0 <= Sum(Gate(Opens(l.slots), lo, len))
  {
    var r := DropRegion(l, lo, len);
    SumAdd(CountedSizes(l.slots), CountedSizes(r.slots), Gate(CountedSizes(l.slots), lo, len));
    SumAdd(Opens(l.slots), Opens(r.slots), Gate(Opens(l.slots), lo, len));
    GateBounds(CountedSizes(l.slots), lo, len);
    GateBounds(Opens(l.slots), lo, len);
  }

  lemma ScanTotals(l: Ledger, lo: int, len: nat, h: uint16)
    requires |l.slots| == 4096
    ensures var r := ScanRegion(l, lo, len, h);
            && InFlightBytes(r.slots)
               == InFlightBytes(l.slots) - Sum(Gate(Credits(l.slots, h), lo, len)) - Sum(Gate(ScanLeaks(l, h), lo, len))
            && OpenCount(r.slots) == OpenCount(l.slots) - Sum(Gate(Lates(l), lo, len))
            && 0 <= Sum(Gate(ScanLeaks(l, h), lo, len))
            && 0 <= Sum(Gate(Lates(l), lo, len))
            && 0 <= Sum(Gate(Credits(l.slots, h), lo, len))
  {
    var r := ScanRegion(l, lo, len, h);
    var credited, leaked := Gate(Credits(l.slots, h), lo, len), Gate(ScanLeaks(l, h), lo, len);
    var gone := seq(4096, k requires 0 <= k < 4096 => credited[k] + leaked[k]);
    SumAdd(gone, credited, leaked);
    SumAdd(CountedSizes(l.slots), CountedSizes(r.slots), gone);
    SumAdd(Opens(l.slots), Opens(r.slots), Gate(Lates(l), lo, len));
    GateBounds(Credits(l.slots, h), lo, len);
    GateBounds(ScanLeaks(l, h), lo, len);
    GateBounds(Lates(l), lo, len);
  }

  lemma DetectLossAccounted(l: Ledger, y: Tally, h: uint16)
    requires Accounted(l, y)
    ensures Accounted(DetectLoss(l, h), TallyDetect(l, y, h))
    ensures DetectLoss(l, h).bytesInFlight <= l.bytesInFlight
    ensures y.leaked <= TallyDetect(l, y, h).leaked
    ensures InFlightBytes(DropRegion(l, DropStart(l.hiSeqAck, h), DropLength(l.hiSeqAck, h)).slots) <= l.bytesInFlight
  {
    DropTotals(l, DropStart(l.hiSeqAck, h), DropLength(l.hiSeqAck, h));
    ScanTotals(DropRegion(l, DropStart(l.hiSeqAck, h), DropLength(l.hiSeqAck, h)), ScanStart(l.hiSeqAck, h), ScanLength(l.hiSeqAck, h), h);
  }

  /** Bytes of the packets whose fate is open. */
  function OpenBytes(s: seq<Transmitted>): int { Sum(OpenSizes(s)) }

  /** detectLoss counts exactly the bytes of the open packets it releases as lost. */
  lemma LostBytes(l: Ledger, h: uint16)
    requires |l.slots| == 4096
    ensures DetectLoss(l, h).bytesLost - l.bytesLost == OpenBytes(l.slots) - OpenBytes(DetectLoss(l, h).slots)
  {
    hide DropStart, DropLength, ScanStart, ScanLength, Late, AtOrBelow, InStretch;
    var lo, d, at, n := DropStart(l.hiSeqAck, h), DropLength(l.hiSeqAck, h), ScanStart(l.hiSeqAck, h), ScanLength(l.hiSeqAck, h);
    var dropped := DropRegion(l, lo, d);
    var after := ScanRegion(dropped, at, n, h);
    SumAdd(OpenSizes(l.slots), OpenSizes(dropped.slots), Gate(OpenSizes(l.slots), lo, d));
    SumAdd(OpenSizes(dropped.slots), OpenSizes(after.slots), Gate(LateSizes(dropped), at, n));
    assert DetectLoss(l, h).slots == after.slots;
  }

  lemma AccountedShape(l: Ledger, y: Tally)
    requires Accounted(l, y)
    ensures |l.slots| == 4096
  {
  }

  lemma LoopStarts(l: Ledger, h: uint16)
    requires |l.slots| == 4096
    ensures ScanStart(l.hiSeqAck, h) - DropStart(l.hiSeqAck, h) == DropLength(l.hiSeqAck, h) <= 32
    ensures ScanLength(l.hiSeqAck, h) <= 4096
    ensures DetectLossLoops(l, h)
            == ScanLoop(DropLoop(l, DropStart(l.hiSeqAck, h), DropLength(l.hiSeqAck, h)),
                        ScanStart(l.hiSeqAck, h), ScanLength(l.hiSeqAck, h), h).(hiSeqAck := h)
  {
    hide ScanLoop, DropLoop, DropStart;
  }

  lemma DropKeepsTotal(l: Ledger, lo: int, len: nat)
    requires |l.slots| == 4096
    ensures DropRegion(l, lo, len).bytesInFlight == l.bytesInFlight
  {
  }

  /** What the two loops of detectLoss need and reach, in terms of the lifted ring indices. */
  lemma LoopsAccounted(l: Ledger, y: Tally, h: uint16, lowest: nat, low: nat, high: int)
    requires Accounted(l, y)
    requires lowest == DropStart(l.hiSeqAck, h) && low == ScanStart(l.hiSeqAck, h)
    requires high + 1 - low == ScanLength(l.hiSeqAck, h)
    ensures var dropped := DropLoop(l, lowest, low - lowest);
            && (forall len: nat :: len <= high + 1 - low ==> 0 <= ScanLoop(dropped, low, len, h).bytesInFlight)
            && ScanLoop(dropped, low, high + 1 - low, h).(hiSeqAck := h) == DetectLoss(l, h)
    ensures Accounted(DetectLoss(l, h), TallyDetect(l, y, h))
  {
    hide Accounted, TallyDetect, InFlightBytes, DropLoop, ScanLoop, DropRegion, DropStart, DropLength, ScanStart, ScanLength,
         DetectLoss;
    AccountedShape(l, y);
    LoopStarts(l, h);
    DetectLossAccounted(l, y, h);
    DetectLossLoopsAgree(l, h);
    var dropped := DropLoop(l, lowest, low - lowest);
    DropKeepsTotal(l, lowest, low - lowest);
    forall len: nat | len <= high + 1 - low
      ensures 0 <= ScanLoop(dropped, low, len, h).bytesInFlight
    {
      ScanLoopIsRegion(dropped, low, len, h);
    }
  }

  lemma TimeOutAccounted(l: Ledger, y: Tally)
    requires Accounted(l, y)
    ensures Accounted(TimeOut(l), TallyTimeOut(l, y))
  {
    SumZero(CountedSizes(TimeOut(l).slots));
    SumZero(Opens(TimeOut(l).slots));
    SumNonNegative(Opens(l.slots));
  }

  lemma InFlightNonNegative(l: Ledger, y: Tally)
    requires Accounted(l, y)
    ensures 0 <= InFlightBytes(l.slots) <= l.bytesInFlight
  {
    SumNonNegative(CountedSizes(l.slots));
  }

  // ---------- Runs ----------

  datatype Event =
    | Sent(t: uint32, size: nat, sn: uint16, mark: bool, ts: uint32)
    | Reported(sn: uint16, rxTime: uint32, ceBits: nat, isLast: bool)
    | TimedOut
    | RateUpdated

  function Step(l: Ledger, e: Event): (r: Ledger)
    requires |l.slots| == 4096
    ensures |r.slots| == 4096
  {
    match e
    case Sent(t, size, sn, mark, ts) => Transmit(l, t, size, sn, mark, ts)
    case Reported(sn, rxTime, ceBits, isLast) => Report(l, sn, rxTime, ceBits, isLast)
    case TimedOut => TimeOut(l)
    case RateUpdated => UpdateRate(l)
  }

  function StepTally(l: Ledger, y: Tally, e: Event): Tally
    requires |l.slots| == 4096
  {
    match e
    case Sent(_, _, sn, _, _) => TallyTransmit(l, y, sn)
    case Reported(sn, rxTime, ceBits, isLast) => TallyReport(l, y, sn, rxTime, ceBits, isLast)
    case TimedOut => TallyTimeOut(l, y)
    case RateUpdated => TallyRate(l, y)
  }

  lemma StepAccounted(l: Ledger, y: Tally, e: Event)
    requires Accounted(l, y)
    ensures Accounted(Step(l, e), StepTally(l, y, e))
    ensures !e.Sent? ==> Step(l, e).bytesInFlight <= l.bytesInFlight
  {
    match e
    case Sent(t, size, sn, mark, ts) =>
      TransmitAccounted(l, y, t, size, sn, mark, ts);
    case Reported(sn, rxTime, ceBits, isLast) =>
      MarkAckedAccounted(l, y, sn, rxTime, ceBits);
      DetectLossAccounted(MarkAcked(l, sn, rxTime, ceBits), y, sn);
    case TimedOut =>
      TimeOutAccounted(l, y);
      InFlightNonNegative(l, y);
    case RateUpdated =>
  }

  /** A ledger before the first transmission. */
  ghost predicate IsFresh(l: Ledger) {
    && |l.slots| == 4096
    && (forall k :: 0 <= k < 4096 ==> !l.slots[k].isUsed)
    && l.bytesInFlight == l.bytesTransmitted == l.bytesAcked == l.bytesLost == l.packetLost == 0
    && l.hiSeqAck == l.timeTxAck == l.timeStampAckHigh == 0
    && l.acks == []
  }

  const NO_TALLY: Tally := Tally(0, 0, 0, 0, 0, 0)

  /** The ledger and its totals after a sequence of events. */
  function Run(l: Ledger, y: Tally, events: seq<Event>): (r: (Ledger, Tally))
    requires |l.slots| == 4096
    ensures |r.0.slots| == 4096
  {
    if events == [] then (l, y)
    else
      var (l', y') := Run(l, y, events[..|events| - 1]);
      (Step(l', events[|events| - 1]), StepTally(l', y', events[|events| - 1]))
  }

  lemma {:induction false} RunAppend(l: Ledger, y: Tally, a: seq<Event>, b: seq<Event>)
    requires |l.slots| == 4096
    ensures Run(l, y, a + b) == Run(Run(l, y, a).0, Run(l, y, a).1, b)
  {
    hide Step, StepTally;
    if b == [] {
      assert a + b == a;
    } else {
      assert (a + b)[..|a + b| - 1] == a + b[..|b| - 1];
      RunAppend(l, y, a, b[..|b| - 1]);
    }
  }

  lemma RunNothing(l: Ledger, y: Tally)
    requires |l.slots| == 4096
    ensures Run(l, y, []) == (l, y)
  {
  }

  lemma RunOneMore(l: Ledger, y: Tally, events: seq<Event>, e: Event)
    requires |l.slots| == 4096
    ensures var (l', y') := Run(l, y, events);
            Run(l, y, events + [e]) == (Step(l', e), StepTally(l', y', e))
  {
    hide Step, StepTally;
    assert (events + [e])[..|events|] == events;
  }

  /** Feedback alone keeps the account and never raises bytesInFlight. */
  lemma {:induction false} RunKeepsAccount(l: Ledger, y: Tally, events: seq<Event>)
    requires Accounted(l, y)
    ensures var (l', y') := Run(l, y, events);
            && Accounted(l', y')
            && ((forall k :: 0 <= k < |events| ==> !events[k].Sent?) ==> l'.bytesInFlight <= l.bytesInFlight)
  {
    hide Step, StepTally;
    if events != [] {
      RunKeepsAccount(l, y, events[..|events| - 1]);
      var (l', y') := Run(l, y, events[..|events| - 1]);
      StepAccounted(l', y', events[|events| - 1]);
    }
  }

  /** Bytes and packets transmitted over a whole run. */
  function SentBytes(events: seq<Event>): int {
    if events == [] then 0
    else SentBytes(events[..|events| - 1]) + match events[|events| - 1] { case Sent(_, size, _, _, _) => size case _ => 0 }
  }

  function SentPackets(events: seq<Event>): int {
    if events == [] then 0
    else SentPackets(events[..|events| - 1]) + if events[|events| - 1].Sent? then 1 else 0
  }

  /** Conservation over every run: transmitted bytes are in flight, credited or written off; transmitted
      packets are delivered, lost, open or wiped, one of them each; bytesInFlight never falls below
      the ring's own total. */
  lemma {:induction false} RunConserves(start: Ledger, events: seq<Event>)
    requires IsFresh(start)
    ensures var (l, y) := Run(start, NO_TALLY, events);
            && Accounted(l, y)
            && SentBytes(events) == l.bytesInFlight + (y.pastAcked + l.bytesAcked) + y.writtenOff
            && SentPackets(events) == |l.acks| + l.packetLost + OpenCount(l.slots) + y.wiped
            && 0 <= InFlightBytes(l.slots) <= l.bytesInFlight
  {
    FreshAccounted(start);
    RunKeepsAccount(start, NO_TALLY, events);
    RunCounts(start, events);
    var (l, y) := Run(start, NO_TALLY, events);
    InFlightNonNegative(l, y);
  }

  lemma FreshAccounted(l: Ledger)
    requires IsFresh(l)
    ensures Accounted(l, NO_TALLY)
  {
    SumZero(CountedSizes(l.slots));
    SumZero(Opens(l.slots));
  }

  /** The totals count what was really transmitted. */
  lemma {:induction false} RunCounts(start: Ledger, events: seq<Event>)
    requires IsFresh(start)
    ensures var (l, y) := Run(start, NO_TALLY, events);
            && SentBytes(events) == y.pastTransmitted + l.bytesTransmitted
            && SentPackets(events) == y.sent
  {
    hide DetectLoss, MarkAcked, DetectLeak;
    if events != [] {
      var before := events[..|events| - 1];
      RunCounts(start, before);
      var (l, y) := Run(start, NO_TALLY, before);
      StepCounts(l, y, events[|events| - 1]);
    }
  }

  lemma StepCounts(l: Ledger, y: Tally, e: Event)
    requires |l.slots| == 4096
    ensures StepTally(l, y, e).pastTransmitted + Step(l, e).bytesTransmitted
            == y.pastTransmitted + l.bytesTransmitted + match e { case Sent(_, size, _, _, _) => size case _ => 0 }
    ensures StepTally(l, y, e).sent == y.sent + if e.Sent? then 1 else 0
  {
    hide DetectLeak;
  }
}
