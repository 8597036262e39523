/** The transmit ring and its counters, updated in place as ScreamV2Tx does. */
module InFlightLedgers {
  import opened Serial
  import opened TxRing
  import opened InFlight

  class InFlightLedger {
    const txPackets: array<Transmitted>
    var bytesInFlight: int
    var hiSeqAck: uint16
    var timeTxAck: uint32
    var timeStampAckHigh: uint32
    var bytesTransmitted: int
    var bytesAcked: int
    var bytesLost: int
    var packetLost: int
    var lastTransmitT: uint32
    var nextTransmitT: uint32

    ghost var acks: seq<Ack>
    ghost var tally: Tally

    ghost function Abs(): Ledger
      reads this, txPackets
    {
      Ledger(txPackets[..], bytesInFlight, hiSeqAck, timeTxAck, timeStampAckHigh,
             bytesTransmitted, bytesAcked, bytesLost, packetLost, acks)
    }

    ghost predicate Valid()
      reads this, txPackets
    {
      Accounted(Abs(), tally)
    }

    constructor (t: uint32)
      ensures Valid() && fresh(txPackets)
      ensures IsFresh(Abs()) && tally == NO_TALLY
      ensures lastTransmitT == nextTransmitT == t
    {
      txPackets := new Transmitted[4096](_ => Transmitted(0, 0, 0, 0, false, false, false, false));
      bytesInFlight, bytesTransmitted, bytesAcked, bytesLost, packetLost := 0, 0, 0, 0, 0;
      hiSeqAck, timeTxAck, timeStampAckHigh := 0, 0, 0;
      lastTransmitT, nextTransmitT := t, t;
      acks, tally := [], NO_TALLY;
      new;
      FreshAccounted(Abs());
    }

    lemma InFlightCovered()
      requires Valid()
      ensures bytesInFlight >= 0 && txPackets.Length == |Abs().slots| == 4096
    {
      InFlightNonNegative(Abs(), tally);
    }

    lemma OnlySendingRaises(e: Event)
      requires Valid() && !e.Sent? && |Abs().slots| == 4096
      ensures Step(Abs(), e).bytesInFlight <= bytesInFlight
    {
      StepAccounted(Abs(), tally, e);
      hide Step, StepTally;
    }

    /** addTransmitted, its ring and in-flight part. */
    method AddTransmitted(t: uint32, size: nat, sn: uint16, mark: bool, ts: uint32, paceInterval: uint32)
      requires Valid()
      modifies this, txPackets
      ensures Valid()
      ensures Abs() == Transmit(old(Abs()), t, size, sn, mark, ts)
      ensures tally == TallyTransmit(old(Abs()), old(tally), sn)
      ensures lastTransmitT == t && nextTransmitT == Wrap32(t + paceInterval)
    {
      TransmitAccounted(Abs(), tally, t, size, sn, mark, ts);
      tally := TallyTransmit(Abs(), tally, sn);
      var ix := sn % 4096;
      txPackets[ix] := Transmitted(t, size, sn, ts, mark, true, false, false);
      bytesInFlight := bytesInFlight + size;
      bytesTransmitted := bytesTransmitted + size;
      lastTransmitT := t;
      nextTransmitT := Wrap32(t + paceInterval);
      assert txPackets[..] == old(txPackets[..])[Slot(sn) := txPackets[ix]];
    }

    /** markAcked, its ring part: acked says that the report settled a packet, isMark that the packet ended a frame. */
    method MarkAckedInPlace(sn: uint16, ghost rxTime: uint32, ghost ceBits: nat) returns (acked: bool, isMark: bool)
      requires Valid()
      modifies this, txPackets
      ensures Valid() && tally == old(tally)
      ensures Abs() == MarkAcked(old(Abs()), sn, rxTime, ceBits)
      ensures acked == Acknowledges(old(Abs()), sn)
      ensures isMark == (acked && old(Abs()).slots[Slot(sn)].isMark)
      ensures lastTransmitT == old(lastTransmitT) && nextTransmitT == old(nextTransmitT)
    {
      MarkAckedAccounted(Abs(), tally, sn, rxTime, ceBits);
      acked, isMark := false, false;
      var ix := sn % 4096;
      if txPackets[ix].isUsed {
        var p := txPackets[ix];
        if p.seqNr == sn && !p.isAcked {
          isMark := p.isMark;
          var diff := Sub32(p.timeStamp, timeStampAckHigh);
          if diff < 50000 {
            timeStampAckHigh := p.timeStamp;
          }
          txPackets[ix] := p.(isAcked := true);
          timeTxAck := p.timeTx;
          acked := true;
          acks := acks + [Ack(Slot(sn), sn, rxTime, ceBits)];
          assert txPackets[..] == old(txPackets[..])[Slot(sn) := txPackets[ix]];
        }
      }
    }

    /** The body of detectLoss's first loop. */
    method DropSlot(n: nat)
      requires n < txPackets.Length
      modifies this`bytesLost, this`packetLost, txPackets
      ensures Abs() == DropOne(old(Abs()), n)
    {
      var p := txPackets[n];
      if p.isUsed {
        if !p.isAcked {
          bytesLost := bytesLost + p.size;
          packetLost := packetLost + 1;
        }
        p := p.(isUsed := false);
        txPackets[n] := p;
      }
      assert txPackets[..] == old(txPackets[..])[n := p];
    }

    /** The body of detectLoss's second loop. Clamping bytesInFlight at zero changes nothing. */
    method ScanSlot(n: nat, h: uint16)
      requires n < txPackets.Length
      requires 0 <= ScanOne(Abs(), n, h).bytesInFlight
      modifies this`bytesInFlight, this`bytesAcked, this`bytesLost, this`packetLost, txPackets
      ensures Abs() == ScanOne(old(Abs()), n, h)
    {
      var p := txPackets[n];
      if p.isUsed {
        var snExt: int, hExt: int := p.seqNr, h;
        if snExt < hExt && hExt - snExt > 20000 {
          snExt := snExt + 65536;
        } else if snExt > hExt && snExt - hExt > 20000 {
          hExt := hExt + 65536;
        }
        if snExt <= hExt && !p.isAfterReceivedEdge {
          bytesInFlight := bytesInFlight - p.size;
          if bytesInFlight < 0 {
            bytesInFlight := 0;
          }
          bytesAcked := bytesAcked + p.size;
          p := p.(isAfterReceivedEdge := true);
        }
        var correction := 65536 * Sub32(timeStampAckHigh, p.timeStamp) / CLOCK_RATE;
        if Wrap32(p.timeTx + REORDER_TIME + correction) < timeTxAck && !p.isAcked {
          bytesLost := bytesLost + p.size;
          packetLost := packetLost + 1;
          p := p.(isUsed := false);
        } else if p.isAcked {
          p := p.(isUsed := false);
        }
        txPackets[n] := p;
      }
      assert txPackets[..] == old(txPackets[..])[n := p];
    }

    /** The first loop of detectLoss, over ring positions lo up to hi. */
    method DropInPlace(lo: nat, hi: nat)
      requires txPackets.Length == 4096 && lo <= hi
      modifies this`bytesLost, this`packetLost, txPackets
      ensures Abs() == DropLoop(old(Abs()), lo, hi - lo)
    {
      for m := lo to hi
        invariant Abs() == DropLoop(old(Abs()), lo, m - lo)
      {
        DropSlot(m % 4096);
      }
    }

    /** The second loop of detectLoss, over ring positions lo up to hi. */
    method ScanInPlace(lo: nat, hi: nat, h: uint16)
      requires txPackets.Length == 4096 && lo <= hi
      requires forall len: nat :: len <= hi - lo ==> 0 <= ScanLoop(Abs(), lo, len, h).bytesInFlight
      modifies this`bytesInFlight, this`bytesAcked, this`bytesLost, this`packetLost, txPackets
      ensures Abs() == ScanLoop(old(Abs()), lo, hi - lo, h)
    {
      for m := lo to hi
        invariant Abs() == ScanLoop(old(Abs()), lo, m - lo, h)
      {
        assert 0 <= ScanLoop(old(Abs()), lo, m - lo + 1, h).bytesInFlight;
        ScanSlot(m % 4096, h);
      }
    }

    /** The lifted ring indices of detectLoss: the first loop runs over lowest..low, the second over low..=high. */
    static method LiftedIndices(hiSeqAck: uint16, h: uint16) returns (lowest: int, low: int, high: int)
      ensures lowest == DropStart(hiSeqAck, h)
      ensures low == lowest + DropLength(hiSeqAck, h)
      ensures high == low + ScanLength(hiSeqAck, h) - 1
    {
      ghost var q, p: int := hiSeqAck / 4096, hiSeqAck % 4096;
      high := h % 4096;
      low := hiSeqAck % 4096;
      low := low - 512;
      var diff := Min(32, Sub16(h, hiSeqAck));
      if low < 0 {
        low := low + 4096;
      }
      lowest := low - diff;
      if lowest < 0 {
        lowest := lowest + 4096;
        low := low + 4096;
      }
      Remainder(hiSeqAck - 512 - diff, if lowest == p - 512 - diff then q else q - 1, lowest);
      ghost var rounds := 0;
      while high < low
        invariant high < low + 4096 && high == h % 4096 + 4096 * rounds
      {
        high := high + 4096;
        rounds := rounds + 1;
      }
      Remainder(h - low, h / 4096 - rounds, high - low);
    }

    /** The two loops of detectLoss, over ring positions lowest up to low, and low up to and including high. */
    method SweepInPlace(lowest: nat, low: nat, high: int, h: uint16)
      requires txPackets.Length == 4096 && lowest <= low <= high
      requires var dropped := DropLoop(Abs(), lowest, low - lowest);
               forall len: nat :: len <= high + 1 - low ==> 0 <= ScanLoop(dropped, low, len, h).bytesInFlight
      modifies this`bytesInFlight, this`bytesAcked, this`bytesLost, this`packetLost, this`hiSeqAck, txPackets
      ensures Abs() == ScanLoop(DropLoop(old(Abs()), lowest, low - lowest), low, high + 1 - low, h).(hiSeqAck := h)
    {
      DropInPlace(lowest, low);
      ScanInPlace(low, high + 1, h);
      ghost var scanned := Abs();
      hiSeqAck := h;
      assert txPackets[..] == scanned.slots;
    }

    /** detectLoss: h becomes the highest acknowledged sequence number. */
    method DetectLossInPlace(h: uint16)
      requires Valid()
      modifies this, txPackets
      ensures Valid()
      ensures Abs() == DetectLoss(old(Abs()), h)
      ensures tally == TallyDetect(old(Abs()), old(tally), h)
      ensures lastTransmitT == old(lastTransmitT) && nextTransmitT == old(nextTransmitT)
    {
      ghost var start, next := Abs(), TallyDetect(Abs(), tally, h);
      var lowest, low, high := LiftedIndices(hiSeqAck, h);
      LoopsAccounted(start, tally, h, lowest, low, high);
      SweepInPlace(lowest, low, high, h);
      tally := next;
    }

    /** One received report element. */
    method ReportInPlace(sn: uint16, ghost rxTime: uint32, ghost ceBits: nat, isLast: bool)
      requires Valid()
      modifies this, txPackets
      ensures Valid()
      ensures Abs() == Report(old(Abs()), sn, rxTime, ceBits, isLast)
      ensures tally == TallyReport(old(Abs()), old(tally), sn, rxTime, ceBits, isLast)
      ensures lastTransmitT == old(lastTransmitT) && nextTransmitT == old(nextTransmitT)
    {
      var acked, isMark := MarkAckedInPlace(sn, rxTime, ceBits);
      if isLast || isMark {
        DetectLossInPlace(sn);
      }
    }

    /** updateRate, its counter resets. */
    method UpdateRateInPlace()
      requires Valid()
      modifies this
      ensures Valid()
      ensures Abs() == UpdateRate(old(Abs())) && tally == TallyRate(old(Abs()), old(tally))
      ensures bytesTransmitted == bytesAcked == bytesLost == 0 && bytesInFlight == old(bytesInFlight)
      ensures lastTransmitT == old(lastTransmitT) && nextTransmitT == old(nextTransmitT)
    {
      tally := TallyRate(Abs(), tally);
      bytesTransmitted, bytesAcked, bytesLost := 0, 0, 0;
    }

    /** The retransmission time-out: forget every packet of the ring. */
    method ResetInPlace()
      requires Valid()
      modifies this`bytesInFlight, this`tally, txPackets
      ensures Valid()
      ensures Abs() == TimeOut(old(Abs())) && tally == TallyTimeOut(old(Abs()), old(tally))
    {
      TimeOutAccounted(Abs(), tally);
      ghost var start := txPackets[..];
      for n := 0 to 4096
        invariant forall k :: 0 <= k < 4096 ==>
                    txPackets[k] == if k < n then start[k].(isUsed := false) else start[k]
      {
        txPackets[n] := txPackets[n].(isUsed := false);
      }
      bytesInFlight := 0;
      tally := TallyTimeOut(old(Abs()), old(tally));
      assert txPackets[..] == TimeOut(old(Abs())).slots;
    }

    /** isOkToTransmit for a stream whose next packet has size bytes (-1: none): the verdict is 0 for now,
        positive for the seconds to wait, and -1 for no. */
    method IsOkToTransmit(t: uint32, size: int, cwnd: int, headroom: real, mss: int) returns (verdict: real)
      requires Valid() && -1 <= size
      modifies this, txPackets
      ensures Valid()
      ensures (Abs(), verdict) == Admit(old(Abs()), old(lastTransmitT), old(nextTransmitT), t, size, cwnd, headroom, mss)
      ensures tally == if size != -1 && TimeOutDue(old(lastTransmitT), t)
                       then TallyTimeOut(old(Abs()), old(tally)) else old(tally)
      ensures lastTransmitT == old(lastTransmitT) && nextTransmitT == old(nextTransmitT)
    {
      if size == -1 {
        return -1.0;
      }
      var exit := (bytesInFlight + size) as real > cwnd as real * headroom + mss as real;
      verdict := 0.0;
      var wait := Sub32(nextTransmitT, t);
      if nextTransmitT > t && wait < 0xFFFF0000 {
        verdict := (nextTransmitT - t) as real / 65536.0;
      }
      if Sub32(t, lastTransmitT) > 32768 && lastTransmitT < t {
        ResetInPlace();
        exit := false;
        verdict := 0.0;
      }
      if exit {
        return -1.0;
      }
    }
  }
}
