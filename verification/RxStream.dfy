/** ScreamRx::Stream: the receive history updated in place, and report blocks written into a message buffer. */
module RxStreams {
  import opened Serial
  import opened Ccfb
  import opened RxHistory

  /** htons and memcpy: two octets in network order at offset at. */
  method Put16(buf: array<byte>, at: nat, x: uint16)
    requires at + 2 <= buf.Length
    modifies buf
    ensures buf[..at + 2] == old(buf[..at]) + Enc16(x)
    ensures buf[at + 2..] == old(buf[at + 2..])
  {
    buf[at], buf[at + 1] := x / 256, x % 256;
  }

  /** htonl and memcpy: four octets in network order at offset at. */
  method Put32(buf: array<byte>, at: nat, x: uint32)
    requires at + 4 <= buf.Length
    modifies buf
    ensures buf[..at + 4] == old(buf[..at]) + Enc32(x)
    ensures buf[at + 4..] == old(buf[at + 4..])
  {
    Put16(buf, at, x / 65536);
    Put16(buf, at + 2, x % 65536);
  }

  class RxStream {
    const ssrc: uint32
    const nReportedRtpPackets: int
    const ceBitsHist: array<nat>
    const rxTimeHist: array<uint32>
    const seqNrHist: array<uint16>
    var highestSeqNr: uint16
    var highestSeqNrTx: uint16
    var lastFeedbackT: uint32
    var nRtpSinceLastRtcp: nat
    var firstReceived: bool
    var doFlush: bool

    ghost function Repr(): set<object> { {this, ceBitsHist, rxTimeHist, seqNrHist} }

    ghost predicate Valid()
      reads Repr()
    {
      && |Repr()| == 4
      && ceBitsHist.Length == rxTimeHist.Length == seqNrHist.Length == 512
      && 1 <= nReportedRtpPackets < 65536
    }

    ghost function Hist(): History
      reads ceBitsHist, rxTimeHist, seqNrHist
    {
      History(ceBitsHist[..], rxTimeHist[..], seqNrHist[..])
    }

    ghost function Abs(): (s: RxState)
      reads Repr()
      ensures Valid() ==> Shaped(s)
    {
      RxState(ssrc, nReportedRtpPackets, highestSeqNr, highestSeqNrTx, Hist(),
              lastFeedbackT, nRtpSinceLastRtcp, firstReceived, doFlush)
    }

    constructor (ssrc_: uint32, nReported: int)
      requires 1 <= nReported < 65536
      ensures Valid() && fresh(Repr())
      ensures Abs() == NewState(ssrc_, nReported) && ssrc == ssrc_ && nReportedRtpPackets == nReported
    {
      ssrc, nReportedRtpPackets := ssrc_, nReported;
      highestSeqNr, highestSeqNrTx, lastFeedbackT, nRtpSinceLastRtcp := 0, 0, 0, 0;
      firstReceived, doFlush := false, false;
      ceBitsHist := new nat[512](_ => 0);
      rxTimeHist := new uint32[512](_ => 0);
      seqNrHist := new uint16[512](_ => 0);
    }

    /** The first packet presets every entry of seqNrHist to the number after its own. */
    method PresetNumbers(sn: uint16)
      requires Valid()
      modifies seqNrHist
      ensures seqNrHist[..] == seq(512, _ => Wrap16(sn + 1))
    {
      for n := 0 to 512
        invariant forall k :: 0 <= k < n ==> seqNrHist[k] == Wrap16(sn + 1)
      {
        seqNrHist[n] := Wrap16(sn + 1);
      }
    }

    /** Record the packet in the three history vectors. */
    method Record(sn: uint16, t: uint32, ceBits: nat)
      requires Valid()
      modifies ceBitsHist, rxTimeHist, seqNrHist
      ensures ceBitsHist[..] == old(ceBitsHist[..])[sn % 512 := ceBits]
      ensures rxTimeHist[..] == old(rxTimeHist[..])[sn % 512 := t]
      ensures seqNrHist[..] == old(seqNrHist[..])[sn % 512 := sn]
    {
      var ix := sn % 512;
      ceBitsHist[ix] := ceBits;
      rxTimeHist[ix] := t;
      seqNrHist[ix] := sn;
    }

    /** Move highestSeqNr up to sn unless sn counts as older. */
    method RaiseHighest(sn: uint16)
      modifies this`highestSeqNr
      ensures highestSeqNr == if Newer(sn, old(highestSeqNr)) then sn else old(highestSeqNr)
    {
      var snExt: int, highestExt: int := sn, highestSeqNr;
      if sn < highestSeqNr {
        if highestSeqNr - sn > 16384 {
          snExt := snExt + 65536;
        }
      }
      if highestSeqNr < sn {
        if sn - highestSeqNr > 16384 {
          highestExt := highestExt + 65536;
        }
      }
      if snExt >= highestExt {
        highestSeqNr := sn;
      }
    }

    method ReceivePacket(t: uint32, sn: uint16, ceBits: nat, mark: bool)
      requires Valid()
      modifies Repr()
      ensures Valid()
      ensures Abs() == Receive(old(Abs()), sn, t, ceBits, mark)
    {
      nRtpSinceLastRtcp := nRtpSinceLastRtcp + 1;
      doFlush := doFlush || mark;
      if !firstReceived {
        highestSeqNr := Wrap16(sn - 1);
        PresetNumbers(sn);
        firstReceived := true;
      }
      Record(sn, t, ceBits);
      RaiseHighest(sn);
    }

    /** How far this report goes: all the way to the highest number, or one block beyond the last report. */
    method AdvanceTx() returns (snLo: uint16)
      requires Valid()
      modifies this`highestSeqNrTx
      ensures Abs() == old(Abs()).(highestSeqNrTx := NextTx(old(Abs())))
      ensures snLo == Sub16(highestSeqNrTx, nReportedRtpPackets - 1)
    {
      var n := nReportedRtpPackets;
      snLo := Sub16(highestSeqNr, n - 1);
      if highestSeqNr - highestSeqNrTx > n {
        OneBlockOn(highestSeqNr, highestSeqNrTx, n);
        var numLeftover := Wrap16(highestSeqNr - highestSeqNrTx - n);
        snLo := Sub16(snLo, numLeftover);
        highestSeqNrTx := Wrap16(snLo + n - 1);
      } else {
        highestSeqNrTx := highestSeqNr;
      }
    }

    /** The 16-bit report element for number sn. */
    method ElementFor(sn: uint16, t: uint32) returns (element: uint16)
      requires Valid()
      ensures element == ReportFor(Hist(), sn, t)
    {
      var ix := sn % 512;
      var ato := Sub32(t, rxTimeHist[ix]) / 64;
      if ato > 8189 {
        ato := 8190;
      }
      element := 0;
      if seqNrHist[ix] == sn && rxTimeHist[ix] != 0 {
        element := 32768 + ceBitsHist[ix] % 4 * 8192 + ato;
      }
    }

    /** The n report elements from number snLo on, written at offset at. */
    method WriteElements(t: uint32, snLo: uint16, n: nat, buf: array<byte>, at: nat)
      requires Valid() && buf !in Repr() && at + 2 * n <= buf.Length
      modifies buf
      ensures buf[..at + 2 * n] == old(buf[..at]) + EncWords(ReportsFrom(Hist(), snLo, n, t))
      ensures buf[at + 2 * n..] == old(buf[at + 2 * n..])
    {
      hide ReportFor, Enc16, EncWords, ReportsFrom;
      ghost var h, before := Hist(), buf[..at];
      var ptr := at;
      NoReports(h, snLo, t);
      for k := 0 to n
        invariant ptr == at + 2 * k
        invariant buf[..ptr] == before + EncWords(ReportsFrom(h, snLo, k, t))
        invariant buf[ptr..] == old(buf[..])[ptr..]
      {
        var element := ElementFor(Wrap16(snLo + k), t);
        ghost var done := ReportsFrom(h, snLo, k, t);
        ReportsAppend(h, snLo, k, t);
        EncWordsAppend(done, element);
        Put16(buf, ptr, element);
        ptr := ptr + 2;
      }
    }

    /** SSRC, first number and number of reports minus one. */
    method WriteHeader(snLo: uint16, buf: array<byte>, at: nat)
      requires 1 <= nReportedRtpPackets < 65536 && at + 8 <= buf.Length
      modifies buf
      ensures buf[..at + 8] == old(buf[..at]) + (Enc32(ssrc) + Enc16(snLo) + Enc16(nReportedRtpPackets - 1))
    {
      Put32(buf, at, ssrc);
      Put16(buf, at + 4, snLo);
      Put16(buf, at + 6, nReportedRtpPackets - 1);
    }

    /** Two zero octets after an odd number n of elements. */
    static method WritePadding(n: nat, buf: array<byte>, at: nat) returns (end: nat)
      requires at + |Padding(n)| <= buf.Length
      modifies buf
      ensures end == at + |Padding(n)|
      ensures buf[..end] == old(buf[..at]) + Padding(n)
    {
      end := at;
      if n % 2 == 1 {
        Put16(buf, end, 0);
        end := end + 2;
      }
    }

    /** A whole block, beginning with number snLo. */
    method WriteBlock(t: uint32, snLo: uint16, buf: array<byte>, at: nat) returns (size: nat)
      requires Valid() && buf !in Repr()
      requires at + BlockSize(nReportedRtpPackets) <= buf.Length
      modifies buf
      ensures size == BlockSize(nReportedRtpPackets)
      ensures buf[..at + size]
              == old(buf[..at]) + PrintBlock(Block(ssrc, snLo, ReportsFrom(Hist(), snLo, nReportedRtpPackets, t)))
    {
      ghost var before := buf[..at];
      var n := nReportedRtpPackets;
      ghost var block := Block(ssrc, snLo, ReportsFrom(Hist(), snLo, n, t));
      WriteHeader(snLo, buf, at);
      ghost var afterHeader := buf[..at + 8];
      WriteElements(t, snLo, n, buf, at + 8);
      ghost var afterElements := buf[..at + 8 + 2 * n];
      var end := WritePadding(n, buf, at + 8 + 2 * n);
      Assemble(block, before, afterHeader, afterElements, buf[..end]);
      size := end - at;
    }

    /** getStandardizedFeedback: the report block of this stream, written at offset at. */
    method GetStandardizedFeedback(t: uint32, buf: array<byte>, at: nat) returns (size: nat)
      requires Valid() && buf !in Repr()
      requires at + BlockSize(nReportedRtpPackets) <= buf.Length
      modifies this`highestSeqNrTx, this`doFlush, buf
      ensures Valid() && Abs() == Reported(old(Abs()))
      ensures size == BlockSize(nReportedRtpPackets)
      ensures buf[..at + size] == old(buf[..at]) + PrintBlock(ReportBlock(old(Abs()), t))
    {
      var snLo := AdvanceTx();
      doFlush := highestSeqNrTx != highestSeqNr;
      assert ReportBlock(old(Abs()), t) == Block(ssrc, snLo, ReportsFrom(Hist(), snLo, nReportedRtpPackets, t));
      size := WriteBlock(t, snLo, buf, at);
    }
  }

  lemma NoReports(h: History, snLo: uint16, t: uint32)
    requires Full(h)
    ensures ReportsFrom(h, snLo, 0, t) == [] && EncWords([]) == []
  {
  }

  /** Stepping back by what does not fit in the block leads to the number after the last reported one. */
  lemma OneBlockOn(highest: uint16, reported: uint16, n: int)
    requires 1 <= n < highest - reported
    ensures Sub16(Sub16(highest, n - 1), Wrap16(highest - reported - n)) == reported + 1
    ensures Wrap16(reported + 1 + n - 1) == reported + n
  {
  }

  /** Header, elements and padding, one after another, are the printed block. */
  lemma Assemble(block: Block, before: seq<byte>, afterHeader: seq<byte>, afterElements: seq<byte>, whole: seq<byte>)
    requires afterHeader == before + (Enc32(block.ssrc) + Enc16(block.beginSeq) + Enc16(|block.reports| - 1))
    requires afterElements == afterHeader + EncWords(block.reports)
    requires whole == afterElements + Padding(|block.reports|)
    ensures whole == before + PrintBlock(block)
  {
    Regroup(before, Enc32(block.ssrc) + Enc16(block.beginSeq) + Enc16(|block.reports| - 1),
            EncWords(block.reports), Padding(|block.reports|));
  }

  lemma Regroup(a: seq<byte>, b: seq<byte>, c: seq<byte>, d: seq<byte>)
    ensures a + b + c + d == a + (b + c + d)
  {
  }
}
