/** ScreamRx: the receiver session, its streams updated in place and its feedback messages. */
module RxSession {
  import opened Options
  import opened Serial
  import opened Ccfb
  import opened RxHistory
  import opened RxSchedule
  import opened RxStreams

  class ScreamRx {
    const ssrc: uint32
    const ackDiff: int
    const nReportedRtpPackets: int
    var rtcpFbInterval: uint32
    var lastRateComputeT: uint32
    var lastFeedbackT: uint32
    var streams: seq<RxStream>

    ghost function StreamRepr(): set<object>
      reads this
    {
      set i, o | 0 <= i < |streams| && o in streams[i].Repr() :: o
    }

    ghost predicate Valid()
      reads this, StreamRepr()
    {
      && 1 <= nReportedRtpPackets < 65536
      && this !in StreamRepr()
      && (forall i :: 0 <= i < |streams| ==>
            streams[i].Valid() && streams[i].nReportedRtpPackets == nReportedRtpPackets)
      && (forall i, j :: 0 <= i < j < |streams| ==> streams[i].Repr() !! streams[j].Repr())
      && (forall i, j :: 0 <= i < j < |streams| ==> streams[i].ssrc != streams[j].ssrc)
    }

    ghost function Abs(): (ss: seq<RxState>)
      requires Valid()
      reads this, StreamRepr()
      ensures AllShaped(ss, nReportedRtpPackets) && |ss| == |streams|
      ensures forall i :: 0 <= i < |ss| ==> ss[i] == streams[i].Abs()
    {
      seq(|streams|, i requires 0 <= i < |streams| && Valid() reads this, StreamRepr() => streams[i].Abs())
    }

    constructor (ssrc_: uint32, ackDiff_: int, nReported: int)
      requires 1 <= nReported < 65536
      ensures Valid() && streams == []
      ensures ssrc == ssrc_ && ackDiff == if ackDiff_ > 0 then ackDiff_ else Max(1, nReported / 2)
      ensures ackDiff >= 1 && nReportedRtpPackets == nReported && rtcpFbInterval == 13107 && lastRateComputeT == 0
    {
      ssrc := ssrc_;
      nReportedRtpPackets := nReported;
      ackDiff := if ackDiff_ > 0 then ackDiff_ else Max(1, nReported / 2);
      rtcpFbInterval := 13107;  // 200 ms in Q16
      lastRateComputeT, lastFeedbackT := 0, 0;
      streams := [];
    }

    /** One packet for stream k. */
    method ReceiveAt(k: nat, t: uint32, sn: uint16, ceBits: nat, mark: bool)
      requires Valid() && k < |streams|
      modifies streams[k].Repr()
      ensures Valid() && Abs() == old(Abs())[k := Receive(old(Abs())[k], sn, t, ceBits, mark)]
    {
      hide Receive;
      streams[k].ReceivePacket(t, sn, ceBits, mark);
    }

    /** One round of the search loop: stream k leads if it is due and its feedback is older than the best's. */
    method TryStream(k: nat, best: Option<nat>, d: Due) returns (leads: bool)
      requires Valid() && k < |streams| && (best.Some? ==> best.value < |streams|)
      requires d.ackDiff == ackDiff && d.interval == rtcpFbInterval
      modifies streams[k]
      ensures Valid()
      ensures var ss := old(Abs());
              && leads == (IsDue(ss[k], d) && (best.None? || ss[k].lastFeedbackT < ss[best.value].lastFeedbackT))
              && Abs() == ss[k := if leads then ss[k].(doFlush := false) else ss[k]]
    {
      var s := streams[k];
      var diff := Sub32(d.t, s.lastFeedbackT);
      leads := (s.nRtpSinceLastRtcp >= Min(16, ackDiff) || s.doFlush || diff > rtcpFbInterval
                || (d.isMark && s.nRtpSinceLastRtcp > 0))
               && (best.None? || s.lastFeedbackT < streams[best.value].lastFeedbackT);
      if leads {
        s.doFlush := false;
      }
    }

    /** Stream k's block written at offset at, and the stream marked as reported. */
    method ServeStream(k: nat, t: uint32, buf: array<byte>, at: nat) returns (size: nat)
      requires Valid() && k < |streams| && buf !in StreamRepr()
      requires at + BlockSize(nReportedRtpPackets) <= buf.Length
      modifies streams[k], buf
      ensures Valid() && Abs() == old(Abs())[k := Served(old(Abs())[k], t)]
      ensures size == BlockSize(nReportedRtpPackets)
      ensures buf[..at + size] == old(buf[..at]) + PrintBlock(ReportBlock(old(Abs())[k], t))
    {
      hide ReportBlock, PrintBlock, BlockSize;
      var s := streams[k];
      size := s.GetStandardizedFeedback(t, buf, at);
      s.lastFeedbackT := t;
      s.nRtpSinceLastRtcp := 0;
    }

    /** A stream for an SSRC not seen before. */
    method AddStream(ssrc_: uint32)
      requires Valid() && forall i :: 0 <= i < |streams| ==> streams[i].ssrc != ssrc_
      modifies this`streams
      ensures Valid() && fresh(StreamRepr() - old(StreamRepr()))
      ensures Abs() == old(Abs()) + [NewState(ssrc_, nReportedRtpPackets)]
      ensures |streams| == |old(streams)| + 1 && fresh(streams[|streams| - 1].Repr())
    {
      hide NewState;
      var stream := new RxStream(ssrc_, nReportedRtpPackets);
      streams := streams + [stream];
      assert forall i :: 0 <= i < |old(streams)| ==> streams[i].Repr() !! stream.Repr();
      assert Abs() == old(Abs()) + [stream.Abs()];
    }

    /** The part of receive that sets the feedback interval to 40 ms, 100 ms after the first packet. */
    method UpdateInterval(t: uint32)
      requires Valid()
      modifies this`rtcpFbInterval, this`lastRateComputeT
      ensures Valid() && Abs() == old(Abs())
      ensures var since := if old(lastRateComputeT) == 0 then t else old(lastRateComputeT);
              if Sub32(t, since) > 6554 then rtcpFbInterval == 2621 && lastRateComputeT == t
              else rtcpFbInterval == old(rtcpFbInterval) && lastRateComputeT == since
    {
      if lastRateComputeT == 0 {
        lastRateComputeT := t;
      }
      if Sub32(t, lastRateComputeT) > 6554 {
        lastRateComputeT := t;
        rtcpFbInterval := 2621;
      }
      assert Abs() == old(Abs());
    }

    /** receive: set the feedback interval, and hand the packet to the stream with its SSRC, adding a stream for an SSRC not seen before. */
    method ReceivePacket(t: uint32, ssrc_: uint32, sn: uint16, ceBits: nat, mark: bool)
      requires Valid()
      modifies this`streams, this`rtcpFbInterval, this`lastRateComputeT, StreamRepr()
      ensures Valid()
      ensures Abs() == Delivered(old(Abs()), nReportedRtpPackets, t, ssrc_, sn, ceBits, mark)
      ensures var since := if old(lastRateComputeT) == 0 then t else old(lastRateComputeT);
              if Sub32(t, since) > 6554 then rtcpFbInterval == 2621 && lastRateComputeT == t
              else rtcpFbInterval == old(rtcpFbInterval) && lastRateComputeT == since
    {
      hide Delivered, Valid;
      UpdateInterval(t);
      Deliver(t, ssrc_, sn, ceBits, mark);
    }

    /** Hand the packet to the stream with its SSRC, adding a stream for an SSRC not seen before. */
    method Deliver(t: uint32, ssrc_: uint32, sn: uint16, ceBits: nat, mark: bool)
      requires Valid()
      modifies this`streams, StreamRepr()
      ensures Valid()
      ensures Abs() == Delivered(old(Abs()), nReportedRtpPackets, t, ssrc_, sn, ceBits, mark)
    {
      hide Receive;
      for k := 0 to |streams|
        invariant Valid() && Abs() == old(Abs()) && streams == old(streams)
        invariant forall i :: 0 <= i < k ==> streams[i].ssrc != ssrc_
      {
        if streams[k].ssrc == ssrc_ {
          ReceiveAt(k, t, sn, ceBits, mark);
          DeliveredTo(old(Abs()), nReportedRtpPackets, k, t, ssrc_, sn, ceBits, mark);
          return;
        }
      }
      AddStream(ssrc_);
      DeliveredNew(old(Abs()), nReportedRtpPackets, t, ssrc_, sn, ceBits, mark);
      ReceiveAt(|streams| - 1, t, sn, ceBits, mark);
    }

    /** The search loop of createStandardizedFeedback. */
    method FindStream(d: Due) returns (best: Option<nat>)
      requires Valid() && d.ackDiff == ackDiff && d.interval == rtcpFbInterval
      modifies streams
      ensures Valid()
      ensures Abs() == Searched(old(Abs()), |streams|, d)
      ensures best == Best(old(Abs()), |streams|, d)
    {
      hide Best, Searched, Shaped, AllShaped, Full;
      ghost var ss := Abs();
      best := None;
      SearchNothing(ss, d);
      for k := 0 to |streams|
        invariant Valid() && (best.Some? ==> best.value < k)
        invariant best == Best(ss, k, d)
        invariant Abs() == Searched(ss, k, d)
      {
        best := SearchRound(ss, k, best, d);
      }
    }

    /** One round of the search loop. */
    method SearchRound(ghost ss: seq<RxState>, k: nat, best: Option<nat>, d: Due) returns (next: Option<nat>)
      requires Valid() && k < |streams| == |ss| && d.ackDiff == ackDiff && d.interval == rtcpFbInterval
      requires best == Best(ss, k, d) && Abs() == Searched(ss, k, d)
      modifies streams[k]
      ensures Valid()
      ensures next == Best(ss, k + 1, d) && Abs() == Searched(ss, k + 1, d)
    {
      hide Best, Searched, IsDue, Shaped, AllShaped, Full;
      SearchStep(ss, k, d);
      var leads := TryStream(k, best, d);
      next := if leads then Some(k) else best;
    }

    /** One round of the block loop: find the stream to report, and append its block at offset at. */
    method EmitBlock(d: Due, buf: array<byte>, at: nat) returns (best: Option<nat>, size: nat)
      requires Valid() && buf !in StreamRepr()
      requires d.ackDiff == ackDiff && d.interval == rtcpFbInterval
      requires at + BlockSize(nReportedRtpPackets) <= buf.Length
      modifies streams, buf
      ensures Valid()
      ensures best == Best(old(Abs()), |streams|, d)
      ensures best.None? ==> Abs() == old(Abs()) && buf[..at] == old(buf[..at])
      ensures best.Some? ==>
                && Abs() == ServedAt(old(Abs()), best.value, d, nReportedRtpPackets)
                && size == BlockSize(nReportedRtpPackets)
                && buf[..at + size] == old(buf[..at]) + PrintBlock(ReportBlock(old(Abs())[best.value], d.t))
    {
      hide Best, Searched, PrintBlock, ReportBlock, BlockSize, Served;
      ghost var ss := Abs();
      best := FindStream(d);
      size := 0;
      match best {
        case None =>
          SearchedInVain(ss, d);
        case Some(b) =>
          SearchedBlock(ss, b, d);
          size := ServeStream(b, d.t, buf, at);
      }
    }

    /** The block loop of createStandardizedFeedback, starting with a message of 8 octets. */
    method WriteBlocks(d: Due, buf: array<byte>) returns (size: nat, ghost blocks: seq<Block>)
      requires Valid() && buf !in StreamRepr()
      requires d.ackDiff == ackDiff && d.interval == rtcpFbInterval
      requires 904 + BlockSize(nReportedRtpPackets) <= buf.Length
      modifies streams, buf
      ensures Valid()
      ensures (Abs(), blocks) == Emit(old(Abs()), d, nReportedRtpPackets, 8)
      ensures size + 4 <= buf.Length && buf[..size] == old(buf[..8]) + PrintBlocks(blocks)
      ensures blocks == [] ==> size == 8
    {
      hide Emit, Best, ServedAt, PrintBlocks, PrintBlock, ReportBlock, Shaped, AllShaped, Full;
      ghost var head, n := buf[..8], nReportedRtpPackets;
      ghost var all := Emit(Abs(), d, n, 8);
      size, blocks := 8, [];
      PrintNothing();
      assert [] + all.1 == all.1;
      while size < 900
        invariant Valid() && buf !in StreamRepr()
        invariant 8 <= size && size < 900 + BlockSize(n)
        invariant buf[..size] == head + PrintBlocks(blocks)
        invariant all == (Emit(Abs(), d, n, size).0, blocks + Emit(Abs(), d, n, size).1)
        invariant blocks == [] ==> size == 8
        decreases 900 - size
      {
        var more;
        more, size, blocks := WriteNext(d, buf, size, head, blocks, all);
        if !more {
          break;
        }
      }
      EmitDone(Abs(), d, n, size);
      assert blocks + [] == blocks;
    }

    /** One more round of the block loop, after the blocks done: all is what the loop as a whole is to yield. */
    method WriteNext(d: Due, buf: array<byte>, size: nat, ghost head: seq<byte>, ghost done: seq<Block>,
                     ghost all: (seq<RxState>, seq<Block>))
      returns (more: bool, next: nat, ghost blocks: seq<Block>)
      requires Valid() && buf !in StreamRepr()
      requires d.ackDiff == ackDiff && d.interval == rtcpFbInterval
      requires size < 900 && 904 + BlockSize(nReportedRtpPackets) <= buf.Length
      requires buf[..size] == head + PrintBlocks(done)
      requires var (r, rest) := Emit(Abs(), d, nReportedRtpPackets, size); all == (r, done + rest)
      modifies streams, buf
      ensures Valid() && next <= size + BlockSize(nReportedRtpPackets) && buf[..next] == head + PrintBlocks(blocks)
      ensures var (r, rest) := Emit(Abs(), d, nReportedRtpPackets, next); all == (r, blocks + rest)
      ensures if more then next > size && blocks != []
              else next == size && blocks == done && Best(Abs(), |streams|, d) == None
    {
      hide Emit, Best, ServedAt, PrintBlocks, PrintBlock, ReportBlock, Shaped, AllShaped, Full;
      ghost var ss := Abs();
      var best, written := EmitBlock(d, buf, size);
      more, next, blocks := best.Some?, size, done;
      if more {
        ghost var block := ReportBlock(ss[best.value], d.t);
        EmitProgress(all, done, ss, d, nReportedRtpPackets, size, best.value);
        PrintBlocksAppend(done, block);
        next, blocks := size + written, done + [block];
      }
    }

    /** createStandardizedFeedback: a message for the streams that are due, if any. */
    method CreateStandardizedFeedback(t: uint32, isMark: bool, buf: array<byte>)
      returns (made: bool, size: nat, ghost blocks: seq<Block>)
      requires Valid() && buf !in StreamRepr()
      requires 904 + BlockSize(nReportedRtpPackets) <= buf.Length
      modifies this`lastFeedbackT, streams, buf
      ensures Valid()
      ensures (Abs(), blocks) == Emit(old(Abs()), Due(t, isMark, ackDiff, rtcpFbInterval), nReportedRtpPackets, 8)
      ensures made <==> blocks != []
      ensures made ==> size <= buf.Length && buf[..size] == Print(ssrc, Feedback(blocks, t))
      ensures lastFeedbackT == if made then t else old(lastFeedbackT)
    {
      hide Emit, PrintBlocks, Print, BlockSize, ScreamRx.Abs, AllShaped, Shaped;
      ghost var before := Abs();
      Open(ssrc, buf);
      ghost var head := buf[..8];
      assert Abs() == before;
      size, blocks := WriteBlocks(Due(t, isMark, ackDiff, rtcpFbInterval), buf);
      ghost var after := Abs();
      made := size != 8;
      NoBlocksNoOctets(blocks);
      if made {
        size := Close(ssrc, buf, size, head, Feedback(blocks, t), t);
        lastFeedbackT := t;
      }
      assert Abs() == after;
    }
  }

  /** The fixed first octets and the reporter, leaving the length for later. */
  method Open(ssrc: uint32, buf: array<byte>)
    requires buf.Length >= 8
    modifies buf
    ensures buf[..8][0] == 139 && buf[..8][1] == 205 && buf[..8][4..] == Enc32(ssrc)
  {
    buf[0], buf[1] := 139, 205;
    ghost var first := buf[..4];
    Put32(buf, 4, ssrc);
    assert buf[..8] == first + Enc32(ssrc);
  }

  /** The timestamp after size octets, and the length in its place. */
  method Close(ssrc: uint32, buf: array<byte>, size: nat, ghost head: seq<byte>, ghost m: Feedback, t: uint32)
    returns (end: nat)
    requires 8 <= size && size + 4 <= buf.Length && m.timestamp == t
    requires |head| == 8 && head[0] == 139 && head[1] == 205 && head[4..] == Enc32(ssrc)
    requires buf[..size] == head + PrintBlocks(m.blocks)
    modifies buf
    ensures end == size + 4 && buf[..end] == Print(ssrc, m)
  {
    hide PrintBlocks, Print;
    Put32(buf, size, t);
    end := size + 4;
    var length := Wrap16(end / 4 - 1);
    ghost var unsized := buf[..end];
    Put16(buf, 2, length);
    assert buf[..end] == buf[..4] + buf[4..][..end - 4];
    assert buf[4..][..end - 4] == unsized[4..];
    FillLength(ssrc, m, head, unsized, buf[..end]);
  }

  /** Filling in the length last leaves the printed message. */
  lemma FillLength(reporter: uint32, m: Feedback, head: seq<byte>, unsized: seq<byte>, b: seq<byte>)
    requires |head| == 8 && head[0] == 139 && head[1] == 205 && head[4..] == Enc32(reporter)
    requires unsized == head + PrintBlocks(m.blocks) + Enc32(m.timestamp)
    requires b == unsized[..2] + Enc16(Wrap16(|b| / 4 - 1)) + unsized[4..]
    ensures b == Print(reporter, m)
  {
    hide PrintBlocks;
    assert unsized[..2] == [139, 205];
    assert unsized[4..] == Enc32(reporter) + PrintBlocks(m.blocks) + Enc32(m.timestamp);
  }

  lemma NoBlocksNoOctets(blocks: seq<Block>)
    ensures |PrintBlocks(blocks)| == 0 <==> blocks == []
  {
    PrintSize(blocks);
  }
}
