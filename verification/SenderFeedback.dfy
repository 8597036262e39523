/** The sender's reading of a feedback message, element by element, into its ledger. */
module SenderFeedback {
  import opened Options
  import opened Serial
  import opened TxRing
  import opened Ccfb
  import opened InFlight
  import opened InFlightLedgers

  /** The ledger events of the first n elements of a block. */
  function ElementEvents(block: Block, rts: uint32, n: nat): (r: seq<Event>)
    requires n <= |block.reports|
    ensures forall k :: 0 <= k < |r| ==> r[k].Reported?
  {
    if n == 0 then []
    else
      var w := block.reports[n - 1];
      ElementEvents(block, rts, n - 1)
      + if IsReceived(w)
        then [Reported(Wrap16(block.beginSeq + n - 1), Sub32(rts, 64 * OffsetOf(w)), EcnOf(w), n == |block.reports|)]
        else []
  }

  function EndSeq(block: Block): uint16 { Wrap16(block.beginSeq + |block.reports| - 1) }

  /** The block ends more than 512 behind the highest acknowledged number, as far as the reader can tell. */
  predicate TooOld(l: Ledger, block: Block) {
    && Sub16(EndSeq(block), l.hiSeqAck) > 65000
    && l.hiSeqAck != 0 && l.timeTxAck != 0
    && Sub16(l.hiSeqAck, EndSeq(block)) > 512
  }

  /** The ledger events of a message: reading stops for good at a foreign or too old block. */
  function FeedbackEvents(l: Ledger, y: Tally, ssrc: uint32, rts: uint32, blocks: seq<Block>): (r: seq<Event>)
    requires |l.slots| == 4096
    ensures forall k :: 0 <= k < |r| ==> r[k].Reported?
    decreases |blocks|
  {
    if blocks == [] || blocks[0].ssrc != ssrc || TooOld(l, blocks[0]) then []
    else
      var events := ElementEvents(blocks[0], rts, |blocks[0].reports|);
      var (l', y') := Run(l, y, events);
      events + FeedbackEvents(l', y', ssrc, rts, blocks[1..])
  }

  /** A block is rejected as old if and only if something was acknowledged, with a number and a transmission time other
      than 0, and it ends between 513 and 535 behind the highest acknowledged number; one that lags further passes for new. */
  lemma RejectedIff(l: Ledger, block: Block, lag: nat)
    requires lag < 65536 && EndSeq(block) == Sub16(l.hiSeqAck, lag)
    ensures TooOld(l, block) <==> l.hiSeqAck != 0 && l.timeTxAck != 0 && 513 <= lag <= 535
  {
    var e: int, a: int := EndSeq(block), l.hiSeqAck;
    assert e == a - lag || e == a - lag + 65536;
  }

  lemma DetectLossEdge(l: Ledger, h: uint16)
    requires |l.slots| == 4096
    ensures DetectLoss(l, h).hiSeqAck == h
  {
    hide Gate, InStretch, DropStart, DropLength, ScanStart, ScanLength;
  }

  /** The last element of a block sets the highest acknowledged number. */
  lemma LastSetsEdge(l: Ledger, sn: uint16, rxTime: uint32, ceBits: nat)
    requires |l.slots| == 4096
    ensures var r := Step(l, Reported(sn, rxTime, ceBits, true));
            r.hiSeqAck == sn
  {
    hide DetectLoss;
    DetectLossEdge(MarkAcked(l, sn, rxTime, ceBits), sn);
  }

  /** Packets 400 and 1000 were sent, and the second is acknowledged. */
  function BeforeLate(t: uint32): (events: seq<Event>)
    ensures |events| == 3
  {
    [Sent(t, 1000, 400, false, 0), Sent(t, 1000, 1000, false, 0), Reported(1000, t, 0, true)]
  }

  /** A message whose one block reports packet 400. */
  function LateMessage(ssrc: uint32, t: uint32): (m: Feedback)
    ensures |m.blocks| == 1 && m.timestamp == t
    ensures var b := m.blocks[0]; b.ssrc == ssrc && b.beginSeq == 400 && b.reports == [Element(true, 0, 0)]
  {
    Feedback([Block(ssrc, 400, [Element(true, 0, 0)])], t)
  }

  /** Late feedback: a message arrives, as printed, whose block ends 600 behind the highest acknowledged number. It is read
      as new, and takes the highest acknowledged number back. */
  lemma OldBlockTakesEdgeBack(start: Ledger, ssrc: uint32, reporter: uint32, t: uint32)
    requires IsFresh(start)
    ensures var (l, y) := Run(start, NO_TALLY, BeforeLate(t));
            var late := LateMessage(ssrc, t);
            && Parse(Print(reporter, late)) == Some(late)
            && l.hiSeqAck == 1000 && EndSeq(late.blocks[0]) == Sub16(l.hiSeqAck, 600)
            && Run(l, y, FeedbackEvents(l, y, ssrc, t, late.blocks)).0.hiSeqAck == 400
  {
    FreshShape(start);
    hide *;
    var late := LateMessage(ssrc, t);
    FewWords(late.blocks);
    RoundTrip(reporter, late);
    AfterTwo(start, t);
    var (l, y) := Run(start, NO_TALLY, BeforeLate(t));
    LagsBy600(l, late.blocks[0]);
    assert late.blocks == [late.blocks[0]];
    OneElement(l, y, late.blocks[0], t);
  }

  lemma FreshShape(l: Ledger)
    requires IsFresh(l)
    ensures |l.slots| == 4096
  {
  }

  lemma AfterTwo(start: Ledger, t: uint32)
    requires |start.slots| == 4096
    ensures Run(start, NO_TALLY, BeforeLate(t)).0.hiSeqAck == 1000
  {
    hide Step, StepTally, Run;
    var e1, e2, e3 := Sent(t, 1000, 400, false, 0), Sent(t, 1000, 1000, false, 0), Reported(1000, t, 0, true);
    RunOneMore(start, NO_TALLY, [e1, e2], e3);
    assert [e1, e2] + [e3] == BeforeLate(t);
    LastSetsEdge(Run(start, NO_TALLY, [e1, e2]).0, 1000, t, 0);
  }

  lemma FewWords(blocks: seq<Block>)
    requires |blocks| == 1 && |blocks[0].reports| == 1
    ensures Words(blocks) <= 65533
  {
    assert blocks[1..] == [];
  }

  lemma LagsBy600(l: Ledger, block: Block)
    requires l.hiSeqAck == 1000 && block.beginSeq == 400 && |block.reports| == 1
    ensures EndSeq(block) == Sub16(1000, 600) && !TooOld(l, block)
  {
  }

  lemma OneElement(l: Ledger, y: Tally, block: Block, rts: uint32)
    requires |l.slots| == 4096 && block.reports == [Element(true, 0, 0)] && !TooOld(l, block)
    ensures Run(l, y, FeedbackEvents(l, y, block.ssrc, rts, [block])).0.hiSeqAck == block.beginSeq
  {
    var sn := block.beginSeq;
    ElementRoundTrip(true, 0, 0);
    var e := Reported(sn, rts, 0, true);
    assert ElementEvents(block, rts, 1) == [e] by {
      assert ElementEvents(block, rts, 0) == [] && Sub32(rts, 0) == rts && Wrap16(sn) == sn;
    }
    LastSetsEdge(l, sn, rts, 0);
    RunNothing(l, y);
    hide Step, StepTally, TooOld;
    RunOneMore(l, y, [], e);
    assert [] + [e] == [e] && [block][1..] == [];
    assert FeedbackEvents(l, y, block.ssrc, rts, [block]) == [e];
  }

  /** Feedback keeps the account and never raises bytesInFlight. */
  lemma FeedbackKeepsAccount(l: Ledger, y: Tally, ssrc: uint32, rts: uint32, blocks: seq<Block>)
    requires Accounted(l, y)
    ensures var (l', y') := Run(l, y, FeedbackEvents(l, y, ssrc, rts, blocks));
            Accounted(l', y') && 0 <= l'.bytesInFlight <= l.bytesInFlight
  {
    hide FeedbackEvents;
    var (l', y') := Run(l, y, FeedbackEvents(l, y, ssrc, rts, blocks));
    RunKeepsAccount(l, y, FeedbackEvents(l, y, ssrc, rts, blocks));
    InFlightNonNegative(l', y');
  }

  /** ntohs of the two octets at offset at of a datagram b of size octets in buf. */
  method Get16(buf: array<byte>, size: nat, at: nat) returns (x: uint16)
    requires at + 2 <= size <= buf.Length
    ensures x == At16(buf[..size], at)
  {
    x := buf[at] as int * 256 + buf[at + 1];
  }

  method Get32(buf: array<byte>, size: nat, at: nat) returns (x: uint32)
    requires at + 4 <= size <= buf.Length
    ensures x == At32(buf[..size], at)
  {
    var high := Get16(buf, size, at);
    var low := Get16(buf, size, at + 2);
    x := high as int * 65536 + low;
  }

  /** The n 16-bit elements of a block from offset ptr on, each received one reported to the ledger. */
  method ReadElements(ledger: InFlightLedger, rts: uint32, ghost block: Block, beginSeq: uint16, n: nat,
                      buf: array<byte>, size: nat, ptr: nat)
    requires ledger.Valid() && buf as object != ledger.txPackets
    requires ptr + 2 * n <= size <= buf.Length && n == |block.reports| && beginSeq == block.beginSeq
    requires block.reports == WordsAt(buf[..size], ptr, n)
    modifies ledger, ledger.txPackets
    ensures ledger.Valid()
    ensures ledger.lastTransmitT == old(ledger.lastTransmitT) && ledger.nextTransmitT == old(ledger.nextTransmitT)
    ensures (ledger.Abs(), ledger.tally) == Run(old(ledger.Abs()), old(ledger.tally), ElementEvents(block, rts, n))
  {
    hide Run, Report, TallyReport;
    ghost var l, y := ledger.Abs(), ledger.tally;
    RunNothing(l, y);
    for k := 0 to n
      invariant ledger.Valid()
      invariant ledger.lastTransmitT == old(ledger.lastTransmitT) && ledger.nextTransmitT == old(ledger.nextTransmitT)
      invariant (ledger.Abs(), ledger.tally) == Run(l, y, ElementEvents(block, rts, k))
    {
      WordAt(buf[..size], ptr, n, k);
      var w := Get16(buf, size, ptr + 2 * k);
      var sn := Wrap16(beginSeq + k);
      if w / 32768 == 1 {
        var ceBits := w % 32768 / 8192;
        var offset: int := w % 8192;
        var rxTime := Sub32(rts, 64 * offset);
        RunOneMore(l, y, ElementEvents(block, rts, k), Reported(sn, rxTime, ceBits, k + 1 == n));
        ledger.ReportInPlace(sn, rxTime, ceBits, k + 1 == n);
      } else {
        assert ElementEvents(block, rts, k + 1) == ElementEvents(block, rts, k);
      }
    }
  }

  /** The guard against feedback that comes out of order. */
  method IsTooOld(ledger: InFlightLedger, endSeq: uint16, ghost block: Block) returns (r: bool)
    requires endSeq == EndSeq(block)
    ensures r == TooOld(ledger.Abs(), block)
  {
    hide EndSeq;
    var diff := Sub16(endSeq, ledger.hiSeqAck);
    if diff > 65000 && ledger.hiSeqAck != 0 && ledger.timeTxAck != 0 {
      var behind := Sub16(ledger.hiSeqAck, endSeq);
      return behind > 512;
    }
    r := false;
  }

  lemma PaddedSize(n: nat)
    ensures 8 + 2 * n + (if n % 2 == 1 then 2 else 0) == BlockSize(n)
  {
  }

  /** One block at offset ptr; next is the offset of the block after it, or None when reading stops here. */
  method ReadBlock(ledger: InFlightLedger, ssrc: uint32, rts: uint32, ghost block: Block, buf: array<byte>,
                   size: nat, ptr: nat)
    returns (next: Option<nat>)
    requires ledger.Valid() && buf as object != ledger.txPackets
    requires size <= buf.Length && ptr + 8 <= size && ParseBlock(buf[..size], ptr, size) == Some(block)
    modifies ledger, ledger.txPackets
    ensures ledger.Valid()
    ensures ledger.lastTransmitT == old(ledger.lastTransmitT) && ledger.nextTransmitT == old(ledger.nextTransmitT)
    ensures var l, y := old(ledger.Abs()), old(ledger.tally);
            if block.ssrc != ssrc || TooOld(l, block)
            then next == None && ledger.Abs() == l && ledger.tally == y
            else next == Some(ptr + BlockSize(|block.reports|))
                 && (ledger.Abs(), ledger.tally) == Run(l, y, ElementEvents(block, rts, |block.reports|))
  {
    hide Run, WordsAt, ElementEvents, Accounted, At16, At32, TooOld, BlockSize;
    PaddedSize(|block.reports|);
    var blockSsrc := Get32(buf, size, ptr);
    var beginSeq := Get16(buf, size, ptr + 4);
    var numReports := Get16(buf, size, ptr + 6);
    var n := numReports as int + 1;
    var endSeq := Wrap16(beginSeq + n - 1);
    if blockSsrc != ssrc {
      return None;
    }
    var tooOld := IsTooOld(ledger, endSeq, block);
    if tooOld {
      return None;
    }
    ReadElements(ledger, rts, block, beginSeq, n, buf, size, ptr + 8);
    var after := ptr + 8 + 2 * n;
    if n % 2 == 1 {
      after := after + 2;
    }
    next := Some(after);
  }

  /** incomingStandardizedFeedback for the one registered stream: a datagram of size octets whose blocks lie within it. */
  method IncomingStandardizedFeedback(ledger: InFlightLedger, ssrc: uint32, buf: array<byte>, size: nat)
    requires ledger.Valid() && buf as object != ledger.txPackets
    requires size <= buf.Length && Parse(buf[..size]).Some?
    modifies ledger, ledger.txPackets
    ensures ledger.Valid()
    ensures ledger.lastTransmitT == old(ledger.lastTransmitT) && ledger.nextTransmitT == old(ledger.nextTransmitT)
    ensures var m := Parse(old(buf[..size])).value;
            (ledger.Abs(), ledger.tally)
            == Run(old(ledger.Abs()), old(ledger.tally),
                   FeedbackEvents(old(ledger.Abs()), old(ledger.tally), ssrc, m.timestamp, m.blocks))
  {
    hide Run, Parse, ParseBlocks, ParseBlock, FeedbackEvents, TooOld, ElementEvents, At16, At32;
    ghost var b, m := buf[..size], Parse(buf[..size]).value;
    ghost var l, y := ledger.Abs(), ledger.tally;
    ghost var all := FeedbackEvents(l, y, ssrc, m.timestamp, m.blocks);
    ghost var done, rest := [], m.blocks;
    ParsedLayout(b);
    RunNothing(l, y);
    var length := Get16(buf, size, 2);
    var rts := Get32(buf, size, 4 * (length as int));
    var ptr := 8;
    assert [] + all == all;
    while ptr != size - 4
      invariant ledger.Valid() && 8 <= ptr <= size - 4
      invariant ledger.lastTransmitT == old(ledger.lastTransmitT) && ledger.nextTransmitT == old(ledger.nextTransmitT)
      invariant buf[..size] == b
      invariant ParseBlocks(b, ptr, size - 4) == Some(rest)
      invariant (ledger.Abs(), ledger.tally) == Run(l, y, done)
      invariant all == done + FeedbackEvents(ledger.Abs(), ledger.tally, ssrc, rts, rest)
      decreases size - ptr
    {
      ghost var block := ParsedBlock(b, ptr, size - 4, rest);
      ghost var events := ElementEvents(block, rts, |block.reports|);
      FeedbackStep(l, y, done, ledger.Abs(), ledger.tally, ssrc, rts, rest);
      var next := ReadBlock(ledger, ssrc, rts, block, buf, size, ptr);
      if next.None? {
        return;
      }
      done, rest := done + events, rest[1..];
      ptr := next.value;
    }
    assert rest == [] by {
      NoMoreBlocks(b, ptr, rest);
    }
    FeedbackDone(ledger.Abs(), ledger.tally, ssrc, rts);
    assert done + [] == done;
  }

  lemma {:induction false} WordAt(b: seq<byte>, i: nat, n: nat, k: nat)
    requires i + 2 * n <= |b| && k < n
    ensures WordsAt(b, i, n)[k] == At16(b, i + 2 * k)
  {
    if k < n - 1 {
      WordAt(b, i, n - 1, k);
    }
  }

  /** What the reader relies on in a datagram that parses. */
  lemma ParsedLayout(b: seq<byte>)
    requires Parse(b).Some?
    ensures |b| >= 12 && 4 * At16(b, 2) as int + 4 <= |b|
    ensures ParseBlocks(b, 8, |b| - 4) == Some(Parse(b).value.blocks)
    ensures Parse(b).value.timestamp == At32(b, 4 * At16(b, 2) as int)
  {
    hide ParseBlocks;
  }

  /** The next block of a datagram and what follows it. */
  lemma ParsedBlock(b: seq<byte>, ptr: nat, end: nat, rest: seq<Block>) returns (block: Block)
    requires ptr < end <= |b| && ParseBlocks(b, ptr, end) == Some(rest)
    ensures rest != [] && block == rest[0]
    ensures ptr + 8 <= ptr + BlockSize(|block.reports|) <= end
    ensures ParseBlock(b, ptr, |b|) == Some(block)
    ensures ParseBlocks(b, ptr + BlockSize(|block.reports|), end) == Some(rest[1..])
  {
    hide At32, At16;
    block := rest[0];
    var next := ParseBlocks(b, ptr + BlockSize(|block.reports|), end).value;
    assert rest == [block] + next;
  }

  /** One more block of a message: either reading stops here, or its events come next. */
  lemma FeedbackStep(l: Ledger, y: Tally, done: seq<Event>, l': Ledger, y': Tally, ssrc: uint32, rts: uint32,
                     rest: seq<Block>)
    requires |l.slots| == |l'.slots| == 4096 && rest != []
    requires (l', y') == Run(l, y, done)
    ensures var events, tail := ElementEvents(rest[0], rts, |rest[0].reports|), FeedbackEvents(l', y', ssrc, rts, rest);
            if rest[0].ssrc != ssrc || TooOld(l', rest[0]) then done + tail == done
            else
              var (l'', y'') := Run(l', y', events);
              && Run(l, y, done + events) == (l'', y'')
              && done + tail == done + events + FeedbackEvents(l'', y'', ssrc, rts, rest[1..])
  {
    hide Run, ElementEvents, TooOld;
    var events := ElementEvents(rest[0], rts, |rest[0].reports|);
    RunAppend(l, y, done, events);
    var (l'', y'') := Run(l', y', events);
    assert done + (events + FeedbackEvents(l'', y'', ssrc, rts, rest[1..]))
        == done + events + FeedbackEvents(l'', y'', ssrc, rts, rest[1..]);
  }

  lemma NoMoreBlocks(b: seq<byte>, end: nat, rest: seq<Block>)
    requires end <= |b| && ParseBlocks(b, end, end) == Some(rest)
    ensures rest == []
  {
  }

  lemma FeedbackDone(l: Ledger, y: Tally, ssrc: uint32, rts: uint32)
    requires |l.slots| == 4096
    ensures FeedbackEvents(l, y, ssrc, rts, []) == []
  {
  }
}
