/** Sender, receiver and a network that loses, duplicates and reorders packets and feedback: what the
    sender marks as acknowledged was really received. */
module EndToEnd {
  import opened Serial
  import opened InFlight
  import opened Lifted
  import opened Ccfb
  import opened RxHistory
  import opened RxSchedule
  import opened SenderFeedback

  /** A feedback datagram, with the number of arrivals its sender had seen and the time it was made. */
  datatype Message = Message(octets: seq<byte>, heard: nat, madeAt: uint32)

  /** An acknowledgement as the sender took it: the unbounded number of the packet it marked, the arrival time it
      reconstructed, the ECN bits, and when the report was made, after how many arrivals. */
  datatype Acked = Acked(u: int, rxTime: uint32, ceBits: nat, madeAt: uint32, heard: nat)

  datatype System = System(
    ledger: Ledger, tally: Tally,   // the sender's ring and totals
    ext: seq<int>,                  // unbounded number of the packet in each slot
    hiTx: int,                      // last number transmitted
    packets: set<int>,              // everything transmitted: the network may deliver any of it, at any time, any number of times
    rx: RxState, log: seq<Arrival>, // the receiver, and all that has arrived there
    messages: set<Message>,         // all feedback ever made, equally at the network's mercy
    acked: seq<Acked>)

  datatype SysEvent =
    | Transmits(u: int, t: uint32, size: nat, mark: bool, ts: uint32)
    | PacketArrives(a: Arrival)
    | FeedbackMade(reporter: uint32, d: Due)
    | FeedbackArrives(m: Message)
    | SenderTimesOut
    | SenderUpdatesRate

  /** No entry of the receiver's history behind message m is a whole 65536-packet cycle old when m arrives. */
  ghost predicate WithinCycle(s: System, m: Message) {
    m.heard <= |s.log|
    && forall ix :: 0 <= ix < 512 && LastAt(s.log[..m.heard], ix).Some? ==>
         s.hiTx < LastAt(s.log[..m.heard], ix).value.u + 65536
  }

  ghost predicate Enabled(s: System, e: SysEvent) {
    match e
    case Transmits(u, _, _, _, _) => s.hiTx < u
    case PacketArrives(a) => a.u in s.packets
    case FeedbackMade(_, _) => true
    case FeedbackArrives(m) => m in s.messages && WithinCycle(s, m)
    case SenderTimesOut => true
    case SenderUpdatesRate => true
  }

  ghost predicate SysShaped(s: System) {
    |s.ledger.slots| == |s.ext| == 4096 && Shaped(s.rx)
  }

  /** An acknowledgement taken from message m, with the unbounded number of its packet. */
  function LiftOne(a: Ack, ext: seq<int>, m: Message): Acked {
    Acked(if a.slot < |ext| then ext[a.slot] else 0, a.rxTime, a.ceBits, m.madeAt, m.heard)
  }

  /** The new acknowledgements of a feedback message, with unbounded numbers. */
  function Lifts(acks: seq<Ack>, from: nat, ext: seq<int>, m: Message): (r: seq<Acked>)
    requires from <= |acks|
    ensures |r| == |acks| - from
    ensures forall i :: 0 <= i < |r| ==> r[i] == LiftOne(acks[from + i], ext, m)
  {
    seq(|acks| - from, i requires 0 <= i < |acks| - from => LiftOne(acks[from + i], ext, m))
  }

  ghost function Next(s: System, e: SysEvent): (r: System)
    requires SysShaped(s)
    ensures SysShaped(r)
  {
    match e
    case Transmits(u, t, size, mark, ts) =>
      s.(ledger := Transmit(s.ledger, t, size, Wrap16(u), mark, ts), tally := TallyTransmit(s.ledger, s.tally, Wrap16(u)),
         ext := s.ext[Slot(u) := u], hiTx := u, packets := s.packets + {u})
    case PacketArrives(a) =>
      s.(rx := Receive(s.rx, Wrap16(a.u), a.t, a.ceBits, a.mark), log := s.log + [a])
    case FeedbackMade(reporter, d) =>
      var (ss, blocks) := Emit([s.rx], d, s.rx.nReported, 8);
      var r := s.(rx := ss[0]);
      if blocks == [] then r
      else r.(messages := s.messages + {Message(Print(reporter, Feedback(blocks, d.t)), |s.log|, d.t)})
    case FeedbackArrives(m) =>
      match Parse(m.octets) {
        case None => s
        case Some(f) =>
          var events := FeedbackEvents(s.ledger, s.tally, s.rx.ssrc, f.timestamp, f.blocks);
          var (l, y) := Run(s.ledger, s.tally, events);
          if |s.ledger.acks| <= |l.acks|
          then s.(ledger := l, tally := y, acked := s.acked + Lifts(l.acks, |s.ledger.acks|, s.ext, m))
          else s.(ledger := l, tally := y)
      }
    case SenderTimesOut =>
      s.(ledger := TimeOut(s.ledger), tally := TallyTimeOut(s.ledger, s.tally))
    case SenderUpdatesRate =>
      s.(ledger := UpdateRate(s.ledger), tally := TallyRate(s.ledger, s.tally))
  }

  // ---------- The invariant ----------

  /** The receiver's history entry for packet r.u is of that packet, and the record agrees with it. */
  ghost predicate Accurate(r: Acked, hist: seq<Arrival>) {
    var entry := LastAt(hist, Wrap16(r.u) % 512);
    && entry.Some? && entry.value.u == r.u
    && r.ceBits == entry.value.ceBits % 4
    && r.rxTime == Sub32(r.madeAt, 64 * Offset(r.madeAt, entry.value.t))
  }

  /** The record of an acknowledgement is accurate, and of the packet with the acknowledged number. */
  ghost predicate AccurateAck(a: Ack, ext: seq<int>, m: Message, hist: seq<Arrival>) {
    Wrap16(LiftOne(a, ext, m).u) == a.seqNr && Accurate(LiftOne(a, ext, m), hist)
  }

  /** The record agrees with the history at the time its report was made. */
  ghost predicate AccurateThen(r: Acked, log: seq<Arrival>) {
    r.heard <= |log| && Accurate(r, log[..r.heard])
  }

  /** There is a record for each acknowledgement the ledger took, of that packet and with what the report said of it. */
  ghost predicate Records(acked: seq<Acked>, acks: seq<Ack>) {
    && |acked| == |acks|
    && forall i :: 0 <= i < |acked| ==>
         Wrap16(acked[i].u) == acks[i].seqNr && acked[i].rxTime == acks[i].rxTime && acked[i].ceBits == acks[i].ceBits
  }

  /** There is a record of packet u. */
  ghost predicate Recorded(u: int, acked: seq<Acked>) { exists i :: 0 <= i < |acked| && acked[i].u == u }

  /** One of the acknowledgements from index from on settled slot k. */
  ghost predicate SettledFrom(acks: seq<Ack>, from: nat, k: nat) { exists i :: from <= i < |acks| && acks[i].slot == k }

  /** A report event states what the receiver's history held when the message was made. */
  ghost predicate Backed(e: Event, log: seq<Arrival>, t: uint32) {
    e.Reported?
    && var last := LastAt(log, e.sn % 512);
       && last.Some? && Wrap16(last.value.u) == e.sn
       && e.ceBits == last.value.ceBits % 4
       && e.rxTime == Sub32(t, 64 * Offset(t, last.value.t))
  }

  /** Every element of the block that says "received" is backed by the history. */
  ghost predicate Truthful(block: Block, log: seq<Arrival>, t: uint32) {
    forall k :: 0 <= k < |block.reports| && IsReceived(block.reports[k]) ==>
      Backed(Reported(Wrap16(block.beginSeq + k), Sub32(t, 64 * OffsetOf(block.reports[k])), EcnOf(block.reports[k]), false),
             log, t)
  }

  ghost predicate TruthfulMessage(m: Message, log: seq<Arrival>) {
    && m.heard <= |log|
    && Parse(m.octets).Some?
    && Parse(m.octets).value.timestamp == m.madeAt
    && forall j :: 0 <= j < |Parse(m.octets).value.blocks| ==>
         Truthful(Parse(m.octets).value.blocks[j], log[..m.heard], m.madeAt)
  }

  ghost predicate Sound(s: System) {
    && SysShaped(s)
    && Describes(s.ledger, s.ext, s.hiTx)
    && Accounted(s.ledger, s.tally)
    // each slot holds the last packet transmitted into it
    && (forall u :: u in s.packets ==> u <= s.ext[Slot(u)] && u <= s.hiTx)
    && (forall a :: a in s.log ==> a.u in s.packets)
    && Remembers(s.rx, s.log)
    && (forall m :: m in s.messages ==> TruthfulMessage(m, s.log))
    && Records(s.acked, s.ledger.acks)
    && (forall i :: 0 <= i < |s.acked| ==> AccurateThen(s.acked[i], s.log))
    && (forall k :: 0 <= k < 4096 && s.ledger.slots[k].isAcked ==> Recorded(s.ext[k], s.acked))
  }

  // ---------- Acknowledgements ----------

  lemma SameResidue(a: int, e: int)
    requires a <= e < a + 65536 && Wrap16(a) == Wrap16(e)
    ensures a == e
  {
  }

  /** The slot a report settles holds the very packet the report is about. */
  lemma SettlesThatPacket(l: Ledger, ext: seq<int>, hiTx: int, u: int)
    requires Describes(l, ext, hiTx)
    requires u <= ext[Slot(u)] && hiTx < u + 65536 && Acknowledges(l, Wrap16(u))
    ensures Slot(Wrap16(u)) == Slot(u) && ext[Slot(u)] == u
  {
    WrappedSlot(u);
    SameResidue(u, ext[Slot(u)]);
  }

  /** The history still speaks of the packets now in the ring. */
  ghost predicate Current(hist: seq<Arrival>, ext: seq<int>, hiTx: int)
    requires |ext| == 4096
  {
    forall ix :: 0 <= ix < 512 && LastAt(hist, ix).Some? ==>
      LastAt(hist, ix).value.u <= ext[Slot(LastAt(hist, ix).value.u)] && hiTx < LastAt(hist, ix).value.u + 65536
  }

  /** What one backed report does: at most one acknowledgement, and that one accurate. */
  lemma ReportAccepted(l: Ledger, e: Event, ext: seq<int>, hiTx: int, hist: seq<Arrival>, m: Message)
    requires Describes(l, ext, hiTx) && Current(hist, ext, hiTx) && Backed(e, hist, m.madeAt)
    ensures var r := Step(l, e);
            && Describes(r, ext, hiTx)
            && l.acks <= r.acks <= l.acks + [Ack(Slot(e.sn), e.sn, e.rxTime, e.ceBits)]
            && (|r.acks| > |l.acks| ==> AccurateAck(r.acks[|l.acks|], ext, m, hist))
            && (forall k :: 0 <= k < 4096 && r.slots[k].isAcked ==>
                  l.slots[k].isAcked || (|r.acks| > |l.acks| && k == Slot(e.sn)))
  {
    hide DetectLoss;
    var a := LastAt(hist, e.sn % 512).value;
    if Acknowledges(l, e.sn) {
      SettlesThatPacket(l, ext, hiTx, a.u);
    }
    DetectLossKeeps(MarkAcked(l, e.sn, e.rxTime, e.ceBits), e.sn);
  }

  /** A run of backed reports produces accurate acknowledgements only, one for each packet it newly marks. */
  lemma {:induction false} RunAccepted(l: Ledger, y: Tally, events: seq<Event>, ext: seq<int>, hiTx: int,
                                       hist: seq<Arrival>, m: Message)
    requires Describes(l, ext, hiTx) && Current(hist, ext, hiTx)
    requires forall k :: 0 <= k < |events| ==> Backed(events[k], hist, m.madeAt)
    ensures var r := Run(l, y, events).0;
            && Describes(r, ext, hiTx)
            && l.acks <= r.acks
            && (forall i :: |l.acks| <= i < |r.acks| ==> AccurateAck(r.acks[i], ext, m, hist))
            && (forall k :: 0 <= k < 4096 && r.slots[k].isAcked ==>
                  l.slots[k].isAcked || SettledFrom(r.acks, |l.acks|, k))
  {
    hide Step, StepTally, AccurateAck, SettledFrom, Current, Backed, Describes;
    if events != [] {
      var before, e := events[..|events| - 1], events[|events| - 1];
      DescribesShape(l, ext, hiTx);
      RunAccepted(l, y, before, ext, hiTx, hist, m);
      var mid := Run(l, y, before).0;
      ReportAccepted(mid, e, ext, hiTx, hist, m);
      SettledGrows(mid.acks, Step(mid, e).acks, |l.acks|);
    }
  }

  lemma SettledGrows(acks: seq<Ack>, more: seq<Ack>, from: nat)
    requires acks <= more && from <= |acks|
    ensures forall k :: SettledFrom(acks, from, k) ==> SettledFrom(more, from, k)
    ensures |more| > |acks| ==> SettledFrom(more, from, more[|acks|].slot)
  {
    forall k | SettledFrom(acks, from, k)
      ensures SettledFrom(more, from, k)
    {
      var i :| from <= i < |acks| && acks[i].slot == k;
      assert more[i].slot == k;
    }
  }

  lemma DescribesShape(l: Ledger, ext: seq<int>, hiTx: int)
    requires Describes(l, ext, hiTx)
    ensures |l.slots| == |ext| == 4096
  {
  }

  lemma {:induction false} ElementsBacked(block: Block, rts: uint32, n: nat, hist: seq<Arrival>)
    requires n <= |block.reports| && Truthful(block, hist, rts)
    ensures forall k :: 0 <= k < |ElementEvents(block, rts, n)| ==> Backed(ElementEvents(block, rts, n)[k], hist, rts)
  {
    if n > 0 {
      ElementsBacked(block, rts, n - 1, hist);
    }
  }

  /** Reading a truthful message yields backed reports only, wherever the reading stops. */
  lemma {:induction false} FeedbackBacked(l: Ledger, y: Tally, ssrc: uint32, rts: uint32, blocks: seq<Block>,
                                          hist: seq<Arrival>)
    requires |l.slots| == 4096
    requires forall j :: 0 <= j < |blocks| ==> Truthful(blocks[j], hist, rts)
    ensures forall k :: 0 <= k < |FeedbackEvents(l, y, ssrc, rts, blocks)| ==>
              Backed(FeedbackEvents(l, y, ssrc, rts, blocks)[k], hist, rts)
    decreases |blocks|
  {
    hide Run, TooOld, Backed, Truthful, ElementEvents;
    if blocks != [] && blocks[0].ssrc == ssrc && !TooOld(l, blocks[0]) {
      ElementsBacked(blocks[0], rts, |blocks[0].reports|, hist);
      var (l', y') := Run(l, y, ElementEvents(blocks[0], rts, |blocks[0].reports|));
      FeedbackBacked(l', y', ssrc, rts, blocks[1..], hist);
    }
  }

  // ---------- The receiver's messages ----------

  /** A stream's blocks are all made from the same history. */
  lemma {:induction false} EmitFromHistory(s: RxState, d: Due, size: nat)
    requires Shaped(s)
    ensures var (ss, blocks) := Emit([s], d, s.nReported, size);
            && ss[0].hist == s.hist && ss[0].ssrc == s.ssrc && ss[0].nReported == s.nReported
            && ss[0].firstReceived == s.firstReceived
            && forall j :: 0 <= j < |blocks| ==>
                 && blocks[j].ssrc == s.ssrc
                 && blocks[j].reports == ReportsFrom(s.hist, blocks[j].beginSeq, s.nReported, d.t)
    decreases 900 - size
  {
    OnlyStream(s, d);
    if size < 900 && IsDue(s, d) {
      hide Emit, ServedAt, Best, IsDue, ReportsFrom;
      EmitFromHistory(Served(s, d.t), d, size + BlockSize(s.nReported));
      EmitStep([s], d, s.nReported, size, 0);
    } else {
      EmitDone([s], d, s.nReported, size);
    }
  }

  lemma BlockTruthful(s: RxState, log: seq<Arrival>, block: Block, t: uint32)
    requires Remembers(s, log)
    requires block.reports == ReportsFrom(s.hist, block.beginSeq, s.nReported, t)
    ensures Truthful(block, log, t)
  {
    hide ReportsFrom, ReportFor, IsReceived, EcnOf, OffsetOf, Offset, LastAt;
    forall k | 0 <= k < |block.reports| && IsReceived(block.reports[k])
      ensures Backed(Reported(Wrap16(block.beginSeq + k), Sub32(t, 64 * OffsetOf(block.reports[k])),
                              EcnOf(block.reports[k]), false), log, t)
    {
      ReportAt(s.hist, block.beginSeq, s.nReported, t, k);
      ElementExact(s, log, Wrap16(block.beginSeq + k), t);
    }
  }

  // ---------- Every step ----------

  lemma Monotone(log: seq<Arrival>, a: Arrival)
    ensures forall r :: AccurateThen(r, log) ==> AccurateThen(r, log + [a])
    ensures forall m :: TruthfulMessage(m, log) ==> TruthfulMessage(m, log + [a])
  {
    forall r | AccurateThen(r, log)
      ensures AccurateThen(r, log + [a])
    {
      assert (log + [a])[..r.heard] == log[..r.heard];
    }
    forall m | TruthfulMessage(m, log)
      ensures TruthfulMessage(m, log + [a])
    {
      hide Parse, Truthful;
      assert (log + [a])[..m.heard] == log[..m.heard];
    }
  }

  lemma TransmitSound(s: System, u: int, t: uint32, size: nat, mark: bool, ts: uint32)
    requires Sound(s) && s.hiTx < u
    ensures Sound(Next(s, Transmits(u, t, size, mark, ts)))
  {
    hide Accounted, TruthfulMessage, AccurateThen, Recorded, Records, Remembers, TallyTransmit;
    WrappedSlot(u);
    TransmitAccounted(s.ledger, s.tally, t, size, Wrap16(u), mark, ts);
    forall v | v in s.packets + {u}
      ensures v <= s.ext[Slot(u) := u][Slot(v)] && v <= u
    {
    }
  }

  lemma ArrivalSound(s: System, a: Arrival)
    requires Sound(s) && a.u in s.packets
    ensures Sound(Next(s, PacketArrives(a)))
  {
    hide Accounted, TruthfulMessage, AccurateThen, Recorded, Records, Remembers, Describes;
    Monotone(s.log, a);
    ReceiveRemembers(s.rx, s.log, a);
  }

  /** The message a receiver makes is truthful, and making it leaves the history alone. */
  lemma MadeTruthful(s: System, reporter: uint32, d: Due)
    requires SysShaped(s) && Remembers(s.rx, s.log)
    ensures var (ss, blocks) := Emit([s.rx], d, s.rx.nReported, 8);
            && Remembers(ss[0], s.log)
            && TruthfulMessage(Message(Print(reporter, Feedback(blocks, d.t)), |s.log|, d.t), s.log)
  {
    hide Emit, Print, Parse, Truthful, Words, ReportsFrom, TruthfulMessage, Remembers;
    EmitFromHistory(s.rx, d, 8);
    EmitSize([s.rx], d, s.rx.nReported, 8);
    var (ss, blocks) := Emit([s.rx], d, s.rx.nReported, 8);
    SameHistory(s.rx, ss[0], s.log);
    FewWords(blocks, s.rx.nReported);
    BlocksTruthful(s.rx, s.log, blocks, d.t);
    PrintedTruthful(reporter, blocks, s.log, d.t);
  }

  lemma SameHistory(s: RxState, r: RxState, log: seq<Arrival>)
    requires Remembers(s, log)
    requires r.hist == s.hist && r.nReported == s.nReported && r.firstReceived == s.firstReceived
    ensures Remembers(r, log)
  {
  }

  lemma BlocksTruthful(s: RxState, log: seq<Arrival>, blocks: seq<Block>, t: uint32)
    requires Remembers(s, log)
    requires forall j :: 0 <= j < |blocks| ==> blocks[j].reports == ReportsFrom(s.hist, blocks[j].beginSeq, s.nReported, t)
    ensures forall j :: 0 <= j < |blocks| ==> Truthful(blocks[j], log, t)
  {
    hide Truthful, ReportsFrom, Remembers;
    forall j | 0 <= j < |blocks|
      ensures Truthful(blocks[j], log, t)
    {
      BlockTruthful(s, log, blocks[j], t);
    }
  }

  lemma PrintedTruthful(reporter: uint32, blocks: seq<Block>, log: seq<Arrival>, t: uint32)
    requires Words(blocks) <= 65533 && forall j :: 0 <= j < |blocks| ==> Truthful(blocks[j], log, t)
    ensures TruthfulMessage(Message(Print(reporter, Feedback(blocks, t)), |log|, t), log)
  {
    hide Print, Parse, Truthful, Words;
    RoundTrip(reporter, Feedback(blocks, t));
    assert log[..|log|] == log;
  }

  lemma FewWords(blocks: seq<Block>, n: int)
    requires 1 <= n < 65536
    requires blocks != [] ==> 8 + 4 * Words(blocks) < 900 + BlockSize(n)
    ensures Words(blocks) <= 65533
  {
  }

  lemma FeedbackMadeSound(s: System, reporter: uint32, d: Due)
    requires Sound(s)
    ensures Sound(Next(s, FeedbackMade(reporter, d)))
  {
    hide Emit, Print, TruthfulMessage, Accounted, AccurateThen, Recorded, Records, Describes, Remembers;
    MadeTruthful(s, reporter, d);
  }

  lemma StillCurrent(s: System, m: Message)
    requires Sound(s) && WithinCycle(s, m)
    ensures Current(s.log[..m.heard], s.ext, s.hiTx)
  {
    hide TruthfulMessage, Accounted, AccurateThen, Recorded, Records, Describes, Remembers;
    var hist := s.log[..m.heard];
    forall ix | 0 <= ix < 512 && LastAt(hist, ix).Some?
      ensures LastAt(hist, ix).value.u <= s.ext[Slot(LastAt(hist, ix).value.u)]
    {
      LastAtIsLogged(hist, ix);
    }
  }

  /** The records of a message's acknowledgements: each accurate when the message was made, one for each newly marked
      packet, and no record lost. */
  lemma RecordsGrow(acked: seq<Acked>, acks: seq<Ack>, more: seq<Ack>, ext: seq<int>, m: Message, log: seq<Arrival>)
    requires Records(acked, acks) && acks <= more && |ext| == 4096 && m.heard <= |log|
    requires forall i :: |acks| <= i < |more| ==> AccurateAck(more[i], ext, m, log[..m.heard])
    requires forall i :: 0 <= i < |acked| ==> AccurateThen(acked[i], log)
    ensures var r := acked + Lifts(more, |acks|, ext, m);
            && Records(r, more)
            && (forall i :: 0 <= i < |r| ==> AccurateThen(r[i], log))
            && (forall u :: Recorded(u, acked) ==> Recorded(u, r))
            && (forall k :: 0 <= k < 4096 && SettledFrom(more, |acks|, k) ==> Recorded(ext[k], r))
  {
    hide AccurateAck, AccurateThen, Recorded, SettledFrom, Wrap16, LiftOne;
    var r := acked + Lifts(more, |acks|, ext, m);
    forall i | 0 <= i < |r|
      ensures AccurateThen(r[i], log)
      ensures Wrap16(r[i].u) == more[i].seqNr && r[i].rxTime == more[i].rxTime && r[i].ceBits == more[i].ceBits
    {
      if i >= |acked| {
        NewlyAccurate(more[i], ext, m, log);
      }
    }
    RecordedGrows(acked, acks, more, ext, m);
  }

  lemma NewlyAccurate(a: Ack, ext: seq<int>, m: Message, log: seq<Arrival>)
    requires m.heard <= |log| && AccurateAck(a, ext, m, log[..m.heard])
    ensures var r := LiftOne(a, ext, m);
            AccurateThen(r, log) && Wrap16(r.u) == a.seqNr && r.rxTime == a.rxTime && r.ceBits == a.ceBits
  {
  }

  lemma RecordedGrows(acked: seq<Acked>, acks: seq<Ack>, more: seq<Ack>, ext: seq<int>, m: Message)
    requires |acked| == |acks| && acks <= more && |ext| == 4096
    ensures var r := acked + Lifts(more, |acks|, ext, m);
            && (forall u :: Recorded(u, acked) ==> Recorded(u, r))
            && (forall k :: 0 <= k < 4096 && SettledFrom(more, |acks|, k) ==> Recorded(ext[k], r))
  {
    var r := acked + Lifts(more, |acks|, ext, m);
    forall u | Recorded(u, acked)
      ensures Recorded(u, r)
    {
      var i :| 0 <= i < |acked| && acked[i].u == u;
      assert r[i].u == u;
    }
    forall k | 0 <= k < 4096 && SettledFrom(more, |acks|, k)
      ensures Recorded(ext[k], r)
    {
      var i :| |acks| <= i < |more| && more[i].slot == k;
      assert r[i].u == ext[k];
    }
  }

  lemma FeedbackArrivesSound(s: System, m: Message)
    requires Sound(s) && m in s.messages && WithinCycle(s, m)
    ensures Sound(Next(s, FeedbackArrives(m)))
  {
    StillCurrent(s, m);
    hide FeedbackEvents, Run, Truthful, Backed, Accounted, Parse, Remembers, Current, Describes, AccurateAck, AccurateThen,
         Recorded, Records, SettledFrom, Lifts;
    var hist, f := s.log[..m.heard], Parse(m.octets).value;
    var events := FeedbackEvents(s.ledger, s.tally, s.rx.ssrc, f.timestamp, f.blocks);
    FeedbackBacked(s.ledger, s.tally, s.rx.ssrc, f.timestamp, f.blocks, hist);
    RunAccepted(s.ledger, s.tally, events, s.ext, s.hiTx, hist, m);
    RunKeepsAccount(s.ledger, s.tally, events);
    RecordsGrow(s.acked, s.ledger.acks, Run(s.ledger, s.tally, events).0.acks, s.ext, m, s.log);
  }

  lemma SilentSound(s: System)
    requires Sound(s)
    ensures Sound(Next(s, SenderTimesOut)) && Sound(Next(s, SenderUpdatesRate))
  {
    TimeOutAccounted(s.ledger, s.tally);
    hide TruthfulMessage, AccurateThen, Recorded, Records, Remembers;
  }

  lemma NextSound(s: System, e: SysEvent)
    requires Sound(s) && Enabled(s, e)
    ensures Sound(Next(s, e))
  {
    hide Sound, Next;
    match e
    case Transmits(u, t, size, mark, ts) => TransmitSound(s, u, t, size, mark, ts);
    case PacketArrives(a) => ArrivalSound(s, a);
    case FeedbackMade(reporter, d) => FeedbackMadeSound(s, reporter, d);
    case FeedbackArrives(m) => FeedbackArrivesSound(s, m);
    case SenderTimesOut => SilentSound(s);
    case SenderUpdatesRate => SilentSound(s);
  }

  // ---------- Every run ----------

  ghost predicate IsStart(s: System) {
    && SysShaped(s) && IsFresh(s.ledger) && s.tally == NO_TALLY
    && (forall k :: 0 <= k < 4096 ==> !s.ledger.slots[k].isAcked)
    && IsNew(s.rx)
    && s.packets == {} && s.log == [] && s.messages == {} && s.acked == []
  }

  /** s can be reached from a start by the given events, each enabled when it happened. */
  ghost predicate Reaches(start: System, events: seq<SysEvent>, s: System) {
    if events == [] then IsStart(start) && s == start
    else exists before :: Reaches(start, events[..|events| - 1], before) && SysShaped(before)
                          && Enabled(before, events[|events| - 1]) && s == Next(before, events[|events| - 1])
  }

  lemma {:induction false} ReachableSound(start: System, events: seq<SysEvent>, s: System)
    requires Reaches(start, events, s)
    ensures Sound(s)
  {
    hide Next, Sound, Enabled, IsStart;
    if events == [] {
      StartSound(s);
    } else {
      var before :| Reaches(start, events[..|events| - 1], before) && SysShaped(before)
                    && Enabled(before, events[|events| - 1]) && s == Next(before, events[|events| - 1]);
      ReachableSound(start, events[..|events| - 1], before);
      NextSound(before, events[|events| - 1]);
    }
  }

  lemma StartSound(s: System)
    requires IsStart(s)
    ensures Sound(s)
  {
    FreshAccounted(s.ledger);
    hide Accounted;
  }

  /** Among the arrivals heard when the report was made, the last one in the history slot of packet r.u is that packet;
      the record has its ECN bits and its arrival time, as far as the 13-bit offset carries it, which is 0 to 63 ticks
      late exactly when the report was made within 8191 * 64 ticks of that arrival. */
  ghost predicate Vouched(r: Acked, log: seq<Arrival>) {
    r.heard <= |log|
    && var entry := LastAt(log[..r.heard], Wrap16(r.u) % 512);
       && entry.Some? && entry.value in log && entry.value.u == r.u
       && r.ceBits == entry.value.ceBits % 4
       && r.rxTime == Sub32(r.madeAt, 64 * Offset(r.madeAt, entry.value.t))
       && (Sub32(r.rxTime, entry.value.t) <= 63 <==> Sub32(r.madeAt, entry.value.t) < 8191 * 64)
  }

  lemma AccurateIsVouched(r: Acked, log: seq<Arrival>)
    requires AccurateThen(r, log)
    ensures Vouched(r, log)
  {
    var hist, ix := log[..r.heard], Wrap16(r.u) % 512;
    LastAtIsLogged(hist, ix);
    ReconstructedTime(r.madeAt, LastAt(hist, ix).value.t);
  }

  /** End-to-end acknowledgement soundness: in every reachable state, each packet marked as acknowledged has a record; the
      records are what the sender was told, one for each acknowledgement it took; and each is vouched for by the arrival
      that the receiver's history held when the report was made. */
  lemma AcknowledgementSoundness(start: System, events: seq<SysEvent>, s: System)
    requires Reaches(start, events, s)
    ensures |s.ledger.slots| == |s.ext| == 4096
    ensures forall k :: 0 <= k < 4096 && s.ledger.slots[k].isAcked ==>
              exists i :: 0 <= i < |s.acked| && s.acked[i].u == s.ext[k] && Vouched(s.acked[i], s.log)
    ensures Records(s.acked, s.ledger.acks)
    ensures forall i :: 0 <= i < |s.acked| ==> Vouched(s.acked[i], s.log)
  {
    ReachableSound(start, events, s);
    hide AccurateThen, Vouched, TruthfulMessage, Accounted, Remembers, Describes, Reaches;
    forall i | 0 <= i < |s.acked|
      ensures Vouched(s.acked[i], s.log)
    {
      AccurateIsVouched(s.acked[i], s.log);
    }
  }
}
