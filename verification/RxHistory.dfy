/** One stream at the receiver: the history of the last 512 sequence numbers and the report block
    made from it. */
module RxHistory {
  import opened Options
  import opened Serial
  import opened Ccfb

  /** A packet as it arrives, with its unbounded number u; only u modulo 65536 is on the wire. */
  datatype Arrival = Arrival(u: int, t: uint32, ceBits: nat, mark: bool)

  /** The history vectors, indexed by sequence number modulo 512. */
  datatype History = History(ceBits: seq<nat>, rxTime: seq<uint32>, seqNr: seq<uint16>)

  datatype RxState = RxState(
    ssrc: uint32,
    nReported: int,
    highestSeqNr: uint16,
    highestSeqNrTx: uint16,
    hist: History,
    lastFeedbackT: uint32,
    nRtpSinceLastRtcp: nat,
    firstReceived: bool,
    doFlush: bool)

  predicate Full(h: History) { |h.ceBits| == |h.rxTime| == |h.seqNr| == 512 }

  /** The history vectors have 512 entries, and a report covers 1 to 65535 packets. */
  predicate Shaped(s: RxState) { Full(s.hist) && 1 <= s.nReported < 65536 }

  // ---------- Reception ----------

  /** sn counts as at or after the highest number hi, by the wrap-around rule of receive. */
  predicate Newer(sn: uint16, hi: uint16) {
    var snExt := if sn < hi && hi - sn > 16384 then sn + 65536 else sn;
    var hiExt := if hi < sn && sn - hi > 16384 then hi + 65536 else hi;
    snExt >= hiExt
  }

  function Receive(s: RxState, sn: uint16, t: uint32, ceBits: nat, mark: bool): (r: RxState)
    requires Shaped(s)
    ensures Shaped(r)
  {
    var hi := if s.firstReceived then s.highestSeqNr else Sub16(sn, 1);
    var numbers := if s.firstReceived then s.hist.seqNr else seq(512, _ => Wrap16(sn + 1));
    s.(nRtpSinceLastRtcp := s.nRtpSinceLastRtcp + 1,
       doFlush := s.doFlush || mark,
       firstReceived := true,
       hist := History(s.hist.ceBits[sn % 512 := ceBits], s.hist.rxTime[sn % 512 := t], numbers[sn % 512 := sn]),
       highestSeqNr := if Newer(sn, hi) then sn else hi)
  }

  // ---------- Reporting ----------

  /** Age of an entry in 1/1024 s, capped. */
  function Offset(t: uint32, rxTime: uint32): (offset: nat)
    ensures offset < 8192
  {
    var ato := Sub32(t, rxTime) / 64;
    if ato > 8189 then 8190 else ato
  }

  /** The report element for number sn at time t. */
  function ReportFor(h: History, sn: uint16, t: uint32): uint16
    requires Full(h)
  {
    var ix := sn % 512;
    Element(h.seqNr[ix] == sn && h.rxTime[ix] != 0, h.ceBits[ix] % 4, Offset(t, h.rxTime[ix]))
  }

  function ReportsFrom(h: History, begin: uint16, n: nat, t: uint32): (w: seq<uint16>)
    requires Full(h)
    ensures |w| == n
  {
    if n == 0 then [] else ReportsFrom(h, begin, n - 1, t) + [ReportFor(h, Wrap16(begin + n - 1), t)]
  }

  lemma ReportsAppend(h: History, begin: uint16, n: nat, t: uint32)
    requires Full(h)
    ensures ReportsFrom(h, begin, n + 1, t) == ReportsFrom(h, begin, n, t) + [ReportFor(h, Wrap16(begin + n), t)]
  {
    hide ReportFor;
  }

  lemma {:induction false} ReportAt(h: History, begin: uint16, n: nat, t: uint32, k: nat)
    requires Full(h) && k < n
    ensures ReportsFrom(h, begin, n, t)[k] == ReportFor(h, Wrap16(begin + k), t)
  {
    if k < n - 1 {
      ReportAt(h, begin, n - 1, t, k);
    }
  }

  /** The number the next report block ends with. */
  function NextTx(s: RxState): uint16
    requires Shaped(s)
  {
    if s.highestSeqNr - s.highestSeqNrTx > s.nReported then s.highestSeqNrTx + s.nReported else s.highestSeqNr
  }

  function ReportBlock(s: RxState, t: uint32): (block: Block)
    requires Shaped(s)
    ensures |block.reports| == s.nReported
  {
    var begin := Sub16(NextTx(s), s.nReported - 1);
    Block(s.ssrc, begin, ReportsFrom(s.hist, begin, s.nReported, t))
  }

  /** The stream after a report block was made from it. */
  function Reported(s: RxState): (r: RxState)
    requires Shaped(s)
    ensures Shaped(r)
  {
    s.(highestSeqNrTx := NextTx(s), doFlush := NextTx(s) != s.highestSeqNr)
  }

  // ---------- Highest sequence number ----------

  /** The 16-bit rule agrees with the unbounded order within 16384, and beyond that exactly when the numbers
      lie on different sides of a wrap. */
  lemma NewerIff(u: int, h: int)
    requires -49152 < u - h < 49152
    ensures (Newer(Wrap16(u), Wrap16(h)) <==> u >= h)
            <==> (-16384 <= u - h <= 16384 || u / 65536 != h / 65536)
  {
    var a: int, b: int := u / 65536, h / 65536;
    var x: int, y: int := u % 65536, h % 65536;
    assert u == 65536 * a + x && h == 65536 * b + y;
    assert a - b == 0 || a - b == 1 || a - b == -1;
  }

  function Highest(log: seq<Arrival>): int
    requires log != []
  {
    if |log| == 1 then log[0].u else Max(Highest(log[..|log| - 1]), log[|log| - 1].u)
  }

  /** Every arrival was within 16384 of the highest number before it. */
  ghost predicate Near(log: seq<Arrival>) {
    |log| <= 1
    || (Near(log[..|log| - 1]) && -16384 <= log[|log| - 1].u - Highest(log[..|log| - 1]) <= 16384)
  }

  // ---------- History ----------

  /** The last packet written to history slot ix. */
  function LastAt(log: seq<Arrival>, ix: nat): Option<Arrival> {
    if log == [] then None
    else if Wrap16(log[|log| - 1].u) % 512 == ix then Some(log[|log| - 1])
    else LastAt(log[..|log| - 1], ix)
  }

  lemma {:induction false} LastAtIsLogged(log: seq<Arrival>, ix: nat)
    requires LastAt(log, ix).Some?
    ensures LastAt(log, ix).value in log && Wrap16(LastAt(log, ix).value.u) % 512 == ix
  {
    if Wrap16(log[|log| - 1].u) % 512 != ix {
      LastAtIsLogged(log[..|log| - 1], ix);
    }
  }

  /** The history vectors hold, slot by slot, the last packet of the log, and an unwritten slot has time zero. */
  ghost predicate Remembers(s: RxState, log: seq<Arrival>) {
    && Shaped(s)
    && (s.firstReceived <==> log != [])
    && forall ix :: 0 <= ix < 512 ==>
         match LastAt(log, ix)
         case None => s.hist.rxTime[ix] == 0
         case Some(a) => s.hist.seqNr[ix] == Wrap16(a.u) && s.hist.rxTime[ix] == a.t && s.hist.ceBits[ix] == a.ceBits
  }

  datatype RxEvent = Arrived(a: Arrival) | FedBack(t: uint32)

  function RxStep(s: RxState, e: RxEvent): (r: RxState)
    requires Shaped(s)
    ensures Shaped(r)
  {
    match e
    case Arrived(a) => Receive(s, Wrap16(a.u), a.t, a.ceBits, a.mark)
    case FedBack(t) => Reported(s).(lastFeedbackT := t, nRtpSinceLastRtcp := 0)
  }

  function RxRun(s: RxState, events: seq<RxEvent>): (r: RxState)
    requires Shaped(s)
    ensures Shaped(r)
  {
    if events == [] then s else RxStep(RxRun(s, events[..|events| - 1]), events[|events| - 1])
  }

  function Arrivals(events: seq<RxEvent>): seq<Arrival> {
    if events == [] then []
    else Arrivals(events[..|events| - 1])
         + match events[|events| - 1] { case Arrived(a) => [a] case FedBack(_) => [] }
  }

  /** A stream as constructed. */
  ghost predicate IsNew(s: RxState) {
    && Shaped(s)
    && !s.firstReceived && !s.doFlush && s.nRtpSinceLastRtcp == 0
    && s.highestSeqNr == s.highestSeqNrTx == s.lastFeedbackT == 0
    && forall ix :: 0 <= ix < 512 ==> s.hist.rxTime[ix] == 0
  }

  function NewState(ssrc: uint32, n: int): (s: RxState)
    requires 1 <= n < 65536
    ensures IsNew(s)
  {
    RxState(ssrc, n, 0, 0, History(seq(512, _ => 0), seq(512, _ => 0), seq(512, _ => 0)), 0, 0, false, false)
  }

  lemma ReceiveRemembers(s: RxState, log: seq<Arrival>, a: Arrival)
    requires Remembers(s, log)
    ensures Remembers(Receive(s, Wrap16(a.u), a.t, a.ceBits, a.mark), log + [a])
  {
    assert (log + [a])[..|log|] == log;
  }

  lemma ReceiveHighest(s: RxState, log: seq<Arrival>, a: Arrival)
    requires Remembers(s, log) && Near(log + [a])
    requires log != [] ==> s.highestSeqNr == Wrap16(Highest(log))
    ensures Receive(s, Wrap16(a.u), a.t, a.ceBits, a.mark).highestSeqNr == Wrap16(Highest(log + [a]))
  {
    assert (log + [a])[..|log|] == log;
    if log == [] {
      NewerIff(a.u, a.u - 1);
    } else {
      NewerIff(a.u, Highest(log));
    }
  }

  /** Over every run of arrivals and reports the history is exact, and while arrivals stay near,
      highestSeqNr is the true maximum through any number of wraps. */
  lemma {:induction false} RunRemembers(s: RxState, events: seq<RxEvent>)
    requires IsNew(s)
    ensures var r, log := RxRun(s, events), Arrivals(events);
            && Remembers(r, log)
            && (log != [] && Near(log) ==> r.highestSeqNr == Wrap16(Highest(log)))
  {
    if events != [] {
      var before := events[..|events| - 1];
      RunRemembers(s, before);
      match events[|events| - 1]
      case Arrived(a) =>
        var log := Arrivals(before);
        ReceiveRemembers(RxRun(s, before), log, a);
        assert (log + [a])[..|log|] == log;
        if Near(log + [a]) {
          ReceiveHighest(RxRun(s, before), log, a);
        }
      case FedBack(_) =>
        assert Arrivals(events) == Arrivals(before);
    }
  }

  /** A report element says "received" exactly when the last packet written to its history slot carried its
      number at a non-zero time, and then it carries that packet's ECN bits and age. */
  lemma ElementExact(s: RxState, log: seq<Arrival>, sn: uint16, t: uint32)
    requires Remembers(s, log)
    ensures var w, last := ReportFor(s.hist, sn, t), LastAt(log, sn % 512);
            && (IsReceived(w) <==> last.Some? && Wrap16(last.value.u) == sn && last.value.t != 0)
            && (IsReceived(w) ==> EcnOf(w) == last.value.ceBits % 4 && OffsetOf(w) == Offset(t, last.value.t))
  {
    var ix := sn % 512;
    ElementRoundTrip(s.hist.seqNr[ix] == sn && s.hist.rxTime[ix] != 0, s.hist.ceBits[ix] % 4, Offset(t, s.hist.rxTime[ix]));
  }

  /** The arrival time the sender reconstructs from a report is 0 to 63 ticks late exactly when
      the report was made within 8191 * 64 ticks of the arrival. */
  lemma ReconstructedTime(t: uint32, rxTime: uint32)
    ensures Sub32(Sub32(t, 64 * Offset(t, rxTime)), rxTime) <= 63 <==> Sub32(t, rxTime) < 8191 * 64
  {
    var age: int := Sub32(t, rxTime);
    var q: int := (t - rxTime) / 4294967296;
    assert t - rxTime == 4294967296 * q + age;
    var rec: int := Sub32(t, 64 * Offset(t, rxTime));
    var p: int := (t - 64 * Offset(t, rxTime)) / 4294967296;
    assert t - 64 * Offset(t, rxTime) == 4294967296 * p + rec;
    assert rec - rxTime == age - 64 * Offset(t, rxTime) + 4294967296 * (q - p);
    assert Sub32(rec, rxTime) == age - 64 * Offset(t, rxTime);
  }

  // ---------- Gaps ----------

  /** The unbounded number of NextTx when the highest number is h and the last reported one is tx. */
  function NextTxLifted(h: int, tx: int, n: int): int {
    if h / 65536 == tx / 65536 && h - tx > n then tx + n else h
  }

  lemma NextTxAgrees(s: RxState, h: int, tx: int)
    requires Shaped(s) && tx <= h < tx + 65536
    requires s.highestSeqNr == Wrap16(h) && s.highestSeqNrTx == Wrap16(tx)
    ensures NextTx(s) == Wrap16(NextTxLifted(h, tx, s.nReported))
    ensures tx <= NextTxLifted(h, tx, s.nReported) <= h
  {
    var a: int, b: int := h / 65536, tx / 65536;
    var x: int, y: int := h % 65536, tx % 65536;
    assert h == 65536 * a + x && tx == 65536 * b + y;
    if a == b {
      assert h - tx > s.nReported ==> tx + s.nReported == 65536 * b + (y + s.nReported) && y + s.nReported < 65536;
    }
  }

  /** A block with unbounded last number end has an element for number v, at the place of v. */
  predicate InBlock(block: Block, end: int, v: int) {
    var k := v - end + |block.reports| - 1;
    0 <= k < |block.reports| && Wrap16(block.beginSeq + k) == Wrap16(v)
  }

  lemma InBlockIff(block: Block, end: int, v: int)
    requires block.beginSeq == Wrap16(end - (|block.reports| - 1))
    ensures InBlock(block, end, v) <==> end - |block.reports| < v <= end
  {
    WrapThenAdd16(end - (|block.reports| - 1), v - end + |block.reports| - 1);
  }

  /** More than a block's worth of numbers is outstanding, across a 16-bit wrap. */
  predicate CrossesWrap(h: int, tx: int, n: int) { h - tx > n && h / 65536 != tx / 65536 }

  /** Where a block begins and ends, in unbounded numbers. */
  lemma BlockLifted(s: RxState, h: int, tx: int, t: uint32)
    requires Shaped(s) && tx <= h < tx + 65536
    requires s.highestSeqNr == Wrap16(h) && s.highestSeqNrTx == Wrap16(tx)
    ensures var next, n := NextTxLifted(h, tx, s.nReported), s.nReported;
            && tx <= next <= h
            && Reported(s).highestSeqNrTx == Wrap16(next)
            && ReportBlock(s, t).beginSeq == Wrap16(next - (n - 1)) && |ReportBlock(s, t).reports| == n
  {
    NextTxAgrees(s, h, tx);
    BlockShape(s, t);
    WrapThenSub16(NextTxLifted(h, tx, s.nReported), s.nReported - 1);
    hide NextTx, ReportBlock, Reported;
  }

  /** A block ends with NextTxLifted, and it has an element for every number after the last reported one except
      exactly when more than a block's worth of numbers is outstanding across a 16-bit wrap. */
  lemma GapFreeIff(s: RxState, h: int, tx: int, t: uint32)
    requires Shaped(s) && tx <= h < tx + 65536
    requires s.highestSeqNr == Wrap16(h) && s.highestSeqNrTx == Wrap16(tx)
    ensures var next, block := NextTxLifted(h, tx, s.nReported), ReportBlock(s, t);
            && tx <= next <= h
            && Reported(s).highestSeqNrTx == Wrap16(next)
            && (InBlock(block, next, next) && forall v :: InBlock(block, next, v) ==> v <= next)
            && ((forall v :: tx < v <= next ==> InBlock(block, next, v)) <==> !CrossesWrap(h, tx, s.nReported))
  {
    var next, n, block := NextTxLifted(h, tx, s.nReported), s.nReported, ReportBlock(s, t);
    hide InBlock, ReportBlock, Reported;
    BlockLifted(s, h, tx, t);
    forall v
      ensures InBlock(block, next, v) <==> next - n < v <= next
    {
      InBlockIff(block, next, v);
    }
    if CrossesWrap(h, tx, n) {
      assert !InBlock(block, next, tx + 1);
    }
  }

  lemma BlockShape(s: RxState, t: uint32)
    requires Shaped(s)
    ensures ReportBlock(s, t).beginSeq == Sub16(NextTx(s), s.nReported - 1) && |ReportBlock(s, t).reports| == s.nReported
    ensures Reported(s).highestSeqNrTx == NextTx(s) && Reported(s).highestSeqNr == s.highestSeqNr
    ensures Reported(s).nReported == s.nReported
  {
  }

  /** Unbounded view of a run: highest number, last reported number, and the last number of every block made. */
  datatype Coverage = Coverage(h: int, tx: int, ends: seq<int>)

  function Cover(c: Coverage, e: RxEvent, isFirst: bool, n: int): Coverage {
    match e
    case Arrived(a) => c.(h := if isFirst then a.u else Max(c.h, a.u))
    case FedBack(_) =>
      var next := NextTxLifted(c.h, c.tx, n);
      c.(tx := next, ends := c.ends + [next])
  }

  function CoverRun(events: seq<RxEvent>, n: int): Coverage {
    if events == [] then Coverage(0, 0, [])
    else Cover(CoverRun(events[..|events| - 1], n), events[|events| - 1], Arrivals(events[..|events| - 1]) == [], n)
  }

  /** The blocks a run makes, in order. */
  function BlocksOf(s: RxState, events: seq<RxEvent>): seq<Block>
    requires Shaped(s)
  {
    if events == [] then []
    else
      var before := events[..|events| - 1];
      BlocksOf(s, before)
      + match events[|events| - 1] { case Arrived(_) => [] case FedBack(t) => [ReportBlock(RxRun(s, before), t)] }
  }

  /** Every number after 0 up to tx has an element in one of the blocks. */
  ghost predicate AllTold(blocks: seq<Block>, ends: seq<int>, tx: int) {
    && |blocks| == |ends|
    && forall v {:trigger Told(blocks, ends, v)} :: 0 < v <= tx ==> Told(blocks, ends, v)
  }

  ghost predicate Told(blocks: seq<Block>, ends: seq<int>, v: int)
    requires |blocks| == |ends|
  {
    exists i :: 0 <= i < |blocks| && InBlock(blocks[i], ends[i], v)
  }

  lemma AllToldGrows(blocks: seq<Block>, ends: seq<int>, tx: int, block: Block, next: int)
    requires AllTold(blocks, ends, tx) && tx <= next
    requires forall v :: tx < v <= next ==> InBlock(block, next, v)
    ensures AllTold(blocks + [block], ends + [next], next)
  {
    hide InBlock;
    var more, last := blocks + [block], ends + [next];
    forall v | 0 < v <= next
      ensures Told(more, last, v)
    {
      if v <= tx {
        assert Told(blocks, ends, v);
        var i :| 0 <= i < |blocks| && InBlock(blocks[i], ends[i], v);
        assert InBlock(more[i], last[i], v);
      } else {
        assert InBlock(more[|blocks|], last[|blocks|], v);
      }
    }
  }

  /** No report of the run was made with more than a block's worth outstanding across a wrap, arrivals stayed near
      one another, the first number is below 65536 and the receiver never fell a whole cycle behind. */
  ghost predicate Orderly(events: seq<RxEvent>, n: int) {
    events == []
    || var before, e := events[..|events| - 1], events[|events| - 1];
       && Orderly(before, n)
       && CoverRun(events, n).tx <= CoverRun(events, n).h < CoverRun(events, n).tx + 65536
       && match e
          case Arrived(a) => Near(Arrivals(events))
          case FedBack(_) => !CrossesWrap(CoverRun(before, n).h, CoverRun(before, n).tx, n)
  }

  lemma StepGapFree(s: RxState, log: seq<Arrival>, c: Coverage, blocks: seq<Block>, e: RxEvent)
    requires Remembers(s, log) && c.tx <= c.h < c.tx + 65536
    requires s.highestSeqNr == Wrap16(c.h) && s.highestSeqNrTx == Wrap16(c.tx)
    requires log != [] ==> c.h == Highest(log)
    requires AllTold(blocks, c.ends, c.tx)
    requires e.Arrived? ==> Near(log + [e.a])
    requires e.FedBack? ==> !CrossesWrap(c.h, c.tx, s.nReported)
    ensures var r, c' := RxStep(s, e), Cover(c, e, log == [], s.nReported);
            && r.nReported == s.nReported
            && r.highestSeqNr == Wrap16(c'.h) && r.highestSeqNrTx == Wrap16(c'.tx)
            && AllTold(blocks + (if e.FedBack? then [ReportBlock(s, e.t)] else []), c'.ends, c'.tx)
            && (e.Arrived? ==> c'.h == Highest(log + [e.a]))
            && (e.FedBack? ==> c'.h == c.h)
  {
    match e
    case Arrived(a) =>
      assert (log + [a])[..|log|] == log && blocks + [] == blocks;
      ReceiveHighest(s, log, a);
    case FedBack(t) =>
      hide AllTold, ReportBlock, Reported, InBlock;
      BlockShape(s, t);
      GapFreeIff(s, c.h, c.tx, t);
      AllToldGrows(blocks, c.ends, c.tx, ReportBlock(s, t), NextTxLifted(c.h, c.tx, s.nReported));
  }

  /** Gap-free reporting over every orderly run: each number up to the last reported one has its element in one of the
      blocks that the run made. */
  lemma {:induction false} RunGapFree(s: RxState, events: seq<RxEvent>)
    requires IsNew(s) && Orderly(events, s.nReported)
    ensures var r, c, log := RxRun(s, events), CoverRun(events, s.nReported), Arrivals(events);
            && r.nReported == s.nReported
            && r.highestSeqNr == Wrap16(c.h) && r.highestSeqNrTx == Wrap16(c.tx)
            && (log != [] ==> c.h == Highest(log))
            && AllTold(BlocksOf(s, events), c.ends, c.tx)
            && c.tx <= c.h < c.tx + 65536
  {
    if events != [] {
      var before, e := events[..|events| - 1], events[|events| - 1];
      RunGapFree(s, before);
      RunRemembers(s, before);
      if e.FedBack? {
        assert Arrivals(events) == Arrivals(before);
      }
      hide AllTold;
      StepGapFree(RxRun(s, before), Arrivals(before), CoverRun(before, s.nReported), BlocksOf(s, before), e);
    }
  }

  /** The block has an element for sn, whichever cycle sn may belong to. */
  predicate HasElement(block: Block, sn: uint16) { Sub16(sn, block.beginSeq) < |block.reports| }

  lemma NewShape(s: RxState)
    requires IsNew(s)
    ensures Shaped(s) && !s.firstReceived && s.highestSeqNrTx == 0
  {
  }

  /** The numbers after an arrival. */
  lemma ReceivedNumbers(s: RxState, sn: uint16, t: uint32, ceBits: nat, mark: bool)
    requires Shaped(s)
    ensures var r, hi := Receive(s, sn, t, ceBits, mark), if s.firstReceived then s.highestSeqNr else Sub16(sn, 1);
            && r.highestSeqNr == (if Newer(sn, hi) then sn else hi) && r.highestSeqNrTx == s.highestSeqNrTx
            && r.nReported == s.nReported && r.firstReceived && r.ssrc == s.ssrc
            && r.doFlush == (s.doFlush || mark) && r.lastFeedbackT == s.lastFeedbackT
            && r.nRtpSinceLastRtcp == s.nRtpSinceLastRtcp + 1
  {
    hide Newer, Sub16;
  }
}
