/** Which streams a feedback message reports on, and in what order. */
module RxSchedule {
  import opened Options
  import opened Serial
  import opened Ccfb
  import opened RxHistory

  /** What decides, besides the streams themselves, whether a stream is due. */
  datatype Due = Due(t: uint32, isMark: bool, ackDiff: int, interval: uint32)

  predicate IsDue(s: RxState, d: Due) {
    || s.nRtpSinceLastRtcp >= Min(16, d.ackDiff)
    || s.doFlush
    || Sub32(d.t, s.lastFeedbackT) > d.interval
    || (d.isMark && s.nRtpSinceLastRtcp > 0)
  }

  /** The choice among the first k streams: the first one that is due with the oldest feedback. */
  function Best(ss: seq<RxState>, k: nat, d: Due): (b: Option<nat>)
    requires k <= |ss|
    ensures b.Some? ==> b.value < k && IsDue(ss[b.value], d)
  {
    if k == 0 then None
    else
      var b := Best(ss, k - 1, d);
      if IsDue(ss[k - 1], d) && (b.None? || ss[k - 1].lastFeedbackT < ss[b.value].lastFeedbackT) then Some(k - 1) else b
  }

  /** Looking for the stream clears doFlush of every stream that led at some point of the search. */
  function Searched(ss: seq<RxState>, k: nat, d: Due): (r: seq<RxState>)
    requires k <= |ss|
    ensures |r| == |ss|
  {
    if k == 0 then ss
    else
      var r := Searched(ss, k - 1, d);
      if Best(ss, k, d) == Some(k - 1) then r[k - 1 := ss[k - 1].(doFlush := false)] else r
  }

  lemma {:induction false} SearchedAt(ss: seq<RxState>, k: nat, d: Due, i: nat)
    requires k <= |ss| && i < |ss|
    ensures Searched(ss, k, d)[i]
            == if i < k && Best(ss, i + 1, d) == Some(i) then ss[i].(doFlush := false) else ss[i]
  {
    hide Best;
    if k > 0 {
      SearchedAt(ss, k - 1, d, i);
    }
  }

  /** One round of the search. */
  lemma SearchStep(ss: seq<RxState>, k: nat, d: Due)
    requires k < |ss|
    ensures var b := Best(ss, k, d);
            var takes := IsDue(ss[k], d) && (b.None? || ss[k].lastFeedbackT < ss[b.value].lastFeedbackT);
            && Best(ss, k + 1, d) == (if takes then Some(k) else b)
            && Searched(ss, k, d)[k] == ss[k]
            && Searched(ss, k + 1, d)
               == Searched(ss, k, d)[k := if takes then ss[k].(doFlush := false) else ss[k]]
            && (b.Some? ==> Searched(ss, k, d)[b.value].lastFeedbackT == ss[b.value].lastFeedbackT)
  {
    hide IsDue;
    var b := Best(ss, k, d);
    SearchedAt(ss, k, d, k);
    if b.Some? {
      SearchedAt(ss, k, d, b.value);
    }
  }

  lemma SearchNothing(ss: seq<RxState>, d: Due)
    ensures Best(ss, 0, d) == None && Searched(ss, 0, d) == ss
  {
  }

  /** No due stream is passed over for one with more recent feedback, and none is overlooked. */
  lemma {:induction false} BestIsOldest(ss: seq<RxState>, k: nat, d: Due)
    requires k <= |ss|
    ensures var b := Best(ss, k, d);
            match b
            case None => forall i :: 0 <= i < k ==> !IsDue(ss[i], d)
            case Some(c) => && Best(ss, c + 1, d) == b
                            && forall i :: 0 <= i < k && IsDue(ss[i], d) ==> ss[c].lastFeedbackT <= ss[i].lastFeedbackT
  {
    if k > 0 {
      BestIsOldest(ss, k - 1, d);
    }
  }

  /** A stream that waits to flush loses its flag in the search if and only if every due stream before it has had feedback
      more recently, whether it is picked in the end or not. */
  lemma FlagLostIff(ss: seq<RxState>, d: Due, i: nat)
    requires i < |ss| && ss[i].doFlush
    ensures !Searched(ss, |ss|, d)[i].doFlush
            <==> forall j :: 0 <= j < i && IsDue(ss[j], d) ==> ss[i].lastFeedbackT < ss[j].lastFeedbackT
  {
    hide Searched;
    SearchedAt(ss, |ss|, d, i);
    SearchStep(ss, i, d);
    BestIsOldest(ss, i, d);
  }

  /** Of two due streams the second, with older feedback, is picked; the first loses its flag without being reported. */
  lemma OvertakenLosesFlush(a: RxState, b: RxState, d: Due)
    requires a.doFlush && IsDue(b, d) && b.lastFeedbackT < a.lastFeedbackT
    ensures Best([a, b], 2, d) == Some(1) && !Searched([a, b], 2, d)[0].doFlush
  {
    FlagLostIff([a, b], d, 0);
    BestIsOldest([a, b], 2, d);
  }

  /** All streams of one receiver report on the same number of packets. */
  predicate AllShaped(ss: seq<RxState>, n: int) {
    1 <= n < 65536 && forall i :: 0 <= i < |ss| ==> Shaped(ss[i]) && ss[i].nReported == n
  }

  lemma SearchedShaped(ss: seq<RxState>, d: Due, n: int)
    requires AllShaped(ss, n)
    ensures AllShaped(Searched(ss, |ss|, d), n)
  {
    hide Best;
    forall i | 0 <= i < |ss|
      ensures Shaped(Searched(ss, |ss|, d)[i]) && Searched(ss, |ss|, d)[i].nReported == n
    {
      SearchedAt(ss, |ss|, d, i);
    }
  }

  /** A stream after its block went into a message. */
  function Served(s: RxState, t: uint32): (r: RxState)
    requires Shaped(s)
    ensures Shaped(r)
  {
    Reported(s).(lastFeedbackT := t, nRtpSinceLastRtcp := 0)
  }

  /** A search that finds nothing changes nothing. */
  lemma SearchedInVain(ss: seq<RxState>, d: Due)
    requires Best(ss, |ss|, d) == None
    ensures Searched(ss, |ss|, d) == ss
  {
    forall k | 0 <= k <= |ss|
      ensures Best(ss, k, d) == None
    {
      BestIsOldest(ss, |ss|, d);
      BestIsOldest(ss, k, d);
    }
    hide Best;
    forall i | 0 <= i < |ss|
      ensures Searched(ss, |ss|, d)[i] == ss[i]
    {
      SearchedAt(ss, |ss|, d, i);
    }
  }

  /** A stream's report does not depend on its flush flag. */
  lemma SearchedBlock(ss: seq<RxState>, b: nat, d: Due)
    requires b < |ss| && Shaped(ss[b])
    ensures Shaped(Searched(ss, |ss|, d)[b])
    ensures ReportBlock(Searched(ss, |ss|, d)[b], d.t) == ReportBlock(ss[b], d.t)
  {
    hide Best, ReportBlock;
    SearchedAt(ss, |ss|, d, b);
    FlagUnreported(ss[b], d.t);
  }

  lemma FlagUnreported(s: RxState, t: uint32)
    requires Shaped(s)
    ensures ReportBlock(s.(doFlush := false), t) == ReportBlock(s, t)
  {
  }

  /** The streams after a packet for an SSRC: the stream of that SSRC takes it, a new one if there is none. */
  function Delivered(ss: seq<RxState>, n: int, t: uint32, ssrc: uint32, sn: uint16, ceBits: nat,
                     mark: bool): (r: seq<RxState>)
    requires AllShaped(ss, n)
    ensures AllShaped(r, n)
  {
    if ss == [] then
      [Receive(NewState(ssrc, n), sn, t, ceBits, mark)]
    else if ss[0].ssrc == ssrc then
      [Receive(ss[0], sn, t, ceBits, mark)] + ss[1..]
    else
      [ss[0]] + Delivered(ss[1..], n, t, ssrc, sn, ceBits, mark)
  }

  lemma {:induction false} DeliveredTo(ss: seq<RxState>, n: int, k: nat, t: uint32, ssrc: uint32, sn: uint16,
                                       ceBits: nat, mark: bool)
    requires AllShaped(ss, n) && k < |ss| && ss[k].ssrc == ssrc
    requires forall i :: 0 <= i < k ==> ss[i].ssrc != ssrc
    ensures Delivered(ss, n, t, ssrc, sn, ceBits, mark) == ss[k := Receive(ss[k], sn, t, ceBits, mark)]
  {
    hide Receive;
    if k > 0 {
      DeliveredTo(ss[1..], n, k - 1, t, ssrc, sn, ceBits, mark);
    }
  }

  lemma {:induction false} DeliveredNew(ss: seq<RxState>, n: int, t: uint32, ssrc: uint32, sn: uint16, ceBits: nat,
                                        mark: bool)
    requires AllShaped(ss, n) && forall i :: 0 <= i < |ss| ==> ss[i].ssrc != ssrc
    ensures Delivered(ss, n, t, ssrc, sn, ceBits, mark) == ss + [Receive(NewState(ssrc, n), sn, t, ceBits, mark)]
  {
    hide Receive;
    if ss != [] {
      DeliveredNew(ss[1..], n, t, ssrc, sn, ceBits, mark);
    }
  }

  /** The streams after stream b was found and its block made. */
  function ServedAt(ss: seq<RxState>, b: nat, d: Due, n: int): (r: seq<RxState>)
    requires AllShaped(ss, n) && b < |ss|
    ensures AllShaped(r, n) && |r| == |ss|
  {
    SearchedShaped(ss, d, n);
    Searched(ss, |ss|, d)[b := Served(Searched(ss, |ss|, d)[b], d.t)]
  }

  /** The block loop of createStandardizedFeedback once the message has the given size: the streams
      afterwards and the blocks still to come. */
  function Emit(ss: seq<RxState>, d: Due, n: int, size: nat): (r: (seq<RxState>, seq<Block>))
    requires AllShaped(ss, n)
    ensures AllShaped(r.0, n) && |r.0| == |ss|
    decreases 900 - size
  {
    var b := Best(ss, |ss|, d);
    if size >= 900 || b.None? then (ss, [])
    else
      var (r, rest) := Emit(ServedAt(ss, b.value, d, n), d, n, size + BlockSize(n));
      (r, [ReportBlock(ss[b.value], d.t)] + rest)
  }

  lemma EmitStep(ss: seq<RxState>, d: Due, n: int, size: nat, b: nat)
    requires AllShaped(ss, n) && size < 900 && Best(ss, |ss|, d) == Some(b)
    ensures var (r, rest) := Emit(ServedAt(ss, b, d, n), d, n, size + BlockSize(n));
            Emit(ss, d, n, size) == (r, [ReportBlock(ss[b], d.t)] + rest)
  {
  }

  /** The blocks written so far and those still to come are the blocks of the whole loop. */
  lemma EmitProgress(all: (seq<RxState>, seq<Block>), done: seq<Block>, ss: seq<RxState>, d: Due, n: int, size: nat,
                     b: nat)
    requires AllShaped(ss, n) && size < 900 && Best(ss, |ss|, d) == Some(b)
    requires all == (Emit(ss, d, n, size).0, done + Emit(ss, d, n, size).1)
    ensures var (r, rest) := Emit(ServedAt(ss, b, d, n), d, n, size + BlockSize(n));
            all == (r, done + [ReportBlock(ss[b], d.t)] + rest)
  {
    hide Emit, ReportBlock, ServedAt;
    EmitStep(ss, d, n, size, b);
    var rest := Emit(ServedAt(ss, b, d, n), d, n, size + BlockSize(n)).1;
    var block := ReportBlock(ss[b], d.t);
    assert done + ([block] + rest) == done + [block] + rest;
  }

  lemma EmitDone(ss: seq<RxState>, d: Due, n: int, size: nat)
    requires AllShaped(ss, n) && (size >= 900 || Best(ss, |ss|, d) == None)
    ensures Emit(ss, d, n, size) == (ss, [])
  {
  }

  lemma WordsCons(block: Block, rest: seq<Block>)
    ensures Words([block] + rest) == BlockWords(|block.reports|) + Words(rest)
  {
    assert ([block] + rest)[1..] == rest;
  }

  /** Only the last block may take the message past 900 octets. */
  lemma {:induction false} EmitSize(ss: seq<RxState>, d: Due, n: int, size: nat)
    requires AllShaped(ss, n)
    ensures var blocks := Emit(ss, d, n, size).1;
            blocks != [] ==> size + 4 * Words(blocks) < 900 + BlockSize(n)
    decreases 900 - size
  {
    hide ReportBlock, ServedAt;
    var b := Best(ss, |ss|, d);
    if size < 900 && b.Some? {
      var next := ServedAt(ss, b.value, d, n);
      EmitSize(next, d, n, size + BlockSize(n));
      EmitStep(ss, d, n, size, b.value);
      WordsCons(ReportBlock(ss[b.value], d.t), Emit(next, d, n, size + BlockSize(n)).1);
    }
  }

  lemma {:induction false} DefaultWords(ss: seq<RxState>, d: Due, size: nat)
    requires AllShaped(ss, 32)
    ensures var blocks := Emit(ss, d, 32, size).1; Words(blocks) == 18 * |blocks|
    decreases 900 - size
  {
    hide ReportBlock, ServedAt;
    var b := Best(ss, |ss|, d);
    if size < 900 && b.Some? {
      var next := ServedAt(ss, b.value, d, 32);
      DefaultWords(next, d, size + BlockSize(32));
      EmitStep(ss, d, 32, size, b.value);
      WordsCons(ReportBlock(ss[b.value], d.t), Emit(next, d, 32, size + BlockSize(32)).1);
    }
  }

  /** With the default of 32 reports a message is a multiple of 4 octets and at most 948. */
  lemma DefaultMessageSize(reporter: uint32, ss: seq<RxState>, d: Due)
    requires AllShaped(ss, 32)
    ensures var m := Print(reporter, Feedback(Emit(ss, d, 32, 8).1, d.t));
            |m| % 4 == 0 && |m| <= 948
  {
    hide Print, PrintBlocks, Emit, Words;
    EmitSize(ss, d, 32, 8);
    DefaultWords(ss, d, 8);
    RoundTrip(reporter, Feedback(Emit(ss, d, 32, 8).1, d.t));
  }

  // ---------- When a message is made ----------

  /** A stream after the given packets arrived. */
  function ReceiveAll(s: RxState, arrivals: seq<Arrival>): (r: RxState)
    requires Shaped(s)
    ensures Shaped(r)
  {
    if arrivals == [] then s
    else
      var a := arrivals[|arrivals| - 1];
      Receive(ReceiveAll(s, arrivals[..|arrivals| - 1]), Wrap16(a.u), a.t, a.ceBits, a.mark)
  }

  ghost predicate AnyMark(arrivals: seq<Arrival>) { exists i :: 0 <= i < |arrivals| && arrivals[i].mark }

  lemma {:induction false} ReceivedAll(s: RxState, arrivals: seq<Arrival>)
    requires Shaped(s)
    ensures var r := ReceiveAll(s, arrivals);
            && r.nRtpSinceLastRtcp == s.nRtpSinceLastRtcp + |arrivals|
            && (r.doFlush <==> s.doFlush || AnyMark(arrivals))
            && r.lastFeedbackT == s.lastFeedbackT && r.nReported == s.nReported && r.ssrc == s.ssrc
  {
    hide Receive;
    if arrivals != [] {
      var n := |arrivals| - 1;
      var a := arrivals[n];
      ReceivedAll(s, arrivals[..n]);
      ReceivedNumbers(ReceiveAll(s, arrivals[..n]), Wrap16(a.u), a.t, a.ceBits, a.mark);
      MarkSnoc(arrivals);
    }
  }

  lemma MarkSnoc(arrivals: seq<Arrival>)
    requires arrivals != []
    ensures AnyMark(arrivals) <==> AnyMark(arrivals[..|arrivals| - 1]) || arrivals[|arrivals| - 1].mark
  {
    var front := arrivals[..|arrivals| - 1];
    if AnyMark(front) {
      var i :| 0 <= i < |front| && front[i].mark;
      assert arrivals[i].mark;
    }
  }

  /** One stream's time since its last report: its state then, with unbounded highest and last reported number, when the
      report was made, and what has arrived since. */
  datatype Episode = Episode(before: RxState, h: int, tx: int, at: int, arrivals: seq<Arrival>)

  ghost predicate Told(p: Episode, n: int) {
    && Shaped(p.before) && p.before.nReported == n
    && p.tx <= p.h < p.tx + 65536
    && p.before.highestSeqNr == Wrap16(p.h) && p.before.highestSeqNrTx == Wrap16(p.tx)
  }

  ghost function StateOf(p: Episode, n: int): (r: RxState)
    requires Told(p, n)
    ensures Shaped(r) && r.nReported == n
  {
    ReceivedAll(Served(p.before, Wrap32(p.at)), p.arrivals);
    ReceiveAll(Served(p.before, Wrap32(p.at)), p.arrivals)
  }

  /** At time now a stream has something to report: enough packets, a marked one, any packet when the call is for a marker,
      too much time, or numbers that the last block had no room for. */
  ghost predicate Wants(p: Episode, n: int, d: Due, now: int) {
    || |p.arrivals| >= 16 || |p.arrivals| >= d.ackDiff
    || AnyMark(p.arrivals)
    || (d.isMark && p.arrivals != [])
    || now - p.at > d.interval
    || (p.h - p.tx > n && p.h / 65536 == p.tx / 65536)
  }

  lemma DueIff(p: Episode, n: int, d: Due, now: int)
    requires Told(p, n) && d.t == Wrap32(now) && 0 <= now - p.at < 4294967296
    ensures IsDue(StateOf(p, n), d) <==> Wants(p, n, d, now)
  {
    hide Receive, ReceiveAll, AnyMark, NextTx;
    var start := Served(p.before, Wrap32(p.at));
    ReceivedAll(start, p.arrivals);
    NextTxAgrees(p.before, p.h, p.tx);
    LeftOver(p.h, p.tx, n);
    Elapsed(p.at, now);
  }

  lemma LeftOver(h: int, tx: int, n: int)
    requires tx <= h < tx + 65536 && n >= 1
    ensures Wrap16(NextTxLifted(h, tx, n)) != Wrap16(h) <==> h - tx > n && h / 65536 == tx / 65536
  {
    if h - tx > n && h / 65536 == tx / 65536 {
      SameCycle(h, tx, n);
    }
  }

  lemma Elapsed(at: int, now: int)
    requires 0 <= now - at < 4294967296
    ensures Sub32(Wrap32(now), Wrap32(at)) == now - at
  {
    var p: int, q: int := now / 4294967296, at / 4294967296;
    assert now == 4294967296 * p + Wrap32(now) && at == 4294967296 * q + Wrap32(at);
    assert p - q == 0 || p - q == 1;
  }

  ghost function StatesOf(ps: seq<Episode>, n: int): (ss: seq<RxState>)
    requires forall i :: 0 <= i < |ps| ==> Told(ps[i], n)
    requires 1 <= n < 65536
    ensures |ss| == |ps| && AllShaped(ss, n)
    ensures forall i :: 0 <= i < |ss| ==> ss[i] == StateOf(ps[i], n)
  {
    seq(|ps|, i requires 0 <= i < |ps| => StateOf(ps[i], n))
  }

  /** A call makes a message if and only if some stream has something to report. */
  lemma MessageIff(ps: seq<Episode>, n: int, d: Due, now: int)
    requires 1 <= n < 65536 && d.t == Wrap32(now)
    requires forall i :: 0 <= i < |ps| ==> Told(ps[i], n) && 0 <= now - ps[i].at < 4294967296
    ensures Emit(StatesOf(ps, n), d, n, 8).1 != [] <==> exists i :: 0 <= i < |ps| && Wants(ps[i], n, d, now)
  {
    var ss := StatesOf(ps, n);
    forall i | 0 <= i < |ps|
      ensures IsDue(ss[i], d) <==> Wants(ps[i], n, d, now)
    {
      DueIff(ps[i], n, d, now);
    }
    BestIsOldest(ss, |ss|, d);
    hide IsDue, Wants, Told, ReportBlock, ServedAt;
    var b := Best(ss, |ss|, d);
    if b.None? {
      EmitDone(ss, d, n, 8);
    } else {
      EmitStep(ss, d, n, 8, b.value);
      assert Wants(ps[b.value], n, d, now);
    }
  }

  lemma OnlyMessage(r: RxState, d: Due)
    requires Shaped(r)
    ensures Emit([r], d, r.nReported, 8).1 != [] <==> IsDue(r, d)
  {
    hide IsDue, ReportBlock, ServedAt;
    OnlyStream(r, d);
    if IsDue(r, d) {
      EmitStep([r], d, r.nReported, 8, 0);
    } else {
      EmitDone([r], d, r.nReported, 8);
    }
  }

  /** The first message of a stream: its clock starts at 0. */
  lemma FirstMessageIff(s: RxState, arrivals: seq<Arrival>, d: Due)
    requires IsNew(s)
    ensures var r := ReceiveAll(s, arrivals);
            Emit([r], d, r.nReported, 8).1 != []
            <==> || |arrivals| >= 16 || |arrivals| >= d.ackDiff || AnyMark(arrivals)
                 || (d.isMark && arrivals != []) || d.t > d.interval
  {
    hide Receive, ReceiveAll, AnyMark, Emit;
    ReceivedAll(s, arrivals);
    OnlyMessage(ReceiveAll(s, arrivals), d);
  }

  // ---------- Draining one stream ----------

  /** left outstanding numbers, in blocks of n, can be reported before a message of the given size is full. */
  predicate HasRoom(left: int, n: int, size: nat)
    requires 0 < n
    decreases left
  {
    size < 900 && (left <= n || HasRoom(left - n, n, size + BlockSize(n)))
  }

  /** The blocks cover the numbers after tx up to h, each going on where the one before stopped. */
  predicate Contiguous(blocks: seq<Block>, h: int, tx: int, n: int)
    requires 0 < n
    decreases h - tx
  {
    && blocks != []
    && |blocks[0].reports| == n
    && if h - tx > n
       then blocks[0].beginSeq == Wrap16(tx + 1) && Contiguous(blocks[1..], h, tx + n, n)
       else |blocks| == 1 && blocks[0].beginSeq == Wrap16(h - n + 1)
  }

  lemma OnlyStream(s: RxState, d: Due)
    requires Shaped(s)
    ensures Best([s], 1, d) == if IsDue(s, d) then Some(0) else None
    ensures IsDue(s, d) ==> ServedAt([s], 0, d, s.nReported) == [Served(s.(doFlush := false), d.t)]
    ensures Served(s.(doFlush := false), d.t) == Served(s, d.t)
  {
    assert Best([s], 0, d) == None;
    assert IsDue(s, d) ==> Searched([s], 1, d) == [s.(doFlush := false)];
  }

  lemma SameCycle(h: int, tx: int, n: int)
    requires 0 <= n < h - tx && h / 65536 == tx / 65536
    ensures h / 65536 == (tx + n) / 65536 && Wrap16(h) != Wrap16(tx + n)
  {
  }

  /** While what is outstanding lies within one 16-bit cycle, one call that finds the only stream due reports it
      without a gap until it has caught up, provided the message has room. */
  lemma {:induction false} Drains(s: RxState, d: Due, size: nat, h: int, tx: int)
    requires Shaped(s) && IsDue(s, d) && d.ackDiff >= 1
    requires 0 <= h - tx && h / 65536 == tx / 65536
    requires s.highestSeqNr == Wrap16(h) && s.highestSeqNrTx == Wrap16(tx)
    requires HasRoom(h - tx, s.nReported, size)
    ensures var (r, blocks) := Emit([s], d, s.nReported, size);
            && Contiguous(blocks, h, tx, s.nReported)
            && r[0].highestSeqNrTx == r[0].highestSeqNr == s.highestSeqNr && !r[0].doFlush
    decreases h - tx
  {
    hide ReportBlock, ServedAt, Best, Emit;
    var n := s.nReported;
    var next := Served(s, d.t);
    OnlyStream(s, d);
    BlockLifted(s, h, tx, d.t);
    var (r, rest) := Emit([next], d, n, size + BlockSize(n));
    EmitStep([s], d, n, size, 0);
    assert ([ReportBlock(s, d.t)] + rest)[1..] == rest;
    if h - tx > n {
      SameCycle(h, tx, n);
      Drains(next, d, size + BlockSize(n), h, tx + n);
    } else {
      OnlyStream(next, d);
      EmitDone([next], d, n, size + BlockSize(n));
    }
  }

  lemma {:induction false} DefaultRoom(left: int, k: nat)
    requires 1 <= k <= 13 && left <= 32 * k
    ensures HasRoom(left, 32, 944 - 72 * k)
  {
    if left > 32 {
      DefaultRoom(left - 32, k - 1);
    }
  }

  /** One triggered call drains any span of up to 13 * 32 numbers that stays within one 16-bit cycle. */
  lemma DefaultDrains(s: RxState, d: Due, h: int, tx: int)
    requires Shaped(s) && s.nReported == 32 && IsDue(s, d) && d.ackDiff >= 1
    requires 0 <= h - tx <= 13 * 32 && h / 65536 == tx / 65536
    requires s.highestSeqNr == Wrap16(h) && s.highestSeqNrTx == Wrap16(tx)
    ensures var (r, blocks) := Emit([s], d, 32, 8);
            && Contiguous(blocks, h, tx, 32)
            && r[0].highestSeqNrTx == r[0].highestSeqNr == s.highestSeqNr
  {
    DefaultRoom(h - tx, 13);
    Drains(s, d, 8, h, tx);
  }

  /** k blocks of 32 numbers each, one after the other from tx on, and none of them has caught up. */
  ghost predicate FullBlocks(blocks: seq<Block>, tx: int, k: nat) {
    |blocks| == k && forall j :: 0 <= j < k ==> blocks[j].beginSeq == Wrap16(tx + 32 * j + 1) && |blocks[j].reports| == 32
  }

  lemma FullBlocksCons(block: Block, rest: seq<Block>, tx: int, k: nat)
    requires FullBlocks(rest, tx + 32, k)
    requires block.beginSeq == Wrap16(tx + 1) && |block.reports| == 32
    ensures FullBlocks([block] + rest, tx, k + 1)
  {
    hide Wrap16;
    var all := [block] + rest;
    forall i | 0 <= i < k + 1
      ensures all[i].beginSeq == Wrap16(tx + 32 * i + 1) && |all[i].reports| == 32
    {
      if i > 0 {
        assert all[i] == rest[i - 1] && tx + 32 + 32 * (i - 1) + 1 == tx + 32 * i + 1;
      }
    }
  }

  /** A stream that is further behind than one message can tell goes on for as many blocks as the message holds, and waits
      to flush the rest. */
  lemma {:induction false} FallsBehind(s: RxState, d: Due, h: int, tx: int, k: nat)
    requires Shaped(s) && s.nReported == 32 && d.ackDiff >= 1 && k <= 13
    requires if k > 0 then IsDue(s, d) else s.doFlush
    requires h / 65536 == tx / 65536 && h - tx > 32 * k
    requires s.highestSeqNr == Wrap16(h) && s.highestSeqNrTx == Wrap16(tx)
    ensures var (r, blocks) := Emit([s], d, 32, 944 - 72 * k);
            && FullBlocks(blocks, tx, k)
            && r[0].highestSeqNr == s.highestSeqNr && r[0].highestSeqNrTx == Wrap16(tx + 32 * k)
            && r[0].nReported == 32 && r[0].firstReceived == s.firstReceived && r[0].doFlush
    decreases k
  {
    hide ReportBlock, ServedAt, Best, Emit, FullBlocks, IsDue, Served, Shaped;
    if k == 0 {
      NoBlocks(tx);
      EmitDone([s], d, 32, 944);
    } else {
      var next := Served(s, d.t);
      OnlyStream(s, d);
      StillBehind(s, d, h, tx);
      EmitStep([s], d, 32, 944 - 72 * k, 0);
      FallsBehind(next, d, h, tx + 32, k - 1);
      var (r, rest) := Emit([next], d, 32, 944 - 72 * (k - 1));
      FullBlocksCons(ReportBlock(s, d.t), rest, tx, k - 1);
    }
  }

  lemma NoBlocks(tx: int)
    ensures FullBlocks([], tx, 0)
  {
  }

  /** One block from a stream that is more than a block behind. */
  lemma StillBehind(s: RxState, d: Due, h: int, tx: int)
    requires Shaped(s) && s.nReported == 32 && h / 65536 == tx / 65536 && h - tx > 32
    requires s.highestSeqNr == Wrap16(h) && s.highestSeqNrTx == Wrap16(tx)
    ensures var next, block := Served(s, d.t), ReportBlock(s, d.t);
            && block.beginSeq == Wrap16(tx + 1) && |block.reports| == 32
            && Shaped(next) && next.nReported == 32 && next.firstReceived == s.firstReceived
            && next.highestSeqNr == s.highestSeqNr && next.highestSeqNrTx == Wrap16(tx + 32)
            && next.doFlush && IsDue(next, d)
    ensures h / 65536 == (tx + 32) / 65536
  {
    hide ReportBlock;
    BlockLifted(s, h, tx, d.t);
    SameCycle(h, tx, 32);
  }

  /** A gap: two packets arrive, 50 numbers apart on either side of the wrap, and a message follows each. The first message
      has 13 blocks, from number 1 on; the second has one and catches up with the highest number; and no block of either
      has an element for the first packet. */
  lemma ReceivedButSkipped(s: RxState, t1: uint32, d1: Due, t2: uint32, d2: Due)
    requires IsNew(s) && s.nReported == 32 && d1.ackDiff >= 1 && d2.ackDiff >= 1
    requires IsDue(Receive(s, 65530, t1, 0, false), d1)
    ensures var (r1, blocks1) := Emit([Receive(s, 65530, t1, 0, false)], d1, 32, 8);
            var (r2, blocks2) := Emit([Receive(r1[0], Wrap16(65580), t2, 0, false)], d2, 32, 8);
            && |blocks1| == 13 && |blocks2| == 1
            && r2[0].highestSeqNr == r2[0].highestSeqNrTx == Wrap16(65580) && !r2[0].doFlush
            && (forall j :: 0 <= j < 13 ==> !HasElement(blocks1[j], 65530)) && !HasElement(blocks2[0], 65530)
  {
    NewShape(s);
    hide Emit, Receive, IsDue, IsNew, ReportBlock, Served;
    var s1 := Receive(s, 65530, t1, 0, false);
    ReceivedNumbers(s, 65530, t1, 0, false);
    FallsBehind(s1, d1, 65530, 0, 13);
    var (r1, blocks1) := Emit([s1], d1, 32, 8);
    FullBlocksBefore(blocks1, 65530);
    var s2 := Receive(r1[0], Wrap16(65580), t2, 0, false);
    ReceivedNumbers(r1[0], Wrap16(65580), t2, 0, false);
    CatchesUp(s2, d2);
  }

  lemma FullBlocksBefore(blocks: seq<Block>, sn: uint16)
    requires FullBlocks(blocks, 0, 13) && sn > 416
    ensures forall j :: 0 <= j < 13 ==> !HasElement(blocks[j], sn)
  {
    forall j | 0 <= j < 13
      ensures !HasElement(blocks[j], sn)
    {
      assert blocks[j].beginSeq == 32 * j + 1;
    }
  }

  /** The message after the wrap: the subtraction of the last reported number from the highest one is negative. */
  lemma CatchesUp(s: RxState, d: Due)
    requires Shaped(s) && s.nReported == 32 && s.doFlush && d.ackDiff >= 1
    requires s.highestSeqNr == 44 && s.highestSeqNrTx == 416
    ensures var (r, blocks) := Emit([s], d, 32, 8);
            && |blocks| == 1 && !HasElement(blocks[0], 65530)
            && r[0].highestSeqNr == r[0].highestSeqNrTx == 44 && !r[0].doFlush
  {
    hide Emit, ReportBlock, ServedAt, Best;
    var next := Served(s, d.t);
    OnlyStream(s, d);
    BlockShape(s, d.t);
    EmitStep([s], d, 32, 8, 0);
    OnlyStream(next, d);
    EmitDone([next], d, 32, 80);
  }
}
