/** Progress of acknowledgements: with feedback that arrives in order, a packet whose entry in the receiver's history is
    intact when its number is first reported becomes acknowledged. The converse of soundness. */
module Progress {
  import opened Options
  import opened Serial
  import opened TxRing
  import opened InFlight
  import opened Lifted
  import opened Ccfb
  import opened RxHistory
  import opened RxSchedule
  import opened SenderFeedback
  import EndToEnd

  // ---------- One element ----------

  lemma CloseResidues(u: int, v: int)
    requires u < v < u + 65536
    ensures Wrap16(u) != Wrap16(v)
  {
  }

  /** A report for u inside the window leaves every open packet with a higher number alone. */
  lemma HigherStays(l: Ledger, x: Lift, e: LEvent, v: int)
    requires Windowed(l, x) && e.LReported? && x.hiAck - 512 <= e.u <= x.hiTx && x.hiTx < e.u + 3552
    requires e.u < v <= x.hiTx && Held(l, x, v)
    ensures Held(Step(l, Project(e)), LStep(l, x, e), v)
  {
    var sn := Wrap16(e.u);
    WrappedSlot(e.u);
    CloseResidues(e.u, v);
    SlotInWindow(x.hiAck, e.u, v);
    hide Windowed;
  }

  /** And it settles u, if that is open. */
  lemma ElementProgress(l: Ledger, x: Lift, e: LEvent)
    requires Windowed(l, x) && e.LReported? && x.hiAck - 512 <= e.u <= x.hiTx && x.hiTx < e.u + 3552
    ensures var l', x' := Step(l, Project(e)), LStep(l, x, e);
            && Windowed(l', x') && x'.hiTx == x.hiTx && (x'.hiAck == x.hiAck || x'.hiAck == e.u)
            && x.delivered <= x'.delivered
            && (Held(l, x, e.u) ==> e.u in x'.delivered)
            && forall v :: e.u < v <= x.hiTx && Held(l, x, v) ==> Held(l', x', v)
  {
    StepExact(l, NO_TALLY, x, e);
    WrappedSlot(e.u);
    forall v | e.u < v <= x.hiTx && Held(l, x, v)
      ensures Held(Step(l, Project(e)), LStep(l, x, e), v)
    {
      HigherStays(l, x, e, v);
    }
    hide Step, Held;
  }

  // ---------- One block ----------

  /** The event of element k of a block whose first number is first. */
  function ElementEvent(block: Block, first: int, rts: uint32, k: nat): (e: LEvent)
    requires k < |block.reports|
    ensures e.LReported? && e.u == first + k
  {
    var w := block.reports[k];
    LReported(first + k, Sub32(rts, 64 * OffsetOf(w)), EcnOf(w), k + 1 == |block.reports|)
  }

  /** Ledger and numbers after the first n elements of a block. */
  function ElementsRead(l: Ledger, x: Lift, block: Block, first: int, rts: uint32, n: nat): (r: (Ledger, Lift))
    requires |l.slots| == |x.ext| == 4096 && n <= |block.reports|
    ensures |r.0.slots| == |r.1.ext| == 4096
  {
    if n == 0 then (l, x)
    else
      var (l', x') := ElementsRead(l, x, block, first, rts, n - 1);
      if IsReceived(block.reports[n - 1])
      then var e := ElementEvent(block, first, rts, n - 1); (Step(l', Project(e)), LStep(l', x', e))
      else (l', x')
  }

  lemma EventsStep(block: Block, first: int, rts: uint32, n: nat)
    requires n < |block.reports| && block.beginSeq == Wrap16(first)
    ensures ElementEvents(block, rts, n + 1)
            == ElementEvents(block, rts, n)
               + if IsReceived(block.reports[n]) then [Project(ElementEvent(block, first, rts, n))] else []
  {
    WrapThenAdd16(first, n);
    hide Wrap16, Sub32, IsReceived, OffsetOf, EcnOf;
  }

  /** These are the ledger events that the sender reads from the block. */
  lemma {:induction false} ElementsAgree(l: Ledger, y: Tally, x: Lift, block: Block, first: int, rts: uint32, n: nat)
    requires |l.slots| == |x.ext| == 4096 && n <= |block.reports| && block.beginSeq == Wrap16(first)
    ensures Run(l, y, ElementEvents(block, rts, n)).0 == ElementsRead(l, x, block, first, rts, n).0
  {
    hide Step, StepTally, LStep, Run, ElementEvents, Project, ElementEvent, IsReceived;
    if n == 0 {
      NoElements(block, rts);
      RunNothing(l, y);
    } else {
      ElementsAgree(l, y, x, block, first, rts, n - 1);
      EventsStep(block, first, rts, n - 1);
      var before := ElementEvents(block, rts, n - 1);
      RunOneMore(l, y, before, Project(ElementEvent(block, first, rts, n - 1)));
      assert before + [] == before;
    }
  }

  lemma NoElements(block: Block, rts: uint32)
    ensures ElementEvents(block, rts, 0) == []
  {
  }

  /** A block inside the window settles every open packet that it reports as received, and leaves those with higher
      numbers alone. */
  lemma {:induction false} BlockProgress(l: Ledger, x: Lift, block: Block, first: int, rts: uint32, n: nat)
    requires Windowed(l, x) && n <= |block.reports|
    requires x.hiAck - 512 <= first && first + n - 1 <= x.hiTx && x.hiTx < first + 3552
    ensures var (l', x') := ElementsRead(l, x, block, first, rts, n);
            && Windowed(l', x') && x'.hiTx == x.hiTx && (x'.hiAck == x.hiAck || first <= x'.hiAck < first + n)
            && x.delivered <= x'.delivered
            && (forall k :: 0 <= k < n && IsReceived(block.reports[k]) && Held(l, x, first + k) ==> first + k in x'.delivered)
            && (forall v :: first + n - 1 < v <= x.hiTx && Held(l, x, v) ==> Held(l', x', v))
  {
    hide Windowed, Held, Step, LStep;
    WindowedShape(l, x);
    if n > 0 {
      BlockProgress(l, x, block, first, rts, n - 1);
      var (l', x') := ElementsRead(l, x, block, first, rts, n - 1);
      if IsReceived(block.reports[n - 1]) {
        ElementProgress(l', x', ElementEvent(block, first, rts, n - 1));
      }
    }
  }

  /** The numbers delivered are those the ledger has acknowledged. */
  lemma {:induction false} ElementsFate(l: Ledger, x: Lift, block: Block, first: int, rts: uint32, n: nat)
    requires n <= |block.reports| && OneFate(l, x)
    ensures |l.slots| == |x.ext| == 4096
    ensures var (l', x') := ElementsRead(l, x, block, first, rts, n); OneFate(l', x')
  {
    OneFateShape(l, x);
    hide OneFate, Step, LStep;
    if n > 0 {
      ElementsFate(l, x, block, first, rts, n - 1);
      var (l', x') := ElementsRead(l, x, block, first, rts, n - 1);
      StepOneFate(l', x', ElementEvent(block, first, rts, n - 1));
    }
  }

  lemma WindowedShape(l: Ledger, x: Lift)
    requires Windowed(l, x)
    ensures |l.slots| == |x.ext| == 4096
  {
  }

  // ---------- One message ----------

  /** Unbounded number of the last element. */
  function EndOf(block: Block, first: int): int { first + |block.reports| - 1 }

  /** The blocks of a message, with the unbounded number of the first element of each, lie inside the window. */
  ghost predicate InWindow(blocks: seq<Block>, firsts: seq<int>, edge: int, hiTx: int) {
    && |blocks| == |firsts|
    && (blocks == []
        || (&& blocks[0].beginSeq == Wrap16(firsts[0])
            && edge - 512 <= firsts[0] && EndOf(blocks[0], firsts[0]) <= hiTx < firsts[0] + 3552
            && InWindow(blocks[1..], firsts[1..], Max(edge, EndOf(blocks[0], firsts[0])), hiTx)))
  }

  /** The first block with an element for v, or past it, reports v as received. */
  predicate FirstTold(blocks: seq<Block>, firsts: seq<int>, v: int)
    requires |blocks| == |firsts|
  {
    blocks != []
    && if v <= EndOf(blocks[0], firsts[0]) then firsts[0] <= v && IsReceived(blocks[0].reports[v - firsts[0]])
       else FirstTold(blocks[1..], firsts[1..], v)
  }

  /** The highest number of the message, or edge if that is higher. */
  function TopOf(blocks: seq<Block>, firsts: seq<int>, edge: int): (top: int)
    requires |blocks| == |firsts|
    ensures edge <= top
  {
    if blocks == [] then edge else TopOf(blocks[1..], firsts[1..], Max(edge, EndOf(blocks[0], firsts[0])))
  }

  function MessageRead(l: Ledger, x: Lift, blocks: seq<Block>, firsts: seq<int>, rts: uint32): (r: (Ledger, Lift))
    requires |l.slots| == |x.ext| == 4096 && |blocks| == |firsts|
    ensures |r.0.slots| == |r.1.ext| == 4096
    decreases |blocks|
  {
    if blocks == [] then (l, x)
    else
      var (l', x') := ElementsRead(l, x, blocks[0], firsts[0], rts, |blocks[0].reports|);
      MessageRead(l', x', blocks[1..], firsts[1..], rts)
  }

  lemma {:induction false} MessageFate(l: Ledger, x: Lift, blocks: seq<Block>, firsts: seq<int>, rts: uint32)
    requires |blocks| == |firsts| && OneFate(l, x)
    ensures |l.slots| == |x.ext| == 4096
    ensures var (l', x') := MessageRead(l, x, blocks, firsts, rts); OneFate(l', x')
    decreases |blocks|
  {
    OneFateShape(l, x);
    hide OneFate, ElementsRead;
    if blocks != [] {
      ElementsFate(l, x, blocks[0], firsts[0], rts, |blocks[0].reports|);
      var (l', x') := ElementsRead(l, x, blocks[0], firsts[0], rts, |blocks[0].reports|);
      MessageFate(l', x', blocks[1..], firsts[1..], rts);
    }
  }

  lemma NotTooOld(l: Ledger, x: Lift, block: Block, first: int)
    requires Windowed(l, x) && block.beginSeq == Wrap16(first)
    requires x.hiAck - 512 <= EndOf(block, first) <= x.hiTx
    ensures !TooOld(l, block)
  {
    WrapThenAdd16(first, |block.reports| - 1);
    assert EndSeq(block) == Wrap16(EndOf(block, first));
    LagLifted(x.hiAck, EndOf(block, first));
  }

  lemma LagLifted(a: int, e: int)
    requires a - 512 <= e < a + 3552
    ensures Sub16(Wrap16(e), Wrap16(a)) <= 65000 || Sub16(Wrap16(a), Wrap16(e)) <= 512
  {
    if e >= a {
      SubLifted(e, a);
    } else {
      SubLifted(a, e);
    }
  }

  lemma SubLifted(a: int, b: int)
    requires b <= a < b + 65536
    ensures Sub16(Wrap16(a), Wrap16(b)) == a - b
  {
    var p: int, q: int := a / 65536, b / 65536;
    assert a == 65536 * p + Wrap16(a) && b == 65536 * q + Wrap16(b);
    Turns16(a - b, q - p);
  }

  /** Reading a message inside the window runs the events that the sender reads from it: no block is rejected. */
  lemma {:induction false} MessageAgrees(l: Ledger, y: Tally, x: Lift, ssrc: uint32, blocks: seq<Block>, firsts: seq<int>,
                                         rts: uint32, edge: int)
    requires Windowed(l, x) && x.hiAck <= edge && InWindow(blocks, firsts, edge, x.hiTx)
    requires forall j :: 0 <= j < |blocks| ==> blocks[j].ssrc == ssrc
    ensures Run(l, y, FeedbackEvents(l, y, ssrc, rts, blocks)).0 == MessageRead(l, x, blocks, firsts, rts).0
    decreases |blocks|
  {
    hide Windowed, Held, TooOld, ElementEvents, ElementsRead;
    WindowedShape(l, x);
    RunNothing(l, y);
    if blocks != [] {
      var block, first := blocks[0], firsts[0];
      var n := |block.reports|;
      var events := ElementEvents(block, rts, n);
      NotTooOld(l, x, block, first);
      ElementsAgree(l, y, x, block, first, rts, n);
      BlockProgress(l, x, block, first, rts, n);
      var (l', y') := Run(l, y, events);
      var x' := ElementsRead(l, x, block, first, rts, n).1;
      MessageAgrees(l', y', x', ssrc, blocks[1..], firsts[1..], rts, Max(edge, EndOf(block, first)));
      RunAppend(l, y, events, FeedbackEvents(l', y', ssrc, rts, blocks[1..]));
    }
  }

  /** A message inside the window settles every open packet that it reports as received where it first comes to it. */
  lemma {:induction false} MessageProgress(l: Ledger, x: Lift, blocks: seq<Block>, firsts: seq<int>, rts: uint32, edge: int)
    requires Windowed(l, x) && x.hiAck <= edge && InWindow(blocks, firsts, edge, x.hiTx)
    ensures var (l', x') := MessageRead(l, x, blocks, firsts, rts);
            && Windowed(l', x') && x'.hiTx == x.hiTx && x'.hiAck <= TopOf(blocks, firsts, edge)
            && x.delivered <= x'.delivered
            && (forall v :: Held(l, x, v) && FirstTold(blocks, firsts, v) ==> v in x'.delivered)
            && (forall v :: TopOf(blocks, firsts, edge) < v <= x.hiTx && Held(l, x, v) ==> Held(l', x', v))
    decreases |blocks|
  {
    hide Windowed, Held, ElementsRead;
    WindowedShape(l, x);
    if blocks != [] {
      var block, first := blocks[0], firsts[0];
      var n := |block.reports|;
      BlockProgress(l, x, block, first, rts, n);
      var (l', x') := ElementsRead(l, x, block, first, rts, n);
      MessageProgress(l', x', blocks[1..], firsts[1..], rts, Max(edge, EndOf(block, first)));
      forall v | Held(l, x, v) && FirstTold(blocks, firsts, v)
        ensures v in MessageRead(l, x, blocks, firsts, rts).1.delivered
      {
        if v <= EndOf(block, first) {
          assert first + (v - first) in x'.delivered;
        } else {
          ToldInside(blocks[1..], firsts[1..], v, Max(edge, EndOf(block, first)), x.hiTx);
          assert Held(l', x', v);
        }
      }
    }
  }

  lemma {:induction false} ToldInside(blocks: seq<Block>, firsts: seq<int>, v: int, edge: int, hiTx: int)
    requires InWindow(blocks, firsts, edge, hiTx) && FirstTold(blocks, firsts, v)
    ensures v <= hiTx
  {
    if v > EndOf(blocks[0], firsts[0]) {
      ToldInside(blocks[1..], firsts[1..], v, Max(edge, EndOf(blocks[0], firsts[0])), hiTx);
    }
  }

  // ---------- The receiver's messages ----------

  /** Blocks of n elements, with the number of the first element of each: together they come to every number after tx up to
      end. */
  ghost predicate Chain(blocks: seq<Block>, firsts: seq<int>, n: int, tx: int, end: int) {
    && |blocks| == |firsts|
    && if blocks == [] then tx == end
       else && |blocks[0].reports| == n && blocks[0].beginSeq == Wrap16(firsts[0])
            && firsts[0] <= tx + 1 && tx <= EndOf(blocks[0], firsts[0])
            && Chain(blocks[1..], firsts[1..], n, EndOf(blocks[0], firsts[0]), end)
  }

  /** The first numbers of count blocks, when the highest number is h and the last reported one is tx. */
  function FirstsOf(h: int, tx: int, n: int, count: nat): (r: seq<int>)
    ensures |r| == count
    decreases count
  {
    if count == 0 then []
    else var next := NextTxLifted(h, tx, n); [next - (n - 1)] + FirstsOf(h, next, n, count - 1)
  }

  /** The last reported number after count blocks. */
  function LastOf(h: int, tx: int, n: int, count: nat): int
    decreases count
  {
    if count == 0 then tx else LastOf(h, NextTxLifted(h, tx, n), n, count - 1)
  }

  /** Not behind by more than a block across a wrap, and not after the next block either. */
  lemma StaysClear(h: int, tx: int, n: int)
    requires 1 <= n && tx <= h < tx + 65536 && !CrossesWrap(h, tx, n)
    ensures var next := NextTxLifted(h, tx, n);
            tx <= next <= h < next + 65536 && next - (n - 1) <= tx + 1 && !CrossesWrap(h, next, n)
  {
    if h - tx > n {
      SameCycle(h, tx, n);
    }
  }

  /** The blocks of one message, whether they catch up or the message is full before. */
  lemma {:induction false} EmitChain(s: RxState, d: Due, size: nat, h: int, tx: int)
    requires Shaped(s) && tx <= h < tx + 65536 && !CrossesWrap(h, tx, s.nReported)
    requires s.highestSeqNr == Wrap16(h) && s.highestSeqNrTx == Wrap16(tx)
    ensures var (r, blocks) := Emit([s], d, s.nReported, size);
            var end := LastOf(h, tx, s.nReported, |blocks|);
            && Chain(blocks, FirstsOf(h, tx, s.nReported, |blocks|), s.nReported, tx, end) && tx <= end <= h
            && r[0].highestSeqNr == s.highestSeqNr && r[0].highestSeqNrTx == Wrap16(end)
    decreases 900 - size
  {
    hide ReportBlock, ServedAt, Best, Emit, IsDue, CrossesWrap, NextTxLifted;
    var n := s.nReported;
    OnlyStream(s, d);
    if size < 900 && IsDue(s, d) {
      var next, last := Served(s, d.t), NextTxLifted(h, tx, n);
      BlockLifted(s, h, tx, d.t);
      StaysClear(h, tx, n);
      EmitChain(next, d, size + BlockSize(n), h, last);
      EmitStep([s], d, n, size, 0);
      var rest := Emit([next], d, n, size + BlockSize(n)).1;
      var block := ReportBlock(s, d.t);
      assert ([block] + rest)[1..] == rest;
      assert FirstsOf(h, tx, n, |rest| + 1)[1..] == FirstsOf(h, last, n, |rest|);
    } else {
      EmitDone([s], d, n, size);
    }
  }

  lemma {:induction false} ChainInWindow(blocks: seq<Block>, firsts: seq<int>, n: int, tx: int, end: int, edge: int, hiTx: int)
    requires Chain(blocks, firsts, n, tx, end) && edge <= tx && n <= 512
    requires end <= hiTx < tx - n + 3553
    ensures InWindow(blocks, firsts, edge, hiTx) && TopOf(blocks, firsts, edge) <= end && tx <= end
    decreases |blocks|
  {
    if blocks != [] {
      var e := EndOf(blocks[0], firsts[0]);
      ChainInWindow(blocks[1..], firsts[1..], n, e, end, Max(edge, e), hiTx);
    }
  }

  /** The history has packet v, as the last one in its slot, at a time other than 0. */
  predicate Intact(log: seq<Arrival>, v: int) {
    var last := LastAt(log, Wrap16(v) % 512);
    last.Some? && last.value.u == v && last.value.t != 0
  }

  lemma {:induction false} ChainTells(blocks: seq<Block>, firsts: seq<int>, n: int, tx: int, end: int, s: RxState,
                                      log: seq<Arrival>, t: uint32, v: int)
    requires Chain(blocks, firsts, n, tx, end) && tx < v <= end && n >= 0 && Remembers(s, log) && Intact(log, v)
    requires forall j :: 0 <= j < |blocks| ==> blocks[j].reports == ReportsFrom(s.hist, blocks[j].beginSeq, n, t)
    ensures FirstTold(blocks, firsts, v)
    decreases |blocks|
  {
    hide ReportsFrom, Remembers;
    var e := EndOf(blocks[0], firsts[0]);
    if v <= e {
      var k := v - firsts[0];
      RememberedShape(s, log);
      ReportAt(s.hist, blocks[0].beginSeq, n, t, k);
      WrapThenAdd16(firsts[0], k);
      ElementExact(s, log, Wrap16(v), t);
    } else {
      ChainTells(blocks[1..], firsts[1..], n, e, end, s, log, t, v);
    }
  }

  lemma RememberedShape(s: RxState, log: seq<Arrival>)
    requires Remembers(s, log)
    ensures Shaped(s)
  {
  }

  // ---------- Every run ----------

  /** A feedback datagram under way: what it says, the unbounded number of the first element of each block, the numbers
      from..end it is the first to come to, and which of those the history had when it was made. */
  datatype Mail = Mail(octets: seq<byte>, feedback: Feedback, firsts: seq<int>, from: int, end: int, intact: set<int>)

  /** Sender, receiver, and a feedback path that keeps the order. */
  datatype Line = Line(
    l: Ledger, y: Tally, x: Lift,
    live: set<int>,                   // transmitted since the last time-out
    rx: RxState, log: seq<Arrival>,   // the receiver, and all that has arrived there
    h: int, tx: int,                  // unbounded highest and last reported number
    mail: seq<Mail>,                  // feedback under way, oldest first
    told: int,                        // last number of the feedback read so far
    due: set<int>)                    // live and intact packets that the feedback read so far was the first to come to

  datatype LineEvent =
    | Transmits(u: int, t: uint32, size: nat, mark: bool, ts: uint32)
    | Arrives(a: Arrival)
    | Makes(reporter: uint32, d: Due)
    | Reads
    | TimesOut
    | UpdatesRate

  /** Transmission and acknowledgement stay within the ring's window, arrivals are near one another, and the receiver is
      never more than one block behind across a wrap. */
  ghost predicate Enabled(s: Line, e: LineEvent) {
    match e
    case Transmits(u, _, _, _, _) => s.x.hiTx < u < s.x.hiAck + 3552
    case Arrives(a) =>
      && a.u <= s.x.hiTx && Near(s.log + [a])
      && s.tx <= Highest(s.log + [a]) < s.tx + 65536
    case Makes(_, _) => s.log != [] && !CrossesWrap(s.h, s.tx, s.rx.nReported)
    case Reads => s.mail != [] && s.x.hiTx < s.mail[0].from - s.rx.nReported + 3553
    case TimesOut => true
    case UpdatesRate => true
  }

  ghost predicate LineShaped(s: Line) { |s.l.slots| == |s.x.ext| == 4096 && Shaped(s.rx) }

  ghost function IntactAmong(log: seq<Arrival>, tx: int, end: int): set<int> {
    set v: int | tx < v <= end && Intact(log, v)
  }

  /** The message with these blocks, made when the highest number is h and the last reported one tx. */
  ghost function MailOf(blocks: seq<Block>, n: int, log: seq<Arrival>, h: int, tx: int, reporter: uint32, t: uint32): Mail {
    var f, end := Feedback(blocks, t), LastOf(h, tx, n, |blocks|);
    Mail(Print(reporter, f), f, FirstsOf(h, tx, n, |blocks|), tx, end, IntactAmong(log, tx, end))
  }

  ghost function Made(s: Line, reporter: uint32, d: Due): (r: Line)
    requires LineShaped(s)
    ensures LineShaped(r)
  {
    var (ss, blocks) := Emit([s.rx], d, s.rx.nReported, 8);
    var m := MailOf(blocks, s.rx.nReported, s.log, s.h, s.tx, reporter, d.t);
    if blocks == [] then s.(rx := ss[0]) else s.(rx := ss[0], tx := m.end, mail := s.mail + [m])
  }

  /** The oldest message is read, as octets. */
  ghost function Read(s: Line): (r: Line)
    requires LineShaped(s) && s.mail != []
    ensures LineShaped(r)
  {
    var m := s.mail[0];
    match Parse(m.octets)
    case None => s
    case Some(f) =>
      var (l, y) := Run(s.l, s.y, FeedbackEvents(s.l, s.y, s.rx.ssrc, f.timestamp, f.blocks));
      var x := if |f.blocks| == |m.firsts| then MessageRead(s.l, s.x, f.blocks, m.firsts, f.timestamp).1 else s.x;
      s.(l := l, y := y, x := x, mail := s.mail[1..], told := m.end, due := s.due + m.intact * s.live)
  }

  ghost function Sends(s: Line, e: LEvent): (r: Line)
    requires LineShaped(s)
    ensures LineShaped(r)
  {
    s.(l := Step(s.l, Project(e)), y := StepTally(s.l, s.y, Project(e)), x := LStep(s.l, s.x, e))
  }

  ghost function Next(s: Line, e: LineEvent): (r: Line)
    requires LineShaped(s)
    ensures LineShaped(r)
  {
    match e
    case Transmits(u, t, size, mark, ts) => Sends(s, LSent(u, t, size, mark, ts)).(live := s.live + {u})
    case Arrives(a) =>
      s.(rx := Receive(s.rx, Wrap16(a.u), a.t, a.ceBits, a.mark), log := s.log + [a], h := Highest(s.log + [a]))
    case Makes(reporter, d) => Made(s, reporter, d)
    case Reads => if s.mail == [] then s else Read(s)
    case TimesOut => Sends(s, LTimedOut).(live := {})
    case UpdatesRate => Sends(s, LRateUpdated)
  }

  /** Every live packet that no feedback has come to yet is in its slot, and its fate is open. */
  ghost predicate Waiting(l: Ledger, x: Lift, live: set<int>, told: int) {
    && Windowed(l, x) && x.hiAck <= told
    && forall u :: u in live ==> u <= x.hiTx && (told < u && x.hiTx < u + 4096 ==> Held(l, x, u))
  }

  /** The receiver's state agrees with the arrivals and the unbounded numbers. */
  ghost predicate Heard(rx: RxState, log: seq<Arrival>, h: int, tx: int, hiTx: int) {
    && Remembers(rx, log) && rx.nReported <= 512
    && rx.highestSeqNr == Wrap16(h) && rx.highestSeqNrTx == Wrap16(tx)
    && tx <= h < tx + 65536
    && (if log == [] then h == tx == 0 else h == Highest(log) && h <= hiTx)
  }

  /** A message says what it is said to say. */
  ghost predicate Honest(m: Mail, n: int, ssrc: uint32, hiTx: int) {
    && Parse(m.octets) == Some(m.feedback)
    && Chain(m.feedback.blocks, m.firsts, n, m.from, m.end) && m.end <= hiTx
    && (forall j :: 0 <= j < |m.feedback.blocks| ==> m.feedback.blocks[j].ssrc == ssrc)
    && (forall v :: v in m.intact ==> m.from < v && FirstTold(m.feedback.blocks, m.firsts, v))
  }

  /** The messages follow one another from number told to number tx. */
  ghost predicate InOrder(mail: seq<Mail>, n: int, ssrc: uint32, hiTx: int, told: int, tx: int) {
    if mail == [] then told == tx
    else mail[0].from == told && Honest(mail[0], n, ssrc, hiTx) && InOrder(mail[1..], n, ssrc, hiTx, mail[0].end, tx)
  }

  ghost predicate OnTrack(s: Line) {
    && Waiting(s.l, s.x, s.live, s.told)
    && Heard(s.rx, s.log, s.h, s.tx, s.x.hiTx)
    && InOrder(s.mail, s.rx.nReported, s.rx.ssrc, s.x.hiTx, s.told, s.tx)
    && s.due <= s.x.delivered
  }

  /** A packet less than a ring turn behind stays where it is. */
  lemma TransmitHeld(l: Ledger, x: Lift, e: LEvent, v: int)
    requires |l.slots| == |x.ext| == 4096 && e.LSent? && v < e.u < v + 4096 && Held(l, x, v)
    ensures Held(Step(l, Project(e)), LStep(l, x, e), v)
  {
    WrappedSlot(e.u);
    RingDistance(v, e.u, v);
    RingDistance(v, v, v);
  }

  lemma TransmitTakesSlot(l: Ledger, x: Lift, e: LEvent)
    requires |l.slots| == |x.ext| == 4096 && e.LSent?
    ensures Held(Step(l, Project(e)), LStep(l, x, e), e.u)
    ensures LStep(l, x, e).hiTx == e.u && LStep(l, x, e).hiAck == x.hiAck && LStep(l, x, e).delivered == x.delivered
  {
    WrappedSlot(e.u);
  }

  lemma TransmitWaiting(l: Ledger, x: Lift, live: set<int>, told: int, e: LEvent)
    requires Waiting(l, x, live, told) && e.LSent? && x.hiTx < e.u < x.hiAck + 3552
    ensures Waiting(Step(l, Project(e)), LStep(l, x, e), live + {e.u}, told)
  {
    WindowedShape(l, x);
    StepExact(l, NO_TALLY, x, e);
    TransmitTakesSlot(l, x, e);
    hide Windowed, Held, Step, LStep, Project;
    forall v | v in live && told < v && e.u < v + 4096
      ensures Held(Step(l, Project(e)), LStep(l, x, e), v)
    {
      TransmitHeld(l, x, e, v);
    }
  }

  lemma SilentWaiting(l: Ledger, x: Lift, live: set<int>, told: int)
    requires Waiting(l, x, live, told)
    ensures Waiting(Step(l, Project(LTimedOut)), LStep(l, x, LTimedOut), {}, told)
    ensures Waiting(Step(l, Project(LRateUpdated)), LStep(l, x, LRateUpdated), live, told)
  {
    StepExact(l, NO_TALLY, x, LTimedOut);
    StepExact(l, NO_TALLY, x, LRateUpdated);
    hide Windowed;
  }

  /** Reading the next message settles every live packet that the history had when the message was made. */
  lemma MailProgress(l: Ledger, y: Tally, x: Lift, live: set<int>, told: int, m: Mail, n: int, ssrc: uint32)
    requires Waiting(l, x, live, told) && Honest(m, n, ssrc, x.hiTx) && m.from == told && 1 <= n <= 512
    requires x.hiTx < told - n + 3553
    ensures |l.slots| == |x.ext| == 4096
    ensures var (blocks, t) := (m.feedback.blocks, m.feedback.timestamp);
            var (l', x') := MessageRead(l, x, blocks, m.firsts, t);
            && Run(l, y, FeedbackEvents(l, y, ssrc, t, blocks)).0 == l'
            && Waiting(l', x', live, m.end) && x.delivered <= x'.delivered && x'.hiTx == x.hiTx
            && m.intact * live <= x'.delivered
  {
    hide Windowed, Held, Chain, FirstTold, MessageRead, Run, FeedbackEvents, Parse, InWindow, TopOf;
    WindowedShape(l, x);
    var blocks, t := m.feedback.blocks, m.feedback.timestamp;
    ChainInWindow(blocks, m.firsts, n, told, m.end, told, x.hiTx);
    MessageAgrees(l, y, x, ssrc, blocks, m.firsts, t, told);
    MessageProgress(l, x, blocks, m.firsts, t, told);
    forall v | v in m.intact * live
      ensures v in MessageRead(l, x, blocks, m.firsts, t).1.delivered
    {
      ToldInside(blocks, m.firsts, v, told, x.hiTx);
      assert Held(l, x, v);
    }
  }

  lemma ReadIs(s: Line)
    requires LineShaped(s) && s.mail != [] && Parse(s.mail[0].octets) == Some(s.mail[0].feedback)
    requires |s.mail[0].feedback.blocks| == |s.mail[0].firsts|
    ensures var m, r := s.mail[0], Read(s);
            var (blocks, t) := (m.feedback.blocks, m.feedback.timestamp);
            && r.l == Run(s.l, s.y, FeedbackEvents(s.l, s.y, s.rx.ssrc, t, blocks)).0
            && r.x == MessageRead(s.l, s.x, blocks, m.firsts, t).1
            && r.mail == s.mail[1..] && r.told == m.end && r.due == s.due + m.intact * s.live
            && r.rx == s.rx && r.log == s.log && r.h == s.h && r.tx == s.tx && r.live == s.live
  {
    hide Run, FeedbackEvents, Parse, MessageRead;
  }

  lemma TrackShape(s: Line)
    requires OnTrack(s)
    ensures LineShaped(s)
    ensures s.mail != [] ==>
              && s.mail[0].from == s.told && Honest(s.mail[0], s.rx.nReported, s.rx.ssrc, s.x.hiTx)
              && |s.mail[0].feedback.blocks| == |s.mail[0].firsts|
              && InOrder(s.mail[1..], s.rx.nReported, s.rx.ssrc, s.x.hiTx, s.mail[0].end, s.tx)
  {
    hide Held, Parse, FirstTold, EndOf;
  }

  lemma ReadOnTrack(s: Line)
    requires OnTrack(s) && Enabled(s, Reads)
    ensures OnTrack(Next(s, Reads))
  {
    TrackShape(s);
    hide Waiting, Read, Run, FeedbackEvents, MessageRead, Parse, Chain, FirstTold, Remembers, LineShaped;
    ReadIs(s);
    MailProgress(s.l, s.y, s.x, s.live, s.told, s.mail[0], s.rx.nReported, s.rx.ssrc);
    hide Honest;
  }

  lemma {:induction false} InOrderLater(mail: seq<Mail>, n: int, ssrc: uint32, hiTx: int, later: int, told: int, tx: int)
    requires InOrder(mail, n, ssrc, hiTx, told, tx) && hiTx <= later
    ensures InOrder(mail, n, ssrc, later, told, tx)
    decreases |mail|
  {
    hide Parse, Chain, FirstTold;
    if mail != [] {
      InOrderLater(mail[1..], n, ssrc, hiTx, later, mail[0].end, tx);
    }
  }

  lemma {:induction false} InOrderAppend(mail: seq<Mail>, m: Mail, n: int, ssrc: uint32, hiTx: int, told: int, tx: int)
    requires InOrder(mail, n, ssrc, hiTx, told, tx) && m.from == tx && Honest(m, n, ssrc, hiTx)
    ensures InOrder(mail + [m], n, ssrc, hiTx, told, m.end)
    decreases |mail|
  {
    hide Honest;
    if mail != [] {
      assert (mail + [m])[1..] == mail[1..] + [m];
      InOrderAppend(mail[1..], m, n, ssrc, hiTx, mail[0].end, tx);
    } else {
      assert (mail + [m])[1..] == [];
    }
  }

  lemma HeardLater(rx: RxState, log: seq<Arrival>, h: int, tx: int, hiTx: int, later: int)
    requires Heard(rx, log, h, tx, hiTx) && hiTx <= later
    ensures Heard(rx, log, h, tx, later)
  {
    hide Remembers;
  }

  lemma TransmitOnTrack(s: Line, u: int, t: uint32, size: nat, mark: bool, ts: uint32)
    requires OnTrack(s) && Enabled(s, Transmits(u, t, size, mark, ts))
    ensures OnTrack(Next(s, Transmits(u, t, size, mark, ts)))
  {
    TrackShape(s);
    var e := LSent(u, t, size, mark, ts);
    TransmitTakesSlot(s.l, s.x, e);
    TransmitWaiting(s.l, s.x, s.live, s.told, e);
    HeardLater(s.rx, s.log, s.h, s.tx, s.x.hiTx, u);
    InOrderLater(s.mail, s.rx.nReported, s.rx.ssrc, s.x.hiTx, u, s.told, s.tx);
    hide Waiting, Heard, InOrder, Step, LStep, StepTally, Shaped;
  }

  lemma SilentOnTrack(s: Line)
    requires OnTrack(s)
    ensures OnTrack(Next(s, TimesOut)) && OnTrack(Next(s, UpdatesRate))
  {
    TrackShape(s);
    SilentWaiting(s.l, s.x, s.live, s.told);
    hide Waiting, Heard, InOrder, Shaped;
  }

  lemma ArriveHeard(rx: RxState, log: seq<Arrival>, h: int, tx: int, hiTx: int, a: Arrival)
    requires Heard(rx, log, h, tx, hiTx) && a.u <= hiTx && Near(log + [a])
    requires tx <= Highest(log + [a]) < tx + 65536
    ensures Shaped(rx)
    ensures Heard(Receive(rx, Wrap16(a.u), a.t, a.ceBits, a.mark), log + [a], Highest(log + [a]), tx, hiTx)
  {
    RememberedShape(rx, log);
    ReceiveRemembers(rx, log, a);
    ReceiveHighest(rx, log, a);
    ReceivedNumbers(rx, Wrap16(a.u), a.t, a.ceBits, a.mark);
    hide Remembers, Receive, Near;
    assert (log + [a])[..|log|] == log;
  }

  lemma ArriveOnTrack(s: Line, a: Arrival)
    requires OnTrack(s) && Enabled(s, Arrives(a))
    ensures OnTrack(Next(s, Arrives(a)))
  {
    TrackShape(s);
    ArriveHeard(s.rx, s.log, s.h, s.tx, s.x.hiTx, a);
    ReceivedNumbers(s.rx, Wrap16(a.u), a.t, a.ceBits, a.mark);
    hide Waiting, Heard, InOrder, Receive, Near, Highest;
  }

  /** The receiver goes on from the end of its message. */
  lemma MadeHeard(rx: RxState, log: seq<Arrival>, h: int, tx: int, hiTx: int, d: Due)
    requires Heard(rx, log, h, tx, hiTx) && log != [] && !CrossesWrap(h, tx, rx.nReported)
    ensures Shaped(rx)
    ensures var n := rx.nReported;
            var (ss, blocks) := Emit([rx], d, n, 8);
            var end := LastOf(h, tx, n, |blocks|);
            && Heard(ss[0], log, h, end, hiTx) && ss[0].nReported == n && ss[0].ssrc == rx.ssrc && tx <= end <= h
  {
    RememberedShape(rx, log);
    hide Remembers, Emit, ReportsFrom, CrossesWrap, Chain, FirstsOf, LastOf, Near;
    EndToEnd.EmitFromHistory(rx, d, 8);
    EndToEnd.SameHistory(rx, Emit([rx], d, rx.nReported, 8).0[0], log);
    EmitChain(rx, d, 8, h, tx);
  }

  /** A message of the receiver comes to each number in turn, and says what the history had. */
  lemma MadeHonest(rx: RxState, log: seq<Arrival>, h: int, tx: int, hiTx: int, reporter: uint32, d: Due)
    requires Heard(rx, log, h, tx, hiTx) && log != [] && !CrossesWrap(h, tx, rx.nReported)
    ensures Shaped(rx)
    ensures Honest(MailOf(Emit([rx], d, rx.nReported, 8).1, rx.nReported, log, h, tx, reporter, d.t),
                   rx.nReported, rx.ssrc, hiTx)
  {
    RememberedShape(rx, log);
    hide Remembers, Emit, Print, Parse, Words, ReportsFrom, CrossesWrap, Chain, FirstTold, Intact, FirstsOf, LastOf, Near;
    var n := rx.nReported;
    var blocks := Emit([rx], d, n, 8).1;
    var firsts, end := FirstsOf(h, tx, n, |blocks|), LastOf(h, tx, n, |blocks|);
    EndToEnd.EmitFromHistory(rx, d, 8);
    EmitSize([rx], d, n, 8);
    EndToEnd.FewWords(blocks, n);
    RoundTrip(reporter, Feedback(blocks, d.t));
    EmitChain(rx, d, 8, h, tx);
    forall v | v in IntactAmong(log, tx, end)
      ensures tx < v && FirstTold(blocks, firsts, v)
    {
      ChainTells(blocks, firsts, n, tx, end, rx, log, d.t, v);
    }
  }

  lemma MadeIs(s: Line, reporter: uint32, d: Due)
    requires LineShaped(s)
    ensures var r, n := Made(s, reporter, d), s.rx.nReported;
            var (ss, blocks) := Emit([s.rx], d, n, 8);
            && r.rx == ss[0] && r.tx == LastOf(s.h, s.tx, n, |blocks|)
            && r.mail == (if blocks == [] then s.mail else s.mail + [MailOf(blocks, n, s.log, s.h, s.tx, reporter, d.t)])
            && r.l == s.l && r.x == s.x && r.live == s.live && r.log == s.log && r.h == s.h
            && r.told == s.told && r.due == s.due
  {
    hide Emit, Print, FirstsOf, IntactAmong;
  }

  /** With the new message the messages still follow one another. */
  lemma MailJoins(rx: RxState, log: seq<Arrival>, h: int, tx: int, hiTx: int, mail: seq<Mail>, told: int,
                  reporter: uint32, d: Due)
    requires Heard(rx, log, h, tx, hiTx) && log != [] && !CrossesWrap(h, tx, rx.nReported)
    requires InOrder(mail, rx.nReported, rx.ssrc, hiTx, told, tx)
    ensures Shaped(rx)
    ensures var n := rx.nReported;
            var blocks := Emit([rx], d, n, 8).1;
            InOrder(if blocks == [] then mail else mail + [MailOf(blocks, n, log, h, tx, reporter, d.t)], n, rx.ssrc, hiTx, told,
                    LastOf(h, tx, n, |blocks|))
  {
    MadeHonest(rx, log, h, tx, hiTx, reporter, d);
    var n := rx.nReported;
    var blocks := Emit([rx], d, n, 8).1;
    hide *;
    var m := MailOf(blocks, n, log, h, tx, reporter, d.t);
    MailEnds(blocks, n, log, h, tx, reporter, d.t);
    InOrderAppend(mail, m, n, rx.ssrc, hiTx, told, tx);
  }

  lemma MailEnds(blocks: seq<Block>, n: int, log: seq<Arrival>, h: int, tx: int, reporter: uint32, t: uint32)
    ensures MailOf(blocks, n, log, h, tx, reporter, t).from == tx
    ensures MailOf(blocks, n, log, h, tx, reporter, t).end == LastOf(h, tx, n, |blocks|)
    ensures blocks == [] ==> LastOf(h, tx, n, |blocks|) == tx
  {
    hide Print, FirstsOf, IntactAmong;
  }

  lemma MadeInOrder(s: Line, reporter: uint32, d: Due)
    requires OnTrack(s) && s.log != [] && !CrossesWrap(s.h, s.tx, s.rx.nReported)
    ensures LineShaped(s)
    ensures var r := Made(s, reporter, d);
            && InOrder(r.mail, s.rx.nReported, s.rx.ssrc, s.x.hiTx, s.told, r.tx)
            && Heard(r.rx, s.log, s.h, r.tx, s.x.hiTx)
            && r.rx.nReported == s.rx.nReported && r.rx.ssrc == s.rx.ssrc
  {
    TrackShape(s);
    hide Waiting, Heard, Honest, Emit, MailOf, LastOf, CrossesWrap, InOrder, Shaped, Made;
    MadeIs(s, reporter, d);
    MadeHeard(s.rx, s.log, s.h, s.tx, s.x.hiTx, d);
    MailJoins(s.rx, s.log, s.h, s.tx, s.x.hiTx, s.mail, s.told, reporter, d);
  }

  lemma MakeOnTrack(s: Line, reporter: uint32, d: Due)
    requires OnTrack(s) && Enabled(s, Makes(reporter, d))
    ensures OnTrack(Next(s, Makes(reporter, d)))
  {
    hide Waiting, Heard, InOrder, Made, Emit, CrossesWrap, LineShaped;
    MadeInOrder(s, reporter, d);
    MadeIs(s, reporter, d);
  }

  lemma NextOnTrack(s: Line, e: LineEvent)
    requires OnTrack(s) && Enabled(s, e)
    ensures LineShaped(s) && OnTrack(Next(s, e))
  {
    TrackShape(s);
    hide OnTrack, Next, LineShaped;
    match e
    case Transmits(u, t, size, mark, ts) => TransmitOnTrack(s, u, t, size, mark, ts);
    case Arrives(a) => ArriveOnTrack(s, a);
    case Makes(reporter, d) => MakeOnTrack(s, reporter, d);
    case Reads => ReadOnTrack(s);
    case TimesOut => SilentOnTrack(s);
    case UpdatesRate => SilentOnTrack(s);
  }

  ghost predicate IsStart(s: Line) {
    && IsFresh(s.l) && s.y == NO_TALLY && Unlifted(s.x) && IsNew(s.rx) && s.rx.nReported <= 512
    && s.live == {} && s.log == [] && s.mail == [] && s.due == {}
    && s.h == s.tx == s.told == 0
  }

  /** The state after a run. */
  ghost function After(start: Line, events: seq<LineEvent>): (r: Line)
    requires LineShaped(start)
    ensures LineShaped(r)
  {
    if events == [] then start else Next(After(start, events[..|events| - 1]), events[|events| - 1])
  }

  /** Every event of the run was enabled. */
  ghost predicate AllEnabled(start: Line, events: seq<LineEvent>)
    requires LineShaped(start)
  {
    events == []
    || (AllEnabled(start, events[..|events| - 1]) && Enabled(After(start, events[..|events| - 1]), events[|events| - 1]))
  }

  /** Every event keeps delivered in step with the ledger. */
  lemma NextOneFate(s: Line, e: LineEvent)
    requires OnTrack(s) && Enabled(s, e) && OneFate(s.l, s.x)
    ensures LineShaped(s) && OneFate(Next(s, e).l, Next(s, e).x)
  {
    TrackShape(s);
    hide OneFate, Made, Step, LStep, StepTally, Heard, InOrder, Held, Windowed, Receive, LineShaped;
    match e
    case Transmits(u, t, size, mark, ts) => StepOneFate(s.l, s.x, LSent(u, t, size, mark, ts));
    case Arrives(_) =>
    case Makes(reporter, d) => MadeIs(s, reporter, d);
    case Reads => ReadOneFate(s);
    case TimesOut => StepOneFate(s.l, s.x, LTimedOut);
    case UpdatesRate => StepOneFate(s.l, s.x, LRateUpdated);
  }

  lemma ReadOneFate(s: Line)
    requires OnTrack(s) && Enabled(s, Reads) && OneFate(s.l, s.x)
    ensures LineShaped(s) && OneFate(Next(s, Reads).l, Next(s, Reads).x)
  {
    TrackShape(s);
    hide Waiting, Read, Run, FeedbackEvents, MessageRead, Parse, Chain, FirstTold, Remembers, LineShaped, OneFate;
    ReadIs(s);
    var m := s.mail[0];
    MailProgress(s.l, s.y, s.x, s.live, s.told, m, s.rx.nReported, s.rx.ssrc);
    MessageFate(s.l, s.x, m.feedback.blocks, m.firsts, m.feedback.timestamp);
  }

  /** Progress over every run: each packet that was live, and that the receiver's history had when the message was made that
      is the first to come to its number, is acknowledged as soon as that message has been read. There is one acknowledgement
      for each packet delivered, and no such packet is open or lost. */
  lemma {:induction false} RunProgress(start: Line, events: seq<LineEvent>)
    requires IsStart(start) && LineShaped(start) && AllEnabled(start, events)
    ensures var s := After(start, events);
            OnTrack(s) && s.due <= s.x.delivered && OneFate(s.l, s.x)
  {
    hide Next, IsStart, Enabled, LineShaped, OnTrack, OneFate;
    if events == [] {
      StartOnTrack(start);
    } else {
      RunProgress(start, events[..|events| - 1]);
      NextOnTrack(After(start, events[..|events| - 1]), events[|events| - 1]);
      NextOneFate(After(start, events[..|events| - 1]), events[|events| - 1]);
    }
    TrackedDue(After(start, events));
  }

  lemma StartOnTrack(s: Line)
    requires IsStart(s)
    ensures OnTrack(s) && OneFate(s.l, s.x)
  {
  }

  lemma TrackedDue(s: Line)
    requires OnTrack(s)
    ensures s.due <= s.x.delivered
  {
  }
}
