/** The test session as a two-thread step system: the sending thread admits a packet in one critical section and commits it
    in another, and the feedback thread may run between the two. */
module Session {
  import opened Options
  import opened Serial
  import opened Ccfb
  import opened TxRing
  import opened InFlight
  import opened SenderFeedback

  const MAX_PACKET := 2048
  const HEADER := 12

  // ---------- A media frame ----------

  datatype Fragment = Fragment(payload: int, marker: bool)

  function Payload(f: seq<Fragment>): int {
    if f == [] then 0 else Payload(f[..|f| - 1]) + f[|f| - 1].payload
  }

  /** Size of a frame at the given rate: one frame period's worth of bytes, and at least one packet's. */
  function FrameBytes(targetBps: real, startRateKbps: real, fps: int, payloadSize: int): (n: int)
    ensures n >= payloadSize
  {
    var rate := if targetBps <= 0.0 then startRateKbps * 1000.0 else targetBps;
    Max(payloadSize, Truncate(rate / 8.0 / Max(1, fps) as real))
  }

  /** Bits per second of fps frames of n bytes each. */
  function FrameRate(n: int, fps: int): real { n as real * fps as real * 8.0 }

  /** A frame carries one frame period of the rate, rounded down, unless that is less than a packet. */
  lemma FrameBytesIs(targetBps: real, startRateKbps: real, fps: int, payloadSize: int)
    requires fps >= 1 && startRateKbps >= 0.0
    ensures var rate := if targetBps > 0.0 then targetBps else startRateKbps * 1000.0;
            var n := FrameBytes(targetBps, startRateKbps, fps, payloadSize);
            && rate < FrameRate(n + 1, fps)
            && (n > payloadSize ==> FrameRate(n, fps) <= rate)
  {
    hide FrameRate;
    var rate := if targetBps > 0.0 then targetBps else startRateKbps * 1000.0;
    var k := Truncate(rate / 8.0 / fps as real);
    PeriodBytes(rate, fps);
    FrameRateGrows(k + 1, FrameBytes(targetBps, startRateKbps, fps, payloadSize) + 1, fps);
  }

  lemma PeriodBytes(rate: real, fps: int)
    requires rate >= 0.0 && fps >= 1
    ensures var k := Truncate(rate / 8.0 / fps as real); FrameRate(k, fps) <= rate < FrameRate(k + 1, fps)
  {
    var u, f := rate / 8.0, fps as real;
    QuotientIff(u, f, 0.0);
    var k := Truncate(u / f);
    QuotientIff(u, f, k as real);
    QuotientIff(u, f, (k + 1) as real);
  }

  lemma FrameRateGrows(a: int, b: int, fps: int)
    requires a <= b && fps >= 1
    ensures FrameRate(a, fps) <= FrameRate(b, fps)
  {
    var d, f := (b - a) as real, fps as real;
    assert d * f >= 0.0;
    assert b as real * f - a as real * f == d * f;
  }

  /** The frame cut into packets: all of its bytes, none more than a packet holds, the marker on exactly the last. */
  ghost predicate Cuts(f: seq<Fragment>, payloadSize: int, frameBytes: int) {
    && Payload(f) == frameBytes
    && (forall i :: 0 <= i < |f| ==> 1 <= f[i].payload <= MAX_PACKET - HEADER)
    && (forall i :: 0 <= i < |f| ==> (f[i].marker <==> i == |f| - 1))
    && (forall i :: 0 <= i < |f| - 1 ==> f[i].payload == Min(payloadSize, MAX_PACKET - HEADER))
  }

  // ---------- The step system ----------

  /** A generated packet, by its unbounded number. */
  datatype Parcel = Parcel(u: nat, size: nat, mark: bool, ts: uint32)

  /** What the window gate saw: the limit on bytes in flight, or a time-out that reset them. */
  datatype Gate = Gate(limit: real, reset: bool)

  /** A transmission as it was carried out. */
  datatype Departure = Departure(parcel: Parcel, inFlight: int, gate: Gate)

  datatype State = State(
    ledger: Ledger, tally: Tally,
    queue: seq<Parcel>,
    pending: Option<(Parcel, Gate)>,
    generated: nat,
    lastTransmitT: uint32, nextTransmitT: uint32,
    cwnd: int, headroom: real, mss: int,
    departures: seq<Departure>)

  /** The critical sections, and what they may do on the way: clear the queue, change the window, restart the counters. */
  datatype Action =
    | Generate(size: nat, mark: bool, ts: uint32, granted: bool)
    | Clear
    | NewWindow(cwnd: int, headroom: real, mss: int)
    | NewRatePeriod
    | AdmitNext(t: uint32)
    | Commit(t: uint32, nextT: uint32)
    | HandleFeedback(ssrc: uint32, rts: uint32, blocks: seq<Block>)

  /** The number of bytes that leave: the packet, cut to the sender's buffer. */
  function Outgoing(p: Parcel): nat { Min(p.size, MAX_PACKET) }

  function FrontOf(queue: seq<Parcel>): int { if queue == [] then -1 else queue[0].size }

  function Perform(s: State, a: Action): State
    requires |s.ledger.slots| == 4096
  {
    match a
    case Generate(size, mark, ts, granted) =>
      var p := Parcel(s.generated, size, mark, ts);
      s.(generated := s.generated + 1, queue := if granted && |s.queue| < 1024 then s.queue + [p] else s.queue)
    case Clear => s.(queue := [])
    case NewWindow(cwnd, headroom, mss) => s.(cwnd := cwnd, headroom := headroom, mss := mss)
    case NewRatePeriod => s.(ledger := UpdateRate(s.ledger), tally := TallyRate(s.ledger, s.tally))
    case AdmitNext(t) => if s.pending.Some? then s else AdmitStep(s, t)
    case Commit(t, nextT) =>
      if s.pending.None? then s else CommitStep(s, s.pending.value.0, s.pending.value.1, t, nextT)
    case HandleFeedback(ssrc, rts, blocks) =>
      var (l, y) := Run(s.ledger, s.tally, FeedbackEvents(s.ledger, s.tally, ssrc, rts, blocks));
      s.(ledger := l, tally := y)
  }

  /** First critical section of pump: isOkToTransmit, and if it allows, dequeueRtp. */
  function AdmitStep(s: State, t: uint32): State {
    var (l, verdict) := Admit(s.ledger, s.lastTransmitT, s.nextTransmitT, t, FrontOf(s.queue), s.cwnd, s.headroom, s.mss);
    if verdict != 0.0 || s.queue == [] then s
    else
      var reset := TimeOutDue(s.lastTransmitT, t);
      var p := s.queue[0];
      var gate := Gate(s.cwnd as real * s.headroom + s.mss as real, reset);
      s.(ledger := l, tally := if reset then TallyTimeOut(s.ledger, s.tally) else s.tally, queue := s.queue[1..],
         pending := if Outgoing(p) > 0 then Some((p, gate)) else None)
  }

  /** Second critical section of pump: addTransmitted. */
  function CommitStep(s: State, p: Parcel, gate: Gate, t: uint32, nextT: uint32): State
    requires |s.ledger.slots| == 4096
  {
    var sn := Wrap16(p.u);
    var l := Transmit(s.ledger, t, Outgoing(p), sn, p.mark, p.ts);
    s.(ledger := l, tally := TallyTransmit(s.ledger, s.tally, sn), pending := None, lastTransmitT := t, nextTransmitT := nextT,
       departures := s.departures + [Departure(p, l.bytesInFlight, gate)])
  }

  // ---------- What every step keeps ----------

  function Waiting(s: State): seq<Parcel> {
    (if s.pending.Some? then [s.pending.value.0] else []) + s.queue
  }

  function Departed(d: seq<Departure>): (r: seq<Parcel>)
    ensures |r| == |d| && forall i :: 0 <= i < |r| ==> r[i] == d[i].parcel
  {
    if d == [] then [] else Departed(d[..|d| - 1]) + [d[|d| - 1].parcel]
  }

  /** In order of generation, each packet at most once. */
  ghost predicate InOrder(q: seq<Parcel>) { forall i, j :: 0 <= i < j < |q| ==> q[i].u < q[j].u }

  ghost predicate Below(q: seq<Parcel>, n: nat) { forall i :: 0 <= i < |q| ==> q[i].u < n }

  /** At most the limit that the gate saw, or this packet alone after a time-out. */
  predicate WithinGate(d: Departure) {
    if d.gate.reset then d.inFlight == Outgoing(d.parcel) else d.inFlight as real <= d.gate.limit
  }

  function DepartedBytes(d: seq<Departure>): int {
    if d == [] then 0 else DepartedBytes(d[..|d| - 1]) + Outgoing(d[|d| - 1].parcel)
  }

  /** A packet that was admitted still fits. */
  ghost predicate StillFits(s: State) {
    s.pending.Some? ==>
      var (p, gate) := s.pending.value;
      if gate.reset then s.ledger.bytesInFlight == 0
      else (s.ledger.bytesInFlight + Outgoing(p)) as real <= gate.limit
  }

  ghost predicate Safe(s: State) {
    && Accounted(s.ledger, s.tally)
    && |s.queue| <= 1024
    && InOrder(Departed(s.departures) + Waiting(s)) && Below(Departed(s.departures) + Waiting(s), s.generated)
    && (forall i :: 0 <= i < |s.departures| ==> WithinGate(s.departures[i]))
    && DepartedBytes(s.departures) == s.tally.pastTransmitted + s.ledger.bytesTransmitted
    && StillFits(s)
  }

  lemma SafeParts(s: State)
    requires Safe(s)
    ensures Accounted(s.ledger, s.tally) && |s.ledger.slots| == 4096 && StillFits(s) && s.ledger.bytesInFlight >= 0
    ensures DepartedBytes(s.departures) == s.tally.pastTransmitted + s.ledger.bytesTransmitted
  {
    InFlightNonNegative(s.ledger, s.tally);
  }

  lemma GenerateSafe(s: State, size: nat, mark: bool, ts: uint32, granted: bool)
    requires Safe(s)
    ensures Safe(Perform(s, Generate(size, mark, ts, granted)))
  {
    SafeParts(s);
    hide Accounted, InOrder, Below, Departed, DepartedBytes, WithinGate;
    var r := Perform(s, Generate(size, mark, ts, granted));
    var line, line' := Departed(s.departures) + Waiting(s), Departed(r.departures) + Waiting(r);
    assert line' == line || line' == line + [Parcel(s.generated, size, mark, ts)];
    OneMore(line, s.generated, Parcel(s.generated, size, mark, ts));
  }

  lemma OneMore(q: seq<Parcel>, bound: nat, p: Parcel)
    requires InOrder(q) && Below(q, bound) && p.u == bound
    ensures InOrder(q + [p]) && Below(q + [p], bound + 1) && Below(q, bound + 1)
  {
  }

  lemma ClearSafe(s: State)
    requires Safe(s)
    ensures Safe(Perform(s, Clear))
  {
    SafeParts(s);
    hide Accounted, InOrder, Below, Departed, DepartedBytes, WithinGate;
    var r := Perform(s, Clear);
    var line, line' := Departed(s.departures) + Waiting(s), Departed(r.departures) + Waiting(r);
    assert line' == line[..|line'|];
    Prefix(line, |line'|, s.generated);
  }

  lemma Prefix(q: seq<Parcel>, n: nat, bound: nat)
    requires n <= |q| && InOrder(q) && Below(q, bound)
    ensures InOrder(q[..n]) && Below(q[..n], bound)
  {
  }

  lemma RatePeriodSafe(s: State)
    requires Safe(s)
    ensures Safe(Perform(s, NewRatePeriod))
  {
    hide InOrder, Below, Departed, WithinGate, DepartedBytes;
    StepAccounted(s.ledger, s.tally, RateUpdated);
  }

  /** Admission takes the oldest packet from the queue, and leaves room for it. */
  lemma AdmitSafe(s: State, t: uint32)
    requires Safe(s) && s.pending.None?
    ensures Safe(AdmitStep(s, t))
  {
    hide Accounted, WithinGate, DepartedBytes, TimeOut, TallyTimeOut, TimeOutDue;
    var r := AdmitStep(s, t);
    TimeOutAccounted(s.ledger, s.tally);
    TimeOutKeepsTotals(s.ledger, s.tally);
    LineAdmit(s, r, t);
  }

  lemma TimeOutKeepsTotals(l: Ledger, y: Tally)
    ensures TimeOut(l).bytesInFlight == 0 && TimeOut(l).bytesTransmitted == l.bytesTransmitted
    ensures TallyTimeOut(l, y).pastTransmitted == y.pastTransmitted
  {
  }

  lemma LineAdmit(s: State, r: State, t: uint32)
    requires r == AdmitStep(s, t) && s.pending.None?
    requires InOrder(Departed(s.departures) + Waiting(s)) && Below(Departed(s.departures) + Waiting(s), s.generated)
    ensures InOrder(Departed(r.departures) + Waiting(r)) && Below(Departed(r.departures) + Waiting(r), r.generated)
  {
    hide TimeOut, TallyTimeOut, TimeOutDue, Fits, InOrder, Below, Departed, Outgoing;
    var line, line' := Departed(s.departures) + Waiting(s), Departed(r.departures) + Waiting(r);
    var n := |s.departures|;
    assert line' == line || (n < |line| && line' == line[..n] + line[n + 1..]);
    if n < |line| {
      Without(line, n, s.generated);
    }
  }

  lemma Without(q: seq<Parcel>, n: nat, bound: nat)
    requires n < |q| && InOrder(q) && Below(q, bound)
    ensures InOrder(q[..n] + q[n + 1..]) && Below(q[..n] + q[n + 1..], bound)
  {
  }

  lemma DepartedSnoc(d: seq<Departure>, x: Departure)
    ensures Departed(d + [x]) == Departed(d) + [x.parcel]
    ensures DepartedBytes(d + [x]) == DepartedBytes(d) + Outgoing(x.parcel)
  {
    assert (d + [x])[..|d|] == d;
  }

  /** A commit stays within what the gate saw, whatever feedback did in between. */
  lemma CommitSafe(s: State, t: uint32, nextT: uint32)
    requires Safe(s) && s.pending.Some?
    ensures Safe(Perform(s, Commit(t, nextT)))
    ensures WithinGate(Perform(s, Commit(t, nextT)).departures[|s.departures|])
  {
    hide Accounted, InOrder, Below, Transmit, TallyTransmit, Departed, DepartedBytes;
    var (p, gate) := s.pending.value;
    SafeParts(s);
    var r := CommitStep(s, p, gate, t, nextT);
    TransmitAccounted(s.ledger, s.tally, t, Outgoing(p), Wrap16(p.u), p.mark, p.ts);
    TransmitTotals(s.ledger, s.tally, t, Outgoing(p), Wrap16(p.u), p.mark, p.ts);
    DepartedSnoc(s.departures, Departure(p, r.ledger.bytesInFlight, gate));
    assert Departed(r.departures) + Waiting(r) == Departed(s.departures) + Waiting(s);
  }

  lemma TransmitTotals(l: Ledger, y: Tally, t: uint32, size: nat, sn: uint16, mark: bool, ts: uint32)
    requires |l.slots| == 4096
    ensures Transmit(l, t, size, sn, mark, ts).bytesInFlight == l.bytesInFlight + size
    ensures Transmit(l, t, size, sn, mark, ts).bytesTransmitted == l.bytesTransmitted + size
    ensures TallyTransmit(l, y, sn).pastTransmitted == y.pastTransmitted
  {
  }

  /** Feedback transmits nothing and never raises bytesInFlight. */
  lemma FeedbackSafe(s: State, ssrc: uint32, rts: uint32, blocks: seq<Block>)
    requires Safe(s)
    ensures Safe(Perform(s, HandleFeedback(ssrc, rts, blocks)))
  {
    hide Accounted, InOrder, Below, Departed, WithinGate, DepartedBytes, FeedbackEvents, Run;
    SafeParts(s);
    var events := FeedbackEvents(s.ledger, s.tally, ssrc, rts, blocks);
    FeedbackKeepsAccount(s.ledger, s.tally, ssrc, rts, blocks);
    FeedbackTotals(s.ledger, s.tally, events);
    var (l, y) := Run(s.ledger, s.tally, events);
    assert StillFits(s.(ledger := l, tally := y));
  }

  lemma {:induction false} FeedbackTotals(l: Ledger, y: Tally, events: seq<Event>)
    requires |l.slots| == 4096 && forall k :: 0 <= k < |events| ==> events[k].Reported?
    ensures var (l', y') := Run(l, y, events);
            l'.bytesTransmitted == l.bytesTransmitted && y'.pastTransmitted == y.pastTransmitted
  {
    hide Report, TallyReport;
    if events != [] {
      var before := events[..|events| - 1];
      FeedbackTotals(l, y, before);
      var (l', y') := Run(l, y, before);
      ReportTotals(l', y', events[|events| - 1]);
    }
  }

  lemma ReportTotals(l: Ledger, y: Tally, e: Event)
    requires |l.slots| == 4096 && e.Reported?
    ensures Step(l, e).bytesTransmitted == l.bytesTransmitted
    ensures StepTally(l, y, e).pastTransmitted == y.pastTransmitted
  {
    hide InStretch, LateOpen, AtOrBelow, DetectLeak;
  }

  lemma StepSafe(s: State, a: Action)
    requires Safe(s)
    ensures Safe(Perform(s, a))
  {
    SafeParts(s);
    match a
    case Generate(size, mark, ts, granted) => GenerateSafe(s, size, mark, ts, granted);
    case Clear => ClearSafe(s);
    case NewWindow(_, _, _) =>
      assert Waiting(Perform(s, a)) == Waiting(s);
    case NewRatePeriod => RatePeriodSafe(s);
    case AdmitNext(t) => if s.pending.None? { AdmitSafe(s, t); }
    case Commit(t, nextT) => if s.pending.Some? { CommitSafe(s, t, nextT); }
    case HandleFeedback(ssrc, rts, blocks) => FeedbackSafe(s, ssrc, rts, blocks);
  }

  /** Whether the gate lets the oldest packet through at time t: half a second of silence, or room in the window and nothing
      to wait for. */
  ghost predicate Passes(s: State, t: uint32) {
    && s.queue != []
    && (t - s.lastTransmitT > 32768
        || ((s.ledger.bytesInFlight + s.queue[0].size) as real <= s.cwnd as real * s.headroom + s.mss as real
            && (s.nextTransmitT <= t || s.nextTransmitT - t >= 4294901760)))
  }

  /** Progress: if and only if the gate lets it through, the oldest packet is taken; and the commit that follows sends it, cut
      to the sender's buffer, on top of what is in flight, of which nothing is left after half a second of silence. */
  lemma PumpOne(s: State, t: uint32, later: uint32, nextT: uint32)
    requires Safe(s) && s.pending.None? && s.lastTransmitT <= t
    ensures var admitted := Perform(s, AdmitNext(t));
            if Passes(s, t) && s.queue[0].size > 0 then
              && admitted.pending.Some? && admitted.pending.value.0 == s.queue[0] && admitted.queue == s.queue[1..]
              && |admitted.ledger.slots| == 4096
              && var sent, p := Perform(admitted, Commit(later, nextT)), s.queue[0];
                 && sent.queue == s.queue[1..] && sent.pending.None?
                 && Departed(sent.departures) == Departed(s.departures) + [p]
                 && sent.ledger.bytesInFlight
                    == (if t - s.lastTransmitT > 32768 then 0 else s.ledger.bytesInFlight) + Min(p.size, 2048)
                 && sent.lastTransmitT == later && sent.nextTransmitT == nextT
            else if Passes(s, t) then admitted.pending.None? && admitted.queue == s.queue[1..]
            else admitted == s
  {
    hide Accounted, InOrder, Below, WithinGate, Transmit, TimeOut, TallyTransmit, TallyTimeOut, Admit;
    SafeParts(s);
    GateMeans(s, t);
    var admitted := Perform(s, AdmitNext(t));
    if Passes(s, t) && s.queue[0].size > 0 {
      TimeOutKeepsTotals(s.ledger, s.tally);
      var p := s.queue[0];
      TransmitTotals(admitted.ledger, admitted.tally, later, Outgoing(p), Wrap16(p.u), p.mark, p.ts);
      var sent := Perform(admitted, Commit(later, nextT));
      assert sent.departures[..|s.departures|] == s.departures;
    }
  }

  lemma GateMeans(s: State, t: uint32)
    requires s.lastTransmitT <= t
    ensures var (l, verdict) := Admit(s.ledger, s.lastTransmitT, s.nextTransmitT, t, FrontOf(s.queue), s.cwnd, s.headroom, s.mss);
            && (s.queue != [] ==> (verdict == 0.0 <==> Passes(s, t)))
            && (verdict == 0.0 ==> l == if t - s.lastTransmitT > 32768 then TimeOut(s.ledger) else s.ledger)
  {
    hide TimeOut;
    if s.queue != [] {
      AdmitIff(s.ledger, s.lastTransmitT, s.nextTransmitT, t, s.queue[0].size, s.cwnd, s.headroom, s.mss);
    }
  }

  ghost predicate IsStart(s: State) {
    IsFresh(s.ledger) && s.tally == NO_TALLY && s.queue == [] && s.pending == None && s.departures == [] && s.generated == 0
  }

  lemma StartSafe(s: State)
    requires IsStart(s)
    ensures Safe(s)
  {
    FreshAccounted(s.ledger);
  }

  function RunOf(s: State, actions: seq<Action>): (r: State)
    requires |s.ledger.slots| == 4096
    ensures |r.ledger.slots| == 4096
  {
    if actions == [] then s else
      StepShape(RunOf(s, actions[..|actions| - 1]), actions[|actions| - 1]);
      Perform(RunOf(s, actions[..|actions| - 1]), actions[|actions| - 1])
  }

  lemma StepShape(s: State, a: Action)
    requires |s.ledger.slots| == 4096
    ensures |Perform(s, a).ledger.slots| == 4096
  {
    hide FeedbackEvents, Run, TallyTransmit, TallyTimeOut;
  }

  /** Interleaving safety: in every run, whatever the interleaving, each transmission stays within the limit its admission
      saw or is alone in flight after a time-out; what was transmitted is in flight, credited or written off; and packets
      are transmitted in the order they were generated in, each at most once. */
  lemma {:induction false} RunSafe(start: State, actions: seq<Action>)
    requires IsStart(start)
    ensures var s := RunOf(start, actions);
            && Safe(s)
            && (forall i :: 0 <= i < |s.departures| ==> WithinGate(s.departures[i]))
            && DepartedBytes(s.departures)
               == s.ledger.bytesInFlight + s.tally.pastAcked + s.ledger.bytesAcked + s.tally.writtenOff
            && InOrder(Departed(s.departures)) && Below(Departed(s.departures), s.generated)
  {
    hide Perform, Safe, DepartedBytes, Departed, InOrder, Below, WithinGate;
    if actions == [] {
      StartSafe(start);
    } else {
      RunSafe(start, actions[..|actions| - 1]);
      StepSafe(RunOf(start, actions[..|actions| - 1]), actions[|actions| - 1]);
    }
    SafeMeans(RunOf(start, actions));
  }

  lemma SafeMeans(s: State)
    requires Safe(s)
    ensures forall i :: 0 <= i < |s.departures| ==> WithinGate(s.departures[i])
    ensures DepartedBytes(s.departures)
            == s.ledger.bytesInFlight + s.tally.pastAcked + s.ledger.bytesAcked + s.tally.writtenOff
    ensures InOrder(Departed(s.departures)) && Below(Departed(s.departures), s.generated)
  {
    hide WithinGate, DepartedBytes, Departed, InOrder, Below;
    var line := Departed(s.departures) + Waiting(s);
    Prefix(line, |s.departures|, s.generated);
    assert line[..|s.departures|] == Departed(s.departures);
  }
}
