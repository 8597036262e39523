/** The sender's session on its real objects: each critical section of the two threads carries out a step of Session. */
module TestSessions {
  import opened Options
  import opened Serial
  import opened Ccfb
  import opened InFlight
  import opened InFlightLedgers
  import opened SenderFeedback
  import opened RtpQueues
  import opened Controller
  import opened Session

  /** A queued packet carries a generated one. */
  ghost predicate Carries(q: Packet, p: Parcel) {
    q.size == p.size && q.seqNr == Wrap16(p.u) && q.isMark == p.mark && q.timeStamp == p.ts
  }

  ghost predicate CarriesAll(q: seq<Packet>, p: seq<Parcel>) {
    |q| == |p| && forall i :: 0 <= i < |q| ==> Carries(q[i], p[i])
  }

  lemma CarriesFront(q: seq<Packet>, p: seq<Parcel>)
    requires CarriesAll(q, p)
    ensures |q| == |p| && FrontSize(q) == FrontOf(p)
    ensures q != [] ==> Carries(q[0], p[0]) && CarriesAll(q[1..], p[1..])
  {
  }

  lemma CarriesOneMore(q: seq<Packet>, p: seq<Parcel>, a: Packet, b: Parcel)
    requires CarriesAll(q, p) && Carries(a, b)
    ensures CarriesAll(q + [a], p + [b])
  {
  }

  class TestSession {
    const ssrc: uint32
    const mtu: int
    const fps: int
    const startRateKbps: real
    const cwndMinLow: nat
    const ledger: InFlightLedger
    const controller: ScreamController

    var seqNr: uint16
    var rtpTimestamp: uint32
    var cwnd: int
    var headroom: real
    var mss: int

    /** What pump holds between its two critical sections. */
    var pending: Option<Packet>

    /** The state of the step system. */
    ghost var state: State

    ghost predicate Valid()
      reads this, ledger, ledger.txPackets, controller, controller.heap, controller.rtpQueue, controller.rtpQueue.items
    {
      && ledger.txPackets as object != controller.rtpQueue.items
      && ledger.Valid() && controller.Valid() && Safe(state)
      && state.ledger == ledger.Abs() && state.tally == ledger.tally
      && state.lastTransmitT == ledger.lastTransmitT && state.nextTransmitT == ledger.nextTransmitT
      && state.cwnd == cwnd && state.headroom == headroom && state.mss == mss
      && CarriesAll(controller.rtpQueue.contents, state.queue)
      && seqNr == Wrap16(state.generated)
      && (pending.Some? <==> state.pending.Some?)
      && (pending.Some? ==> Carries(pending.value, state.pending.value.0))
    }

    constructor (ssrc_: uint32, mtu_: int, fps_: int, startRate: real, t: uint32, cwnd_: int, headroom_: real, mss_: int,
                 cwndMinLow_: nat)
      ensures Valid() && IsStart(state)
      ensures ssrc == ssrc_ && mtu == mtu_ && fps == fps_ && startRateKbps == startRate && cwndMinLow == cwndMinLow_
      ensures cwnd == cwnd_ && headroom == headroom_ && mss == mss_ && pending == None && rtpTimestamp == 0
    {
      hide IsFresh, Accounted, Safe, InFlightLedger.Valid, InFlightLedger.Abs, ScreamController.Valid;
      ssrc, mtu, fps, startRateKbps, cwndMinLow := ssrc_, mtu_, fps_, startRate, cwndMinLow_;
      var l := new InFlightLedger(t);
      var c := new ScreamController();
      ledger, controller := l, c;
      seqNr, rtpTimestamp, cwnd, headroom, mss, pending := 0, 0, cwnd_, headroom_, mss_, None;
      state := State(l.Abs(), l.tally, [], None, 0, t, t, cwnd_, headroom_, mss_, []);
      new;
      StartSafe(state);
    }

    /** One packet of a frame: queued if there is room and memory; its number is used up either way. */
    method EnqueueOne(total: nat, marker: bool, now: real, granted: bool) returns (ok: bool)
      requires Valid()
      modifies this, controller.heap, controller.rtpQueue, controller.rtpQueue.items
      ensures Valid() && state == Perform(old(state), Generate(total, marker, rtpTimestamp, granted))
      ensures rtpTimestamp == old(rtpTimestamp) && state.generated == old(state).generated + 1
      ensures ok <==> granted && |old(state).queue| < 1024
      ensures cwnd == old(cwnd) && mss == old(mss)
    {
      hide InFlightLedger.Valid, InFlightLedger.Abs, ScreamController.Valid, Safe, CarriesAll, Accounted;
      var data := seq(total, _ => 0xA5 as byte);
      ghost var s, q := state, controller.rtpQueue.contents;
      SafeParts(s);
      StepSafe(s, Generate(total, marker, rtpTimestamp, granted));
      CarriesFront(q, s.queue);
      ok := controller.EnqueueRtp(data, ssrc, seqNr, marker, rtpTimestamp, now, granted);
      if ok {
        CarriesOneMore(q, s.queue, controller.rtpQueue.contents[|q|], Parcel(s.generated, total, marker, rtpTimestamp));
        assert controller.rtpQueue.contents == q + [controller.rtpQueue.contents[|q|]];
      }
      WrapThenAdd16(s.generated, 1);
      seqNr := Wrap16(seqNr + 1);
      state := Perform(s, Generate(total, marker, rtpTimestamp, granted));
    }

    /** 90 kHz, one frame on. */
    method AdvanceClock()
      requires Valid()
      modifies this`rtpTimestamp
      ensures Valid() && rtpTimestamp == Wrap32(old(rtpTimestamp) + 90000 / Max(1, fps))
    {
      hide InFlightLedger.Valid, InFlightLedger.Abs, ScreamController.Valid, Safe, CarriesAll, Wrap32;
      rtpTimestamp := Wrap32(rtpTimestamp + 90000 / Max(1, fps));
    }

    lemma Shape()
      requires Valid()
      ensures |state.ledger.slots| == 4096
    {
      hide InFlightLedger.Valid, InFlightLedger.Abs, ScreamController.Valid, CarriesAll, Safe;
      SafeParts(state);
    }

    /** newMediaFrame, as far as the session sees it: the queue may be discarded, because it is too old or to measure the base
        delay; otherwise the window makes room for the packet that is next in the queue. */
    method NewMediaFrame(tooOld: bool, refresh: bool) returns (ghost effects: seq<Action>)
      requires Valid()
      modifies this, controller.heap, controller.rtpQueue, controller.rtpQueue.items
      ensures Valid() && state == RunOf(old(state), effects) && Silent(effects)
      ensures rtpTimestamp == old(rtpTimestamp)
      ensures cwnd >= old(cwnd) && mss >= old(mss) && state.generated == old(state).generated
      ensures if tooOld || refresh then state.queue == []
              else state.queue == old(state).queue && mss == Max(old(mss), FrontOf(state.queue))
                   && cwnd == Max(old(cwnd), Max(cwndMinLow, 2 * mss))
    {
      hide InFlightLedger.Valid, InFlightLedger.Abs, ScreamController.Valid, Safe, CarriesAll, RunOf;
      Shape();
      ghost var s := state;
      RunOfNothing(s);
      effects := [];
      if tooOld {
        RunOfOneMore(s, effects, Clear);
        effects := effects + [Clear];
        DiscardQueue();
      }
      if refresh {
        RunOfOneMore(s, effects, Clear);
        effects := effects + [Clear];
        DiscardQueue();
      } else {
        CarriesFront(controller.rtpQueue.contents, state.queue);
        var size := NextSize();
        var mss' := Max(mss, size);
        var cwnd' := Max(cwnd, Max(cwndMinLow, 2 * mss'));
        RunOfOneMore(s, effects, Action.NewWindow(cwnd', headroom, mss'));
        effects := effects + [Action.NewWindow(cwnd', headroom, mss')];
        NewWindow(cwnd', headroom, mss');
      }
    }

    /** One packet of a frame, and what follows from it. */
    method GenerateOne(total: nat, marker: bool, now: real) returns (ghost granted: bool, ghost effects: seq<Action>)
      requires Valid()
      modifies this, controller.heap, controller.rtpQueue, controller.rtpQueue.items
      ensures Valid() && Silent(effects)
      ensures state == RunOf(old(state), [Generate(total, marker, rtpTimestamp, granted)] + effects)
      ensures rtpTimestamp == old(rtpTimestamp) && state.generated == old(state).generated + 1
      ensures cwnd >= old(cwnd) && mss >= old(mss)
    {
      hide Valid, Perform, RunOf;
      Shape();
      ghost var s := state;
      var allowed, tooOld, refresh := *, *, *;
      granted, effects := allowed, [];
      var ok := EnqueueOne(total, marker, now, allowed);
      Shape();
      ghost var a := Generate(total, marker, rtpTimestamp, allowed);
      RunOfNothing(s);
      RunOfOneMore(s, [], a);
      assert [] + [a] == [a] && [a] + [] == [a];
      if ok {
        effects := NewMediaFrame(tooOld, refresh);
      } else {
        RunOfNothing(state);
      }
      RunOfAppend(s, [a], effects);
    }

    /** generateFrame: the frame's fragments are generated in order, under consecutive numbers, in one critical section. What
        else happens on the way only discards the queue or raises the window. */
    method GenerateFrame(targetBps: real, now: real) returns (ghost f: seq<Fragment>, ghost actions: seq<Action>)
      requires Valid()
      modifies this, controller.heap, controller.rtpQueue, controller.rtpQueue.items
      ensures Valid() && state == RunOf(old(state), actions)
      ensures Generates(actions, f, old(rtpTimestamp))
      ensures var payloadSize := Max(64, mtu - HEADER);
              f != [] && Cuts(f, payloadSize, FrameBytes(targetBps, startRateKbps, fps, payloadSize))
      ensures state.generated == old(state).generated + |f|
      ensures cwnd >= old(cwnd) && mss >= old(mss)
      ensures rtpTimestamp == Wrap32(old(rtpTimestamp) + 90000 / Max(1, fps))
    {
      hide FrameBytes, Valid, Wrap32, Perform, CutSoFar, Cuts, RunOf, Generates, Silent;
      var payloadSize := Max(64, mtu - HEADER);
      var frameBytes := FrameBytes(targetBps, startRateKbps, fps, payloadSize);
      var remaining := frameBytes;
      f, actions := [], [];
      ghost var s := state;
      Shape();
      RunOfNothing(s);
      CutNone(payloadSize, frameBytes);
      GeneratesNothing(rtpTimestamp);
      while remaining > 0
        invariant Valid() && rtpTimestamp == old(rtpTimestamp) && cwnd >= old(cwnd) && mss >= old(mss)
        invariant state == RunOf(s, actions) && state.generated == s.generated + |f|
        invariant 0 <= remaining <= frameBytes && (f == [] ==> remaining > 0)
        invariant CutSoFar(f, payloadSize, frameBytes, remaining)
        invariant Generates(actions, f, rtpTimestamp)
      {
        var psize := Min(payloadSize, remaining);
        var total := psize + HEADER;
        if total > MAX_PACKET {
          total := MAX_PACKET;
          psize := total - HEADER;
        }
        var marker := remaining - psize <= 0;
        CutOne(f, payloadSize, frameBytes, remaining, psize, marker);
        ghost var granted, effects := GenerateOne(total, marker, now);
        ghost var a := Generate(total, marker, rtpTimestamp, granted);
        RunOfAppend(s, actions, [a] + effects);
        GeneratesOne(actions, f, rtpTimestamp, a, Fragment(psize, marker), effects);
        f, actions := f + [Fragment(psize, marker)], actions + ([a] + effects);
        remaining := remaining - psize;
      }
      CutAll(f, payloadSize, frameBytes);
      AdvanceClock();
    }

    /** First critical section of pump. */
    method AdmitNext(t: uint32, now: real) returns (go: bool)
      requires Valid() && pending == None
      modifies this, ledger, ledger.txPackets, controller.heap, controller.rtpQueue, controller.rtpQueue.items
      ensures Valid() && state == Perform(old(state), Action.AdmitNext(t))
      ensures go <==> pending.Some?
    {
      hide InFlightLedger.Valid, InFlightLedger.Abs, ScreamController.Valid, Safe, CarriesAll, Accounted;
      ghost var s := state;
      SafeParts(s);
      StepSafe(s, Action.AdmitNext(t));
      CarriesFront(controller.rtpQueue.contents, s.queue);
      var size := NextSize();
      var r := ledger.IsOkToTransmit(t, size, cwnd, headroom, mss);
      go := false;
      if r != 0.0 {
        state := Perform(s, Action.AdmitNext(t));
        return;
      }
      var p, bytes, delay := controller.DequeueRtp(MAX_PACKET, now);
      if p.Some? && |bytes| > 0 {
        pending := p;
        go := true;
      }
      state := Perform(s, Action.AdmitNext(t));
    }

    method NextSize() returns (size: int)
      requires controller.Valid()
      ensures size == FrontSize(controller.rtpQueue.contents)
    {
      size := controller.rtpQueue.SizeOfNextRtp();
    }

    /** The ledger's part of addTransmitted. */
    method AddTransmitted(t: uint32, paceInterval: uint32)
      requires Valid() && pending.Some?
      modifies this, ledger, ledger.txPackets
      ensures Valid() && pending == None && cwnd == old(cwnd) && mss == old(mss)
      ensures state == Perform(old(state), Action.Commit(t, Wrap32(t + paceInterval)))
    {
      hide InFlightLedger.Valid, InFlightLedger.Abs, ScreamController.Valid, Safe, CarriesAll, Accounted, Transmit,
           TallyTransmit;
      ghost var s := state;
      SafeParts(s);
      StepSafe(s, Action.Commit(t, Wrap32(t + paceInterval)));
      var p := pending.value;
      ledger.AddTransmitted(t, Min(p.size, MAX_PACKET), p.seqNr, p.isMark, p.timeStamp, paceInterval);
      pending := None;
      state := Perform(s, Action.Commit(t, Wrap32(t + paceInterval)));
    }

    /** Second critical section of pump, after the packet has left: addTransmitted, which also makes room in the window for
        packets of this size. */
    method Commit(t: uint32, paceInterval: uint32)
      requires Valid() && pending.Some?
      modifies this, ledger, ledger.txPackets
      ensures Valid() && pending == None
      ensures mss == Max(old(mss), Min(old(pending).value.size, MAX_PACKET))
      ensures cwnd == Max(old(cwnd), Max(cwndMinLow, 2 * mss))
      ensures state == RunOf(old(state), [Action.Commit(t, Wrap32(t + paceInterval)), Action.NewWindow(cwnd, headroom, mss)])
    {
      hide Valid, Perform, RunOf, Wrap32;
      Shape();
      ghost var s, c := state, Action.Commit(t, Wrap32(t + paceInterval));
      var size := Min(pending.value.size, MAX_PACKET);
      AddTransmitted(t, paceInterval);
      var mss' := Max(mss, size);
      var cwnd' := Max(cwnd, Max(cwndMinLow, 2 * mss'));
      RunOfNothing(s);
      RunOfOneMore(s, [], c);
      RunOfOneMore(s, [c], Action.NewWindow(cwnd', headroom, mss'));
      assert [] + [c] == [c] && [c] + [Action.NewWindow(cwnd', headroom, mss')] == [c, Action.NewWindow(cwnd', headroom, mss')];
      NewWindow(cwnd', headroom, mss');
    }

    /** The critical section of rtcpLoop; it may come between the two sections of pump. */
    method IncomingFeedback(buf: array<byte>, size: nat)
      requires Valid() && buf as object != ledger.txPackets
      requires size <= buf.Length && Parse(buf[..size]).Some?
      modifies this, ledger, ledger.txPackets
      ensures Valid() && pending == old(pending)
      ensures var m := Parse(old(buf[..size])).value;
              state == Perform(old(state), HandleFeedback(ssrc, m.timestamp, m.blocks))
    {
      hide InFlightLedger.Valid, InFlightLedger.Abs, ScreamController.Valid, Safe, CarriesAll, Accounted, Parse, Run,
           FeedbackEvents;
      ghost var s, m := state, Parse(buf[..size]).value;
      SafeParts(s);
      StepSafe(s, HandleFeedback(ssrc, m.timestamp, m.blocks));
      IncomingStandardizedFeedback(ledger, ssrc, buf, size);
      state := Perform(s, HandleFeedback(ssrc, m.timestamp, m.blocks));
    }

    /** The window gate of the next admissions, after a window update. */
    method NewWindow(cwnd_: int, headroom_: real, mss_: int)
      requires Valid()
      modifies this
      ensures Valid() && state == Perform(old(state), Action.NewWindow(cwnd_, headroom_, mss_))
      ensures cwnd == cwnd_ && headroom == headroom_ && mss == mss_
      ensures rtpTimestamp == old(rtpTimestamp) && pending == old(pending)
    {
      hide InFlightLedger.Valid, InFlightLedger.Abs, ScreamController.Valid, Safe, CarriesAll, Accounted;
      ghost var s := state;
      SafeParts(s);
      StepSafe(s, Action.NewWindow(cwnd_, headroom_, mss_));
      cwnd, headroom, mss := cwnd_, headroom_, mss_;
      state := Perform(s, Action.NewWindow(cwnd_, headroom_, mss_));
    }

    /** The rate counters start again. */
    method NewRatePeriod()
      requires Valid()
      modifies this, ledger
      ensures Valid() && state == Perform(old(state), Action.NewRatePeriod)
    {
      hide InFlightLedger.Valid, InFlightLedger.Abs, ScreamController.Valid, Safe, CarriesAll, Accounted;
      ghost var s := state;
      SafeParts(s);
      StepSafe(s, Action.NewRatePeriod);
      ledger.UpdateRateInPlace();
      state := Perform(s, Action.NewRatePeriod);
    }

    /** The queue is discarded. */
    method DiscardQueue()
      requires Valid()
      modifies this, controller.heap, controller.rtpQueue, controller.rtpQueue.items
      ensures Valid() && state == Perform(old(state), Clear)
      ensures rtpTimestamp == old(rtpTimestamp) && cwnd == old(cwnd) && mss == old(mss)
    {
      hide InFlightLedger.Valid, InFlightLedger.Abs, ScreamController.Valid, Safe, Accounted;
      ghost var s := state;
      SafeParts(s);
      StepSafe(s, Clear);
      var freed := controller.Discard();
      state := Perform(s, Clear);
    }
  }

  /** Cuts, with some of the frame still to come. */
  ghost predicate CutSoFar(f: seq<Fragment>, payloadSize: int, frameBytes: int, remaining: int) {
    && Payload(f) == frameBytes - remaining
    && (forall i :: 0 <= i < |f| ==> 1 <= f[i].payload <= MAX_PACKET - HEADER)
    && (forall i :: 0 <= i < |f| ==> (f[i].marker <==> i == |f| - 1 && remaining == 0))
    && (forall i :: 0 <= i < |f| && (i < |f| - 1 || remaining > 0) ==>
          f[i].payload == Min(payloadSize, MAX_PACKET - HEADER))
  }

  lemma CutOne(f: seq<Fragment>, payloadSize: int, frameBytes: int, remaining: int, psize: int, marker: bool)
    requires payloadSize >= 64 && remaining > 0 && CutSoFar(f, payloadSize, frameBytes, remaining)
    requires psize == Min(Min(payloadSize, remaining), MAX_PACKET - HEADER) && marker == (remaining - psize <= 0)
    ensures CutSoFar(f + [Fragment(psize, marker)], payloadSize, frameBytes, remaining - psize)
  {
    hide Payload;
    PayloadOneMore(f, Fragment(psize, marker));
  }

  lemma PayloadOneMore(f: seq<Fragment>, x: Fragment)
    ensures Payload(f + [x]) == Payload(f) + x.payload
  {
    assert (f + [x])[..|f|] == f;
  }

  lemma CutNone(payloadSize: int, frameBytes: int)
    requires frameBytes > 0
    ensures CutSoFar([], payloadSize, frameBytes, frameBytes)
  {
  }

  lemma CutAll(f: seq<Fragment>, payloadSize: int, frameBytes: int)
    requires CutSoFar(f, payloadSize, frameBytes, 0)
    ensures Cuts(f, payloadSize, frameBytes)
  {
  }

  /** Nothing is generated or sent, and no feedback is read. */
  ghost predicate Silent(actions: seq<Action>) {
    forall i :: 0 <= i < |actions| ==> actions[i] == Clear || actions[i].NewWindow?
  }

  /** The generating actions, in order, are those of the fragments, and the other ones are silent. */
  ghost predicate Generates(actions: seq<Action>, f: seq<Fragment>, ts: uint32) {
    if actions == [] then f == []
    else
      var n := |actions| - 1;
      if actions[n].Generate? then
        && f != [] && actions[n].size == f[|f| - 1].payload + HEADER && actions[n].mark == f[|f| - 1].marker
        && actions[n].ts == ts && Generates(actions[..n], f[..|f| - 1], ts)
      else
        Silent([actions[n]]) && Generates(actions[..n], f, ts)
  }

  lemma GeneratesNothing(ts: uint32)
    ensures Generates([], [], ts)
  {
  }

  lemma {:induction false} GeneratesSilent(actions: seq<Action>, f: seq<Fragment>, ts: uint32, effects: seq<Action>)
    requires Generates(actions, f, ts) && Silent(effects)
    ensures Generates(actions + effects, f, ts)
  {
    if effects == [] {
      assert actions + effects == actions;
    } else {
      var n := |effects| - 1;
      GeneratesSilent(actions, f, ts, effects[..n]);
      assert (actions + effects)[..|actions| + n] == actions + effects[..n];
    }
  }

  lemma GeneratesOne(actions: seq<Action>, f: seq<Fragment>, ts: uint32, a: Action, x: Fragment, effects: seq<Action>)
    requires Generates(actions, f, ts) && Silent(effects)
    requires a.Generate? && a.size == x.payload + HEADER && a.mark == x.marker && a.ts == ts
    ensures Generates(actions + ([a] + effects), f + [x], ts)
  {
    assert (actions + [a])[..|actions|] == actions && (f + [x])[..|f|] == f;
    GeneratesSilent(actions + [a], f + [x], ts, effects);
    assert actions + ([a] + effects) == actions + [a] + effects;
  }

  lemma {:induction false} RunOfAppend(s: State, a: seq<Action>, b: seq<Action>)
    requires |s.ledger.slots| == 4096
    ensures RunOf(s, a + b) == RunOf(RunOf(s, a), b)
  {
    hide Perform;
    if b == [] {
      assert a + b == a;
    } else {
      assert (a + b)[..|a + b| - 1] == a + b[..|b| - 1];
      RunOfAppend(s, a, b[..|b| - 1]);
    }
  }

  lemma RunOfNothing(s: State)
    requires |s.ledger.slots| == 4096
    ensures RunOf(s, []) == s
  {
  }

  lemma RunOfOneMore(s: State, actions: seq<Action>, a: Action)
    requires |s.ledger.slots| == 4096
    ensures RunOf(s, actions + [a]) == Perform(RunOf(s, actions), a)
  {
    hide Perform;
    assert (actions + [a])[..|actions|] == actions;
  }

}
