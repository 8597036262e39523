/** The target bitrate of one stream as the encoder sees it: limits, hysteresis, refresh requests, and the histogram of frame sizes. */
module EncoderRate {
  import opened Serial

  /** The rate state of a stream whose rate scale is fixed at 1. */
  datatype Encoder = Encoder(
    minBitrate: real, maxBitrate: real, hysteresis: real,
    targetBitrate: real, targetBitrateH: real,
    rtpQueueDiscard: bool, repairLoss: bool, wasRepairLoss: bool)

  /** The rate share, reduced while the queue grows, within the limits of the stream. */
  function Target(e: Encoder, rateShare: real, rateAdjustFactor: real): real
    requires rateAdjustFactor >= 0.0
  {
    MinReal(e.maxBitrate, MaxReal(e.minBitrate, rateShare / (1.0 + rateAdjustFactor)))
  }

  /** Rate t serves the share, reduced by the factor: exactly within the limits min and max, else it is the limit passed. */
  ghost predicate Serves(t: real, rateShare: real, rateAdjustFactor: real, min: real, max: real) {
    if rateShare < min * (1.0 + rateAdjustFactor) then t == min
    else if rateShare > max * (1.0 + rateAdjustFactor) then t == max
    else t * (1.0 + rateAdjustFactor) == rateShare
  }

  /** The target serves the share, and no rate within the limits is nearer to what the share asks for. */
  lemma TargetServes(e: Encoder, rateShare: real, rateAdjustFactor: real)
    requires e.minBitrate <= e.maxBitrate && rateAdjustFactor >= 0.0
    ensures var t := Target(e, rateShare, rateAdjustFactor);
            && Serves(t, rateShare, rateAdjustFactor, e.minBitrate, e.maxBitrate)
            && e.minBitrate <= t <= e.maxBitrate
  {
    QuotientIff(rateShare, 1.0 + rateAdjustFactor, e.minBitrate);
    QuotientIff(rateShare, 1.0 + rateAdjustFactor, e.maxBitrate);
  }

  lemma TargetNearest(e: Encoder, rateShare: real, rateAdjustFactor: real, x: real)
    requires e.minBitrate <= x <= e.maxBitrate && rateAdjustFactor >= 0.0
    ensures var (t, wanted) := (Target(e, rateShare, rateAdjustFactor), rateShare / (1.0 + rateAdjustFactor));
            (if t <= wanted then wanted - t else t - wanted) <= (if x <= wanted then wanted - x else x - wanted)
  {
  }

  /** A larger share never lowers the target. */
  lemma TargetMonotone(e: Encoder, less: real, more: real, rateAdjustFactor: real)
    requires less <= more && rateAdjustFactor >= 0.0
    ensures Target(e, less, rateAdjustFactor) <= Target(e, more, rateAdjustFactor)
  {
    var d := 1.0 + rateAdjustFactor;
    QuotientIff(less, d, more / d);
    QuotientIff(more, d, more / d);
  }

  /** Move from h to t only for more than the hysteresis up, or a quarter of it down. */
  function Held(t: real, h: real, hysteresis: real): real
    requires h != 0.0
  {
    var diff := (t - h) / h;
    if diff > hysteresis || diff < -hysteresis / 4.0 then t else h
  }

  function UpdateTarget(e: Encoder, rateShare: real, rateAdjustFactor: real): Encoder
    requires e.targetBitrateH != 0.0 && rateAdjustFactor >= 0.0
  {
    var t := Target(e, rateShare, rateAdjustFactor);
    e.(targetBitrate := t, targetBitrateH := Held(t, e.targetBitrateH, e.hysteresis))
  }

  /** getTargetBitrate: the rate, or -1 to ask for a refresh after a loss. */
  function Query(e: Encoder): (Encoder, real) {
    var request := (e.rtpQueueDiscard || e.repairLoss) && !e.wasRepairLoss;
    (e.(rtpQueueDiscard := false, repairLoss := false, wasRepairLoss := request),
     if request then -1.0 else e.targetBitrateH)
  }

  /** H is a rate the stream allows, and the target is no more than the hysteresis away from it. */
  ghost predicate InBand(e: Encoder) {
    && 0.0 < e.minBitrate <= e.maxBitrate && e.hysteresis >= 0.0
    && e.minBitrate <= e.targetBitrateH <= e.maxBitrate
    && e.minBitrate <= e.targetBitrate <= e.maxBitrate
    && Near(e.targetBitrate, e.targetBitrateH, e.hysteresis)
  }

  ghost predicate Near(t: real, h: real, hysteresis: real) {
    h * (1.0 - hysteresis / 4.0) <= t <= h * (1.0 + hysteresis)
  }

  lemma NearIff(t: real, h: real, hysteresis: real)
    requires h > 0.0
    ensures Near(t, h, hysteresis) <==> -hysteresis / 4.0 <= (t - h) / h <= hysteresis
  {
    var d := (t - h) / h;
    assert d * h == t - h;
    assert Near(t, h, hysteresis) <==> -(hysteresis / 4.0) * h <= d * h <= hysteresis * h;
    Cancel(-(hysteresis / 4.0), d, h);
    Cancel(d, hysteresis, h);
  }

  lemma Cancel(a: real, b: real, h: real)
    requires h > 0.0
    ensures a <= b <==> a * h <= b * h
  {
    assert (b - a) * h == b * h - a * h;
    if a > b {
      assert (a - b) * h > 0.0;
    } else {
      assert (b - a) * h >= 0.0;
    }
  }

  lemma NearItself(t: real, hysteresis: real)
    requires t > 0.0 && hysteresis >= 0.0
    ensures Near(t, t, hysteresis)
  {
    NearIff(t, t, hysteresis);
    assert (t - t) / t == 0.0;
  }

  /** H moves exactly when staying would leave the band, and then to the target. */
  lemma HeldStays(t: real, h: real, hysteresis: real)
    requires t > 0.0 && h > 0.0 && hysteresis >= 0.0
    ensures Near(t, Held(t, h, hysteresis), hysteresis)
    ensures Held(t, h, hysteresis) == if Near(t, h, hysteresis) then h else t
  {
    hide Near;
    NearIff(t, h, hysteresis);
    NearItself(t, hysteresis);
  }

  lemma UpdateInBand(e: Encoder, rateShare: real, rateAdjustFactor: real)
    requires InBand(e) && rateAdjustFactor >= 0.0
    ensures InBand(UpdateTarget(e, rateShare, rateAdjustFactor))
  {
    hide Near, Held;
    HeldStays(Target(e, rateShare, rateAdjustFactor), e.targetBitrateH, e.hysteresis);
  }

  // ---------- Runs ----------

  datatype Event =
    | NewShare(rateShare: real, rateAdjustFactor: real)
    | LossDetected
    | QueueDiscarded
    | Asked

  function Step(e: Encoder, v: Event): Encoder
    requires e.targetBitrateH != 0.0
    requires v.NewShare? ==> v.rateAdjustFactor >= 0.0
  {
    match v
    case NewShare(rateShare, rateAdjustFactor) => UpdateTarget(e, rateShare, rateAdjustFactor)
    case LossDetected => e.(repairLoss := true)
    case QueueDiscarded => e.(rtpQueueDiscard := true)
    case Asked => Query(e).0
  }

  ghost predicate Possible(events: seq<Event>) {
    forall k :: 0 <= k < |events| ==> events[k].NewShare? ==> events[k].rateAdjustFactor >= 0.0
  }

  ghost function After(e: Encoder, events: seq<Event>): (r: Encoder)
    requires InBand(e) && Possible(events)
    ensures InBand(r)
  {
    if events == [] then e
    else
      var before := After(e, events[..|events| - 1]);
      StepInBand(before, events[|events| - 1]);
      Step(before, events[|events| - 1])
  }

  lemma StepInBand(e: Encoder, v: Event)
    requires InBand(e) && (v.NewShare? ==> v.rateAdjustFactor >= 0.0)
    ensures InBand(Step(e, v))
  {
    if v.NewShare? {
      UpdateInBand(e, v.rateShare, v.rateAdjustFactor);
    }
  }

  /** The answers to all queries of a run, in order. */
  ghost function Answers(e: Encoder, events: seq<Event>): seq<real>
    requires InBand(e) && Possible(events)
  {
    if events == [] then []
    else
      var n := |events| - 1;
      Answers(e, events[..n]) + if events[n].Asked? then [Query(After(e, events[..n])).1] else []
  }

  /** Over every run, each answer is -1 or a rate within the limits, and never are two successive answers -1. */
  lemma {:induction false} AnswersInBand(e: Encoder, events: seq<Event>)
    requires InBand(e) && Possible(events)
    ensures var a := Answers(e, events);
            && (forall i :: 0 <= i < |a| ==> a[i] == -1.0 || e.minBitrate <= a[i] <= e.maxBitrate)
            && (forall i :: 0 <= i < |a| - 1 ==> a[i] != -1.0 || a[i + 1] != -1.0)
            && (a != [] ==> (After(e, events).wasRepairLoss <==> a[|a| - 1] == -1.0))
    ensures After(e, events).minBitrate == e.minBitrate && After(e, events).maxBitrate == e.maxBitrate
  {
    hide InBand, Query, Step;
    if events != [] {
      var n := |events| - 1;
      AnswersInBand(e, events[..n]);
      QueryInBand(After(e, events[..n]), events[n]);
    }
  }

  lemma QueryInBand(e: Encoder, v: Event)
    requires InBand(e) && (v.NewShare? ==> v.rateAdjustFactor >= 0.0)
    ensures Query(e).1 == -1.0 || e.minBitrate <= Query(e).1 <= e.maxBitrate
    ensures Query(e).1 == -1.0 ==> !e.wasRepairLoss
    ensures Step(e, v).wasRepairLoss == if v.Asked? then Query(e).1 == -1.0 else e.wasRepairLoss
    ensures Step(e, v).minBitrate == e.minBitrate && Step(e, v).maxBitrate == e.maxBitrate
  {
    hide Near, Target, Held;
  }

  lemma {:induction false} TargetStays(e: Encoder, events: seq<Event>, k: nat)
    requires InBand(e) && Possible(events) && k < |events| && events[k].NewShare?
    requires forall i :: k < i < |events| ==> !events[i].NewShare?
    ensures After(e, events).targetBitrate == Target(e, events[k].rateShare, events[k].rateAdjustFactor)
    ensures After(e, events).minBitrate == e.minBitrate && After(e, events).maxBitrate == e.maxBitrate
    ensures After(e, events).hysteresis == e.hysteresis
  {
    hide InBand, Held;
    var n := |events| - 1;
    LimitsStay(e, events[..n]);
    if k < n {
      TargetStays(e, events[..n], k);
    }
  }

  lemma {:induction false} LimitsStay(e: Encoder, events: seq<Event>)
    requires InBand(e) && Possible(events)
    ensures After(e, events).minBitrate == e.minBitrate && After(e, events).maxBitrate == e.maxBitrate
    ensures After(e, events).hysteresis == e.hysteresis
  {
    hide InBand, Target, Held;
    if events != [] {
      LimitsStay(e, events[..|events| - 1]);
    }
  }

  /** Over every run, a query after a share is answered by -1, or by a rate in whose band the rate lies that serves the
      latest share. */
  lemma AnswersFollow(e: Encoder, events: seq<Event>, k: nat) returns (t: real)
    requires InBand(e) && Possible(events) && k < |events| && events[k].NewShare?
    requires forall i :: k < i < |events| ==> !events[i].NewShare?
    ensures Serves(t, events[k].rateShare, events[k].rateAdjustFactor, e.minBitrate, e.maxBitrate)
    ensures var answer := Query(After(e, events)).1; answer == -1.0 || Near(t, answer, e.hysteresis)
  {
    t := Target(e, events[k].rateShare, events[k].rateAdjustFactor);
    TargetStays(e, events, k);
    TargetServes(e, events[k].rateShare, events[k].rateAdjustFactor);
    hide Near, Target, Serves;
  }

  /** A loss is signalled at the next query unless the query before it asked for a refresh already; then it is forgotten. */
  lemma LossSignalled(e: Encoder)
    requires InBand(e)
    ensures Query(Step(e, LossDetected)).1 == -1.0 <==> !e.wasRepairLoss
    ensures e.wasRepairLoss ==>
              var later := Query(Step(e, LossDetected)).0;
              !later.repairLoss && !later.rtpQueueDiscard && Query(later).1 == e.targetBitrateH
  {
  }

  /** Nothing lost or discarded since the last query. */
  ghost predicate Settled(e: Encoder) { !e.rtpQueueDiscard && !e.repairLoss }

  ghost predicate Trouble(events: seq<Event>) {
    exists i :: 0 <= i < |events| && (events[i].LossDetected? || events[i].QueueDiscarded?)
  }

  lemma TroubleSnoc(events: seq<Event>)
    requires events != []
    ensures var v := events[|events| - 1];
            Trouble(events) <==> Trouble(events[..|events| - 1]) || v.LossDetected? || v.QueueDiscarded?
  {
    var front := events[..|events| - 1];
    if Trouble(front) {
      var i :| 0 <= i < |front| && (front[i].LossDetected? || front[i].QueueDiscarded?);
      assert events[i] == front[i];
    }
  }

  lemma {:induction false} TroubleKept(e: Encoder, events: seq<Event>)
    requires InBand(e) && Possible(events) && Settled(e) && forall i :: 0 <= i < |events| ==> !events[i].Asked?
    ensures var r := After(e, events);
            (r.rtpQueueDiscard || r.repairLoss <==> Trouble(events)) && r.wasRepairLoss == e.wasRepairLoss
  {
    hide InBand, UpdateTarget;
    if events != [] {
      TroubleKept(e, events[..|events| - 1]);
      TroubleSnoc(events);
      TargetOnly(After(e, events[..|events| - 1]), events[|events| - 1]);
    }
  }

  lemma TargetOnly(e: Encoder, v: Event)
    requires InBand(e) && (v.NewShare? ==> v.rateAdjustFactor >= 0.0)
    ensures v.NewShare? ==>
              var r := Step(e, v);
              r.rtpQueueDiscard == e.rtpQueueDiscard && r.repairLoss == e.repairLoss && r.wasRepairLoss == e.wasRepairLoss
  {
  }

  /** From one query to the next: the answer is -1 if and only if packets were lost or the queue was discarded in between and
      the answer before was not -1; otherwise it is the rate held. Afterwards nothing is pending. */
  lemma RefreshIff(e: Encoder, events: seq<Event>)
    requires InBand(e) && Possible(events) && Settled(e) && forall i :: 0 <= i < |events| ==> !events[i].Asked?
    ensures var (r, answer) := Query(After(e, events));
            && answer == (if Trouble(events) && !e.wasRepairLoss then -1.0 else After(e, events).targetBitrateH)
            && (answer == -1.0 <==> Trouble(events) && !e.wasRepairLoss)
            && Settled(r) && (r.wasRepairLoss <==> answer == -1.0)
  {
    TroubleKept(e, events);
    hide Trouble, After;
  }

  // ---------- In place ----------

  /** The rate fields of a stream. */
  class StreamRate {
    const minBitrate: real
    const maxBitrate: real
    const hysteresis: real
    var targetBitrate: real
    var targetBitrateH: real
    var rtpQueueDiscard: bool
    var repairLoss: bool
    var wasRepairLoss: bool

    function View(): Encoder
      reads this
    {
      Encoder(minBitrate, maxBitrate, hysteresis, targetBitrate, targetBitrateH, rtpQueueDiscard, repairLoss, wasRepairLoss)
    }

    constructor (min: real, start: real, max: real, h: real)
      requires 0.0 < min <= max && h >= 0.0
      ensures InBand(View()) && !wasRepairLoss
      ensures targetBitrate == targetBitrateH == MinReal(max, MaxReal(min, start)) && Settled(View())
    {
      NearItself(MinReal(max, MaxReal(min, start)), h);
      minBitrate, maxBitrate, hysteresis := min, max, h;
      targetBitrate := MinReal(max, MaxReal(min, start));
      targetBitrateH := MinReal(max, MaxReal(min, start));
      rtpQueueDiscard, repairLoss, wasRepairLoss := false, false, false;
    }

    method GetTargetBitrate() returns (rate: real)
      modifies this
      ensures (View(), rate) == Query(old(View()))
    {
      var requestRefresh := rtpQueueDiscard || repairLoss;
      rtpQueueDiscard := false;
      repairLoss := false;
      if requestRefresh && !wasRepairLoss {
        wasRepairLoss := true;
        return -1.0;
      }
      rate := targetBitrateH;
      wasRepairLoss := false;
    }

    method UpdateTargetBitrate(rateShare: real, rateAdjustFactor: real)
      requires InBand(View()) && rateAdjustFactor >= 0.0
      modifies this
      ensures View() == UpdateTarget(old(View()), rateShare, rateAdjustFactor) && InBand(View())
      ensures Serves(targetBitrate, rateShare, rateAdjustFactor, minBitrate, maxBitrate)
      ensures targetBitrateH == if Near(targetBitrate, old(targetBitrateH), hysteresis) then old(targetBitrateH) else targetBitrate
    {
      hide Near;
      TargetServes(View(), rateShare, rateAdjustFactor);
      HeldStays(Target(View(), rateShare, rateAdjustFactor), targetBitrateH, hysteresis);
      UpdateInBand(View(), rateShare, rateAdjustFactor);
      targetBitrate := MinReal(maxBitrate, MaxReal(minBitrate, rateShare / (1.0 + rateAdjustFactor)));
      var diff := (targetBitrate - targetBitrateH) / targetBitrateH;
      if diff > hysteresis || diff < -hysteresis / 4.0 {
        targetBitrateH := targetBitrate;
      }
    }
  }

  // ---------- The histogram of frame sizes ----------

  function Mass(h: seq<real>): real {
    if h == [] then 0.0 else Mass(h[..|h| - 1]) + h[|h| - 1]
  }

  ghost predicate NonNegative(h: seq<real>) { forall i :: 0 <= i < |h| ==> h[i] >= 0.0 }

  lemma {:induction false} MassMonotone(h: seq<real>, n: nat)
    requires NonNegative(h) && n <= |h|
    ensures 0.0 <= Mass(h[..n]) <= Mass(h)
  {
    if n < |h| {
      MassMonotone(h[..|h| - 1], n);
      assert h[..|h| - 1][..n] == h[..n];
    } else if n > 0 {
      MassMonotone(h[..n - 1], n - 1);
      assert h[..n] == h && h[..n - 1][..n - 1] == h[..n - 1];
    } else {
      assert h[..n] == [];
    }
  }

  /** The 80 % point of the histogram: the first bin up to which at least that share of the frames lies. */
  method Percentile(hist: array<real>) returns (ix: nat)
    requires hist.Length > 0 && NonNegative(hist[..])
    ensures ix < hist.Length
    ensures Mass(hist[..ix + 1]) >= 0.8 * Mass(hist[..])
    ensures forall k :: 1 <= k <= ix ==> Mass(hist[..k]) < 0.8 * Mass(hist[..])
  {
    var sum := 0.0;
    for n := 0 to hist.Length
      invariant sum == Mass(hist[..n])
    {
      assert hist[..n + 1][..n] == hist[..n];
      sum := sum + hist[n];
    }
    assert hist[..hist.Length] == hist[..];
    var mark := sum * 0.8;
    ix := 1;
    sum := hist[0];
    assert hist[..1] == [hist[0]];
    while sum < mark && ix < hist.Length
      invariant 1 <= ix <= hist.Length && sum == Mass(hist[..ix]) && mark == 0.8 * Mass(hist[..])
      invariant forall k :: 1 <= k < ix ==> Mass(hist[..k]) < mark
      decreases hist.Length - ix
    {
      assert hist[..ix + 1][..ix] == hist[..ix];
      sum := sum + hist[ix];
      ix := ix + 1;
    }
    MassMonotone(hist[..], hist.Length);
    ix := ix - 1;
  }
}
