/** Which feedback blocks the window reacts to, and how often. */
module CongestionEvents {
  import opened Serial
  import opened WindowMath

  /** What a window update reacts to. */
  datatype Reaction = Calm | OnLoss | OnMarks | OnQueue

  /** What one feedback block tells the window: its time, whether it has CE marks, whether packets were lost, and whether
      every packet was marked lately. */
  datatype Digest = Digest(time: uint32, net: Net, isCe: bool, lost: bool, allMarked: bool)

  /** The pause after an event: 30 ms or one round trip, whichever is less. */
  function Pause(net: Net): int { Min(1966, net.sRttNtp) }

  /** A standing queue: the average delay is above half the target. */
  predicate Standing(net: Net) { net.queueDelayAvg > net.queueDelayTarget / 2.0 }

  /** The reaction to a block when the last event was at time last. A loss comes first. CE marks count after the pause,
      unless the round trip falls while everything is marked; a standing queue counts after the pause in a block without. */
  function ReactionTo(last: uint32, d: Digest): Reaction {
    var spaced := Sub32(d.time, last) > Pause(d.net);
    if d.lost then OnLoss
    else if d.isCe && spaced then (if d.net.sRttFalls && d.allMarked then Calm else OnMarks)
    else if Standing(d.net) && spaced then OnQueue
    else Calm
  }

  /** When the last event was after a block. */
  function LastEvent(last: uint32, d: Digest): uint32 { if IsEvent(last, d) then d.time else last }

  /** A reaction, or a CE mark after the pause that falls with the round trip. */
  predicate IsEvent(last: uint32, d: Digest) {
    ReactionTo(last, d) != Calm || (d.isCe && Sub32(d.time, last) > Pause(d.net))
  }

  // ---------- Every run ----------

  /** The reactions to a sequence of blocks. */
  function Reactions(last: uint32, blocks: seq<Digest>): (r: seq<Reaction>)
    ensures |r| == |blocks|
  {
    if blocks == [] then []
    else
      var n := |blocks| - 1;
      Reactions(last, blocks[..n]) + [ReactionTo(EventTime(last, blocks[..n]), blocks[n])]
  }

  function EventTime(last: uint32, blocks: seq<Digest>): uint32 {
    if blocks == [] then last else LastEvent(EventTime(last, blocks[..|blocks| - 1]), blocks[|blocks| - 1])
  }

  /** The blocks come at the unbounded times at, in order, all within one cycle of the clock after start. */
  ghost predicate Timed(start: int, blocks: seq<Digest>, at: seq<int>) {
    && |at| == |blocks|
    && (forall i :: 0 <= i < |at| ==> start <= at[i] < start + 4294967296 && blocks[i].time == Wrap32(at[i]))
    && (forall i, j :: 0 <= i < j < |at| ==> at[i] <= at[j])
  }

  /** More than 30 ms or one round trip after time before, a block with CE marks, and not while the round trip falls with all
      marked; or one without, while the average queue delay is above half the target. */
  ghost predicate AlarmsAfter(d: Digest, now: int, before: int) {
    && (now - before > 1966 || now - before > d.net.sRttNtp)
    && if d.isCe then !(d.net.sRttFalls && d.allMarked) else d.net.queueDelayAvg > d.net.queueDelayTarget / 2.0
  }

  /** The reaction that such a block calls for. */
  function Alarm(d: Digest): Reaction { if d.lost then OnLoss else if d.isCe then OnMarks else OnQueue }

  function TimeBefore(start: int, at: seq<int>, i: nat): int
    requires i <= |at|
  {
    if i == 0 then start else at[i - 1]
  }

  /** Such blocks, each apart from the one before. */
  ghost predicate AlarmsApart(start: int, blocks: seq<Digest>, at: seq<int>)
    requires |at| == |blocks|
  {
    forall i :: 0 <= i < |blocks| ==> AlarmsAfter(blocks[i], at[i], TimeBefore(start, at, i))
  }

  lemma Elapsed(at: int, now: int)
    requires 0 <= now - at < 4294967296
    ensures Sub32(Wrap32(now), Wrap32(at)) == now - at
  {
    var p: int, q: int := now / 4294967296, at / 4294967296;
    assert now == 4294967296 * p + Wrap32(now) && at == 4294967296 * q + Wrap32(at);
    assert p - q == 0 || p - q == 1;
  }

  lemma TimedFront(start: int, blocks: seq<Digest>, at: seq<int>)
    requires Timed(start, blocks, at) && blocks != []
    ensures Timed(start, blocks[..|blocks| - 1], at[..|blocks| - 1])
  {
  }

  lemma AlarmsFront(start: int, blocks: seq<Digest>, at: seq<int>)
    requires |at| == |blocks| && AlarmsApart(start, blocks, at) && blocks != []
    ensures AlarmsApart(start, blocks[..|blocks| - 1], at[..|blocks| - 1])
  {
    hide AlarmsAfter;
    var n := |blocks| - 1;
    forall i | 0 <= i < n
      ensures AlarmsAfter(blocks[..n][i], at[..n][i], TimeBefore(start, at[..n], i))
    {
      assert AlarmsAfter(blocks[i], at[i], TimeBefore(start, at, i));
    }
  }

  /** Exactly such blocks, and those with losses, cause a reaction. */
  lemma ReactionIff(before: int, now: int, d: Digest)
    requires 0 <= now - before < 4294967296 && d.time == Wrap32(now)
    ensures ReactionTo(Wrap32(before), d) == if d.lost || AlarmsAfter(d, now, before) then Alarm(d) else Calm
    ensures AlarmsAfter(d, now, before) ==> LastEvent(Wrap32(before), d) == Wrap32(now)
  {
    hide Wrap32, Sub32;
    Elapsed(before, now);
  }

  lemma TimedLast(start: int, blocks: seq<Digest>, at: seq<int>)
    requires Timed(start, blocks, at) && blocks != []
    ensures var n := |blocks| - 1;
            blocks[n].time == Wrap32(at[n]) && 0 <= at[n] - TimeBefore(start, at, n) < 4294967296
  {
    hide Wrap32;
  }

  lemma RunLast(last: uint32, blocks: seq<Digest>)
    requires blocks != []
    ensures var (front, d) := (blocks[..|blocks| - 1], blocks[|blocks| - 1]);
            && Reactions(last, blocks) == Reactions(last, front) + [ReactionTo(EventTime(last, front), d)]
            && EventTime(last, blocks) == LastEvent(EventTime(last, front), d)
  {
    hide ReactionTo, LastEvent;
  }

  /** The reactions of a run are the ones called for. */
  ghost predicate Answered(reactions: seq<Reaction>, blocks: seq<Digest>) {
    |reactions| == |blocks| && forall i :: 0 <= i < |blocks| ==> reactions[i] == Alarm(blocks[i])
  }

  lemma AnsweredSnoc(reactions: seq<Reaction>, blocks: seq<Digest>)
    requires blocks != [] && Answered(reactions, blocks[..|blocks| - 1])
    ensures Answered(reactions + [Alarm(blocks[|blocks| - 1])], blocks)
  {
  }

  lemma TimesBefore(start: int, at: seq<int>)
    requires at != []
    ensures var n := |at| - 1; TimeBefore(start, at[..n], n) == TimeBefore(start, at, n) && TimeBefore(start, at, n + 1) == at[n]
  {
  }

  /** Every one of them causes a reaction. */
  lemma {:induction false} AlarmsAnswered(start: int, blocks: seq<Digest>, at: seq<int>)
    requires Timed(start, blocks, at) && AlarmsApart(start, blocks, at)
    ensures Answered(Reactions(Wrap32(start), blocks), blocks)
    ensures EventTime(Wrap32(start), blocks) == Wrap32(TimeBefore(start, at, |blocks|))
  {
    if blocks != [] {
      var n := |blocks| - 1;
      assert AlarmsAfter(blocks[n], at[n], TimeBefore(start, at, n));
      TimedFront(start, blocks, at);
      AlarmsFront(start, blocks, at);
      TimedLast(start, blocks, at);
      TimesBefore(start, at);
      assert |at| == |blocks|;
      hide *;
      AlarmsAnswered(start, blocks[..n], at[..n]);
      ReactionIff(TimeBefore(start, at, n), at[n], blocks[n]);
      RunLast(Wrap32(start), blocks);
      AnsweredSnoc(Reactions(Wrap32(start), blocks[..n]), blocks);
    }
  }

  /** Losses are taken as events only after a round trip, as the window does. */
  ghost predicate LossesApart(last: uint32, blocks: seq<Digest>) {
    forall i :: 0 <= i < |blocks| && blocks[i].lost ==>
      Sub32(blocks[i].time, EventTime(last, blocks[..i])) > blocks[i].net.sRttNtp
  }

  function CountReactions(r: seq<Reaction>): nat {
    if r == [] then 0 else CountReactions(r[..|r| - 1]) + if r[|r| - 1] == Calm then 0 else 1
  }

  /** One more block: an event more than p after the one before, or none. */
  lemma OneMoreBlock(event: int, now: int, d: Digest, p: nat)
    requires 0 <= now - event < 4294967296 && d.time == Wrap32(now) && p <= 1966 && p <= d.net.sRttNtp
    requires d.lost ==> Sub32(d.time, Wrap32(event)) > d.net.sRttNtp
    ensures IsEvent(Wrap32(event), d) ==> now - event > p && LastEvent(Wrap32(event), d) == Wrap32(now)
    ensures !IsEvent(Wrap32(event), d) ==>
              ReactionTo(Wrap32(event), d) == Calm && LastEvent(Wrap32(event), d) == Wrap32(event)
  {
    hide Wrap32, Sub32, Standing;
    Elapsed(event, now);
  }

  lemma ReactionsSnoc(last: uint32, blocks: seq<Digest>)
    requires blocks != []
    ensures var (front, d) := (blocks[..|blocks| - 1], blocks[|blocks| - 1]);
            CountReactions(Reactions(last, blocks))
            == CountReactions(Reactions(last, front)) + if ReactionTo(EventTime(last, front), d) == Calm then 0 else 1
  {
    hide ReactionTo, EventTime;
    assert Reactions(last, blocks)[..|blocks| - 1] == Reactions(last, blocks[..|blocks| - 1]);
  }

  /** And no window reacts more often than once in 30 ms or one round trip: any number of blocks over a span of time, with
      p no more than either, cause at most span / p reactions. event is the unbounded time of the last event. */
  lemma {:induction false} ReactionsLimited(start: int, blocks: seq<Digest>, at: seq<int>, p: nat) returns (event: int)
    requires Timed(start, blocks, at) && LossesApart(Wrap32(start), blocks)
    requires p <= 1966 && forall i :: 0 <= i < |blocks| ==> p <= blocks[i].net.sRttNtp
    ensures start <= event <= (if blocks == [] then start else at[|at| - 1])
    ensures EventTime(Wrap32(start), blocks) == Wrap32(event)
    ensures CountReactions(Reactions(Wrap32(start), blocks)) * p <= event - start
  {
    hide Wrap32, Sub32, Pause, ReactionTo, IsEvent, LastEvent, CountReactions, Reactions;
    if blocks == [] {
      event := start;
      NoReactions(Wrap32(start));
    } else {
      var n := |blocks| - 1;
      TimedFront(start, blocks, at);
      FrontApart(Wrap32(start), blocks);
      event := ReactionsLimited(start, blocks[..n], at[..n], p);
      ReactionsSnoc(Wrap32(start), blocks);
      OneMoreBlock(event, at[n], blocks[n], p);
      var count := CountReactions(Reactions(Wrap32(start), blocks[..n]));
      assert (count + 1) * p == count * p + p;
      if IsEvent(Wrap32(event), blocks[n]) {
        event := at[n];
      }
    }
  }

  lemma NoReactions(last: uint32)
    ensures CountReactions(Reactions(last, [])) == 0
  {
  }

  lemma FrontApart(last: uint32, blocks: seq<Digest>)
    requires LossesApart(last, blocks) && blocks != []
    ensures LossesApart(last, blocks[..|blocks| - 1])
    ensures var (front, d) := (blocks[..|blocks| - 1], blocks[|blocks| - 1]);
            d.lost ==> Sub32(d.time, EventTime(last, front)) > d.net.sRttNtp
  {
    hide EventTime, Sub32;
    var front := blocks[..|blocks| - 1];
    forall i | 0 <= i < |front| && front[i].lost
      ensures Sub32(front[i].time, EventTime(last, front[..i])) > front[i].net.sRttNtp
    {
      assert front[..i] == blocks[..i];
    }
  }
}
