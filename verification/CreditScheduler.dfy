/** Which stream may transmit next: credits that grow while other streams are served, and the bound they put on waiting. */
module CreditScheduler {
  import opened Options
  import opened Serial

  /** One stream as the scheduler sees it. */
  datatype Lane = Lane(queue: nat, credit: int, creditLost: int, last: uint32, priority: real, priorityInv: real)

  /** The stream in front so far, with its credit and the time since its last transmission. */
  datatype Leader = Leader(who: Option<nat>, credit: int, diff: int)

  /** May go in front of the given leader at time t. */
  predicate Overtakes(l: Lane, lead: Leader, t: uint32) {
    l.queue > 0 && l.credit >= lead.credit && Sub32(t, l.last) > lead.diff
  }

  /** Search by credit: from left to right, overtaking needs no less credit and a longer wait. */
  function Lead(v: seq<Lane>, t: uint32): Leader {
    if v == [] then Leader(None, 1, 0)
    else
      var n := |v| - 1;
      var lead := Lead(v[..n], t);
      if Overtakes(v[n], lead, t) then Leader(Some(n), v[n].credit, Sub32(t, v[n].last)) else lead
  }

  /** Search by priority among the streams with packets: the first one of the highest positive priority. */
  function Favourite(v: seq<Lane>): Option<nat> {
    if v == [] then None
    else
      var n := |v| - 1;
      var best := Favourite(v[..n]);
      if v[n].queue > 0 && v[n].priority > TopPriority(v[..n]) then Some(n) else best
  }

  function TopPriority(v: seq<Lane>): real {
    if v == [] then 0.0
    else if v[|v| - 1].queue > 0 then MaxReal(TopPriority(v[..|v| - 1]), v[|v| - 1].priority)
    else TopPriority(v[..|v| - 1])
  }

  function Chosen(v: seq<Lane>, t: uint32): Option<nat> {
    if |v| == 1 then Some(0)
    else if Lead(v, t).who.Some? then Lead(v, t).who
    else Favourite(v)
  }

  /** Has a packet, credit, and did not transmit at this very instant. */
  predicate Eligible(l: Lane, t: uint32) { l.queue > 0 && l.credit >= 1 && Sub32(t, l.last) >= 1 }

  /** The search by credit finds an eligible stream if there is one, and none with at least its credit waited longer. */
  lemma {:induction false} LeadUndominated(v: seq<Lane>, t: uint32)
    ensures var lead := Lead(v, t);
            && (lead.who == None <==> forall j :: 0 <= j < |v| ==> !Eligible(v[j], t))
            && lead.credit >= 1 && lead.diff >= 0
            && (lead.who == None ==> lead.credit == 1 && lead.diff == 0)
            && (lead.who.Some? ==>
                  && lead.who.value < |v| && Eligible(v[lead.who.value], t)
                  && lead.credit == v[lead.who.value].credit
                  && lead.diff == Sub32(t, v[lead.who.value].last))
            && forall j :: 0 <= j < |v| && v[j].queue > 0 ==> v[j].credit < lead.credit || Sub32(t, v[j].last) <= lead.diff
  {
    hide Sub32;
    if v != [] {
      LeadUndominated(v[..|v| - 1], t);
    }
  }

  /** The search by priority finds the first stream of the highest positive priority, if any stream qualifies. */
  lemma {:induction false} FavouriteIsTop(v: seq<Lane>)
    ensures Favourite(v) == None <==> forall j :: 0 <= j < |v| ==> v[j].queue == 0 || v[j].priority <= 0.0
    ensures TopPriority(v) >= 0.0
    ensures forall j :: 0 <= j < |v| && v[j].queue > 0 ==> v[j].priority <= TopPriority(v)
    ensures Favourite(v).Some? ==>
              var i := Favourite(v).value;
              && i < |v| && v[i].queue > 0 && v[i].priority == TopPriority(v) > 0.0
              && forall j :: 0 <= j < i && v[j].queue > 0 ==> v[j].priority < v[i].priority
    ensures Favourite(v) == None ==> TopPriority(v) == 0.0
  {
    if v != [] {
      FavouriteIsTop(v[..|v| - 1]);
    }
  }

  /** Work conservation: with positive priorities, two or more streams and some packet queued, a stream that has a
      packet is chosen; with no packet queued, none is. */
  lemma ChosenHasPacket(v: seq<Lane>, t: uint32)
    requires |v| != 1 && forall j :: 0 <= j < |v| ==> v[j].priority > 0.0
    ensures Chosen(v, t) == None <==> forall j :: 0 <= j < |v| ==> v[j].queue == 0
    ensures Chosen(v, t).Some? ==> Chosen(v, t).value < |v| && v[Chosen(v, t).value].queue > 0
  {
    LeadUndominated(v, t);
    FavouriteIsTop(v);
  }

  // ---------- Credits ----------

  /** Credit of an unserved stream for bytes transmitted by a stream with the given inverse priority. */
  function Grant(l: Lane, bytes: nat, priorityInv: real): int {
    Truncate(bytes as real * l.priority * priorityInv)
  }

  /** addCredit for one unserved stream; with an empty queue, credit beyond 10 packets is lost. */
  function Give(l: Lane, bytes: nat, priorityInv: real, mss: nat): Lane {
    var credit := l.credit + Grant(l, bytes, priorityInv);
    if l.queue > 0 || credit <= 10 * mss then l.(credit := credit)
    else l.(credit := 10 * mss, creditLost := l.creditLost + credit - 10 * mss)
  }

  /** subtractCredit for the served stream. */
  function Use(l: Lane, bytes: nat): Lane { l.(credit := Max(0, l.credit - bytes)) }

  /** What addTransmitted does to the scheduler's state. */
  function Serve(v: seq<Lane>, served: nat, bytes: nat, t: uint32, mss: nat): (r: seq<Lane>)
    requires served < |v|
    ensures |r| == |v|
    ensures r[served] == var l := v[served].(last := t); if |v| == 1 then l else Use(l, bytes)
    ensures forall i :: 0 <= i < |v| && i != served ==> r[i] == Give(v[i], bytes, v[served].priorityInv, mss)
  {
    var given := GiveAll(v, served, bytes, v[served].priorityInv, mss);
    var l := v[served].(last := t);
    given[served := if |v| == 1 then l else Use(l, bytes)]
  }

  function GiveAll(v: seq<Lane>, served: nat, bytes: nat, inv: real, mss: nat): (r: seq<Lane>)
    ensures |r| == |v|
    ensures forall i :: 0 <= i < |v| && i != served ==> r[i] == Give(v[i], bytes, inv, mss)
  {
    if v == [] then []
    else
      var n := |v| - 1;
      GiveAll(v[..n], served, bytes, inv, mss) + [if n == served then v[n] else Give(v[n], bytes, inv, mss)]
  }

  lemma GrantNonNegative(l: Lane, bytes: nat, inv: real)
    requires l.priority >= 0.0 && inv >= 0.0
    ensures Grant(l, bytes, inv) >= 0
  {
    assert bytes as real * l.priority >= 0.0;
  }

  /** The grant is in proportion to the priorities, rounded down: for bytes of a stream with priority q, a stream with priority
      p gets bytes * p / q. */
  lemma GrantIs(l: Lane, bytes: nat, q: real, inv: real)
    requires l.priority >= 0.0 && q > 0.0 && inv * q == 1.0
    ensures var g := Grant(l, bytes, inv);
            g as real * q <= bytes as real * l.priority < (g + 1) as real * q
  {
    var a := bytes as real * l.priority;
    assert a >= 0.0 && inv > 0.0;
    var x := a * inv;
    assert x * q == a * (inv * q);
    assert x >= 0.0;
    assert Grant(l, bytes, inv) == x.Floor;
    var g := x.Floor;
    assert (x - g as real) * q >= 0.0 && ((g + 1) as real - x) * q > 0.0;
    assert (x - g as real) * q == x * q - g as real * q;
    assert ((g + 1) as real - x) * q == (g + 1) as real * q - x * q;
  }

  /** Credits are never negative, and what an unserved stream is granted is all found in its credit or its lost credit;
      an idle stream holds at most 10 packets of credit. */
  lemma CreditKept(v: seq<Lane>, served: nat, bytes: nat, t: uint32, mss: nat)
    requires served < |v|
    requires forall i :: 0 <= i < |v| ==> v[i].credit >= 0 && v[i].priority >= 0.0 && v[i].priorityInv >= 0.0
    ensures var r := Serve(v, served, bytes, t, mss);
            forall i :: 0 <= i < |v| ==>
              && r[i].credit >= 0
              && (i != served ==>
                    && r[i].credit + r[i].creditLost
                       == v[i].credit + v[i].creditLost + Grant(v[i], bytes, v[served].priorityInv)
                    && r[i].creditLost >= v[i].creditLost
                    && (v[i].queue == 0 ==> r[i].credit <= 10 * mss))
  {
    hide Grant;
    forall i | 0 <= i < |v| ensures Grant(v[i], bytes, v[served].priorityInv) >= 0 {
      GrantNonNegative(v[i], bytes, v[served].priorityInv);
    }
  }

  // ---------- Waiting ----------

  /** One transmission opportunity: queue lengths at that moment, when the stream is picked, when its packet is sent. */
  datatype Round = Round(queues: seq<nat>, pickAt: int, sendAt: int, size: nat, mss: nat)

  function Queued(v: seq<Lane>, queues: seq<nat>): (r: seq<Lane>)
    requires |queues| == |v|
    ensures |r| == |v|
    ensures forall i :: 0 <= i < |v| ==> r[i] == v[i].(queue := queues[i])
  {
    if v == [] then [] else Queued(v[..|v| - 1], queues[..|v| - 1]) + [v[|v| - 1].(queue := queues[|v| - 1])]
  }

  /** Two streams: who is served in each round. */
  function Winners(v: seq<Lane>, rounds: seq<Round>): (w: seq<Option<nat>>)
    requires |v| == 2 && forall r :: r in rounds ==> |r.queues| == 2
    ensures |w| == |rounds|
    decreases |rounds|
  {
    if rounds == [] then [] else
      var r := rounds[0];
      var now := Queued(v, r.queues);
      var c := Chosen(now, Wrap32(r.pickAt));
      var next := if c.Some? && c.value < 2 then Serve(now, c.value, r.size, Wrap32(r.sendAt), r.mss) else now;
      [c] + Winners(next, rounds[1..])
  }

  /** Every packet has bytes and earns the waiting stream x at least one byte of credit. */
  predicate Earns(v: seq<Lane>, x: nat, y: nat, r: Round)
    requires |v| == 2 && x < 2 && y < 2
  {
    r.size >= 1 && Grant(v[x], r.size, v[y].priorityInv) >= 1
  }

  /** Times increase from round to round, and x has waited less than one turn of the 32-bit clock. */
  ghost predicate Timed(rounds: seq<Round>, lastX: int, lastY: int) {
    && (forall k :: 0 <= k < |rounds| ==>
          lastX < rounds[k].pickAt <= rounds[k].sendAt && lastY < rounds[k].pickAt
          && rounds[k].pickAt - lastX < 4294967296 && rounds[k].pickAt - lastY < 4294967296)
    && (forall j, k :: 0 <= j < k < |rounds| ==> rounds[j].sendAt < rounds[k].pickAt)
  }

  /** x has a packet in every round. */
  ghost predicate Backlogged(rounds: seq<Round>, x: nat)
    requires x < 2
  {
    forall k :: 0 <= k < |rounds| ==> |rounds[k].queues| == 2 && rounds[k].queues[x] > 0
  }

  /** A waiting time below one turn of the clock is read correctly. */
  lemma Waited(t: int, last: int)
    requires 0 <= t - last < 4294967296
    ensures Sub32(Wrap32(t), Wrap32(last)) == t - last
  {
    var a: int := t / 4294967296;
    var b: int := last / 4294967296;
    var d: int := Wrap32(t) as int - Wrap32(last) as int;
    assert d == (t - last) - 4294967296 * (a - b);
  }

  /** Once x has credit and waited longer than y, y can only win from the lower index and with more credit. */
  lemma WinNeedsCredit(v: seq<Lane>, t: uint32, x: nat, y: nat)
    requires |v| == 2 && x < 2 && y == 1 - x
    requires v[x].queue > 0 && v[x].credit >= 1 && Sub32(t, v[x].last) > Sub32(t, v[y].last)
    ensures Chosen(v, t) == Some(x) || (Chosen(v, t) == Some(y) && v[y].credit > v[x].credit)
  {
    hide Sub32;
    LeadUndominated(v, t);
    assert Eligible(v[x], t);
    var lead := Lead(v, t);
    assert lead.who == Some(x) || lead.who == Some(y);
  }

  /** What one service of y does to the two streams. */
  lemma ServeOther(v: seq<Lane>, r: Round, x: nat, y: nat)
    requires |v| == 2 && x < 2 && y == 1 - x && |r.queues| == 2 && r.queues[x] > 0 && Earns(v, x, y, r)
    ensures var n := Serve(Queued(v, r.queues), y, r.size, Wrap32(r.sendAt), r.mss);
            && n[x].credit >= v[x].credit + 1 && n[x].last == v[x].last && n[x].priority == v[x].priority
            && n[y].credit == Max(0, v[y].credit - r.size) && n[y].last == Wrap32(r.sendAt)
            && n[y].priorityInv == v[y].priorityInv
  {
    hide Grant, Wrap32;
    SameGrant(v[x], Queued(v, r.queues)[x], r.size, v[y].priorityInv);
  }

  /** y keeps winning only while its credit exceeds that of x, and the gap closes by at least two a packet. */
  lemma {:induction false} WaitingLonger(v: seq<Lane>, x: nat, y: nat, lastX: int, lastY: int, rounds: seq<Round>)
    requires |v| == 2 && x < 2 && y == 1 - x && lastX < lastY
    requires v[x].last == Wrap32(lastX) && v[y].last == Wrap32(lastY) && v[x].credit >= 1
    requires Timed(rounds, lastX, lastY) && Backlogged(rounds, x)
    requires forall r :: r in rounds ==> Earns(v, x, y, r)
    requires Some(x) !in Winners(v, rounds) && rounds != []
    ensures 2 * (|rounds| - 1) < v[y].credit - v[x].credit
    decreases |rounds|
  {
    hide Lead, Favourite, Sub32, Wrap32, Chosen, Grant, Give, GiveAll, Queued, Serve;
    var r := rounds[0];
    var now := Queued(v, r.queues);
    Waited(r.pickAt, lastX);
    Waited(r.pickAt, lastY);
    WinNeedsCredit(now, Wrap32(r.pickAt), x, y);
    assert Winners(v, rounds)[0] == Chosen(now, Wrap32(r.pickAt));
    assert Chosen(now, Wrap32(r.pickAt)) == Some(y);
    ServeOther(v, r, x, y);
    var next := Serve(now, y, r.size, Wrap32(r.sendAt), r.mss);
    if |rounds| > 1 {
      NextRounds(v, next, x, y, rounds);
      assert Winners(v, rounds)[1..] == Winners(next, rounds[1..]);
      WaitingLonger(next, x, y, lastX, r.sendAt, rounds[1..]);
    }
  }

  /** The conditions on the rounds carry over to the rounds after the first. */
  lemma NextRounds(v: seq<Lane>, next: seq<Lane>, x: nat, y: nat, rounds: seq<Round>)
    requires |v| == |next| == 2 && x < 2 && y == 1 - x && rounds != []
    requires next[x].priority == v[x].priority && next[y].priorityInv == v[y].priorityInv
    requires forall r :: r in rounds ==> Earns(v, x, y, r)
    ensures forall r :: r in rounds[1..] ==> Earns(next, x, y, r)
  {
    hide Grant;
    forall r | r in rounds[1..] ensures Earns(next, x, y, r) {
      assert r in rounds;
      SameGrant(v[x], next[x], r.size, v[y].priorityInv);
    }
  }

  lemma SameGrant(l: Lane, m: Lane, bytes: nat, inv: real)
    requires l.priority == m.priority
    ensures Grant(l, bytes, inv) == Grant(m, bytes, inv)
  {
  }

  /** Bounded waiting. While x has packets, y is served at most once in a row if its credit exceeds that of x by no more
      than 2, and in general fewer than 2 + (difference of the credits) / 2 times: any longer run serves x. */
  lemma BoundedWaiting(v: seq<Lane>, x: nat, y: nat, lastX: int, lastY: int, rounds: seq<Round>)
    requires |v| == 2 && x < 2 && y == 1 - x
    requires v[x].last == Wrap32(lastX) && v[y].last == Wrap32(lastY) && v[x].credit >= 0 && v[x].priority > 0.0
    requires Timed(rounds, lastX, lastY) && Backlogged(rounds, x)
    requires forall r :: r in rounds ==> Earns(v, x, y, r)
    requires |rounds| >= 2 && 2 * (|rounds| - 1) >= v[y].credit - v[x].credit
    ensures Some(x) in Winners(v, rounds)
  {
    hide Lead, Favourite, Sub32, Wrap32, Chosen, Grant, Give, GiveAll, Queued, Serve;
    if Some(x) !in Winners(v, rounds) {
      var r := rounds[0];
      var now := Queued(v, r.queues);
      FirstWinner(now, Wrap32(r.pickAt), x, y);
      assert Winners(v, rounds)[0] == Chosen(now, Wrap32(r.pickAt));
      ServeOther(v, r, x, y);
      var next := Serve(now, y, r.size, Wrap32(r.sendAt), r.mss);
      NextRounds(v, next, x, y, rounds);
      assert Winners(v, rounds)[1..] == Winners(next, rounds[1..]);
      WaitingLonger(next, x, y, lastX, r.sendAt, rounds[1..]);
    }
  }

  lemma FirstWinner(v: seq<Lane>, t: uint32, x: nat, y: nat)
    requires |v| == 2 && x < 2 && y == 1 - x && v[x].queue > 0 && v[x].priority > 0.0
    ensures Chosen(v, t) == Some(x) || Chosen(v, t) == Some(y)
  {
    LeadUndominated(v, t);
    FavouriteIsTop(v);
  }

  /** k rounds, one tick and one byte each, with both streams backlogged. */
  function Steady(k: nat, from: int): (rounds: seq<Round>)
    ensures |rounds| == k && forall r :: r in rounds ==> |r.queues| == 2
  {
    if k == 0 then [] else [Round([1, 1], from, from, 1, 100)] + Steady(k - 1, from + 1)
  }

  /** A stream of the lower index keeps winning while it has more credit. */
  lemma LowerIndexWins(v: seq<Lane>, t: uint32)
    requires |v| == 2 && v[0].queue > 0 && v[0].credit >= 1 && v[0].credit > v[1].credit && Sub32(t, v[0].last) >= 1
    ensures Chosen(v, t) == Some(0)
  {
    hide Sub32;
    assert v[..1][..0] == [];
    assert Lead(v[..1], t) == Leader(Some(0), v[0].credit, Sub32(t, v[0].last));
  }

  /** The bound is sharp: with equal priorities, any smaller number of transmissions can all go to the other stream. */
  lemma {:induction false} BoundReached(v: seq<Lane>, k: nat, from: int)
    requires |v| == 2 && v[0].priority == v[1].priority == v[0].priorityInv == v[1].priorityInv == 1.0
    requires v[1].credit >= 0 && v[0].last == Wrap32(from - 1)
    requires 2 * (k - 1) < v[0].credit - v[1].credit
    ensures forall i :: 0 <= i < k ==> Winners(v, Steady(k, from))[i] == Some(0)
    decreases k
  {
    hide Lead, Favourite, Sub32, Wrap32, Chosen, Give, GiveAll;
    if k > 0 {
      var r := Round([1, 1], from, from, 1, 100);
      var now := Queued(v, r.queues);
      Waited(from, from - 1);
      LowerIndexWins(now, Wrap32(from));
      var next := Serve(now, 0, 1, Wrap32(from), 100);
      OneByteEach(now, from);
      BoundReached(next, k - 1, from + 1);
      assert Steady(k, from)[0] == r && Steady(k, from)[1..] == Steady(k - 1, from + 1);
      assert Winners(v, Steady(k, from)) == [Some(0)] + Winners(next, Steady(k - 1, from + 1));
    }
  }

  lemma OneByteEach(v: seq<Lane>, from: int)
    requires |v| == 2 && v[0].priority == v[1].priority == v[0].priorityInv == v[1].priorityInv == 1.0
    requires v[1].queue > 0 && v[0].credit >= 1
    ensures var next := Serve(v, 0, 1, Wrap32(from), 100);
            && next[0].credit == v[0].credit - 1 && next[1].credit == v[1].credit + 1
            && next[0].last == Wrap32(from)
            && next[0].priority == next[1].priority == next[0].priorityInv == next[1].priorityInv == 1.0
  {
    hide Wrap32;
    assert Grant(v[1], 1, 1.0) == 1;
  }

  // ---------- The scheduler in place ----------

  class CreditStream {
    const targetPriority: real
    const targetPriorityInv: real
    var queue: nat
    var credit: int
    var creditLost: int
    var lastTransmitT: uint32

    constructor (targetPriority_: real)
      requires targetPriority_ != 0.0
      ensures View() == Lane(0, 0, 0, 0, targetPriority_, 1.0 / targetPriority_)
    {
      targetPriority, targetPriorityInv := targetPriority_, 1.0 / targetPriority_;
      queue, credit, creditLost, lastTransmitT := 0, 0, 0, 0;
    }

    function View(): Lane
      reads this
    {
      Lane(queue, credit, creditLost, lastTransmitT, targetPriority, targetPriorityInv)
    }
  }

  function Views(streams: seq<CreditStream>): (v: seq<Lane>)
    reads streams
    ensures |v| == |streams|
    ensures forall i :: 0 <= i < |v| ==> v[i] == streams[i].View()
  {
    if streams == [] then [] else Views(streams[..|streams| - 1]) + [streams[|streams| - 1].View()]
  }

  /** No stream is registered twice. */
  ghost predicate Distinct(streams: seq<CreditStream>) {
    forall i, j :: 0 <= i < j < |streams| ==> streams[i] != streams[j]
  }

  lemma LeadSnoc(v: seq<Lane>, l: Lane, t: uint32)
    ensures Lead(v + [l], t)
            == if Overtakes(l, Lead(v, t), t) then Leader(Some(|v|), l.credit, Sub32(t, l.last)) else Lead(v, t)
    ensures TopPriority(v + [l]) == if l.queue > 0 then MaxReal(TopPriority(v), l.priority) else TopPriority(v)
    ensures Favourite(v + [l]) == if l.queue > 0 && l.priority > TopPriority(v) then Some(|v|) else Favourite(v)
  {
    assert (v + [l])[..|v|] == v;
  }

  /** getPrioritizedStream: the index of the stream to serve, None for NULL. */
  method GetPrioritizedStream(streams: seq<CreditStream>, t: uint32) returns (r: Option<nat>)
    ensures r == Chosen(Views(streams), t)
  {
    hide Lead, Favourite, TopPriority, Views, Sub32;
    if |streams| == 1 {
      return Some(0);
    }
    ghost var v := Views(streams);
    var maxCredit, maxDiff := 1, 0;
    r := None;
    NothingSearched(t);
    assert v[..0] == [];
    for n := 0 to |streams|
      invariant Leader(r, maxCredit, maxDiff) == Lead(v[..n], t)
    {
      var tmp := streams[n];
      assert v[..n + 1] == v[..n] + [tmp.View()];
      LeadSnoc(v[..n], tmp.View(), t);
      if tmp.queue != 0 {
        var diff := Sub32(t, tmp.lastTransmitT);
        if tmp.credit >= maxCredit && diff > maxDiff {
          r := Some(n);
          maxDiff := diff;
          maxCredit := tmp.credit;
        }
      }
    }
    assert v[..|streams|] == v;
    if r.Some? {
      return;
    }
    var maxPrio := 0.0;
    for n := 0 to |streams|
      invariant maxPrio == TopPriority(v[..n]) && r == Favourite(v[..n])
    {
      var tmp := streams[n];
      assert v[..n + 1] == v[..n] + [tmp.View()];
      LeadSnoc(v[..n], tmp.View(), t);
      if tmp.queue > 0 && tmp.targetPriority > maxPrio {
        maxPrio := tmp.targetPriority;
        r := Some(n);
      }
    }
  }

  lemma NothingSearched(t: uint32)
    ensures Lead([], t) == Leader(None, 1, 0) && Favourite([]) == None && TopPriority([]) == 0.0
  {
  }

  /** addCredit for one unserved stream. */
  method GiveCredit(tmp: CreditStream, bytes: nat, priorityInv: real, mss: nat)
    modifies tmp
    ensures tmp.View() == Give(old(tmp.View()), bytes, priorityInv, mss)
  {
    hide Grant;
    var maxCredit := 10 * mss;
    var credit := Grant(tmp.View(), bytes, priorityInv);
    if tmp.queue > 0 {
      tmp.credit := tmp.credit + credit;
    } else {
      tmp.credit := tmp.credit + credit;
      if tmp.credit > maxCredit {
        tmp.creditLost := tmp.creditLost + tmp.credit - maxCredit;
        tmp.credit := maxCredit;
      }
    }
  }

  method AddCredit(streams: seq<CreditStream>, served: nat, bytes: nat, mss: nat)
    requires Distinct(streams) && served < |streams|
    modifies streams
    ensures forall i :: 0 <= i < |streams| ==>
              streams[i].View()
              == if i == served then old(streams[i].View())
                 else Give(old(streams[i].View()), bytes, streams[served].targetPriorityInv, mss)
  {
    hide Give;
    if |streams| == 1 {
      return;
    }
    for n := 0 to |streams|
      invariant forall i :: 0 <= i < |streams| ==>
                  streams[i].View()
                  == if i < n && i != served then Give(old(streams[i].View()), bytes, streams[served].targetPriorityInv, mss)
                     else old(streams[i].View())
    {
      var tmp := streams[n];
      if n != served {
        GiveCredit(tmp, bytes, streams[served].targetPriorityInv, mss);
      }
    }
  }

  /** The scheduler's part of addTransmitted. */
  method Transmitted(streams: seq<CreditStream>, served: nat, bytes: nat, t: uint32, mss: nat)
    requires Distinct(streams) && served < |streams|
    modifies streams
    ensures Views(streams) == Serve(old(Views(streams)), served, bytes, t, mss)
  {
    hide Give, Views, Serve;
    ghost var v := Views(streams);
    var stream := streams[served];
    stream.lastTransmitT := t;
    AddCredit(streams, served, bytes, mss);
    if |streams| != 1 {
      stream.credit := Max(0, stream.credit - bytes);
    }
    ghost var r := Serve(v, served, bytes, t, mss);
    assert streams[served].View() == r[served];
    forall i | 0 <= i < |streams|
      ensures Views(streams)[i] == r[i]
    {
      assert i != served ==> streams[i] != stream;
    }
  }
}
