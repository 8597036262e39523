/** The RTP packet queue: a ring of 1024 slots with cached counters, refining a bounded FIFO. */
module RtpQueues {
  import opened Options
  import opened Serial
  import opened PacketHeap

  /** A queued packet; buf names the heap buffer that holds it. */
  datatype Packet = Packet(buf: nat, size: nat, ssrc: uint32, seqNr: uint16, isMark: bool, ts: real, timeStamp: uint32)

  datatype Item = Item(packet: Packet, used: bool)

  const NO_PACKET: Packet := Packet(0, 0, 0, 0, false, 0.0, 0)

  function Bytes(q: seq<Packet>): nat {
    if q == [] then 0 else Bytes(q[..|q| - 1]) + q[|q| - 1].size
  }

  lemma {:induction false} BytesFront(q: seq<Packet>)
    requires q != []
    ensures Bytes(q) == q[0].size + Bytes(q[1..])
  {
    if |q| > 1 {
      BytesFront(q[..|q| - 1]);
      assert q[..|q| - 1][1..] == q[1..][..|q| - 2];
    }
  }

  lemma BytesPush(q: seq<Packet>, p: Packet)
    ensures Bytes(q + [p]) == Bytes(q) + p.size
  {
    assert (q + [p])[..|q|] == q;
  }

  /** Size of the front packet, -1 when there is none. */
  function FrontSize(q: seq<Packet>): int { if q == [] then -1 else q[0].size }

  /** Ring position i steps after tail. */
  function Pos(tail: nat, i: nat): (p: nat)
    requires tail < 1024 && i <= 1024
    ensures p < 1024
  {
    if tail + i < 1024 then tail + i else tail + i - 1024
  }

  /** How far slot k is from tail, going forward. */
  function Steps(tail: nat, k: nat): (i: nat)
    requires tail < 1024 && k < 1024
    ensures i < 1024 && Pos(tail, i) == k
  {
    if k >= tail then k - tail else k - tail + 1024
  }

  /** The ring holds the packets q in the slots from tail on, and no others. */
  ghost predicate Holds(items: seq<Item>, tail: nat, q: seq<Packet>) {
    && |items| == 1024 && tail < 1024 && |q| <= 1024
    && forall k :: 0 <= k < 1024 ==>
         && (items[k].used <==> Steps(tail, k) < |q|)
         && (items[k].used ==> items[k].packet == q[Steps(tail, k)])
  }

  lemma HoldsPush(items: seq<Item>, tail: nat, q: seq<Packet>, p: Packet)
    requires Holds(items, tail, q)
    ensures items[Pos(tail, |q|)].used <==> |q| == 1024
    ensures |q| < 1024 ==> Holds(items[Pos(tail, |q|) := Item(p, true)], tail, q + [p])
  {
    var at := Pos(tail, |q|);
    if |q| < 1024 {
      assert Steps(tail, at) == |q|;
      assert forall k :: 0 <= k < 1024 && k != at ==> Steps(tail, k) != |q|;
    } else {
      assert at == tail && Steps(tail, at) == 0;
    }
  }

  lemma HoldsPop(items: seq<Item>, tail: nat, q: seq<Packet>)
    requires Holds(items, tail, q)
    ensures items[tail].used <==> q != []
    ensures q != [] ==> items[tail].packet == q[0]
                        && Holds(items[tail := items[tail].(used := false)], Pos(tail, 1), q[1..])
  {
    assert Steps(tail, tail) == 0;
    if q != [] {
      var next := Pos(tail, 1);
      forall k | 0 <= k < 1024
        ensures k != tail ==> Steps(next, k) == Steps(tail, k) - 1
        ensures k == tail ==> Steps(next, k) == 1023
      {
      }
    }
  }

  class RtpQueue {
    const items: array<Item>
    var head: int
    var tail: nat
    var bytesInQueue: int
    var sizeOfQueue: int
    var sizeOfNextRtp: int

    ghost var contents: seq<Packet>

    /** Used slots are exactly the ring segment from tail to head, and the cached counters agree with the contents. */
    ghost predicate Valid()
      reads this, items
    {
      && Holds(items[..], tail, contents)
      && -1 <= head < 1024 && (if head == 1023 then 0 else head + 1) == Pos(tail, |contents|)
      && bytesInQueue == Bytes(contents)
      && sizeOfQueue == |contents|
      && sizeOfNextRtp == FrontSize(contents)
    }

    constructor ()
      ensures Valid() && contents == [] && fresh(items)
    {
      items := new Item[1024](_ => Item(NO_PACKET, false));
      head, tail := -1, 0;
      bytesInQueue, sizeOfQueue, sizeOfNextRtp := 0, 0, -1;
      contents := [];
    }

    method ComputeSizeOfNextRtp()
      requires tail < items.Length
      modifies this`sizeOfNextRtp
      ensures sizeOfNextRtp == if items[tail].used then items[tail].packet.size else -1
    {
      if !items[tail].used {
        sizeOfNextRtp := -1;
      } else {
        sizeOfNextRtp := items[tail].packet.size;
      }
    }

    /** push: append the packet, or refuse it when all 1024 slots are used. */
    method Push(p: Packet) returns (ok: bool)
      requires Valid()
      modifies this, items
      ensures Valid()
      ensures ok <==> |old(contents)| < 1024
      ensures contents == if ok then old(contents) + [p] else old(contents)
    {
      hide Holds, Bytes;
      HoldsPush(items[..], tail, contents, p);
      BytesPush(contents, p);
      HoldsShape(items[..], tail, contents);
      var ix := head + 1;
      if ix == 1024 {
        ix := 0;
      }
      if items[ix].used {
        return false;
      }
      ghost var before := items[..];
      head := ix;
      items[head] := Item(p, true);
      assert items[..] == before[ix := Item(p, true)];
      bytesInQueue := bytesInQueue + p.size;
      sizeOfQueue := sizeOfQueue + 1;
      contents := contents + [p];
      HoldsPop(items[..], tail, contents);
      ComputeSizeOfNextRtp();
      ok := true;
    }

    /** pop: take the oldest packet, if there is one. */
    method Pop() returns (r: Option<Packet>)
      requires Valid()
      modifies this, items
      ensures Valid()
      ensures if old(contents) == [] then r == None && contents == []
              else r == Some(old(contents)[0]) && contents == old(contents)[1..]
    {
      hide Holds, Bytes;
      HoldsPop(items[..], tail, contents);
      HoldsShape(items[..], tail, contents);
      if !items[tail].used {
        sizeOfNextRtp := -1;
        return None;
      }
      BytesFront(contents);
      var p := items[tail].packet;
      r := Some(p);
      ghost var before := items[..];
      items[tail] := items[tail].(used := false);
      assert items[..] == before[tail := before[tail].(used := false)];
      assert Pos(tail, |contents|) == Pos(Pos(tail, 1), |contents| - 1);
      if tail == 1023 {
        tail := 0;
      } else {
        tail := tail + 1;
      }
      bytesInQueue := bytesInQueue - p.size;
      sizeOfQueue := sizeOfQueue - 1;
      contents := contents[1..];
      HoldsPop(items[..], tail, contents);
      HoldsShape(items[..], tail, contents);
      ComputeSizeOfNextRtp();
    }

    /** sizeOfQueue: the cached counter is the number of queued packets. */
    function SizeOfQueue(): (n: int)
      requires Valid()
      reads this, items
      ensures n == |contents|
    {
      sizeOfQueue
    }

    /** bytesInQueue: the cached total is the queued bytes. */
    function BytesInQueue(): (n: int)
      requires Valid()
      reads this, items
      ensures n == Bytes(contents)
    {
      bytesInQueue
    }

    /** sizeOfNextRtp: the cached size is the oldest packet's, -1 when there is none. */
    function SizeOfNextRtp(): (n: int)
      requires Valid()
      reads this, items
      ensures n == FrontSize(contents)
    {
      sizeOfNextRtp
    }

    /** getDelay: how long the oldest packet has been waiting. */
    method GetDelay(now: real) returns (delay: real)
      requires Valid()
      ensures delay == if contents == [] then 0.0 else now - contents[0].ts
    {
      HoldsPop(items[..], tail, contents);
      if !items[tail].used {
        return 0.0;
      }
      delay := now - items[tail].packet.ts;
    }

    /** clear: empty the queue, freeing each queued buffer once and no other. */
    method Clear(heap: Heap) returns (freed: nat)
      requires Valid() && heap.Valid() && Owned(contents, heap.live)
      modifies this, items, heap
      ensures Valid() && contents == []
      ensures freed == |old(contents)|
      ensures heap.Valid() && heap.mallocs == old(heap.mallocs) && heap.frees == old(heap.frees) + freed
      ensures heap.live == old(heap.live) - Buffers(old(contents))
    {
      hide Buffers, Owned, Valid, heap.Valid;
      freed := 0;
      while SizeOfQueue() > 0
        invariant Valid() && heap.Valid() && Owned(contents, heap.live)
        invariant freed + |contents| == |old(contents)|
        invariant heap.mallocs == old(heap.mallocs) && heap.frees == old(heap.frees) + freed
        invariant heap.live - Buffers(contents) == old(heap.live) - Buffers(old(contents))
        decreases |contents|
      {
        OwnedPop(contents, heap.live);
        OwnedFront(contents, heap.live);
        var r := Pop();
        if r.value.buf != 0 {
          freed := freed + 1;
          heap.Free(r.value.buf);
        }
      }
      NoBuffers(contents);
    }
  }

  lemma NoBuffers(q: seq<Packet>)
    ensures q == [] ==> Buffers(q) == {}
  {
  }

  lemma OwnedFront(q: seq<Packet>, live: map<nat, seq<byte>>)
    requires q != [] && Owned(q, live)
    ensures q[0].buf != 0 && q[0].buf in live && |live[q[0].buf]| == q[0].size
  {
  }

  /** Every queued packet owns its own live buffer, holding exactly its bytes. */
  ghost predicate Owned(q: seq<Packet>, live: map<nat, seq<byte>>) {
    && (forall i :: 0 <= i < |q| ==> q[i].buf != 0 && q[i].buf in live && |live[q[i].buf]| == q[i].size)
    && (forall i, j :: 0 <= i < j < |q| ==> q[i].buf != q[j].buf)
  }

  /** The buffers of the queued packets. */
  ghost function Buffers(q: seq<Packet>): (s: set<nat>)
    ensures forall b: nat :: b in s <==> exists i :: 0 <= i < |q| && q[i].buf == b
  {
    set i | 0 <= i < |q| :: q[i].buf
  }

  lemma OwnedPop(q: seq<Packet>, live: map<nat, seq<byte>>)
    requires q != [] && Owned(q, live)
    ensures Owned(q[1..], live - {q[0].buf})
    ensures Buffers(q) == {q[0].buf} + Buffers(q[1..])
    ensures q[0].buf !in Buffers(q[1..])
    ensures live - Buffers(q) == live - {q[0].buf} - Buffers(q[1..])
  {
    forall b: nat ensures b in Buffers(q) <==> b == q[0].buf || b in Buffers(q[1..]) {
      if b in Buffers(q) && b != q[0].buf {
        var i :| 0 <= i < |q| && q[i].buf == b;
        assert q[1..][i - 1].buf == b;
      }
      if b in Buffers(q[1..]) {
        var i :| 0 <= i < |q[1..]| && q[1..][i].buf == b;
        assert q[i + 1].buf == b;
      }
    }
    forall i | 0 <= i < |q[1..]| ensures q[1..][i] == q[i + 1] && q[1..][i].buf != q[0].buf {
    }
  }

  lemma HoldsShape(items: seq<Item>, tail: nat, q: seq<Packet>)
    requires Holds(items, tail, q)
    ensures |items| == 1024 && tail < 1024 && |q| <= 1024
  {
  }
}
