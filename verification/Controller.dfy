/** ScreamController's copy-in and copy-out around the RTP queue: who owns a packet buffer, and when it is freed. */
module Controller {
  import opened Options
  import opened Serial
  import opened PacketHeap
  import opened RtpQueues

  lemma OwnedPush(q: seq<Packet>, p: Packet, live: map<nat, seq<byte>>, data: seq<byte>)
    requires Owned(q, live)
    requires p.buf != 0 && p.buf !in live && p.size == |data|
    ensures Owned(q + [p], live[p.buf := data])
    ensures Buffers(q + [p]) == Buffers(q) + {p.buf}
    ensures live[p.buf := data].Keys == live.Keys + {p.buf}
  {
    forall b: nat ensures b in Buffers(q + [p]) <==> b == p.buf || b in Buffers(q) {
      assert (q + [p])[|q|] == p;
      if b in Buffers(q) {
        var i :| 0 <= i < |q| && q[i].buf == b;
        assert (q + [p])[i].buf == b;
      }
    }
  }

  /** The live buffers are exactly those of the queued packets, one each, holding their bytes. */
  ghost predicate Balanced(q: seq<Packet>, live: map<nat, seq<byte>>) {
    Owned(q, live) && live.Keys == Buffers(q)
  }

  lemma BalancedPush(q: seq<Packet>, p: Packet, live: map<nat, seq<byte>>, data: seq<byte>)
    requires Balanced(q, live)
    requires p.buf != 0 && p.buf !in live && p.size == |data|
    ensures Balanced(q + [p], live[p.buf := data])
    ensures live[p.buf := data] - {p.buf} == live
  {
    OwnedPush(q, p, live, data);
  }

  lemma BalancedPop(q: seq<Packet>, live: map<nat, seq<byte>>)
    requires q != [] && Balanced(q, live)
    ensures q[0].buf != 0 && q[0].buf in live && |live[q[0].buf]| == q[0].size
    ensures Balanced(q[1..], live - {q[0].buf})
  {
    OwnedPop(q, live);
    assert (live - {q[0].buf}).Keys == live.Keys - {q[0].buf};
  }

  lemma BalancedClear(q: seq<Packet>, live: map<nat, seq<byte>>)
    requires Balanced(q, live)
    ensures Owned(q, live) && live - Buffers(q) == map[] && Balanced([], map[])
  {
  }

  class ScreamController {
    const heap: Heap
    const rtpQueue: RtpQueue

    /** The queued packets own the live buffers; what was allocated is what was freed or is queued. */
    ghost predicate Valid()
      reads this, heap, rtpQueue, rtpQueue.items
    {
      && heap.Valid() && rtpQueue.Valid()
      && Balanced(rtpQueue.contents, heap.live)
      && heap.mallocs == heap.frees + |rtpQueue.contents|
    }

    constructor ()
      ensures Valid() && fresh(heap) && fresh(rtpQueue) && fresh(rtpQueue.items)
      ensures rtpQueue.contents == [] && heap.live == map[]
    {
      heap := new Heap();
      rtpQueue := new RtpQueue();
    }

    /** enqueueRtp: copy the packet and queue it; on a full queue the copy is freed again. */
    method EnqueueRtp(data: seq<byte>, ssrc: uint32, seqNr: uint16, isMarker: bool, rtpTimestamp: uint32, now: real,
                      granted: bool)
      returns (ok: bool)
      requires Valid()
      modifies heap, rtpQueue, rtpQueue.items
      ensures Valid()
      ensures ok <==> granted && |old(rtpQueue.contents)| < 1024
      ensures !ok ==> rtpQueue.contents == old(rtpQueue.contents) && heap.live == old(heap.live)
      ensures ok ==> exists buf: nat ::
                && buf !in old(heap.live) && buf !in old(heap.gone)
                && heap.live == old(heap.live)[buf := data]
                && rtpQueue.contents
                   == old(rtpQueue.contents) + [Packet(buf, |data|, ssrc, seqNr, isMarker, now, rtpTimestamp)]
    {
      hide Balanced, RtpQueue.Valid, Heap.Valid;
      var buf := heap.Malloc(data, granted);
      if buf == None {
        return false;
      }
      var p := Packet(buf.value, |data|, ssrc, seqNr, isMarker, now, rtpTimestamp);
      BalancedPush(rtpQueue.contents, p, old(heap.live), data);
      ok := rtpQueue.Push(p);
      if !ok {
        heap.Free(buf.value);
      }
    }

    /** dequeueRtp: the oldest packet's bytes, cut to the caller's capacity; its buffer is freed. */
    method DequeueRtp(capacity: nat, now: real)
      returns (r: Option<Packet>, bytes: seq<byte>, delay: real)
      requires Valid()
      modifies heap, rtpQueue, rtpQueue.items
      ensures Valid()
      ensures old(rtpQueue.contents) == [] ==>
                r == None && rtpQueue.contents == [] && heap.live == old(heap.live) && delay == 0.0
      ensures old(rtpQueue.contents) != [] ==>
                var p := old(rtpQueue.contents)[0];
                && r == Some(p) && delay == now - p.ts
                && rtpQueue.contents == old(rtpQueue.contents)[1..]
                && p.buf in old(heap.live)
                && bytes == old(heap.live)[p.buf][..if p.size > capacity then capacity else p.size]
                && |bytes| == Min(p.size, capacity)
                && heap.live == old(heap.live) - {p.buf}
                && heap.gone == old(heap.gone) + {p.buf} && heap.frees == old(heap.frees) + 1
    {
      hide Balanced, RtpQueue.Valid, Heap.Valid;
      delay := rtpQueue.GetDelay(now);
      if rtpQueue.contents != [] {
        BalancedPop(rtpQueue.contents, heap.live);
      }
      r := rtpQueue.Pop();
      bytes := [];
      if r == None {
        return;
      }
      var size := r.value.size;
      if size > capacity {
        size := capacity;
      }
      if r.value.buf != 0 {
        bytes := heap.live[r.value.buf][..size];
        heap.Free(r.value.buf);
      }
    }

    /** The queue is discarded when its delay passed the limit: nothing stays allocated. */
    method Discard() returns (freed: nat)
      requires Valid()
      modifies heap, rtpQueue, rtpQueue.items
      ensures Valid()
      ensures freed == |old(rtpQueue.contents)| && rtpQueue.contents == []
      ensures heap.live == map[] && heap.mallocs == heap.frees == old(heap.frees) + freed
    {
      hide Balanced, Owned, Buffers, RtpQueue.Valid, Heap.Valid;
      BalancedClear(rtpQueue.contents, heap.live);
      freed := rtpQueue.Clear(heap);
    }
  }
}
