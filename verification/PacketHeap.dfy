/** The C heap as the packet buffers see it: malloc names a fresh buffer, free takes a live one. */
module PacketHeap {
  import opened Options
  import opened Serial

  lemma OneMore(live: map<nat, seq<byte>>, b: nat, data: seq<byte>)
    requires b !in live
    ensures live[b := data].Keys == live.Keys + {b} && |live[b := data]| == |live| + 1
  {
    assert |live[b := data].Keys| == |live.Keys| + 1;
  }

  class Heap {
    var live: map<nat, seq<byte>>
    var mallocs: nat
    var frees: nat

    ghost var gone: set<nat>

    /** Buffer ids are 1..mallocs; each is live or was freed, never both. */
    ghost predicate Valid()
      reads this
    {
      && live.Keys !! gone
      && (forall b: nat :: b in live || b in gone <==> 1 <= b <= mallocs)
      && frees == |gone|
      && mallocs == frees + |live|
    }

    constructor ()
      ensures Valid() && live == map[] && gone == {} && mallocs == frees == 0
    {
      live, mallocs, frees, gone := map[], 0, 0, {};
    }

    /** malloc and memcpy: None is the NULL the allocator may return. */
    method Malloc(data: seq<byte>, granted: bool) returns (buf: Option<nat>)
      requires Valid()
      modifies this
      ensures Valid() && gone == old(gone) && frees == old(frees)
      ensures if granted then
                && buf.Some? && buf.value != 0 && buf.value !in old(live) && buf.value !in gone
                && live == old(live)[buf.value := data] && mallocs == old(mallocs) + 1
              else
                buf == None && live == old(live) && mallocs == old(mallocs)
    {
      if !granted {
        return None;
      }
      mallocs := mallocs + 1;
      assert mallocs !in live && mallocs !in gone;
      OneMore(live, mallocs, data);
      live := live[mallocs := data];
      buf := Some(mallocs);
    }

    /** free: only a live buffer may be freed, so no buffer is freed twice. */
    method Free(buf: nat)
      requires Valid() && buf in live
      modifies this
      ensures Valid() && mallocs == old(mallocs) && frees == old(frees) + 1
      ensures live == old(live) - {buf} && gone == old(gone) + {buf}
    {
      live := live - {buf};
      assert live.Keys == old(live).Keys - {buf};
      gone := gone + {buf};
      frees := frees + 1;
    }
  }
}
