/** `deferred_guard` of the virtio-gpu worker: per-resource FIFO tickets for deferred reads. */
module DeferredGuard {
  // Three maps behind one mutex.  The value-level functions say what one critical section does; the class
  // does it in place.

  type ResourceId = nat

  /** What the mutex protects. */
  datatype Guard = Guard(
    count: map<ResourceId, nat>,
    nextTicket: map<ResourceId, nat>,
    served: map<ResourceId, nat>)

  const EMPTY_GUARD := Guard(map[], map[], map[])

  /** A map lookup that reads an absent key as zero. */
  function Get(m: map<ResourceId, nat>, r: ResourceId): nat {
    if r in m then m[r] else 0
  }

  function AfterBegin(g: Guard, r: ResourceId): Guard {
    Guard(g.count[r := Get(g.count, r) + 1],
          g.nextTicket[r := Get(g.nextTicket, r) + 1],
          g.served)
  }

  /** Ends one read.  The last read of a resource erases the resource from all three maps. */
  function AfterEnd(g: Guard, r: ResourceId): Guard {
    if r in g.count && g.count[r] <= 1 then
      Guard(g.count - {r}, g.nextTicket - {r}, g.served - {r})
    else
      Guard(if r in g.count then g.count[r := g.count[r] - 1] else g.count,
            g.nextTicket,
            g.served[r := Get(g.served, r) + 1])
  }

  /** The guard before tickets existed: `count` alone. */
  function AfterBeginCountOnly(g: Guard, r: ResourceId): Guard {
    g.(count := g.count[r := Get(g.count, r) + 1])
  }

  function AfterEndCountOnly(g: Guard, r: ResourceId): Guard {
    if r !in g.count then g
    else if g.count[r] <= 1 then g.(count := g.count - {r})
    else g.(count := g.count[r := g.count[r] - 1])
  }

  // ----- The reference: a FIFO queue of live tickets per resource

  /** Every resource has as many live tickets as `count` says, and an idle one is in no map. */
  ghost predicate Valid(g: Guard) {
    forall r: ResourceId ::
      && Get(g.nextTicket, r) == Get(g.served, r) + Get(g.count, r)
      && (r in g.count ==> g.count[r] > 0)
      && (r !in g.count ==> r !in g.nextTicket && r !in g.served)
  }

  /** The live tickets of `r`, in the order they were handed out. */
  function Live(g: Guard, r: ResourceId): seq<nat> {
    seq(Get(g.count, r), k => Get(g.served, r) + k)
  }

  lemma BeginKeepsValid(g: Guard, r: ResourceId)
    requires Valid(g)
    ensures Valid(AfterBegin(g, r))
  {
    var g' := AfterBegin(g, r);
    forall x: ResourceId
      ensures Get(g'.nextTicket, x) == Get(g'.served, x) + Get(g'.count, x)
      ensures x in g'.count ==> g'.count[x] > 0
      ensures x !in g'.count ==> x !in g'.nextTicket && x !in g'.served
    {
      assert Get(g.nextTicket, x) == Get(g.served, x) + Get(g.count, x);
    }
  }

  /** `Begin` enqueues: the ticket handed out goes to the back of `r`'s queue and no other
      queue moves. */
  lemma BeginEnqueues(g: Guard, r: ResourceId, other: ResourceId)
    requires Valid(g)
    ensures Valid(AfterBegin(g, r))
    ensures Live(AfterBegin(g, r), other) ==
            if other == r then Live(g, r) + [Get(g.nextTicket, r)] else Live(g, other)
  {
    BeginKeepsValid(g, r);
    assert Get(g.nextTicket, r) == Get(g.served, r) + Get(g.count, r);
  }

  lemma EndKeepsValid(g: Guard, r: ResourceId)
    requires Valid(g) && Get(g.count, r) > 0
    ensures Valid(AfterEnd(g, r))
  {
    var g' := AfterEnd(g, r);
    forall x: ResourceId
      ensures Get(g'.nextTicket, x) == Get(g'.served, x) + Get(g'.count, x)
      ensures x in g'.count ==> g'.count[x] > 0
      ensures x !in g'.count ==> x !in g'.nextTicket && x !in g'.served
    {
      assert Get(g.nextTicket, x) == Get(g.served, x) + Get(g.count, x);
    }
  }

  /** `End` dequeues the front ticket, whether or not it resets the maps; when it does reset
      them the queue was down to its last ticket, so nobody holds a number from before. */
  lemma EndDequeues(g: Guard, r: ResourceId, other: ResourceId)
    requires Valid(g) && Live(g, r) != []
    ensures Valid(AfterEnd(g, r))
    ensures Live(AfterEnd(g, r), other) == if other == r then Live(g, r)[1..] else Live(g, other)
    ensures r !in AfterEnd(g, r).count <==> |Live(g, r)| == 1
  {
    EndKeepsValid(g, r);
    if other != r {
      assert Get(AfterEnd(g, r).count, other) == Get(g.count, other);
      assert Get(AfterEnd(g, r).served, other) == Get(g.served, other);
    }
  }

  /** A resource passes `wait_idle` exactly when its queue is empty, and a read passes
      `wait_turn` exactly when it is at the front. */
  lemma WaitsReadTheQueue(g: Guard, r: ResourceId, position: nat)
    requires Valid(g)
    ensures Get(g.count, r) == 0 <==> Live(g, r) == []
    ensures position < |Live(g, r)| ==>
              (Get(g.served, r) == Live(g, r)[position] <==> position == 0)
  {
    assert Get(g.nextTicket, r) == Get(g.served, r) + Get(g.count, r);
  }

  /** The guard as the process sees it: three maps updated in place under the mutex. */
  class DeferredGuardState {
    var count: map<ResourceId, nat>
    var nextTicket: map<ResourceId, nat>
    var served: map<ResourceId, nat>

    function Value(): Guard
      reads this
    {
      Guard(count, nextTicket, served)
    }

    constructor ()
      ensures Value() == EMPTY_GUARD
    {
      count, nextTicket, served := map[], map[], map[];
    }

    method Begin(r: ResourceId) returns (ticket: nat)
      modifies this
      ensures Value() == AfterBegin(old(Value()), r)
      ensures ticket == Get(old(nextTicket), r)
    {
      if r !in count {
        count := count[r := 0];
      }
      count := count[r := count[r] + 1];
      if r !in nextTicket {
        nextTicket := nextTicket[r := 0];
      }
      ticket := nextTicket[r];
      nextTicket := nextTicket[r := ticket + 1];
      assert count == old(count)[r := Get(old(count), r) + 1];
      assert nextTicket == old(nextTicket)[r := Get(old(nextTicket), r) + 1];
    }

    /** The loop condition of `wait_turn`. */
    method IsTurn(r: ResourceId, ticket: nat) returns (turn: bool)
      ensures turn <==> Get(served, r) == ticket
    {
      if r in served {
        turn := served[r] == ticket;
      } else {
        turn := 0 == ticket;
      }
    }

    /** The loop condition of `wait_idle`. */
    method IsIdle(r: ResourceId) returns (idle: bool)
      ensures idle <==> Live(Value(), r) == []
    {
      idle := !(r in count && count[r] > 0);
    }

    /** Returns after `notify_all`, on both paths. */
    method End(r: ResourceId)
      modifies this
      ensures Value() == AfterEnd(old(Value()), r)
    {
      if r in count {
        count := count[r := if count[r] == 0 then 0 else count[r] - 1];
        if count[r] == 0 {
          count := count - {r};
          nextTicket := nextTicket - {r};
          served := served - {r};
          assert count == old(count) - {r};
          return;
        }
      }
      if r !in served {
        served := served[r := 0];
      }
      served := served[r := served[r] + 1];
      assert served == old(served)[r := Get(old(served), r) + 1];
    }
  }
}
