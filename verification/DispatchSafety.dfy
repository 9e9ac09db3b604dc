/** What holds in every reachable state of the worker: order, tickets, descriptors, interrupts. */
module DispatchSafety {
  import opened DeferredGuard
  import opened Dispatch
  import opened DispatchInvariants

  // ----- Order

  function ReadOf(r: ResourceId): Command { Command(TransferFromHost3d, r) }

  /** A read of `r`, or a command that waits for reads of `r`, by kind: what changes a resource's memory or
      identity, a context detach in every version but 0011, and under 0010 whatever is not TransferToHost3d. */
  predicate Touches(design: Design, r: ResourceId, c: Command) {
    match c.kind
    case TransferFromHost3d => c.resource == r
    case ResourceAttachBacking | ResourceDetachBacking | ResourceUnref => c.resource == r || design.GlobalDrain?
    case ResourceCreate2d | ResourceCreate3d | ResourceCreateBlob => c.resource == r || design.GlobalDrain?
    case CtxDetachResource => (c.resource == r && !design.PerResourceDrain?) || design.GlobalDrain?
    case OtherInline => design.GlobalDrain?
    case TransferToHost3d | Undecodable => false
  }

  lemma TouchesOrBlocks(design: Design, r: ResourceId, c: Command)
    ensures Touches(design, r, c) <==> c == ReadOf(r) || (IsInline(c) && Blocks(design, c, ReadOf(r)))
  {
  }

  lemma TouchingConflict(design: Design, r: ResourceId, a: Command, b: Command)
    requires Touches(design, r, a) && Touches(design, r, b)
    ensures Conflict(design, a, b)
  {
    TouchesOrBlocks(design, r, a);
    TouchesOrBlocks(design, r, b);
  }

  /** Transfers and lifecycle commands on one resource take effect in queue order. */
  lemma EffectsFollowQueue(script: Script, s: State, r: ResourceId, a: nat, b: nat)
    requires WellFormed(script) && Reachable(script, s)
    requires a < b < |s.effects|
    requires s.effects[a] < |script.commands| && s.effects[b] < |script.commands|
    requires Touches(script.design, r, script.commands[s.effects[a]])
    requires Touches(script.design, r, script.commands[s.effects[b]])
    ensures s.effects[a] < s.effects[b]
  {
    ReachableInv(script, s);
    TouchingConflict(script.design, r, script.commands[s.effects[b]], script.commands[s.effects[a]]);
  }

  /** Each of them gets past its gate, and a read past its turn, only once the ones before it are over:
      transfer done and logged, descriptor given back, guard told. */
  lemma StartsAfterEarlierOnes(script: Script, s: State, r: ResourceId, i: nat, j: nat)
    requires WellFormed(script) && Reachable(script, s)
    requires i < j < |script.commands| == |s.phase|
    requires Touches(script.design, r, script.commands[i])
    requires Touches(script.design, r, script.commands[j])
    requires !s.phase[j].Queued? && !s.phase[j].AtGate? && !s.phase[j].AwaitingTurn?
    ensures s.phase[i].Retired? && Places(s, i) == 1 && i in s.effects
  {
    ReachableInv(script, s);
    TouchesOrBlocks(script.design, r, script.commands[i]);
    TouchesOrBlocks(script.design, r, script.commands[j]);
    TouchingConflict(script.design, r, script.commands[i], script.commands[j]);
    assert LayoutAt(script, s, j);
    assert OrderedAt(script, s, i, j);
    assert PlacedAt(s, i) && LoggedAt(script, s, i);
  }

  /** In every reachable state, by the kind of the command: one that changes a resource's memory or identity
      is past its gate only when every earlier read of the resource is over and no later one is begun; so is a
      context detach in every version but 0011, and under 0010 everything but TransferToHost3d for the reads of
      all resources. */
  lemma WaitsForReads(script: Script, s: State, i: nat, j: nat)
    requires WellFormed(script) && Reachable(script, s)
    requires i < |script.commands| == |s.phase| && j < |s.phase|
    requires s.phase[j].Admitted? || s.phase[j].Executing? || s.phase[j].Replying?
    requires script.commands[i].kind.TransferFromHost3d?
    requires
      var kind, same := script.commands[j].kind, script.commands[i].resource == script.commands[j].resource;
      || (same && (kind.ResourceAttachBacking? || kind.ResourceDetachBacking? || kind.ResourceUnref?))
      || (same && (kind.ResourceCreate2d? || kind.ResourceCreate3d? || kind.ResourceCreateBlob?))
      || (same && kind.CtxDetachResource? && !script.design.PerResourceDrain?)
      || (script.design.GlobalDrain? && !kind.TransferToHost3d?)
    ensures s.phase[i] == if i < j then Retired else Queued
  {
    ReachableInv(script, s);
    assert LayoutAt(script, s, j) && LayoutAt(script, s, i);
    if i < j {
      assert OrderedAt(script, s, i, j);
    }
  }

  /** While a command that waits for reads of `r` is being processed no read on `r` is in flight, and none
      can begin before it is answered. */
  lemma LifecycleRunsAlone(script: Script, s: State, r: ResourceId)
    requires WellFormed(script) && Reachable(script, s)
    requires s.loop.Serving? && 0 < s.popped <= |script.commands| == |s.phase|
    requires !script.commands[s.popped - 1].kind.TransferFromHost3d?
    requires Touches(script.design, r, script.commands[s.popped - 1])
    requires !s.phase[s.popped - 1].AtGate?
    ensures FlyingAll(script, s, r) == 0 && r !in s.guard.count
    ensures forall step :: Enabled(script, s, step) && !step.Reply? ==>
              r !in Apply(script, s, step).guard.count
  {
    ReachableInv(script, s);
    TouchesOrBlocks(script.design, r, script.commands[s.popped - 1]);
    NoneInFlight(script, s, r);
    forall step | Enabled(script, s, step) && !step.Reply?
      ensures r !in Apply(script, s, step).guard.count
    {
      NoneBegins(script, s, r, step);
    }
  }

  lemma NoneInFlight(script: Script, s: State, r: ResourceId)
    requires Inv(script, s) && s.loop.Serving? && !s.phase[s.popped - 1].AtGate?
    requires Blocks(script.design, script.commands[s.popped - 1], ReadOf(r))
    ensures FlyingAll(script, s, r) == 0 && r !in s.guard.count
  {
    var c := s.popped - 1;
    forall i | 0 <= i < |s.phase|
      ensures !Counts(script, s.phase, r, i)
    {
      assert LayoutAt(script, s, i) && LayoutAt(script, s, c);
      if i < c {
        assert OrderedAt(script, s, i, c);
      }
    }
    NoneFlying(script, s.phase, r, |s.phase|);
    assert Get(s.guard.count, r) == FlyingAll(script, s, r);
  }

  lemma NoneBegins(script: Script, s: State, r: ResourceId, step: Step)
    requires Layout(script, s) && Enabled(script, s, step) && s.loop.Serving? && !s.phase[s.popped - 1].AtGate?
    requires r !in s.guard.count
    ensures r !in Apply(script, s, step).guard.count
  {
    if !step.EndRead? {
      SameFlight(script, s, step);
    }
  }

  /** No two transfers on one resource overlap. */
  lemma OneTransferPerResource(script: Script, s: State, i: nat, j: nat)
    requires WellFormed(script) && Reachable(script, s)
    requires i < |script.commands| == |s.phase| && j < |s.phase| && i != j
    requires script.commands[i].resource == script.commands[j].resource
    requires PastTurn(s.phase[i])
    ensures !PastTurn(s.phase[j])
  {
    ReachableInv(script, s);
    assert TurnAt(script, s, i) && TurnAt(script, s, j);
    FlyingMonotone(script, s.phase, script.commands[i].resource, if i < j then i else j, if i < j then j else i);
  }

  // ----- Tickets

  ghost predicate SomeReadStandsAt(script: Script, s: State, r: ResourceId, p: nat)
    requires Shape(script, s)
  {
    exists i :: 0 <= i < |s.phase| && Counts(script, s.phase, r, i) && Flying(script, s.phase, r, i) == p
  }

  /** The guard's queue of live tickets is the queue of live reads: the read at position `p`
      holds, if it still waits, the ticket at position `p`, and the positions are exactly the
      live reads in submission order. */
  lemma QueueOfTickets(script: Script, s: State, r: ResourceId)
    requires WellFormed(script) && Reachable(script, s) && script.design.Tickets?
    ensures Valid(s.guard) && Shape(script, s)
    ensures |Live(s.guard, r)| == Flying(script, s.phase, r, |s.phase|)
    ensures forall i :: 0 <= i < |s.phase| && Counts(script, s.phase, r, i) ==>
              && Flying(script, s.phase, r, i) < |Live(s.guard, r)|
              && (s.phase[i].AwaitingTurn? ==>
                    s.phase[i].ticket == Live(s.guard, r)[Flying(script, s.phase, r, i)])
              && (!s.phase[i].AwaitingTurn? ==> Flying(script, s.phase, r, i) == 0)
    ensures forall i, j :: 0 <= i < j < |s.phase| && Counts(script, s.phase, r, i) ==>
              Flying(script, s.phase, r, i) < Flying(script, s.phase, r, j)
    ensures forall p :: 0 <= p < |Live(s.guard, r)| ==>
              SomeReadStandsAt(script, s, r, p)
  {
    ReachableInv(script, s);
    forall x: ResourceId
      ensures Get(s.guard.nextTicket, x) == Get(s.guard.served, x) + Get(s.guard.count, x)
      ensures x in s.guard.count ==> s.guard.count[x] > 0
      ensures x !in s.guard.count ==> x !in s.guard.nextTicket && x !in s.guard.served
    {
      assert Get(s.guard.count, x) == FlyingAll(script, s, x);
    }
    assert Get(s.guard.count, r) == FlyingAll(script, s, r);
    forall i | 0 <= i < |s.phase| && Counts(script, s.phase, r, i)
      ensures Flying(script, s.phase, r, i) < |Live(s.guard, r)|
      ensures s.phase[i].AwaitingTurn? ==>
                s.phase[i].ticket == Live(s.guard, r)[Flying(script, s.phase, r, i)]
      ensures !s.phase[i].AwaitingTurn? ==> Flying(script, s.phase, r, i) == 0
    {
      FlyingMonotone(script, s.phase, r, i, |s.phase|);
      assert TurnAt(script, s, i);
    }
    forall i, j | 0 <= i < j < |s.phase| && Counts(script, s.phase, r, i)
      ensures Flying(script, s.phase, r, i) < Flying(script, s.phase, r, j)
    {
      FlyingMonotone(script, s.phase, r, i, j);
    }
    forall p | 0 <= p < |Live(s.guard, r)|
      ensures SomeReadStandsAt(script, s, r, p)
    {
      var i := ReadAtPosition(script, s.phase, r, p, |s.phase|);
    }
  }

  /** When `end` runs the count is positive, so its saturating subtraction never saturates, and
      the maps are reset exactly when the ending read was the only one left: no waiter is
      stranded with an old number and none is let in by a new one. */
  lemma EndNeverStrands(script: Script, s: State, i: nat)
    requires WellFormed(script) && Reachable(script, s)
    requires Shape(script, s) && Enabled(script, s, EndRead(i))
    ensures var r := script.commands[i].resource; var s' := Apply(script, s, EndRead(i));
            && r in s.guard.count && s.guard.count[r] >= 1
            && (r !in s'.guard.count <==>
                  forall j :: 0 <= j < |s.phase| && j != i ==> !Counts(script, s.phase, r, j))
  {
    ReachableInv(script, s);
    var r := script.commands[i].resource;
    var s' := Apply(script, s, EndRead(i));
    FlyingMonotone(script, s.phase, r, i, |s.phase|);
    assert Get(s.guard.count, r) == FlyingAll(script, s, r);
    if s.guard.count[r] > 1 {
      var j := ReadAtPosition(script, s.phase, r, 1, |s.phase|);
      assert TurnAt(script, s, i);
    } else if j :| 0 <= j < |s.phase| && j != i && Counts(script, s.phase, r, j) {
      FlyingMonotone(script, s.phase, r, if i < j then i else j, if i < j then j else i);
      FlyingMonotone(script, s.phase, r, if i < j then j else i, |s.phase|);
      assert false;
    }
  }

  // ----- Descriptors and interrupts

  function UpTo(n: nat): (r: multiset<nat>)
    ensures forall i: nat :: r[i] == if i < n then 1 else 0
  {
    if n == 0 then multiset{} else UpTo(n - 1) + multiset{n - 1}
  }

  /** Popped and not yet given back: deferred reads in flight and the command in hand. */
  function InProcess(s: State): set<nat>
    requires s.popped <= |s.phase|
  {
    set i | 0 <= i < s.popped && !Returned(s.phase[i])
  }

  lemma {:induction false} NoRepeatsMultiset(log: seq<nat>, x: nat)
    requires NoRepeats(log)
    ensures multiset(log)[x] == if x in log then 1 else 0
  {
    if log != [] {
      var n := |log| - 1;
      assert log == log[..n] + [log[n]];
      NoRepeatsMultiset(log[..n], x);
    }
  }

  /** Every popped descriptor is in exactly one place: the used ring, the fence handler, given
      up, or still being processed; nothing reaches the used ring twice. */
  lemma DescriptorsConserved(script: Script, s: State)
    requires WellFormed(script) && Reachable(script, s)
    ensures s.popped <= |s.phase|
    ensures UpTo(s.popped) ==
            multiset(s.used) + multiset(s.fences) + multiset(s.dropped) + multiset(InProcess(s))
    ensures |s.phase| == |script.commands|
    ensures forall i :: i in InProcess(s) <==>
              && 0 <= i < |s.phase|
              && ((InFlight(s.phase[i]) && !Returned(s.phase[i]))
                  || (s.loop.Serving? && i == s.popped - 1))
  {
    ReachableInv(script, s);
    forall i: nat
      ensures UpTo(s.popped)[i] ==
              (multiset(s.used) + multiset(s.fences) + multiset(s.dropped) + multiset(InProcess(s)))[i]
    {
      NoRepeatsMultiset(s.used, i);
      assert PlacedAt(s, i);
      if i < |s.phase| {
        assert LayoutAt(script, s, i);
      }
    }
    forall i: int
      ensures i in InProcess(s) <==>
              && 0 <= i < |s.phase|
              && ((InFlight(s.phase[i]) && !Returned(s.phase[i]))
                  || (s.loop.Serving? && i == s.popped - 1))
    {
      if 0 <= i < |s.phase| {
        assert LayoutAt(script, s, i);
      }
    }
  }

  /** For used entries the guest was not interrupted for somebody owes it an interrupt: the
      dispatcher, which has not gone back to sleep, or a reader about to signal. */
  lemma InterruptsOwed(script: Script, s: State)
    requires WellFormed(script) && Reachable(script, s) && s.signalled != |s.used|
    ensures (s.usedAny && !s.loop.Idle?)
            || exists i :: 0 <= i < |s.phase| && s.phase[i].Signalling?
    ensures s.signalled < |s.used|
  {
    ReachableInv(script, s);
  }
}
