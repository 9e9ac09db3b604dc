/** What every step of the worker keeps.

    Layout: which phases go with a command popped, in hand or not yet popped.  Guard: the counts are those of
    the reads in flight, and with tickets the numbers given out and served differ by them.  Turns: a ticket is
    its read's place among the reads in flight, and past its turn a read stands first.  Order: of two
    conflicting commands the later one starts only when the earlier one is over.  Sleepers: whoever sleeps has a
    reason to.  Kicks: an idle dispatcher with commands left has been notified or is about to be.  Descriptors:
    each is where its command's phase says.  Interrupts: for used entries not signalled the dispatcher or a
    reader is going to signal.  Log: effects are logged in the order in which conflicting commands stand in the
    queue.

    Each is kept for a reason of its own, so there is one lemma for each and, where the proof needs it, for
    each family of steps. */
module DispatchInvariants {
  import opened Wrappers
  import opened DeferredGuard
  import opened Dispatch

  // ----- Counting the reads in flight on one resource

  predicate InFlight(p: Phase) {
    p.AwaitingTurn? || p.Transferring? || p.Completing? || p.Signalling? || p.Ending?
  }

  /** Past `wait_turn` and not yet past `end`. */
  predicate PastTurn(p: Phase) {
    InFlight(p) && !p.AwaitingTurn?
  }

  predicate Counts(script: Script, phase: seq<Phase>, r: ResourceId, i: nat)
    requires i < |script.commands| == |phase|
  {
    InFlight(phase[i]) && script.commands[i].resource == r
  }

  /** How many reads on `r` among the first `k` commands are in flight. */
  function Flying(script: Script, phase: seq<Phase>, r: ResourceId, k: nat): nat
    requires k <= |script.commands| == |phase|
  {
    if k == 0 then 0
    else Flying(script, phase, r, k - 1) + if Counts(script, phase, r, k - 1) then 1 else 0
  }

  function FlyingAll(script: Script, s: State, r: ResourceId): nat
    requires Shape(script, s)
  {
    Flying(script, s.phase, r, |s.phase|)
  }

  lemma {:induction false} FlyingAgrees(script: Script, p: seq<Phase>, q: seq<Phase>, r: ResourceId, k: nat)
    requires k <= |script.commands| == |p| == |q|
    requires forall i :: 0 <= i < k ==> InFlight(p[i]) == InFlight(q[i])
    ensures Flying(script, p, r, k) == Flying(script, q, r, k)
  {
    if k > 0 {
      FlyingAgrees(script, p, q, r, k - 1);
    }
  }

  /** Changing one phase moves the count by the change in that phase. */
  lemma {:induction false} FlyingAfterSet(script: Script, p: seq<Phase>, i: nat, x: Phase, r: ResourceId, k: nat)
    requires i < |script.commands| == |p| && k <= |p|
    ensures Flying(script, p[i := x], r, k) ==
            Flying(script, p, r, k)
            + (if i < k && script.commands[i].resource == r && InFlight(x) then 1 else 0)
            - (if i < k && Counts(script, p, r, i) then 1 else 0)
  {
    if k > 0 {
      FlyingAfterSet(script, p, i, x, r, k - 1);
    }
  }

  lemma {:induction false} FlyingMonotone(script: Script, p: seq<Phase>, r: ResourceId, j: nat, k: nat)
    requires j <= k <= |script.commands| == |p|
    ensures Flying(script, p, r, j) <= Flying(script, p, r, k)
    ensures j < k && Counts(script, p, r, j) ==> Flying(script, p, r, j) < Flying(script, p, r, k)
    decreases k
  {
    if j < k {
      FlyingMonotone(script, p, r, j, k - 1);
    }
  }

  lemma {:induction false} NoneFlying(script: Script, p: seq<Phase>, r: ResourceId, k: nat)
    requires k <= |script.commands| == |p|
    requires forall i :: 0 <= i < k ==> !Counts(script, p, r, i)
    ensures Flying(script, p, r, k) == 0
  {
    if k > 0 {
      NoneFlying(script, p, r, k - 1);
    }
  }

  /** For every position of the queue of live reads there is the read standing there. */
  lemma {:induction false} ReadAtPosition(script: Script, p: seq<Phase>, r: ResourceId, v: nat, k: nat) returns (i: nat)
    requires k <= |script.commands| == |p| && v < Flying(script, p, r, k)
    ensures i < k && Counts(script, p, r, i) && Flying(script, p, r, i) == v
  {
    if v < Flying(script, p, r, k - 1) {
      i := ReadAtPosition(script, p, r, v, k - 1);
    } else {
      i := k - 1;
    }
  }

  // ----- The invariants

  /** Which phases go with which commands and with the dispatcher's position. */
  predicate LayoutAt(script: Script, s: State, i: nat)
    requires Shape(script, s) && i < |s.phase|
  {
    var p := s.phase[i];
    && (p.Queued? <==> s.popped <= i)
    && (InHand(p) <==> s.loop.Serving? && i == s.popped - 1)
    && (InFlight(p) ==> IsRead(script.commands[i]))
    && (InHand(p) && !p.AtGate? ==> IsInline(script.commands[i]))
    && (script.commands[i].kind.Undecodable? ==> p.Queued? || p.Retired?)
    && (p.AwaitingTurn? ==> script.design.Tickets?)
  }

  ghost predicate Layout(script: Script, s: State) {
    && Shape(script, s)
    && forall i :: 0 <= i < |s.phase| ==> LayoutAt(script, s, i)
  }

  predicate InHand(p: Phase) {
    p.AtGate? || p.Admitted? || p.Executing? || p.Replying?
  }

  /** The guard's maps say that `n` reads on `r` are in flight. */
  predicate CountsAt(g: Guard, r: ResourceId, n: nat, tickets: bool) {
    && Get(g.count, r) == n
    && (r in g.count ==> g.count[r] > 0)
    && (tickets ==>
          && Get(g.nextTicket, r) == Get(g.served, r) + n
          && (r !in g.count ==> r !in g.nextTicket && r !in g.served))
  }

  /** The guard's maps count the reads in flight, resource by resource. */
  ghost predicate GuardCounts(script: Script, s: State)
    requires Shape(script, s)
  {
    forall r: ResourceId {:trigger Get(s.guard.count, r)} ::
      CountsAt(s.guard, r, FlyingAll(script, s, r), script.design.Tickets?)
  }

  /** A waiting read holds the ticket of its place in the queue of live reads, and a read past
      its turn is at the head of that queue. */
  ghost predicate Turns(script: Script, s: State)
    requires Shape(script, s)
  {
    forall i :: 0 <= i < |s.phase| ==> TurnAt(script, s, i)
  }

  predicate TurnAt(script: Script, s: State, i: nat)
    requires Shape(script, s) && i < |s.phase|
  {
    var r := script.commands[i].resource;
    && (s.phase[i].AwaitingTurn? ==>
          s.phase[i].ticket == Get(s.guard.served, r) + Flying(script, s.phase, r, i))
    && (PastTurn(s.phase[i]) ==> Flying(script, s.phase, r, i) == 0)
  }

  /** Two commands that must not overlap, the first one earlier in the queue. */
  predicate Conflict(design: Design, earlier: Command, later: Command) {
    || IsInline(earlier)
    || Blocks(design, later, earlier)
    || (IsRead(earlier) && IsRead(later) && earlier.resource == later.resource)
  }

  predicate Started(c: Command, p: Phase) {
    if IsRead(c) then PastTurn(p) || p.Retired?
    else p.Admitted? || p.Executing? || p.Replying? || (p.Retired? && IsInline(c))
  }

  predicate OrderedAt(script: Script, s: State, i: nat, j: nat)
    requires Shape(script, s) && i < j < |s.phase|
  {
    && Conflict(script.design, script.commands[i], script.commands[j])
    && Started(script.commands[j], s.phase[j])
    ==> s.phase[i].Retired?
  }

  /** A command starts only after every earlier one it conflicts with is over, guard
      bookkeeping included. */
  ghost predicate Ordered(script: Script, s: State)
    requires Shape(script, s)
  {
    forall i, j :: 0 <= i < j < |s.phase| ==> OrderedAt(script, s, i, j)
  }

  predicate SleepsWithReason(script: Script, s: State, i: nat)
    requires Shape(script, s) && i < |s.phase|
  {
    && (s.phase[i] == AtGate(true) ==> !GateOpen(s.guard, GateOf(script.design, script.commands[i])))
    && (s.phase[i].AwaitingTurn? && s.phase[i].parked ==>
          Get(s.guard.served, script.commands[i].resource) != s.phase[i].ticket)
  }

  /** Nobody sleeps on the condition variable while the condition waited for holds. */
  ghost predicate SleepersHaveReason(script: Script, s: State)
    requires Shape(script, s)
  {
    forall i :: 0 <= i < |s.phase| ==> SleepsWithReason(script, s, i)
  }

  /** An idle dispatcher with work on the queue has been, or is about to be, notified. */
  predicate NoLostKick(s: State) {
    && ((s.loop.Idle? || s.loop.Notifying?) && s.popped < s.published ==> s.event || s.unkicked)
    && (s.usedAny ==> !s.loop.Idle?)
    && (s.loop.Notifying? ==> s.usedAny)
  }

  predicate Returned(p: Phase) {
    p.Signalling? || p.Ending? || p.Retired?
  }

  /** In how many of the three places a descriptor can end up `i` stands. */
  function Places(s: State, i: nat): nat {
    (if i in s.used then 1 else 0) + (if i in s.fences then 1 else 0) + (if i in s.dropped then 1 else 0)
  }

  /** A descriptor given back is in exactly one place, any other in none. */
  predicate PlacedAt(s: State, i: nat) {
    Places(s, i) == if i < |s.phase| && Returned(s.phase[i]) then 1 else 0
  }

  ghost predicate NoRepeats(log: seq<nat>) {
    forall a, b :: 0 <= a < b < |log| ==> log[a] != log[b]
  }

  ghost predicate Descriptors(s: State) {
    NoRepeats(s.used) && forall i: nat :: PlacedAt(s, i)
  }

  /** Used entries the guest has not been interrupted for have somebody about to do it. */
  ghost predicate Interrupts(s: State) {
    && s.signalled <= |s.used|
    && (s.signalled < |s.used| ==>
          || s.usedAny
          || exists i :: 0 <= i < |s.phase| && s.phase[i].Signalling?)
  }

  predicate Effected(c: Command, p: Phase) {
    if IsRead(c) then p.Completing? || p.Signalling? || p.Ending? || p.Retired?
    else IsInline(c) && (p.Replying? || p.Retired?)
  }

  predicate LoggedAt(script: Script, s: State, x: nat)
    requires Shape(script, s)
  {
    x in s.effects <==> x < |s.phase| && Effected(script.commands[x], s.phase[x])
  }

  /** Conflicting commands stand in the log in queue order. */
  ghost predicate LogOrdered(script: Script, log: seq<nat>) {
    forall a, b :: 0 <= a < b < |log| && log[b] < log[a] < |script.commands| ==>
      !Conflict(script.design, script.commands[log[b]], script.commands[log[a]])
  }

  /** The effect log holds every finished transfer and execution exactly once. */
  ghost predicate EffectLog(script: Script, s: State)
    requires Shape(script, s)
  {
    NoRepeats(s.effects) && LogOrdered(script, s.effects) && forall x: nat :: LoggedAt(script, s, x)
  }

  ghost predicate Inv(script: Script, s: State) {
    && Layout(script, s)
    && GuardCounts(script, s)
    && Turns(script, s)
    && Ordered(script, s)
    && SleepersHaveReason(script, s)
    && NoLostKick(s)
    && Descriptors(s)
    && Interrupts(s)
    && EffectLog(script, s)
  }

  // ----- Preservation, invariant by invariant

  lemma InitInv(script: Script)
    requires WellFormed(script)
    ensures Inv(script, Init(script))
  {
    var s := Init(script);
    forall r: ResourceId
      ensures FlyingAll(script, s, r) == 0
    {
      NoneFlying(script, s.phase, r, |s.phase|);
    }
  }

  /** The steps by which one read advances without leaving the guard. */
  predicate IsFlightStep(step: Step) {
    step.TakeTurn? || step.ParkForTurn? || step.FinishTransfer? || step.Complete? || step.Signal?
  }

  /** The steps by which the dispatcher advances the command in its hands. */
  predicate IsCommandStep(step: Step) {
    step.PassGate? || step.ParkAtGate? || step.TakeLock? || step.Execute? || step.Reply?
  }

  /** The steps that touch neither a reader nor the command in the dispatcher's hands. */
  predicate IsQuietStep(step: Step) {
    || step.Publish? || step.Kick? || step.Wake? || step.PopEmpty? || step.Notify?
    || step.FenceFires? || step.SpuriousWake?
  }

  /** What a read's own step does to the phases and leaves alone. */
  ghost predicate FlightMoved(s: State, step: Step, s': State)
    requires IsFlightStep(step)
  {
    var i := step.reader;
    && i < |s.phase|
    && InFlight(s.phase[i]) && |s'.phase| == |s.phase| && InFlight(s'.phase[i])
    && s'.phase == s.phase[i := s'.phase[i]]
    && (s'.phase[i].AwaitingTurn? <==> step.ParkForTurn?)
    && (s.phase[i].AwaitingTurn? <==> step.TakeTurn? || step.ParkForTurn?)
    && (step.ParkForTurn? ==> s'.phase[i].ticket == s.phase[i].ticket)
    && s'.guard == s.guard && s'.loop == s.loop && s'.popped == s.popped
    && s'.published == s.published && s'.usedAny == s.usedAny
    && s'.event == s.event && s'.unkicked == s.unkicked
    && (!step.Complete? ==>
          && s'.used == s.used && s'.fences == s.fences && s'.dropped == s.dropped
          && Returned(s'.phase[i]) == Returned(s.phase[i]))
    && (step.FinishTransfer? || s'.effects == s.effects)
  }

  lemma FlightMoves(script: Script, s: State, step: Step)
    requires Shape(script, s) && Enabled(script, s, step) && IsFlightStep(step)
    ensures FlightMoved(s, step, Apply(script, s, step))
  {
    if step.Complete? {
      CompleteMoves(script, s, step);
    }
  }

  lemma CompleteMoves(script: Script, s: State, step: Step)
    requires Shape(script, s) && Enabled(script, s, step) && step.Complete?
    ensures FlightMoved(s, step, Apply(script, s, step))
  {
  }

  /** What a dispatcher's step on its command does to the phases and leaves alone. */
  ghost predicate CommandMoved(script: Script, s: State, step: Step, s': State)
    requires Shape(script, s)
  {
    var i := s.popped - 1;
    && 0 <= i < |s.phase|
    && InHand(s.phase[i]) && |s'.phase| == |s.phase| && s'.phase == s.phase[i := s'.phase[i]]
    && s'.popped == s.popped && s'.published == s.published
    && (s.loop.Serving?) && (s'.loop.Serving? || s'.loop.Popping?)
    && (s'.loop.Serving? <==> InHand(s'.phase[i]))
    && (InFlight(s'.phase[i]) <==> step.PassGate? && IsRead(script.commands[i]))
    && (s'.guard == s.guard || (step.PassGate? && IsRead(script.commands[i])))
    && s'.event == s.event && s'.unkicked == s.unkicked && s'.signalled == s.signalled
    && (!step.Reply? ==>
          && s'.used == s.used && s'.fences == s.fences && s'.dropped == s.dropped
          && !Returned(s'.phase[i]))
    && (step.Execute? || s'.effects == s.effects)
  }

  lemma PassGateMoves(script: Script, s: State)
    requires Shape(script, s) && Enabled(script, s, PassGate)
    ensures CommandMoved(script, s, PassGate, Apply(script, s, PassGate))
  {
  }

  lemma CommandMoves(script: Script, s: State, step: Step)
    requires Shape(script, s) && Enabled(script, s, step) && IsCommandStep(step)
    ensures CommandMoved(script, s, step, Apply(script, s, step))
  {
    if step.PassGate? {
      PassGateMoves(script, s);
    }
  }

  lemma LayoutAtKeptByCommand(script: Script, s: State, step: Step, k: nat)
    requires Shape(script, s) && Enabled(script, s, step) && k < |s.phase| && LayoutAt(script, s, k)
    requires IsCommandStep(step)
    requires LayoutAt(script, s, s.popped - 1)
    ensures LayoutAt(script, Apply(script, s, step), k)
  {
    CommandMoves(script, s, step);
  }

  lemma LayoutAtKeptByReader(script: Script, s: State, step: Step, k: nat)
    requires Shape(script, s) && Enabled(script, s, step) && k < |s.phase| && LayoutAt(script, s, k)
    requires IsFlightStep(step)
    ensures Shape(script, Apply(script, s, step)) && LayoutAt(script, Apply(script, s, step), k)
  {
    FlightMoves(script, s, step);
  }

  lemma LayoutAtKeptByOther(script: Script, s: State, step: Step, k: nat)
    requires Shape(script, s) && Enabled(script, s, step) && k < |s.phase| && LayoutAt(script, s, k)
    requires IsQuietStep(step)
    ensures Shape(script, Apply(script, s, step)) && LayoutAt(script, Apply(script, s, step), k)
  {
  }

  lemma LayoutAtKeptByQueue(script: Script, s: State, step: Step, k: nat)
    requires Shape(script, s) && Enabled(script, s, step) && k < |s.phase| && LayoutAt(script, s, k)
    requires step.Pop? || step.EndRead?
    ensures Shape(script, Apply(script, s, step)) && LayoutAt(script, Apply(script, s, step), k)
  {
  }

  lemma LayoutKept(script: Script, s: State, step: Step)
    requires Layout(script, s) && Enabled(script, s, step)
    ensures Layout(script, Apply(script, s, step))
  {
    ApplyKeepsShape(script, s, step);
    forall k | 0 <= k < |s.phase|
      ensures LayoutAt(script, Apply(script, s, step), k)
    {
      if IsCommandStep(step) {
        LayoutAtKeptByCommand(script, s, step, k);
      } else if IsFlightStep(step) {
        LayoutAtKeptByReader(script, s, step, k);
      } else if IsQuietStep(step) {
        LayoutAtKeptByOther(script, s, step, k);
      } else {
        LayoutAtKeptByQueue(script, s, step, k);
      }
    }
  }

  // ----- The guard and the turns

  predicate Defers(script: Script, s: State, step: Step)
    requires Shape(script, s) && Enabled(script, s, step)
  {
    step.PassGate? && IsRead(script.commands[s.popped - 1])
  }

  /** Only deferring a read and ending one change who is in flight, or the guard. */
  lemma SameFlight(script: Script, s: State, step: Step)
    requires Layout(script, s) && Enabled(script, s, step)
    requires !step.EndRead? && !Defers(script, s, step)
    ensures var s' := Apply(script, s, step);
            && s'.guard == s.guard
            && |s'.phase| == |s.phase|
            && forall i :: 0 <= i < |s.phase| ==> InFlight(s'.phase[i]) == InFlight(s.phase[i])
  {
    if IsFlightStep(step) {
      FlightMoves(script, s, step);
    } else if IsCommandStep(step) {
      CommandMoves(script, s, step);
    } else {
      SameFlightElsewhere(script, s, step);
    }
  }

  lemma SameFlightElsewhere(script: Script, s: State, step: Step)
    requires Shape(script, s) && Enabled(script, s, step) && (IsQuietStep(step) || step.Pop?)
    requires step.Pop? ==> LayoutAt(script, s, s.popped)
    ensures var s' := Apply(script, s, step);
            && s'.guard == s.guard
            && |s'.phase| == |s.phase|
            && forall i :: 0 <= i < |s.phase| ==> InFlight(s'.phase[i]) == InFlight(s.phase[i])
  {
  }

  lemma {:induction false} FlyingTail(script: Script, p: seq<Phase>, r: ResourceId, j: nat, k: nat)
    requires j <= k <= |script.commands| == |p|
    requires forall i :: j <= i < k ==> !InFlight(p[i])
    ensures Flying(script, p, r, j) == Flying(script, p, r, k)
    decreases k
  {
    if j < k {
      FlyingTail(script, p, r, j, k - 1);
    }
  }

  lemma FlyingAfterEnd(script: Script, s: State, i: nat, r: ResourceId, k: nat)
    requires Layout(script, s) && Enabled(script, s, EndRead(i)) && k <= |s.phase|
    ensures var p := Apply(script, s, EndRead(i)).phase;
            && |p| == |s.phase|
            && Flying(script, p, r, k) ==
               Flying(script, s.phase, r, k)
               - (if i < k && script.commands[i].resource == r then 1 else 0)
  {
    var p := Apply(script, s, EndRead(i)).phase;
    FlyingAgrees(script, s.phase[i := Retired], p, r, k);
    FlyingAfterSet(script, s.phase, i, Retired, r, k);
  }

  lemma FlyingAfterDefer(script: Script, s: State, r: ResourceId, k: nat)
    requires Layout(script, s) && Enabled(script, s, PassGate) && Defers(script, s, PassGate)
    requires k <= |s.phase|
    ensures var i := s.popped - 1; var p := Apply(script, s, PassGate).phase;
            && |p| == |s.phase|
            && Flying(script, p, r, k) ==
               Flying(script, s.phase, r, k)
               + (if i < k && script.commands[i].resource == r then 1 else 0)
  {
    var i := s.popped - 1;
    var x := Apply(script, s, PassGate).phase[i];
    FlyingAfterSet(script, s.phase, i, x, r, k);
  }

  lemma GuardCountsAfterDefer(script: Script, s: State)
    requires Layout(script, s) && GuardCounts(script, s)
    requires Enabled(script, s, PassGate) && Defers(script, s, PassGate)
    requires Layout(script, Apply(script, s, PassGate))
    ensures GuardCounts(script, Apply(script, s, PassGate))
  {
    var s' := Apply(script, s, PassGate);
    forall r: ResourceId
      ensures CountsAt(s'.guard, r, FlyingAll(script, s', r), script.design.Tickets?)
    {
      FlyingAfterDefer(script, s, r, |s.phase|);
      assert Get(s.guard.count, r) == FlyingAll(script, s, r);
    }
  }

  function GuardAfterEnd(script: Script, g: Guard, r: ResourceId): Guard {
    if script.design.Tickets? then AfterEnd(g, r) else AfterEndCountOnly(g, r)
  }

  lemma CountsAtAfterEnd(script: Script, g: Guard, x: ResourceId, r: ResourceId, n: nat)
    requires CountsAt(g, r, n, script.design.Tickets?) && Get(g.count, x) > 0
    ensures n >= if r == x then 1 else 0
    ensures CountsAt(GuardAfterEnd(script, g, x), r, n - if r == x then 1 else 0, script.design.Tickets?)
  {
  }

  lemma GuardCountsAfterEnd(script: Script, s: State, i: nat)
    requires Layout(script, s) && GuardCounts(script, s) && Enabled(script, s, EndRead(i))
    requires Layout(script, Apply(script, s, EndRead(i)))
    ensures GuardCounts(script, Apply(script, s, EndRead(i)))
  {
    var s' := Apply(script, s, EndRead(i));
    var x := script.commands[i].resource;
    FlyingMonotone(script, s.phase, x, i, |s.phase|);
    assert Get(s.guard.count, x) == FlyingAll(script, s, x) > 0;
    assert s'.guard == GuardAfterEnd(script, s.guard, x);
    forall r: ResourceId
      ensures CountsAt(s'.guard, r, FlyingAll(script, s', r), script.design.Tickets?)
    {
      FlyingAfterEnd(script, s, i, r, |s.phase|);
      assert Get(s.guard.count, r) == FlyingAll(script, s, r);
      CountsAtAfterEnd(script, s.guard, x, r, FlyingAll(script, s, r));
    }
  }

  lemma GuardCountsKept(script: Script, s: State, step: Step)
    requires Layout(script, s) && GuardCounts(script, s) && Enabled(script, s, step)
    requires Layout(script, Apply(script, s, step))
    ensures GuardCounts(script, Apply(script, s, step))
  {
    if step.EndRead? {
      GuardCountsAfterEnd(script, s, step.reader);
    } else if Defers(script, s, step) {
      GuardCountsAfterDefer(script, s);
    } else {
      SameFlight(script, s, step);
      SameCounts(script, s, Apply(script, s, step));
    }
  }

  lemma SameCounts(script: Script, s: State, s': State)
    requires Shape(script, s) && Shape(script, s') && GuardCounts(script, s) && s'.guard == s.guard
    requires forall i :: 0 <= i < |s.phase| ==> InFlight(s'.phase[i]) == InFlight(s.phase[i])
    ensures GuardCounts(script, s')
  {
    forall r: ResourceId
      ensures CountsAt(s'.guard, r, FlyingAll(script, s', r), script.design.Tickets?)
    {
      FlyingAgrees(script, s.phase, s'.phase, r, |s.phase|);
      assert Get(s.guard.count, r) == FlyingAll(script, s, r);
    }
  }

  lemma TurnAfterEnd(script: Script, s: State, i: nat, k: nat)
    requires Layout(script, s) && GuardCounts(script, s) && Enabled(script, s, EndRead(i))
    requires Layout(script, Apply(script, s, EndRead(i)))
    requires k < |s.phase| && TurnAt(script, s, i) && TurnAt(script, s, k)
    ensures TurnAt(script, Apply(script, s, EndRead(i)), k)
  {
    var s' := Apply(script, s, EndRead(i));
    var x := script.commands[i].resource;
    var r := script.commands[k].resource;
    FlyingAfterEnd(script, s, i, r, k);
    assert s'.phase[k] == Unparked(s.phase[i := Retired][k]);
    assert LayoutAt(script, s, k);
    if InFlight(s.phase[k]) && k != i && r == x {
      if k < i {
        FlyingMonotone(script, s.phase, r, k, i);
        assert false;
      }
      FlyingMonotone(script, s.phase, r, i, k);
      FlyingMonotone(script, s.phase, r, k, |s.phase|);
      assert Get(s.guard.count, r) == FlyingAll(script, s, r) > 1;
    }
  }

  lemma TurnAfterDefer(script: Script, s: State, k: nat)
    requires Layout(script, s) && GuardCounts(script, s)
    requires Enabled(script, s, PassGate) && Defers(script, s, PassGate)
    requires Layout(script, Apply(script, s, PassGate))
    requires k < |s.phase| && TurnAt(script, s, k)
    ensures TurnAt(script, Apply(script, s, PassGate), k)
  {
    var i := s.popped - 1;
    var r := script.commands[k].resource;
    FlyingAfterDefer(script, s, r, k);
    forall j | i <= j < |s.phase|
      ensures !InFlight(s.phase[j])
    {
      assert LayoutAt(script, s, j);
    }
    FlyingTail(script, s.phase, script.commands[i].resource, i, |s.phase|);
    assert Get(s.guard.count, script.commands[i].resource)
           == FlyingAll(script, s, script.commands[i].resource);
  }

  lemma TurnAfterOther(script: Script, s: State, step: Step, k: nat)
    requires Layout(script, s) && Enabled(script, s, step)
    requires !step.EndRead? && !Defers(script, s, step)
    requires Layout(script, Apply(script, s, step))
    requires k < |s.phase| && TurnAt(script, s, k)
    ensures TurnAt(script, Apply(script, s, step), k)
  {
    var s' := Apply(script, s, step);
    SameFlight(script, s, step);
    FlyingAgrees(script, s.phase, s'.phase, script.commands[k].resource, k);
    if IsFlightStep(step) {
      FlightMoves(script, s, step);
      TurnAfterFlight(script, s, step, s', k);
    } else {
      NoNewTurn(script, s, step, k);
      TurnFollows(script, s, s', k);
    }
  }

  /** Whoever has a ticket or its turn after has it before. */
  predicate NoNewerTurn(before: Phase, after: Phase) {
    && (after.AwaitingTurn? ==> before.AwaitingTurn? && before.ticket == after.ticket)
    && (PastTurn(after) ==> PastTurn(before))
  }

  lemma TurnFollows(script: Script, s: State, s': State, k: nat)
    requires Shape(script, s) && Shape(script, s') && s'.guard == s.guard
    requires k < |s.phase| && TurnAt(script, s, k) && NoNewerTurn(s.phase[k], s'.phase[k])
    requires var r := script.commands[k].resource; Flying(script, s'.phase, r, k) == Flying(script, s.phase, r, k)
    ensures TurnAt(script, s', k)
  {
  }

  lemma NoNewTurn(script: Script, s: State, step: Step, k: nat)
    requires Shape(script, s) && Enabled(script, s, step)
    requires !step.EndRead? && !Defers(script, s, step) && !IsFlightStep(step)
    requires k < |s.phase|
    ensures NoNewerTurn(s.phase[k], Apply(script, s, step).phase[k])
  {
    if IsCommandStep(step) {
      CommandMoves(script, s, step);
    }
  }

  lemma TurnAfterFlight(script: Script, s: State, step: Step, s': State, k: nat)
    requires Shape(script, s) && Shape(script, s') && Enabled(script, s, step)
    requires IsFlightStep(step) && FlightMoved(s, step, s') && k < |s.phase| && TurnAt(script, s, k)
    requires var r := script.commands[k].resource; Flying(script, s'.phase, r, k) == Flying(script, s.phase, r, k)
    ensures TurnAt(script, s', k)
  {
  }

  lemma TurnsKept(script: Script, s: State, step: Step)
    requires Layout(script, s) && GuardCounts(script, s) && Turns(script, s) && Enabled(script, s, step)
    requires Layout(script, Apply(script, s, step))
    ensures Turns(script, Apply(script, s, step))
  {
    forall k | 0 <= k < |s.phase|
      ensures TurnAt(script, Apply(script, s, step), k)
    {
      assert TurnAt(script, s, k);
      if step.EndRead? {
        assert TurnAt(script, s, step.reader);
        TurnAfterEnd(script, s, step.reader, k);
      } else if Defers(script, s, step) {
        TurnAfterDefer(script, s, k);
      } else {
        TurnAfterOther(script, s, step, k);
      }
    }
  }

  // ----- Order, sleepers, kicks

  lemma OverIfNotAnywhere(script: Script, s: State, i: nat)
    requires Layout(script, s) && i < |s.phase|
    requires i < s.popped && !InFlight(s.phase[i]) && !(s.loop.Serving? && i == s.popped - 1)
    ensures s.phase[i].Retired?
  {
    assert LayoutAt(script, s, i);
  }

  /** Whatever lets `j` start leaves nothing it conflicts with before it. */
  lemma ConflictsAreOver(script: Script, s: State, i: nat, j: nat)
    requires Layout(script, s) && GuardCounts(script, s) && i < j < |s.phase| && j < s.popped
    requires Conflict(script.design, script.commands[i], script.commands[j])
    requires
      || (Serves(s, AtGate(false)) && j == s.popped - 1
          && GateOpen(s.guard, GateOf(script.design, script.commands[j]))
          && (IsRead(script.commands[j]) ==> !script.design.Tickets?))
      || (IsRead(script.commands[j]) && script.design.Tickets?
          && Flying(script, s.phase, script.commands[j].resource, j) == 0)
    ensures s.phase[i].Retired?
  {
    assert LayoutAt(script, s, i);
    var r := script.commands[i].resource;
    FlyingMonotone(script, s.phase, r, i, j);
    FlyingMonotone(script, s.phase, r, i, |s.phase|);
    assert Get(s.guard.count, r) == FlyingAll(script, s, r);
    if InFlight(s.phase[i]) {
      assert false;
    }
    OverIfNotAnywhere(script, s, i);
  }

  /** Nothing starts in a step except a read taking its turn and a command passing its gate. */
  lemma StartsOnlyThere(script: Script, s: State, step: Step, j: nat)
    requires Layout(script, s) && Enabled(script, s, step) && j < |s.phase|
    requires Layout(script, Apply(script, s, step))
    requires Started(script.commands[j], Apply(script, s, step).phase[j])
    requires !Started(script.commands[j], s.phase[j])
    ensures
      || step == TakeTurn(j)
      || (step.PassGate? && j == s.popped - 1 && (IsRead(script.commands[j]) ==> !script.design.Tickets?))
  {
    assert LayoutAt(script, s, j);
    if IsFlightStep(step) {
      FlightMoves(script, s, step);
    } else if IsCommandStep(step) {
      StartsInHand(script, s, step, j);
    } else {
      NothingStarts(script, s, step, j);
    }
  }

  lemma StartsInHand(script: Script, s: State, step: Step, j: nat)
    requires Shape(script, s) && Enabled(script, s, step) && j < |s.phase| && IsCommandStep(step)
    requires LayoutAt(script, s, j) && Shape(script, Apply(script, s, step))
    requires Started(script.commands[j], Apply(script, s, step).phase[j])
    requires !Started(script.commands[j], s.phase[j])
    ensures step.PassGate? && j == s.popped - 1 && (IsRead(script.commands[j]) ==> !script.design.Tickets?)
  {
    CommandMoves(script, s, step);
  }

  lemma NothingStarts(script: Script, s: State, step: Step, j: nat)
    requires Shape(script, s) && Enabled(script, s, step) && j < |s.phase|
    requires LayoutAt(script, s, j) && Shape(script, Apply(script, s, step))
    requires IsQuietStep(step) || step.Pop? || step.EndRead?
    ensures Started(script.commands[j], Apply(script, s, step).phase[j]) ==> Started(script.commands[j], s.phase[j])
  {
  }

  /** A retired command stays retired. */
  lemma RetiredStays(script: Script, s: State, step: Step, i: nat)
    requires Layout(script, s) && Enabled(script, s, step) && i < |s.phase| && s.phase[i].Retired?
    ensures |Apply(script, s, step).phase| == |s.phase| && Apply(script, s, step).phase[i].Retired?
  {
    assert LayoutAt(script, s, i);
    if IsFlightStep(step) {
      FlightMoves(script, s, step);
    } else if IsCommandStep(step) {
      CommandMoves(script, s, step);
    }
  }

  lemma OrderedKept(script: Script, s: State, step: Step)
    requires Layout(script, s) && GuardCounts(script, s) && Turns(script, s) && Ordered(script, s)
    requires Enabled(script, s, step) && Layout(script, Apply(script, s, step))
    ensures Ordered(script, Apply(script, s, step))
  {
    var s' := Apply(script, s, step);
    forall i, j | 0 <= i < j < |s.phase|
      ensures OrderedAt(script, s', i, j)
    {
      if Conflict(script.design, script.commands[i], script.commands[j])
         && Started(script.commands[j], s'.phase[j]) {
        assert OrderedAt(script, s, i, j);
        if !Started(script.commands[j], s.phase[j]) {
          StartsOnlyThere(script, s, step, j);
          assert LayoutAt(script, s, j) && TurnAt(script, s, j);
          ConflictsAreOver(script, s, i, j);
        }
        RetiredStays(script, s, step, i);
      }
    }
  }

  lemma SleepersKept(script: Script, s: State, step: Step)
    requires Layout(script, s) && SleepersHaveReason(script, s)
    requires Enabled(script, s, step) && Layout(script, Apply(script, s, step))
    ensures SleepersHaveReason(script, Apply(script, s, step))
  {
    forall k | 0 <= k < |s.phase|
      ensures SleepsWithReason(script, Apply(script, s, step), k)
    {
      assert SleepsWithReason(script, s, k) && LayoutAt(script, s, k);
      if IsFlightStep(step) {
        SleeperAfterFlight(script, s, step, k);
      } else if IsCommandStep(step) {
        SleeperAfterCommand(script, s, step, k);
      } else if step.EndRead? {
        SleeperAfterEnd(script, s, step.reader, k);
      } else if step.Pop? {
        SleeperAfterPop(script, s, k);
      } else {
        SleeperAfterQuiet(script, s, step, k);
      }
    }
  }

  lemma SleeperAfterFlight(script: Script, s: State, step: Step, k: nat)
    requires Shape(script, s) && Enabled(script, s, step) && IsFlightStep(step) && Shape(script, Apply(script, s, step))
    requires k < |s.phase| && SleepsWithReason(script, s, k)
    ensures SleepsWithReason(script, Apply(script, s, step), k)
  {
    FlightMoves(script, s, step);
  }

  lemma SleeperAfterCommand(script: Script, s: State, step: Step, k: nat)
    requires Shape(script, s) && Enabled(script, s, step) && IsCommandStep(step) && Shape(script, Apply(script, s, step))
    requires k < |s.phase| && SleepsWithReason(script, s, k) && LayoutAt(script, s, k)
    ensures SleepsWithReason(script, Apply(script, s, step), k)
  {
    CommandMoves(script, s, step);
  }

  lemma SleeperAfterQuiet(script: Script, s: State, step: Step, k: nat)
    requires Shape(script, s) && Enabled(script, s, step) && Shape(script, Apply(script, s, step)) && IsQuietStep(step)
    requires k < |s.phase| && SleepsWithReason(script, s, k)
    ensures SleepsWithReason(script, Apply(script, s, step), k)
  {
  }

  lemma SleeperAfterPop(script: Script, s: State, k: nat)
    requires Shape(script, s) && Enabled(script, s, Pop) && Shape(script, Apply(script, s, Pop))
    requires k < |s.phase| && SleepsWithReason(script, s, k)
    ensures SleepsWithReason(script, Apply(script, s, Pop), k)
  {
  }

  /** Ending a read wakes everybody. */
  lemma SleeperAfterEnd(script: Script, s: State, i: nat, k: nat)
    requires Shape(script, s) && Enabled(script, s, EndRead(i)) && Shape(script, Apply(script, s, EndRead(i)))
    requires k < |s.phase|
    ensures SleepsWithReason(script, Apply(script, s, EndRead(i)), k)
  {
    assert Apply(script, s, EndRead(i)).phase[k] == Unparked(s.phase[i := Retired][k]);
  }

  lemma NoLostKickKept(script: Script, s: State, step: Step)
    requires Shape(script, s) && NoLostKick(s) && Enabled(script, s, step)
    ensures NoLostKick(Apply(script, s, step))
  {
    if IsFlightStep(step) {
      FlightMoves(script, s, step);
    } else if IsCommandStep(step) {
      CommandMoves(script, s, step);
    }
  }

  // ----- Descriptors, interrupts, the log

  predicate GivesBack(script: Script, s: State, step: Step)
    requires Shape(script, s) && Enabled(script, s, step)
  {
    || step.Reply? || step.Complete? || step.FenceFires?
    || (step.Pop? && script.commands[s.popped].kind.Undecodable?)
  }

  /** Steps that put no descriptor anywhere leave every descriptor where it is. */
  lemma SamePlaces(script: Script, s: State, step: Step, i: nat)
    requires Layout(script, s) && Enabled(script, s, step)
    requires !GivesBack(script, s, step) && !step.EndRead?
    ensures var s' := Apply(script, s, step);
            && s'.used == s.used && s'.fences == s.fences && s'.dropped == s.dropped
            && |s'.phase| == |s.phase|
            && (i < |s.phase| ==> Returned(s'.phase[i]) == Returned(s.phase[i]))
  {
    if i < |s.phase| {
      assert LayoutAt(script, s, i);
    }
    if IsFlightStep(step) {
      FlightMoves(script, s, step);
    } else if IsCommandStep(step) {
      CommandMoves(script, s, step);
    } else {
      SamePlacesElsewhere(script, s, step, i);
    }
  }

  lemma SamePlacesElsewhere(script: Script, s: State, step: Step, i: nat)
    requires Shape(script, s) && Enabled(script, s, step) && (IsQuietStep(step) || step.Pop?)
    requires !GivesBack(script, s, step) && (i < |s.phase| ==> LayoutAt(script, s, i))
    ensures var s' := Apply(script, s, step);
            && s'.used == s.used && s'.fences == s.fences && s'.dropped == s.dropped
            && |s'.phase| == |s.phase|
            && (i < |s.phase| ==> Returned(s'.phase[i]) == Returned(s.phase[i]))
  {
  }

  lemma PlacedAfterComplete(script: Script, s: State, step: Step, i: nat)
    requires Layout(script, s) && Enabled(script, s, step) && step.Complete? && PlacedAt(s, i)
    ensures PlacedAt(Apply(script, s, step), i)
  {
  }

  lemma PlacedAfterGivingBack(script: Script, s: State, step: Step, i: nat)
    requires Layout(script, s) && Enabled(script, s, step) && PlacedAt(s, i)
    requires GivesBack(script, s, step) && !step.Complete?
    requires i < |s.phase| ==> LayoutAt(script, s, i)
    ensures PlacedAt(Apply(script, s, step), i)
  {
  }

  lemma DescriptorsAfterGivingBack(script: Script, s: State, step: Step)
    requires Layout(script, s) && Descriptors(s) && Enabled(script, s, step)
    requires GivesBack(script, s, step)
    ensures NoRepeats(Apply(script, s, step).used)
  {
    if step.Complete? {
      assert PlacedAt(s, step.reader);
    } else if step.FenceFires? {
      assert PlacedAt(s, step.command);
    } else if step.Reply? {
      assert PlacedAt(s, s.popped - 1);
    }
  }

  lemma DescriptorsKept(script: Script, s: State, step: Step)
    requires Layout(script, s) && Descriptors(s) && Enabled(script, s, step)
    ensures Descriptors(Apply(script, s, step))
  {
    forall i: nat
      ensures PlacedAt(Apply(script, s, step), i)
    {
      assert PlacedAt(s, i);
      if step.Complete? {
        PlacedAfterComplete(script, s, step, i);
      } else if GivesBack(script, s, step) {
        PlacedAfterGivingBack(script, s, step, i);
      } else if !step.EndRead? {
        SamePlaces(script, s, step, i);
      }
    }
    if GivesBack(script, s, step) {
      DescriptorsAfterGivingBack(script, s, step);
    } else if !step.EndRead? {
      SamePlaces(script, s, step, 0);
    }
  }

  lemma SignallerStays(script: Script, s: State, step: Step, i: nat)
    requires Layout(script, s) && Enabled(script, s, step) && i < |s.phase| && s.phase[i].Signalling?
    requires !step.Signal?
    ensures var s' := Apply(script, s, step); |s'.phase| == |s.phase| && s'.phase[i].Signalling?
  {
    assert LayoutAt(script, s, i);
    if IsFlightStep(step) {
      FlightMoves(script, s, step);
    } else if IsCommandStep(step) {
      CommandMoves(script, s, step);
    }
  }

  lemma InterruptsKept(script: Script, s: State, step: Step)
    requires Layout(script, s) && Interrupts(s) && NoLostKick(s) && Enabled(script, s, step)
    ensures Interrupts(Apply(script, s, step))
  {
    if s.signalled < |s.used| && !s.usedAny && !step.Signal? {
      var i :| 0 <= i < |s.phase| && s.phase[i].Signalling?;
      SignallerStays(script, s, step, i);
    }
    if step.Complete? {
      InterruptsAfterComplete(script, s, step);
    } else if step.Reply? || step.Notify? || step.Signal? || step.FenceFires? {
      InterruptsAfterUse(script, s, step);
    } else {
      UsedUntouched(script, s, step);
    }
  }

  lemma InterruptsAfterComplete(script: Script, s: State, step: Step)
    requires Shape(script, s) && Interrupts(s) && Enabled(script, s, step) && step.Complete?
    requires s.signalled < |s.used| ==>
      s.usedAny || exists i :: 0 <= i < |s.phase| == |Apply(script, s, step).phase| && Apply(script, s, step).phase[i].Signalling?
    ensures Interrupts(Apply(script, s, step))
  {
    assert step.outcome.Plain? || step.outcome.FenceDone? ==> Apply(script, s, step).phase[step.reader].Signalling?;
  }

  /** The steps that reply, or that interrupt the guest for all that is used. */
  lemma InterruptsAfterUse(script: Script, s: State, step: Step)
    requires Shape(script, s) && Interrupts(s) && Enabled(script, s, step)
    requires step.Reply? || step.Notify? || step.Signal? || step.FenceFires?
    requires step.Reply? && s.signalled < |s.used| ==>
      s.usedAny || exists i :: 0 <= i < |s.phase| == |Apply(script, s, step).phase| && Apply(script, s, step).phase[i].Signalling?
    ensures Interrupts(Apply(script, s, step))
  {
  }

  lemma UsedUntouched(script: Script, s: State, step: Step)
    requires Shape(script, s) && Enabled(script, s, step) && NoLostKick(s)
    requires !step.Complete? && !step.Reply? && !step.Notify? && !step.Signal? && !step.FenceFires?
    ensures var s' := Apply(script, s, step);
      s'.used == s.used && s'.signalled == s.signalled && s'.usedAny == s.usedAny
  {
  }

  predicate Effects(step: Step) {
    step.Execute? || step.FinishTransfer?
  }

  lemma LoggedAfterEffect(script: Script, s: State, step: Step, x: nat)
    requires Layout(script, s) && Enabled(script, s, step) && Effects(step)
    requires LoggedAt(script, s, x) && (x < |s.phase| ==> LayoutAt(script, s, x))
    requires Layout(script, Apply(script, s, step))
    ensures LoggedAt(script, Apply(script, s, step), x)
  {
  }

  ghost predicate LogUntouched(script: Script, s: State, step: Step, x: nat)
    requires Shape(script, s) && Enabled(script, s, step) && Shape(script, Apply(script, s, step))
  {
    LoggedAt(script, Apply(script, s, step), x) && Apply(script, s, step).effects == s.effects
  }

  lemma LoggedAfterFlight(script: Script, s: State, step: Step, x: nat)
    requires Layout(script, s) && Enabled(script, s, step) && IsFlightStep(step) && !Effects(step)
    requires LoggedAt(script, s, x) && (x < |s.phase| ==> LayoutAt(script, s, x))
    requires Layout(script, Apply(script, s, step))
    ensures LogUntouched(script, s, step, x)
  {
    FlightMoves(script, s, step);
  }

  lemma LoggedAfterCommand(script: Script, s: State, step: Step, x: nat)
    requires Layout(script, s) && Enabled(script, s, step) && IsCommandStep(step) && !Effects(step)
    requires LoggedAt(script, s, x) && (x < |s.phase| ==> LayoutAt(script, s, x))
    requires Layout(script, Apply(script, s, step))
    ensures LogUntouched(script, s, step, x)
  {
    CommandMoves(script, s, step);
  }

  lemma LoggedAfterQuiet(script: Script, s: State, step: Step, x: nat)
    requires Layout(script, s) && Enabled(script, s, step) && IsQuietStep(step)
    requires LoggedAt(script, s, x) && (x < |s.phase| ==> LayoutAt(script, s, x))
    requires Layout(script, Apply(script, s, step))
    ensures LogUntouched(script, s, step, x)
  {
  }

  lemma LoggedAfterQueue(script: Script, s: State, step: Step, x: nat)
    requires Layout(script, s) && Enabled(script, s, step) && (step.Pop? || step.EndRead?)
    requires LoggedAt(script, s, x) && (x < |s.phase| ==> LayoutAt(script, s, x))
    requires Layout(script, Apply(script, s, step))
    ensures LogUntouched(script, s, step, x)
  {
  }

  lemma LoggedAfterOther(script: Script, s: State, step: Step, x: nat)
    requires Layout(script, s) && Enabled(script, s, step) && !Effects(step)
    requires LoggedAt(script, s, x) && (x < |s.phase| ==> LayoutAt(script, s, x))
    requires Layout(script, Apply(script, s, step))
    ensures LogUntouched(script, s, step, x)
  {
    if IsFlightStep(step) {
      LoggedAfterFlight(script, s, step, x);
    } else if IsCommandStep(step) {
      LoggedAfterCommand(script, s, step, x);
    } else if IsQuietStep(step) {
      LoggedAfterQuiet(script, s, step, x);
    } else {
      LoggedAfterQueue(script, s, step, x);
    }
  }

  /** The command whose effect a step logs. */
  function Effecting(s: State, step: Step): nat
    requires Effects(step) && (step.Execute? ==> s.popped > 0)
  {
    if step.Execute? then s.popped - 1 else step.reader
  }

  /** When `j` takes effect nothing after it that it conflicts with has. */
  lemma EffectComesInOrder(script: Script, s: State, step: Step)
    requires Layout(script, s) && Ordered(script, s) && EffectLog(script, s) && Enabled(script, s, step)
    requires Effects(step)
    ensures LogOrdered(script, s.effects + [Effecting(s, step)])
    ensures NoRepeats(s.effects + [Effecting(s, step)])
  {
    var j := Effecting(s, step);
    assert LoggedAt(script, s, j);
    forall a | 0 <= a < |s.effects| && j < s.effects[a] < |script.commands|
      ensures !Conflict(script.design, script.commands[j], script.commands[s.effects[a]])
    {
      var e := s.effects[a];
      assert e in s.effects;
      assert LoggedAt(script, s, e) && OrderedAt(script, s, j, e) && LayoutAt(script, s, e);
    }
  }

  lemma EffectLogKept(script: Script, s: State, step: Step)
    requires Layout(script, s) && Ordered(script, s) && EffectLog(script, s) && Enabled(script, s, step)
    requires Layout(script, Apply(script, s, step))
    ensures EffectLog(script, Apply(script, s, step))
  {
    var s' := Apply(script, s, step);
    forall x: nat
      ensures LoggedAt(script, s', x)
    {
      assert LoggedAt(script, s, x);
      if Effects(step) {
        LoggedAfterEffect(script, s, step, x);
      } else {
        LoggedAfterOther(script, s, step, x);
      }
    }
    if Effects(step) {
      EffectComesInOrder(script, s, step);
      assert s'.effects == s.effects + [Effecting(s, step)];
    } else {
      assert LoggedAt(script, s, |s.phase|);
      LoggedAfterOther(script, s, step, |s.phase|);
    }
  }

  lemma InvKept(script: Script, s: State, step: Step)
    requires Inv(script, s) && Enabled(script, s, step)
    ensures Inv(script, Apply(script, s, step))
  {
    LayoutKept(script, s, step);
    GuardCountsKept(script, s, step);
    TurnsKept(script, s, step);
    OrderedKept(script, s, step);
    SleepersKept(script, s, step);
    NoLostKickKept(script, s, step);
    DescriptorsKept(script, s, step);
    InterruptsKept(script, s, step);
    EffectLogKept(script, s, step);
  }

  /** Every state any run can reach satisfies all of it. */
  lemma {:induction false} ExecInv(script: Script, steps: seq<Step>)
    requires WellFormed(script) && Exec(script, steps).Some?
    ensures Inv(script, Exec(script, steps).value)
  {
    if steps == [] {
      InitInv(script);
    } else {
      var n := |steps| - 1;
      ExecInv(script, steps[..n]);
      InvKept(script, Exec(script, steps[..n]).value, steps[n]);
    }
  }

  lemma ReachableInv(script: Script, s: State)
    requires WellFormed(script) && Reachable(script, s)
    ensures Inv(script, s)
  {
    var steps: seq<Step> :| Exec(script, steps) == Some(s);
    ExecInv(script, steps);
  }
}
