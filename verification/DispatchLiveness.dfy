/** Which queues the worker gets through, for each published version of the guard. */
module DispatchLiveness {
  import opened Wrappers
  import opened DeferredGuard
  import opened Dispatch
  import opened DispatchInvariants

  // ----- Stuck runs

  /** Read `i` needs command `f`, and something from after `i` up to `f` itself waits for `i`. */
  predicate Obstructs(script: Script, i: nat, b: nat, f: nat) {
    && i < b <= f < |script.commands| == |script.feeds|
    && IsRead(script.commands[i])
    && f in script.feeds[i]
    && Blocks(script.design, script.commands[b], script.commands[i])
  }

  ghost predicate Obstructed(script: Script) {
    exists i: nat, b: nat, f: nat :: Obstructs(script, i, b, f)
  }

  /** The dispatcher is not past the gate of `b`, and `i` has not finished its transfer. */
  predicate StuckBefore(s: State, i: nat, b: nat) {
    && i < b < |s.phase|
    && s.popped <= b + 1
    && (s.popped == b + 1 ==> s.loop.Serving? && s.phase[b].AtGate?)
    && (s.phase[i].Queued? || s.phase[i].AtGate? || s.phase[i].AwaitingTurn? || s.phase[i].Transferring?)
  }

  /** At the gate of `b` the dispatcher finds `i` in flight. */
  lemma ClosedByRead(script: Script, s: State, i: nat, b: nat)
    requires Layout(script, s) && GuardCounts(script, s) && StuckBefore(s, i, b) && s.popped == b + 1
    requires Blocks(script.design, script.commands[b], script.commands[i])
    ensures !GateOpen(s.guard, GateOf(script.design, script.commands[b]))
  {
    var r := script.commands[i].resource;
    assert LayoutAt(script, s, i);
    FlyingMonotone(script, s.phase, r, i, |s.phase|);
    assert Get(s.guard.count, r) == FlyingAll(script, s, r);
  }

  lemma FeedNotServiced(script: Script, s: State, i: nat, b: nat, f: nat)
    requires Layout(script, s) && StuckBefore(s, i, b) && b <= f < |s.phase|
    ensures !Serviced(s, f)
  {
    assert LayoutAt(script, s, f);
  }

  lemma StaysStuckInHand(script: Script, s: State, step: Step, i: nat, b: nat)
    requires Shape(script, s) && Enabled(script, s, step) && StuckBefore(s, i, b) && IsCommandStep(step)
    requires LayoutAt(script, s, i) && LayoutAt(script, s, b) && IsRead(script.commands[i])
    requires s.popped == b + 1 ==> !GateOpen(s.guard, GateOf(script.design, script.commands[b]))
    ensures StuckBefore(Apply(script, s, step), i, b)
  {
    CommandMoves(script, s, step);
  }

  lemma StaysStuck(script: Script, s: State, step: Step, i: nat, b: nat)
    requires Shape(script, s) && Enabled(script, s, step) && StuckBefore(s, i, b)
    requires LayoutAt(script, s, i) && LayoutAt(script, s, b)
    requires IsRead(script.commands[i]) && !Fed(script, s, i)
    requires !script.commands[b].kind.Undecodable?
    requires s.popped == b + 1 ==> !GateOpen(s.guard, GateOf(script.design, script.commands[b]))
    ensures StuckBefore(Apply(script, s, step), i, b)
  {
    if IsFlightStep(step) {
      FlightMoves(script, s, step);
    } else if IsCommandStep(step) {
      StaysStuckInHand(script, s, step, i, b);
    } else {
      StaysStuckElsewhere(script, s, step, i, b);
    }
  }

  lemma StaysStuckElsewhere(script: Script, s: State, step: Step, i: nat, b: nat)
    requires Shape(script, s) && Enabled(script, s, step) && StuckBefore(s, i, b)
    requires IsQuietStep(step) || step.Pop? || step.EndRead?
    requires LayoutAt(script, s, i) && LayoutAt(script, s, b)
    requires IsRead(script.commands[i]) && !script.commands[b].kind.Undecodable?
    ensures StuckBefore(Apply(script, s, step), i, b)
  {
    if step.EndRead? {
      StaysStuckAtEnd(script, s, step.reader, i, b);
    } else if IsQuietStep(step) {
      StaysStuckQuietly(script, s, step, i, b);
    }
  }

  lemma StaysStuckAtEnd(script: Script, s: State, reader: nat, i: nat, b: nat)
    requires Shape(script, s) && Enabled(script, s, EndRead(reader)) && StuckBefore(s, i, b)
    ensures StuckBefore(Apply(script, s, EndRead(reader)), i, b)
  {
  }

  lemma StaysStuckQuietly(script: Script, s: State, step: Step, i: nat, b: nat)
    requires Shape(script, s) && Enabled(script, s, step) && StuckBefore(s, i, b) && IsQuietStep(step)
    ensures StuckBefore(Apply(script, s, step), i, b)
  {
  }

  lemma {:induction false} StuckThroughout(script: Script, steps: seq<Step>, i: nat, b: nat, f: nat)
    requires WellFormed(script) && Obstructs(script, i, b, f) && Exec(script, steps).Some?
    ensures StuckBefore(Exec(script, steps).value, i, b)
  {
    if steps != [] {
      var n := |steps| - 1;
      var s := Exec(script, steps[..n]).value;
      StuckThroughout(script, steps[..n], i, b, f);
      ExecInv(script, steps[..n]);
      assert LayoutAt(script, s, i) && LayoutAt(script, s, b);
      FeedNotServiced(script, s, i, b, f);
      if s.popped == b + 1 {
        ClosedByRead(script, s, i, b);
      }
      StaysStuck(script, s, steps[n], i, b);
    }
  }

  /** No run of an obstructed queue ever services the feed or finishes the read. */
  lemma ObstructedForever(script: Script, s: State, i: nat, b: nat, f: nat)
    requires WellFormed(script) && Obstructs(script, i, b, f) && Reachable(script, s)
    ensures i < |s.phase| && !Serviced(s, f) && i !in s.effects && i !in s.used
  {
    var steps: seq<Step> :| Exec(script, steps) == Some(s);
    StuckThroughout(script, steps, i, b, f);
    ExecInv(script, steps);
    FeedNotServiced(script, s, i, b, f);
    assert PlacedAt(s, i) && LoggedAt(script, s, i);
  }

  lemma FeedIsInline(script: Script, i: nat, f: nat)
    requires WellFormed(script) && i < |script.commands| && f in script.feeds[i]
    ensures f < |script.commands| && IsInline(script.commands[f])
  {
    assert FedInline(script, i);
  }

  /** The versions that wait at the defer site never get past a second read on a resource
      lying between a first read on it and that read's feed. */
  lemma SecondReadSticks(script: Script, s: State, first: nat, second: nat, feed: nat)
    requires WellFormed(script) && !script.design.Tickets? && Reachable(script, s)
    requires first < second < feed < |script.commands|
    requires IsRead(script.commands[first]) && IsRead(script.commands[second])
    requires script.commands[first].resource == script.commands[second].resource
    requires feed in script.feeds[first]
    ensures !Serviced(s, feed) && first !in s.effects
  {
    ObstructedForever(script, s, first, second, feed);
  }

  /** The global drain never services a feed that is not a TransferToHost3d. */
  lemma GlobalDrainSticks(script: Script, s: State, read: nat, feed: nat)
    requires WellFormed(script) && script.design.GlobalDrain? && Reachable(script, s)
    requires read < feed < |script.commands| && IsRead(script.commands[read])
    requires feed in script.feeds[read] && !script.commands[feed].kind.TransferToHost3d?
    ensures !Serviced(s, feed) && read !in s.effects
  {
    FeedIsInline(script, read, feed);
    ObstructedForever(script, s, read, feed, feed);
  }

  // ----- Progress

  /** The host has done all it can with what the guest has notified it of. */
  ghost predicate Quiescent(script: Script, s: State)
    requires Shape(script, s)
  {
    && s.loop.Idle? && !s.event && (s.popped == s.published || s.unkicked)
    && s.fences == {} && s.signalled == |s.used|
    && forall i :: 0 <= i < s.popped ==>
         || s.phase[i].Retired?
         || (s.phase[i].AwaitingTurn? && Flying(script, s.phase, script.commands[i].resource, i) > 0)
         || (s.phase[i].Transferring? && exists f :: f in script.feeds[i] && s.popped <= f)
  }

  predicate HostCan(script: Script, s: State, step: Step)
    requires Shape(script, s)
  {
    IsHostStep(step) && Enabled(script, s, step)
  }

  /** A reader past its turn, or at the head of its queue, can move unless it lacks a feed. */
  lemma HeadReadMoves(script: Script, s: State, i: nat) returns (step: Step)
    requires Inv(script, s) && i < |s.phase| && InFlight(s.phase[i])
    requires Flying(script, s.phase, script.commands[i].resource, i) == 0
    requires s.phase[i].Transferring? ==> Fed(script, s, i)
    ensures HostCan(script, s, step)
  {
    assert TurnAt(script, s, i) && SleepsWithReason(script, s, i);
    match s.phase[i]
    case AwaitingTurn(_, _) => step := TakeTurn(i);
    case Transferring => step := FinishTransfer(i);
    case Completing => step := if LockHeld(s) then Execute else Complete(i, Plain);
    case Signalling => step := Signal(i);
    case Ending => step := EndRead(i);
  }

  /** A closed gate is held by the head of some resource's queue, and nothing the head needs
      lies behind the gate. */
  lemma GateHolderMoves(script: Script, s: State) returns (step: Step)
    requires WellFormed(script) && Inv(script, s) && !Obstructed(script)
    requires Serves(s, AtGate(true))
    ensures HostCan(script, s, step)
  {
    var b := s.popped - 1;
    var gate := GateOf(script.design, script.commands[b]);
    assert SleepsWithReason(script, s, b);
    var r;
    if gate.WaitIdle? {
      r := gate.resource;
    } else {
      assert s.guard.count != map[];
      r :| r in s.guard.count;
    }
    assert Get(s.guard.count, r) == FlyingAll(script, s, r);
    var i := ReadAtPosition(script, s.phase, r, 0, |s.phase|);
    assert LayoutAt(script, s, i) && LayoutAt(script, s, b);
    forall f | f in script.feeds[i]
      ensures Serviced(s, f)
    {
      FeedIsInline(script, i, f);
      assert !Obstructs(script, i, b, f);
      assert LayoutAt(script, s, f);
    }
    step := HeadReadMoves(script, s, i);
  }

  lemma ServingMoves(script: Script, s: State) returns (step: Step)
    requires WellFormed(script) && Inv(script, s) && !Obstructed(script) && s.loop.Serving?
    ensures HostCan(script, s, step)
  {
    var b := s.popped - 1;
    assert LayoutAt(script, s, b);
    match s.phase[b]
    case AtGate(parked) =>
      if parked {
        step := GateHolderMoves(script, s);
      } else {
        step := if GateOpen(s.guard, GateOf(script.design, script.commands[b])) then PassGate else ParkAtGate;
      }
    case Admitted => step := TakeLock;
    case Executing => step := Execute;
    case Replying => step := Reply(false);
    case _ =>
  }

  /** With the dispatcher asleep every popped inline command has been serviced. */
  lemma IdleMoves(script: Script, s: State) returns (step: Step)
    requires WellFormed(script) && Inv(script, s) && s.loop.Idle? && !Quiescent(script, s)
    ensures HostCan(script, s, step)
  {
    if s.event {
      step := Wake;
    } else if f :| f in s.fences {
      step := FenceFires(f);
    } else if i :| 0 <= i < |s.phase| && s.phase[i].Signalling? {
      step := Signal(i);
    } else {
      var i :| 0 <= i < s.popped && !s.phase[i].Retired?
        && !(s.phase[i].AwaitingTurn? && Flying(script, s.phase, script.commands[i].resource, i) > 0)
        && !(s.phase[i].Transferring? && exists f :: f in script.feeds[i] && s.popped <= f);
      assert LayoutAt(script, s, i) && TurnAt(script, s, i);
      if s.phase[i].Transferring? {
        forall f | f in script.feeds[i]
          ensures Serviced(s, f)
        {
          FeedIsInline(script, i, f);
          assert LayoutAt(script, s, f);
        }
      }
      step := HeadReadMoves(script, s, i);
    }
  }

  /** On an unobstructed queue the host always has something to do, until it has done all that
      the guest's notifications allow. */
  lemma Progress(script: Script, s: State) returns (step: Step)
    requires WellFormed(script) && !Obstructed(script) && Reachable(script, s)
    requires Shape(script, s) && !Quiescent(script, s)
    ensures HostCan(script, s, step)
  {
    ReachableInv(script, s);
    match s.loop
    case Idle => step := IdleMoves(script, s);
    case Popping => step := if s.popped < s.published then Pop else PopEmpty;
    case Serving => step := ServingMoves(script, s);
    case Notifying => step := Notify;
  }

  // ----- Every run is bounded

  /** How many of its own steps a command is still away from being retired, and more: room for
      the fence its reply may leave behind. */
  function Work(p: Phase): nat {
    match p
    case Queued => 12
    case AtGate(_) => 11
    case Admitted => 10
    case Executing => 9
    case Replying => 8
    case AwaitingTurn(_, _) => 10
    case Transferring => 9
    case Completing => 8
    case Signalling => 3
    case Ending => 2
    case Retired => 0
  }

  /** Waiting, and not asleep. */
  function Awake(p: Phase): nat {
    match p
    case AtGate(parked) => if parked then 0 else 1
    case AwaitingTurn(_, parked) => if parked then 0 else 1
    case _ => 0
  }

  datatype Measure = WorkLeft | AwakeNow

  function Weigh(weight: Measure, p: Phase): nat {
    match weight
    case WorkLeft => Work(p)
    case AwakeNow => Awake(p)
  }

  function Total(weight: Measure, phase: seq<Phase>): nat {
    if phase == [] then 0 else Total(weight, phase[..|phase| - 1]) + Weigh(weight, phase[|phase| - 1])
  }

  lemma {:induction false} TotalAfterSet(weight: Measure, phase: seq<Phase>, i: nat, x: Phase)
    requires i < |phase|
    ensures Total(weight, phase[i := x]) == Total(weight, phase) - Weigh(weight, phase[i]) + Weigh(weight, x)
  {
    var n := |phase| - 1;
    if i < n {
      assert phase[i := x][..n] == phase[..n][i := x];
      TotalAfterSet(weight, phase[..n], i, x);
    } else {
      assert phase[i := x][..n] == phase[..n];
    }
  }

  lemma {:induction false} TotalAgrees(weight: Measure, p: seq<Phase>, q: seq<Phase>)
    requires |p| == |q| && forall i :: 0 <= i < |p| ==> Weigh(weight, p[i]) == Weigh(weight, q[i])
    ensures Total(weight, p) == Total(weight, q)
  {
    if p != [] {
      TotalAgrees(weight, p[..|p| - 1], q[..|q| - 1]);
    }
  }

  lemma {:induction false} TotalAtMost(weight: Measure, phase: seq<Phase>)
    requires weight.AwakeNow?
    ensures Total(weight, phase) <= |phase|
  {
    if phase != [] {
      TotalAtMost(weight, phase[..|phase| - 1]);
    }
  }

  function Pending(script: Script, s: State): nat
    requires Shape(script, s)
  {
    5 * (|script.commands| - s.published)
    + (if s.unkicked then 4 else 0) + (if s.event then 3 else 0)
    + (match s.loop case Idle => 0 case Notifying => 1 case Popping => 2 case Serving => 2)
    + Total(WorkLeft, s.phase) + |s.fences|
  }

  function Rank(script: Script, s: State): nat
    requires Shape(script, s)
  {
    Pending(script, s) * (|s.phase| + 2) + Total(AwakeNow, s.phase)
  }

  lemma PendingFallsWhenDisposed(script: Script, s: State, i: nat, outcome: Outcome)
    requires Shape(script, s) && i < |s.phase| && s.phase[i].Completing?
    ensures Shape(script, Disposed(s, i, outcome))
    ensures Pending(script, Disposed(s, i, outcome)) < Pending(script, s)
  {
    match outcome
    case Plain | FenceDone => PendingFallsWhenUsed(script, s, i, outcome);
    case Rebuildless => PendingFallsWhenDropped(script, s, i);
    case FencePending => PendingFallsWhenLeft(script, s, i);
  }

  lemma PendingFallsWhenUsed(script: Script, s: State, i: nat, outcome: Outcome)
    requires Shape(script, s) && i < |s.phase| && s.phase[i].Completing? && (outcome.Plain? || outcome.FenceDone?)
    ensures Shape(script, Disposed(s, i, outcome))
    ensures Pending(script, Disposed(s, i, outcome)) < Pending(script, s)
  {
    TotalAfterSet(WorkLeft, s.phase, i, Signalling);
  }

  lemma PendingFallsWhenDropped(script: Script, s: State, i: nat)
    requires Shape(script, s) && i < |s.phase| && s.phase[i].Completing?
    ensures Shape(script, Disposed(s, i, Rebuildless))
    ensures Pending(script, Disposed(s, i, Rebuildless)) < Pending(script, s)
  {
    TotalAfterSet(WorkLeft, s.phase, i, Ending);
  }

  lemma PendingFallsWhenLeft(script: Script, s: State, i: nat)
    requires Shape(script, s) && i < |s.phase| && s.phase[i].Completing?
    ensures Shape(script, Disposed(s, i, FencePending))
    ensures Pending(script, Disposed(s, i, FencePending)) < Pending(script, s)
  {
    TotalAfterSet(WorkLeft, s.phase, i, Ending);
    assert |s.fences + {i}| <= |s.fences| + 1;
  }

  lemma PendingFallsInFlight(script: Script, s: State, step: Step)
    requires Shape(script, s) && Enabled(script, s, step)
    requires step.TakeTurn? || step.FinishTransfer? || step.Signal?
    ensures Shape(script, Apply(script, s, step))
    ensures Pending(script, Apply(script, s, step)) < Pending(script, s)
  {
    var i := step.reader;
    TotalAfterSet(WorkLeft, s.phase, i, Apply(script, s, step).phase[i]);
  }

  lemma PendingFallsInHand(script: Script, s: State, step: Step)
    requires Shape(script, s) && Enabled(script, s, step) && IsCommandStep(step) && !step.ParkAtGate?
    ensures Shape(script, Apply(script, s, step))
    ensures Pending(script, Apply(script, s, step)) < Pending(script, s)
  {
    CommandMoves(script, s, step);
    TotalAfterSet(WorkLeft, s.phase, s.popped - 1, Apply(script, s, step).phase[s.popped - 1]);
  }

  lemma PendingFallsElsewhere(script: Script, s: State, step: Step)
    requires Layout(script, s) && Enabled(script, s, step)
    requires (IsQuietStep(step) && !step.SpuriousWake?) || step.Pop?
    ensures Shape(script, Apply(script, s, step))
    ensures Pending(script, Apply(script, s, step)) < Pending(script, s)
  {
    if step.Pop? {
      assert LayoutAt(script, s, s.popped);
      TotalAfterSet(WorkLeft, s.phase, s.popped, Apply(script, s, step).phase[s.popped]);
    }
  }

  lemma WorkAtEnd(phase: seq<Phase>, i: nat)
    requires i < |phase| && phase[i].Ending?
    ensures Total(WorkLeft, NotifyAll(phase[i := Retired])) == Total(WorkLeft, phase) - 2
  {
    TotalAfterSet(WorkLeft, phase, i, Retired);
    TotalAgrees(WorkLeft, phase[i := Retired], NotifyAll(phase[i := Retired]));
  }

  lemma PendingFallsAtEnd(script: Script, s: State, i: nat)
    requires Shape(script, s) && Enabled(script, s, EndRead(i))
    ensures Shape(script, Apply(script, s, EndRead(i)))
    ensures Pending(script, Apply(script, s, EndRead(i))) < Pending(script, s)
  {
    WorkAtEnd(s.phase, i);
  }

  /** Going to sleep, or being woken for nothing, changes nothing but who is awake. */
  ghost predicate SleepMoved(script: Script, s: State, s': State, delta: int) {
    && Shape(script, s) && Shape(script, s') && |s'.phase| == |s.phase|
    && Pending(script, s') == Pending(script, s)
    && Total(AwakeNow, s'.phase) == Total(AwakeNow, s.phase) + delta
  }

  lemma SleepMoves(script: Script, s: State, i: nat, p: Phase)
    requires Shape(script, s) && i < |s.phase| && Work(p) == Work(s.phase[i])
    ensures SleepMoved(script, s, SetPhase(s, i, p), Awake(p) - Awake(s.phase[i]))
  {
    TotalAfterSet(WorkLeft, s.phase, i, p);
    TotalAfterSet(AwakeNow, s.phase, i, p);
  }

  lemma SleepOnlyMovesAwake(script: Script, s: State, step: Step)
    requires Shape(script, s) && Enabled(script, s, step)
    requires step.SpuriousWake? || step.ParkAtGate? || step.ParkForTurn?
    ensures SleepMoved(script, s, Apply(script, s, step), if step.SpuriousWake? then 1 else -1)
  {
    if step.SpuriousWake? {
      SleepMoves(script, s, step.waiter, Unparked(s.phase[step.waiter]));
    } else if step.ParkForTurn? {
      SleepMoves(script, s, step.reader, AwaitingTurn(s.phase[step.reader].ticket, true));
    } else {
      SleepMoves(script, s, s.popped - 1, AtGate(true));
    }
  }

  lemma Lexicographic(m: nat, m': nat, a: nat, a': nat, n: nat)
    requires m' < m && a' <= n
    ensures m' * (n + 2) + a' < m * (n + 2) + a
  {
    MoreRows(m', m - m' - 1, n + 2);
    assert m' + 1 + (m - m' - 1) == m;
  }

  lemma MoreRows(a: nat, b: nat, w: nat)
    ensures (a + 1 + b) * w >= a * w + w
  {
    var c := a + 1;
    assert (c + b) * w == c * w + b * w;
    assert c * w == a * w + w;
  }

  predicate IsSleepStep(step: Step) {
    step.SpuriousWake? || step.ParkAtGate? || step.ParkForTurn?
  }

  lemma PendingFalls(script: Script, s: State, step: Step)
    requires Inv(script, s) && Enabled(script, s, step) && !IsSleepStep(step)
    ensures Shape(script, Apply(script, s, step))
    ensures Pending(script, Apply(script, s, step)) < Pending(script, s)
  {
    if step.EndRead? {
      PendingFallsAtEnd(script, s, step.reader);
    } else if step.Complete? {
      PendingFallsWhenDisposed(script, s, step.reader, step.outcome);
    } else if IsFlightStep(step) {
      PendingFallsInFlight(script, s, step);
    } else if IsCommandStep(step) {
      PendingFallsInHand(script, s, step);
    } else {
      PendingFallsElsewhere(script, s, step);
    }
  }

  /** Every step lowers the rank, except that waking for nothing raises it by one. */
  lemma RankFalls(script: Script, s: State, step: Step)
    requires Inv(script, s) && Enabled(script, s, step)
    ensures Shape(script, Apply(script, s, step))
    ensures if step.SpuriousWake? then Rank(script, Apply(script, s, step)) == Rank(script, s) + 1
            else Rank(script, Apply(script, s, step)) < Rank(script, s)
  {
    ApplyKeepsShape(script, s, step);
    var s' := Apply(script, s, step);
    if IsSleepStep(step) {
      SleepOnlyMovesAwake(script, s, step);
    } else {
      PendingFalls(script, s, step);
      TotalAtMost(AwakeNow, s'.phase);
      Lexicographic(Pending(script, s), Pending(script, s'), Total(AwakeNow, s.phase),
                    Total(AwakeNow, s'.phase), |s.phase|);
    }
  }

  function SpuriousWakes(steps: seq<Step>): nat {
    if steps == [] then 0
    else SpuriousWakes(steps[..|steps| - 1]) + if steps[|steps| - 1].SpuriousWake? then 1 else 0
  }

  /** Whatever the queue and the design, a run takes at most a number of steps fixed by its
      first state, not counting condition variables that wake for nothing. */
  lemma {:induction false} RunsAreBounded(script: Script, steps: seq<Step>)
    requires WellFormed(script) && Exec(script, steps).Some?
    ensures |steps| + Rank(script, Exec(script, steps).value)
            <= Rank(script, Init(script)) + 2 * SpuriousWakes(steps)
  {
    if steps != [] {
      var n := |steps| - 1;
      RunsAreBounded(script, steps[..n]);
      ExecInv(script, steps[..n]);
      RankFalls(script, Exec(script, steps[..n]).value, steps[n]);
    }
  }

  // ----- Which queues get through

  /** Everything published has been processed, answered, signalled and cleaned up. */
  ghost predicate Finished(script: Script, s: State)
    requires Shape(script, s)
  {
    && s.published == |script.commands| && !s.unkicked && !s.event && s.loop.Idle?
    && s.fences == {} && s.signalled == |s.used|
    && forall i :: 0 <= i < |s.phase| ==> s.phase[i].Retired?
  }

  /** A step somebody can take, other than waking up for nothing. */
  predicate Can(script: Script, s: State, step: Step)
    requires Shape(script, s)
  {
    !step.SpuriousWake? && Enabled(script, s, step)
  }

  /** On an unobstructed queue a state that is not finished always has a next step. */
  lemma NeverStuck(script: Script, s: State) returns (step: Step)
    requires WellFormed(script) && !Obstructed(script) && Reachable(script, s)
    requires Shape(script, s) && !Finished(script, s)
    ensures Can(script, s, step)
  {
    ReachableInv(script, s);
    if !Quiescent(script, s) {
      step := Progress(script, s);
    } else if s.published < |script.commands| {
      step := Publish;
    } else if s.unkicked {
      step := Kick;
    } else {
      var i :| 0 <= i < |s.phase| && !s.phase[i].Retired?;
      assert i < s.popped;
      assert LayoutAt(script, s, i);
      if s.phase[i].AwaitingTurn? {
        var r := script.commands[i].resource;
        var h := ReadAtPosition(script, s.phase, r, 0, i);
        assert LayoutAt(script, s, h);
        i := h;
      }
      var f :| f in script.feeds[i] && s.popped <= f;
      FeedIsInline(script, i, f);
      assert false;
    }
  }

  /** Carrying on from any reachable state of an unobstructed queue ends with everything done. */
  lemma {:induction false} GetsThrough(script: Script, s: State) returns (last: State)
    requires WellFormed(script) && !Obstructed(script) && Reachable(script, s) && Shape(script, s)
    ensures Reachable(script, last) && Shape(script, last) && Finished(script, last)
    decreases Rank(script, s)
  {
    if Finished(script, s) {
      last := s;
    } else {
      var step := NeverStuck(script, s);
      ReachableInv(script, s);
      RankFalls(script, s, step);
      ReachableStep(script, s, step);
      last := GetsThrough(script, Apply(script, s, step));
    }
  }

  ghost predicate CanFinish(script: Script)
    requires WellFormed(script)
  {
    exists s :: Reachable(script, s) && Shape(script, s) && Finished(script, s)
  }

  ghost predicate CanGetStuck(script: Script)
    requires WellFormed(script)
  {
    exists s :: Reachable(script, s) && StuckUnfinished(script, s)
  }

  ghost predicate StuckUnfinished(script: Script, s: State) {
    && Shape(script, s) && !Finished(script, s)
    && forall step: Step :: !step.SpuriousWake? ==> !Enabled(script, s, step)
  }

  lemma FinishedMeansServiced(script: Script, s: State, i: nat)
    requires WellFormed(script) && Reachable(script, s) && Shape(script, s) && Finished(script, s)
    requires i < |script.commands| && IsRead(script.commands[i])
    ensures i in s.effects
  {
    ReachableInv(script, s);
    assert LoggedAt(script, s, i);
  }

  /** For every version of the guard and every queue: some run completes, exactly when every
      run does, exactly when no read has something that waits for it between itself and one of
      its feeds. */
  lemma GetsThroughIffUnobstructed(script: Script)
    requires WellFormed(script)
    ensures CanFinish(script) <==> !Obstructed(script)
    ensures CanGetStuck(script) <==> Obstructed(script)
  {
    InitReachable(script);
    if Obstructed(script) {
      var i: nat, b: nat, f: nat :| Obstructs(script, i, b, f);
      forall s | Reachable(script, s) && Shape(script, s)
        ensures !Finished(script, s)
      {
        ObstructedForever(script, s, i, b, f);
        if Finished(script, s) {
          FinishedMeansServiced(script, s, i);
        }
      }
      var s := RunsDown(script, Init(script));
      assert StuckUnfinished(script, s);
    } else {
      var last := GetsThrough(script, Init(script));
      forall s | Reachable(script, s) && Shape(script, s) && !Finished(script, s)
        ensures !StuckUnfinished(script, s)
      {
        var step := NeverStuck(script, s);
      }
    }
  }

  /** Two reads of one resource, and then the write the first of them needs. */
  function SecondReadQueue(design: Design, r: ResourceId): Script {
    var read := Command(TransferFromHost3d, r);
    Script(design, [read, read, Command(TransferToHost3d, r)], [{2}, {}, {}])
  }

  /** On that queue every version but the last can get stuck. */
  lemma SecondReadQueueSticksIff(design: Design, r: ResourceId)
    ensures WellFormed(SecondReadQueue(design, r))
    ensures CanGetStuck(SecondReadQueue(design, r)) <==> !design.Tickets?
  {
    var script := SecondReadQueue(design, r);
    GetsThroughIffUnobstructed(script);
    if !design.Tickets? {
      assert Obstructs(script, 0, 1, 2);
    }
  }

  /** Any run can be continued until nobody can move. */
  lemma {:induction false} RunsDown(script: Script, s: State) returns (last: State)
    requires WellFormed(script) && Reachable(script, s) && Shape(script, s)
    ensures Reachable(script, last) && Shape(script, last)
    ensures forall step: Step :: !step.SpuriousWake? ==> !Enabled(script, last, step)
    decreases Rank(script, s)
  {
    if step: Step :| !step.SpuriousWake? && Enabled(script, s, step) {
      ReachableInv(script, s);
      RankFalls(script, s, step);
      ReachableStep(script, s, step);
      last := RunsDown(script, Apply(script, s, step));
    } else {
      last := s;
    }
  }

  // ----- The versions compared

  /** Each later version lets through every queue the one before did, except that 0012 adds
      the context detach to what waits. */
  lemma LaterVersionsLetMoreThrough(script: Script)
    requires WellFormed(script)
    ensures !Obstructed(script.(design := GlobalDrain)) ==> !Obstructed(script.(design := CtxDetachDrain))
    ensures !Obstructed(script.(design := CtxDetachDrain)) ==> !Obstructed(script.(design := PerResourceDrain))
    ensures !Obstructed(script.(design := CtxDetachDrain)) ==> !Obstructed(script.(design := Tickets))
  {
    forall i: nat, b: nat, f: nat | Obstructs(script.(design := CtxDetachDrain), i, b, f)
      ensures Obstructs(script.(design := GlobalDrain), i, b, f)
    {
    }
    forall i: nat, b: nat, f: nat | Obstructs(script.(design := PerResourceDrain), i, b, f)
      ensures Obstructs(script.(design := CtxDetachDrain), i, b, f)
    {
    }
    forall i: nat, b: nat, f: nat | Obstructs(script.(design := Tickets), i, b, f)
      ensures Obstructs(script.(design := CtxDetachDrain), i, b, f)
    {
    }
  }
}
