/** Schedules that exist: overlaps and owed interrupts. */
module DispatchSchedules {
  import opened Wrappers
  import opened DeferredGuard
  import opened Dispatch
  import opened DispatchInvariants
  import opened DispatchLiveness

  // ----- Driving the dispatcher forward

  /** Everything is published and noticed, and nobody has interrupted the guest or is about to. */
  ghost predicate Busy(script: Script, s: State) {
    && Shape(script, s)
    && s.published == |script.commands| && !s.unkicked && !s.event
    && (s.loop.Popping? || s.loop.Serving?)
    && s.fences == {} && s.signalled == 0
    && forall i :: 0 <= i < |s.phase| ==> !s.phase[i].Signalling?
  }

  /** Steps that keep it so: inline replies without a fence, reads that end without a reply. */
  predicate IsPlain(step: Step) {
    || step.Pop? || step.PassGate? || step.ParkAtGate? || step.TakeLock? || step.Execute?
    || step == Reply(false)
    || step.TakeTurn? || step.ParkForTurn? || step.FinishTransfer? || step.EndRead?
    || (step.Complete? && step.outcome.Rebuildless?)
  }

  predicate IsStepOf(step: Step, reader: nat) {
    match step
    case TakeTurn(i) => i == reader
    case ParkForTurn(i) => i == reader
    case FinishTransfer(i) => i == reader
    case Complete(i, _) => i == reader
    case Signal(i) => i == reader
    case EndRead(i) => i == reader
    case _ => false
  }

  lemma BusyKept(script: Script, s: State, step: Step)
    requires Busy(script, s) && Enabled(script, s, step) && IsPlain(step)
    ensures Busy(script, Apply(script, s, step))
    ensures |Apply(script, s, step).used| >= |s.used|
    ensures s.usedAny ==> Apply(script, s, step).usedAny
  {
    ApplyKeepsShape(script, s, step);
  }

  lemma {:induction false} PublishAll(script: Script, n: nat) returns (s: State)
    requires WellFormed(script) && 0 < n <= |script.commands|
    ensures Reachable(script, s) && s == Init(script).(published := n, unkicked := true)
  {
    if n == 1 {
      InitReachable(script);
      s := Init(script);
    } else {
      s := PublishAll(script, n - 1);
    }
    ReachableStep(script, s, Publish);
    s := Apply(script, s, Publish);
  }

  lemma StartsBusy(script: Script) returns (s: State)
    requires WellFormed(script) && script.commands != []
    ensures Reachable(script, s) && Busy(script, s) && s.popped == 0 && s.loop.Popping?
  {
    s := PublishAll(script, |script.commands|);
    ReachableStep(script, s, Kick);
    s := Apply(script, s, Kick);
    ReachableStep(script, s, Wake);
    s := Apply(script, s, Wake);
  }

  /** Nothing up to `j` waits for a read that needs something from behind it. */
  ghost predicate ClearUpTo(script: Script, j: nat) {
    forall k: nat, b: nat, f: nat :: Obstructs(script, k, b, f) ==> j < b
  }

  /** Nothing behind `i` up to `j` waits for read `i`. */
  predicate NotAwaited(script: Script, i: nat, j: nat)
    requires j < |script.commands|
  {
    forall b :: i < b <= j ==> !Blocks(script.design, script.commands[b], script.commands[i])
  }

  /** Read `i` is left alone once deferred: it is still to come, at the gate, or in flight. */
  predicate LeftAlone(s: State, i: nat) {
    i < s.popped <= |s.phase| ==>
      InFlight(s.phase[i]) || (s.popped == i + 1 && s.loop.Serving? && s.phase[i].AtGate?)
  }

  /** On the way to executing `j`. */
  ghost predicate Heading(script: Script, s: State, i: nat, j: nat) {
    && Busy(script, s) && j < |script.commands| && s.popped <= j + 1
    && (s.popped == j + 1 ==> s.phase[j].AtGate? || s.phase[j].Admitted?)
    && LeftAlone(s, i)
  }

  /** The head of a queue of reads moves without a reply, unless it lacks a feed. */
  lemma HeadMovesPlainly(script: Script, s: State, h: nat) returns (step: Step)
    requires Inv(script, s) && Busy(script, s) && h < |s.phase| && InFlight(s.phase[h])
    requires Flying(script, s.phase, script.commands[h].resource, h) == 0
    requires s.phase[h].Transferring? ==> Fed(script, s, h)
    requires s.phase[h].AwaitingTurn? ==> !s.phase[h].parked
    ensures Enabled(script, s, step) && IsPlain(step)
    ensures forall i :: i != h ==> !IsStepOf(step, i)
  {
    assert TurnAt(script, s, h);
    match s.phase[h]
    case AwaitingTurn(_, _) => step := TakeTurn(h);
    case Transferring => step := FinishTransfer(h);
    case Completing => step := Complete(h, Rebuildless);
    case Ending => step := EndRead(h);
    case _ =>
  }

  /** A closed gate up to `j` is held by a read other than `i` that can move. */
  lemma HolderMoves(script: Script, s: State, i: nat, j: nat) returns (step: Step)
    requires WellFormed(script) && Inv(script, s) && Heading(script, s, i, j)
    requires ClearUpTo(script, j) && NotAwaited(script, i, j) && Serves(s, AtGate(true))
    ensures Enabled(script, s, step) && IsPlain(step) && !IsStepOf(step, i)
  {
    var b := s.popped - 1;
    var h := GateHolder(script, s, b);
    forall f | f in script.feeds[h]
      ensures Serviced(s, f)
    {
      FeedIsInline(script, h, f);
      assert !Obstructs(script, h, b, f);
      assert LayoutAt(script, s, f);
    }
    assert SleepsWithReason(script, s, h) && TurnAt(script, s, h);
    step := HeadMovesPlainly(script, s, h);
  }

  lemma GateHolder(script: Script, s: State, b: nat) returns (h: nat)
    requires Inv(script, s) && s.popped == b + 1 && Serves(s, AtGate(true))
    ensures h < b < |s.phase| && InFlight(s.phase[h]) && IsRead(script.commands[h])
    ensures Blocks(script.design, script.commands[b], script.commands[h])
    ensures Flying(script, s.phase, script.commands[h].resource, h) == 0
  {
    var gate := GateOf(script.design, script.commands[b]);
    assert SleepsWithReason(script, s, b);
    var r;
    if gate.WaitIdle? {
      r := gate.resource;
    } else {
      assert s.guard.count != map[];
      r :| r in s.guard.count;
    }
    assert Get(s.guard.count, r) == FlyingAll(script, s, r);
    h := ReadAtPosition(script, s.phase, r, 0, |s.phase|);
    assert LayoutAt(script, s, h) && LayoutAt(script, s, b);
  }

  lemma HeadingMoves(script: Script, s: State, i: nat, j: nat) returns (step: Step)
    requires WellFormed(script) && Inv(script, s) && Heading(script, s, i, j)
    requires ClearUpTo(script, j) && NotAwaited(script, i, j)
    ensures Enabled(script, s, step) && IsPlain(step) && !IsStepOf(step, i)
  {
    if s.loop.Popping? {
      assert s.popped == j + 1 ==> LayoutAt(script, s, j);
      step := Pop;
    } else {
      var b := s.popped - 1;
      assert LayoutAt(script, s, b);
      match s.phase[b]
      case AtGate(parked) =>
        if parked {
          step := HolderMoves(script, s, i, j);
        } else {
          step := if GateOpen(s.guard, GateOf(script.design, script.commands[b])) then PassGate else ParkAtGate;
        }
      case Admitted => step := TakeLock;
      case Executing => step := Execute;
      case Replying => step := Reply(false);
      case _ =>
    }
  }

  lemma LeftAloneKept(script: Script, s: State, step: Step, i: nat)
    requires Shape(script, s) && Enabled(script, s, step) && IsPlain(step) && !IsStepOf(step, i)
    requires LeftAlone(s, i) && (i < |s.phase| ==> IsRead(script.commands[i]) && LayoutAt(script, s, i))
    ensures LeftAlone(Apply(script, s, step), i)
  {
    if IsFlightStep(step) {
      FlightMoves(script, s, step);
    } else if IsCommandStep(step) {
      CommandMoves(script, s, step);
    }
  }

  lemma HeadingKept(script: Script, s: State, step: Step, i: nat, j: nat)
    requires Inv(script, s) && Heading(script, s, i, j) && Enabled(script, s, step)
    requires IsPlain(step) && !IsStepOf(step, i) && IsInline(script.commands[j])
    requires i < |script.commands| ==> IsRead(script.commands[i])
    ensures Busy(script, Apply(script, s, step)) && LeftAlone(Apply(script, s, step), i)
    ensures Heading(script, Apply(script, s, step), i, j)
         || (Serves(Apply(script, s, step), Executing) && Apply(script, s, step).popped == j + 1)
  {
    BusyKept(script, s, step);
    if i < |s.phase| {
      assert LayoutAt(script, s, i);
    }
    LeftAloneKept(script, s, step, i);
    assert LayoutAt(script, s, j);
    if IsFlightStep(step) {
      FlightMoves(script, s, step);
    } else if IsCommandStep(step) {
      CommandMoves(script, s, step);
    }
  }

  /** From anywhere on the way the dispatcher can be brought to execute `j`, read `i` left alone. */
  lemma {:induction false} DriveTo(script: Script, s: State, i: nat, j: nat) returns (t: State)
    requires WellFormed(script) && Reachable(script, s) && Heading(script, s, i, j)
    requires ClearUpTo(script, j) && NotAwaited(script, i, j) && IsInline(script.commands[j])
    requires i < |script.commands| ==> IsRead(script.commands[i])
    ensures Reachable(script, t) && Busy(script, t) && LeftAlone(t, i)
    ensures t.popped == j + 1 && Serves(t, Executing)
    decreases Rank(script, s)
  {
    ReachableInv(script, s);
    var step := HeadingMoves(script, s, i, j);
    RankFalls(script, s, step);
    HeadingKept(script, s, step, i, j);
    ReachableStep(script, s, step);
    t := Apply(script, s, step);
    if Heading(script, t, i, j) {
      t := DriveTo(script, t, i, j);
    }
  }

  /** Read `i` is in flight while the dispatcher executes `j`. */
  predicate Overlap(script: Script, s: State, i: nat, j: nat) {
    && i < |s.phase| && j < |s.phase| == |script.commands|
    && InFlight(s.phase[i]) && s.phase[j].Executing?
  }

  /** A schedule that executes `j` with read `i` in flight, if `i` is before it. */
  lemma Executes(script: Script, i: nat, j: nat) returns (t: State)
    requires WellFormed(script) && j < |script.commands| && IsInline(script.commands[j])
    requires ClearUpTo(script, j) && NotAwaited(script, i, j)
    requires i < |script.commands| ==> IsRead(script.commands[i])
    ensures Reachable(script, t) && Busy(script, t)
    ensures t.popped == j + 1 && Serves(t, Executing)
    ensures i < j ==> Overlap(script, t, i, j)
  {
    var s := StartsBusy(script);
    t := DriveTo(script, s, i, j);
    OverlapNow(script, t, i, j);
  }

  lemma OverlapNow(script: Script, t: State, i: nat, j: nat)
    requires Busy(script, t) && LeftAlone(t, i) && t.popped == j + 1 && Serves(t, Executing)
    ensures i < j ==> Overlap(script, t, i, j)
  {
  }

  // ----- Which reads can overlap which commands

  /** `i` is before `j`, nothing behind `i` up to `j` waits for it, and nothing up to `j` waits for a
      read that needs something from behind it. */
  ghost predicate MayOverlap(script: Script, i: nat, j: nat) {
    && i < j < |script.commands| && IsRead(script.commands[i]) && IsInline(script.commands[j])
    && NotAwaited(script, i, j) && ClearUpTo(script, j)
  }

  lemma OverlapNeeds(script: Script, s: State, i: nat, j: nat)
    requires WellFormed(script) && Reachable(script, s) && Overlap(script, s, i, j)
    ensures MayOverlap(script, i, j)
  {
    ReachableInv(script, s);
    OverlapPlaces(script, s, i, j);
    forall b | i < b <= j
      ensures !Blocks(script.design, script.commands[b], script.commands[i])
    {
      NotWaitedFor(script, s, i, b);
    }
    ClearIfPast(script, s, j);
  }

  lemma OverlapPlaces(script: Script, s: State, i: nat, j: nat)
    requires Inv(script, s) && Overlap(script, s, i, j)
    ensures i < j == s.popped - 1 && IsRead(script.commands[i]) && IsInline(script.commands[j])
    ensures forall b :: i < b <= j ==> !s.phase[b].AtGate?
  {
    assert LayoutAt(script, s, i) && LayoutAt(script, s, j);
    forall b | i < b <= j
      ensures !s.phase[b].AtGate?
    {
      assert LayoutAt(script, s, b);
    }
  }

  /** Whatever is past its gate has nothing obstructing before it. */
  lemma ClearIfPast(script: Script, s: State, j: nat)
    requires WellFormed(script) && Reachable(script, s) && j < s.popped <= |s.phase| && !s.phase[j].AtGate?
    ensures ClearUpTo(script, j)
  {
    forall k: nat, b: nat, f: nat | Obstructs(script, k, b, f)
      ensures j < b
    {
      NotPast(script, s, k, b, f);
      PastIsBefore(s, k, b, j);
    }
  }

  lemma PastIsBefore(s: State, k: nat, b: nat, j: nat)
    requires StuckBefore(s, k, b) && j < s.popped && !s.phase[j].AtGate?
    ensures j < b
  {
  }

  /** What is past its gate does not wait for a read in flight before it. */
  lemma NotWaitedFor(script: Script, s: State, i: nat, b: nat)
    requires Inv(script, s) && i < b < s.popped && InFlight(s.phase[i])
    requires !s.phase[b].AtGate?
    ensures !Blocks(script.design, script.commands[b], script.commands[i])
  {
    assert LayoutAt(script, s, b) && OrderedAt(script, s, i, b);
  }

  /** The dispatcher never gets past an obstructing command. */
  lemma NotPast(script: Script, s: State, k: nat, b: nat, f: nat)
    requires WellFormed(script) && Reachable(script, s) && Obstructs(script, k, b, f)
    ensures StuckBefore(s, k, b)
  {
    var steps: seq<Step> :| Exec(script, steps) == Some(s);
    StuckThroughout(script, steps, k, b, f);
  }

  ghost predicate CanOverlap(script: Script, i: nat, j: nat)
    requires WellFormed(script)
  {
    exists s :: Reachable(script, s) && Overlap(script, s, i, j)
  }

  /** For every version and every queue: which commands can execute while which reads are in flight. */
  lemma OverlapIff(script: Script, i: nat, j: nat)
    requires WellFormed(script)
    ensures CanOverlap(script, i, j) <==> MayOverlap(script, i, j)
  {
    if CanOverlap(script, i, j) {
      var s :| Reachable(script, s) && Overlap(script, s, i, j);
      OverlapNeeds(script, s, i, j);
    } else if MayOverlap(script, i, j) {
      OverlapHappens(script, i, j);
    }
  }

  lemma OverlapHappens(script: Script, i: nat, j: nat)
    requires WellFormed(script) && MayOverlap(script, i, j)
    ensures CanOverlap(script, i, j)
  {
    var t := Executes(script, i, j);
  }

  /** A read of `r` and then a command of some kind on `x`; the read needs nothing from the queue. */
  function ReadThen(design: Design, r: ResourceId, kind: Kind, x: ResourceId): Script {
    Script(design, [Command(TransferFromHost3d, r), Command(kind, x)], [{}, {}])
  }

  /** The second command of that queue executes while the read is in flight: waiting for its turn, in its
      transfer, or completing. */
  predicate Beside(s: State) {
    && |s.phase| == 2 && s.phase[1].Executing?
    && !s.phase[0].Queued? && !s.phase[0].AtGate? && !s.phase[0].Admitted?
    && !s.phase[0].Executing? && !s.phase[0].Replying? && !s.phase[0].Retired?
  }

  /** Which kinds of command can execute beside a read, in each version: TransferToHost3d always; under 0010
      nothing else; a context detach of the read's resource under 0011 only; what changes memory or identity only
      of another resource; and every other command. */
  lemma RunsBesideAReadIff(design: Design, r: ResourceId, kind: Kind, x: ResourceId)
    ensures WellFormed(ReadThen(design, r, kind, x))
    ensures (exists s :: Reachable(ReadThen(design, r, kind, x), s) && Beside(s)) <==>
      match kind
      case TransferToHost3d => true
      case OtherInline => !design.GlobalDrain?
      case CtxDetachResource => !design.GlobalDrain? && (design.PerResourceDrain? || x != r)
      case ResourceAttachBacking | ResourceDetachBacking | ResourceUnref => !design.GlobalDrain? && x != r
      case ResourceCreate2d | ResourceCreate3d | ResourceCreateBlob => !design.GlobalDrain? && x != r
      case TransferFromHost3d | Undecodable => false
  {
    var script := ReadThen(design, r, kind, x);
    OverlapIff(script, 0, 1);
    if s :| Reachable(script, s) && Beside(s) {
      BesideIsOverlap(script, s);
    }
    if CanOverlap(script, 0, 1) {
      var s :| Reachable(script, s) && Overlap(script, s, 0, 1);
      BesideIsOverlap(script, s);
    }
    assert NotAwaited(script, 0, 1) <==> !Blocks(design, script.commands[1], script.commands[0]);
  }

  lemma BesideIsOverlap(script: Script, s: State)
    requires WellFormed(script) && Reachable(script, s) && |script.commands| == 2
    ensures Beside(s) <==> Overlap(script, s, 0, 1)
  {
    ReachableInv(script, s);
  }

  /** A context detach executing while a read on its resource is in flight. */
  ghost predicate DetachOverlap(script: Script, s: State)
    requires WellFormed(script)
  {
    Reachable(script, s) && exists i, j :: OverlappedByDetach(script, s, i, j)
  }

  predicate OverlappedByDetach(script: Script, s: State, i: nat, j: nat) {
    && Overlap(script, s, i, j)
    && script.commands[j].kind.CtxDetachResource?
    && i < |script.commands| && script.commands[j].resource == script.commands[i].resource
  }

  ghost predicate AllowsDetachOverlap(design: Design) {
    exists script, s :: WellFormed(script) && script.design == design && DetachOverlap(script, s)
  }

  /** Of the four versions exactly 0011 lets a context detach run while a read on its resource is in
      flight. */
  lemma DetachOverlapsIn0011Only(design: Design)
    ensures AllowsDetachOverlap(design) <==> design.PerResourceDrain?
  {
    if AllowsDetachOverlap(design) {
      var script, s :| WellFormed(script) && script.design == design && DetachOverlap(script, s);
      var i, j :| OverlappedByDetach(script, s, i, j);
      OverlapNeeds(script, s, i, j);
    }
    if design.PerResourceDrain? {
      var script := Script(design, [Command(TransferFromHost3d, 0), Command(CtxDetachResource, 0)], [{}, {}]);
      var t := Executes(script, 0, 1);
      assert OverlappedByDetach(script, t, 0, 1);
      assert DetachOverlap(script, t);
    }
  }

  /** Under 0011, queue by queue: a context detach can execute while a read before it on its resource is
      in flight exactly when nothing between them waits for that read and nothing before the detach
      obstructs. */
  lemma DetachOverlapsUnder0011Iff(script: Script, i: nat, j: nat)
    requires WellFormed(script) && script.design.PerResourceDrain?
    requires i < |script.commands| && IsRead(script.commands[i])
    requires j < |script.commands| && script.commands[j] == Command(CtxDetachResource, script.commands[i].resource)
    ensures CanOverlap(script, i, j) <==>
      && i < j
      && (forall b :: i < b < j ==> !Blocks(script.design, script.commands[b], script.commands[i]))
      && (forall k: nat, b: nat, f: nat :: Obstructs(script, k, b, f) ==> !(b < j))
  {
    OverlapIff(script, i, j);
    assert GateOf(script.design, script.commands[j]).NoWait?;
    if i < j && forall b :: i < b < j ==> !Blocks(script.design, script.commands[b], script.commands[i]) {
      assert NotAwaited(script, i, j);
    }
    assert forall k: nat, f: nat :: !Obstructs(script, k, j, f);
  }

  // ----- Which interrupts come

  /** Nobody can move any more, but for condition variables that wake for nothing. */
  ghost predicate AtRest(script: Script, s: State) {
    Shape(script, s) && forall step: Step :: !step.SpuriousWake? ==> !Enabled(script, s, step)
  }

  /** On an unobstructed queue every run that has come to rest has interrupted the guest for every used
      entry. */
  lemma InterruptsDelivered(script: Script, s: State)
    requires WellFormed(script) && !Obstructed(script) && Reachable(script, s) && AtRest(script, s)
    ensures s.signalled == |s.used|
  {
    if !Finished(script, s) {
      var step := NeverStuck(script, s);
    }
  }

  /** `used_any` stands for an inline command that was answered. */
  ghost predicate UsedHasCause(script: Script, s: State) {
    s.usedAny ==> exists c :: 0 <= c < |s.phase| == |script.commands| && IsInline(script.commands[c]) && s.phase[c].Retired?
  }

  lemma UsedHasCauseKept(script: Script, s: State, step: Step)
    requires Layout(script, s) && Enabled(script, s, step) && UsedHasCause(script, s)
    ensures UsedHasCause(script, Apply(script, s, step))
  {
    ApplyKeepsShape(script, s, step);
    var s' := Apply(script, s, step);
    if s.usedAny {
      var c :| 0 <= c < |s.phase| && IsInline(script.commands[c]) && s.phase[c].Retired?;
      RetiredStays(script, s, step, c);
    } else if s'.usedAny {
      assert LayoutAt(script, s, s.popped - 1);
      assert s'.phase[s.popped - 1].Retired?;
    }
  }

  lemma {:induction false} UsedHasCauseAlong(script: Script, steps: seq<Step>)
    requires WellFormed(script) && Exec(script, steps).Some?
    ensures UsedHasCause(script, Exec(script, steps).value)
  {
    if steps != [] {
      var n := |steps| - 1;
      UsedHasCauseAlong(script, steps[..n]);
      ExecInv(script, steps[..n]);
      UsedHasCauseKept(script, Exec(script, steps[..n]).value, steps[n]);
    }
  }

  /** An inline command before everything that obstructs. */
  ghost predicate AnsweredFirst(script: Script, c: nat) {
    c < |script.commands| && IsInline(script.commands[c]) && ClearUpTo(script, c)
  }

  ghost predicate Withheld(script: Script, s: State)
    requires WellFormed(script)
  {
    Reachable(script, s) && AtRest(script, s) && s.signalled < |s.used|
  }

  lemma WithheldNeeds(script: Script, s: State) returns (c: nat)
    requires WellFormed(script) && Withheld(script, s)
    ensures Obstructed(script) && AnsweredFirst(script, c)
  {
    if !Obstructed(script) {
      InterruptsDelivered(script, s);
    }
    var steps: seq<Step> :| Exec(script, steps) == Some(s);
    ReachableInv(script, s);
    UsedHasCauseAlong(script, steps);
    if i :| 0 <= i < |s.phase| && s.phase[i].Signalling? {
      assert Enabled(script, s, Signal(i));
    }
    c :| 0 <= c < |s.phase| && IsInline(script.commands[c]) && s.phase[c].Retired?;
    assert LayoutAt(script, s, c);
    ClearIfPast(script, s, c);
  }

  /** On an obstructed queue a busy worker that can move can move plainly. */
  lemma MovesPlainly(script: Script, s: State, other: Step) returns (step: Step)
    requires Busy(script, s) && Enabled(script, s, other) && !other.SpuriousWake?
    requires s.loop.Popping? ==> s.popped < s.published
    ensures Enabled(script, s, step) && IsPlain(step)
  {
    match other
    case Reply(_) => step := Reply(false);
    case Complete(i, _) => step := Complete(i, Rebuildless);
    case _ => step := other;
  }

  /** Run on plainly until nobody can move: what is owed stays owed. */
  lemma {:induction false} RunsOutOwing(script: Script, s: State, k: nat, b: nat, f: nat) returns (t: State)
    requires WellFormed(script) && Reachable(script, s) && Busy(script, s) && s.used != [] && Obstructs(script, k, b, f)
    ensures Withheld(script, t)
    decreases Rank(script, s)
  {
    t := s;
    if other: Step :| !other.SpuriousWake? && Enabled(script, s, other) {
      NotPast(script, s, k, b, f);
      var step := MovesPlainly(script, s, other);
      ReachableInv(script, s);
      RankFalls(script, s, step);
      BusyKept(script, s, step);
      ReachableStep(script, s, step);
      t := RunsOutOwing(script, Apply(script, s, step), k, b, f);
    }
  }

  lemma OwesAfterReply(script: Script, s: State) returns (t: State)
    requires WellFormed(script) && Reachable(script, s) && Busy(script, s) && Serves(s, Executing)
    ensures Reachable(script, t) && Busy(script, t) && t.used != []
  {
    ReachableStep(script, s, Execute);
    BusyKept(script, s, Execute);
    t := Apply(script, s, Execute);
    ReachableStep(script, t, Reply(false));
    BusyKept(script, t, Reply(false));
    t := Apply(script, t, Reply(false));
  }

  /** A run can come to rest owing the guest an interrupt exactly when the queue is obstructed and an
      inline command stands before everything that obstructs it: the dispatcher answers that command and
      then waits at a gate for good, with `used_any` set. */
  lemma InterruptWithheldIff(script: Script)
    requires WellFormed(script)
    ensures (exists s :: Withheld(script, s)) <==> Obstructed(script) && exists c :: AnsweredFirst(script, c)
  {
    if s :| Withheld(script, s) {
      var c := WithheldNeeds(script, s);
    }
    if Obstructed(script) && exists c :: AnsweredFirst(script, c) {
      var k: nat, b: nat, f: nat :| Obstructs(script, k, b, f);
      var c :| AnsweredFirst(script, c);
      var s := Executes(script, |script.commands|, c);
      s := OwesAfterReply(script, s);
      s := RunsOutOwing(script, s, k, b, f);
    }
  }

  /** An inline command, a read, and a command that waits for the read and is its feed. */
  function AnswerThenStickQueue(design: Design, other: ResourceId, r: ResourceId): Script {
    Script(design, [Command(OtherInline, other), Command(TransferFromHost3d, r), Command(ResourceUnref, r)], [{}, {2}, {}])
  }

  /** On that queue every version can keep the answer to the first command to itself. */
  lemma AnswerIsWithheld(design: Design, other: ResourceId, r: ResourceId)
    ensures WellFormed(AnswerThenStickQueue(design, other, r))
    ensures exists s :: Withheld(AnswerThenStickQueue(design, other, r), s)
  {
    var script := AnswerThenStickQueue(design, other, r);
    InterruptWithheldIff(script);
    assert Obstructs(script, 1, 2, 2);
    assert AnsweredFirst(script, 0);
  }
}
