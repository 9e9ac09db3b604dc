/** The virtio-gpu worker as a transition system: guest, dispatcher, reader threads and fence handler. */
module Dispatch {
  // The guest publishes commands, the single dispatcher drains the control queue, readers are one-shot threads.
  // Every step is one critical section or one blocking call returning.

  import opened Wrappers
  import opened DeferredGuard

  datatype Kind =
    | TransferFromHost3d
    | TransferToHost3d
    | ResourceAttachBacking
    | ResourceDetachBacking
    | ResourceUnref
    | CtxDetachResource
    | ResourceCreate2d
    | ResourceCreate3d
    | ResourceCreateBlob
    | OtherInline   // CmdSubmit3d, ResourceFlush, context pings, ...
    | Undecodable   // GpuCommand::decode failed

  datatype Command = Command(kind: Kind, resource: ResourceId)

  /** The four published versions of the guard, by patch. */
  datatype Design =
    | GlobalDrain       // 0010
    | PerResourceDrain  // 0011
    | CtxDetachDrain    // 0012
    | Tickets           // 0013

  /** Everything the guest will put on the queue, in queue order.  `feeds[i]` are the
      commands without which the transfer of read `i` does not return. */
  datatype Script = Script(design: Design, commands: seq<Command>, feeds: seq<set<nat>>)

  predicate IsRead(c: Command) { c.kind.TransferFromHost3d? }

  predicate IsInline(c: Command) { !c.kind.TransferFromHost3d? && !c.kind.Undecodable? }

  /** A command is fed by commands the dispatcher services itself. */
  predicate FedInline(script: Script, i: nat)
    requires i < |script.feeds|
  {
    forall f :: f in script.feeds[i] ==> f < |script.commands| && IsInline(script.commands[f])
  }

  ghost predicate WellFormed(script: Script) {
    && |script.feeds| == |script.commands|
    && forall i :: 0 <= i < |script.feeds| ==> FedInline(script, i)
  }

  // ----- What a command waits for before the dispatcher lets it through

  datatype Gate = NoWait | WaitIdle(resource: ResourceId) | WaitIdleAll

  predicate IsLifecycle(design: Design, kind: Kind) {
    match kind
    case ResourceAttachBacking | ResourceDetachBacking | ResourceUnref => true
    case ResourceCreate2d | ResourceCreate3d | ResourceCreateBlob => true
    case CtxDetachResource => !design.PerResourceDrain?
    case _ => false
  }

  function GateOf(design: Design, c: Command): Gate {
    if IsRead(c) then
      if design.Tickets? then NoWait else WaitIdle(c.resource)
    else if c.kind.Undecodable? then NoWait
    else if design.GlobalDrain? then
      if c.kind.TransferToHost3d? then NoWait else WaitIdleAll
    else
      if IsLifecycle(design, c.kind) then WaitIdle(c.resource) else NoWait
  }

  predicate GateOpen(g: Guard, gate: Gate) {
    match gate
    case NoWait => true
    case WaitIdle(r) => Get(g.count, r) == 0
    case WaitIdleAll => g.count == map[]
  }

  /** `later` does not get past its gate while the read `earlier` is in flight. */
  predicate Blocks(design: Design, later: Command, earlier: Command) {
    && IsRead(earlier)
    && match GateOf(design, later)
       case NoWait => false
       case WaitIdle(r) => earlier.resource == r
       case WaitIdleAll => true
  }

  // ----- State

  datatype Phase =
    | Queued
    | AtGate(parked: bool)                      // dispatcher in wait_idle
    | Admitted                                  // past the gate, before the VirtioGpu lock
    | Executing                                 // process_gpu_command, holding the lock
    | Replying                                  // response, fence, used ring
    | AwaitingTurn(ticket: nat, parked: bool)   // reader in wait_turn
    | Transferring                              // transfer_read_blocking_by_id
    | Completing                                // rebuild the chain, respond, fence, used ring
    | Signalling                                // about to interrupt the guest
    | Ending                                    // about to call deferred_guard::end
    | Retired

  datatype Loop = Idle | Popping | Serving | Notifying

  datatype State = State(
    published: nat,       // commands the guest has made available
    unkicked: bool,       // the guest has yet to notify the device about some of them
    event: bool,          // control_evt is readable
    popped: nat,          // commands taken off the queue
    loop: Loop,
    usedAny: bool,
    phase: seq<Phase>,    // one per command of the script
    guard: Guard,
    used: seq<nat>,       // used ring, oldest first
    signalled: nat,       // used entries the last interrupt covered
    fences: set<nat>,     // descriptors the fence handler will return
    dropped: set<nat>,    // descriptors given up on
    effects: seq<nat>)    // commands in the order their transfer or execution finished

  function Init(script: Script): State {
    State(0, false, false, 0, Idle, false, seq(|script.commands|, _ => Queued), EMPTY_GUARD,
          [], 0, {}, {}, [])
  }

  /** How a reader disposes of its descriptor. */
  datatype Outcome = Rebuildless | Plain | FenceDone | FencePending

  datatype Step =
    | Publish | Kick                                  // guest
    | Wake | Pop | PopEmpty | Notify                  // dispatcher, around the queue
    | PassGate | ParkAtGate | TakeLock | Execute      // dispatcher, on one command
    | Reply(fenced: bool)
    | TakeTurn(reader: nat) | ParkForTurn(reader: nat)
    | FinishTransfer(reader: nat)
    | Complete(reader: nat, outcome: Outcome)
    | Signal(reader: nat)
    | EndRead(reader: nat)
    | FenceFires(command: nat)
    | SpuriousWake(waiter: nat)                       // allowed of any condition variable

  predicate IsHostStep(step: Step) {
    !step.Publish? && !step.Kick? && !step.SpuriousWake?
  }

  /** An inline command has been serviced once its execution returned. */
  predicate Serviced(s: State, i: nat) {
    i < |s.phase| && (s.phase[i].Replying? || s.phase[i].Retired?)
  }

  predicate Fed(script: Script, s: State, i: nat)
    requires i < |script.feeds|
  {
    forall f :: f in script.feeds[i] ==> Serviced(s, f)
  }

  /** The dispatcher holds the VirtioGpu lock for the whole of process_gpu_command. */
  predicate LockHeld(s: State) {
    s.loop.Serving? && 0 < s.popped <= |s.phase| && s.phase[s.popped - 1].Executing?
  }

  predicate Shape(script: Script, s: State) {
    && |script.feeds| == |script.commands| == |s.phase|
    && s.popped <= s.published <= |script.commands|
    && (s.loop.Serving? ==> s.popped > 0)
  }

  /** The command in the dispatcher's hands is in the given phase. */
  predicate Serves(s: State, phase: Phase) {
    s.loop.Serving? && 0 < s.popped <= |s.phase| && s.phase[s.popped - 1] == phase
  }

  predicate ReaderIn(script: Script, s: State, i: nat, phase: Phase) {
    i < |script.commands| == |s.phase| && s.phase[i] == phase
  }

  predicate Enabled(script: Script, s: State, step: Step)
    requires Shape(script, s)
  {
    match step
    case Publish => s.published < |script.commands|
    case Kick => s.unkicked
    case Wake => s.loop.Idle? && s.event
    case Pop => s.loop.Popping? && s.popped < s.published
    case PopEmpty => s.loop.Popping? && s.popped == s.published
    case Notify => s.loop.Notifying?
    case PassGate =>
      Serves(s, AtGate(false)) && GateOpen(s.guard, GateOf(script.design, script.commands[s.popped - 1]))
    case ParkAtGate =>
      Serves(s, AtGate(false)) && !GateOpen(s.guard, GateOf(script.design, script.commands[s.popped - 1]))
    case TakeLock => Serves(s, Admitted)
    case Execute => Serves(s, Executing)
    case Reply(_) => Serves(s, Replying)
    case TakeTurn(i) =>
      && i < |s.phase| && s.phase[i].AwaitingTurn? && !s.phase[i].parked
      && Get(s.guard.served, script.commands[i].resource) == s.phase[i].ticket
    case ParkForTurn(i) =>
      && i < |s.phase| && s.phase[i].AwaitingTurn? && !s.phase[i].parked
      && Get(s.guard.served, script.commands[i].resource) != s.phase[i].ticket
    case FinishTransfer(i) => ReaderIn(script, s, i, Transferring) && Fed(script, s, i)
    case Complete(i, outcome) =>
      ReaderIn(script, s, i, Completing) && (outcome.Rebuildless? || outcome.Plain? || !LockHeld(s))
    case Signal(i) => ReaderIn(script, s, i, Signalling)
    case EndRead(i) => ReaderIn(script, s, i, Ending)
    case FenceFires(i) => i in s.fences
    case SpuriousWake(i) =>
      i < |s.phase| && (s.phase[i].AwaitingTurn? || s.phase[i].AtGate?) && s.phase[i].parked
  }

  function Unparked(p: Phase): Phase {
    match p
    case AtGate(_) => AtGate(false)
    case AwaitingTurn(t, _) => AwaitingTurn(t, false)
    case _ => p
  }

  /** cvar.notify_all(): every sleeper re-evaluates its loop condition. */
  function NotifyAll(phase: seq<Phase>): (woken: seq<Phase>)
    ensures |woken| == |phase|
    ensures forall i :: 0 <= i < |phase| ==> woken[i] == Unparked(phase[i])
  {
    seq(|phase|, i requires 0 <= i < |phase| => Unparked(phase[i]))
  }

  function SetPhase(s: State, i: nat, p: Phase): State
    requires i < |s.phase|
  {
    s.(phase := s.phase[i := p])
  }

  /** The defer site: take a ticket (or, before 0013, only count the read), then spawn. */
  function Defer(script: Script, s: State, i: nat): State
    requires i < |script.commands| == |s.phase|
  {
    var r := script.commands[i].resource;
    if script.design.Tickets? then
      SetPhase(s, i, AwaitingTurn(Get(s.guard.nextTicket, r), false))
        .(guard := AfterBegin(s.guard, r), loop := Popping)
    else
      SetPhase(s, i, Transferring).(guard := AfterBeginCountOnly(s.guard, r), loop := Popping)
  }

  function Disposed(s: State, i: nat, outcome: Outcome): State
    requires i < |s.phase|
  {
    match outcome
    case Rebuildless => SetPhase(s, i, Ending).(dropped := s.dropped + {i})
    case Plain | FenceDone => SetPhase(s, i, Signalling).(used := s.used + [i])
    case FencePending => SetPhase(s, i, Ending).(fences := s.fences + {i})
  }

  function Apply(script: Script, s: State, step: Step): State
    requires Shape(script, s) && Enabled(script, s, step)
  {
    match step
    case Publish => s.(published := s.published + 1, unkicked := true)
    case Kick => s.(unkicked := false, event := true)
    case Wake => s.(event := false, loop := Popping, usedAny := false)
    case Pop =>
      var i := s.popped;
      if script.commands[i].kind.Undecodable? then
        SetPhase(s, i, Retired).(popped := i + 1, dropped := s.dropped + {i})
      else
        SetPhase(s, i, AtGate(false)).(popped := i + 1, loop := Serving)
    case PopEmpty => s.(loop := if s.usedAny then Notifying else Idle)
    case Notify => s.(loop := Idle, usedAny := false, signalled := |s.used|)
    case PassGate =>
      var i := s.popped - 1;
      if IsRead(script.commands[i]) then Defer(script, s, i) else SetPhase(s, i, Admitted)
    case ParkAtGate => SetPhase(s, s.popped - 1, AtGate(true))
    case TakeLock => SetPhase(s, s.popped - 1, Executing)
    case Execute => SetPhase(s, s.popped - 1, Replying).(effects := s.effects + [s.popped - 1])
    case Reply(fenced) =>
      var i := s.popped - 1;
      if fenced then SetPhase(s, i, Retired).(fences := s.fences + {i}, loop := Popping)
      else SetPhase(s, i, Retired).(used := s.used + [i], usedAny := true, loop := Popping)
    case TakeTurn(i) => SetPhase(s, i, Transferring)
    case ParkForTurn(i) => SetPhase(s, i, AwaitingTurn(s.phase[i].ticket, true))
    case FinishTransfer(i) => SetPhase(s, i, Completing).(effects := s.effects + [i])
    case Complete(i, outcome) => Disposed(s, i, outcome)
    case Signal(i) => SetPhase(s, i, Ending).(signalled := |s.used|)
    case EndRead(i) =>
      var r := script.commands[i].resource;
      var guard := if script.design.Tickets? then AfterEnd(s.guard, r)
                   else AfterEndCountOnly(s.guard, r);
      s.(phase := NotifyAll(s.phase[i := Retired]), guard := guard)
    case FenceFires(i) =>
      s.(fences := s.fences - {i}, used := s.used + [i], signalled := |s.used| + 1)
    case SpuriousWake(i) => SetPhase(s, i, Unparked(s.phase[i]))
  }

  // ----- Runs

  lemma ApplyKeepsShape(script: Script, s: State, step: Step)
    requires Shape(script, s) && Enabled(script, s, step)
    ensures Shape(script, Apply(script, s, step))
  {
    match step
    case PassGate | ParkAtGate | TakeLock | Execute | Reply(_) => ShapeKeptInHand(script, s, step);
    case TakeTurn(_) | ParkForTurn(_) | FinishTransfer(_) | Complete(_, _) | Signal(_) | EndRead(_) =>
      ShapeKeptInFlight(script, s, step);
    case _ =>
  }

  lemma ShapeKeptInHand(script: Script, s: State, step: Step)
    requires Shape(script, s) && Enabled(script, s, step)
    requires step.PassGate? || step.ParkAtGate? || step.TakeLock? || step.Execute? || step.Reply?
    ensures Shape(script, Apply(script, s, step))
  {
  }

  lemma ShapeKeptInFlight(script: Script, s: State, step: Step)
    requires Shape(script, s) && Enabled(script, s, step)
    requires step.TakeTurn? || step.ParkForTurn? || step.FinishTransfer? || step.Complete? || step.Signal? || step.EndRead?
    ensures Shape(script, Apply(script, s, step))
  {
  }

  /** The state a schedule leads to, if every one of its steps is enabled when its turn comes. */
  function Exec(script: Script, steps: seq<Step>): (r: Option<State>)
    requires WellFormed(script)
    ensures r.Some? ==> Shape(script, r.value)
  {
    if steps == [] then Some(Init(script))
    else
      match Exec(script, steps[..|steps| - 1])
      case None => None
      case Some(s) =>
        var last := steps[|steps| - 1];
        if Enabled(script, s, last) then
          ApplyKeepsShape(script, s, last);
          Some(Apply(script, s, last))
        else None
  }

  ghost predicate Reachable(script: Script, s: State)
    requires WellFormed(script)
  {
    exists steps: seq<Step> :: Exec(script, steps) == Some(s)
  }

  lemma InitReachable(script: Script)
    requires WellFormed(script)
    ensures Reachable(script, Init(script))
  {
    assert Exec(script, []) == Some(Init(script));
  }

  lemma ReachableStep(script: Script, s: State, step: Step)
    requires WellFormed(script) && Reachable(script, s) && Shape(script, s) && Enabled(script, s, step)
    ensures Reachable(script, Apply(script, s, step))
  {
    var steps: seq<Step> :| Exec(script, steps) == Some(s);
    var more := steps + [step];
    assert more[..|more| - 1] == steps;
    assert Exec(script, more) == Some(Apply(script, s, step));
  }
}
