/** The sleep/wakeup handshake of an address-space-graphics ring. */
module Asg {
  // Guest and host run on processors with FIFO store buffers: a store becomes visible when the
  // buffer drains it, and a full fence waits for the buffer to be empty.  The guest driver is not
  // in the repository; as the patches describe it, it stores to a ring, then loads `host_state`,
  // then pings if it saw NEED_NOTIFY.

  datatype HostState = CanConsume | NeedNotify

  datatype Ring = ToHost | ToHostLargeXfer

  datatype Variant = Variant(
    guestFence: bool,   // the guest fences between its store and its load
    hostFence: bool,    // the host fences after publishing NEED_NOTIFY
    recheck: bool,      // the host looks at both rings again before it sleeps
    timed: bool,        // the host's receive times out
    lossy: bool,        // an adversary may remove messages from the channel
    maxUnavailableReads: nat)

  datatype Guest = Composing | Stored | Checking | Pinging

  datatype Host =
    | PollSmall | PollLarge | Missed
    | Fencing | RecheckSmall | RecheckLarge
    | Asleep
    | Consuming(ring: Ring)

  const CHANNEL_SLOTS := 4

  datatype State = State(
    small: nat, large: nat,             // visible, unread data in the two rings
    hostState: HostState,               // in memory
    hostBuffer: seq<HostState>,         // the host's stores to it, not yet drained
    guestBuffer: seq<Ring>,             // the guest's stores to the rings, not yet drained
    guest: Guest,
    host: Host,
    unavailableReads: nat,
    channel: nat)                       // Wakeup messages

  const START := State(0, 0, CanConsume, [], [], Composing, PollSmall, 0, 0)

  datatype Step =
    | Store(ring: Ring) | GuestFence | CheckHostState | Ping | DrainGuest
    | HostStep | Receive | Timeout | Consume(amount: nat) | DrainHost
    | Lose

  function Visible(s: State, ring: Ring): nat {
    match ring case ToHost => s.small case ToHostLargeXfer => s.large
  }

  predicate HasData(s: State) {
    s.small > 0 || s.large > 0
  }

  predicate Enabled(v: Variant, s: State, step: Step) {
    match step
    case Store(_) => s.guest.Composing? || s.guest.Stored?
    case GuestFence => s.guest.Stored? && (v.guestFence ==> s.guestBuffer == [])
    case CheckHostState => s.guest.Checking?
    case Ping => s.guest.Pinging?
    case DrainGuest => s.guestBuffer != []
    case HostStep =>
      && !s.host.Asleep? && !s.host.Consuming?
      && (s.host.Fencing? && v.hostFence ==> s.hostBuffer == [])
    case Receive => s.host.Asleep? && s.channel > 0
    case Timeout => s.host.Asleep? && v.timed
    case Consume(amount) => s.host.Consuming? && 0 < amount <= Visible(s, s.host.ring)
    case DrainHost => s.hostBuffer != []
    case Lose => v.lossy && s.channel > 0
  }

  /** The host goes back to polling and advertises that it does. */
  function Resume(s: State): State {
    s.(host := PollSmall, hostBuffer := s.hostBuffer + [CanConsume], unavailableReads := 0)
  }

  function HostNext(v: Variant, s: State): State
    requires Enabled(v, s, HostStep)
  {
    match s.host
    case PollSmall => s.(host := if s.small > 0 then Consuming(ToHost) else PollLarge)
    case PollLarge => s.(host := if s.large > 0 then Consuming(ToHostLargeXfer) else Missed)
    case Missed =>
      if s.unavailableReads >= v.maxUnavailableReads then
        s.(host := Fencing, hostBuffer := s.hostBuffer + [NeedNotify])
      else
        s.(host := PollSmall, unavailableReads := s.unavailableReads + 1)
    case Fencing => s.(host := if v.recheck then RecheckSmall else Asleep)
    case RecheckSmall => if s.small > 0 then Resume(s) else s.(host := RecheckLarge)
    case RecheckLarge => if s.large > 0 then Resume(s) else s.(host := Asleep)
  }

  function Apply(v: Variant, s: State, step: Step): State
    requires Enabled(v, s, step)
  {
    match step
    case Store(ring) => s.(guest := Stored, guestBuffer := s.guestBuffer + [ring])
    case GuestFence => s.(guest := Checking)
    case CheckHostState => s.(guest := if s.hostState.NeedNotify? then Pinging else Composing)
    // trySend: silently dropped when the channel is full
    case Ping => s.(guest := Composing, channel := if s.channel < CHANNEL_SLOTS then s.channel + 1 else s.channel)
    case DrainGuest =>
      var rest := s.(guestBuffer := s.guestBuffer[1..]);
      if s.guestBuffer[0].ToHost? then rest.(small := s.small + 1) else rest.(large := s.large + 1)
    case HostStep => HostNext(v, s)
    case Receive => Resume(s.(channel := s.channel - 1))
    case Timeout => Resume(s)
    case Consume(amount) =>
      var read := s.(host := PollSmall, unavailableReads := 0);
      if s.host.ring.ToHost? then read.(small := s.small - amount) else read.(large := s.large - amount)
    case DrainHost => s.(hostState := s.hostBuffer[0], hostBuffer := s.hostBuffer[1..])
    case Lose => s.(channel := s.channel - 1)
  }

  /** `steps`, taken in order from `s`, lead to `t`. */
  ghost predicate Leads(v: Variant, s: State, steps: seq<Step>, t: State)
    decreases |steps|
  {
    if steps == [] then s == t
    else Enabled(v, s, steps[0]) && Leads(v, Apply(v, s, steps[0]), steps[1..], t)
  }

  ghost predicate Reachable(v: Variant, s: State) {
    exists steps :: Leads(v, START, steps, s)
  }

  lemma {:induction false} LeadsOn(v: Variant, s: State, steps: seq<Step>, t: State, step: Step)
    requires Leads(v, s, steps, t) && Enabled(v, t, step)
    ensures Leads(v, s, steps + [step], Apply(v, t, step))
    decreases |steps|
  {
    if steps == [] {
      assert Leads(v, Apply(v, s, step), [], Apply(v, t, step));
    } else {
      assert (steps + [step])[1..] == steps[1..] + [step];
      LeadsOn(v, Apply(v, s, steps[0]), steps[1..], t, step);
    }
  }

  lemma ReachableStep(v: Variant, s: State, step: Step)
    requires Reachable(v, s) && Enabled(v, s, step)
    ensures Reachable(v, Apply(v, s, step))
  {
    var steps :| Leads(v, START, steps, s);
    LeadsOn(v, START, steps, s, step);
  }

  // ----- No wakeup is lost

  /** Somebody is going to wake the host: a message is in the channel, or the guest has yet to
      look at `host_state`, or it has looked and is about to ping. */
  predicate Covered(s: State) {
    s.channel > 0 || !s.guest.Composing?
  }

  predicate Careful(v: Variant) {
    v.guestFence && v.hostFence && v.recheck
  }

  /** Between its fence and its sleep the host's NEED_NOTIFY is what everybody sees, and data it
      has already looked for in vain is covered. */
  predicate Inv(s: State) {
    && (s.guestBuffer != [] ==> s.guest.Stored?)
    && (s.host.Fencing? ==>
          if s.hostBuffer == [] then s.hostState.NeedNotify?
          else s.hostBuffer[|s.hostBuffer| - 1].NeedNotify?)
    && (s.host.RecheckSmall? || s.host.RecheckLarge? || s.host.Asleep? ==>
          s.hostBuffer == [] && s.hostState.NeedNotify?)
    && (s.host.RecheckLarge? && s.small > 0 ==> Covered(s))
    && (s.host.Asleep? && HasData(s) ==> Covered(s))
  }

  lemma InvKept(v: Variant, s: State, step: Step)
    requires Careful(v) && !v.lossy && Inv(s) && Enabled(v, s, step)
    ensures Inv(Apply(v, s, step))
  {
  }

  lemma {:induction false} InvAlong(v: Variant, s: State, steps: seq<Step>, t: State)
    requires Careful(v) && !v.lossy && Inv(s) && Leads(v, s, steps, t)
    ensures Inv(t)
    decreases |steps|
  {
    if steps != [] {
      InvKept(v, s, steps[0]);
      InvAlong(v, Apply(v, s, steps[0]), steps[1..], t);
    }
  }

  /** The host sleeps on visible data, and neither a message nor a guest that is still going to
      see NEED_NOTIFY will end that. */
  predicate Unattended(s: State) {
    && s.host.Asleep? && HasData(s) && s.channel == 0
    && !s.guest.Pinging?
    && !((s.guest.Stored? || s.guest.Checking?) && s.hostState.NeedNotify? && s.hostBuffer == [])
  }

  /** As before, with nothing left in any buffer either: only a further store by the guest, or
      a timeout, can end it. */
  predicate LostForGood(s: State) {
    && s.host.Asleep? && HasData(s) && s.channel == 0
    && s.guest.Composing? && s.guestBuffer == [] && s.hostBuffer == []
  }

  lemma LostForGoodIsDead(v: Variant, s: State, step: Step)
    requires LostForGood(s) && Enabled(v, s, step) && !v.timed
    ensures step.Store?
    ensures Unattended(s)
  {
  }

  lemma NeverUnattended(v: Variant, s: State)
    requires Careful(v) && !v.lossy && Reachable(v, s)
    ensures !Unattended(s)
  {
    var steps :| Leads(v, START, steps, s);
    InvAlong(v, START, steps, s);
  }

  // ----- What the host advertises

  /** The host's newest store to `host_state`, whether it has drained or not. */
  function Advertised(s: State): HostState {
    if s.hostBuffer == [] then s.hostState else s.hostBuffer[|s.hostBuffer| - 1]
  }

  /** From its fence to its sleep the host asks to be notified, and otherwise it does not. */
  predicate AdvertisesItsState(s: State) {
    Advertised(s) == if s.host.Fencing? || s.host.RecheckSmall? || s.host.RecheckLarge? || s.host.Asleep?
      then NeedNotify else CanConsume
  }

  lemma AdvertisesKept(v: Variant, s: State, step: Step)
    requires AdvertisesItsState(s) && Enabled(v, s, step)
    ensures AdvertisesItsState(Apply(v, s, step))
  {
  }

  lemma {:induction false} AdvertisesAlong(v: Variant, s: State, steps: seq<Step>, t: State)
    requires AdvertisesItsState(s) && Leads(v, s, steps, t)
    ensures AdvertisesItsState(t)
    decreases |steps|
  {
    if steps != [] {
      AdvertisesKept(v, s, steps[0]);
      AdvertisesAlong(v, Apply(v, s, steps[0]), steps[1..], t);
    }
  }

  predicate PollsOrReads(s: State) {
    s.host.PollSmall? || s.host.PollLarge? || s.host.Missed? || s.host.Consuming?
  }

  /** A host that polls or reads has told the guest so as the last thing it said, whichever precautions are taken.
      Once that has drained the guest no longer pings. */
  lemma HostSaysWhatItDoes(v: Variant, s: State)
    requires Reachable(v, s)
    ensures s.hostBuffer == [] ==> (s.hostState.CanConsume? <==> PollsOrReads(s))
    ensures s.hostBuffer != [] ==> (s.hostBuffer[|s.hostBuffer| - 1].CanConsume? <==> PollsOrReads(s))
    ensures PollsOrReads(s) && s.hostBuffer == [] && s.guest.Checking? ==> Apply(v, s, CheckHostState).guest.Composing?
  {
    var steps :| Leads(v, START, steps, s);
    AdvertisesAlong(v, START, steps, s);
  }

  // ----- How long the host looks before it sleeps

  predicate LooksAgainOrSleeps(s: State) {
    s.host.Fencing? || s.host.RecheckSmall? || s.host.RecheckLarge? || s.host.Asleep?
  }

  /** How often, along a run, the host has found both rings empty since it last read or woke up; `n` times before. */
  function EmptyRounds(v: Variant, s: State, steps: seq<Step>, n: nat): nat
    decreases |steps|
  {
    if steps == [] || !Enabled(v, s, steps[0]) then n
    else
      var t := Apply(v, s, steps[0]);
      EmptyRounds(v, t, steps[1..],
        if !s.host.Missed? && t.host.Missed? then n + 1
        else if (s.host.Consuming? || LooksAgainOrSleeps(s)) && t.host.PollSmall? then 0
        else n)
  }

  predicate CountsRounds(v: Variant, s: State, n: nat) {
    if LooksAgainOrSleeps(s) then n == v.maxUnavailableReads + 1
    else s.unavailableReads <= v.maxUnavailableReads && n == s.unavailableReads + if s.host.Missed? then 1 else 0
  }

  lemma {:induction false} RoundsAlong(v: Variant, s: State, steps: seq<Step>, n: nat, t: State)
    requires CountsRounds(v, s, n) && Leads(v, s, steps, t)
    ensures CountsRounds(v, t, EmptyRounds(v, s, steps, n))
    decreases |steps|
  {
    if steps != [] {
      var next := Apply(v, s, steps[0]);
      var m := if !s.host.Missed? && next.host.Missed? then n + 1
               else if (s.host.Consuming? || LooksAgainOrSleeps(s)) && next.host.PollSmall? then 0
               else n;
      RoundsAlong(v, next, steps[1..], m, t);
    }
  }

  /** On every run the host asks to be notified, and sleeps, exactly when it has found both rings empty once more
      often than it tolerates since it last read or woke up. */
  lemma SleepsAfterEmptyRounds(v: Variant, steps: seq<Step>, s: State)
    requires Leads(v, START, steps, s)
    ensures s.host.Fencing? || s.host.Asleep? ==> EmptyRounds(v, START, steps, 0) == v.maxUnavailableReads + 1
    ensures s.host.PollSmall? || s.host.PollLarge? ==> EmptyRounds(v, START, steps, 0) <= v.maxUnavailableReads
  {
    RoundsAlong(v, START, steps, 0, s);
  }

  // ----- Each of the three precautions is needed

  /** The host about to publish NEED_NOTIFY, having seen nothing so far. */
  function AboutToPublish(n: nat): State {
    START.(host := Missed, unavailableReads := n)
  }

  lemma {:induction false} PollsInVain(v: Variant, n: nat)
    requires n <= v.maxUnavailableReads
    ensures Reachable(v, AboutToPublish(n))
  {
    var s: State;
    if n == 0 {
      assert Leads(v, START, [], START);
      s := START;
    } else {
      PollsInVain(v, n - 1);
      ReachableStep(v, AboutToPublish(n - 1), HostStep);
      s := Apply(v, AboutToPublish(n - 1), HostStep);
    }
    ReachableStep(v, s, HostStep);
    s := Apply(v, s, HostStep);
    ReachableStep(v, s, HostStep);
  }

  /** The guest's whole turn while the host still advertises CAN_CONSUME in memory. */
  lemma GuestSeesCanConsume(v: Variant, s: State) returns (t: State)
    requires Reachable(v, s) && s.guest.Composing? && s.guestBuffer == [] && s.hostState.CanConsume?
    ensures Reachable(v, t) && t == s.(small := s.small + 1)
  {
    ReachableStep(v, s, Store(ToHost));
    t := Apply(v, s, Store(ToHost));
    ReachableStep(v, t, DrainGuest);
    t := Apply(v, t, DrainGuest);
    ReachableStep(v, t, GuestFence);
    t := Apply(v, t, GuestFence);
    ReachableStep(v, t, CheckHostState);
    t := Apply(v, t, CheckHostState);
  }

  /** The host publishes, drains, and finds both rings empty if it looks. */
  lemma HostFallsAsleep(v: Variant, s: State) returns (t: State)
    requires Reachable(v, s) && s.host.Missed? && s.unavailableReads >= v.maxUnavailableReads
    requires s.hostBuffer == [] && (v.recheck ==> s.small == 0 && s.large == 0)
    ensures Reachable(v, t) && t == s.(host := Asleep, hostState := NeedNotify)
  {
    ReachableStep(v, s, HostStep);
    t := Apply(v, s, HostStep);
    ReachableStep(v, t, DrainHost);
    t := Apply(v, t, DrainHost);
    ReachableStep(v, t, HostStep);
    t := Apply(v, t, HostStep);
    if v.recheck {
      ReachableStep(v, t, HostStep);
      t := Apply(v, t, HostStep);
      ReachableStep(v, t, HostStep);
      t := Apply(v, t, HostStep);
    }
  }

  /** Some run puts the host to sleep on data that nothing will ever announce. */
  ghost predicate CanLose(v: Variant) {
    exists s :: Reachable(v, s) && LostForGood(s)
  }

  lemma LostWithoutRecheck(v: Variant)
    requires !v.recheck
    ensures CanLose(v)
  {
    PollsInVain(v, v.maxUnavailableReads);
    var s := GuestSeesCanConsume(v, AboutToPublish(v.maxUnavailableReads));
    s := HostFallsAsleep(v, s);
    assert LostForGood(s);
  }

  /** NEED_NOTIFY is still in the host's store buffer when the host looks and when the guest
      does. */
  lemma LostWithoutHostFence(v: Variant)
    requires v.recheck && !v.hostFence
    ensures CanLose(v)
  {
    PollsInVain(v, v.maxUnavailableReads);
    var s := AboutToPublish(v.maxUnavailableReads);
    ReachableStep(v, s, HostStep);
    s := Apply(v, s, HostStep);
    ReachableStep(v, s, HostStep);
    s := Apply(v, s, HostStep);
    ReachableStep(v, s, HostStep);
    s := Apply(v, s, HostStep);
    ReachableStep(v, s, HostStep);
    s := Apply(v, s, HostStep);
    s := GuestSeesCanConsume(v, s);
    ReachableStep(v, s, DrainHost);
    s := Apply(v, s, DrainHost);
    assert LostForGood(s);
  }

  /** The data is still in the guest's store buffer when the guest looks and when the host
      does. */
  lemma LostWithoutGuestFence(v: Variant)
    requires v.recheck && !v.guestFence
    ensures CanLose(v)
  {
    PollsInVain(v, v.maxUnavailableReads);
    var s := AboutToPublish(v.maxUnavailableReads);
    ReachableStep(v, s, Store(ToHost));
    s := Apply(v, s, Store(ToHost));
    ReachableStep(v, s, GuestFence);
    s := Apply(v, s, GuestFence);
    ReachableStep(v, s, CheckHostState);
    s := Apply(v, s, CheckHostState);
    s := HostFallsAsleep(v, s);
    ReachableStep(v, s, DrainGuest);
    s := Apply(v, s, DrainGuest);
    assert LostForGood(s);
  }

  /** Without an adversary on the channel, a wakeup can be lost exactly when one of the guest's
      fence, the host's fence and the host's second look is missing.  A ping that finds the
      channel full is dropped and does no harm. */
  lemma LosesWakeupsIffCareless(v: Variant)
    requires !v.lossy
    ensures (exists s :: Reachable(v, s) && Unattended(s)) <==> !Careful(v)
    ensures CanLose(v) <==> !Careful(v)
  {
    if Careful(v) {
      forall s | Reachable(v, s)
        ensures !Unattended(s) && !LostForGood(s)
      {
        NeverUnattended(v, s);
      }
    } else {
      if !v.recheck {
        LostWithoutRecheck(v);
      } else if !v.hostFence {
        LostWithoutHostFence(v);
      } else {
        LostWithoutGuestFence(v);
      }
      var s :| Reachable(v, s) && LostForGood(s);
      assert Unattended(s);
    }
  }

  /** With an adversary all three precautions are not enough. */
  lemma LostWhenMessagesVanish(v: Variant)
    requires v.lossy
    ensures CanLose(v)
  {
    PollsInVain(v, v.maxUnavailableReads);
    var s := HostFallsAsleep(v, AboutToPublish(v.maxUnavailableReads));
    ReachableStep(v, s, Store(ToHost));
    s := Apply(v, s, Store(ToHost));
    ReachableStep(v, s, DrainGuest);
    s := Apply(v, s, DrainGuest);
    ReachableStep(v, s, GuestFence);
    s := Apply(v, s, GuestFence);
    ReachableStep(v, s, CheckHostState);
    s := Apply(v, s, CheckHostState);
    ReachableStep(v, s, Ping);
    s := Apply(v, s, Ping);
    ReachableStep(v, s, Lose);
    s := Apply(v, s, Lose);
    assert LostForGood(s);
  }

  // ----- The timeout heals any loss

  /** Steps of the host's own program. */
  predicate IsHostMove(step: Step) {
    step.HostStep? || step.Receive? || step.Timeout?
  }

  /** How many moves of its own the host is from reading, once there is something to read. */
  function Distance(s: State): nat {
    match s.host
    case Consuming(_) => 0
    case PollSmall => if s.small > 0 then 1 else 2
    case PollLarge => if s.large > 0 then 1 else 8
    case Missed => 7
    case Fencing => 6
    case RecheckSmall => 5
    case RecheckLarge => 4
    case Asleep => 3
  }

  /** Nobody but the host takes data out, its moves bring it closer, and nobody else's steps
      take it further away. */
  lemma ComesCloser(v: Variant, s: State, step: Step)
    requires HasData(s) && !s.host.Consuming? && Enabled(v, s, step)
    ensures HasData(Apply(v, s, step))
    ensures if IsHostMove(step) then Distance(Apply(v, s, step)) < Distance(s)
            else Distance(Apply(v, s, step)) <= Distance(s)
  {
  }

  function HostMoves(steps: seq<Step>): nat {
    if steps == [] then 0 else HostMoves(steps[1..]) + if IsHostMove(steps[0]) then 1 else 0
  }

  /** The host is never reading between two steps of the schedule. */
  ghost predicate NeverReads(v: Variant, s: State, steps: seq<Step>)
    decreases |steps|
  {
    && !s.host.Consuming?
    && (steps != [] && Enabled(v, s, steps[0]) ==> NeverReads(v, Apply(v, s, steps[0]), steps[1..]))
  }

  lemma {:induction false} MovesAreCounted(v: Variant, s: State, steps: seq<Step>, t: State)
    requires HasData(s) && Leads(v, s, steps, t) && NeverReads(v, s, steps)
    ensures HasData(t) && !t.host.Consuming?
    ensures HostMoves(steps) + Distance(t) <= Distance(s)
    decreases |steps|
  {
    if steps != [] {
      ComesCloser(v, s, steps[0]);
      MovesAreCounted(v, Apply(v, s, steps[0]), steps[1..], t);
    }
  }

  /** Whatever the guest does and whatever messages vanish: with data in a ring the host makes
      at most seven moves before it is reading, and with a bounded wait it can always make one,
      once its own stores have drained. */
  lemma HealsItself(v: Variant, s: State, steps: seq<Step>, t: State)
    requires v.timed && HasData(s) && Leads(v, s, steps, t) && NeverReads(v, s, steps)
    ensures HostMoves(steps) < 8
    ensures Enabled(v, t, HostStep) || Enabled(v, t, Timeout) || Enabled(v, t, DrainHost)
  {
    MovesAreCounted(v, s, steps, t);
  }

  /** Waking up, for whichever reason, touches neither ring. */
  lemma WakingReadsNothing(v: Variant, s: State, step: Step)
    requires Enabled(v, s, step) && (step.Receive? || step.Timeout?)
    ensures var t := Apply(v, s, step);
            && t.small == s.small && t.large == s.large && t.guestBuffer == s.guestBuffer
            && t.guest == s.guest
            && t.channel == s.channel - (if step.Receive? then 1 else 0)
  {
  }
}
