/** Shared pointers in slots behind a short mutex. */
module SharedSlots {
  import opened Wrappers

  // The resource map of the virtio-gpu frontend (slots are resource ids) and a resource's pipe (one
  // slot per resource).  A thread copies the pointer under the mutex, lets go of the mutex, and
  // transfers through its own copy, while other threads replace and erase.  Copying one pointer is
  // taken as atomic.

  type Key = nat
  type Obj = nat   // never reused: an address may be, but not while somebody holds it
  type ThreadId = nat

  datatype Op =
    | Lookup(key: Key)
    | LookupToUnref(key: Key)   // the lookup unrefResource starts with
    | Put(key: Key)             // create, or replace
    | Erase                     // what unrefResource ends with
    | Clear(key: Key)           // a detach forgetting the pipe

  datatype Pc = Running | InSection(op: Op) | Transferring(obj: Obj)

  datatype Unref = Unref(key: Key, obj: Obj)

  datatype Thread = Thread(pc: Pc, held: seq<Obj>, unref: Option<Unref>)

  /** `counted`: local copies own a reference.  `mutators`: who may create and unref. */
  datatype Config = Config(counted: bool, mutators: set<ThreadId>)

  datatype State = State(
    slots: map<Key, Obj>,
    refs: map<Obj, nat>,         // reference counts of live objects
    freed: set<Obj>,
    next: Obj,                   // the next object to be made
    owner: Option<ThreadId>,     // of the mutex
    threads: seq<Thread>,
    erasedAnother: bool)         // some unref erased an object it had not looked up

  const START := State(map[], map[], {}, 0, None, [], false)

  datatype Step =
    | Spawn
    | Enter(t: ThreadId, op: Op)
    | Leave(t: ThreadId)
    | BeginTransfer(t: ThreadId)
    | EndTransfer(t: ThreadId)
    | Release(t: ThreadId)

  predicate MayEnter(c: Config, t: ThreadId, thread: Thread, op: Op) {
    match op
    case Lookup(_) => true
    case LookupToUnref(_) => t in c.mutators && thread.unref.None? && thread.held == []
    case Put(_) | Clear(_) => t in c.mutators && thread.unref.None?
    case Erase => thread.unref.Some?
  }

  predicate Enabled(c: Config, s: State, step: Step) {
    match step
    case Spawn => true
    case Enter(t, op) =>
      && t < |s.threads| && s.threads[t].pc.Running? && s.owner.None?
      && MayEnter(c, t, s.threads[t], op)
    case Leave(t) =>
      t < |s.threads| && s.threads[t].pc.InSection? && (s.threads[t].pc.op.Erase? ==> s.threads[t].unref.Some?)
    case BeginTransfer(t) => t < |s.threads| && s.threads[t].pc.Running? && s.threads[t].held != []
    case EndTransfer(t) => t < |s.threads| && s.threads[t].pc.Transferring?
    // unrefResource keeps its own copy until after the erase
    case Release(t) =>
      && t < |s.threads| && s.threads[t].pc.Running?
      && |s.threads[t].held| > if s.threads[t].unref.Some? then 1 else 0
  }

  function Retain(refs: map<Obj, nat>, o: Obj): map<Obj, nat> {
    refs[o := (if o in refs then refs[o] else 0) + 1]
  }

  /** Dropping the last reference destroys the object. */
  function Drop(s: State, o: Obj): State {
    if o !in s.refs then s
    else if s.refs[o] <= 1 then s.(refs := s.refs - {o}, freed := s.freed + {o})
    else s.(refs := s.refs[o := s.refs[o] - 1])
  }

  function SetThread(s: State, t: ThreadId, thread: Thread): State
    requires t < |s.threads|
  {
    s.(threads := s.threads[t := thread])
  }

  function Copy(c: Config, s: State, t: ThreadId, key: Key, unref: bool): State
    requires t < |s.threads|
  {
    if key in s.slots then
      var o := s.slots[key];
      SetThread(s, t, Thread(Running, s.threads[t].held + [o],
                             if unref then Some(Unref(key, o)) else s.threads[t].unref))
        .(refs := if c.counted then Retain(s.refs, o) else s.refs, owner := None)
    else SetThread(s, t, s.threads[t].(pc := Running)).(owner := None)
  }

  function EraseKey(s: State, key: Key): State {
    if key in s.slots then Drop(s.(slots := s.slots - {key}), s.slots[key]) else s
  }

  function PutFresh(s: State, key: Key): State {
    var o := s.next;
    var put := s.(slots := s.slots[key := o], refs := Retain(s.refs, o), next := o + 1);
    if key in s.slots then Drop(put, s.slots[key]) else put
  }

  function Perform(c: Config, s: State, t: ThreadId): State
    requires Enabled(c, s, Leave(t))
  {
    var thread := s.threads[t];
    match thread.pc.op
    case Lookup(key) => Copy(c, s, t, key, false)
    case LookupToUnref(key) => Copy(c, s, t, key, true)
    case Put(key) => SetThread(PutFresh(s, key), t, thread.(pc := Running)).(owner := None)
    case Clear(key) => SetThread(EraseKey(s, key), t, thread.(pc := Running)).(owner := None)
    case Erase =>
      var u := thread.unref.value;
      SetThread(EraseKey(s, u.key), t, thread.(pc := Running, unref := None))
        .(owner := None,
          erasedAnother := s.erasedAnother || (u.key in s.slots && s.slots[u.key] != u.obj))
  }

  function Apply(c: Config, s: State, step: Step): State
    requires Enabled(c, s, step)
  {
    match step
    case Spawn => s.(threads := s.threads + [Thread(Running, [], None)])
    case Enter(t, op) => SetThread(s, t, s.threads[t].(pc := InSection(op))).(owner := Some(t))
    case Leave(t) => Perform(c, s, t)
    case BeginTransfer(t) =>
      SetThread(s, t, s.threads[t].(pc := Transferring(s.threads[t].held[|s.threads[t].held| - 1])))
    case EndTransfer(t) => SetThread(s, t, s.threads[t].(pc := Running))
    case Release(t) =>
      var held := s.threads[t].held;
      var o := held[|held| - 1];
      var rest := SetThread(s, t, s.threads[t].(held := held[..|held| - 1]));
      if c.counted then Drop(rest, o) else rest
  }

  /** Where a schedule leads, if each of its steps is enabled when its turn comes. */
  function Exec(c: Config, steps: seq<Step>): Option<State> {
    if steps == [] then Some(START)
    else
      match Exec(c, steps[..|steps| - 1])
      case None => None
      case Some(s) =>
        var last := steps[|steps| - 1];
        if Enabled(c, s, last) then Some(Apply(c, s, last)) else None
  }

  ghost predicate Reachable(c: Config, s: State) {
    exists steps: seq<Step> :: Exec(c, steps) == Some(s)
  }

  lemma ReachableStep(c: Config, s: State, step: Step)
    requires Reachable(c, s) && Enabled(c, s, step)
    ensures Reachable(c, Apply(c, s, step))
  {
    var steps: seq<Step> :| Exec(c, steps) == Some(s);
    var more := steps + [step];
    assert more[..|more| - 1] == steps;
    assert Exec(c, more) == Some(Apply(c, s, step));
  }

  // ----- Counting owners

  function KeysTo(slots: map<Key, Obj>, o: Obj): set<Key> {
    set k | k in slots && slots[k] == o
  }

  function Times(held: seq<Obj>, o: Obj): nat {
    multiset(held)[o]
  }

  /** How many local copies of `o` the first `n` threads hold. */
  function Copies(threads: seq<Thread>, o: Obj, n: nat): nat
    requires n <= |threads|
  {
    if n == 0 then 0 else Copies(threads, o, n - 1) + Times(threads[n - 1].held, o)
  }

  function Owners(s: State, o: Obj): nat {
    |KeysTo(s.slots, o)| + Copies(s.threads, o, |s.threads|)
  }

  lemma {:induction false} CopiesAfterSet(threads: seq<Thread>, t: ThreadId, x: Thread, o: Obj, n: nat)
    requires t < |threads| && n <= |threads|
    ensures Copies(threads[t := x], o, n) ==
            Copies(threads, o, n) + if t < n then Times(x.held, o) - Times(threads[t].held, o) else 0
  {
    if n > 0 {
      CopiesAfterSet(threads, t, x, o, n - 1);
    }
  }

  lemma {:induction false} CopiesAfterSpawn(threads: seq<Thread>, x: Thread, o: Obj, n: nat)
    requires n <= |threads|
    ensures Copies(threads + [x], o, n) == Copies(threads, o, n)
  {
    if n > 0 {
      CopiesAfterSpawn(threads, x, o, n - 1);
    }
  }

  lemma {:induction false} CopiesAtLeast(threads: seq<Thread>, t: ThreadId, o: Obj, n: nat)
    requires t < n <= |threads|
    ensures Copies(threads, o, n) >= Times(threads[t].held, o)
  {
    if t < n - 1 {
      CopiesAtLeast(threads, t, o, n - 1);
    }
  }

  lemma KeysAfterErase(slots: map<Key, Obj>, k: Key, o: Obj)
    ensures |KeysTo(slots - {k}, o)| ==
            |KeysTo(slots, o)| - if k in slots && slots[k] == o then 1 else 0
  {
    assert KeysTo(slots - {k}, o) == KeysTo(slots, o) - {k};
  }

  lemma KeysAfterPut(slots: map<Key, Obj>, k: Key, made: Obj, o: Obj)
    ensures |KeysTo(slots[k := made], o)| ==
            |KeysTo(slots, o)| - (if k in slots && slots[k] == o then 1 else 0)
            + if o == made then 1 else 0
  {
    KeysAfterErase(slots, k, o);
    if o == made {
      assert KeysTo(slots[k := made], o) == KeysTo(slots - {k}, o) + {k};
    } else {
      assert KeysTo(slots[k := made], o) == KeysTo(slots - {k}, o);
    }
  }

  // ----- Invariants

  /** An object's reference count is the number of slots and local copies that point to it; it
      is live while that is positive and destroyed, once, when it is not. */
  predicate CountedAt(s: State, o: Obj) {
    && (if o in s.refs then s.refs[o] == Owners(s, o) > 0 else Owners(s, o) == 0)
    && (o in s.refs ==> o !in s.freed)
    && (o < s.next <==> o in s.refs || o in s.freed)
  }

  ghost predicate Counted(s: State) {
    forall o: Obj :: CountedAt(s, o)
  }

  predicate ThreadAt(s: State, t: ThreadId)
    requires t < |s.threads|
  {
    var thread := s.threads[t];
    && (thread.pc.InSection? <==> s.owner == Some(t))
    && (thread.pc.Transferring? ==> thread.pc.obj in thread.held)
    && (thread.pc.InSection? && thread.pc.op.Erase? ==> thread.unref.Some?)
    && (thread.pc.InSection?
        && (thread.pc.op.Put? || thread.pc.op.Clear? || thread.pc.op.LookupToUnref?) ==>
          thread.unref.None?)
    && (thread.unref.Some? ==> thread.held != [] && thread.held[0] == thread.unref.value.obj)
    && (thread.pc.InSection? && thread.pc.op.LookupToUnref? ==> thread.held == [])
  }

  ghost predicate Threads(s: State) {
    && (s.owner.Some? ==> s.owner.value < |s.threads|)
    && forall t :: 0 <= t < |s.threads| ==> ThreadAt(s, t)
  }

  /** Leaving the section touches one thread and frees the mutex. */
  ghost predicate Left(s: State, t: ThreadId, s': State)
    requires t < |s.threads|
  {
    && |s'.threads| == |s.threads| && s'.threads == s.threads[t := s'.threads[t]]
    && s'.owner.None? && ThreadAt(s', t)
  }

  lemma LeavesWithCopy(c: Config, s: State, t: ThreadId)
    requires Enabled(c, s, Leave(t)) && ThreadAt(s, t)
    requires s.threads[t].pc.op.Lookup? || s.threads[t].pc.op.LookupToUnref?
    ensures Left(s, t, Perform(c, s, t))
  {
  }

  lemma Leaves(c: Config, s: State, t: ThreadId)
    requires Enabled(c, s, Leave(t)) && ThreadAt(s, t)
    ensures Left(s, t, Perform(c, s, t))
  {
    match s.threads[t].pc.op
    case Put(key) => assert PutFresh(s, key).threads == s.threads;
    case Clear(key) => assert EraseKey(s, key).threads == s.threads;
    case Erase => assert EraseKey(s, s.threads[t].unref.value.key).threads == s.threads;
    case _ => LeavesWithCopy(c, s, t);
  }

  lemma ThreadsKept(c: Config, s: State, step: Step)
    requires Threads(s) && Enabled(c, s, step)
    ensures Threads(Apply(c, s, step))
  {
    var s' := Apply(c, s, step);
    if step.Leave? {
      assert ThreadAt(s, step.t);
      Leaves(c, s, step.t);
    }
    forall t | 0 <= t < |s'.threads|
      ensures ThreadAt(s', t)
    {
      if t < |s.threads| {
        assert ThreadAt(s, t);
      }
    }
  }

  lemma CountedAfterDrop(s: State, o: Obj, x: Obj)
    requires o in s.refs && s.refs[o] > 0 && o !in s.freed
    ensures var s' := Drop(s, o);
            && s'.slots == s.slots && s'.threads == s.threads && s'.next == s.next
            && (x != o ==> (x in s'.refs <==> x in s.refs) && (x in s'.freed <==> x in s.freed))
            && (x != o && x in s.refs ==> s'.refs[x] == s.refs[x])
            && (if s.refs[o] == 1 then o !in s'.refs && o in s'.freed
                else o in s'.refs && s'.refs[o] == s.refs[o] - 1 && o !in s'.freed)
  {
  }

  lemma TimesAppend(held: seq<Obj>, o: Obj, x: Obj)
    ensures Times(held + [o], x) == Times(held, x) + if x == o then 1 else 0
  {
  }

  lemma TimesPop(held: seq<Obj>, x: Obj)
    requires held != []
    ensures Times(held[..|held| - 1], x) ==
            Times(held, x) - if x == held[|held| - 1] then 1 else 0
  {
    assert held == held[..|held| - 1] + [held[|held| - 1]];
  }

  lemma CountedAfterCopy(c: Config, s: State, t: ThreadId, key: Key, unref: bool, x: Obj)
    requires c.counted && t < |s.threads| && CountedAt(s, x)
    requires key in s.slots ==> CountedAt(s, s.slots[key])
    ensures CountedAt(Copy(c, s, t, key, unref), x)
  {
    var s' := Copy(c, s, t, key, unref);
    CopiesAfterSet(s.threads, t, s'.threads[t], x, |s.threads|);
    if key in s.slots {
      var o := s.slots[key];
      TimesAppend(s.threads[t].held, o, x);
      assert key in KeysTo(s.slots, o);
    }
  }

  lemma SlotOwns(s: State, key: Key)
    requires key in s.slots && CountedAt(s, s.slots[key])
    ensures s.slots[key] in s.refs && s.refs[s.slots[key]] > 0 && s.slots[key] !in s.freed
    ensures s.slots[key] < s.next
  {
    assert key in KeysTo(s.slots, s.slots[key]);
  }

  lemma CountedAfterErase(s: State, key: Key, x: Obj)
    requires CountedAt(s, x) && (key in s.slots ==> CountedAt(s, s.slots[key]))
    ensures CountedAt(EraseKey(s, key), x) && EraseKey(s, key).threads == s.threads
  {
    if key in s.slots {
      SlotOwns(s, key);
      KeysAfterErase(s.slots, key, x);
      CountedAfterDrop(s.(slots := s.slots - {key}), s.slots[key], x);
    }
  }

  lemma CountedAfterPut(s: State, key: Key, x: Obj)
    requires CountedAt(s, x) && CountedAt(s, s.next)
    requires key in s.slots ==> CountedAt(s, s.slots[key])
    ensures CountedAt(PutFresh(s, key), x) && PutFresh(s, key).threads == s.threads
  {
    KeysAfterPut(s.slots, key, s.next, x);
    if key in s.slots {
      SlotOwns(s, key);
      var put := s.(slots := s.slots[key := s.next], refs := Retain(s.refs, s.next), next := s.next + 1);
      CountedAfterDrop(put, s.slots[key], x);
    }
  }

  lemma CountedAfterSetThread(s: State, t: ThreadId, thread: Thread, x: Obj)
    requires t < |s.threads| && CountedAt(s, x) && thread.held == s.threads[t].held
    ensures CountedAt(SetThread(s, t, thread), x)
  {
    CopiesAfterSet(s.threads, t, thread, x, |s.threads|);
  }

  lemma CountedAfterRelease(c: Config, s: State, t: ThreadId, x: Obj)
    requires c.counted && Enabled(c, s, Release(t)) && Counted(s)
    ensures CountedAt(Apply(c, s, Release(t)), x)
  {
    var held := s.threads[t].held;
    var o := held[|held| - 1];
    var rest := SetThread(s, t, s.threads[t].(held := held[..|held| - 1]));
    assert CountedAt(s, x) && CountedAt(s, o);
    TimesPop(held, x);
    assert o in multiset(held);
    CopiesAtLeast(s.threads, t, o, |s.threads|);
    CopiesAfterSet(s.threads, t, rest.threads[t], x, |s.threads|);
    CountedAfterDrop(rest, o, x);
  }

  lemma CountedAfterLeavingPut(c: Config, s: State, t: ThreadId, x: Obj)
    requires Enabled(c, s, Leave(t)) && Counted(s) && s.threads[t].pc.op.Put?
    ensures CountedAt(Perform(c, s, t), x)
  {
    var key := s.threads[t].pc.op.key;
    assert CountedAt(s, x) && CountedAt(s, s.next);
    assert key in s.slots ==> CountedAt(s, s.slots[key]);
    CountedAfterPut(s, key, x);
    CountedAfterSetThread(PutFresh(s, key), t, s.threads[t].(pc := Running), x);
  }

  lemma CountedAfterLeavingErase(c: Config, s: State, t: ThreadId, x: Obj)
    requires Enabled(c, s, Leave(t)) && Counted(s)
    requires s.threads[t].pc.op.Erase? || s.threads[t].pc.op.Clear?
    ensures CountedAt(Perform(c, s, t), x)
  {
    var op := s.threads[t].pc.op;
    var key := if op.Clear? then op.key else s.threads[t].unref.value.key;
    assert CountedAt(s, x);
    assert key in s.slots ==> CountedAt(s, s.slots[key]);
    CountedAfterErase(s, key, x);
    CountedAfterSetThread(EraseKey(s, key), t, Perform(c, s, t).threads[t], x);
  }

  lemma CountedAfterLeave(c: Config, s: State, t: ThreadId, x: Obj)
    requires c.counted && Enabled(c, s, Leave(t)) && Counted(s)
    ensures CountedAt(Perform(c, s, t), x)
  {
    match s.threads[t].pc.op
    case Lookup(key) =>
      assert CountedAt(s, x) && (key in s.slots ==> CountedAt(s, s.slots[key]));
      CountedAfterCopy(c, s, t, key, false, x);
    case LookupToUnref(key) =>
      assert CountedAt(s, x) && (key in s.slots ==> CountedAt(s, s.slots[key]));
      CountedAfterCopy(c, s, t, key, true, x);
    case Put(_) => CountedAfterLeavingPut(c, s, t, x);
    case Clear(_) | Erase => CountedAfterLeavingErase(c, s, t, x);
  }

  lemma CountedKept(c: Config, s: State, step: Step)
    requires c.counted && Counted(s) && Enabled(c, s, step)
    ensures Counted(Apply(c, s, step))
  {
    forall x: Obj
      ensures CountedAt(Apply(c, s, step), x)
    {
      assert CountedAt(s, x);
      match step
      case Spawn => CopiesAfterSpawn(s.threads, Thread(Running, [], None), x, |s.threads|);
      case Leave(t) => CountedAfterLeave(c, s, t, x);
      case Release(t) => CountedAfterRelease(c, s, t, x);
      case Enter(t, op) => CountedAfterSetThread(s, t, s.threads[t].(pc := InSection(op)), x);
      case BeginTransfer(t) => CountedAfterSetThread(s, t, Apply(c, s, step).threads[t], x);
      case EndTransfer(t) => CountedAfterSetThread(s, t, s.threads[t].(pc := Running), x);
    }
  }

  lemma {:induction false} InvAlong(c: Config, steps: seq<Step>, s: State)
    requires Exec(c, steps) == Some(s)
    ensures Threads(s) && (c.counted ==> Counted(s))
    decreases |steps|
  {
    if steps != [] {
      var before := Exec(c, steps[..|steps| - 1]).value;
      InvAlong(c, steps[..|steps| - 1], before);
      ThreadsKept(c, before, steps[|steps| - 1]);
      if c.counted {
        CountedKept(c, before, steps[|steps| - 1]);
      }
    }
  }

  // ----- Lifetime

  /** Some thread is transferring through an object that has been destroyed. */
  ghost predicate UsesFreed(s: State) {
    exists t :: 0 <= t < |s.threads| && s.threads[t].pc.Transferring? && s.threads[t].pc.obj !in s.refs
  }

  /** In every interleaving: reference counts are exactly slots plus local copies, every object
      made is either live or was destroyed because nothing points to it any more, every copy
      held is of a live object. */
  lemma LifetimesAreExact(c: Config, s: State, o: Obj)
    requires c.counted && Reachable(c, s) && o < s.next
    ensures o in s.refs ==> s.refs[o] == Owners(s, o)
    ensures o in s.freed <==> Owners(s, o) == 0
    ensures o in s.freed <==> o !in s.refs
    ensures forall t :: 0 <= t < |s.threads| && o in s.threads[t].held ==> o in s.refs
  {
    var steps: seq<Step> :| Exec(c, steps) == Some(s);
    InvAlong(c, steps, s);
    assert CountedAt(s, o);
    forall t | 0 <= t < |s.threads| && o in s.threads[t].held
      ensures o in s.refs
    {
      CopiesAtLeast(s.threads, t, o, |s.threads|);
    }
  }

  /** The mutex is never held across a transfer, so a transfer that does not return keeps nobody
      else out: whoever holds the mutex can always let go of it. */
  lemma MutexIsShort(c: Config, s: State, t: ThreadId)
    requires Reachable(c, s) && t < |s.threads|
    ensures s.threads[t].pc.Transferring? ==> s.owner != Some(t)
    ensures s.owner.Some? ==>
              && Enabled(c, s, Leave(s.owner.value))
              && Apply(c, s, Leave(s.owner.value)).owner.None?
  {
    var steps: seq<Step> :| Exec(c, steps) == Some(s);
    InvAlong(c, steps, s);
    assert ThreadAt(s, t);
    if s.owner.Some? {
      assert ThreadAt(s, s.owner.value);
    }
  }

  lemma NoUseOfFreed(c: Config, s: State)
    requires c.counted && Reachable(c, s)
    ensures !UsesFreed(s)
  {
    var steps: seq<Step> :| Exec(c, steps) == Some(s);
    InvAlong(c, steps, s);
    forall t | 0 <= t < |s.threads| && s.threads[t].pc.Transferring?
      ensures s.threads[t].pc.obj in s.refs
    {
      assert ThreadAt(s, t) && CountedAt(s, s.threads[t].pc.obj);
      CopiesAtLeast(s.threads, t, s.threads[t].pc.obj, |s.threads|);
    }
  }

  // ----- What goes wrong otherwise

  function Fresh(n: nat): State {
    START.(threads := seq(n, _ => Thread(Running, [], None)))
  }

  lemma {:induction false} ThreadsSpawn(c: Config, n: nat)
    ensures Reachable(c, Fresh(n))
  {
    if n == 0 {
      assert Exec(c, []) == Some(START);
      assert Fresh(0) == START;
    } else {
      ThreadsSpawn(c, n - 1);
      ReachableStep(c, Fresh(n - 1), Spawn);
      assert Apply(c, Fresh(n - 1), Spawn).threads == Fresh(n).threads;
    }
  }

  /** `Enter` and `Leave` back to back. */
  lemma Does(c: Config, s: State, t: ThreadId, op: Op) returns (s': State)
    requires Reachable(c, s) && Enabled(c, s, Enter(t, op))
    ensures Reachable(c, s')
    ensures var inside := SetThread(s, t, s.threads[t].(pc := InSection(op))).(owner := Some(t));
            Enabled(c, inside, Leave(t)) && s' == Perform(c, inside, t)
  {
    ReachableStep(c, s, Enter(t, op));
    ReachableStep(c, Apply(c, s, Enter(t, op)), Leave(t));
    s' := Apply(c, Apply(c, s, Enter(t, op)), Leave(t));
  }

  lemma UsesFreedWhenUncounted(c: Config, m: ThreadId) returns (s: State)
    requires !c.counted && m in c.mutators
    ensures Reachable(c, s) && UsesFreed(s)
  {
    var reader := m + 1;
    ThreadsSpawn(c, m + 2);
    s := Fresh(m + 2);
    s := Does(c, s, m, Put(0));
    s := Does(c, s, reader, Lookup(0));
    ReachableStep(c, s, BeginTransfer(reader));
    s := Apply(c, s, BeginTransfer(reader));
    s := Does(c, s, m, Put(0));
    assert s.threads[reader].pc == Transferring(0) && 0 !in s.refs;
  }

  /** Owning copies are what makes it safe: without them, and only then, some interleaving
      transfers through a destroyed object. */
  lemma SafeIffCopiesOwn(c: Config)
    requires c.mutators != {}
    ensures (exists s :: Reachable(c, s) && UsesFreed(s)) <==> !c.counted
  {
    if c.counted {
      forall s | Reachable(c, s)
        ensures !UsesFreed(s)
      {
        NoUseOfFreed(c, s);
      }
    } else {
      var m :| m in c.mutators;
      var s := UsesFreedWhenUncounted(c, m);
    }
  }

  // ----- unrefResource erases by id what it looked up by pointer

  /** With one mutator, nobody can have put something else under the id in between. */
  ghost predicate UnrefsAgree(c: Config, s: State) {
    && !s.erasedAnother
    && forall t :: 0 <= t < |s.threads| && s.threads[t].unref.Some? ==>
         && t in c.mutators
         && s.threads[t].unref.value.key in s.slots
         && s.slots[s.threads[t].unref.value.key] == s.threads[t].unref.value.obj
  }

  ghost predicate MutatorsOnly(c: Config, s: State) {
    forall t :: 0 <= t < |s.threads| && s.threads[t].pc.InSection? && !s.threads[t].pc.op.Lookup? ==>
      t in c.mutators
  }

  ghost predicate Sole(c: Config) {
    forall a, b :: a in c.mutators && b in c.mutators ==> a == b
  }

  lemma UnrefsAgreeAfterUpdate(c: Config, s: State, t: ThreadId)
    requires Sole(c) && UnrefsAgree(c, s) && MutatorsOnly(c, s) && Enabled(c, s, Leave(t)) && ThreadAt(s, t)
    requires s.threads[t].pc.op.Put? || s.threads[t].pc.op.Clear? || s.threads[t].pc.op.Erase?
    ensures UnrefsAgree(c, Perform(c, s, t)) && MutatorsOnly(c, Perform(c, s, t))
  {
  }

  lemma UnrefsAgreeKept(c: Config, s: State, step: Step)
    requires Sole(c) && Threads(s) && UnrefsAgree(c, s) && MutatorsOnly(c, s) && Enabled(c, s, step)
    ensures UnrefsAgree(c, Apply(c, s, step)) && MutatorsOnly(c, Apply(c, s, step))
  {
    if step.Leave? {
      assert ThreadAt(s, step.t);
      if !s.threads[step.t].pc.op.Lookup? && !s.threads[step.t].pc.op.LookupToUnref? {
        UnrefsAgreeAfterUpdate(c, s, step.t);
      }
    }
  }

  lemma {:induction false} UnrefsAgreeAlong(c: Config, steps: seq<Step>, s: State)
    requires Sole(c) && Exec(c, steps) == Some(s)
    ensures UnrefsAgree(c, s) && MutatorsOnly(c, s)
    decreases |steps|
  {
    if steps != [] {
      var before := Exec(c, steps[..|steps| - 1]).value;
      UnrefsAgreeAlong(c, steps[..|steps| - 1], before);
      InvAlong(c, steps[..|steps| - 1], before);
      UnrefsAgreeKept(c, before, steps[|steps| - 1]);
    }
  }

  lemma ErasesAnother(c: Config, a: ThreadId, b: ThreadId) returns (s: State)
    requires a in c.mutators && b in c.mutators && a != b
    ensures Reachable(c, s) && s.erasedAnother
  {
    ThreadsSpawn(c, a + b + 1);
    s := Fresh(a + b + 1);
    s := Does(c, s, a, Put(0));
    s := Does(c, s, a, LookupToUnref(0));
    s := Does(c, s, b, Put(0));
    s := Does(c, s, a, Erase);
  }

  /** `unrefResource` always erases the object it looked up, exactly when no two threads create
      and unref. */
  lemma UnrefErasesWhatItFoundIffSole(c: Config)
    ensures (exists s :: Reachable(c, s) && s.erasedAnother) <==> !Sole(c)
  {
    if Sole(c) {
      forall s | Reachable(c, s)
        ensures !s.erasedAnother
      {
        var steps: seq<Step> :| Exec(c, steps) == Some(s);
        UnrefsAgreeAlong(c, steps, s);
      }
    } else {
      var a, b :| a in c.mutators && b in c.mutators && a != b;
      var s := ErasesAnother(c, a, b);
    }
  }
}
