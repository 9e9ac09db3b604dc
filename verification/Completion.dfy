/** Completing one control-queue descriptor: the inline tail and the deferred one. */
module Completion {
  // The tails of `process_queue` and of `complete_deferred_transfer_read`, as calls made on the fence handler,
  // the response writer, the used ring and the interrupt line.

  import opened Wrappers
  import Dispatch

  const FLAG_FENCE: bv32 := 1
  const FLAG_INFO_RING_IDX: bv32 := 2

  datatype Response = OkNoData | ErrUnspec | Other(code: nat)

  datatype Header = Header(flags: bv32, fenceId: nat, ctxId: nat, ringIdx: nat)

  datatype Ring = Global | ContextSpecific(ctxId: nat, ringIdx: nat)

  datatype Call =
    | CreateFence(fence: Header)
    | Encode(response: Response, fence: Header)
    | ProcessFence(ring: Ring, fenceId: nat, index: nat, len: nat)
    | AddUsed(index: nat, len: nat)
    | Interrupt

  /** What the code outside answers: the room in the writer, the error `create_fence` returns
      if any, the length `encode` wrote unless it failed, and whether `process_fence` found
      the fence already signalled. */
  datatype World = World(
    available: nat,
    createFence: Header -> Option<Response>,
    encode: (Response, Header) -> Option<nat>,
    processFence: (Ring, nat, nat) -> bool)

  /** The parts of the device a completion talks to, with a log of what it said. */
  class Device {
    const world: World
    var calls: seq<Call>

    constructor (world: World)
      ensures this.world == world && calls == []
    {
      this.world := world;
      calls := [];
    }

    method DoCreateFence(fence: Header) returns (error: Option<Response>)
      modifies this
      ensures calls == old(calls) + [CreateFence(fence)] && error == world.createFence(fence)
    {
      calls := calls + [CreateFence(fence)];
      error := world.createFence(fence);
    }

    method DoEncode(response: Response, fence: Header) returns (len: Option<nat>)
      modifies this
      ensures calls == old(calls) + [Encode(response, fence)] && len == world.encode(response, fence)
    {
      calls := calls + [Encode(response, fence)];
      len := world.encode(response, fence);
    }

    method DoProcessFence(ring: Ring, fenceId: nat, index: nat, len: nat) returns (done: bool)
      modifies this
      ensures calls == old(calls) + [ProcessFence(ring, fenceId, index, len)]
      ensures done == world.processFence(ring, fenceId, len)
    {
      calls := calls + [ProcessFence(ring, fenceId, index, len)];
      done := world.processFence(ring, fenceId, len);
    }

    method DoAddUsed(index: nat, len: nat)
      modifies this
      ensures calls == old(calls) + [AddUsed(index, len)]
    {
      calls := calls + [AddUsed(index, len)];
    }

    method DoInterrupt()
      modifies this
      ensures calls == old(calls) + [Interrupt]
    {
      calls := calls + [Interrupt];
    }
  }

  // ----- What a completion amounts to

  const NO_FENCE := Header(0, 0, 0, 0)

  predicate Fenced(hdr: Header) { hdr.flags & FLAG_FENCE != 0 }

  function RingOf(hdr: Header): Ring {
    if hdr.flags & FLAG_INFO_RING_IDX == 0 then Global else ContextSpecific(hdr.ctxId, hdr.ringIdx)
  }

  /** The response as sent: a fence that cannot be created replaces it. */
  function Sent(w: World, hdr: Header, response: Response): Response {
    if Fenced(hdr) && w.createFence(hdr).Some? then w.createFence(hdr).value else response
  }

  function LengthOf(written: Option<nat>): nat {
    if written.Some? then written.value else 0
  }

  /** The length reported: nothing without room, and nothing when encoding failed. */
  function Length(w: World, hdr: Header, response: Response): nat {
    if w.available == 0 then 0
    else LengthOf(w.encode(Sent(w, hdr, response), if Fenced(hdr) then hdr else NO_FENCE))
  }

  /** The head stays with the fence handler. */
  predicate Pending(w: World, hdr: Header, response: Response) {
    w.available != 0 && Fenced(hdr) && !w.processFence(RingOf(hdr), hdr.fenceId, Length(w, hdr, response))
  }

  function Answer(w: World, hdr: Header, response: Response, index: nat): seq<Call> {
    var len := Length(w, hdr, response);
    if w.available == 0 then [AddUsed(index, 0)]
    else if !Fenced(hdr) then [Encode(response, NO_FENCE), AddUsed(index, len)]
    else
      [CreateFence(hdr), Encode(Sent(w, hdr, response), hdr), ProcessFence(RingOf(hdr), hdr.fenceId, index, len)]
      + if Pending(w, hdr, response) then [] else [AddUsed(index, len)]
  }

  /** The responses given to the encoder, in order. */
  function Responses(calls: seq<Call>): seq<Response> {
    if calls == [] then []
    else (if calls[0].Encode? then [calls[0].response] else []) + Responses(calls[1..])
  }

  /** With room there is one response: the one to send, or the fence's error in its place.  Without room there
      is none, and the head is used up with nothing written. */
  lemma OneResponse(w: World, hdr: Header, response: Response, index: nat)
    ensures w.available == 0 ==> Answer(w, hdr, response, index) == [AddUsed(index, 0)]
    ensures w.available != 0 ==>
      Responses(Answer(w, hdr, response, index))
      == [if hdr.flags & 1 != 0 && w.createFence(hdr).Some? then w.createFence(hdr).value else response]
  {
    var calls := Answer(w, hdr, response, index);
    if w.available != 0 && Fenced(hdr) {
      assert calls == [calls[0], calls[1]] + calls[2..];
      OneEncode(calls[0], calls[1], calls[2..]);
    } else if w.available != 0 {
      assert calls[1..] == [AddUsed(index, Length(w, hdr, response))];
      assert Responses(calls[1..]) == [];
    }
  }

  lemma OneEncode(first: Call, second: Call, rest: seq<Call>)
    requires !first.Encode? && second.Encode?
    requires |rest| <= 2 && forall k :: 0 <= k < |rest| ==> !rest[k].Encode?
    ensures Responses([first, second] + rest) == [second.response]
  {
    var calls := [first, second] + rest;
    assert calls[1..] == [second] + rest && calls[1..][1..] == rest;
    NoResponses(rest);
  }

  lemma {:induction false} NoResponses(calls: seq<Call>)
    requires forall k :: 0 <= k < |calls| ==> !calls[k].Encode?
    ensures Responses(calls) == []
  {
    if calls != [] {
      NoResponses(calls[1..]);
    }
  }

  lemma {:induction false} ResponsesBoth(a: seq<Call>, b: seq<Call>)
    ensures Responses(a + b) == Responses(a) + Responses(b)
  {
    if a == [] {
      assert a + b == b;
    } else {
      var first := if a[0].Encode? then [a[0].response] else [];
      assert (a + b)[1..] == a[1..] + b && (a + b)[0] == a[0];
      ResponsesBoth(a[1..], b);
      Regroup(first, Responses(a[1..]), Responses(b));
    }
  }

  lemma Regroup(a: seq<Response>, b: seq<Response>, c: seq<Response>)
    ensures a + (b + c) == a + b + c
  {
  }

  lemma DeferredResponses(w: World, hdr: Header, response: Response, index: nat)
    ensures Responses(Deferred(w, hdr, response, index)) == Responses(Answer(w, hdr, response, index))
  {
    var last := if Pending(w, hdr, response) then [] else [Interrupt];
    ResponsesBoth(Answer(w, hdr, response, index), last);
    NoResponses(last);
  }

  /** The length reported with the head, to the used ring or to the fence handler, is what the encoder said it
      wrote, and zero when it failed; it is told the header's fence if there is one and an empty one if not. */
  lemma LengthIsWritten(w: World, hdr: Header, response: Response, index: nat)
    requires w.available != 0
    ensures var calls := Answer(w, hdr, response, index);
      var at := if hdr.flags & 1 != 0 then 1 else 0;
      && at + 1 < |calls| && calls[at].Encode?
      && calls[at].fence == (if hdr.flags & 1 != 0 then hdr else Header(0, 0, 0, 0))
      && (forall k :: 0 <= k < |calls| && (calls[k].AddUsed? || calls[k].ProcessFence?) ==>
            calls[k].len == match w.encode(calls[at].response, calls[at].fence) case None => 0 case Some(n) => n)
  {
  }

  // ----- The two tails

  /** The inline tail: `resp` is what `process_gpu_command` returned, an error response or not. */
  method CompleteInline(d: Device, hdr: Header, resp: Response, index: nat) returns (used: bool)
    modifies d
    ensures d.calls == old(d.calls) + Answer(d.world, hdr, resp, index)
    ensures used == !Pending(d.world, hdr, resp)
  {
    var gpuResponse := resp;
    var addToQueue := true;
    var len := 0;
    if d.world.available != 0 {
      var fenceId, ctxId, flags: bv32, ringIdx := 0, 0, 0, 0;
      if hdr.flags & FLAG_FENCE != 0 {
        flags, fenceId, ctxId, ringIdx := hdr.flags, hdr.fenceId, hdr.ctxId, hdr.ringIdx;
        var error := d.DoCreateFence(Header(flags, fenceId, ctxId, ringIdx));
        if error.Some? {
          gpuResponse := error.value;
        }
      }
      var written := d.DoEncode(gpuResponse, Header(flags, fenceId, ctxId, ringIdx));
      if written.Some? {
        len := written.value;
      }
      if flags & FLAG_FENCE != 0 {
        var ring := if flags & FLAG_INFO_RING_IDX == 0 then Global else ContextSpecific(ctxId, ringIdx);
        addToQueue := d.DoProcessFence(ring, fenceId, index, len);
      }
    }
    used := false;
    if addToQueue {
      d.DoAddUsed(index, len);
      used := true;
    }
  }

  datatype Transfer = Transfer(empty: bool, returned: int)

  // `transfer_read_blocking_by_id` fails when the renderer returns anything but zero; an empty box never
  // reaches the renderer.

  /** The deferred tail, on the reader thread.  A chain or a writer that cannot be rebuilt from
      the head index drops the descriptor. */
  method CompleteDeferred(d: Device, hdr: Header, transfer: Transfer, rebuilds: bool, index: nat)
    modifies d
    ensures !rebuilds ==> d.calls == old(d.calls)
    ensures rebuilds ==>
      var response := if transfer.empty || transfer.returned == 0 then OkNoData else ErrUnspec;
      d.calls == old(d.calls) + Deferred(d.world, hdr, response, index)
  {
    var gpuResponse := OkNoData;
    if !transfer.empty && transfer.returned != 0 {
      gpuResponse := ErrUnspec;
    }
    if rebuilds {
      ghost var before := d.calls;
      AnswerDeferred(d, hdr, gpuResponse, index);
      DeferredCalls(d.world, hdr, gpuResponse, index, before, d.calls);
    }
  }

  /** What follows once the chain and its writer are rebuilt. */
  method AnswerDeferred(d: Device, hdr: Header, response: Response, index: nat)
    modifies d
    ensures d.calls == old(d.calls) + Answer(d.world, hdr, response, index)
                     + if Pending(d.world, hdr, response) then [] else [Interrupt]
  {
    var gpuResponse := response;
    var fenceId, respCtxId, flags: bv32, ringIdx, len := 0, 0, 0, 0, 0;
    if d.world.available != 0 {
      if hdr.flags & FLAG_FENCE != 0 {
        flags, fenceId, respCtxId, ringIdx := hdr.flags, hdr.fenceId, hdr.ctxId, hdr.ringIdx;
        var error := d.DoCreateFence(Header(flags, fenceId, respCtxId, ringIdx));
        if error.Some? {
          gpuResponse := error.value;
        }
      }
      var written := d.DoEncode(gpuResponse, Header(flags, fenceId, respCtxId, ringIdx));
      if written.Some? {
        len := written.value;
      }
    }
    var addToQueue := true;
    if flags & FLAG_FENCE != 0 {
      var ring := if flags & FLAG_INFO_RING_IDX == 0 then Global else ContextSpecific(respCtxId, ringIdx);
      addToQueue := d.DoProcessFence(ring, fenceId, index, len);
    }
    if addToQueue {
      d.DoAddUsed(index, len);
      d.DoInterrupt();
    }
  }

  lemma DeferredCalls(w: World, hdr: Header, response: Response, index: nat, before: seq<Call>, after: seq<Call>)
    requires after == before + Answer(w, hdr, response, index) + if Pending(w, hdr, response) then [] else [Interrupt]
    ensures after == before + Deferred(w, hdr, response, index)
  {
  }

  /** Completing a read on a reader thread says to the device what completing it inline would have said, and
      then interrupts if it used the descriptor, exactly when the chain can be rebuilt and the response sent is
      the same.  `resp` is the response of the inline handler, which is not part of this model; it matters only
      if there is room for a response and no fence error replaces it. */
  method DeferredRefinesInline(world: World, hdr: Header, resp: Response, transfer: Transfer, rebuilds: bool, index: nat)
      returns (inline: seq<Call>, used: bool, deferred: seq<Call>)
    ensures deferred == inline + (if used then [Interrupt] else []) <==>
      rebuilds && (world.available == 0 || Responses(inline) == Responses(deferred))
    ensures used <==> exists len :: AddUsed(index, len) in inline
    ensures world.available != 0 ==>
      Responses(inline) == [if hdr.flags & 1 != 0 && world.createFence(hdr).Some? then world.createFence(hdr).value else resp]
    ensures rebuilds && world.available != 0 ==>
      Responses(deferred)
      == [if hdr.flags & 1 != 0 && world.createFence(hdr).Some? then world.createFence(hdr).value
          else if transfer.empty || transfer.returned == 0 then OkNoData else ErrUnspec]
  {
    ghost var response := if transfer.empty || transfer.returned == 0 then OkNoData else ErrUnspec;
    var d := new Device(world);
    used := CompleteInline(d, hdr, resp, index);
    inline := d.calls;
    var e := new Device(world);
    CompleteDeferred(e, hdr, transfer, rebuilds, index);
    deferred := e.calls;
    AnswersOnce(world, hdr, resp, index);
    SameCallsIff(world, hdr, resp, response, index);
    OneResponse(world, hdr, resp, index);
    OneResponse(world, hdr, response, index);
    DeferredResponses(world, hdr, response, index);
    assert inline == Answer(world, hdr, resp, index);
    assert inline + (if used then [Interrupt] else []) == Deferred(world, hdr, resp, index);
    assert rebuilds ==> deferred == Deferred(world, hdr, response, index);
    assert !rebuilds ==> deferred == [] && |inline| > 0;
  }

  /** The calls as a reader thread makes them. */
  function Deferred(w: World, hdr: Header, response: Response, index: nat): seq<Call> {
    Answer(w, hdr, response, index) + if Pending(w, hdr, response) then [] else [Interrupt]
  }

  /** Two responses are answered alike exactly when there is no room for either or they are sent as one. */
  lemma SameCallsIff(w: World, hdr: Header, a: Response, b: Response, index: nat)
    ensures Deferred(w, hdr, a, index) == Deferred(w, hdr, b, index) <==>
      w.available == 0 || Sent(w, hdr, a) == Sent(w, hdr, b)
  {
    if w.available != 0 && Sent(w, hdr, a) != Sent(w, hdr, b) {
      var at := if Fenced(hdr) then 1 else 0;
      assert Deferred(w, hdr, a, index)[at] != Deferred(w, hdr, b, index)[at];
    }
  }

  // ----- What the answer guarantees

  /** The head goes one way only: onto the used ring, once and last, or to the fence handler. */
  lemma AnswersOnce(w: World, hdr: Header, response: Response, index: nat)
    ensures var calls := Answer(w, hdr, response, index);
      && (forall k, i, len :: 0 <= k < |calls| && calls[k] == AddUsed(i, len) ==>
            k == |calls| - 1 && i == index && len == Length(w, hdr, response))
      && ((exists len :: AddUsed(index, len) in calls) <==> !Pending(w, hdr, response))
      && (Pending(w, hdr, response) ==> calls[|calls| - 1].ProcessFence?)
      && Interrupt !in calls
  {
    var calls := Answer(w, hdr, response, index);
    if !Pending(w, hdr, response) {
      assert calls[|calls| - 1] == AddUsed(index, Length(w, hdr, response));
    }
  }

  /** The fence calls come in pairs, for fenced headers only, in the order create, encode, process;
      and they name the header's own fence and ring. */
  lemma FenceCallsArePaired(w: World, hdr: Header, response: Response, index: nat)
    ensures var calls := Answer(w, hdr, response, index);
      && (forall k :: 0 <= k < |calls| && calls[k].CreateFence? ==>
            k == 0 && calls[k].fence == hdr && |calls| > 2 && calls[2].ProcessFence?)
      && (forall k :: 0 <= k < |calls| && calls[k].ProcessFence? ==>
            k == 2 && calls[0].CreateFence? && calls[1].Encode? && calls[k].index == index
            && calls[k].fenceId == hdr.fenceId && calls[k].len == Length(w, hdr, response)
            && calls[k].ring == if hdr.flags & 2 == 0 then Global else ContextSpecific(hdr.ctxId, hdr.ringIdx))
      && ((exists k :: 0 <= k < |calls| && calls[k].ProcessFence?) <==> w.available != 0 && hdr.flags & 1 != 0)
  {
    var calls := Answer(w, hdr, response, index);
    if w.available != 0 && Fenced(hdr) {
      assert calls[2].ProcessFence?;
    }
  }

  /** The outcome the dispatcher's transition system distinguishes. */
  function OutcomeOf(w: World, hdr: Header, response: Response, rebuilds: bool): Dispatch.Outcome {
    if !rebuilds then Dispatch.Rebuildless
    else if w.available == 0 || !Fenced(hdr) then Dispatch.Plain
    else if Pending(w, hdr, response) then Dispatch.FencePending
    else Dispatch.FenceDone
  }

  /** The dispatcher's transition system files a head under "used", "left with the fence handler" or
      "dropped" exactly as the calls do. */
  lemma OutcomesAreTheDispatchers(s: Dispatch.State, i: nat,
      w: World, hdr: Header, response: Response, rebuilds: bool, index: nat)
    requires i < |s.phase| && i !in s.used && i !in s.fences && i !in s.dropped
    ensures var after := Dispatch.Disposed(s, i, OutcomeOf(w, hdr, response, rebuilds));
      var calls := if rebuilds then Answer(w, hdr, response, index) else [];
      && (i in after.used <==> exists len :: AddUsed(index, len) in calls)
      && (i in after.fences <==> calls != [] && calls[|calls| - 1].ProcessFence?)
      && (i in after.dropped <==> calls == [])
  {
    AnswersOnce(w, hdr, response, index);
  }
}
