# Verification of the capivara host: GPU transfers, teardown, shader ABI and disk images

A Dafny model of the parts of the repository where several threads, an owned heap or a binary format
meet, with proofs of what those parts are for. `dafny verify dfyconfig.toml` checks all of it.

- **Deferred reads** (`DeferredGuard`, `Dispatch`, `DispatchInvariants`, `DispatchSafety`,
  `DispatchLiveness`, `DispatchSchedules`, `Completion`). The virtio-gpu worker is a transition system: the guest publishing
  and notifying, the one dispatcher, an unbounded number of reader threads, the fence handler. A command
  carries its resource, and each read the set of later or earlier commands without which its transfer does
  not return. All four published versions of the guard (0010 to 0013) are instances of one `Design`
  parameter, so the safety results hold of every version and the liveness result says of each which
  queues it gets through: exactly those where nothing that waits for a read lies between the read and a
  command feeding it.
- **ASG handshake** (`Asg`). Guest and host as interleaved steps over per-thread store buffers, with the
  two fences, the second look, the bounded wait and a message-dropping adversary as switches.
- **Lifetimes** (`SharedSlots`, `Frontend`). Shared pointers in slots behind a short mutex, for the
  resource map and for a resource's pipe alike; and the frontend's attach, detach, unref and teardown as
  methods on mutable maps.
- **Shader-translator ABI** (`ShaderHeap`, `ShaderVariables`, `ShaderResults`, `ShaderResolve`,
  `ShaderFree`). An explicit C heap. `Rep` says that a pointer structure spells out a tree, `Own` counts the
  allocations it reaches, `Grew` that a heap gained exactly some fresh and distinct allocations. `free`
  requires its argument to be allocated, so a double free does not verify.
- **Disk images** (`ByteFile`, `Gpt`, `GptDisk`, `GptImage`, `GptReader`, `Sparse`, `SparseFills`,
  `SparseRoundTrip`).
  Byte-level files, Python's `struct` formats, the GPT script read back by a reader after section 5.3 of the
  UEFI Specification 2.10 that knows byte offsets and not the script's formats, and the sparse decoder against images
  written out byte by byte and their block-by-block expansion.
- **Boot contract** (`BootOrder`, `BootContract`, `CommandLine`, `CommandOptions`, `BootHints`, `BootMap`, `BootDevices`).
  Disk arguments, the canonical sort, boot devices and the command line; and a reader of that line, who splits it into
  options, the partition map into entries and the boot devices into names.

## Findings

- 0010 to 0012 get stuck on any queue with a second read of a resource between a first read and its feed, and
  0010, draining globally, on any feed that is not a TransferToHost3d. In every version a feed sticks that waits for
  its own read: a lifecycle command on the read's resource (for a context detach, in every version but 0011).
  The comments take it for granted that there is none.
- 0011, and no other version, lets a context detach run in the middle of a read on the same resource.
- A dispatcher that waits at a gate for good keeps the interrupts of the batch it has in hand to itself: on an
  obstructed queue the guest may never hear of commands that were answered. Three commands are enough, in every
  version.
- `make-android-gpt.py` sizes the disk from the last sector instead of the one after it. The last partition's
  last sector is the first sector of the backup table whenever its end + 33 is a multiple of 2048, and the end
  of that image is then overwritten (2016 sectors alone on a disk are enough). Both headers always declare that
  sector usable.
- `android_sparse_to_raw.py` fills with whole words only and so stops short in blocks that are not a multiple of four
  bytes. An image with 12-byte chunk headers comes out right exactly when each of its fill chunks has blocks of whole
  words, or no blocks, or a word with zeros where it is broken: all of it, or, in a single block or in blocks shorter
  than a word, its first `blk_sz % 4` bytes. All images of a block size come out right exactly when that size is a multiple of four.
  The script fails on every image that has a chunk and chunk headers longer than 12 bytes, though it skips a longer
  file header.
- The partition map on the built line is right exactly when no disk sorts before super, there is a super disk,
  userdata, if there, has exactly one disk before it, and frp, if there, has at most two before it and more than two
  before it or of its role. A lone userdata disk is misnamed.
- The boot devices on the line never include `vda` when super is attached first and not alone, though that is the
  disk on which the map on the same line puts every partition: super's own entry is `vdj` then.
- Hints are looked for as text and not as options: a hint whose text occurs in the command line given, but not
  as an option of its own, is missing from the one built. A longer partition map keeps out a shorter one.

## Model

| member | source | states |
|---|---|---|
| `DeferredGuard.DeferredGuardState.Begin` | patches/libkrun/0013-virtio-gpu-serialize-same-resource-deferred-reads-of.patch:62-71 | counts the read and hands out the next ticket of its resource; the whole new guard state |
| `DeferredGuard.DeferredGuardState.IsTurn` | patches/libkrun/0013-virtio-gpu-serialize-same-resource-deferred-reads-of.patch:82-88 | the condition `wait_turn` waits for |
| `DeferredGuard.DeferredGuardState.IsIdle` | patches/libkrun/0013-virtio-gpu-serialize-same-resource-deferred-reads-of.patch:127-136 | the condition `wait_idle` waits for: no read of the resource is in flight |
| `DeferredGuard.DeferredGuardState.End` | patches/libkrun/0013-virtio-gpu-serialize-same-resource-deferred-reads-of.patch:93-113 | one read less; the last one erases the resource from all three maps |
| `DeferredGuard.BeginEnqueues` | patches/libkrun/0013-virtio-gpu-serialize-same-resource-deferred-reads-of.patch:59-71 | `begin` puts its ticket at the back of that resource's queue of live tickets and moves no other queue |
| `DeferredGuard.EndDequeues` | patches/libkrun/0013-virtio-gpu-serialize-same-resource-deferred-reads-of.patch:90-113 | `end` takes the front ticket off that queue, whether or not the maps are reset, and moves no other queue |
| `DeferredGuard.WaitsReadTheQueue` | patches/libkrun/0013-virtio-gpu-serialize-same-resource-deferred-reads-of.patch:74-88 | the ticket let in is the front of the queue, for every live position; idle means the queue is empty |
| `DispatchInvariants.ReachableInv` | patches/libkrun/0007-virtio-gpu-defer-gfxstream-TransferFromHost3d-to-bre.patch:146-296 | what every step of dispatcher, readers, guest and fence handler keeps: layout, ticket counts, turns, order, sleepers, notifications, descriptors, interrupts, effect log |
| `DispatchSafety.EffectsFollowQueue` | patches/libkrun/0013-virtio-gpu-serialize-same-resource-deferred-reads-of.patch:150-168 | transfers and lifecycle commands on one resource take effect in queue order, in every reachable state |
| `DispatchSafety.StartsAfterEarlierOnes` | patches/libkrun/0011-virtio-gpu-scope-deferred-read-guard-per-resource-dr.patch:98-125 | such a command starts only after every earlier one has finished its transfer, given its descriptor back and told the guard |
| `DispatchSafety.LifecycleRunsAlone` | patches/libkrun/0012-virtio-gpu-drain-deferred-read-on-CtxDetachResource-.patch:36-46 | while a lifecycle command on a resource runs no read of it is in flight, and none begins before the command is answered |
| `DispatchSafety.WaitsForReads` | patches/libkrun/0011-virtio-gpu-scope-deferred-read-guard-per-resource-dr.patch:98-125 | by the kind of the command: an attach-backing, detach-backing, unref or create is past its gate only when every earlier read of its resource is over and no later one has begun; likewise a context detach in every version but 0011, and under 0010 every kind but TransferToHost3d for the reads of all resources |
| `DispatchSchedules.RunsBesideAReadIff` | patches/libkrun/0011-virtio-gpu-scope-deferred-read-guard-per-resource-dr.patch:98-125 | the other half, by kind and version: exactly which command can execute while a read before it is in flight, on the same resource or on another |
| `DispatchSchedules.OverlapIff` | patches/libkrun/0011-virtio-gpu-scope-deferred-read-guard-per-resource-dr.patch:98-125 | for every version and queue: a command can execute while a read is in flight exactly when it is behind the read, nothing from behind the read up to it waits for the read, and nothing up to it is obstructed |
| `DispatchSchedules.DetachOverlapsIn0011Only` | patches/libkrun/0012-virtio-gpu-drain-deferred-read-on-CtxDetachResource-.patch:36-46 | of the four versions exactly 0011 lets a context detach execute while a read on its resource is in flight |
| `DispatchSchedules.DetachOverlapsUnder0011Iff` | patches/libkrun/0011-virtio-gpu-scope-deferred-read-guard-per-resource-dr.patch:98-125 | under 0011, queue by queue: exactly which context detaches can overlap which reads before them |
| `DispatchSafety.OneTransferPerResource` | patches/libkrun/0013-virtio-gpu-serialize-same-resource-deferred-reads-of.patch:74-88 | no two reads of one resource are past `wait_turn` at once |
| `DispatchSafety.QueueOfTickets` | patches/libkrun/0013-virtio-gpu-serialize-same-resource-deferred-reads-of.patch:38-48 | across all resets the live tickets of a resource are exactly those of its live reads, in submission order |
| `DispatchSafety.EndNeverStrands` | patches/libkrun/0013-virtio-gpu-serialize-same-resource-deferred-reads-of.patch:93-113 | the saturating subtraction never saturates, and the maps are erased exactly when no other read of the resource is live |
| `DispatchSafety.DescriptorsConserved` | patches/libkrun/0007-virtio-gpu-defer-gfxstream-TransferFromHost3d-to-bre.patch:154-296 | the popped heads are the disjoint union of used ring, fence handler, given-up and in-process ones; none is used twice |
| `DispatchSafety.InterruptsOwed` | patches/libkrun/0007-virtio-gpu-defer-gfxstream-TransferFromHost3d-to-bre.patch:102-113 | for used entries not yet signalled somebody owes the guest an interrupt: the dispatcher, not asleep, or a reader about to signal |
| `DispatchSchedules.InterruptsDelivered` | patches/libkrun/0007-virtio-gpu-defer-gfxstream-TransferFromHost3d-to-bre.patch:102-113 | on an unobstructed queue a run that has come to rest has delivered every interrupt |
| `DispatchSchedules.AnswerIsWithheld` | patches/libkrun/0010-virtio-gpu-mitigate-deferred-TransferFromHost3d-vs.-.patch:138-169 | three commands are enough in every version: an inline command, a read, and the read's feed that waits for it; a run can come to rest owing the first command's interrupt |
| `DispatchSchedules.InterruptWithheldIff` | patches/libkrun/0010-virtio-gpu-mitigate-deferred-TransferFromHost3d-vs.-.patch:138-169 | a run can come to rest owing an interrupt exactly when the queue is obstructed and an inline command stands before everything that obstructs it |
| `DispatchLiveness.ObstructedForever` | patches/libkrun/0010-virtio-gpu-mitigate-deferred-TransferFromHost3d-vs.-.patch:138-169 | if something that waits for a read lies between it and a command feeding it, no run services that command or finishes that read |
| `DispatchLiveness.SecondReadSticks` | patches/libkrun/0010-virtio-gpu-mitigate-deferred-TransferFromHost3d-vs.-.patch:154-169 | `wait_idle` at the defer site: a second read of the resource before the first one's feed sticks for good |
| `DispatchLiveness.GlobalDrainSticks` | patches/libkrun/0010-virtio-gpu-mitigate-deferred-TransferFromHost3d-vs.-.patch:188-197 | `wait_idle_all`: a feed other than TransferToHost3d is never serviced |
| `DispatchLiveness.RankFalls` | patches/libkrun/0013-virtio-gpu-serialize-same-resource-deferred-reads-of.patch:62-136 | every step except a spurious wake lowers a rank; a spurious wake raises it by one |
| `DispatchLiveness.RunsAreBounded` | patches/libkrun/0013-virtio-gpu-serialize-same-resource-deferred-reads-of.patch:62-136 | the length of every run is bounded by the initial rank plus twice the spurious wakes |
| `DispatchLiveness.NeverStuck` | patches/libkrun/0011-virtio-gpu-scope-deferred-read-guard-per-resource-dr.patch:98-128 | on an unobstructed queue every unfinished reachable state has an enabled step |
| `DispatchLiveness.GetsThroughIffUnobstructed` | patches/libkrun/0011-virtio-gpu-scope-deferred-read-guard-per-resource-dr.patch:98-128 | for every version of the guard: a run can complete, and no run can get stuck, exactly when no read is obstructed |
| `DispatchLiveness.SecondReadQueueSticksIff` | patches/libkrun/0010-virtio-gpu-mitigate-deferred-TransferFromHost3d-vs.-.patch:154-169 | the smallest such queue, two reads and the write the first needs: it can get stuck in every version but the last |
| `DispatchLiveness.LaterVersionsLetMoreThrough` | patches/libkrun/0012-virtio-gpu-drain-deferred-read-on-CtxDetachResource-.patch:36-46 | the versions compared: each lets through what the one before did, except that 0012 adds the context detach |
| `Completion.CompleteInline` | patches/libkrun/0007-virtio-gpu-defer-gfxstream-TransferFromHost3d-to-bre.patch:223-291 | the inline tail: fence, response, used ring, as the calls it makes |
| `Completion.CompleteDeferred` | patches/libkrun/0007-virtio-gpu-defer-gfxstream-TransferFromHost3d-to-bre.patch:316-399 | the deferred tail: OkNoData for an empty box or a transfer that returned zero and ErrUnspec otherwise, the calls of the inline tail with that response, and then an interrupt if the head was used; a failed rebuild drops the head |
| `Completion.OneResponse` | patches/libkrun/0007-virtio-gpu-defer-gfxstream-TransferFromHost3d-to-bre.patch:342-368 | with room exactly one response is encoded, the error of the fence if the header is fenced and there is one and the given response otherwise; without room nothing is encoded and the head is used with length zero |
| `Completion.LengthIsWritten` | patches/libkrun/0007-virtio-gpu-defer-gfxstream-TransferFromHost3d-to-bre.patch:342-388 | the length given to the used ring and to the fence handler is what the encoder wrote, zero if it failed; the encoder is given the header's fence, or an empty one |
| `Completion.DeferredRefinesInline` | patches/libkrun/0007-virtio-gpu-defer-gfxstream-TransferFromHost3d-to-bre.patch:298-301 | for every header, room, transfer result, fence outcome and response of the inline handler: the deferred path says what the inline path says, plus the interrupt, exactly when the chain is rebuilt and the two paths encode the same response; and what each of them encodes, from the transfer and the header alone |
| `Completion.SameCallsIff` | patches/libkrun/0007-virtio-gpu-defer-gfxstream-TransferFromHost3d-to-bre.patch:342-368 | the response matters only through what is sent: with room for it, and unless a fence error replaces it |
| `Completion.AnswersOnce` | patches/libkrun/0007-virtio-gpu-defer-gfxstream-TransferFromHost3d-to-bre.patch:286-291 | the head goes onto the used ring once and last, or stays with the fence handler, never both |
| `Completion.FenceCallsArePaired` | patches/libkrun/0007-virtio-gpu-defer-gfxstream-TransferFromHost3d-to-bre.patch:347-388 | fence calls come as create, encode, process, for fenced headers with room only, and name the header's fence and ring |
| `Completion.OutcomesAreTheDispatchers` | patches/libkrun/0007-virtio-gpu-defer-gfxstream-TransferFromHost3d-to-bre.patch:330-398 | the four outcomes of the dispatcher's transition system file a head exactly as these calls do |
| `Asg.NeverUnattended` | patches/gfxstream/0009-host-close-the-ASG-host-guest-lost-wakeup-race-in-Ri.patch:46-69 | with both fences and the re-check, in every interleaving with store buffers the host never sleeps on visible data that nobody will announce |
| `Asg.LosesWakeupsIffCareless` | patches/gfxstream/0009-host-close-the-ASG-host-guest-lost-wakeup-race-in-Ri.patch:48-61 | a wakeup can be lost exactly when one of guest fence, host fence and re-check is missing |
| `Asg.LostForGoodIsDead` | patches/gfxstream/0009-host-close-the-ASG-host-guest-lost-wakeup-race-in-Ri.patch:56-60 | from a lost wakeup no step is possible but a further store by the guest, unless the wait is bounded |
| `Asg.LostWhenMessagesVanish` | patches/gfxstream/0016-host-bound-the-ASG-consumer-s-onUnavailableRead-wait.patch:56-65 | if messages can vanish, the handshake alone is not enough |
| `Asg.MovesAreCounted` | patches/gfxstream/0016-host-bound-the-ASG-consumer-s-onUnavailableRead-wait.patch:65-74 | whatever others do, each move of the host brings it nearer to reading |
| `Asg.HealsItself` | patches/gfxstream/0016-host-bound-the-ASG-consumer-s-onUnavailableRead-wait.patch:41-74 | with the bounded wait, data in a ring is being read after at most seven host moves, whatever messages vanish |
| `Asg.WakingReadsNothing` | patches/gfxstream/0016-host-bound-the-ASG-consumer-s-onUnavailableRead-wait.patch:67-77 | waking up, by message or by timeout, changes no ring contents |
| `Asg.HostSaysWhatItDoes` | patches/gfxstream/0009-host-close-the-ASG-host-guest-lost-wakeup-race-in-Ri.patch:46-69 | in every reachable state, with any of the precautions missing: the host's newest store to `host_state`, drained or not, is CAN_CONSUME exactly while it polls or reads; once it has drained the guest does not ping |
| `Asg.SleepsAfterEmptyRounds` | patches/gfxstream/0009-host-close-the-ASG-host-guest-lost-wakeup-race-in-Ri.patch:44-69 | on every run the host asks to be notified, and sleeps, when it has found both rings empty exactly once more often than it tolerates since it last read or woke |
| `SharedSlots.LifetimesAreExact` | patches/gfxstream/0013-host-store-VirtioGpuFrontend-mResources-as-shared_pt.patch:538-560 | in every interleaving a reference count is the number of slots and local copies; an object is destroyed, once, when it reaches zero |
| `SharedSlots.MutexIsShort` | patches/gfxstream/0013-host-store-VirtioGpuFrontend-mResources-as-shared_pt.patch:200-218 | the mutex is never held across a transfer |
| `SharedSlots.NoUseOfFreed` | patches/gfxstream/0014-host-hold-a-strong-ref-to-the-resource-pipe-across-b.patch:31-46 | whatever is being transferred through is live |
| `SharedSlots.SafeIffCopiesOwn` | patches/gfxstream/0014-host-hold-a-strong-ref-to-the-resource-pipe-across-b.patch:54-65 | a transfer through a destroyed object is possible exactly when local copies do not own a reference |
| `SharedSlots.UnrefErasesWhatItFoundIffSole` | patches/gfxstream/0013-host-store-VirtioGpuFrontend-mResources-as-shared_pt.patch:116-144 | `unrefResource` erases the object it looked up exactly when no two threads create and unref |
| `Frontend.VirtioGpuFrontend.CreateResource` | patches/gfxstream/0013-host-store-VirtioGpuFrontend-mResources-as-shared_pt.patch:79-84 | puts a fresh object under the id, replacing what was there |
| `Frontend.VirtioGpuFrontend.AttachResource` | patches/gfxstream/0013-host-store-VirtioGpuFrontend-mResources-as-shared_pt.patch:243-267 | attaches on both sides; unknown context or resource: nothing |
| `Frontend.VirtioGpuFrontend.CreateContextInstance` | patches/gfxstream/0013-host-store-VirtioGpuFrontend-mResources-as-shared_pt.patch:53-71 | records the graphics handle that its creation gives for the resource; unknown context or resource, or a creation that fails: an error and nothing |
| `Frontend.VirtioGpuFrontend.DetachResource` | patches/gfxstream/0013-host-store-VirtioGpuFrontend-mResources-as-shared_pt.patch:269-303 | detaches on both sides; a handle the context had for the resource is taken and becomes exactly one cleanup task, with the resource it shares the blob of; unknown context or resource: nothing |
| `Frontend.VirtioGpuFrontend.UnrefResource` | patches/gfxstream/0013-host-store-VirtioGpuFrontend-mResources-as-shared_pt.patch:116-144 | leaves every known context, its handles there becoming one cleanup task each, is destroyed once, and goes; nothing else changes |
| `Frontend.VirtioGpuFrontend.DestroyVirtioGpuObjects` | patches/gfxstream/0013-host-store-VirtioGpuFrontend-mResources-as-shared_pt.patch:458-492 | for any map and any attachments: the map ends empty, no resource is attached to a known context, each was destroyed exactly once, and every handle of an attached pair became exactly one cleanup task |
| `ShaderVariables.STCopyVariable` | patches/gfxstream/0007-host-gl-implement-the-missing-angle_shader_translato.patch:505-532 | an equal tree made of fresh, distinct allocations; every old cell unchanged; a null argument gives the zero variable |
| `ShaderVariables.STCopyInterfaceBlock` | patches/gfxstream/0007-host-gl-implement-the-missing-angle_shader_translato.patch:534-553 | the same for interface blocks |
| `ShaderVariables.ConvertVariable` | patches/gfxstream/0007-host-gl-implement-the-missing-angle_shader_translato.patch:287-314 | ANGLE's variable as a tree of fresh, distinct allocations |
| `ShaderVariables.ConvertInterfaceBlock` | patches/gfxstream/0007-host-gl-implement-the-missing-angle_shader_translato.patch:316-333 | ANGLE's block as fresh, distinct allocations |
| `ShaderVariables.ConvertVectorToArray` | patches/gfxstream/0007-host-gl-implement-the-missing-angle_shader_translato.patch:335-347 | count and array of converted variables; null for an empty vector |
| `ShaderVariables.DestroyVariableContents` | patches/gfxstream/0007-host-gl-implement-the-missing-angle_shader_translato.patch:349-360 | frees exactly what the variable owns, each once, and zeroes it |
| `ShaderVariables.DestroyVariableArray` | patches/gfxstream/0007-host-gl-implement-the-missing-angle_shader_translato.patch:362-368 | frees exactly the array and what its elements own |
| `ShaderVariables.STDestroyInterfaceBlock` | patches/gfxstream/0007-host-gl-implement-the-missing-angle_shader_translato.patch:557-564 | frees exactly what the block owns; clears name, fields and count and keeps the rest |
| `ShaderHeap.Frame` | patches/gfxstream/0007-host-gl-implement-the-missing-angle_shader_translato.patch:505-532 | a variable depends on its own allocations and on nothing else |
| `ShaderHeap.ShrinkUndoesGrow` | patches/gfxstream/0007-host-gl-implement-the-missing-angle_shader_translato.patch:349-360 | freeing what was added restores the heap |
| `ShaderFree.SpellsOneTree` | patches/gfxstream/0007-host-gl-implement-the-missing-angle_shader_translato.patch:505-532 | a pointer structure spells out one value, so "an equal copy" is well defined |
| `ShaderFree.CopyIsIndependent` | patches/gfxstream/0007-host-gl-implement-the-missing-angle_shader_translato.patch:505-555 | original and copy share nothing: destroying either leaves the other whole |
| `ShaderFree.CopyThenDestroyTwice` | patches/gfxstream/0007-host-gl-implement-the-missing-angle_shader_translato.patch:505-555 | copying and destroying, once or twice, restores the heap |
| `ShaderFree.CopyBlockThenDestroyTwice` | patches/gfxstream/0007-host-gl-implement-the-missing-angle_shader_translato.patch:534-564 | the same for interface blocks |
| `ShaderResolve.STCompileAndResolve` | patches/gfxstream/0007-host-gl-implement-the-missing-angle_shader_translato.patch:384-469 | whatever ANGLE answers, the result represents it and everything allocated hangs off the result; the compiler is the given one or a new one, and the result carries its handle |
| `ShaderFree.CompileAndRead` | patches/gfxstream/0007-host-gl-implement-the-missing-angle_shader_translato.patch:406-469 | what each pointer of the result leads to, from ANGLE's answer alone: status, info log, translated source, every entry of the name map, and the variables and blocks that were given and asked for, with their counts; nulls and zeros for the others |
| `ShaderFree.STFreeShaderResolveState` | patches/gfxstream/0007-host-gl-implement-the-missing-angle_shader_translato.patch:471-503 | frees exactly the result; nothing is freed twice |
| `ShaderFree.CompileThenFree` | patches/gfxstream/0007-host-gl-implement-the-missing-angle_shader_translato.patch:384-503 | compile and then free restores the heap, for every outcome; a compiler constructed on the way stays with the caller |
| `ShaderFree.NameMapIsReadable` | patches/gfxstream/0008-third_party-angle-host-gl-fix-ANGLE_ENABLE_GLSL-gap-.patch:51-57 | the name map of every result is a live allocation with the right count |
| `Gpt.PlanLayout` | scripts/make-android-gpt.py:166-173 | the layout loop gives every image its start and end |
| `Gpt.AlignUpIsLeast` | scripts/make-android-gpt.py:46-47 | `align_up` gives the least multiple not below the value |
| `Gpt.LayoutIsSound` | scripts/make-android-gpt.py:166-181 | partitions are 2048-aligned, pairwise disjoint and clear of the primary table; none passes the first backup sector |
| `Gpt.RoomForImage` | scripts/make-android-gpt.py:170-171 | a partition holds its image with less than a sector to spare |
| `Gpt.CollidesIff` | scripts/make-android-gpt.py:175-179 | a partition reaches the backup entry LBA exactly when it is the last and its end + 33 is a multiple of 2048 |
| `Gpt.OneSectorMoreWouldDo` | scripts/make-android-gpt.py:175-177 | sizing the disk from the sector after the last one would never collide |
| `GptImage.MbrReadsBack` | scripts/make-android-gpt.py:54-69 | the MBR byte by byte: signature, one protective entry covering the disk as far as 32 bits reach, and zeros elsewhere |
| `GptDisk.LastWriter` | scripts/make-android-gpt.py:217-233 | bytes of a write that no later write touches are in the finished file |
| `GptDisk.StructuresStay` | scripts/make-android-gpt.py:217-233 | MBR, both headers and both tables read back as written, whatever the images |
| `GptDisk.ImageReadsBackIff` | scripts/make-android-gpt.py:226-233 | an image reads back exactly when nothing of it is covered by the backup table, or what is covered happens to equal the table's beginning |
| `GptImage.MakeGpt` | scripts/make-android-gpt.py:161-233 | the whole script: the finished file, whose contents the reader theorems describe, or no file exactly when a number does not fit its field |
| `GptImage.TableSlot` | scripts/make-android-gpt.py:183-192 | slot k of the table is entry k, and zeros beyond the last entry |
| `GptReader.HeaderReadsBack` | scripts/make-android-gpt.py:87-131 | a reader that takes signature, location, checksum and every field from its byte offset recovers the header |
| `GptReader.EntryReadsBack` | scripts/make-android-gpt.py:72-84 | a reader taking each field from its byte offset recovers a packed entry |
| `GptReader.GptReadsBack` | scripts/make-android-gpt.py:194-233 | from sector 1 and from the last sector a reader finds valid headers and the same table |
| `GptReader.DiskAsFound` | scripts/make-android-gpt.py:161-233 | what it finds there, in terms of the images: per slot the type, the GUID, the first 72 bytes of the name and then zeros, and whole sectors for the image with less than one to spare from a multiple of 2048 on; entries in order and apart, none beyond the last; both headers' locations, usable range and tables; and the least disk of 2048-sector units that holds 33 sectors behind the last used one |
| `GptReader.HeadersPair` | scripts/make-android-gpt.py:196-213 | the file has the planned size, its last sector is the backup header, and the headers name each other |
| `GptReader.PartitionReadsBackIff` | scripts/make-android-gpt.py:226-233 | at the place the reader finds in slot k image k reads back, except exactly the last one in the collision case |
| `GptReader.CoveredImageIsLost` | scripts/make-android-gpt.py:230-231 | a covered image is lost unless the byte at the cut is the first byte of the partition type |
| `GptReader.SingleImageIsCut` | scripts/make-android-gpt.py:175-179 | the smallest image that is cut: 2016 sectors on a disk of its own |
| `GptReader.LastUsableIsTaken` | scripts/make-android-gpt.py:179-181 | the declared last usable sector is where the backup table begins |
| `ByteFile.UnpackPack` | scripts/make-android-gpt.py:76-84 | unpacking inverts packing for every format of strings and numbers |
| `ByteFile.LEIs` | scripts/make-android-gpt.py:76-84 | a packed number of 2, 4 or 8 bytes is the sum of its bytes times the powers of 256, lowest first |
| `ByteFile.FromLEIs` | scripts/android_sparse_to_raw.py:45-61 | an unpacked number is that sum |
| `Sparse.DecodeFile` | scripts/android_sparse_to_raw.py:33-85 | the script on any input: output, or failure and partial output |
| `Sparse.WriteFill` | scripts/android_sparse_to_raw.py:67-75 | the fill loop writes the word-filled block once per block |
| `SparseRoundTrip.DecodeInvertsSerialize` | scripts/android_sparse_to_raw.py:33-83 | against a serialiser written byte by byte, for blocks of whole words or without fill chunks: decoding a chunk list with 12-byte chunk headers gives the block-by-block expansion, of the stated size |
| `SparseFills.FillsRightIff` | scripts/android_sparse_to_raw.py:67-75 | for every word, block size and number of blocks: what the inner loop leaves is the expansion's exactly when the block size is a multiple of four, or the word is zero wherever the blocks break it |
| `SparseRoundTrip.EveryImageDecodes` | scripts/android_sparse_to_raw.py:33-83 | every well-formed image with 12-byte chunk headers, given byte by byte, is decoded to the end, into what the script leaves for each chunk in turn, of the stated size |
| `SparseRoundTrip.NotSparseIff` | scripts/android_sparse_to_raw.py:34-47 | data is refused as no sparse image exactly when it has 28 bytes that do not start with 3A FF 26 ED; shorter data ends in an unexpected end of file |
| `SparseRoundTrip.OtherTypeStops` | scripts/android_sparse_to_raw.py:58-81 | a chunk with type bytes a, b other than C1 CA to C4 CA, behind any well-formed chunks, stops the decoder with the type a + 256 b and what the chunks before it left |
| `SparseRoundTrip.ImageDecodesRightIff` | scripts/android_sparse_to_raw.py:33-83 | image by image: decoded into the expansion exactly when every fill chunk of the image meets that condition |
| `SparseRoundTrip.LongChunkHeaderFails` | scripts/android_sparse_to_raw.py:58-61 | any image with a chunk and chunk headers of another size than 12 bytes fails at its first chunk |
| `SparseRoundTrip.DecodesRightIff` | scripts/android_sparse_to_raw.py:58-75 | all well-formed images of a chunk header size and a block size are decoded right exactly when the headers have 12 bytes and the block size is a multiple of four |
| `BootContract.FromDiskSpecs` | crates/capy/src/soc.rs:97-130 | every argument becomes its disk, in order |
| `BootContract.SplitsAtTheFirst` | crates/capy/src/soc.rs:100-104 | the split is at the first separator, and none is found only where there is none |
| `BootContract.UnlabelledIsOther` | crates/capy/src/soc.rs:105-110 | an unlabelled argument never takes a role |
| `BootContract.SlottedDisk` | crates/capy/src/soc.rs:110-126 | a disk of the boot chain is called by its slot, whether the argument named the slot or not, and its name still gives it its role |
| `BootOrder.SortDisks` | crates/capy/src/soc.rs:132-134 | a stable sort by priority and name; of two disks of one role the name that is smaller where they first differ, or is a prefix, comes first |
| `BootOrder.SortedIs` | crates/capy/src/soc.rs:132-134 | of two disks in the sorted list the earlier has the role listed first, or the same role and the name that comes first |
| `BootOrder.StableSortIsUnique` | crates/capy/src/soc.rs:134 | there is only one such order, whatever the algorithm |
| `BootOrder.AttachedAt` | crates/capy/src/main.rs:602-612 | which role is attached at which position, exactly, from counts over the arguments |
| `BootOrder.MapHoldsIff` | crates/capy/src/soc.rs:132-134 | userdata is attached second and frp third, if they are there, exactly when the counts of disks before them are as supposed |
| `BootOrder.WholeMapHoldsIff` | crates/capy/src/soc.rs:132-134 | super is attached first exactly when no disk sorts before it and there is one; the exact condition, by counts, for all three |
| `BootOrder.EarlierDiskDisplacesSuper` | crates/capy/src/main.rs:602-612 | one disk with a role that sorts before super is enough for another disk than super to be attached first |
| `BootContract.CanonicalArguments` | crates/capy/src/soc.rs:97-134 | one super, one userdata, one frp and any unlabelled disks, in any order: they are attached first, second and third |
| `BootContract.WithoutSuperMapIsWrong` | crates/capy/src/soc.rs:132-134 | without a super disk, and with no other disk that has a role but userdata and frp, one userdata disk is attached first and not second |
| `BootContract.UserdataAloneIsMisnamed` | crates/capy/src/soc.rs:97-134 | the smallest such line, one userdata argument, parsed and attached |
| `BootContract.Descriptor` | crates/capy/src/soc.rs:132-198 | disks in sorted order; boot devices without repeats |
| `BootContract.FreshIsExact` | crates/capy/src/soc.rs:184-185 | the same devices, each once |
| `BootContract.FreshKeepsOrder` | crates/capy/src/soc.rs:184-185 | in order of first occurrence |
| `BootHints.BuildCmdline` | crates/capy/src/main.rs:762-807 | the command line after all hints |
| `CommandLine.HintsAreIn` | crates/capy/src/main.rs:792-799 | every hint ends up in the command line, and what was there stays in front |
| `BootHints.RebuildingChangesNothing` | crates/capy/src/main.rs:762-807 | building again from the result changes nothing |
| `CommandLine.UnchangedIff` | crates/capy/src/main.rs:793-798 | nothing is added exactly when every hint already occurs as text |
| `CommandLine.OptionIffNotShadowed` | crates/capy/src/main.rs:793-798 | a hint that was to be added is an option of the new line exactly when it was one or its text did not occur |
| `CommandLine.OptionsIffNotShadowed` | crates/capy/src/main.rs:792-799 | the same for every one of a list of words none of which contains another |
| `BootHints.HintsAreSeparate` | crates/capy/src/main.rs:762-791 | the hints of every contract are such a list, the boot devices and the partition map included |
| `BootHints.BuiltOptionIff` | crates/capy/src/main.rs:762-807 | for every disks and every line given: each hint is an option of the line built exactly when it was one of the line given or its text did not occur there |
| `BootHints.LongerMapShadows` | crates/capy/src/main.rs:800-806 | a map with a userdata entry on the line given keeps the map of disks without userdata and frp from being an option of the line built |
| `CommandOptions.AddedValues` | crates/capy/src/main.rs:792-799 | what a reader who splits the line at its spaces finds for any option after one insertion: the values before, and the new one unless its text occurred |
| `BootMap.BuiltValues` | crates/capy/src/main.rs:762-807 | for each of the contract's options the values on the built line are those on the line given and then the contract's, left out exactly when its text occurred in the line given |
| `BootMap.BuiltMapIsRightIff` | crates/capy/src/main.rs:734-757 | read off the text of the built line, entry by entry: there is one partition map if some disk has a role and none otherwise, and every entry names what is attached in the place of its letter exactly when nothing sorts before super, super is there, and userdata and frp, if there, have one and two disks before them |
| `BootMap.BuiltMapNamesRoles` | crates/capy/src/main.rs:738-757 | that text has exactly one entry for each role, for userdata and frp exactly when a disk has it |
| `BootMap.BuiltMapNumbersPartitions` | scripts/build-android-gpt.sh:27-73 | its first ten entries give the partitions the names and numbers under which the script that builds the super disk creates them |
| `BootMap.CanonicalMapIsRight` | crates/capy/src/main.rs:734-757 | one super, one userdata, one frp and any unlabelled arguments, in any order: every entry of the map on the line is right |
| `BootMap.UserdataAloneMapIsWrong` | crates/capy/src/main.rs:752-754 | with one userdata argument and nothing else the map on the line is wrong |
| `BootDevices.BuiltDevicesIff` | crates/capy/src/soc.rs:138-186 | read off the text of the built line: which of `vda`, `vdb`, `vdc`, `vdj` and `vdk` are among the boot devices, exactly, from the roles of the disks |
| `BootDevices.RightMapLeavesOutItsDisk` | crates/capy/src/soc.rs:144-148 | whenever the map on the line is right and super is not alone, the boot devices on the same line leave out `vda`, the disk the map puts the partitions on |

## Left out

- Widths of counters and tickets: `count` is u32 and tickets are u64 in the source, naturals here.
- malloc failure, mutex poisoning and thread-spawn failure: taken not to occur, as the source takes them.
- Spurious wakes of condition variables: allowed at any point; the bound on runs counts them.
- A fence that cannot be created or signalled out of order: `create_fence` and `process_fence` are not in the repository; in `Dispatch` a reader's pair of calls is one step whose outcome is free, and in `Completion` they are calls with free answers.
- Feeds of reads: taken to be commands serviced inline, as the comments in 0007 and 0011 describe; the RenderThread between a feed and a read is a precondition of the read's transfer and not a thread of its own.
- Capacity of the guest's queue: the guest may publish all its commands at once; the used ring is a sequence without wrap-around, and `add_used` does not fail.
- The writer's room and the encoding of a response: an available-byte count and a length that the encoder returns, if it succeeds.
- The conversion of a renderer error into the inline handler's response is not in the repository: the inline response is free in `Completion`, and 0006 gives OkNoData on success.
- `Completion.CompleteInline` starts after `process_gpu_command`; the bodies of the commands are not part of this model.
- The rest of `RingStream::readRaw`, snapshots and exit commands on the consumer channel: only the polling of the two rings, the sleep and its wakeup are modelled; reading takes any positive amount of visible data.
- Capacity of the ASG rings: a store always finds room, so a guest blocked on a full ring before it looks at `host_state` does not occur.
- The guest's ASG driver is not in the repository: it is taken to store to a ring, then load `host_state`, then ping.
- Reading `mHostPipe` while another thread writes it is a data race in C++: copying the pointer is taken as atomic.
- The bodies of `AttachResource`, `DetachResource`, `Destroy`, `CreateAddressSpaceGraphicsInstance` and `TakeAddressSpaceGraphicsHandle` are not in the repository: they are taken to do what their names say, and whether a creation gives a handle is an argument. The cleanup thread is a queue of tasks.
- What ANGLE does inside a compiler, `applyResourceOverrides` and `copyResourcesFromSh`: ANGLE's own state and plain record copies.
- Names with embedded NUL characters: `strdup` would cut them, the model copies them whole. Counts are u32 in the source.
- The fields of a compile result are stored at once when it is complete; in the source one by one, while nobody else can see it.
- ShaderFree.STFreeShaderResolveState: takes the shape of the result as a ghost argument, because a pointer alone does not say how its arrays are laid out.
- The CRC-32 polynomial: an arbitrary function of the bytes.
- `uuid5` and `uuid4`: the GUIDs are arguments. Names are their UTF-16LE bytes.
- `math.ceil(size / 512)` in floating point: exact for sizes up to 2^53; the model divides exactly.
- Gpt images with more than 128 partitions: written as the script writes them, but the reading theorems are about the 128 entries the header declares.
- The reserved field of sparse chunk headers is zero in `SparseRoundTrip`; the decoder ignores it.
- The default disk name beyond the 159th argument: the arithmetic wraps as in a release build; a debug build stops.
- Messages, summaries and the root modes of `build_boot_contract`; FFI bindings, display, pty and ADB plumbing.
- `scripts/extract_android_boot.py`, `scripts/raw2png.py`, `crates/lpprobe`, build files and configuration: slicing, pixel copying and glue.
