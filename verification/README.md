# A verified model of the CPU agent's queue processing

phsa is a runtime for HSA on top of a CPU. Programs put AQL packets into user mode queues and ring a
doorbell; one worker thread per agent finds the packets, runs kernels, respects barrier packets, gives
ring slots back and signals completion. This project models that machinery and the memory, handle,
naming and code-object services below it, and proves what they keep.

`dafny verify dfyconfig.toml` checks everything.

## How the project is organised

**One queue** (`src/Devices/CPU/CPUKernelAgent.cc`, `include/Queue.hh`, `src/Devices/CPU/UserModeQueue.*`).
`QueueProtocol` is a transition system with sequentially consistent interleaving: any number of producers
reserve indices, publish packets and ring, while the worker's pass advances through an explicit program
counter that makes at most one access to shared memory per step. The jump of an interruption can end a pass
between any two steps, and between the two writes that move the read index. Slots are found with `Mod`, a recursive
form of `%` (`Modular` proves the two equal), so no size is assumed to be a power of two. History fields
record published and rung indices, reports to kernels and callbacks, and the retirement log.

- `QueueInvariant` holds for every producer that publishes an index once, and only below read index + size.
- `QueueProgress` adds the doorbell filter and the scan bounds.
- `QueueOrder` adds the room check on reservation (write index at most read index + size), or a SINGLE
  queue, under which packet ids, the read index and barriers behave as intended. `QueueAlias` has a run
  that goes wrong without it, for every ring size.
- `QueueReports` is about what kernels and error callbacks are told.
- `SingleFifo` proves that a SINGLE queue filled in order is a FIFO.
- `UserModeQueues` and `PassLoop` are the same code as objects, arrays and loops. The pass is proved to be
  a run of the protocol, packet by packet, including the two dependency loops, the kernel lookup and the
  group memory a kernel borrows from the allocator. While the loop runs, `KernelAgent.Disturb` lets the
  clients of the queue, and whoever stores to signals, do anything the protocol allows before each access
  of the worker to shared memory, and lets the jump come; so this holds for every interleaving.
- `Reservation` is the index reservation by fetch-add and compare-exchange.

**The inactivation handshake** (`src/Queue.cc`, `terminateQueue` and the head of `Execute`).
`Handshake` interleaves the worker with any number of callers of `setInactivated` and a signal that may be
late. `HandshakeRace` settles when the jump can hit the wrong queue, `HandshakeFailures` when a late one
can and when the worker can be left in its endless loop.

**The whole agent.** `World` puts the handshake, all queues and the signals together, for any callers of
`setInactivated`, signals as late as they like and jumps at any moment. Each queue of it is a run of
`QueueProtocol`, so the theorems about queues carry over. `WorldSafety`, `WorldOrder` and `WorldCompletion`
prove what needs the whole picture. A run of `World` ends when the worker is about to begin another pass
over a queue whose pass was cut, which happens only if the jump hit a queue that it was not meant for.
`Comeback` shows what can go wrong from then on, even if producers check for room: a packet is lost, a
kernel is started twice. `OrderlyCallers` proves that with orderly callers (one call at a time, no
flag raised during a landing, a signal that takes effect when sent) that moment never comes. `AnyCallers`
proves that inactivation is final even beyond it.

**Memory, handles, names, code objects.** `FixedRegion` (with the class `FixedMemoryRegion`), `RegionList`
(`Runtime::freePointer`), `ObjectRegistry` and `SignalRegistry` (handles that are reusable addresses),
`SymbolNames` (the two manglers) and `CodeObject` (serialization).

## Where the code does less than its comments say

- The comment at `src/Devices/CPU/CPUKernelAgent.cc:140-143` says that once the caller found its queue
  running, the worker is still on that queue or waits in the endless loop. After every landing the worker
  resets `InterruptingTheQueue` (line 167), which can undo a flag that a caller has just raised.
  `WrongHitExactly` shows that, with one caller at a time and a signal that takes effect when sent, the
  jump can hit another queue's packet if and only if the worker is landing when the flag is raised and
  another queue is active. A signal that is delivered late is the second way: from any state of any
  run in which the one caller is about to raise the flag, `LateHitExactly` says which queues it can hit,
  namely every other active queue unless the worker spins already.
- The endless loop at lines 180-183 is left through the signal only, and no signal is sent if the
  comparison at line 139 fails. From those same states `GetsStuckExactly` shows that the worker can be left
  spinning with no signal to come, and the caller returned, unless it spins on the caller's own queue
  already. `SpinEndsExactly` says that it gets out if and only if its own queue is inactivated.
  `FailuresHappen` reaches all three failures from a new agent by one call.
- The scan bound at lines 228-230 lets a MULTI pass look at read index + size, which is the slot of the read
  index. `SlotIdentity` shows that this is the only index that can find another index's packet, and
  `AliasWithoutRoomCheck` that without a room check it does, for every ring size: the kernel of
  index 2 gets packet id size + 2. Losing no packet does not need the room check (`NoLostPacket`).
- A barrier-OR packet without any dependency signal is never satisfied (lines 285-303) and blocks its queue.
- Completion stores 0 (lines 393-395); it does not decrement.
- `INVALID_PACKET_FORMAT` (line 364) is never reported (`ReportsAreJustified`): a packet that gets there was
  recognised by the type in its header.
- `FreeSpaceStart` is not reset when a region becomes empty, so an empty region can refuse what a new
  one grants (`EmptyRegionCanRefuse`).
- `HSAObjectMapping::fromHandle` leaves a null entry for an unknown handle, and `garbageCollect` does not end
  in the presence of one (`CollectionEndsExactly`). This is a hazard of the template that no instantiation
  exhibits: `fromHandle` is called for symbols only (`src/Devices/CPU/CPUKernelAgent.cc:329`) and
  `garbageCollect` for programs only (`src/Runtime.cc:50-51`), and each type has its own registry.
- The manglers agree on somewhat more than names without '&' and ':'; `ManglersAgreeExactly` has the exact
  condition.

## Model

| member | source | states |
|---|---|---|
| Modular.ModIsRemainder | src/Devices/CPU/CPUKernelAgent.cc:232 | the ring position used throughout is `CurrentIndex % QueueSize` for every size |
| Modular.ModUnique | src/Devices/CPU/CPUKernelAgent.cc:225-232 | two indices less than one ring length apart share a slot only if they are equal |
| Modular.ToInt32Meaning | src/Devices/CPU/CPUKernelAgent.cc:225-227 | storing a 64-bit value in an `int` keeps the one value with the same low 32 bits |
| Packets.DimensionsMeaning | src/Devices/CPU/CPUKernelAgent.cc:68-106 | the dimensions are valid if and only if there are one to three and nothing extends along any further one |
| Packets.TypeIsLowByte | src/Devices/CPU/CPUKernelAgent.cc:108-112 | only the low byte of a header says the type, whatever barrier bit and fences stand above it; 2 to 5 are valid |
| Packets.TypeNumbers | src/Devices/CPU/CPUKernelAgent.cc:243-248 | dispatch packets have type 2; the types that are not supported are 0, 4 and above 5 |
| Packets.DispatchOutcomeMeaning | src/Devices/CPU/CPUKernelAgent.cc:315-371 | for a packet that its header makes a kernel dispatch: it is never reported as malformed, and a launch and each other error have exact conditions; the last error is also that of an empty work-group whose kernel is known |
| QueueProtocol.SetPacketProcessed | include/Queue.hh:88-94 | writing one processed bit makes the vector as long as the ring and leaves what every other slot's bit reads as |
| QueueProtocol.ReadDependencyCases | src/Devices/CPU/CPUKernelAgent.cc:267-303 | reading a dependency stops the pass at the barrier, finds the barrier satisfied, or goes on to the next dependency, each with its exact condition; nothing else changes |
| QueueInvariant.PublishTakesFreeSlot | src/Devices/CPU/CPUKernelAgent.cc:246-260 | a producer that publishes below read index + size writes to an INVALID slot, so no unretired packet is overwritten |
| QueueInvariant.StepKeepsInv | src/Devices/CPU/CPUKernelAgent.cc:202-396 | every producer and worker step keeps the invariant of ring, read index, processed bits and retirement log |
| QueueInvariant.ExactlyOnce | src/Devices/CPU/CPUKernelAgent.cc:248-391 | in every interleaving no packet is retired twice, all below the read index are retired, each retired dispatch was handled exactly once, and unretired packets are still in their slots |
| QueueInvariant.ProcessedBitsExact | src/Devices/CPU/CPUKernelAgent.cc:248-261 | in every run, room checks or not, a processed bit is set exactly when the index of the window that owns the slot is retired; so the read index is behind exactly while its own bit is set |
| QueueInvariant.Monotone | src/Devices/CPU/CPUKernelAgent.cc:381-391 | between any two moments of an interleaving the read index, the retirement log, the reports and the published packets only grow |
| QueueReports.ReportsAreJustified | src/Devices/CPU/CPUKernelAgent.cc:315-371 | in every run each report is about a published dispatch packet: it never is INVALID_PACKET_FORMAT, is INCOMPATIBLE_ARGUMENTS exactly for invalid dimensions, and a launch means valid dimensions and a nonempty work-group |
| QueueReports.KernelsRunExactly | src/Devices/CPU/CPUKernelAgent.cc:331-371 | in every run, the worker is inside a kernel only just after reporting its packet as launched, under the packet id of the scan; the kernel of a retired packet ran, once, if and only if its report is Launched; a packet reported with an error never runs, and no other kernel does |
| QueueReports.UnsupportedIsNeverRetired | src/Devices/CPU/CPUKernelAgent.cc:376-379 | in every run no packet of an unsupported type is retired |
| QueueProgress.SlotIdentity | src/Devices/CPU/CPUKernelAgent.cc:225-239 | a visited index finds its own packet if and only if it is below read index + size; otherwise it is exactly read index + size in a MULTI queue and finds the packet of the read index |
| QueueProgress.PacketsToCheckExact | src/Devices/CPU/CPUKernelAgent.cc:225-227 | the conversion to `int` loses nothing: the bound is the distance to the doorbell in a SINGLE queue and the ring size in a MULTI queue |
| QueueProgress.StepKeepsProgress | src/Devices/CPU/CPUKernelAgent.cc:202-235 | every step keeps the doorbell filter and scan-bound invariants: what was rung before the pass began is retired or still ahead of the scan |
| QueueProgress.NoLostPacket | src/Devices/CPU/CPUKernelAgent.cc:202-235 | outside a pass, with the doorbell at its last handled value, every rung index is retired or at or after the barrier where the last pass stopped, with or without room checks |
| QueueProgress.NothingWithoutRing | src/Devices/CPU/CPUKernelAgent.cc:202-209 | outside a pass with no ring outstanding, the worker does nothing at the queue until something else is rung, whatever happens to the signals of a barrier it stopped at |
| QueueOrder.PacketIdIsIndex | src/Devices/CPU/CPUKernelAgent.cc:337-339 | with room-checked reservation the packet id given to every kernel is its producer's index, and the packet being handled is the one published under the scan index |
| QueueOrder.ReadIndexMaximal | src/Devices/CPU/CPUKernelAgent.cc:381-391 | outside a pass the read index is the least unretired index, and a processed bit is set exactly when the window's index for that slot is retired |
| QueueOrder.BarrierBlocksPass | src/Devices/CPU/CPUKernelAgent.cc:278-303 | a pass stopped by a barrier at b retired nothing above b, left the read index at most b and the barrier in its slot |
| QueueOrder.BarrierFences | src/Devices/CPU/CPUKernelAgent.cc:278-303 | over all later passes, any index above a barrier that was met unsatisfied is retired only after that barrier |
| QueueAlias.AliasWithoutRoomCheck | src/Devices/CPU/CPUKernelAgent.cc:228-230 | for every ring size, a run without room checks in which the kernel of index 2 gets packet id size + 2 and a retired index stays at the read index after the pass |
| SingleFifo.SingleQueueIsFifo | src/Devices/CPU/CPUKernelAgent.cc:221-235 | in a SINGLE queue published in order the retirement log is 0, 1, 2, ..., the read index follows the scan index and no processed bit is ever set |
| SingleFifo.StepRefinesFifo | src/Devices/CPU/CPUKernelAgent.cc:221-391 | publishing is enqueueing at the back, retiring is dequeueing the front, and every other step leaves the abstract FIFO of packets unchanged |
| UserModeQueues.UserModeQueue.constructor | src/Devices/CPU/UserModeQueue.cc:29-60 | a new queue is in the protocol's initial state: all slots INVALID, both indices 0, doorbell at its maximum |
| UserModeQueues.UserModeQueue.AddWriteIndex | src/Devices/CPU/UserModeQueue.hh:53-55 | a protocol step that reserves the increment and returns the index found |
| UserModeQueues.UserModeQueue.CompareExchangeWriteIndex | src/Devices/CPU/UserModeQueue.hh:57-63 | stores any value if the expected index is found, changes nothing otherwise, and returns the index found; a value not below the expected index reserves the difference |
| UserModeQueues.UserModeQueue.MarkProcessed | include/Queue.hh:88-91 | the bit vector, sized on first use, is the specified one |
| Reservation.ReservationsTile | src/Devices/CPU/UserModeQueue.hh:53-63 | over any sequence of fetch-adds and compare-exchanges that do not move the index back, every index below the write index has exactly one owner, told by the returned values alone, and no other index has any |
| Reservation.FailedExchangeReservesNothing | src/Devices/CPU/UserModeQueue.hh:57-63 | a compare-exchange whose result differs from the expected value owns nothing and left the write index alone |
| PassLoop.KernelAgent.BarrierAndReady | src/Devices/CPU/CPUKernelAgent.cc:267-277 | the loop is one of the protocol under interference; unless the jump comes or a signal changes meanwhile it tells whether every dependency signal listed is 0 |
| PassLoop.KernelAgent.BarrierOrReady | src/Devices/CPU/CPUKernelAgent.cc:289-300 | the loop is one of the protocol under interference; unless the jump comes or a signal changes meanwhile it tells whether some dependency signal listed is 0 |
| PassLoop.QuietReadsDecide | src/Devices/CPU/CPUKernelAgent.cc:267-303 | every sequence of one-at-a-time reads during which no signal changes, whatever producers do in between, ends with the verdict of the AND or OR condition on those signals, or has it still open |
| PassLoop.KernelAgent.Dispatch | src/Devices/CPU/CPUKernelAgent.cc:315-371 | the outcome has its exact conditions, a launch among them that the handle finds a registered symbol that is a kernel; the lookup leaves what each handle finds as it was; group memory is granted, 16-aligned, exactly when asked for and available, and freeing it restores the region's live blocks |
| PassLoop.KernelAgent.HandleBarrier | src/Devices/CPU/CPUKernelAgent.cc:263-306 | by protocol steps under interference, goes on to retire the barrier or ends the pass at it; unless the jump comes or a signal changes it goes on exactly when the barrier is satisfied |
| PassLoop.KernelAgent.HandleKernel | src/Devices/CPU/CPUKernelAgent.cc:308-375 | by protocol steps under interference, without a jump, exactly one report with the scan's packet id and the outcome that registry, packet and group memory call for, and the kernel runs if and only if it is Launched; its group memory is given back, unless the jump comes first, which leaves at most that one block allocated |
| PassLoop.KernelAgent.RunKernel | src/Devices/CPU/CPUKernelAgent.cc:331-371 | the outcome decided on is what is reported, and the kernel step is taken for launched packets only |
| PassLoop.KernelAgent.HandlePacket | src/Devices/CPU/CPUKernelAgent.cc:263-395 | a packet that the worker goes on from is retired, its own completion signal is 0, and a dispatch got its one right report; other packets get none; an unsupported one ends everything |
| PassLoop.KernelAgent.VisitPacket | src/Devices/CPU/CPUKernelAgent.cc:228-396 | whatever packet others have put into the slot by then, what is reported about it is right |
| PassLoop.KernelAgent.Retire | src/Devices/CPU/CPUKernelAgent.cc:381-395 | by protocol steps under interference, unless the jump comes: adds exactly this packet to the log, moves the read index only from this index, and leaves the packet's completion signal at 0 |
| PassLoop.KernelAgent.ClearSlot | src/Devices/CPU/CPUKernelAgent.cc:381 | empties exactly the slot of the packet, as the protocol's step |
| PassLoop.KernelAgent.CompletePacket | src/Devices/CPU/CPUKernelAgent.cc:393-395 | stores 0 to the packet's own registered signal and to no other |
| PassLoop.KernelAgent.RecordProcessed | src/Devices/CPU/CPUKernelAgent.cc:382-391 | the read index moves over its own packet, and otherwise the processed bit of exactly this slot is set; a jump leaves the half of it that the protocol has a step for |
| PassLoop.KernelAgent.MoveReadIndex | src/Devices/CPU/CPUKernelAgent.cc:255-257 | the read index and then the bit are written, as the protocol's step, or the jump comes between the two, as its step for that |
| PassLoop.KernelAgent.SkipInvalid | src/Devices/CPU/CPUKernelAgent.cc:248-261 | an INVALID slot moves the read index only over its own processed packet, by exactly the protocol's step, or half of it if the jump comes |
| PassLoop.KernelAgent.ProcessQueue | src/Devices/CPU/CPUKernelAgent.cc:202-396 | under any interference by clients before its accesses to shared memory and a jump at any of them, the whole loop is an interleaving of protocol steps, and every report it adds is right; without a jump no rung index is lost by it, no ring is outstanding if nobody rang, and all group memory is given back; a jump keeps at most one block |
| PassLoop.PassLosesNothing | src/Devices/CPU/CPUKernelAgent.cc:202-396 | over any interleaving of worker and producer steps, once a pass is over with no ring outstanding, every index rung so far is retired or behind the barrier the pass stopped at |
| PassLoop.PassRunsKernelsRight | src/Devices/CPU/CPUKernelAgent.cc:331-371 | over any interleaving of worker and producer steps, reports and kernel runs keep agreeing as KernelsRunExactly says |
| Handshake.StepKeepsFinal | src/Devices/CPU/CPUKernelAgent.cc:129-186 | every step of the handshake keeps: a queue whose call is about to return is not served |
| Handshake.InactivationIsFinal | src/Queue.cc:45-50 | once `setInactivated` returned, in every later state of every interleaving the worker does not serve that queue, with any number of callers and any signal delay |
| Handshake.LandsInOrder | src/Devices/CPU/CPUKernelAgent.cc:164-167 | a landing worker resets the flag only after it set RunningQueue to null |
| Handshake.EveryQueueGetsItsTurn | src/Devices/CPU/CPUKernelAgent.cc:169-182 | between two fetches of the list, unless a jump intervenes, the worker turns to every queue of the list, however busy others are |
| HandshakeRace.WrongHitExactly | src/Devices/CPU/CPUKernelAgent.cc:137-149 | with one caller and an immediate signal the jump can hit another queue's packet if and only if the worker is landing when the flag is raised and another queue is active |
| HandshakeRace.FlagPreventsWrongHit | src/Devices/CPU/CPUKernelAgent.cc:137-183 | a flag raised outside a landing keeps every continuation from hitting another queue |
| HandshakeRace.LandingAllowsWrongHit | src/Devices/CPU/CPUKernelAgent.cc:164-183 | from every landing state, a continuation in which the signal hits the given other active queue |
| Handshake.RunCalls | src/Devices/CPU/CPUKernelAgent.cc:129-186 | in every run the flag is up only during some call, and every inactivated queue has a call in progress or returned |
| HandshakeFailures.LateHitExactly | src/Devices/CPU/CPUKernelAgent.cc:139-149 | in any run, when the one caller is about to raise the flag, its signal, if late, can hit a packet of queue k if and only if k is another active queue and the worker does not spin |
| HandshakeFailures.GetsStuckExactly | src/Devices/CPU/CPUKernelAgent.cc:137-183 | in the same states, the worker can end up spinning with no signal to come, even with the call returned, if and only if it does not spin on the caller's own queue |
| HandshakeFailures.SpinEndsExactly | src/Devices/CPU/CPUKernelAgent.cc:180-183 | with calls for a given set of queues only, a stuck worker can leave its loop if and only if its own queue is in the set and there is a caller |
| HandshakeFailures.FailuresHappen | src/Devices/CPU/CPUKernelAgent.cc:129-186 | for every new agent with two or more queues, one call leads to a state from which all three failures can follow |
| World.ProjectionIsRun | src/Devices/CPU/CPUKernelAgent.cc:169-398 | what happens to each queue of the agent, with any callers, jumps and signals in play, is a run of the queue protocol |
| WorldSafety.StepKeepsLink | src/Devices/CPU/CPUKernelAgent.cc:129-398 | every step of the agent, with any callers, keeps worker position, queue states and inactivation flags consistent |
| WorldSafety.PassRefusedExactly | src/Devices/CPU/CPUKernelAgent.cc:202-209 | a worker at a doorbell passes the queue over if and only if the doorbell has its initial or its last handled value, and otherwise begins a pass if and only if no pass over the queue was cut before |
| WorldSafety.ExecutesLaunchedKernels | src/Devices/CPU/CPUKernelAgent.cc:331-357 | the handshake sees the worker execute exactly while it is inside the kernel of a packet of the queue it serves, whose last report is that this packet was launched |
| WorldSafety.UncutQueueLosesNothing | src/Devices/CPU/CPUKernelAgent.cc:202-235 | for any callers and every queue no pass of which was cut, between passes and with no ring outstanding, no rung index is lost |
| OrderlyCallers.JumpHitsInactivatedQueue | src/Devices/CPU/CPUKernelAgent.cc:137-183 | with orderly callers only inactivated queues are interrupted, no pass of another queue is ever cut, and the worker never comes back to a queue that was |
| OrderlyCallers.PassNeverRefused | src/Devices/CPU/CPUKernelAgent.cc:202-209 | with orderly callers a worker that found a changed doorbell can always begin its pass |
| AnyCallers.InactivationFreezes | src/Queue.cc:45-50 | after `setInactivated(k)` returned no packet of k is in handling, no further one is started, none is retired and the read index stands still, for any callers, any signal delay and jumps between any two instructions |
| AnyCallers.RunIsLoose | src/Devices/CPU/CPUKernelAgent.cc:129-398 | every run of the whole agent is one of the runs for which that is proved |
| OrderlyCallers.ActiveQueueLosesNothing | src/Devices/CPU/CPUKernelAgent.cc:202-235 | with orderly callers, on every queue that was not inactivated, between passes, no rung index is lost and completion signals are exact |
| Comeback.ComebackLosesPacket | src/Devices/CPU/CPUKernelAgent.cc:254-258 | for every ring of two slots or more, a run with room checks in which the worker comes back after a jump between the two writes at lines 256-257, moves the read index over an unpublished index, and the packet published there is overwritten |
| Comeback.ComebackStartsKernelTwice | src/Devices/CPU/CPUKernelAgent.cc:337-357 | a worker that comes back starts the kernel that was running when the jump came once more |
| WorldOrder.StepKeepsDep | src/Devices/CPU/CPUKernelAgent.cc:263-395 | every step keeps, for any callers: a completion signal is 0 only after its packet's retirement, and the log respects all dependencies |
| WorldOrder.DependencyOrder | src/Devices/CPU/CPUKernelAgent.cc:263-306 | for any callers and jumps, in the retirement log of all queues each barrier-AND comes after all packets it depends on, and each barrier-OR after at least one or after a signal that is no packet's completion |
| WorldOrder.EmptyBarrierOrBlocksForever | src/Devices/CPU/CPUKernelAgent.cc:285-303 | a barrier-OR packet that lists no signal is never retired |
| WorldCompletion.StepKeepsCompletion | src/Devices/CPU/CPUKernelAgent.cc:381-395 | every step of the agent keeps: the completion signals of retired packets are 0, but for the one the worker is about to complete |
| WorldCompletion.CompletionIsExact | src/Devices/CPU/CPUKernelAgent.cc:393-395 | for any callers, outside a pass over its queue, the signal in a packet's completion field is 0 only if the packet was retired, and if and only if it was unless a pass over the queue was cut |
| WorldCompletion.SignalsChangeExactly | src/Devices/CPU/CPUKernelAgent.cc:393-395 | in every step of every run a completion signal changes only to 0 and only after its packet was retired, and any other signal only when a client stores to it |
| FixedRegion.AlignUpIsLeast | src/FixedMemoryRegion.cc:52-57 | the padding gives the least aligned address not below its argument |
| FixedRegion.FailureIsExact | src/FixedMemoryRegion.cc:45-93 | allocation fails if and only if no aligned block fits in the tail or between two neighbouring chunks |
| FixedRegion.PlacementIsFirstFit | src/FixedMemoryRegion.cc:45-78 | the result is the least aligned tail address if the tail fits, else the least aligned address that fits any gap |
| FixedRegion.AllocateKeepsValid | src/FixedMemoryRegion.cc:38-113 | allocation keeps the region valid, adds exactly the returned block, which was not live, and keeps all others; granted or not, the free space then starts behind the last chunk, if there is one |
| FixedRegion.FreeKeepsValid | src/FixedMemoryRegion.cc:115-126 | freeing removes exactly the block at the address, if any, and changes nothing else, not even the start of the free space |
| FixedRegion.FreeUndoesAllocate | src/FixedMemoryRegion.cc:38-126 | freeing what was just allocated gives back exactly the previous live chunks |
| FixedRegion.AllRunsAreSafe | src/FixedMemoryRegion.cc:38-126 | after any sequence of allocations and frees the chunks are aligned, inside the region without its last byte, disjoint, below FreeSpaceStart, and together at most the region size less one |
| FixedRegion.FreeSpaceIsLastEnd | src/FixedMemoryRegion.cc:45-58 | over any sequence of operations FreeSpaceStart is where the last chunk ended just after the last request, granted or failed, that left any chunk |
| FixedRegion.EmptiedRegionServesAt | src/FixedMemoryRegion.cc:45-58 | after any sequence of operations that leaves no chunk, a request is granted if and only if it fits behind that place, and then at the least aligned address there |
| FixedRegion.EmptyRegionCanRefuse | src/FixedMemoryRegion.cc:45-58 | for every region of two bytes or more, a request granted when new and refused after the region became empty again |
| FixedRegion.FixedMemoryRegion.constructor | src/FixedMemoryRegion.hh:38-42 | a new region is empty and valid |
| FixedRegion.FixedMemoryRegion.Allocate | src/FixedMemoryRegion.cc:38-113 | the tail test and the two-iterator scan compute the specified region and address |
| FixedRegion.FixedMemoryRegion.Free | src/FixedMemoryRegion.cc:115-126 | erases the chunk at the address and tells whether there was one |
| RegionList.FreeTouchesOnlyOwner | src/Runtime.cc:106-111 | over any list of disjoint regions, freeing a block of one region removes exactly that block there and changes no other region; freeing anything else changes nothing |
| RegionList.FreesFirstOwnerExactly | src/Runtime.cc:106-111 | in any list of regions, disjoint or not, region j loses its block at the pointer if and only if it has one and no earlier region does; otherwise it is unchanged |
| RegionList.Runtime.FreePointer | src/Runtime.cc:106-111 | the loop frees in the first region that holds the pointer and leaves all other regions as they were |
| ObjectRegistry.HSAObjectMapping.FromHandle | include/HSAObjectMapping.hh:73-77 | an unknown handle gets a null entry, which changes what no handle finds |
| ObjectRegistry.HSAObjectMapping.Unregister | include/HSAObjectMapping.hh:59-70 | removes one entry that maps to the object if there is any, in whatever order it looks |
| ObjectRegistry.HSAObjectMapping.GarbageCollect | include/HSAObjectMapping.hh:99-108 | ends with an empty registry, having deleted the object of every entry; every object is deleted just once if and only if none was registered under two handles |
| ObjectRegistry.CollectionEndsExactly | include/HSAObjectMapping.hh:99-108 | garbage collection ends in every order, after one round per entry and with the registry empty, if and only if there is no null entry; with one it never ends |
| SignalRegistry.StepKeepsInv | src/Devices/CPU/GCCBuiltinSignal.cc:30-50 | every step of signal construction, two-phase destruction and foreign allocation keeps registry and memory consistent |
| SignalRegistry.LiveHandlesResolve | include/HSAObjectMapping.hh:59-115 | in every interleaving a constructed signal is what its handle finds, even at an address freed by a signal not yet unregistered, and the eight aligned bytes of its value overlap those of no other such signal |
| SignalRegistry.NoDanglingEntries | include/HSAObjectMapping.hh:59-70 | every registry entry maps to an object still in memory whose value is at that handle |
| SignalRegistry.AddressIsReused | src/Devices/CPU/GCCBuiltinSignal.cc:30-50 | wherever the tail has room, a run in which two signals get the same handle while both are in memory, and in which the live one is still found after the other unregistered |
| SignalRegistry.EraseByHandleLosesExactly | include/HSAObjectMapping.hh:61-69 | erasing by handle has the outcome of erasing by identity if and only if the dying signal's handle does not find another object; if it does, only the erase by identity keeps that object |
| SignalRegistry.GCCBuiltinSignal.constructor | src/Devices/CPU/GCCBuiltinSignal.cc:30-46 | allocates and then registers, as the two construction steps of the model, or registers nothing if the allocation fails |
| SignalRegistry.GCCBuiltinSignal.FreeValue | src/Devices/CPU/GCCBuiltinSignal.cc:48-50 | the first destruction step: the value is freed, the object stays registered |
| SignalRegistry.GCCBuiltinSignal.Unregister | include/HSAObjectMapping.hh:59-70 | the second one, for an object whose value was freed: unregistered by identity, whatever entry the search meets first |
| SignalRegistry.GCCBuiltinSignal.Destroy | src/Devices/CPU/GCCBuiltinSignal.cc:48-50 | both, in this order |
| SignalRegistry.FindSignal | include/HSAObjectMapping.hh:80-89 | a constructed signal is what its handle finds, and null is found exactly for unregistered handles |
| SymbolNames.DottedHasNoPair | src/FinalizedProgram.cc:115-120 | no "::" remains after the rewriting, nor arises from it |
| SymbolNames.DottedLength | src/FinalizedProgram.cc:113-120 | the rewriting shortens a name exactly when it contains "::", and otherwise keeps it |
| SymbolNames.DottedConcat | src/FinalizedProgram.cc:115-120 | the rewriting works on both sides of any cut that does not part two colons |
| SymbolNames.WithoutConcat | src/FinalizedProgram.cc:122-125 | removing ampersands works on both sides of any cut |
| SymbolNames.SingleCharacters | src/FinalizedProgram.cc:115-125 | "::" becomes a dot, every single character is kept, and an ampersand is removed; with the laws of cutting this says what the rewriting does to any name |
| SymbolNames.SearchedWithoutModule | src/FinalizedProgram.cc:112-129 | a name without "::" is searched for without a prefix, less the ampersands after its first character |
| SymbolNames.SearchedWithModule | src/FinalizedProgram.cc:112-129 | in a name with "::" the first one becomes a dot and "gccbrig." goes behind the first character |
| SymbolNames.ExecutableNameMeaning | src/hsa/hsa_executable.cc:237-244 | without a module the symbol's name is searched for with its one leading ampersand, given or added; with one, "&gccbrig.", the module less its first character, a dot, and the symbol less its ampersand |
| SymbolNames.ReplacePairs | src/FinalizedProgram.cc:114-120 | the loop ends for every string and computes the left-to-right replacement of every "::" |
| SymbolNames.FindSymbol | src/FinalizedProgram.cc:112-138 | finds the first symbol with the mangled name, or none if there is none |
| SymbolNames.GetSymbol | src/hsa/hsa_executable.cc:225-254 | an error exactly for an empty name or an unknown mangled name, otherwise the symbol of that name |
| SymbolNames.ManglersAgreeExactly | src/hsa/hsa_executable.cc:237-244 | `findSymbol` on "&m::&s" and `hsa_executable_get_symbol` on "&m" and "&s" search for the same name if and only if neither part contains '&' or "::" and m does not end in ':'; the name is then "&gccbrig.m.s" |
| CodeObject.NumberOfBytes | src/Finalizer/GCC/DLFinalizedProgram.cc:128-154 | a number copied to memory is read back from it |
| CodeObject.BytesOfNumber | src/Finalizer/GCC/DLFinalizedProgram.cc:142-154 | bytes read as a number are the bytes that number is written as |
| CodeObject.ByteHasWeight | src/Finalizer/GCC/DLFinalizedProgram.cc:128-140 | the least significant byte of a number comes first in memory |
| CodeObject.Layout | src/Finalizer/GCC/DLFinalizedProgram.cc:128-140 | size, image, ISA, rounding mode, profile and machine model lie one behind the other, eight or four bytes each |
| CodeObject.SerializedIffHolds | src/Finalizer/GCC/DLFinalizedProgram.cc:128-154 | a buffer starts with the byte form of a program if and only if its fields are found at the offsets the reader uses |
| CodeObject.RoundTrip | src/Finalizer/GCC/DLFinalizedProgram.cc:128-154 | with any trailing bytes, the one program read from the byte form of p is p |
| CodeObject.SerializedSize | src/Finalizer/GCC/DLFinalizedProgram.cc:117-126 | the length of the byte form |
| CodeObject.SerializeTo | src/Finalizer/GCC/DLFinalizedProgram.cc:128-140 | writes the byte form, exactly serializedSize bytes, and leaves the rest of the buffer as it was |
| CodeObject.Deserialize | src/Finalizer/GCC/DLFinalizedProgram.cc:142-154 | the program whose byte form the buffer starts with, whatever follows |
| CodeObject.WriteThenRead | src/Finalizer/GCC/DLFinalizedProgram.cc:117-154 | writing a program to any buffer that is large enough and reading it back gives all five parts again |

## Left out

- PassLoop.KernelAgent.ProcessQueue: a barrier's dependency signals must be registered, because `hsa_signal_load_acquire` has no object to load from otherwise. A jump while the worker holds the lock of the region or of a registry is not modelled; the lock would stay held.
- PassLoop.KernelAgent.Dispatch: a failed group allocation is a failure result here, where `FixedMemoryRegion::allocate` calls `abort`; running the kernel, relocating its arguments and calling the error callback are single steps.
- QueueInvariant.ExactlyOnce: assumes that producers publish each index once and below read index + size; clients that store to the indices directly are not modelled.
- QueueProgress.NoLostPacket: assumes that each index is rung at most once, after publication, and on a SINGLE queue in growing order, as `include/hsa.h:1388-1391` demands. It promises no later pass: a barrier is looked at again only after the next ring.
- WorldOrder.DependencyOrder: up to the worker's first return to a queue whose pass was cut, as all theorems about `World` (see Comeback). Signals other than completion signals may be stored to by anybody at any time; wait, and the read-modify-write signal operations, are not modelled.
- UserModeQueues.UserModeQueue.constructor: the ring is an array of its own; the allocation of its memory and of the doorbell signal in the region is not part of it.
- FixedRegion.FixedMemoryRegion.Allocate: `Allocations` is a list in address order instead of a map, and chunks also record the alignment they were requested with; addresses do not wrap around.
- ObjectRegistry.HSAObjectMapping.GarbageCollect: for registries without null entries, because it does not end otherwise (CollectionEndsExactly). That a second deletion of an object is undefined in C++ is not modelled; it is listed as a deletion.
- CodeObject.Deserialize: what follows in phsa, writing the ELF image to a temporary file and loading it, is I/O. The byte order is little-endian.
- The list of queues is fixed: queues created or destroyed while the worker runs are not modelled; nor is shutdown.
- The handshake's methods are transitions of a state machine rather than methods on objects, since what matters about them is their interleaving.
- Indices, doorbell values and addresses are unbounded, except for the conversion to `int` in the scan bound; rings have fewer than 2^31 slots.
- Weak memory orders: all accesses are sequentially consistent.
- Progress of the worker or of a termination, which the code does not guarantee.
- Threads, setjmp and signal delivery themselves: the jump is a transition.
- The finalizer, libelf, dynamic loading and temporary files: external tools.
- Attribute getters, status strings, images, AMD extensions, reference counting of the runtime: tables and wrappers.
- `StdAtomicSignal` and `CPUMemoryRegion`: not the signal the runtime creates, and a wrapper over malloc.
- `deregisterObject`: erases one entry by handle.
