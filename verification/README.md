# MSCCL++ verification model

A Dafny model of the concurrent and index-heavy parts of MSCCL++, with proofs about every run of them. Protocols
between threads, ranks or devices are state machines whose steps are single loads, stores and fetch-adds; a run is a
sequence of states joined by steps in any interleaving, a trace is a run with the event of each step, and the theorems
speak of the states of an arbitrary run or trace. Objects that the host code updates in place are classes whose
methods are tied to specification functions.

The components and their main results:

- **Multi-node AllReduce** (`AllReduceProgram`, `AllReduceBuilder`, `AllReduceOrder`, `AllReduce`, over `Reduction`).
  The nested loops that emit the program build exactly the specified operations, and fail exactly when a reduction
  would have nothing to add or the barrier nothing to join. For any associative and commutative reduction and all
  shapes with at least two nodes and two devices, every interleaving is finite, never stuck, and leaves every chunk of
  every rank reduced over all ranks. No scratch slot has two writers, no access leaves its buffer, and the thread
  blocks of a rank keep the order of every two operations that conflict.
- **Trigger FIFO and proxy** (`Trigger`, `Fifo`, `PortChannel`, `PortChannelSafety`, `PortChannelProgress`,
  `DeviceCalls`, `FlowControl`, `ProxyService`, `IbQueue`). The ring refines an unbounded queue with any number of
  producers and stale tail caches. `DeviceCalls` states the pipeline's guarantees for the calls of device threads: the
  proxy does exactly what each call asks for, flushes and semaphore waits return only after the work they cover has
  been applied, no flushing call is forgotten, and while the proxy runs every flushing call and every wait with a
  notifying call can be brought to return. A connection with a bounded queue is drained whenever the queue is full. The
  queue pair's counters decide exactly the pipeline's test for a drained connection.
- **Signal forwarding** (`TokenForward`, `SignalForwarding`). The receive thread rebuilds 64-bit tokens from 32-bit
  immediates if and only if each increment is below 2^32. Over whole runs the token it has stored is the number of
  signals of the connection's semaphore that have arrived. A forwarding connection never has two semaphores: the
  constructor of each starts the connection's receive thread, and a second start ends the process.
- **Device synchronization** (`DeviceSyncer`, `DeviceSemaphore`). Barrier safety for any number of blocks and rounds,
  and from every reachable state any number of further rounds can be completed. The semaphore never has too many
  holders, and a wait may end exactly when releases since outnumber later acquires, so that threads can get stuck
  exactly when there are more of them than units.
- **Allocators** (`RangeAllocator`, `MulticastBinding`, `TokenPool`). In every run of binds and unbinds the free list
  is the unique coalesced list of the free bytes, and all that is bound can be given back; the bitmap refines a set of
  live tokens, as many as were granted less those released.
- **Ordered receives** (`OrderedRecv`). The future of the n-th receive for a (rank, tag) yields the n-th message,
  whatever the order of `get` calls.
- **Packets and copies** (`Packets`, `StridedCopy`). Flagged halves deliver only data of their own transfer, and an
  undisturbed transfer can always be finished; the strided loops of all threads copy every word once if and only if
  the copy reaches the first aligned element.

Some promises hold only under a condition. The model states it as an equivalence, with a lemma at a failing input:

- `MulticastBinding.ReleasingRestoresIff`: releasing all handles restores the single initial free range if and only if
  every range left by a bind whose mapping threw is empty, because such a range stays allocated without a handle
  (`LeakExample`).
- `StridedCopy.ExactIff`: when fewer words are copied than precede the first aligned element, the head loop runs past
  the end and the unsigned difference wraps (`HeadTooLongExample`); `AlignedExactIff` is the same without remainders.
- `DeviceSemaphore.StuckIffMoreThreadsThanUnits`: a late acquirer can take a released unit before a waiter sees it;
  both then wait for a value the counter no longer reaches (`ReachQueued` reaches such a state).
- `Fifo.HandlesAllIff`: what has been pushed can all be handled if and only if each trigger can be told from an empty
  slot, which by `Trigger.UndeliverableIff` a transfer of zero bytes from source offset zero cannot. Only a device
  assertion stops such a push (`ZeroBytePutExample`).
- `SignalForwarding.ForwardsIffHarmless`: a direct update on a forwarding connection is a second token stream; the
  stored token stays right if and only if each such update carries the number of signals before it in its low half
  (`DirectUpdateExample`).
- `TokenForward.ReproducesIff` (`LargeIncrementExample`) and `RangeAllocator.RoundUpIff` (`RoundUpWrapsExample`): the
  exact limits of the 32-bit and 64-bit arithmetic.
- `AllReduceBuilder.CompleteIff`: with an empty thread block group the grouped operations are silently not emitted
  (`EmptyGroupExample`).

## Model

| member | source | states |
|---|---|---|
| AllReduceBuilder.BuildChannels | python/mscclpp/default_algos/allreduce_multi_nodes.py:71-86 | every channel that some rank later sends on exists under its key, and each key joins the ranks it names |
| AllReduceBuilder.CollectOthers | python/mscclpp/default_algos/allreduce_multi_nodes.py:110-116 | the comprehension yields the blocks of all indices but one, in order, without leaving the buffer |
| AllReduceBuilder.EmitPuts | python/mscclpp/default_algos/allreduce_multi_nodes.py:96-107 | the puts to the other devices are the first operations of the specified program and raise nothing |
| AllReduceBuilder.EmitIntraNode | python/mscclpp/default_algos/allreduce_multi_nodes.py:96-134 | puts, reduction, repacking and barrier in order; raises the empty-reduction error exactly for one device, and otherwise the empty-barrier error exactly for a negative group size |
| AllReduceBuilder.EmitPortPuts | python/mscclpp/default_algos/allreduce_multi_nodes.py:136-151 | the puts to the same device of every other node follow, addressed to that node's rank |
| AllReduceBuilder.EmitInterNode | python/mscclpp/default_algos/allreduce_multi_nodes.py:136-180 | inter-node puts, reduction and repacking; raises exactly when there is one node |
| AllReduceBuilder.EmitBroadcast | python/mscclpp/default_algos/allreduce_multi_nodes.py:182-203 | the forwarding of the reduced block to every other device follows |
| AllReduceBuilder.EmitUnpack | python/mscclpp/default_algos/allreduce_multi_nodes.py:205-220 | the unpacking of the other devices' blocks completes the specified program |
| AllReduceBuilder.EmitRank | python/mscclpp/default_algos/allreduce_multi_nodes.py:90-220 | the rank-level operations of a rank are exactly its specified program, and the error is that of the first failing call |
| AllReduceBuilder.BuildProgram | python/mscclpp/default_algos/allreduce_multi_nodes.py:38-220 | building succeeds if and only if there are at least two nodes and two devices per node and the group size is not negative, otherwise it fails with the first error, and on success every rank has the scheduled part of its specified program |
| AllReduceBuilder.EmitBarrier | python/mscclpp/default_algos/allreduce_multi_nodes.py:132-134 | the barrier has no thread block to join exactly for a negative group size and more than one device |
| AllReduceBuilder.Schedule | python/mscclpp/language/rank.py:234-257 | an operation on a thread block group is emitted exactly if the group has thread blocks |
| AllReduceBuilder.CompleteIff | python/mscclpp/default_algos/allreduce_multi_nodes.py:38-57 | every operation of a rank is emitted if and only if the group size is at least one |
| AllReduceBuilder.LeftWithoutGroups | python/mscclpp/default_algos/allreduce_multi_nodes.py:132-151 | with empty groups a rank keeps exactly the barrier and the sends to the other nodes |
| AllReduceBuilder.EmptyGroupExample | python/mscclpp/default_algos/allreduce_multi_nodes.py:38-57 | with two nodes of two devices and groups of size zero, building succeeds and every rank lacks operations |
| AllReduceProgram.WriterTarget | python/mscclpp/default_algos/allreduce_multi_nodes.py:59-70 | every scratch block that has a writer is the target of that writer |
| AllReduceProgram.TargetWriter | python/mscclpp/default_algos/allreduce_multi_nodes.py:101-203 | every writing operation is the writer of its target block, so the two maps are inverse |
| AllReduceProgram.TargetIsWriteOf | python/mscclpp/default_algos/allreduce_multi_nodes.py:101-203 | the slots an operation stores to are those of its target block, in all three regions |
| AllReduceProgram.SingleWriter | python/mscclpp/default_algos/allreduce_multi_nodes.py:59-203 | two operations of any ranks that write the same slot of the same rank are the same operation |
| AllReduceProgram.OpInBounds | python/mscclpp/default_algos/allreduce_multi_nodes.py:59-220 | every access of every operation stays inside the scratch and input buffers |
| AllReduceOrder.InputLane | python/mscclpp/default_algos/allreduce_multi_nodes.py:96-220 | the thread blocks that run an operation are decided by the block of the input that it touches |
| AllReduceOrder.ConflictsInOrder | python/mscclpp/default_algos/allreduce_multi_nodes.py:38-220 | any two operations of a rank that touch the same slots of its buffers, one writing, run on the same thread blocks, have the barrier between them, or the later reads packets that the earlier writes |
| AllReduceOrder.BarrierBeforeSends | python/mscclpp/default_algos/allreduce_multi_nodes.py:124-151 | the repacking and the sends of it to other nodes run on different thread blocks with a barrier between them |
| AllReduce.NodeSumFromSelf | python/mscclpp/default_algos/allreduce_multi_nodes.py:110-122 | reducing a device's own chunk with the other devices' chunks in its skip order gives the node's sum |
| AllReduce.TotalFromNodeSums | python/mscclpp/default_algos/allreduce_multi_nodes.py:153-169 | reducing the own node's sum with the other nodes' sums gives the sum over all ranks |
| AllReduce.StepInv | python/mscclpp/default_algos/allreduce_multi_nodes.py:89-220 | every step of any rank keeps the statement of what each slot and each chunk holds |
| AllReduce.Progress | python/mscclpp/default_algos/allreduce_multi_nodes.py:89-220 | a reachable state that is not finished has an enabled step, although packet reads block |
| AllReduce.WorkGrows | python/mscclpp/default_algos/allreduce_multi_nodes.py:89-220 | each step performs exactly one unit of a bounded amount of work |
| AllReduce.EveryRunReduces | python/mscclpp/default_algos/allreduce_multi_nodes.py:20-222 | every interleaving is finite, never stuck before the end, and ends with every chunk of every rank reduced over all ranks |
| Trigger.EncodeDecode | include/mscclpp/fifo_device.hpp:33-92 | encoding any arguments and decoding gives each field reduced to its width, with the reserved bit clear |
| Trigger.InRangeDecode | include/mscclpp/fifo_device.hpp:33-92 | in-range fields come back unchanged and the trigger can be told from an empty slot |
| Trigger.UndeliverableIff | include/mscclpp/fifo_device.hpp:64-92 | the encoded trigger looks like an empty slot if and only if the low words of source offset and size are both zero |
| Trigger.Layout | include/mscclpp/fifo_device.hpp:33-53 | the encoded words hold each field at its bit position |
| Trigger.KindBits | include/mscclpp/fifo_device.hpp:18-21 | which of the eight types write, signal and flush |
| Trigger.FlipTwice | src/core/proxy.cc:78 | flipping the top bit at push and again at poll restores the second word |
| Fifo.StepInv | include/mscclpp/fifo_device.hpp:106-160 | every load, store and fetch-add of any producer or of the consumer keeps the ring invariant |
| Fifo.PushedIsTaken | include/mscclpp/fifo_device.hpp:106-135 | at every point of a trace the ring records what the pushes were called with, in ticket order |
| Fifo.HandlesInTicketOrder | src/core/proxy.cc:62-88 | in every trace the handler has received exactly the first of the triggers that the pushes were called with, once each, whole and in ticket order |
| Fifo.UndeliverableBlocks | src/core/proxy.cc:74-77 | once a push was called with a trigger that looks empty, it is never handled and nothing behind it is popped |
| Fifo.NoOverwrite | include/mscclpp/fifo_device.hpp:106-135 | when a push stores into its slot, no other unpopped push has written there |
| Fifo.NeverDeadlocked | include/mscclpp/fifo_device.hpp:106-160 | while triggers are unpopped, the lowest unfinished producer or the consumer can make headway |
| Fifo.Drain | include/mscclpp/fifo_device.hpp:106-160 | from every reachable state, without further pushes, deliverable triggers can all be handled and popped |
| Fifo.HandlesAllIff | src/core/proxy.cc:62-88 | every trace can be continued so that all its pushes are handled if and only if each was called with a trigger that can be told from an empty slot |
| Fifo.ZeroBytePutExample | include/mscclpp/fifo_device.hpp:67-92 | after a put of zero bytes from offset zero, no continuation of the trace handles everything pushed |
| Fifo.PollRefreshes | include/mscclpp/fifo_device.hpp:137-160 | a poll or sync of another caller brings the cached tail up to date |
| Fifo.SyncRefreshes | include/mscclpp/fifo_device.hpp:115-160 | a push that waited stores the tail that let it go on, and a push within a ring size of that tail then writes without reading the tail |
| PortChannelSafety.PositionIsTicket | src/core/port_channel.cc:107-111 | the tail read while handling is the position that the push of this trigger returned |
| PortChannelSafety.DataStep | src/core/port_channel.cc:119-124 | posting a write keeps posted work equal to what the handled triggers ask for, in order |
| PortChannelSafety.FlagStep | src/core/port_channel.cc:126-129 | posting a signal keeps posted work and outbound tokens equal to what the handled triggers ask for |
| PortChannelSafety.SyncStep | src/core/port_channel.cc:131-141 | recording a flush, even over an earlier one, keeps every handled flush released or covered |
| PortChannelSafety.ProgressStep | src/core/port_channel.cc:158-168 | publishing a position only covers work that has been applied |
| PortChannelSafety.SentinelStep | src/core/port_channel.cc:98-104 | the sentinel releases every connection that is still pending |
| PortChannelSafety.FlushIsSafe | include/mscclpp/port_channel_device.hpp:104-127 | before a stop, a flush pushed at p has returned only if all work of positions up to p on its connection has been applied |
| PortChannelSafety.WaitIsSafe | include/mscclpp/semaphore_device.hpp:28-31 | when the k-th wait on a semaphore has returned, all work on its connection up to the k-th signal has been applied |
| PortChannelSafety.NoLostWakeup | src/core/port_channel.cc:91-168 | every handled flush is released or covered by a later pending one, and is released once the proxy has stopped |
| PortChannelSafety.PublishedNeverDecreases | src/core/port_channel.cc:158-168 | before the sentinel the published flush position of a connection never decreases |
| PortChannelSafety.SignalsIssued | src/core/semaphore.cc:154-156 | the work issued on a connection holds exactly the requested signals of a semaphore |
| PortChannelProgress.BusyProxyMoves | src/core/port_channel.cc:107-144 | a proxy with a trigger in hand names an existing semaphore and can step, or waits for work that the network can complete |
| PortChannelProgress.NeverStuck | src/core/proxy.cc:62-88 | in every reachable state a busy proxy thread or the network it waits for has an enabled step |
| PortChannelProgress.ToIdle | src/core/proxy.cc:80-83 | from every reachable state the trigger in hand can be finished without new pushes |
| PortChannelProgress.ToTail | src/core/proxy.cc:62-88 | while the proxy runs, everything pushed can be brought to be handled and popped |
| PortChannelProgress.HandledFlushReturns | src/core/port_channel.cc:158-168 | a flush that has been handled can be brought to return, also while the proxy is stopping |
| PortChannelProgress.FlushCanReturn | include/mscclpp/port_channel_device.hpp:27-29 | from every reachable state in which the proxy runs, every pushed flush can be brought to return |
| PortChannelProgress.WaitCanReturn | include/mscclpp/semaphore_device.hpp:28-31 | from every reachable state in which the proxy runs, a started wait whose signal has been requested can be brought to return |
| DeviceCalls.CallBits | include/mscclpp/port_channel_device.hpp:54-127 | which of the five calls move data, notify and flush, as their trigger types encode it |
| DeviceCalls.HandlesCall | src/core/port_channel.cc:107-144 | handling a call posts its write, then its signal with the next token, on its own connection alone, and records its position exactly if it flushes |
| DeviceCalls.PushedIsTaken | include/mscclpp/fifo_device.hpp:106-135 | at every point of a trace of the whole pipeline the ring records what the calls pushed |
| DeviceCalls.RequestsAreCalls | include/mscclpp/port_channel_device.hpp:54-127 | the requests that the proxy decodes are the calls, in the order of their positions |
| DeviceCalls.IssuedIsDemanded | src/core/port_channel.cc:119-129 | the work issued on a connection is what the calls ask for on it, in order and with consecutive tokens |
| DeviceCalls.FlushIsSafe | include/mscclpp/port_channel_device.hpp:104-127 | only flushing calls return from a flush, and until the sentinel is written all that the calls up to it ask for on its connection has then been applied |
| DeviceCalls.WaitIsSafe | include/mscclpp/semaphore_device.hpp:28-31 | when the k-th started wait returns, a k-th notifying call has been made and all that the calls up to it ask for on the connection has been applied |
| DeviceCalls.NoLostWakeup | src/core/port_channel.cc:91-168 | a popped flushing call is released or covered by a pending position, and is released once the sentinel has been written |
| DeviceCalls.FlushCanReturn | include/mscclpp/port_channel_device.hpp:27-29 | while the proxy runs, every trace can be continued so that a flushing call made before returns |
| DeviceCalls.WaitCanReturn | include/mscclpp/semaphore_device.hpp:28-31 | while the proxy runs, every trace can be continued so that a started wait returns whose notifying call has been made |
| DeviceCalls.ReturnsAreEvents | include/mscclpp/port_channel_device.hpp:27-29 | the recorded returns of flushes and waits are exactly those of the trace |
| DeviceCalls.ModeIsAfter | src/core/port_channel.cc:91-105 | the proxy runs until the stop and has stopped exactly once the sentinel has been written |
| DeviceCalls.StopIsFinal | src/core/port_channel.cc:91-105 | after the stop no trigger is handled and no work posted |
| FlowControl.RunFlow | src/core/port_channel.cc:115-141 | in every trace the request count of a connection is what was posted since the last drain or flush, within the bound |
| FlowControl.QueueIsBounded | src/core/port_channel.cc:138-141 | between triggers, fewer requests than the bound of a connection are posted beyond both what has been applied and what the last flush covers |
| FlowControl.DrainsOnlyWhenFull | src/core/port_channel.cc:138-141 | a trigger that is no flush drains its connection only when at least the bound has been posted since the last flush |
| ProxyService.ProxyService.HandleTrigger | src/core/port_channel.cc:107-144 | handling performs the data, flag and sync steps of the pipeline in this order, and waits before the last exactly when it must drain a connection whose posted work has not completed |
| ProxyService.ProxyService.Sync | src/core/port_channel.cc:131-141 | a flush is recorded under its position; a full queue is drained; both reset the request count |
| ProxyService.ProxyService.ProgressFlushes | src/core/port_channel.cc:158-168 | in any iteration order, each pending connection is polled once and exactly the drained ones are published and removed |
| ProxyService.TurnOfPass | src/core/port_channel.cc:159-166 | each turn of the loop is one progress step of the pipeline and leaves the other connections to come |
| ProxyService.PassIsProgress | src/core/port_channel.cc:158-168 | a pass is one progress step of the pipeline per pending connection, in whatever order |
| ProxyService.ProxyService.ProgressFlush | src/core/connection.cc:500-522 | one turn polls the connection and publishes the recorded position plus one if it has drained |
| ProxyService.ProxyService.StopProxy | src/core/port_channel.cc:91-105 | performs passes until nothing is pending, at most 1000, and then the sentinel step of the pipeline; nothing stays pending, every flush that was pending is released, and no other connection changes |
| ProxyService.ProxyService.WriteSentinel | src/core/port_channel.cc:98-104 | writes the sentinel to exactly the connections still pending and forgets them |
| IbQueue.AllSignaled | src/core/connection.cc:398-401 | when every request is signaled, drained means that all posted work has completed |
| IbQueue.IbQp.StageSend | src/core/ib.cc:326-391 | staging fails exactly at the limit and then changes nothing; otherwise the request is appended and counted |
| IbQueue.IbQp.PostSend | src/core/ib.cc:393-409 | the staged requests move in order behind those posted, and the outstanding count stays posted less completed |
| IbQueue.IbQp.PollSendCq | src/core/ib.cc:454-460 | polling takes at most the configured number of completions off the outstanding count, and a failing poll takes none |
| IbQueue.IbConnection.Post | src/core/connection.cc:399-402 | a write or signal appends one signaled request to what is posted |
| IbQueue.IbConnection.DrainedIff | src/core/ib.cc:471 | the outstanding count is zero if and only if the connection passes the test of the pipeline model |
| IbQueue.IbConnection.ProgressFlush | src/core/connection.cc:500-522 | throws exactly for a receive thread error, a failing poll or a failed work item; otherwise reports success if and only if all posted work has completed or the queue pair has expired, which the endpoint that the connection keeps rules out |
| IbQueue.IbConnection.Flush | src/core/connection.cc:459-493 | polls exactly while work is outstanding; returns when all of it has completed in time without a failed item, times out when the poll at the deadline is still needed, and fails at a poll that fails or, in time, takes a failed item; what is left outstanding is what the polls did not take |
| IbQueue.EndsOnce | src/core/connection.cc:470-487 | what the polls find decides how and after how many polls a flush ends |
| TokenForward.ForwardLoop | src/core/connection.cc:215-251 | the receive loop stores, per completion, the token given by the immediates so far |
| TokenForward.RebuildsIff | src/core/connection.cc:243-251 | one immediate rebuilds the next token if and only if the token grew by less than 2^32 |
| TokenForward.ReproducesIff | src/core/connection.cc:427-444 | a sequence of 64-bit tokens is reproduced from its low halves if and only if every increment from zero on is below 2^32 |
| TokenForward.LargeIncrementExample | src/core/connection.cc:243-251 | a first token of 2^32 is stored as zero |
| SignalForwarding.TokensIssued | src/core/semaphore.cc:154-156 | the signals of a semaphore carry the tokens 1, 2, 3 and so on |
| SignalForwarding.ConstructIff | src/core/connection.cc:348-360 | building semaphores survives if and only if no forwarding connection is named twice, since a second start of its receive thread ends the process |
| SignalForwarding.BuiltAlone | src/core/semaphore.cc:118-136 | a semaphore of a forwarding connection has it to itself |
| SignalForwarding.ForwardedIsInbound | src/core/connection.cc:199-270 | after any run of a service that could be built, fed all signals of a forwarding connection, the receive thread has stored the number of its semaphore's signals that have arrived |
| SignalForwarding.ForwardsIffHarmless | src/core/connection.cc:427-444 | beside direct updates the stored token is always the number of signals if and only if each of them carries that number in its low half |
| SignalForwarding.DirectUpdateExample | src/core/connection.cc:66-69 | after two signals, a direct update to one makes the receive thread store 2^32 + 1 |
| DeviceSyncer.StepInv | include/mscclpp/concurrency_device.hpp:44-61 | every load, store and fetch-add of any block keeps the barrier invariant and advances at most one round |
| DeviceSyncer.NoEarlyLeave | include/mscclpp/concurrency_device.hpp:53-56 | no block has left or is leaving round k unless every block has arrived at round k |
| DeviceSyncer.SameCounter | include/mscclpp/concurrency_device.hpp:49-51 | a block inside a round uses the counter of that round, so blocks of one round agree |
| DeviceSyncer.ResetIsSafe | include/mscclpp/concurrency_device.hpp:52 | a reset never hits a counter that another block has chosen, adds to or spins on |
| DeviceSyncer.NeverDeadlocked | include/mscclpp/concurrency_device.hpp:44-61 | in every reachable state some block can take a step |
| DeviceSyncer.RoundCanEnd | include/mscclpp/concurrency_device.hpp:53-57 | from every reachable state, once all blocks have arrived at a round, those still in it can all leave it without a step of another block |
| DeviceSyncer.RoundsCanComplete | include/mscclpp/concurrency_device.hpp:44-61 | from every reachable state the blocks can complete any number of further rounds |
| DeviceSemaphore.StepInv | include/mscclpp/concurrency_device.hpp:118-126 | every step keeps each value above the counter and at most zero awaited by some waiter |
| DeviceSemaphore.AtMostInitialHolders | include/mscclpp/concurrency_device.hpp:118-126 | in every interleaving at most the initial number of threads hold the semaphore |
| DeviceSemaphore.WaitEndsIff | include/mscclpp/concurrency_device.hpp:118-126 | an acquire that finds a unit holds at once; one that finds none may go on exactly when releases since its decrement outnumber later acquires |
| DeviceSemaphore.StuckIffMoreThreadsThanUnits | include/mscclpp/concurrency_device.hpp:118-126 | a state with threads waiting forever is reachable if and only if there are more threads than units |
| RangeAllocator.TakeCounts | src/core/switch_channel.cc:121-131 | taking from a range removes exactly the granted bytes from the free list |
| RangeAllocator.GiveBackCounts | src/core/switch_channel.cc:146-171 | giving back adds exactly the bytes of the range, whichever way it merges |
| RangeAllocator.CanonicalGiveBack | src/core/switch_channel.cc:146-171 | giving back a range that was not free keeps the list sorted with gaps between ranges |
| RangeAllocator.GiveBackEmptyIff | src/core/switch_channel.cc:146-171 | giving back an empty range keeps the list canonical if and only if it touches a free range |
| RangeAllocator.CanonicalIff | src/core/switch_channel.cc:115-172 | one operation keeps the list canonical if and only if it does not free a stray empty allocation |
| RangeAllocator.RunPartition | src/core/switch_channel.cc:115-172 | after any run, allocated and free ranges cover each byte of the buffer exactly once and no other byte |
| RangeAllocator.RunCanonicalIff | src/core/switch_channel.cc:115-172 | as functions on lists, allocating and freeing keep the free list canonical all along a run if and only if no step frees a stray empty allocation; the calls of `MulticastBinding` never do |
| RangeAllocator.StrayEmptyExample | src/core/switch_channel.cc:146-171 | as functions on lists, three operations leave an empty range behind; no bind or unbind performs them |
| RangeAllocator.PositiveSizesAreSafe | src/core/switch_channel.cc:115-172 | runs of positive-size allocations never free a stray empty one |
| RangeAllocator.CanonicalUnique | src/core/switch_channel.cc:115-172 | two canonical lists of the same bytes are equal |
| RangeAllocator.RoundUpIff | src/core/switch_channel.cc:176 | rounding gives a multiple of the granularity, and the least sufficient one if and only if the addition does not wrap |
| RangeAllocator.RoundUpWrapsExample | src/core/switch_channel.cc:176 | the largest 64-bit size with granularity two rounds to zero |
| MulticastBinding.EveryRunKeeps | src/core/switch_channel.cc:174-191 | in every run of binds and unbinds, free and allocated ranges partition the buffer, the free list is sorted and maximally coalesced, and the allocated ranges are those of the live handles and of binds whose mapping threw |
| MulticastBinding.FreeListDetermined | src/core/switch_channel.cc:115-172 | in every run the free list is the one canonical list of its free bytes |
| MulticastBinding.GrantedIff | src/core/switch_channel.cc:115-135 | in every run a bind of any size is refused if and only if no run of the needed bytes is free, for want of any free byte if and only if there is none, and otherwise gets the lowest such address |
| MulticastBinding.HandlesAligned | src/core/switch_channel.cc:174-179 | in every run each offset and size handed out is a multiple of the granularity, and no handle is empty |
| MulticastBinding.HandlesAreDisjoint | src/core/switch_channel.cc:115-191 | in every run each byte of the buffer is in exactly one range of a live handle, a leaked one or a free one |
| MulticastBinding.RestoredIff | src/core/switch_channel.cc:186-190 | with all handles released the single initial range is back if and only if every range of a bind whose mapping threw is empty |
| MulticastBinding.BindTakes | src/core/switch_channel.cc:174-191 | in every run a bind that maps adds one handle, and exactly its bytes leave the free ones |
| MulticastBinding.UnbindReleases | src/core/switch_channel.cc:137-172 | in every run an unbind removes that handle and no other, and exactly its bytes join the free ones |
| MulticastBinding.ReleaseAll | src/core/switch_channel.cc:186-190 | after every run as many unbinds as there are handles leave no handle |
| MulticastBinding.ReleasingRestoresIff | src/core/switch_channel.cc:186-190 | after every run, releasing everything restores the single initial range if and only if every range of a bind whose mapping threw is empty |
| MulticastBinding.NothingLostWhenMapped | src/core/gpu_ipc_mem.cc:444-446 | when no mapping of a non-empty range throws, only empty ranges are left allocated |
| MulticastBinding.LeakExample | src/core/gpu_ipc_mem.cc:436-455 | one bind whose mapping throws keeps half of an eight-byte buffer allocated, and a bind of the whole buffer is then refused |
| MulticastBinding.NvlsConnection.AllocateRange | src/core/switch_channel.cc:115-135 | result and new lists are those of first fit, including the two error cases that change nothing |
| MulticastBinding.NvlsConnection.FreeRange | src/core/switch_channel.cc:137-172 | an unknown range changes nothing; a known one leaves the allocated list and is merged into the free list |
| MulticastBinding.NvlsConnection.FindReaching | src/core/switch_channel.cc:146-148 | the search stops at the first free range that ends at or after the offset |
| MulticastBinding.NvlsConnection.BindMemory | src/core/switch_channel.cc:174-191 | allocates the rounded size and maps it; a mapping that throws, always for an empty range, yields no handle and leaves the range allocated |
| TokenPool.GetIsCorrect | src/core/utils_internal.cc:249-275 | in every run at most n tokens are live, a request fails exactly when n are, and otherwise gets the lowest index not live, whose memory reads zero |
| TokenPool.ReleaseFrees | src/core/utils_internal.cc:250-257 | in every run a release makes that token and no other free, one fewer is live, and its memory reads zero |
| TokenPool.LiveIsGrantedLessReleased | src/core/utils_internal.cc:249-275 | in every run the number of live tokens is that of granted requests less that of releases |
| TokenPool.MemoryIsLastStored | src/core/utils_internal.cc:249-275 | in every run a token holds what was last stored through it since it was granted |
| TokenPool.FullIff | src/core/utils_internal.cc:274 | no index is free if and only if as many tokens are live as exist |
| TokenPool.TailMaskBits | src/core/utils_internal.cc:243 | the mask as the machine computes it, with and without a remainder, has exactly the bits that the search allows in the last word |
| TokenPool.Position | src/core/utils_internal.cc:260-270 | a word and a bit form an existing token if and only if the mask of that word allows the bit |
| TokenPool.OneBit | src/core/utils_internal.cc:254-268 | setting or clearing one bit changes the membership of its token alone |
| TokenPool.LowestBit | src/core/utils_internal.cc:266-272 | the inner loop finds the lowest set bit |
| TokenPool.TokenPool.Search | src/core/utils_internal.cc:260-274 | both loops together find the lowest token that is not live, or that there is none |
| TokenPool.TokenPool.GetToken | src/core/utils_internal.cc:249-275 | adds exactly the lowest free token to the live set, or fails and changes nothing |
| TokenPool.TokenPool.ReleaseToken | src/core/utils_internal.cc:250-257 | removes exactly that token from the live set and zeroes its memory |
| OrderedRecv.CreateInv | src/core/communicator.cc:13-36 | creating a future links it to the previous pending one of its key, or to none if that has run |
| OrderedRecv.ForceInv | src/core/communicator.cc:23-30 | forcing a future makes the receives of its key reach its number and touches no other key |
| OrderedRecv.EveryCallIsLegal | src/core/communicator.cc:13-36 | after any run another future can be created and every existing one got: the links always lead to earlier futures |
| OrderedRecv.FuturesAreRecvs | src/core/communicator.cc:13-36 | there is one future per receive call, and as many per key as calls for that key |
| OrderedRecv.FutureOfRecv | src/core/communicator.cc:13-36 | the future that a receive call creates keeps its key and its number among those of the key |
| OrderedRecv.GetIsCovered | src/core/communicator.cc:13-36 | every get is of a future that an earlier receive call created |
| OrderedRecv.LinksToPending | src/core/communicator.cc:13-36 | a new future waits for another exactly if some future of its key has not run |
| OrderedRecv.EntryIff | src/core/communicator.cc:23-63 | a key has an entry exactly while its latest future has not run or has thrown |
| OrderedRecv.NthFutureNthMessage | src/core/communicator.cc:13-36 | whatever the order and repetition of gets, the future that a receive for a key created after n others for that key yields the n-th message of the key |
| OrderedRecv.ResolvedIsPrefix | src/core/communicator.cc:25-30 | the futures that have run are always a prefix of those of their key |
| OrderedRecv.ResultsAreStable | src/core/communicator.cc:13-36 | a result never changes, and a get never disturbs another key |
| OrderedRecv.Communicator.GetLastRecvItem | src/core/communicator.cc:53-63 | returns the pending entry; a ready entry is dropped |
| OrderedRecv.Communicator.MakeOrderedRecvFuture | src/core/communicator.cc:13-36 | appends the future and makes it the latest of its key |
| OrderedRecv.Communicator.Wait | src/core/communicator.cc:23-30 | the recursion over earlier futures terminates and runs each deferred receive once |
| OrderedRecv.Communicator.RunReceive | src/core/communicator.cc:19-29 | a receive consumes the key's next message and drops the entry only if it is still the latest and nothing was thrown |
| Packets.ReadReturnsWhatWasWritten | include/mscclpp/packet_device.hpp:40-92 | with halves stored and loaded separately and any stores under other flags, a matching read yields the words written with that flag |
| Packets.CopyRecovers | include/mscclpp/copy_device.hpp:160-232 | for any thread counts on both sides, when the readers are done the destination equals the source |
| Packets.StepInv | include/mscclpp/packet_device.hpp:118-154 | every store and load, for one or two halves per packet, keeps flagged cells equal to the words sent |
| Packets.EveryStepCounts | include/mscclpp/copy_device.hpp:201-232 | once the writers are done, each reader step reduces the remaining steps by one, so no retry repeats |
| Packets.EndsAtZero | include/mscclpp/copy_device.hpp:201-232 | the remaining steps are never negative and are zero exactly when every reader is done |
| Packets.CanFinish | include/mscclpp/copy_device.hpp:160-232 | from every reachable state of an undisturbed transfer the steps of its threads lead to the end, where the destination equals the source |
| StridedCopy.PartCount | include/mscclpp/copy_device.hpp:34-43 | a thread stores each word of the elements whose index is congruent to its number once, and nothing else |
| StridedCopy.QuotientAndRemainder | include/mscclpp/copy_device.hpp:34-43 | the element index and owning thread of a word are its distance divided by the width, modulo the thread count |
| StridedCopy.HeadsAgree | include/mscclpp/copy_device.hpp:74-76 | equal misalignment gives both addresses a head of the same length |
| StridedCopy.HeadOf | include/mscclpp/copy_device.hpp:68-76 | the head is the distance to the next aligned address, in words |
| StridedCopy.StoresUpTo | include/mscclpp/copy_device.hpp:68-92 | with the 64-bit difference as computed, head, elements and tail together store an initial run of words once each |
| StridedCopy.ExactIff | include/mscclpp/copy_device.hpp:68-92 | all threads together store each word within the requested bytes once, from its own place, and nothing else, if and only if the bytes reach the first aligned element |
| StridedCopy.HeadTooLongExample | include/mscclpp/copy_device.hpp:68-92 | a one-word copy whose head is three words long, so that it is not exact |
| StridedCopy.AlignedWordsOnly | include/mscclpp/copy_device.hpp:77-84 | without remainders a word is stored, once and from its own place, exactly if it lies in an aligned element that ends by the end of the stores |
| StridedCopy.AlignedExactIff | include/mscclpp/copy_device.hpp:77-84 | without remainders the stored words are those of the aligned elements within the requested bytes if and only if the bytes reach the first of them |
| StridedCopy.AnyInterleavingCopies | include/mscclpp/copy_device.hpp:68-92 | however the stores of the threads interleave, each word within the requested bytes ends as in the source and every other word is unchanged |
| StridedCopy.CopyPart | include/mscclpp/copy_device.hpp:34-43 | the strided loop performs the thread's stores of the part |
| StridedCopy.Copy | include/mscclpp/copy_device.hpp:68-92 | one thread's call performs its head, element and tail stores |

## Left out

- Weak memory: every load, store and fetch-add is one sequentially consistent step; release, acquire and bridge reordering are not modelled.
- Counter overflow: FIFO tickets, heads, tails and semaphore tokens are unbounded, except the 64-bit arithmetic of `TokenForward`, `RangeAllocator.RoundUp` and `StridedCopy.Rest`.
- Forms: the FIFO, the barrier, the semaphore and the packet copies are concurrent and are modelled as steps on values instead of as classes over arrays; aliasing between buffers is not modelled there.
- Spin limits: `POLL_MAYBE_JAILBREAK` assertions after too many spins are not modelled; a spinning thread waits.
- AllReduce execution: a rank runs its operations in program order and the slots of one operation in any order; thread blocks appear in `AllReduceOrder` alone, which shows that they keep this order where it matters on one rank; the optimizing passes of the language and the executor kernel are not part of this model.
- AllReduceBuilder.BuildProgram: the world size is taken as nodes times devices, and a shape without nodes or devices is not considered.
- AllReduce.EveryRunReduces: speaks of complete programs, which `AllReduceBuilder.CompleteIff` gives for group sizes of at least one.
- MulticastBinding.EveryRunKeeps: requires a buffer of at least one byte, which the driver demands of a multicast object; which non-empty mappings throw is a parameter of the calls.
- OrderedRecv.NthFutureNthMessage: the n-th receive is whatever the transport delivers or throws then; sends, self-receives and concurrent use of one communicator are left out.
- StridedCopy.ExactIff: covers calls with the remainders copied, as `StridedCopy.AlignedExactIff` does the others; addresses are taken not to wrap.
- IbQueue.IbConnection.Flush: covers flushes with a timeout; without one the code may wait for the network forever.
- PortChannelProgress.FlushCanReturn: says that steps to the return exist; fairness of the threads and the network is not modelled.
- PortChannelProgress.WaitCanReturn: likewise without fairness.
- DeviceCalls.FlushCanReturn: likewise without fairness.
- DeviceCalls.WaitCanReturn: likewise without fairness.
- DeviceSyncer.RoundsCanComplete: likewise without fairness.
- SignalForwarding.ForwardedIsInbound: speaks of fewer than 2^64 signals.
- Semaphore ids: two ids of a service that name the same semaphore object share one token counter in the code; the model takes them as one id.
- TokenPool.TokenPool.Search: the bitmap words are sequences of 64 bits; `TailMaskBits` relates the machine mask to them.
- Packets.CanFinish: covers transfers without other stores to the buffer; a later transfer that overwrites an unread packet makes its reader spin.
- DeviceSemaphore: `set` during a run is left out.
- Channel semaphores: concurrent `poll` callers are left out, because check and increment are separate steps there.
- A bound on all outstanding work requests: the code resets the request count at a flush without draining, so what flushes cover is outside the bound of `FlowControl.QueueIsBounded`.
- Restarting a stopped proxy, and connections shared by two proxy services: FIFO positions are not comparable there.
- Ethernet framing, sockets, CUDA, verbs and GDRCopy calls: foreign input and output.
- Serialization, number formats, bindings, tuning, logging and tracing.
