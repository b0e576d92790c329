# NetCCL: a verified model

NetCCL sums tensors of many hosts inside a programmable switch. On each host, a Python thread cuts a
collective call into segments and puts each into a slot ring and a byte ring in shared memory. A
daemon thread copies the segments to and from the accelerator. A load balancer forks every segment
into one share per worker thread and joins the answers. Each worker sends its share as 256-byte
packets through a window of 1024 slots, over a network that drops, duplicates and reorders, and
writes the results over the bytes it sent. A controller hands out switch memory, group numbers and
multicast nodes, and takes them back with an undo log.

The project models these threads and proves what they are for. Imperative code is modelled by
classes and methods with loops, each proved against a specification function; protocols are state
machines over those functions, and theorems about every reachable state are proved for them.

How the files build on each other:

- `Common`, `Encoding`, `Modular`: vocabulary, byte order, remainders.
- `Transport`, `TransportShape`, `TransportMemory`, `TransportRuns`, `TransportBarrier`: one worker as
  steps on an ever-growing log with unbounded serial numbers; window, memory and packet invariants;
  whole runs; what fails without the drain barrier.
- `Ring`, `Worker`, `ProcessBuffer`, `QueuePair`, `CongestionControl`: the worker as it is written, with
  a ring, 32-bit wrapping numbers and a late published right edge, refining `Transport`.
- `Cluster`: several hosts of a group; aggregator slots.
- `Partition`, `LoadBalancer`, `Daemon`, `Frontend`, `CopyBuffer`: the other threads and the two rings.
- `Pipeline`, `PipelineProgress`: all threads interleaved in any order.
- `SharedMemory`, `EndToEnd`: `Pipeline`, any number of `Transport` workers and the bytes they share.
  The assumptions that `Transport` makes on its surroundings are proved there. The main theorem is
  `EndToEnd.CallDelivers`: when a call that receives has returned, every byte of the tensor is the
  network's answer for the one packet that carries it.
- `Liveness`, `Fairness`: that every call can come to its end, that no step undoes progress, and that on
  every fair run without end every call does return.
- `Segments`, `Groups`, `GroupRuns`, `Controller`: the controller. `Wiring`: what its constants mean
  for the workers, and failures shown at sizes that really occur.
- `Quantise`: the integer arithmetic of a floating-point collective.
- `Aggregator`: one aggregator of the switch, with its version, bitmap and saturating sums.
- `Collective`: any number of hosts, each an `EndToEnd` system with a history of its own, and the
  switch between them. The result for the whole program is `Collectives.AllReduceSums`, with
  `ReduceSums` and `BroadcastCopies`, and for floating-point tensors `AllReduceOfReals` and
  `ReduceOfReals`.
- `Realised`: that the premises of `Collective` and of `Fairness` can be met, by any hosts and any call.

What remains assumed: a packet that arrives answers one that was sent, less than 2^32 sequence
numbers ago (`TransportMemory.Genuine`); what a host is answered is the answer of an aggregator, and
packets that reach it with the same version are those of one number, so none is 2^24 numbers late
(`Collectives.Aggregated`, `Aggregators.SameVersionIff`); a packet is answered only after every host
has sent it (`Cluster.GroupNext`, which `Aggregators.AnswerIsSum` shows of an aggregator); hosts of a
group run equally many workers and make the same calls to the group; queues between two threads are
FIFOs of 1024 entries; a copy is done when its event says so; no segment of a call ends on the last byte of
the byte ring (`Pipeline.Suits`, which depends on the sizes so far only and holds for even ones); the
aggregator range of a group has at least one aggregator per worker (with fewer, `psn % agg_len` would
divide by zero), and for `Liveness` at least two.

Where the code and its comments or evident intent differ, the code is modelled and the difference
is proved:

- A burst that starts on an empty window switches groups in the middle if two groups are queued,
  because the guard reads the published right edge (`TransportBarrier.BurstUnmixedIff`). The drain
  barrier excludes it (`Pipeline.OneGroupLive`, `EndToEnd.EveryForkCanPost`).
- The limit of half the switch memory is updated only inside the first burst of a new group, so that
  burst follows the old limit (`TransportBarrier.FirstBurstLength`, `StaleLimitExceeds`). Under the
  assumption noted at `server/backend/worker.cpp:22` the initial limit is harmless
  (`InitialLimitHarmless`).
- With one aggregator per worker that limit is zero and a second burst never starts
  (`Liveness.GeneratesIff`).
- The byte ring's free fails exactly for a block that ends on the last byte
  (`CopyBuffers.FreesOldestIff`). A run passes all its assertions if and only if no block that its sizes
  get in turn ends there (`CopyBuffers.RunsWellIff`). Even sizes exclude it; two broadcasts, of 8388606 and of 3 bytes,
  meet it (`CopyBuffers.ExactFitFails`, `Wiring.ExactFitIsTwoCalls`).
- A release between two free neighbours merges only the left one (`Segments.CoalescedIff`): three groups
  destroyed in the order first, third, second do it (`Wiring.TwoSidedMergeFails`).
- Slots stay distinct across the 32-bit wrap exactly when the number of aggregators divides 2^32 or
  is an odd divisor of 2^32 + 1 (`Cluster.SlotsDistinctIff`).
- The comment that the congestion window stays below 1024 has no cap behind it. It holds for windows of
  at most H packets if and only if H < 1021 (`CongestionControl.BelowRingIff`); the controller's 1024
  aggregators per group make H at most 512, so it holds (`Wiring.BelowRingAsWired`).

## Model

| member | source | states |
|---|---|---|
| Encoding.WireRoundTrip | server/backend/worker.cpp:458-466 | a chunk that is encoded and padded by the sender is decoded by the receiver's copy of the same length, for both byte orders |
| TransportShape.NamesUnique | server/backend/worker.cpp:206-228 | no two packets of a window share a 32-bit sequence number |
| TransportShape.FindByDistance | server/backend/worker.cpp:217-223 | the unsigned comparison of distances accepts exactly the in-window numbers of the current group, wrap included |
| TransportShape.Contiguous | server/backend/worker.cpp:208-210 | the window carries consecutive serial numbers |
| TransportShape.WindowIsLive | server/backend/worker.cpp:262-285 | every window entry belongs to a sub-operation that is not answered, so no slot refers to a freed one |
| TransportShape.FindGenuine | server/backend/worker.cpp:206-228 | a packet sent within the last 2^32 is found at an entry exactly when it is the answer to that entry |
| TransportShape.PostKeeps | server/backend/load_balancer.cpp:84-87 | a new request of the same group keeps the window invariant |
| TransportShape.BurstKeeps | server/backend/worker.cpp:520-546 | so does a burst of any length |
| TransportShape.BurstLimits | server/backend/worker.cpp:525-546 | a burst sends at most 32 packets, never beyond cwnd, half the switch memory or the ring, and stops only at one of these bounds or when nothing can be generated |
| TransportShape.RxKeeps | server/backend/worker.cpp:335-379 | so does any arriving packet, genuine or not |
| TransportShape.ShiftAckKeeps | server/backend/worker.cpp:272-285 | so does the release of acknowledged packets |
| TransportMemory.AnswerIsRight | server/backend/worker.cpp:262-285 | when a response is pushed, the sub-operation's bytes are the result payloads in sequence order, each chunk written once, or its input if it only sends |
| TransportMemory.TransmissionsCarryInput | server/backend/worker.cpp:250-260 | every transmission, first or again, carries the bytes its chunk was posted with, although results overwrite the same buffer |
| TransportMemory.RxKeepsM | server/backend/worker.cpp:342-351 | a genuine packet keeps memory right: input before the first acknowledgement of a chunk, its result afterwards |
| TransportMemory.GenKeepsM | server/backend/worker.cpp:500-509 | a packet is filled while its input is still in place |
| TransportRuns.AlwaysInv | server/backend/worker.cpp:660-691 | window, memory and packet invariants in every state of every run |
| TransportRuns.EveryAnswerIsRight | server/backend/worker.cpp:262-285 | over every run, responses are pushed once each, in posting order, only by the release step, with the right bytes in place |
| TransportRuns.EveryTransmissionIsRight | server/backend/worker.cpp:230-260 | over every run, every transmitted packet carries its input chunk and its decoding is that chunk |
| TransportRuns.PendingStep | server/backend/worker.cpp:169-179 | the count of packets not acknowledged or not generated drops by one with a fresh acknowledgement, grows with a posting, and is changed by no other step, retransmission included |
| TransportRuns.NothingPending | server/backend/worker.cpp:272-285 | when the count is zero, the next release has answered everything |
| TransportRuns.ResendUnackedExact | server/backend/worker.cpp:250-260 | a timeout resends exactly the unacknowledged entries, once and in order |
| TransportRuns.FastRetransmitExact | server/backend/worker.cpp:287-304 | a fresh acknowledgement resends exactly the maximal unacknowledged run just before it |
| TransportBarrier.BurstUnmixedIff | server/backend/worker.cpp:482-488 | a first burst on an empty window stays within one group if and only if every queued sub-operation it reaches is of the first one's group |
| TransportBarrier.WithoutBarrierMixes | server/backend/worker.cpp:533-543 | a concrete queue of two groups that share the window, which the barrier would have excluded |
| TransportBarrier.WindowWithinHalf | server/backend/worker.cpp:487-488 | over every run no window exceeds half the largest number of aggregators |
| TransportBarrier.FirstBurstLength | server/backend/worker.cpp:525-541 | exact length of the first burst of a group, and when it stays within the new limit: if and only if the old room or the queued work does |
| TransportBarrier.AlwaysLimitRight | server/backend/worker.cpp:487-488 | over every run the limit is half the aggregators of the sub-operation that the newest packet belongs to, and ten before the first |
| TransportBarrier.StaleLimitExceeds | server/backend/worker.cpp:487-488 | ten packets outstanding on eight aggregators, a case that the assumption at line 22 excludes |
| TransportBarrier.InitialLimitHarmless | server/backend/worker.cpp:22 | under that assumption no window of any run exceeds half of its worker's aggregators, from the first burst on |
| TransportBarrier.HostsAgree | server/backend/worker.cpp:487-506 | two hosts that post the same sizes for a group give every chunk the same sequence number and aggregator, however they interleave other groups |
| Cluster.OutstandingAreClose | server/backend/worker.cpp:525-540 | outstanding packets of any two hosts are less than the number of aggregators apart |
| Cluster.SlotSafety | server/backend/worker.cpp:434-443 | in every reachable state of a group, outstanding packets with different numbers never share a switch slot, for every number of aggregators that `SlotsDistinctIff` allows |
| Cluster.SlotsDistinctIff | server/backend/worker.cpp:443 | close numbers have different slots across the 32-bit wrap if and only if the number of aggregators divides 2^32 or, being odd, divides 2^32 + 1 |
| CongestionControl.AlwaysBounded | server/backend/worker.cpp:594-627 | on every run, minimum <= cwnd <= target, cwnd below 1041 and target below 1057.25, without an explicit cap |
| CongestionControl.ReactsIff | server/backend/worker.cpp:629-658 | a reaction takes place if and only if one is due; it stamps the time and takes the notes back |
| CongestionControl.CongestedReaction | server/backend/worker.cpp:601-607 | every reaction to congestion brings the loss estimate a 256th nearer to one and lowers cwnd strictly, by half that estimate, down to the minimum at most |
| CongestionControl.QuietReaction | server/backend/worker.cpp:610-627 | without congestion the estimate decays, and a window that was used goes half of the way to its target |
| CongestionControl.TimeoutReaction | server/backend/common.hpp:80-86 | a timeout falls to the minimum, aims at the rate before, and rests for 10 us |
| CongestionControl.Persistent | server/backend/worker.cpp:601-605 | after k reactions to congestion in a row one minus the loss is (255/256)^k of what it was, and cwnd what the product of the halved losses leaves, or the minimum |
| CongestionControl.ReachesMinimum | server/backend/worker.cpp:594-627 | so congestion that persists brings cwnd to its minimum, whatever happened before |
| CongestionControl.ElapsedExact | server/backend/worker.cpp:634 | differences of the 32-bit time stamps are the true times, across the wrap |
| CongestionControl.BelowRingIff | server/backend/worker.cpp:534 | cwnd stays below 1024 on every run whose bursts end with at most H packets in the window, if and only if H < 1021 |
| Wiring.BelowRingAsWired | server/backend/worker.cpp:529-534 | with the controller's aggregators no window exceeds 512 packets, and cwnd stays below 1024 over every run |
| CongestionControl.Controller.AdjustRate | server/backend/worker.cpp:594-627 | the method computes the decrease or the increase of the recurrence |
| CongestionControl.Controller.CongestionControl | server/backend/worker.cpp:629-658 | reaction timing and choice of direction; the bounds are kept |
| CongestionControl.Controller.ReinitAt | server/backend/common.hpp:80-86 | the restart after a timeout keeps the bounds |
| Ring.PositionExact | server/backend/worker.cpp:206-228 | 32-bit subtraction and the addition that wraps around the ring give the slot of the named packet, or none |
| Ring.EmptyByEdges | server/backend/worker.cpp:181-190 | the published edges meet exactly when the window is empty, and their ring distance is the window's length |
| WorkerThread.Worker.WindowLen | server/backend/worker.cpp:187-190 | ring distance equals the length of the unbounded window |
| WorkerThread.Worker.GetPosition | server/backend/worker.cpp:206-228 | returns the slot of the unique window packet that the arriving packet names, else the invalid position |
| WorkerThread.Worker.Transmit | server/backend/worker.cpp:230-242 | hands the slot's packet, unchanged, to the transmit buffer |
| WorkerThread.Worker.TransmitRange | server/backend/worker.cpp:244-248 | sends the entries between two slots in order, across the end of the ring |
| WorkerThread.Worker.TransmitUnacked | server/backend/worker.cpp:250-260 | sends exactly the unacknowledged ones |
| WorkerThread.Worker.RunBefore | server/backend/worker.cpp:290-297 | the backward walk stops at the start of the maximal unacknowledged run |
| WorkerThread.Worker.CollectRetrans | server/backend/worker.cpp:287-304 | resends that run |
| WorkerThread.Worker.PushRequest | server/common/common.hpp:110-118 | refused exactly without credits, otherwise the posting step |
| WorkerThread.Worker.PopResponse | server/common/common.hpp:135-146 | takes responses in posting order |
| WorkerThread.Worker.Accept | server/backend/worker.cpp:342-351 | marks the entry and stores its result in shared memory |
| WorkerThread.Worker.RetransBefore | server/backend/worker.cpp:376-379 | fast retransmission only when something before is missing |
| WorkerThread.Worker.RxProcessOne | server/backend/worker.cpp:311-380 | takes the receive step of the transport, on 32-bit numbers; counts exactly the fresh acknowledgements and notes a loss exactly when something is resent |
| WorkerThread.Worker.RxProcess | server/backend/worker.cpp:394-409 | a batch of packets, then one release, with the same counts |
| WorkerThread.Worker.CompletePkt | server/backend/worker.cpp:262-270 | the last packet of a sub-operation pushes its response |
| WorkerThread.Worker.ReleaseAcked | server/backend/worker.cpp:277-282 | the loop releases exactly the acknowledged prefix |
| WorkerThread.Worker.ShiftAckEdge | server/backend/worker.cpp:272-285 | the release step, with the left edge published |
| WorkerThread.Worker.TakeSubOp | server/backend/worker.cpp:474-499 | a sub-operation is taken exactly when the model can generate |
| WorkerThread.Worker.FillPkt | server/backend/worker.cpp:411-467 | header, aggregator address and padded payload of the packet |
| WorkerThread.Worker.WritePacket | server/backend/worker.cpp:500-517 | writes the next packet's state into the slot and pops the request after the last packet |
| WorkerThread.Worker.GenPkt | server/backend/worker.cpp:470-518 | generates the next packet of the log, or nothing when the guard says so |
| WorkerThread.Worker.SendOne | server/backend/worker.cpp:535-537 | one packet of a burst, with the left edge set for an empty window |
| WorkerThread.Worker.BurstLoop | server/backend/worker.cpp:533-541 | the loop is the model's burst although the right edge is not published meanwhile |
| WorkerThread.Worker.WindowGoal | server/backend/worker.cpp:529-532 | the four-way minimum |
| WorkerThread.Worker.ShiftSendEdge | server/backend/worker.cpp:520-546 | the send step, with the right edge published |
| WorkerThread.Worker.FullRetransAt | server/backend/worker.cpp:558-572 | nothing for an empty window, else every unacknowledged packet again and a rate restart |
| WorkerThread.Worker.TxProcess | server/backend/worker.cpp:574-591 | timeout decision, retransmission, burst, in this order, and the time stamps they leave |
| WorkerThread.Worker.React | server/backend/worker.cpp:691 | congestion control leaves the window alone |
| ProcessBuffers.ProcessBuffer.FlushOnce | server/backend/process_buffer.hpp:89-97 | whatever part of a burst the card takes, accepted plus buffered packets are unchanged |
| ProcessBuffers.ProcessBuffer.Flush | server/backend/process_buffer.hpp:80-87 | everything buffered is accepted, in order |
| ProcessBuffers.ProcessBuffer.Send | server/backend/process_buffer.hpp:140-147 | accepted plus buffered packets are the packets sent, in order; the buffer is never overrun; nothing is offered to the card before the buffer is full, and then something is |
| ProcessBuffers.ProcessBuffer.Receive | server/backend/process_buffer.hpp:27-33 | packets come out in delivery order, none only when none is left; when the timer has run out, buffered packets are offered to the card |
| ProcessBuffers.ProcessBuffer.Poll | server/backend/process_buffer.hpp:111-121 | polling alone gets everything that was sent to the card |
| QueuePairs.QueuePair.PushRequest | server/common/common.hpp:110-118 | refused exactly when all 1024 credits are used, and otherwise the queue has room |
| QueuePairs.QueuePair.PopResponse | server/common/common.hpp:142-146 | returns a credit |
| CopyBuffers.FreesOldestIff | server/frontend/src/c/common.hpp:72-83 | a free releases exactly the oldest block, with both assertions holding, if and only if the block does not end on the last byte |
| CopyBuffers.ExactFitFails | server/frontend/src/c/common.hpp:66-68 | a run of five allocations and four frees, of segment sizes, after which the assertion of the next free fails |
| Wiring.ExactFitIsTwoCalls | server/frontend/src/c/api.cpp:237-250 | these are the segments of two calls |
| CopyBuffers.AllocAppends | server/frontend/src/c/common.hpp:60-71 | an allocation that fits appends a block to the queue of live blocks |
| CopyBuffers.AvailableIff | server/frontend/src/c/common.hpp:55-59 | a size is available if and only if its block has free bytes where it would be placed and the head does not come to meet the tail |
| CopyBuffers.LiveApart | server/frontend/src/c/common.hpp:47-49 | live blocks are in bounds and pairwise disjoint |
| CopyBuffers.AlwaysSound | server/frontend/src/c/common.hpp:47-84 | over every run in which no block ends on the last byte, head and tail represent exactly the live blocks and every free passes its assertions |
| CopyBuffers.EvenSound | server/frontend/src/c/common.hpp:47-84 | even sizes are such a run |
| CopyBuffers.RunsWellIff | server/frontend/src/c/common.hpp:60-83 | a run that frees all its blocks passes every assertion, each free releasing the oldest block, if and only if none of the blocks that its sizes get ends on the last byte, whenever they are freed |
| Wiring.CallsRunWellIff | server/frontend/src/c/api.cpp:233-257 | the same for a sequence of calls: exactly which sizes, one call after the other, never fail |
| CopyBuffers.CopyBuffer.FifoAllocate | server/frontend/src/c/common.hpp:60-71 | refused exactly when the size exceeds the available space; else the new block joins the queue |
| CopyBuffers.CopyBuffer.FifoFree | server/frontend/src/c/common.hpp:72-83 | releases the oldest block |
| CopyBuffers.OpBuffer.FifoAllocate | server/frontend/src/c/common.hpp:95-102 | slots in turn, refused exactly when all are live |
| CopyBuffers.SlotsDistinct | server/frontend/src/c/common.hpp:86-107 | live operations never share a slot |
| Frontends.Frontend.CreateOp | server/frontend/src/c/api.cpp:153-187 | takes the next slot and a new block, apart from all live ones |
| Frontends.Frontend.DestroyOp | server/frontend/src/c/api.cpp:189-196 | releases the oldest slot and the oldest block |
| Frontends.Frontend.RecvAllResp | server/frontend/src/c/api.cpp:200-207 | destroys exactly the operations whose responses are back |
| Frontends.Frontend.TryPostSub | server/frontend/src/c/api.cpp:213-226 | one round of the waiting loop: clears responses and then posts if and only if the pipeline can create the operation, which it then has; a segment always fits when all operations are answered; the push is never refused |
| Partition.CutLoop | server/frontend/src/c/api.cpp:233-251 | the segmentation loop |
| Partition.CutShape | server/frontend/src/c/api.cpp:237-250 | place and size of every segment; exactly the first is marked first and exactly the last is marked last |
| Partition.ShareTotal | server/backend/load_balancer.cpp:74-89 | the shares fill a segment exactly, for any size and number of workers |
| Partition.ShareBalanced | server/backend/load_balancer.cpp:72-80 | the shares differ by one word at most |
| Partition.SharesApart | server/backend/load_balancer.cpp:72-88 | shares lie apart when they differ |
| Partition.AggregatorsApart | server/backend/load_balancer.cpp:82-83 | the workers' aggregator ranges are disjoint and inside the group's |
| Partition.CarriedOnce | server/backend/worker.cpp:490-506 | every byte of a collective travels in exactly one packet, for every size and number of workers |
| Partition.CarriesOnlyInside | server/backend/worker.cpp:503-504 | no packet carries bytes outside |
| LoadBalancers.LoadBalancer.TryPostOp | server/backend/load_balancer.cpp:58-91 | forks the oldest request into one share per worker, or does nothing when there is none |
| LoadBalancers.LoadBalancer.TryCompleteOp | server/backend/load_balancer.cpp:39-56 | joins exactly when every worker has answered, and answers the operation of the last response |
| LoadBalancers.LoadBalancer.NewSubOp | server/backend/load_balancer.cpp:79-84 | the loop body's sub-operation, which starts where the previous one ended |
| Daemons.Daemon.TryPostOp | server/frontend/src/c/daemon.cpp:64-104 | the two-step forwarding: start the copy, later forward, or wait |
| Daemons.Daemon.TryCompleteOp | server/frontend/src/c/daemon.cpp:8-62 | the same towards Python |
| Pipeline.AlwaysSafe | server/backend/load_balancer.cpp:106-112 | over every interleaving of all threads and any number of workers, the invariant holds and no assertion or push of the source fails |
| Pipeline.AssertsHold | server/frontend/src/c/daemon.cpp:53-55 | every assertion at every enabled step, from the invariant alone |
| Pipeline.CreditsNest | server/common/common.hpp:98-147 | outstanding requests nest: workers within shared memory within Python within the slot ring of 1024 |
| Pipeline.EveryJoinMatches | server/backend/load_balancer.cpp:46-54 | all responses at a join are shares of the oldest unanswered operation, which is answered once and in order |
| Pipeline.AlwaysPlaced | server/frontend/src/c/common.hpp:60-71 | over every run the ring's head is where the sizes so far leave it, however the threads took turns |
| Pipeline.NextCallSuitsIff | server/frontend/src/c/api.cpp:233-251 | so whether a call suits the ring is a condition on its size and the sizes before it |
| Pipeline.EveryFreeIsOldest | server/frontend/src/c/api.cpp:189-207 | the operation taken back is the oldest live one and exactly its block is released |
| Pipeline.OneGroupLive | server/frontend/src/c/api.cpp:252-254 | everything between Python and the workers is of the current call's group |
| Pipeline.CopiedOnce | server/frontend/src/c/daemon.cpp:75-96 | each operation is copied once in each direction it needs, in order, before it is passed on |
| Pipeline.CreateKeeps | server/frontend/src/c/api.cpp:222-225 | creation keeps slots, blocks, queues and segment list in step |
| Pipeline.ForksKeeps | server/backend/load_balancer.cpp:69-89 | a fork appends one share to every worker |
| Pipeline.JoinsKeeps | server/backend/load_balancer.cpp:46-54 | a join removes one share from every worker |
| PipelineProgress.StepUsesWork | server/frontend/src/c/api.cpp:213-225 | within a call every step uses up work if and only if it is not an idle poll |
| PipelineProgress.NeverStuck | server/frontend/src/c/api.cpp:252-254 | until the call returns some thread can get something done; an empty ring always has room for a segment; `Liveness` adds what the workers do |
| PipelineProgress.CallTakesBoundedSteps | server/frontend/src/c/api.cpp:233-257 | a call takes a bounded number of steps, idle polls aside |
| SharedMemory.StepFrame | server/backend/worker.cpp:342-351 | a worker's step changes no byte outside its unanswered sub-operations |
| SharedMemory.ForeignWrite | server/backend/worker.cpp:346-351 | a write that avoids a worker's live regions disturbs nothing of it |
| SharedMemory.OwnStepKeeps | server/backend/worker.cpp:660-691 | answered regions stay in place while the worker goes on |
| EndToEnd.AlwaysSysInv | server/backend/load_balancer.cpp:106-112 | over every run of all threads, all workers and the shared bytes, every assumption of every part holds |
| EndToEnd.EveryForkCanPost | server/backend/load_balancer.cpp:84-87 | every fork gives every worker a request of its current group in a region of its own |
| EndToEnd.EveryAccessInBounds | server/frontend/src/c/daemon.cpp:26 | every copy and every share lies inside the copy buffer and the tensor, and every assertion holds |
| EndToEnd.EveryCopyInBounds | server/frontend/src/c/daemon.cpp:26 | so does whatever a copy writes while it is under way |
| EndToEnd.CopiesKeeps | server/frontend/src/c/daemon.cpp:31-40 | while a copy is under way the bytes at its destination may be anything, and no invariant minds |
| EndToEnd.EveryForwardCopied | server/frontend/src/c/daemon.cpp:64-104 | over every run, an operation that needs a copy is passed on if and only if the copy was started at an earlier step and its event says finished |
| EndToEnd.WorkIsServed | server/backend/worker.cpp:474-516 | whatever a worker does, its queue allows |
| EndToEnd.CallDelivers | server/frontend/src/c/api.cpp:233-257 | when a call that receives has returned, every byte of the tensor is the byte the network answered for the packet at its home |
| EndToEnd.CallPreserves | server/frontend/src/c/api.cpp:233-257 | when a call that only sends has returned, the tensor is unchanged |
| EndToEnd.EveryPacketFromTensor | server/backend/worker.cpp:458-466 | every transmission of the current call carries the bytes that the call found in the tensor at that packet's place |
| EndToEnd.EveryHeaderRight | server/backend/worker.cpp:424-445 | over every run, every transmission has its host's rank, its operation's root, code, group and switch, the sequence number of its place, and a payload exactly when the host sends |
| Liveness.GeneratesIff | server/backend/worker.cpp:529-532 | a first burst on an empty window sends something if and only if the limit is positive |
| Liveness.WorkNeverRises | server/backend/worker.cpp:660-691 | no step of a worker, loss and repetition included, undoes progress |
| Liveness.NextUseful | server/backend/worker.cpp:660-691 | while a worker has unanswered requests, some step of its own or an answer to a packet it sent makes progress |
| Liveness.NeverBack | server/frontend/src/c/api.cpp:233-257 | within a call no step of any thread undoes progress |
| Liveness.CanFinish | server/frontend/src/c/api.cpp:252-254 | from every reachable state the threads and a network that delivers can bring the call to its end |
| Liveness.EveryCallCanDeliver | server/frontend/src/c/api.cpp:233-257 | so every receiving call, at whatever point of whatever run, has a continuation after which every byte is delivered |
| Fairness.EveryCallReturns | server/backend/worker.cpp:660-691 | on every run without end on which threads get their turns, copies finish, and what is sent for ever is answered, every call returns |
| Fairness.EveryCallDelivers | server/frontend/src/c/api.cpp:233-257 | and every byte of its tensor has then been delivered |
| Fairness.IdleStep | server/backend/worker.cpp:660-691 | a step that brings no progress changes nothing but what is on the wire |
| Aggregators.AnswerIsSum | switch/ingress.p4:275-303 | whatever packets came before, a packet is answered exactly when the slot has seen all members since it was given to the version, and then with the sum of one packet of each: to all members if it completes the version, else to its sender |
| Aggregators.AnswerStays | switch/aggregator.p4:76-79 | packets that are sent again read the same answer and change nothing |
| Aggregators.SameVersionIff | switch/ingress.p4:199-204 | two packets have one version if and only if they are of one group and their numbers a multiple of 2^24 apart |
| Collectives.SameSerial | server/backend/worker.cpp:487-506 | hosts that have had the same operations of a group give each packet of a call the same number |
| Collectives.AlwaysRecorded | server/frontend/src/c/api.cpp:233-251 | over every run, the operations of a group are the segments of the calls to it |
| Collectives.HeaderOf | server/backend/worker.cpp:424-445 | a packet of the call has its host's rank, the call's root, code, group and switch, and the aggregator that its number and worker stand for |
| Collectives.ArrivalsSent | switch/ingress.p4:226-275 | by the ranks in their headers an aggregator tells the hosts' packets apart |
| Collectives.SentWord | server/backend/worker.cpp:458-466 | a host's packet, read by the switch, has the words that the call found at the packet's place |
| Collectives.GotWord | server/backend/worker.cpp:346-351 | a word of the returned tensor is the word answered for the packet at its place, and no word lies in two packets |
| Collectives.AllReduceSums | server/frontend/src/c/api.cpp:229-258 | when hosts have returned from an all-reduce, every word of every tensor is the saturating sum, each host's word taken once, of what they called with; the exact sum if it fits |
| Collectives.ReduceSums | server/frontend/src/c/api.cpp:229-258 | after a reduction the root has the sum of the others' words |
| Collectives.BroadcastCopies | server/frontend/src/c/api.cpp:229-258 | after a broadcast every tensor is the root's, byte for byte |
| Collectives.AllReduceOfReals | server/frontend/src/py/__init__.py:395-414 | every host ends within n divided by the factor of the true sum, through all threads, the network and the switch |
| Collectives.ReduceOfReals | server/frontend/src/py/__init__.py:408-414 | so does the root of a reduction, within n - 1 divided by the factor |
| Realised.SamePayload | server/backend/worker.cpp:458-466 | what a packet with a given number carries depends on the call and its tensor only, not on how the threads ran or what the network answered |
| Realised.LastAnswered | switch/forward.p4:54-56 | the packet that completes a version is answered |
| Realised.AnyCollective | server/frontend/src/c/api.cpp:229-258 | for any number of hosts and workers, any collective and any tensors there are runs that meet all premises of the results on hosts and switch: the hosts' packets as their headers stand meet at one aggregator and are answered with their payload to all that receive |
| Realised.AnyCallFairly | server/frontend/src/c/api.cpp:233-257 | for any call there is a fair run on which it is made |
| Segments.IsPower2Iff | switch/bfrt_grpc.py:54-55 | the bit trick accepts exactly the powers of two |
| Segments.InvalidIff | switch/bfrt_grpc.py:100-103 | exactly the sizes other than a power of two of packets are refused |
| Segments.NoFragmentation | switch/bfrt_grpc.py:100-108 | with aligned boundaries the first fit is the start of the first free segment whenever any memory is free |
| Segments.AllocKeeps | switch/bfrt_grpc.py:110-122 | an allocation removes exactly its range and keeps order and alignment |
| Segments.FreeFailsIff | switch/bfrt_grpc.py:126-131 | a release gives up exactly when part of the range is free already |
| Segments.FreeKeeps | switch/bfrt_grpc.py:124-143 | otherwise it adds exactly its range and keeps order and alignment, stale index included |
| Segments.CoalescedIff | switch/bfrt_grpc.py:136-143 | the list stays coalesced if and only if free memory does not touch both sides |
| Wiring.TwoSidedMergeFails | switch/bfrt_grpc.py:136-142 | for any members that fit, a run of the controller that leaves touching segments |
| Groups.UndoReturns | switch/bfrt_grpc.py:158-200 | running a group's undo list backwards returns exactly what its creation took, whatever happened in between |
| Groups.MemberUndoRemoves | switch/bfrt_grpc.py:186-193 | the members' part of the list removes exactly their table entries |
| GroupRuns.CreateKeeps | switch/bfrt_grpc.py:145-209 | creation, granted or refused, keeps free and live memory, numbers, nodes, counters, tables and log in step |
| GroupRuns.DestroyKeeps | switch/bfrt_grpc.py:211-219 | so does destruction, of a live group or not |
| GroupRuns.Run | switch/bfrt_grpc.py:68-219 | over every run of requests, free and live resources partition the pools, recirculation counters count live groups, and the tables mention exactly the live groups |
| GroupRuns.PoolCount | switch/bfrt_grpc.py:163-170 | free plus taken is the whole pool |
| GroupRuns.GrantedIff | switch/bfrt_grpc.py:151-156 | after any run a group is granted if and only if fewer than sixteen are live and enough nodes are left |
| GroupRuns.LiveGroupsApart | switch/bfrt_grpc.py:155-156 | live groups share no aggregator and no node |
| GroupRuns.AggregatorsAreMemory | switch/bfrt_grpc.py:155-156 | the aggregators that a group is told of are exactly those in its memory |
| GroupRuns.DestroyReturnsExactly | switch/bfrt_grpc.py:211-219 | after any run, destruction returns all of the group's resources and nothing else, and never stops the controller |
| Controllers.Controller.Reinit | switch/bfrt_grpc.py:68-86 | everything is free again |
| Controllers.Controller.SelectRecir | switch/bfrt_grpc.py:97-98 | the first least used port |
| Controllers.Controller.Fit | switch/bfrt_grpc.py:100-108 | the loop finds the first fit |
| Controllers.Controller.Alloc | switch/bfrt_grpc.py:110-122 | the list edits cut the range out |
| Controllers.Controller.Free | switch/bfrt_grpc.py:124-143 | the list edits of a release, or the failure |
| Controllers.Controller.AddAll | switch/bfrt_grpc.py:186-193 | the member loop writes the entries and logs their opposites |
| Controllers.Controller.CreateGroup | switch/bfrt_grpc.py:145-209 | the creation step, its answer, and the invariant |
| Controllers.Controller.DestroyGroup | switch/bfrt_grpc.py:211-219 | the undo loop is the destruction step, and the invariant |
| Quantise.PartialSumFits | server/frontend/src/py/__init__.py:370-375 | every sum over any of the ranks fits 32 bits |
| Quantise.AnyOrderIsExact | server/frontend/src/py/__init__.py:395-404 | in any order and grouping, nothing saturates and the additions give the exact sum |
| Quantise.TreeIsExact | switch/aggregator.p4:20-28 | for any integers: if no sum over some of them leaves 32 bits, saturating additions in any order are exact |
| Quantise.EndsAtBound | switch/aggregator.p4:20-28 | values of one sign that are too large in sum end at the largest value of that sign |
| Quantise.AllReduceAccurate | server/frontend/src/py/__init__.py:409-414 | the scaled-back sum is within n divided by the factor of the true sum |
| Quantise.ReduceAccurate | server/frontend/src/py/__init__.py:412-414 | for a reduction with the root's own value untruncated, within n - 1 divided by the factor |
| Quantise.SkipIsExact | server/frontend/src/py/__init__.py:381-383 | when all announce zero, every rank already holds the sum |
| Quantise.AllReduceTensor | server/frontend/src/py/__init__.py:366-414 | all three decisions for whole tensors: exact, fallback only for tiny magnitudes, or within the bound |
| Quantise.Prepare | server/frontend/src/py/__init__.py:373-396 | the in-place scaling, truncation and decision |
| Quantise.Finish | server/frontend/src/py/__init__.py:408-414 | the in-place result for every role |

## Left out

- Packet I/O setup, flow rules, processor discovery, shared-memory creation, header prefill (`server/backend/main.cpp`, `server/backend/net_utils.hpp`): library plumbing.
- The switch program apart from an aggregator: forwarding, multicast, address rewriting, congestion marks. The two passes through an aggregator are one step, a bitmap is a set of ranks, and groups have at most 32 members as the bitmap has bits.
- Remote calls, printing, and execution of strings: an undo entry is a constructor with an interpreter; an exception in the middle of a creation is not modelled, nor is the reset of the aggregators' bitmap, which has no undo.
- Streams, events and futures: a copy is finished when a boolean parameter says so; until then its destination may hold anything; `is_first` and `is_last` only order streams.
- Weak memory order and the inside of the queues between threads.
- Floating-point rounding in rate control and in quantisation, and the not-a-number fallback.
- The caching of time stamps; the time is a parameter.
- ECN bits: the worker ORs the type-of-service bytes it sees, the model keeps one boolean that an arriving packet may set.
- Late reads of a reused packet buffer by the card: a packet is a value from the moment it is sent.
- Received packets of wrong length, statistics, logging, loop-back test modes and `traffic_todo`.
- `need_rx` in `call_collective` compares a group rank with a global rank; `Quantise` takes a role instead.
- reduce_scatter and all_gather, which the Python code builds from reduce and broadcast.
- Quantise.AllReduceTensor: adds integers in any order; that the network does so is `Collectives.AllReduceSums`.
- Steps inside a worker: a burst and a release of acknowledged packets are single steps, so postings, joins and arrivals between their sub-steps are not interleaved; nor is a copy's last write with the query that finds it finished.
- Group numbers that the controller gives out again: a worker's sequence counter for the number goes on, and `Collectives.SameCalls` compares all calls to the number.
- WorkerThread.Worker.RxProcess: a finite batch stands for the loop that polls the card until it is nearly empty.
- Frontends.Frontend.TryPostSub: one round of the waiting loop; that the loop ends is `Fairness.EveryCallReturns`, to whose step `Pipeline.Create` the method is tied.
- Daemons.Daemon.TryPostOp: the flag of an operation is an element of a set keyed by its slot, not a field of a second object.
- CongestionControl.Controller.AdjustRate: the increase counter is an unbounded integer.
