# Proofs about the uplink pipeline and the nFAPI TLV codec

This Dafny project models two parts of the multi-UE nFAPI proxy and proves properties of them.

**The uplink pipeline** (`src/queue.c`, `src/nfapi_pnf.c`). Threads of the simulated UEs put packets
into one ring buffer per UE. A subframe thread (LTE) or a slot thread (NR) drains all buffers into a
batch that should share one frame, pushes back the first packet of another frame, groups the batch
by message id and merges each group into one bounded indication. In NSA mode the two threads meet at
a barrier built from a mutex, a condition variable and the variable `sf_slot_tick`. One model with
the air interface as a parameter serves LTE (10 subframes, shift 4) and NR (20 slots, shift 6).

| file | module | part |
|---|---|---|
| `Words.dfy`, `Wrappers.dfy` | `Words`, `Wrappers` | machine words, optional values |
| `Frames.dfy` | `Frames` | frame arithmetic and the clocks |
| `Queue.dfy` | `RingQueue` | the ring buffer, in place |
| `Messages.dfy` | `UplinkMessages` | packet headers |
| `Dequeue.dfy`, `DequeueTask.dfy`, `Batch.dfy` | `Dequeue`, `DequeueTask`, `Batches` | draining the queues: specification, and in place |
| `BatchFrames.dfy`, `FrameBytes.dfy` | `BatchFrames`, `FrameBytes` | which batches mix frames; the frame of a packet, from its bytes |
| `Grouping.dfy`, `GroupingTask.dfy` | `Grouping`, `GroupingTask` | grouping the batch: specification, and in place |
| `Aggregation.dfy` | `Aggregation` | merging a group |
| `Pipeline.dfy` | `Pipeline` | all interleavings of the UE threads with the draining thread |
| `PipelineCalls.dfy` | `PipelineCalls` | what one dequeue call does in an interleaving |
| `PipelineRuns.dfy` | `PipelineRuns` | runs against what happens outside: arrivals, possible steps, what is sent |
| `Barrier.dfy` | `Barrier` | all interleavings of the two threads at the barrier |

**The TLV codec** (`open-nFAPI/nfapi/src/nfapi.c`, `open-nFAPI/nfapi/src/nfapi_p4.c`): big-endian
cursors, TLVs whose length is filled in afterwards, the list parsers with their tolerance for bad
tags, the padding of NR TLVs, the P4 messages and the DCI payload.

| file | module | part |
|---|---|---|
| `Cursor.dfy` | `Cursors` | push and pull on a buffer |
| `Formats.dfy`, `ValueCodec.dfy` | `Formats`, `ValueCodec` | TLV values as data, their codec, and the codec on a buffer |
| `Tlv.dfy`, `TlvTask.dfy` | `Tlv`, `TlvTask` | TLVs and TLV lists: specification, and on a buffer |
| `TlvStreams.dfy` | `TlvStreams` | the language that the list parsers accept |
| `P4.dfy`, `P4Task.dfy` | `P4`, `P4Task` | packing and unpacking messages: specification, and on a buffer |
| `P4Wire.dfy` | `P4Wire` | the bytes of the messages, by ids and tags |
| `Dci.dfy`, `DciTask.dfy` | `Dci`, `DciTask` | the DCI payload: wire form, and in place |

Imperative code is modelled by methods on classes and arrays, each proved against a function on
values; the lemmas about these functions are the results. Protocols are modelled as sequences of
atomic steps, because every queue operation and every barrier section runs under a mutex.

## Where a property fails

The code is kept as it is; where a property one would expect does not hold, the exact condition is
proved.

- A batch can mix frames, because the word 0xFFFF of a packet also means "no master yet"
  (`Dequeue.MixedBatchExists`). What a call removes shares one frame exactly under the condition of
  `Dequeue.DequeueOneFrame`, and what it batches exactly under that of `BatchFrames.BatchOneFrame`;
  `PipelineCalls.CallOneFrame` has the condition for all interleavings, where a call can also lose a
  packet of another frame, because the queue has filled up before it is pushed back.
- The window test uses a plain difference. It takes packets for late that are ahead across the wrap
  of the frame numbers, and lets packets through that are late across it (`Frames.WindowTest` has the
  exact range of differences, `Frames.WindowTestFails` an input on each side).
- `sfn_sf_add` is exact unless its 16-bit sum overflows (`Frames.SfnSfAddExact`,
  `Frames.SfnSfAddFails`).
- A sent count is the length of the list unless more than a hundred PDUs were scanned
  (`Aggregation.CountExact`, `Aggregation.CountWraps`).
- The barrier is not a lock-step: either thread can get any number of passes ahead
  (`Barrier.UnboundedDrift`); the exact counting law is part of `Barrier.AlwaysSafe`.
- A vendor TLV without a callback is not passed over: the parser goes on inside its value. That does
  no harm exactly when the value and its padding are four-byte vendor headers (`Tlv.VendorIgnored`,
  `Tlv.VendorValueBreaks`).
- The loops that pack lists do not check their counts, unpacking does (`Formats.DecodeEncode`): a cell
  search indication with nine LTE cells is packed and refused (`P4.CellSearchRefused`). And an NB-IoT
  system information request is packed but never accepted (`P4.NbIotRequestRefused`).
- `unpack_dci_payload` keeps what the receiving buffer holds beyond the payload (`Dci.DciRoundTrip`,
  `Dci.LeftoverRecovered`).

## Model

| member | source | states |
|---|---|---|
| `RingQueue.LatestMatch` | src/queue.c:136-179 | the item `unqueue_matching` looks for: the latest that the matcher accepts among the last `max_depth`, and none of those when there is no such item |
| `RingQueue.AllShifted` | src/queue.c:159-173 | when the shift loop has come to the tail and freed it, the ring holds the old items without the matched one, on every ring state, wrapped or full |
| `RingQueue.Queue.constructor` | src/queue.c:33-37 | a new queue is valid and empty |
| `RingQueue.Queue.Put` | src/queue.c:39-65 | appends at the tail exactly when fewer than 512 items are queued; otherwise nothing changes; the asserted cell is free |
| `RingQueue.Queue.Get` | src/queue.c:67-87 | removes and returns the head, or nothing exactly when the queue is empty |
| `RingQueue.Queue.Requeue` | src/queue.c:91-115 | puts an item back before the head exactly when there is room, in a free cell |
| `RingQueue.Queue.Unqueue` | src/queue.c:117-134 | removes and returns the tail |
| `RingQueue.Queue.RemoveAt` | src/queue.c:159-173 | the shift loop ends, removes one item anywhere and keeps the order of the others and the ring invariant |
| `RingQueue.Queue.UnqueueMatching` | src/queue.c:136-179 | returns and removes `LatestMatch`, and changes nothing when there is none |
| `Frames.PositionInjective` | src/nfapi_pnf.c:3839-3857 | a valid frame word is determined by the unit count that the delta functions compute |
| `Frames.WindowTest` | src/nfapi_pnf.c:3839-3857 | the plain difference d tells exactly the packets that are behind by more than the window, by the shorter way round the circle of frames, if and only if d is at most half the period or the window, and not between the window minus the period and minus half the period |
| `Frames.WindowTestFails` | src/nfapi_pnf.c:4061-4070 | a packet one subframe ahead that is thrown away as late, and one 240 subframes late that is let through |
| `Frames.SfnSfAddExact` | src/nfapi_pnf.c:3859-3869 | `sfn_sf_add` gives a valid word, and adds modulo 10240 exactly when the 16-bit sum does not overflow |
| `Frames.SfnSfAddFails` | src/nfapi_pnf.c:3859-3869 | an addition that overflows: 55297 added to 1023.9 gives 0.0 and not 409.6 |
| `Frames.SfnSfAddCompose` | src/nfapi_pnf.c:3859-3869 | two additions are one addition of the sum, up to the overflow |
| `Frames.SfnSlotAddExact` | src/nfapi_pnf.c:3871-3875 | `sfn_slot_add` adds modulo 20480, for every 16-bit addend |
| `Frames.SfnSlotAddCompose` | src/nfapi_pnf.c:3871-3875 | two additions of slots are one addition of the sum, for all addends whose sum is one |
| `Frames.Clock.SlotAdd` | src/nfapi_pnf.c:3871-3875 | the two assignments, the second of which reads the old slot, leave a valid clock as `Frames.SfnSlotAdd` says |
| `Frames.Clock.Tick` | src/nfapi_pnf.c:4195-4219 | one counter step, and the packed word of the new frame and unit |
| `Frames.CounterStepsAdd` | src/nfapi_pnf.c:4195-4219 | k counter steps add k modulo 10240 or 20480 |
| `Frames.TwoSlotsPerSubframe` | src/nfapi_pnf.c:4347-4371 | LTE after k steps and NR after 2k show the same frame, with the slot twice the subframe |
| `Dequeue.DrainUeSuffix` | src/nfapi_pnf.c:4023-4079 | the loop for one UE leaves a suffix of its queue, empty unless it stopped early |
| `Dequeue.DrainUeBlocked` | src/nfapi_pnf.c:4042-4059 | it stops early only at a well-formed packet of another frame than the master, and never changes a master word that is set |
| `Dequeue.DrainUeAccounts` | src/nfapi_pnf.c:4031-4079 | the batched packets are exactly the first eight of those removed that are well formed and in the window, in order; all others are freed, in order; together they are a merge of what was removed |
| `Dequeue.DequeueOneFrame` | src/nfapi_pnf.c:4022-4059 | a call removes well-formed packets of one frame exactly when the first well-formed packet queued does not carry 0xFFFF, or all of them carry it |
| `BatchFrames.BatchOneFrame` | src/nfapi_pnf.c:4022-4079 | the batch of a call has one frame exactly when the first well-formed packet queued does not carry 0xFFFF, or all do, or the first other frame is out of the window, or no packet of it gets into the batch beside those of 0xFFFF |
| `BatchFrames.BatchCarriesMaster` | src/nfapi_pnf.c:4022-4079 | every batched packet of every UE carries the final master word or 0xFFFF |
| `FrameBytes.HasFrame` | src/nfapi_pnf.c:2474-2548 | from the bytes: the packets that have a frame are those with one of six (LTE) or five (NR) message ids that are at least 18 or 20 bytes long |
| `FrameBytes.LteFrame` | src/nfapi_pnf.c:2503-2509 | the frame word of an LTE packet is in bytes 16 and 17, most significant first |
| `FrameBytes.NrFrame` | src/nfapi_pnf.c:2540-2549 | an NR packet carries the frame in bytes 16 and 17 and the slot in bytes 18 and 19; valid ones give `Nr.Pack` of the two |
| `FrameBytes.LteAlone` | src/nfapi_pnf.c:4025-4079 | from the bytes: the first packet that a call meets, alone in its queue, is batched exactly when it is at most 200 subframes behind by the plain difference |
| `FrameBytes.NrAlone` | src/nfapi_pnf.c:4094-4151 | the same for NR, with at most 400 slots |
| `Dequeue.MixedBatchExists` | src/nfapi_pnf.c:4022-4059 | two packets of one UE for which the batch mixes frames, in every subframe for which the second is in the window |
| `Dequeue.DequeueAccounts` | src/nfapi_pnf.c:4017-4083 | for each UE of a whole call: the suffix left, the account of what was removed, and that what is left starts with a well-formed packet of another frame |
| `Dequeue.DequeueProgress` | src/nfapi_pnf.c:4023-4082 | with no arrivals, a call on a backlog strictly reduces the packets queued |
| `Dequeue.BacklogDrains` | src/nfapi_pnf.c:4242-4268 | a backlog of n packets is gone after n calls |
| `DequeueTask.DequeueOne` | src/nfapi_pnf.c:4025-4080 | the inner loop on a ring queue and the batch array does what `Dequeue.DrainUe` says, and touches no other UE's slots |
| `DequeueTask.DequeueMessages` | src/nfapi_pnf.c:4017-4151 | `dequeue_ue_msgs` and `dequeue_ue_slot_msgs` leave every queue and every row of the batch as `Dequeue.Drain` says, and free the rest; the result is true exactly when no UE was blocked |
| `DequeueTask.NoneBlockedEmpty` | src/nfapi_pnf.c:4021-4082 | which is exactly when all queues are left empty |
| `Grouping.VisitAllFilters` | src/nfapi_pnf.c:3787-3819 | a scan over packets with nonzero ids finds the id of the first, the first eight packets of that id in order, and the rest of that id as surplus |
| `Grouping.PassesGroupBy` | src/nfapi_pnf.c:3785-3837 | the repeated destructive scans compute a stable group-by: one group for each id, in order of first occurrence, each the first eight packets of its id in order |
| `Grouping.GroupByUnique` | src/nfapi_pnf.c:3785-3837 | that description determines the groups |
| `Grouping.GroupsWellFormed` | src/nfapi_pnf.c:3748-3752 | what the aggregation functions assert: a group has one to eight packets, all of its id |
| `GroupingTask.DequeuedNonzero` | src/nfapi_pnf.c:2489-2501 | what dequeueing batches never carries id 0, which the grouping uses for "none found": the batches meet what `AggregateMessages` requires |
| `GroupingTask.ScanRow` | src/nfapi_pnf.c:3792-3822 | the loop over a UE's slots visits them in order and sets exactly the slots with the found id to NULL |
| `GroupingTask.OnePass` | src/nfapi_pnf.c:3787-3836 | a pass over the batch array takes out one group and its surplus, or finds the batch empty |
| `GroupingTask.AggregateMessages` | src/nfapi_pnf.c:3785-3837 | the loop terminates; the groups are the stable group-by of the batch by (UE, slot), every slot ends NULL and every packet is freed once |
| `Aggregation.CopyPdus` | src/nfapi_pnf.c:2760-2769 | the inner loop appends PDUs to the array as far as it goes |
| `Aggregation.Aggregate` | src/nfapi_pnf.c:2728-2779 | the scan ends at the packet that cannot be unpacked, aborts, fills the list or is last, and the outcome is that packet's |
| `Aggregation.EndUnique` | src/nfapi_pnf.c:2737-2774 | there is only one such packet |
| `Aggregation.SentFirstHundred` | src/nfapi_pnf.c:2931-3023 | what is sent is the first hundred PDUs of the whole group, although the scan may end early |
| `Aggregation.CountExact` | src/nfapi_pnf.c:2758-2769 | the count is the number of entries in use exactly when at most a hundred PDUs were scanned, in spite of the wrapping field |
| `Aggregation.CountWraps` | src/nfapi_pnf.c:3696-3747 | two SRS packets with 99 and 255 PDUs: the list is full and the count is 98 |
| `Aggregation.SuppressedIff` | src/nfapi_pnf.c:2742-2747 | a group is suppressed exactly when the scan reaches a packet that cannot be unpacked |
| `Aggregation.AbortedIff` | src/nfapi_pnf.c:3387-3398 | a group is refused exactly when the scan reaches a packet that its aggregator refuses |
| `Aggregation.RefusedIndications` | src/nfapi_pnf.c:2968-2972 | an empty indication is refused for RX_ULSCH and CQI (LTE) and RX_DATA and UCI (NR), by their ids, and for no others; one that is not empty only for UCI, without an RNTI |
| `Aggregation.CountField` | src/nfapi_pnf.c:3720-3726 | the count that is sent is the number of scanned PDUs modulo 256 for the id 0x88 in NR, and modulo 65536 otherwise |
| `Aggregation.NothingLost` | src/nfapi_pnf.c:3540-3591 | a usable group of at most a hundred PDUs is sent whole, with the right count |
| `Aggregation.GroupAggregates` | src/nfapi_pnf.c:3748-3783 | every group of a batch meets what `Aggregation.Aggregate` asks, with the aggregator that its id picks |
| `Aggregation.GroupSentWhole` | src/nfapi_pnf.c:3748-3783 | a group of a batch whose packets hold PDUs with an RNTI, at most a hundred together, is sent whole, whichever aggregator its id picks (RACH is not aggregated) |
| `Pipeline.AlwaysSafe` | src/nfapi_pnf.c:3785-4083 | in every state of every interleaving: order of each UE's packets, conservation, the capacity of the queues (512) and of the batch rows (8), and well-formed batches |
| `Pipeline.ExactlyOnePlace` | src/nfapi_pnf.c:4017-4083 | each accepted packet is in exactly one place (its queue, in hand between `get_queue` and `requeue`, the batch, left to group, or freed once), and no other packet is anywhere |
| `Pipeline.AggregatedAtMostOnce` | src/nfapi_pnf.c:3785-3837 | a packet is aggregated at most once, and only if accepted |
| `Pipeline.FirstInFirstOut` | src/nfapi_pnf.c:4042-4059 | packets leave a UE's queue for good in the order of acceptance, despite packets pushed back and concurrent arrivals |
| `PipelineCalls.CallOneFrame` | src/nfapi_pnf.c:4022-4079 | in every interleaving, what the present call has removed from the queues, packets lost to a failed `requeue` included, belongs to one frame exactly when none was lost so and the first well-formed packet taken does not carry 0xFFFF or all carry it; under the second condition alone the batch has one frame |
| `PipelineCalls.AlwaysRowsTold` | src/nfapi_pnf.c:4031-4079 | in every interleaving, while a call is dequeuing, each UE's row of the batch holds exactly the first eight well-formed packets in the window that the call has taken from it |
| `PipelineCalls.CallEnds` | src/nfapi_pnf.c:4017-4083 | however packets arrive: with q packets queued at the start of a call and a accepted since, and n UEs, the dequeue loop is over after 2(q + a) + n + 1 steps of the thread, and the grouping after 8n + 1 more |
| `PipelineRuns.AcceptedExactly` | src/nfapi_pnf.c:4382-4440 | in every interleaving, what is accepted from a UE is what was sent under its id, in order and byte by byte, but for keep-alives and for packets that found 512 in its queue |
| `PipelineRuns.AllAccepted` | src/nfapi_pnf.c:4382-4440 | a UE that sends at most 512 packets has all of them accepted, whatever the others and the thread do |
| `PipelineRuns.ArrivalOnly` | src/nfapi_pnf.c:4392-4410 | an arrival changes the one queue it goes into and nothing else |
| `PipelineRuns.CanGoOn` | src/nfapi_pnf.c:4017-4083 | in every state of a run a packet can arrive, between `get_queue` and `requeue` too; the thread can start a call exactly between two, and go on exactly during one |
| `PipelineRuns.CanFinish` | src/nfapi_pnf.c:4017-4083 | from every state of a run the thread can finish its call by its own steps |
| `PipelineRuns.CallSends` | src/nfapi_pnf.c:3785-3837 | in every interleaving, what a call hands to aggregation is the stable group-by of the batch that its dequeue loop has collected |
| `PipelineRuns.CallAlone` | src/nfapi_pnf.c:4238-4268 | a call without arrivals, started in any state of a run: it leaves the queues of the sequential model and sends the group-by of that model's batch |
| `PipelineRuns.HandleMoves` | src/nfapi_pnf.c:4031-4059 | the loop leaves a UE after a packet exactly when that is well formed and of another frame than the master, whether or not there is room to push it back |
| `PipelineRuns.AlwaysLossLeft` | src/nfapi_pnf.c:4042-4059 | after a failed `requeue` the call gets no further packet of that UE |
| `Pipeline.AggregatedInOrder` | src/nfapi_pnf.c:3785-3837 | the packets of one UE with one id reach aggregation in the order the UE sent them, over whole runs |
| `Pipeline.SettleAllDrains` | src/nfapi_pnf.c:4017-4083 | without arrivals the steps compute the drain of the sequential model |
| `Barrier.AlwaysSafe` | src/nfapi_pnf.c:4270-4293 | in every state of every interleaving: at most one thread is away from its loop and the tick says which, and is woken when the tick is complete; LTE passes minus NR passes are LTE overtakes minus NR overtakes plus a term in {-1, 0, 1}; the clocks count the passes |
| `Barrier.CanGoOn` | src/nfapi_pnf.c:4238-4371 | the interleavings exist: in every state of a run, which steps each thread can take depends on its own place only; in its loop it can tick once (LTE) or twice (NR) and then arrive |
| `Barrier.Arrival` | src/nfapi_pnf.c:4270-4285 | either thread, in any state of a run: it passes exactly when the partner's bit is set, and wakes the partner; otherwise it waits with its own bit, 1 or 2, as the tick |
| `Barrier.WakeUps` | src/nfapi_pnf.c:4279-4288 | a woken thread passes and clears the tick exactly when that is 3, and otherwise waits again; a spurious wake-up changes nothing else |
| `Barrier.LoopArrives` | src/nfapi_pnf.c:4238-4371 | from any state of a run a thread at the start of its loop can come to the barrier, with the outcome of `Barrier.Arrival` |
| `Barrier.NoDeadlock` | src/nfapi_pnf.c:4270-4293 | a thread at the barrier can leave at once, or its partner can go on: no deadlock and no lost wake-up |
| `Barrier.WaiterLeavesAfterPartner` | src/nfapi_pnf.c:4275-4288 | a waiter leaves only after its partner has arrived during that wait, also with spurious wake-ups |
| `Barrier.NoOvertakeNoDrift` | src/nfapi_pnf.c:4270-4371 | without overtakes the passes differ by one at most, and the clocks by four slots |
| `Barrier.ClocksMeet` | src/nfapi_pnf.c:4238-4371 | after equally many passes both threads show the same frame, with the slot twice the subframe |
| `Barrier.UnboundedDrift` | src/nfapi_pnf.c:4275-4288 | for every n and either thread a run in which that thread is n + 1 passes ahead of the other, which has been woken |
| `Barrier.PassesHappen` | src/nfapi_pnf.c:4270-4371 | n steps with k spurious wake-ups contain at least (n - 2k - 7) / 4 passes |
| `Cursors.Number16Bytes` | open-nFAPI/nfapi/src/nfapi.c:93-106 | pulling what `push16` wrote gives the number back |
| `Cursors.Number32Bytes` | open-nFAPI/nfapi/src/nfapi.c:123-138 | the same for `push32` |
| `Cursors.BigEndian` | open-nFAPI/nfapi/src/nfapi.c:93-138 | numbers are written most significant byte first |
| `Cursors.Bytes32Number` | open-nFAPI/nfapi/src/nfapi.c:213-225 | pushing what `pull32` read gives the bytes back |
| `Cursors.Unsigned` | open-nFAPI/nfapi/src/nfapi.c:108-121 | signed 16-bit numbers survive their unsigned form |
| `Cursors.Cursor.Push32` | open-nFAPI/nfapi/src/nfapi.c:123-138 | appends four bytes exactly when they fit before the end |
| `Cursors.Cursor.Pull32` | open-nFAPI/nfapi/src/nfapi.c:213-225 | takes four bytes exactly when they are there |
| `Cursors.Cursor.PushArray8` | open-nFAPI/nfapi/src/nfapi.c:478-497 | appends all bytes or none; nothing to append succeeds |
| `Cursors.Cursor.PullArray8` | open-nFAPI/nfapi/src/nfapi.c:457-476 | takes all bytes or none |
| `Formats.DecodeEncode` | open-nFAPI/nfapi/src/nfapi_p4.c:97-123 | for every pack and unpack function that handle the same numbers in the same order, nested counted lists included: unpacking what was packed, before any bytes, gives the value back exactly when every list is within the unpack limits, and fails otherwise |
| `Formats.EncodeDecode` | open-nFAPI/nfapi/src/nfapi_p4.c:711-745 | if packing checks no tighter limit, the bytes that unpacking accepts are those that packing its value gives |
| `Formats.EncodeWithin` | open-nFAPI/nfapi/src/nfapi.c:499-516 | given room, packing fails exactly when a list is longer than a limit that packing checks |
| `Formats.FieldsAgree` | open-nFAPI/nfapi/src/nfapi_p4.c:97-123 | functions that agree field by field agree as a whole |
| `ValueCodec.PackValue` | open-nFAPI/nfapi/src/nfapi_p4.c:59-125 | pushing number by number succeeds exactly when the value can be encoded and fits, and appends that encoding |
| `ValueCodec.UnpackValue` | open-nFAPI/nfapi/src/nfapi_p4.c:645-745 | pulling number by number gives what decoding the unread bytes gives, and never passes the end |
| `Tlv.Padding` | open-nFAPI/nfapi/src/nfapi.c:1099-1101 | padding to a multiple of four, less than four bytes |
| `Tlv.PaddingLeast` | open-nFAPI/nfapi/src/nfapi.c:1099-1101 | no smaller padding reaches a multiple of four |
| `Tlv.WireAligned` | open-nFAPI/nfapi/src/nfapi.c:1025-1063 | an NR TLV takes a multiple of four bytes |
| `TlvStreams.ParseStream` | open-nFAPI/nfapi/src/nfapi.c:648-817 | any sequence of TLVs, known ones with any length field, unknown ones and vendor headers, before any bytes: it is read, and the known ones are stored, exactly when at most three are unknown |
| `TlvStreams.Truncated` | open-nFAPI/nfapi/src/nfapi.c:648-817 | every proper prefix of such a stream: parsing fails exactly when it ends inside a header or a value; between TLVs or inside NR padding the TLVs so far are stored |
| `TlvStreams.AcceptedExactly` | open-nFAPI/nfapi/src/nfapi.c:648-817 | on any bytes: accepted exactly when they are a stream with at most three unknown TLVs, whose last padding may be missing; the stream tells what is stored |
| `TlvStreams.RefusedExactly` | open-nFAPI/nfapi/src/nfapi.c:819-988 | on any bytes: the parser gives up for too many bad tags exactly when a stream with three unknown TLVs comes first and then a header with an unknown tag |
| `TlvStreams.UnknownsIgnored` | open-nFAPI/nfapi/src/nfapi.c:707-724 | inserting unknown TLVs and vendor headers anywhere changes nothing exactly up to three unknown ones |
| `Tlv.VendorIgnored` | open-nFAPI/nfapi/src/nfapi.c:595-603 | a vendor TLV without a callback, put before any bytes, changes nothing for any slots and number of bad tags exactly when its value and padding are a sequence of four-byte headers with vendor tags that are not in the table |
| `Tlv.VendorValueBreaks` | open-nFAPI/nfapi/src/nfapi.c:678-705 | a one-byte vendor value that makes parsing fail |
| `Tlv.ParsePacked` | open-nFAPI/nfapi/src/nfapi.c:648-729 | for every table with distinct tags and any `pack_tlv` calls that match it, LTE or NR: parsing the packed optional TLVs succeeds exactly when every packed list is within its limit, restores those present with the lengths filled in, and leaves the others blank |
| `Tlv.DeliveredOnce` | open-nFAPI/nfapi/src/nfapi.c:648-729 | which determines every slot |
| `TlvTask.PackTlv` | open-nFAPI/nfapi/src/nfapi.c:992-1063 | `pack_tlv` and `pack_nr_tlv` append the whole TLV with its final length, which they also store, or nothing for another tag; they fail exactly when the value cannot be packed or does not fit |
| `TlvTask.MatchTag` | open-nFAPI/nfapi/src/nfapi.c:741-767 | the loop over the table decodes into the one matching row and skips the padding |
| `TlvTask.SkipUnknown` | open-nFAPI/nfapi/src/nfapi.c:769-813 | an unknown TLV is counted and skipped with its padding, or the parser stops |
| `TlvTask.ParseTlvList` | open-nFAPI/nfapi/src/nfapi.c:648-988 | the four list parsers on any bytes: they end, the cursor stays within the end, or three bytes behind it for NR, and the result is that of `Tlv.Parse`, with -1 for too many bad tags only in the P7 parsers |
| `P4Values.SystemInformationRequestFormats` | open-nFAPI/nfapi/src/nfapi_p4.c:507-567 | the four system information requests: what packing pushes is what unpacking pulls, in the same order, with no tighter limits, nested lists included; nine more lemmas of the module say so of the other P4 values |
| `P4Kinds.KindOf` | open-nFAPI/nfapi/src/nfapi_p4.c:1486-1618 | the seventeen message ids and no others have a kind, and in each the `pack_tlv` calls and the unpack table agree in tags, structs and values, the tags are distinct, and every RAT type that unpacking accepts is one that packing sends |
| `P4.MessageRoundTrip` | open-nFAPI/nfapi/src/nfapi_p4.c:1486-1830 | for every message of all seventeen kinds: unpacking the packed bytes succeeds exactly when every sent list is within its limit and a checked RAT type is accepted with its TLV present; the length field is the packed length, the sent TLVs are restored and the others blank |
| `P4Wire.MessageBytes` | open-nFAPI/nfapi/src/nfapi_p4.c:1486-1618 | every packed message of all seventeen ids, by ids and tags as numbers: the header with the packed length, the RAT type or error code, and in the source's order one TLV for each struct that is present, with its tag |
| `P4Wire.AllValues` | open-nFAPI/nfapi/src/nfapi_p4.c:59-745 | for all seventeen ids, by tags: the numbers of each value in order and size, and the limits of its lists in packing and unpacking |
| `P4Wire.Packable` | open-nFAPI/nfapi/src/nfapi_p4.c:1486-1645 | a message is packed exactly when it has one of the ids, no checked list is too long, and it takes at most 65535 bytes |
| `P4Wire.AcceptedRats` | open-nFAPI/nfapi/src/nfapi_p4.c:754-767 | a packed message is unpacked exactly when its lists are within the limits and, for the ids 0x0200, 0x0203 and 0x020C, the struct of its RAT type is there: LTE, UTRAN, GERAN and NB-IoT for the first two, the first three for the last |
| `P4Wire.UnpackBytes` | open-nFAPI/nfapi/src/nfapi_p4.c:1647-1830 | on a header, a prefix and any bytes behind: unpacking succeeds exactly when the TLV list is accepted and the RAT type too, whatever the length field says, and gives the header's and the list's values |
| `P4Wire.UnpackRefuses` | open-nFAPI/nfapi/src/nfapi_p4.c:1647-1830 | bytes that are too short for the header or the prefix, or of another id, are refused |
| `P4.ExactRoundTrip` | open-nFAPI/nfapi/src/nfapi_p4.c:1486-1830 | a message whose slots are exactly what its kind and RAT type send comes back equal, but for its length field |
| `P4.NbIotRequestRefused` | open-nFAPI/nfapi/src/nfapi_p4.c:1296-1303 | no packed NB-IoT system information request is ever accepted |
| `P4.CellSearchRefused` | open-nFAPI/nfapi/src/nfapi_p4.c:258-275 | a cell search indication with n LTE cells is packed up to n = 10919, and unpacked up to eight |
| `P4.ValuesReencode` | open-nFAPI/nfapi/src/nfapi_p4.c:645-1369 | for every TLV of every P4 message: what its unpack function accepts, its pack function gives back |
| `P4Task.PackTlvs` | open-nFAPI/nfapi/src/nfapi_p4.c:331-340 | the `pack_tlv` calls of a message append their TLVs in order and fill in the lengths, or fail exactly when one cannot be packed or does not fit |
| `P4Task.MessagePack` | open-nFAPI/nfapi/src/nfapi_p4.c:1486-1618 | returns the length and leaves exactly `P4.PackMessage`'s bytes in the buffer, or -1 exactly when there are none or they do not fit |
| `P4Task.MessageUnpack` | open-nFAPI/nfapi/src/nfapi_p4.c:1647-1830 | on any bytes returns what `P4.Unpack` says, and 1 or -1 accordingly |
| `Dci.ShiftAligns` | open-nFAPI/nfapi/src/nfapi.c:537-552 | after the shift the bytes that are sent are the low bits of the payload, big-endian and left-aligned, whatever bits lie above them |
| `Dci.RecoveredSum` | open-nFAPI/nfapi/src/nfapi.c:554-571 | unpacking gives the payload plus what the buffer held beyond it, shifted |
| `Dci.DciRoundTrip` | open-nFAPI/nfapi/src/nfapi.c:537-571 | unpacking what was packed gives the payload back exactly when the receiving buffer is zero beyond it |
| `Dci.LeftoverRecovered` | open-nFAPI/nfapi/src/nfapi.c:554-571 | a payload of one bit, unpacked into a buffer whose second byte is 1, becomes 3 |
| `DciTask.PackDciPayload` | open-nFAPI/nfapi/src/nfapi.c:537-552 | writes the left-aligned form of the old payload and leaves the payload shifted |
| `DciTask.UnpackDciPayload` | open-nFAPI/nfapi/src/nfapi.c:554-571 | leaves in the buffer what `Dci.Recovered` says |

## Left out

- Sockets, threads, clocks, sleeping, logging and command lines; the fan-out loops and proxy_testscript.py. What is sent is a result or a trace.
- Unpacking P7 messages (nfapi_p7.c is not part of this model): the aggregators take it as a parameter, a partial function from a packet to a header and a PDU list.
- The two RACH forwarders, which unpack and send each packet on its own; the only arithmetic in them is `sfn_sf_add`.
- The checks for duplicate RNTIs and differing headers, which only log.
- The P5 messages and state machine, and the P5 callbacks in src/nfapi_pnf.c.
- Vendor-extension callbacks and vendor messages: there are none in the model.
- `nfapi_p4_message_header_unpack`, whose success test returns -1.
- Mutex and allocation failures, and the sizes of the unpacked structs that `check_unpack_length` compares: the receiving buffer is taken to be large enough.
- DequeueTask.DequeueMessages: is for calls during which no packet arrives; Pipeline treats arrivals between any two steps.
- Aggregation.Aggregate: takes groups on values; freeing the unpacked lists is not modelled.
- Barrier.AlwaysSafe: the critical sections are steps of a state machine, not statements on a shared variable.
- ValueCodec.PackValue: one interpreter of formats stands for the separate functions for each struct, whose fields are listed in P4Values; a count above the capacity of its struct's array is a longer list in the model, where the source would read beyond the array.
- ValueCodec.UnpackValue: the innermost count of the NB-IoT system information request, which the source does not check, yields a longer list in the model, where the source would write beyond the array.
- TlvTask.ParseTlvList: is for tables with distinct tags, as all tables of the source are.
- Cursors.Cursor.PushArray8: for a cursor past the end, where the source's unsigned comparison finds room, requires that the buffer's memory goes on; so does PullArray8.
- DciTask.PackDciPayload: is for payloads of up to 64 bits, which is what the source's buffer holds, and a little-endian host.
- DciTask.UnpackDciPayload: says nothing about the payload when the bytes are missing; the source then reverses an uninitialised local buffer.
