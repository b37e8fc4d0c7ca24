# Verified model of the XDMA driver core and the 10G bring-up controller

The repository pairs a Xilinx XDMA scatter-gather driver with FPGA designs for the xc7z045. This
project models its most intricate logic and proves what that logic promises.

**Scatter-list compiler** (`ScatterSplit`, `Descriptors`, `Transfers`, `DmaMeaning`, `Submit`). A
scatter list is cut into bounded pieces, each run of pieces becomes a chain of 32-byte descriptors in
a 2048-slot ring, and the hardware follows the chain. The hardware is a specification function: it
follows next pointers until a descriptor that stops the engine, or fetches ahead in blocks by the
adjacent counts. The main theorem, in `Submit.XferSubmit`, is that building and running all chains of
a request has the effect of one plain copy of the original list.

**Ring allocator** (`RingAllocator`). All runs of taking slots and retiring the oldest transfer.

**Engine queue** (`EngineQueue`). Queueing, service, abort, offline and online as atomic steps on one
engine, with status, completed count and write-back word as arbitrary inputs. Batched completion is
proved equal to a prefix-sum reference, and the invariants hold over whole runs. `EngineCode` states a
service call bit by bit and has the driver functions as code.

`Completion` and `CompletionRuns` join the queue to the ring allocator, the descriptor ring and the hardware:
what COMPLETED means, for a transfer and for a whole request.

**Bring-up controller** (`FlowControl`, `FlowControlProofs`, `FlowControlRuns`, `FlowControlScript`,
`FlowControlCode`). Three coupled state machines and five AXI-Lite channel processes, one clock edge at a time, with an arbitrary slave. A
monitor that sees only the bus signals logs completed accesses, and the theorems speak of that log; `FlowControlScript` gives the whole of it.

**User-buffer mapping** (`PageMap`, `EndToEnd`), **JTAG shifter** (`Xvc`), **completion threads**
(`ThreadPool`). `EndToEnd` joins page mapping to the scatter-list compiler: bytes of a user's buffer
arrive where a read or write call says.

`Words` holds machine-word arithmetic. C integers are unbounded with wrap-around written out where the
source can reach it. The host is little-endian, the descriptor ring is 32-byte aligned, at a non-zero
address and below 2^64. desc_blen_max is assumed to lie between 1 and 2^28 - 1: the module clamps it from
above when it is loaded, and the parameter can be written later.

## Where the code falls short of what one would expect

- The array of software descriptors can be overrun: the sizing sum `len + desc_blen_max - 1` wraps at
  32 bits. `ScatterSplit.ListFitsIff` is the exact condition, `ScatterSplit.OverrunExample` an input.
- Nothing bounds desc_used, as a comment in the source admits; `RingAllocator.RingSafety` is exact,
  `RingAllocator.OverlapExample` a run.
- A request submitted without waiting can need more than the two transfers there is room for;
  `Submit.TwoTransfersSufficeIff` is exact, `Submit.ThirdTransferExample` an input.
- A service call whose count has not moved since the last one fails the head of the queue
  (`EngineQueue.FateWithoutError`, a run in `CompletionRuns.UnmovedCountExample`).
- A service call on an engine still busy with a transfer that an earlier call has taken off the queue can
  find its count below desc_dequeued; the subtraction wraps and transfers are completed that were never
  started (`CompletionRuns.HonestIff` is exact, `CompletionRuns.BackwardCountExample` a run).
- Aborting a queued transfer that is not the head leaves it in the queue (`EngineQueue.AbortKeepsIff`, a
  run in `EngineQueue.AbortSecondExample`).
- A transfer that transfer_queue refuses never gives its descriptors back (`Submit.SubmitLoop`, an input in
  `Submit.RefusedExample`).
- A buffer of 4 GiB or more keeps its pages pinned and its tables allocated (`PageMap.IoCb.Map`, an input in
  `PageMap.ForgetsExample`). This is a fact about the function: the kernel cuts a read or write call off
  below 2 GiB.
- When no page can be pinned, the page array is never freed (`PageMap.IoCb.PinPages`, inputs in
  `PageMap.KeepsArrayExample`).
- For 2^32 - 31 to 2^32 - 8 bits the shift loop ends only when a word times out (`Xvc.CounterPassesIff`);
  for more, total_bytes is 0 and the first copy leaves the buffers (`Xvc.CopiesInBoundsIff`). Both where
  the allocation succeeds.
- The AXI channel processes have no reset: a reset of a single clock drops a pending VALID
  (`FlowControlProofs.OneResetEdge` is exact, `FlowControlProofs.ResetDropsValid` a run).
- The controller can enable the generator for loopback without having written the loopback word
  (`FlowControlProofs.EnableRises` has the exact condition, `FlowControlRuns.EnabledWithoutLoopback` a run).
- The thread scan does not pick the least loaded thread in general (`ThreadPool.PicksLeastIff` is exact,
  `ThreadPool.PicksNotLeast` a run).

## Model

| member | source | states |
|---|---|---|
| `ScatterSplit.SplitEntryTiles` | software/xc7z045_xdma/XDMA/xdma/libxdma.c:3111-3128 | The pieces of one scatter entry have length 1 to desc_blen_max and denote exactly the bytes of the entry, in order, with 64-bit address wrap-around. |
| `ScatterSplit.SplitListTiles` | software/xc7z045_xdma/XDMA/xdma/libxdma.c:3111-3128 | The pieces of a whole list are bounded, denote the list's bytes in the list's order, and have its total length. |
| `ScatterSplit.PieceCount` | software/xc7z045_xdma/XDMA/xdma/libxdma.c:3116-3127 | An entry becomes its length over desc_blen_max, rounded up, pieces. |
| `ScatterSplit.EntryFitsIff` | software/xc7z045_xdma/XDMA/xdma/libxdma.c:3094-3099 | One entry's share of the allocated array covers its pieces if and only if len + desc_blen_max - 1 stays within 32 bits; otherwise at least 15 slots are missing. |
| `ScatterSplit.SplitFits` | software/xc7z045_xdma/XDMA/xdma/libxdma.c:3094-3136 | If no such sum wraps, the array is never overrun and the check after the loop cannot fire. |
| `ScatterSplit.ListFitsIff` | software/xc7z045_xdma/XDMA/xdma/libxdma.c:3094-3136 | For every list: the pieces fit if and only if the slots missing for wrapped sums are at most the spare slots (one for each entry that is cut without a wrap and for each empty entry). |
| `ScatterSplit.ShortListFitsIff` | software/xc7z045_xdma/XDMA/xdma/libxdma.c:3094-3136 | For a list of at most fifteen entries the pieces fit if and only if no sum wraps. |
| `ScatterSplit.OverrunExample` | software/xc7z045_xdma/XDMA/xdma/libxdma.c:3094-3128 | One entry of 2^32 - 1 bytes at the default limit: room for one piece, more written. |
| `ScatterSplit.ExtraPieces` | software/xc7z045_xdma/XDMA/xdma/libxdma.c:3094-3104 | The sizing loop computes the capacity of the array. |
| `ScatterSplit.FillEntry` | software/xc7z045_xdma/XDMA/xdma/libxdma.c:3116-3127 | The inner loop appends exactly the pieces of the entry, leaves what was written before alone, and stays inside the array if and only if they fit. |
| `ScatterSplit.InitRequest` | software/xc7z045_xdma/XDMA/xdma/libxdma.c:3085-3141 | The request holds exactly the split list and its total length modulo 2^32; the array is overrun if and only if the split list is longer than the capacity. |
| `Descriptors.FreshWordIs` | software/xc7z045_xdma/XDMA/xdma/libxdma.c:2325-2350 | A freshly initialised control word holds, bit by bit, magic 0xAD4B, the adjacent count and the control byte that were put in. |
| `Descriptors.SetControlDecodes` | software/xc7z045_xdma/XDMA/xdma/libxdma.c:2336-2350 | Setting the control byte replaces the low byte and nothing else; a field that does not fit changes nothing. |
| `Descriptors.OfBitsCounts` | software/xc7z045_xdma/XDMA/xdma/libxdma.c:2325-2334 | The six bits of a prefetch count, as they are read, count up one by one from zero. |
| `Descriptors.AdjacentSurvivesIff` | software/xc7z045_xdma/XDMA/xdma/libxdma.c:2325-2334 | On any old word the count put in is the count read back if and only if old bits 12 and 13 are among the count's own top bits. |
| `Descriptors.NextAdjIsLargest` | software/xc7z045_xdma/XDMA/xdma/libxdma.c:638-654 | The prefetch count is the largest that stays among the descriptors remaining and within the 64-descriptor unit of the next one. |
| `Transfers.ChainLength` | software/xc7z045_xdma/XDMA/xdma/libxdma.c:2952-2984 | A transfer takes at least one descriptor, at most those left, does not wrap, and stops short of those left only at the end of the ring. |
| `Transfers.Engine.DescInit` | software/xc7z045_xdma/XDMA/xdma/libxdma.c:2252-2284 | Links the slots of a transfer, ends the chain, resets length and control, and touches no other slot. |
| `Transfers.Engine.FillSlot` | software/xc7z045_xdma/XDMA/xdma/libxdma.c:2375-2395 | Writes addresses and length of one slot for the direction, with the result address as source for C2H streaming. |
| `Transfers.Engine.Build` | software/xc7z045_xdma/XDMA/xdma/libxdma.c:2910-2946 | Fills the slots with the next pieces at successive endpoint addresses (or one fixed address), sums the length modulo 2^32, and advances the request. |
| `Transfers.Engine.SetControls` | software/xc7z045_xdma/XDMA/xdma/libxdma.c:2990-3007 | Only the last descriptor stops the engine; with eop_flush each earlier one reports completion. |
| `Transfers.Engine.SetAdjacents` | software/xc7z045_xdma/XDMA/xdma/libxdma.c:3015-3022 | Each descriptor gets the prefetch count for its own next pointer. |
| `Transfers.Engine.WriteChain` | software/xc7z045_xdma/XDMA/xdma/libxdma.c:2986-3022 | The four passes over the slots together leave exactly the specified chain, whatever the ring held before, and change nothing outside it. |
| `Transfers.Engine.TransferInit` | software/xc7z045_xdma/XDMA/xdma/libxdma.c:2949-3026 | The next run of pieces becomes the specified chain in slots desc_idx onwards; desc_idx, desc_used, the request's position and endpoint address, and the transfer's fields follow. |
| `DmaMeaning.ControlIs` | software/xc7z045_xdma/XDMA/xdma/libxdma.c:2264-2281 | In a built chain every control word is, bit by bit: magic 0xAD4B, two clear bits, the largest prefetch count within the 2048-byte unit of the next descriptor and the transfer, and the low byte 0x13 on the last, 0x02 before it with eop_flush, else 0. |
| `DmaMeaning.AddressesAre` | software/xc7z045_xdma/XDMA/xdma/libxdma.c:2375-2395 | In every mode descriptor i carries the length of piece i, its address on the host's side, the endpoint address reached on the device's side or, as source of a C2H stream, the address of its result slot, and the address of the next descriptor, 0 on the last. |
| `DmaMeaning.ChainHosts` | software/xc7z045_xdma/XDMA/xdma/libxdma.c:2933-2941 | In every mode, C2H streaming too, the hardware walking a chain visits the host's pieces in order. |
| `DmaMeaning.ChaseFrom` | software/xc7z045_xdma/XDMA/xdma/libxdma.c:2265-2281 | Following next pointers from any descriptor of a chain visits the rest of it in order and stops at its end. |
| `DmaMeaning.PrefetchFrom` | software/xc7z045_xdma/XDMA/xdma/libxdma.c:638-654 | Fetching in blocks through adjacent counts visits the rest of the chain in order. |
| `DmaMeaning.PrefetchBlocks` | software/xc7z045_xdma/XDMA/xdma/libxdma.c:638-654 | Each block fetched is one that the driver announced. |
| `DmaMeaning.PrefetchRefinesChase` | software/xc7z045_xdma/XDMA/xdma/libxdma.c:734-743 | From the first_desc and first_desc_adjacent registers, block prefetch visits exactly the descriptors that pointer chasing does, 0 to desc_num - 1; no block crosses a 64-descriptor unit or a 4 KiB page or leaves the transfer. |
| `DmaMeaning.PlannedConcat` | software/xc7z045_xdma/XDMA/xdma/libxdma.c:2919-2944 | Moves planned for one run of pieces and then for the next, from the endpoint address the first left, are the moves planned for both together. |
| `DmaMeaning.PlannedCopies` | software/xc7z045_xdma/XDMA/xdma/libxdma.c:2919-2944 | With incrementing addresses, performing the planned moves one after another on any memories equals one plain gather or scatter copy. |
| `DmaMeaning.PlannedSides` | software/xc7z045_xdma/XDMA/xdma/libxdma.c:2929-2931 | The host side of the moves is the pieces in order; in non-incremental mode every move keeps the original endpoint address. |
| `DmaMeaning.ChainMeaning` | software/xc7z045_xdma/XDMA/xdma/libxdma.c:2919-3022 | The hardware walking a built chain, wholly or for its first descriptors, makes exactly the planned moves of those pieces. |
| `RingAllocator.RunInv` | software/xc7z045_xdma/XDMA/xdma/libxdma.c:2973-3013 | In every run live transfers lie one right after the other around the ring, unwrapped, the newest ending at desc_idx. |
| `RingAllocator.RingSafety` | software/xc7z045_xdma/XDMA/xdma/libxdma.c:2973-3013 | In every run desc_idx is in the ring, every live transfer lies in it unwrapped, desc_used counts the live slots, and live transfers are pairwise disjoint if and only if desc_used is at most 2048. |
| `RingAllocator.PairApart` | software/xc7z045_xdma/XDMA/xdma/libxdma.c:2983-3013 | Any two live transfers occupy disjoint slots while desc_used is at most 2048. |
| `RingAllocator.Overfull` | software/xc7z045_xdma/XDMA/xdma/libxdma.c:2981-2984 | Beyond 2048 used slots some live transfer reaches the slots of the oldest one. |
| `RingAllocator.OverlapExample` | software/xc7z045_xdma/XDMA/xdma/libxdma.c:2981-2984 | A full ring followed by one more descriptor reuses a live slot: nothing bounds desc_used. |
| `Submit.TransferCountIs` | software/xc7z045_xdma/XDMA/xdma/libxdma.c:3229-3246 | A request takes one transfer for each lap of the ring it touches. |
| `Submit.TwoTransfersSufficeIff` | software/xc7z045_xdma/XDMA/xdma/libxdma.h:468-469 | The two elements of tfer[2] suffice if and only if desc_idx plus the descriptor count is at most 4096, so from any desc_idx for up to 2049 descriptors. |
| `Submit.BuildAndRun` | software/xc7z045_xdma/XDMA/xdma/libxdma.c:3229-3262 | One turn of the loop: after the hardware has run some or all of the new chain, the moves made so far are those planned for that many pieces of the request. |
| `Submit.SubmitLoop` | software/xc7z045_xdma/XDMA/xdma/libxdma.c:3229-3349 | The loop ends; if every transfer completes, the descriptor counts are positive and sum to the request (but for a flushed C2H stream, which ends with its first transfer), desc_used is restored and the byte count is returned, for C2H streams that of the result records; else it stops at the first transfer that does not complete and returns the bytes completed before it or, if there are none, -5, -512 or -16 for a failed, timed out or refused one; a refused transfer leaves desc_used raised. |
| `Submit.XferSubmit` | software/xc7z045_xdma/XDMA/xdma/libxdma.c:3143-3362 | A request whose transfers all complete moves the original scatter list: the host's bytes in list order and, in any memories, the effect of one plain copy at ep_addr; in non-incremental mode against the one endpoint address; for a C2H stream, into the list's addresses in order. |
| `Submit.RequestMeaning` | software/xc7z045_xdma/XDMA/xdma/libxdma.c:3111-3245 | Moves planned for the cut list have the meaning of the list before it was cut. |
| `Submit.SubmitNowait` | software/xc7z045_xdma/XDMA/xdma/libxdma.c:3577-3633 | Building and queueing all transfers at once: a refusal ends it at the transfer refused, a request that needs a third goes past tfer[2], and any other is used up; the array suffices if and only if desc_idx plus the count is at most 4096. |
| `Submit.ThirdTransferExample` | software/xc7z045_xdma/XDMA/xdma/libxdma.c:3580-3583 | A request of 2050 descriptors from slot 2047 needs three transfers. |
| `Submit.RefusedExample` | software/xc7z045_xdma/XDMA/xdma/libxdma.c:3256-3262 | A request of one piece whose transfer is refused returns EBUSY and leaves desc_used raised. |
| `Submit.NeverOverstates` | software/xc7z045_xdma/XDMA/xdma/libxdma.c:3341-3361 | The count returned never exceeds the length of the pieces the hardware has moved, whatever became of the last transfer. |
| `Submit.CountedExactly` | software/xc7z045_xdma/XDMA/xdma/libxdma.c:3286-3299 | Below 4 GiB the count returned is exactly the length of the completed pieces; beyond, it agrees modulo 2^32 (in the contract of the loop). |
| `EngineQueue.BatchSettles` | software/xc7z045_xdma/XDMA/xdma/libxdma.c:843-1012 | The service loop and the final step give every queued transfer the fate that prefix sums of descriptor counts assign to it, and leave the rest queued, untouched and in order. |
| `EngineQueue.StaysIff` | software/xc7z045_xdma/XDMA/xdma/libxdma.c:843-872 | A transfer stays queued if and only if the count does not reach it. |
| `EngineQueue.FateWithoutError` | software/xc7z045_xdma/XDMA/xdma/libxdma.c:945-1004 | Without error bits: COMPLETED are exactly the transfers that end within the count; FAILED the one the count ends strictly inside, or the head if the count has not moved since the last call; the rest stay SUBMITTED. |
| `EngineQueue.ServiceRefines` | software/xc7z045_xdma/XDMA/xdma/libxdma.c:1089-1195 | One service call on a running engine with a non-zero count, in 32-bit arithmetic, gives every queued transfer its reference fate. |
| `EngineQueue.AbortKeepsIff` | software/xc7z045_xdma/XDMA/xdma/libxdma.c:2400-2437 | Aborting a transfer keeps the queue consistent if and only if it is not queued or is the head. |
| `EngineQueue.AbortSecondExample` | software/xc7z045_xdma/XDMA/xdma/libxdma.c:2424-2434 | A run: aborting the second of two queued transfers leaves it in the queue, marked ABORTED. |
| `EngineQueue.StepKeeps` | software/xc7z045_xdma/XDMA/xdma/libxdma.c:1089-1190 | Queueing, service, abort of the head, offline and online each keep the queue invariant, and no finished transfer changes state. |
| `EngineQueue.RunKeeps` | software/xc7z045_xdma/XDMA/xdma/libxdma.c:1045-1190 | The invariant holds after every run of such steps. |
| `EngineQueue.RunEvolves` | software/xc7z045_xdma/XDMA/xdma/libxdma.c:2424-2514 | Between any two points of a run transfers are only added, and a finished one keeps its state. |
| `EngineQueue.EveryRun` | software/xc7z045_xdma/XDMA/xdma/libxdma.c:1045-1190 | In every run from a fresh engine: running implies a non-empty queue, the queue is exactly the SUBMITTED transfers in submission order, a transfer leaves it at most once, a terminal state never changes, and the shutdown branch of the resume step is never taken. |
| `EngineQueue.OfflineFreezes` | software/xc7z045_xdma/XDMA/xdma/libxdma.c:4235-4325 | From offline until online no transfer is started, added, completed or failed, whatever else happens. |
| `EngineQueue.Drain` | software/xc7z045_xdma/XDMA/xdma/libxdma.c:1045-1190 | If each run of the hardware completes the head's descriptors without error, k service calls complete the first k transfers in submission order, and after all n the engine is idle with an empty queue. |
| `Completion.TakesWrites` | software/xc7z045_xdma/XDMA/xdma/libxdma.c:2973-3022 | While desc_used is at most 2048, building a transfer leaves in the ring the chain of every queued transfer and of the one being executed. |
| `Completion.WriteKeepsLoaded` | software/xc7z045_xdma/XDMA/xdma/libxdma.c:2983-3022 | Writing a chain leaves in the ring every chain whose slots are disjoint from it. |
| `Completion.JointStepKeeps` | software/xc7z045_xdma/XDMA/xdma/libxdma.c:1089-1195 | Queue, descriptor ring, slots and hardware together: each step keeps it that a running engine executes the head of the queue from its chain in the ring, or one that has left the queue. |
| `CompletionRuns.CompletedMeansMoved` | software/xc7z045_xdma/XDMA/xdma/libxdma.c:843-1004 | In every run in which desc_used stays within 2048, the oldest slots are given back first, and the count read is the number of descriptors executed and never below desc_dequeued, a transfer marked COMPLETED has made all the moves planned for its pieces. |
| `CompletionRuns.RequestMoved` | software/xc7z045_xdma/XDMA/xdma/libxdma.c:3229-3262 | In such a run, if transfers built one after the other from the pieces of a scatter list are all COMPLETED, what the hardware has moved for them is the list: its bytes in order, as one plain copy. |
| `CompletionRuns.HonestIff` | software/xc7z045_xdma/XDMA/xdma/libxdma.c:1174-1183 | The condition on the count is exact: a service call that reads the true count marks only transfers COMPLETED that have made all their moves if and only if the subtraction of desc_dequeued does not wrap. |
| `CompletionRuns.UnmovedCountExample` | software/xc7z045_xdma/XDMA/xdma/libxdma.c:1174-1183 | A run on the hardware: a second service call at the same true count marks the second transfer FAILED, with no move made for it and the hardware never started on it. |
| `CompletionRuns.BackwardCountExample` | software/xc7z045_xdma/XDMA/xdma/libxdma.c:1174-1183 | A run on the hardware: service calls that both read the true count, after one of two descriptors, end with the second transfer COMPLETED and no move made for it. |
| `EngineCode.BatchAccounts` | software/xc7z045_xdma/XDMA/xdma/libxdma.c:843-1012 | desc_dequeued grows by the descriptors of all that leave the queue, but for one that an error fails; the transfer in which the count ends records how far it got; an error stops the engine. |
| `EngineCode.ErrorBits` | software/xc7z045_xdma/XDMA/xdma/libxdma.c:929-937 | The error condition is one of the bits 3 to 5, 9, 10, 19 to 23 or, to the device, 11 to 15. |
| `EngineCode.ErrorFails` | software/xc7z045_xdma/XDMA/xdma/libxdma.c:929-937 | A transfer in which the count ends is FAILED if the status shows any one such bit. |
| `EngineCode.ServicedBy` | software/xc7z045_xdma/XDMA/xdma/libxdma.c:1089-1195 | A service call on a running engine in plain terms: the low 24 bits of the write-back word or else the count register, less what was dequeued, in 32 bits; the status read anew unless a count without error was written back; every queued transfer's fate and progress; and restart, stop or go on by busy bit and write-back. |
| `EngineCode.XdmaEngine.Start` | software/xc7z045_xdma/XDMA/xdma/libxdma.c:672-769 | Starts if and only if the engine is stopped and the queue is not empty, resetting the dequeued count and the shutdown flags. |
| `EngineCode.XdmaEngine.TransferQueue` | software/xc7z045_xdma/XDMA/xdma/libxdma.c:2444-2520 | Refuses an empty transfer or one on an offline engine, else appends it and starts an idle engine; keeps the invariant. |
| `EngineCode.XdmaEngine.ServiceTransferList` | software/xc7z045_xdma/XDMA/xdma/libxdma.c:819-874 | Completes queued transfers from the head on while the count exceeds the next one's descriptors, and changes nothing else. |
| `EngineCode.XdmaEngine.ServiceFinal` | software/xc7z045_xdma/XDMA/xdma/libxdma.c:945-1012 | Settles the transfer the count ends in, by error bits and by the count, with its progress and the engine's counts. |
| `EngineCode.XdmaEngine.Sample` | software/xc7z045_xdma/XDMA/xdma/libxdma.c:1102-1133 | The status read and the decision that the engine has stopped, by busy bit and write-back. |
| `EngineCode.XdmaEngine.ServiceResume` | software/xc7z045_xdma/XDMA/xdma/libxdma.c:1045-1086 | Restarts on what is queued, or stops. |
| `EngineCode.XdmaEngine.EngineService` | software/xc7z045_xdma/XDMA/xdma/libxdma.c:1089-1195 | The whole service call does just that, keeps the invariant and changes no finished transfer; on a stopped engine it only reads the status; a write-back error is reported. |
| `EngineCode.XdmaEngine.TransferAbort` | software/xc7z045_xdma/XDMA/xdma/libxdma.c:2400-2437 | Marks a SUBMITTED transfer ABORTED and unlinks it only as head; the invariant survives if and only if that was safe. |
| `EngineCode.XdmaEngine.Offline` | software/xc7z045_xdma/XDMA/xdma/libxdma.c:4235-4285 | Requests shutdown and stops the engine, keeping the invariant. |
| `EngineCode.XdmaEngine.Online` | software/xc7z045_xdma/XDMA/xdma/libxdma.c:4292-4325 | Withdraws the request, keeping the invariant. |
| `FlowControlCode.Controller.Blocks` | hardware/xc7z045_10ge_v1/ethernet_flow_cntrl.v:214-734 | The always blocks as statements, each reading the registers from before the edge, refine the clock-edge function that the proofs are about. |
| `FlowControlCode.Controller.ClockEdge` | hardware/xc7z045_10ge_v1/ethernet_flow_cntrl.v:214-734 | One clock edge of the code, seen from the bus: outside reset every VALID not taken stays with its address or data, reads and writes never overlap, and the bring-up invariant is kept, from the first edge after a reset on. |
| `FlowControlProofs.EdgeKeeps` | hardware/xc7z045_10ge_v1/ethernet_flow_cntrl.v:234-734 | Every edge outside reset keeps the invariant over channels, current operation and bring-up order, for any slave. |
| `FlowControlProofs.ResetEstablishes` | hardware/xc7z045_10ge_v1/ethernet_flow_cntrl.v:234-251 | Two or more reset edges bring any power-up state of the registers into the invariant. |
| `FlowControlProofs.FirstEdge` | hardware/xc7z045_10ge_v1/ethernet_flow_cntrl.v:234-606 | After a reset of one edge, the first edge out of it establishes the invariant, whatever the channel registers hold. |
| `FlowControlProofs.OneResetEdge` | hardware/xc7z045_10ge_v1/ethernet_flow_cntrl.v:612-716 | One reset edge is not enough: it leaves a VALID high exactly for an address or data still to be accepted, and that falls on the next edge whether accepted or not. |
| `FlowControlProofs.ResetDropsValid` | hardware/xc7z045_10ge_v1/ethernet_flow_cntrl.v:664-690 | A run: the address of the first start-up write is still valid after one reset edge and falls on the next, never accepted. |
| `FlowControlProofs.EveryRun` | hardware/xc7z045_10ge_v1/ethernet_flow_cntrl.v:234-734 | The invariant holds at every point of every run, from the first edge after a reset of any length on. |
| `FlowControlProofs.HandshakeRule` | hardware/xc7z045_10ge_v1/ethernet_flow_cntrl.v:612-716 | Section A3.2.1 of the AMBA AXI specification: each VALID once raised stays high with unchanged address or data until its READY; a read address is never valid together with a write address or write data. |
| `FlowControlRuns.LeavesWhenSeen` | hardware/xc7z045_10ge_v1/ethernet_flow_cntrl.v:570-606 | From the edge that enters READ or WRITE to the one that leaves it, the log of a bus monitor grows by exactly one event, with the address and data of that access: every handshake has been seen. |
| `FlowControlProofs.MdioOperation` | hardware/xc7z045_10ge_v1/ethernet_flow_cntrl.v:524-563 | Each MDIO operation is on the bus exactly one write of the data to 0x508; one write to 0x504 of a word with start bit 11, the operation in bits 14 and 15, device 3 in bits 16 to 20, and no other; and reads of the polled register of which the last and only the last shows ready, in bit 16 for 0x50C and bit 7 otherwise. |
| `FlowControlRuns.MainWaits` | hardware/xc7z045_10ge_v1/ethernet_flow_cntrl.v:253-606 | From a step of the main machine to the next state in which it can step, however many edges that takes and whatever the slave does, its registers hold still but for the start bits, and the log grows by exactly the access or MDIO operation asked for. |
| `FlowControlScript.AllCarried` | hardware/xc7z045_10ge_v1/ethernet_flow_cntrl.v:253-606 | Whenever the main machine can step, the whole bus log splits into one part for each of its steps, which carries out what that step asked for. |
| `FlowControlScript.BringUpScript` | hardware/xc7z045_10ge_v1/ethernet_flow_cntrl.v:255-507 | The whole bring-up with loopback never, or always, selected, for any slave and any reset: every access and MDIO operation in order, with its data and polled register; how the status check and the PCS reset check decide; and the step at which the generator is enabled. |
| `FlowControlScript.LoopbackAfterDone` | hardware/xc7z045_10ge_v1/ethernet_flow_cntrl.v:499-507 | Loopback selected after the bring-up restarts the transmitter reset with one stray read. |
| `FlowControlScript.LoopbackDropped` | hardware/xc7z045_10ge_v1/ethernet_flow_cntrl.v:408-433 | Loopback dropped while the generator runs in it leads back to the address operation or to the status check. |
| `FlowControlScript.LoopbackInBetween` | hardware/xc7z045_10ge_v1/ethernet_flow_cntrl.v:369-407 | The PCS write goes by loopback as selected when it is chosen, and is recorded by loopback as selected when it is done. |
| `FlowControlProofs.MdioEdge` | hardware/xc7z045_10ge_v1/ethernet_flow_cntrl.v:524-563 | Every edge within an MDIO operation extends its bus log as the operation prescribes. |
| `FlowControlProofs.AccessEdge` | hardware/xc7z045_10ge_v1/ethernet_flow_cntrl.v:570-606 | A direct access is on the bus exactly the one read or write that was asked for. |
| `FlowControlProofs.ChannelsEdge` | hardware/xc7z045_10ge_v1/ethernet_flow_cntrl.v:612-734 | The five channel processes and the bus monitor stay in step: a status bit is set exactly for a handshake seen. |
| `FlowControlProofs.EnableRises` | hardware/xc7z045_10ge_v1/ethernet_flow_cntrl.v:390-507 | enable_gen rises only after the completed writes began with 0x45 to 0x500 and the words for the switches, as read at each step, to 0x404 and 0x408; and either in CONFIG_DONE with block_lock set and a matching status read as last access, or in MDIO_RD_1 in loopback mode right after an MDIO write operation; that write selected loopback if and only if loopback was selected when MDIO_WR was entered. |
| `FlowControlRuns.EnabledWithoutLoopback` | hardware/xc7z045_10ge_v1/ethernet_flow_cntrl.v:390-418 | From any power-up state there is a run in which enable_gen rises in MDIO_RD_1 although no loopback word was ever written: pcs_loopback rises after the write was chosen. |
| `FlowControlRuns.MdioProgress` | hardware/xc7z045_10ge_v1/ethernet_flow_cntrl.v:524-606 | With a responsive slave every edge of an MDIO operation comes closer to its end. |
| `FlowControlRuns.AccessProgress` | hardware/xc7z045_10ge_v1/ethernet_flow_cntrl.v:570-734 | With a responsive slave every edge of a direct access comes closer to its end. |
| `FlowControlRuns.OperationEnds` | hardware/xc7z045_10ge_v1/ethernet_flow_cntrl.v:253-606 | Whatever the slave did before, once it is responsive the main machine can step again within fifteen edges, its registers and the log so far unchanged. |
| `PageMap.PagesNrIs` | software/xc7z045_xdma/XDMA/xdma/cdev_sgdma.c:278-280 | The page count, computed in 64 bits and kept in 32, is the number of pages the buffer touches, for lengths below 2^32. |
| `PageMap.PagesNrWraps` | software/xc7z045_xdma/XDMA/xdma/cdev_sgdma.c:278-280 | At any length it is that number wrapped in 64 bits before the shift and in 32 after it. |
| `PageMap.MapCodesAre` | software/xc7z045_xdma/XDMA/xdma/cdev_sgdma.c:284-342 | The result of every path, as a number: -22, -12, the pinning error, -14 or 0. |
| `PageMap.EntriesTile` | software/xc7z045_xdma/XDMA/xdma/cdev_sgdma.c:326-337 | Per-page entries are non-empty, consecutive, within their page, cover the buffer, and only the first may have an offset. |
| `PageMap.FillSgl` | software/xc7z045_xdma/XDMA/xdma/cdev_sgdma.c:326-342 | The page loop yields those entries and uses up the length if it is below 2^32; at 2^32 or more the length never reaches zero. |
| `PageMap.Board.PutPages` | software/xc7z045_xdma/XDMA/xdma/cdev_sgdma.c:256-263 | Each page before the first NULL entry is put once, in order, and marked dirty exactly on transfers from the device. |
| `PageMap.IoCb.Unmap` | software/xc7z045_xdma/XDMA/xdma/cdev_sgdma.c:247-270 | Puts the recorded pages up to a NULL entry and frees the table, and the page array if pages were recorded. |
| `PageMap.IoCb.FindRepeat` | software/xc7z045_xdma/XDMA/xdma/cdev_sgdma.c:316-324 | Finds a repeated neighbour if and only if there is one. |
| `PageMap.IoCb.PinPages` | software/xc7z045_xdma/XDMA/xdma/cdev_sgdma.c:278-324 | Every error path up to the page loop puts exactly the pages that were pinned and frees the table; it keeps the page array exactly when no page was pinned into it. |
| `PageMap.IoCb.Map` | software/xc7z045_xdma/XDMA/xdma/cdev_sgdma.c:272-350 | Success yields one entry per page tiling the buffer; on an error, everything pinned has been put, and the table freed, if and only if the page loop was not entered with 2^32 bytes or more; the page array is kept exactly then and when no page was pinned into it; what is put is marked dirty exactly on reads. |
| `PageMap.ForgetsExample` | software/xc7z045_xdma/XDMA/xdma/cdev_sgdma.c:339-342 | A buffer of 2^32 bytes at address 0 with all its pages pinned takes the error return after the page loop. |
| `PageMap.KeepsArrayExample` | software/xc7z045_xdma/XDMA/xdma/cdev_sgdma.c:302-306 | For any buffer below 4 GiB whose first page cannot be pinned, the error is returned and the page array stays allocated. |
| `EndToEnd.EntryByte` | software/xc7z045_xdma/XDMA/xdma/cdev_sgdma.c:326-337 | Byte j of entry i is the corresponding byte of the user's buffer. |
| `EndToEnd.MappedIsUser` | software/xc7z045_xdma/XDMA/xdma/cdev_sgdma.c:272-350 | The mapped scatter list denotes the buffer's bytes, in order. |
| `EndToEnd.MovedPart` | software/xc7z045_xdma/XDMA/xdma/cdev_sgdma.c:394-396 | After any number of pieces, what has been moved is a copy of that many bytes of the list. |
| `EndToEnd.UserCopy` | software/xc7z045_xdma/XDMA/xdma/cdev_sgdma.c:385-398 | Moving some pieces of a mapped buffer brings its first k bytes to pos onwards, or the k bytes from pos on into it, and changes nothing else. |
| `EndToEnd.ReadWrite` | software/xc7z045_xdma/XDMA/xdma/cdev_sgdma.c:352-401 | For any mapping of the pages to bus segments that keeps the bytes in order: in any outcome the first k bytes arrive at the right place and nothing else changes, with k no less than the count reported and all of the buffer if every transfer completes; with fixed addressing every byte then meets the one device address, in order. Everything pinned is put, and the table freed, if and only if the page loop is not entered with 2^32 bytes or more. Every page put is marked dirty on a read, none on a write. Misalignment, a wrong direction and mapping errors are returned with nothing moved. |
| `Xvc.FeedConcat` | software/xc7z045_xdma/XDMA/xdma/cdev_xvc.c:58-91 | Feeding a device one stream of bits and then another is feeding it both. |
| `Xvc.SerialStep` | software/xc7z045_xdma/XDMA/xdma/cdev_xvc.c:175-198 | Shifting the next bits continues the bit-serial reference. |
| `Xvc.StoredBits` | software/xc7z045_xdma/XDMA/xdma/cdev_xvc.c:197-197 | Storing the low bytes of a word extends the output bit stream and keeps what was stored before. |
| `Xvc.ShiftBits` | software/xc7z045_xdma/XDMA/xdma/cdev_xvc.c:58-91 | Shifts exactly LENGTH bits; times out if and only if CTRL still reads busy on each of 100 reads. |
| `Xvc.ShiftWord` | software/xc7z045_xdma/XDMA/xdma/cdev_xvc.c:178-197 | One word extends the bit-serial run by its bits, within the buffers. |
| `Xvc.ShiftLoop` | software/xc7z045_xdma/XDMA/xdma/cdev_xvc.c:172-198 | The word loop, whenever it ends: a copy leaves the buffers if and only if total_bits exceeds 2^32 - 8; success if and only if total_bits is at most 2^32 - 32 and no word times out, and then LENGTH equals the bits of each word and device state and output are those of bit-serial shifting. |
| `Xvc.Ioctl` | software/xc7z045_xdma/XDMA/xdma/cdev_xvc.c:128-222 | A successful ioctl leaves the device in the state reached by feeding it the first total_bits pairs one at a time, and returns the TDO stream (TDI for opcode 2); success, timeout, overrun, a refused opcode, a failed allocation and failed copies are told apart exactly, and before the first shift the device is untouched. |
| `Xvc.CounterPassesIff` | software/xc7z045_xdma/XDMA/xdma/cdev_xvc.c:175-176 | The 32-bit loop counter ever reaches total_bits if and only if that is at most 2^32 - 32. |
| `Xvc.CopiesInBoundsIff` | software/xc7z045_xdma/XDMA/xdma/cdev_xvc.c:136-197 | Every copy the loop can come to stays within the buffers if and only if total_bits is at most 2^32 - 8; beyond, total_bytes is 0. |
| `ThreadPool.PicksLeastIff` | software/xc7z045_xdma/XDMA/xdma/xdma_thread.c:246-258 | The scan picks a least loaded thread if and only if some thread after the first is idle, or the last thread lighter than the first is a lightest one, or none is lighter. |
| `ThreadPool.PicksLeastWhenEven` | software/xc7z045_xdma/XDMA/xdma/xdma_thread.c:246-258 | So it does while the counts differ by at most one, although it never lowers its running minimum. |
| `ThreadPool.PicksNotLeast` | software/xc7z045_xdma/XDMA/xdma/xdma_thread.c:206-265 | A run of nine attaches and three detaches over three threads, after which the scan picks a thread that is not least loaded. |
| `ThreadPool.AttachKeepsEven` | software/xc7z045_xdma/XDMA/xdma/xdma_thread.c:246-265 | Attaching keeps the counts within one of each other. |
| `ThreadPool.ReachedEven` | software/xc7z045_xdma/XDMA/xdma/xdma_thread.c:246-265 | After any number of attaches the counts are within one of each other and sum to that number. |
| `ThreadPool.LoadBalance` | software/xc7z045_xdma/XDMA/xdma/xdma_thread.c:246-265 | After k attaches to n threads every thread has floor(k/n) or ceil(k/n) engines. |
| `ThreadPool.Pool.Scan` | software/xc7z045_xdma/XDMA/xdma/xdma_thread.c:246-258 | The scan picks the first idle thread after the first, else the last one lighter than the first, else the first. |
| `ThreadPool.Pool.AddWork` | software/xc7z045_xdma/XDMA/xdma/xdma_thread.c:237-274 | The engine joins the picked thread; work_cnt stays the length of work_list, and the attached engine is on exactly that list. |
| `ThreadPool.Pool.RemoveWork` | software/xc7z045_xdma/XDMA/xdma/xdma_thread.c:206-235 | The engine leaves the list it is on, and only that count falls. |

## Left out

- EOP-flush partial completion, cyclic and performance transfers: their counts are not a clean accounting; eop_flush is modelled in descriptors and in the submit loop, and off in the queue.
- ScatterSplit.ExtraPieces: `extra` and `max` are unbounded here and int in the source.
- Transfers.Engine.Build: the clearing of result records for C2H streaming is not modelled; the records appear only as the number `received`.
- Submit.SubmitLoop: what the result records of a C2H stream say is an input, the number `received`.
- Submit.XferSubmit: of a C2H stream only the addresses it fills are stated, not how far a packet fills each; a list that overruns the array is excluded, since what follows is undefined.
- CompletionRuns.CompletedMeansMoved: leaves out C2H streaming; nothing in the source bounds desc_used or orders its release, so both are conditions on the run.
- EndToEnd.ReadWrite: alignments are taken to be powers of two, so that masks are remainders, and the mapping to keep segments within a size at which the sizing sum does not wrap; C2H streaming is left out.
- Xvc.Ioctl: covers every run that ends; the checks of device and command and the copy of the argument before the opcode are left out, and the three buffers are separate values, not parts of one allocation.
- Xvc.ShiftLoop: as for the ioctl, a loop that never ends is excluded.
- FlowControlCode.Controller.ClockEdge: the register prev_axi_state and the simulation checker that reads it are left out, and the sixteen state codes the source does not name are one state.
- Allocation sizes, desc_dequeued and desc_used are unbounded integers; allocation failure of the request itself is left out.
- The device's OFFLINE flag is an input of the step that reads it, since it is read outside the engine lock.
- Spinlocks, mutexes, wait queues and wake-ups: each locked section is one step, and what a waiting submitter sees is an arbitrary outcome per transfer.
- Asynchronous I/O objects and their lifetimes, probing, BAR mapping, interrupts, character-device creation and ioctls other than the JTAG one.
- User tools, board firmware (I2C, clock chip, SFP, lwIP, UDP server), heart_beat.v, link_status.v and scripts: thin or trivial.
