# Verification of the host side of an NVMe SSD simulator

The simulator's host half drives a simulated SSD: load-generating I/O threads submit read
and write requests through an NVMe driver, whose queues, data buffers and PRP lists live in
a DMA memory managed by a first-fit allocator; the device answers over a socket link or
through interrupts. This project models those parts in Dafny and proves what they promise,
for every input, every reachable state and every interleaving.

`dafny verify dfyconfig.toml` checks everything.

## The modules

- `HoleList` is the allocator as a function on its list of holes; `SlotTable` and
  `Memory` are the allocator itself, two index-linked lists threaded through one table of
  512 slots, each method proved to compute the corresponding function of `HoleList`. `Arena`
  and `ArenaRuns` follow page-granular use: free and live memory always partition the region.
- `Prp` holds the driver's loop that builds PRP entries, a reader written from section 4.3 of
  the NVM Express Base Specification 1.4, and how far the two agree.
- `QueuePair` is a submission and a completion ring shared by host and device, with a history
  beside it that says what is really in flight (sections 4.1, 4.1.1, 4.1.2 and 4.6 of that
  specification). `Commands` is the driver's table of outstanding commands, and `NvmeDriver`
  the driver's own methods on real arrays and on the allocator.
- `FlowModel` puts the I/O thread, the driver, the queues, the device and the interrupt thread
  together as interleaved steps; `FlowInvariant` and `FlowKeeps` give the invariant and show
  that each of the 19 kinds of step keeps it; `FlowTheorems` draws the conclusions for whole
  runs, `FlowRoom` those for flows with enough memory, and `FlowLimits` and `FlowIds` show for
  the hypotheses on the queue, the requests started and the 16-bit ids that they are exact:
  without them some run fails. `IoThread` is the thread's own class with its loops.
- `CommandLocks` and `CommandRuns` are the locking around command objects, for any number of
  threads.
- `RingBuffer` and `SpscRing` are the lock-free ring, as a class and as two interleaved
  sides; `Deframer` and `LinkMessages` are the socket link's receive thread on top of it, and
  `LinkTraffic` says what becomes of everything the other side may send.

## The main results

1. **A whole flow.** Take a region large enough for any fragmentation, a submission queue
   with room, min(queue_depth, average_enqueued_requests) <= depth - 1, and ids enough,
   request_count <= 65536 or min(queue_depth, average_enqueued_requests) <= 1. Then in every
   interleaving of the threads and the device, with completions in any order, every run is
   bounded, no allocation fails, and a run that can go no further has called every request's
   own callback exactly once and has brought the allocator back to the very hole list it
   started from, if and only if no more requests are started than are to be completed and,
   unless there are none, at least one is kept going (`FlowIds.SafeFlowCompletes`). Along the
   way no two live ranges overlap, no free aborts, no completion is unknown, and what the
   device fetches describes exactly the buffer of the next request. With other flows the same
   holds of every run that gives out no id still in use (`FlowRoom.FlowCompletes`).
   The conditions on the queue and on the ids are exact: no run overfills the queue, and every
   run gives out free ids only, if and only if they hold (`FlowLimits.QueueRoomExactly`,
   `FlowIds.IdsSafeExactly`).
2. **The allocator.** It hands out the least suitable address and fails exactly when there is
   none; freeing and merging keep a canonical form, so the hole list is a function of the live
   blocks; and there is at most one hole more than live blocks. With 510 live
   blocks no free aborts, and some run of page-sized allocations and frees with 511 does. The
   flows are held to that bound by a count of blocks that includes a list page for every
   command in flight, so flows of small requests could be given a wider one.
3. **The queue protocol.** The phase bit tells new entries from old over any number of laps,
   for depths up to 65535 and not 65536; the lazy doorbell leaves at most depth - 2 entries
   unpublished.
4. **PRP lists.** What the driver builds is read back as exactly the buffer for all contents
   of memory if and only if at most 512 list entries are needed.
5. **The ring and the link.** The ring delivers a prefix of what was written however the two
   sides interleave. The receive thread dispatches the messages sent if and only if no chunk
   ends inside a frame beyond its two length bytes; and then, however read completions,
   interrupts, readiness and the parts of a result are mixed, each read gets the data sent for
   it, the handler every vector in order, and report() the whole result and not before
   (`LinkTraffic.AllArrive`, `LinkMessages.AnnouncedExactly`).
6. **Commands and their locks.** Whatever completions arrive, a command with a callback is
   erased, and its pages freed, exactly if one of them is its own, and one that is waited for is
   marked completed exactly then (`Commands.CompletionsHandled`, `Commands.HandlingFrees`). Any
   number of threads around them cannot deadlock; every run is bounded, and at its end every
   command is released and every asynchronous one was collected once by the I/O thread
   (`CommandRuns.RunsFromInitEnd`).

## Where the source does something else than it seems to

- nvme_driver.cpp:259: after a list page is chained on, the slot number `i` is not set back to
  1, so later entries go beyond the new page. `Prp.RoundTripExactly` says when this matters.
  The loop with the reset is the `restart` variant of the same function and holds for all
  lengths (`Prp.RestartedRoundTrip`).
- pcie_link_mcmq.cpp:211: `last_len` is created anew at every wake-up, so a header read ahead
  of its payload is forgotten. `Deframer.SourceParsesExactly` says when this matters;
  `Deframer.ChunksDoNotMatter` is about the loop with the length kept.
- pcie_link_mcmq.cpp:297-304: a result whose first fragment is empty takes the next fragment
  for the first (`LinkMessages.ResultAssembledExactly`).
- memory_space.cpp:73-74: the padding is never given back, because neighbouring holes never
  touch; `Memory.MemorySpace.Take` proves the branch dead. So an allocation that skipped
  padding is not undone by its free (`HoleList.FreeUndoesAllocate`).
- io_thread.cpp:90 and 181: a buffer is allocated at its size rounded up to pages and freed at
  its raw size; `Arena.RawFreeRestores` shows that only whole pages come back completely.
- nvme_driver.h:105: the 16-bit temporary never equals a depth of 65536
  (`QueuePair.WrapFlipsPhase`).
- nvme_driver.cpp:308-316: nothing checks that the submission queue has room; at one command
  too many the queue looks empty to the device (`QueuePair.OverfullLooksEmpty`). main.cpp:125
  and 142 give driver and thread the same io_queue_depth, and nvme_driver.cpp:119 makes the
  queue no deeper than that, so only average_enqueued_requests keeps a flow safe. From depth
  enqueued requests on, some run overfills the queue (`FlowLimits.QueueOverflows`), and where
  exactly depth can be in flight a run loses every one of them (`FlowLimits.FullQueueLosesAll`).
- ringbuffer.h:112: the class admits index types narrower than int, whose difference is taken
  in int and then misses a full ring (`RingBuffer.NarrowFullCheck`); the simulator uses size_t.
- io_thread_synthetic.cpp:83-94: with no request primed, or a queue depth of 0, a flow with
  requests to complete waits for ever; `FlowTheorems.StuckIsFinished` has the exact condition.
- io_thread_synthetic.cpp:83-94: nothing compares average_enqueued_requests with
  request_count (config_reader.cpp:233-234). With more requests started than completions
  waited for, some run ends with buffers still allocated (`FlowLimits.BuffersLeft`);
  `FlowLimits.MemoryReturnsExactly` has the exact condition.
- nvme_driver.cpp:196-205: an id still in use when the counter comes round is given out again,
  and the command that had it loses its callback. With two commands in flight and more than
  65536 requests a device that withholds one completion brings this about, and the request is
  never called back (`FlowIds.IdsClash`); `FlowIds.IdsSafeExactly` has the exact condition.

## Conventions

Addresses and counters are unbounded unless a width matters, and then the wrap is written out.
The allocator manages a region below 2^32. `& buffer_mask` is the remainder by a size that
divides 2^n. Exceptions are `None` or `false`, and so is `abort`; each contract says exactly when.
Generated requests are an arbitrary function of their number. A lock-protected region, a
single shared-memory access or a register write is one step of the state machines.

## Model

| member | source | states |
|---|---|---|
| HoleList.LeastAligned | memory_space.cpp:67-70 | the padded base is the least multiple of the alignment at or above the hole's base |
| HoleList.AllocateIsLeastFit | memory_space.cpp:58-86 | first fit returns the least aligned address whose whole range is free, and fails exactly when no such address exists |
| HoleList.CarveExact | memory_space.cpp:70-76 | what an allocation leaves is canonical and free exactly where it was before, without the padding and the range taken |
| HoleList.AllocatedRange | memory_space.cpp:58-86 | the range handed out was free and is not any more; nothing else that was in use becomes free |
| HoleList.ReleaseShape | memory_space.cpp:93-125 | insertion and the double merge yield the list with at most one joined hole around the freed range |
| HoleList.ReleaseExact | memory_space.cpp:93-125 | freeing a used range adds exactly that range to free memory and keeps the list canonical |
| HoleList.CanonicalUnique | memory_space.cpp:39-56 | two canonical hole lists with the same free addresses are equal |
| HoleList.FreeUndoesAllocate | memory_space.cpp:58-125 | free after allocate restores the hole list exactly when no padding was skipped |
| HoleList.EndsWithin | memory_space.cpp:93-125 | holes of a region stay within it |
| SlotTable.Unlink | memory_space.cpp:27-37 | unlinking a slot keeps the two lists acyclic, disjoint and together all slots |
| SlotTable.Link | memory_space.cpp:104-123 | linking in a free slot keeps them so |
| Memory.PageUp | memory_space.cpp:10-11 | the least multiple of the page size at or above x |
| Memory.MemorySpace.constructor | memory_space.cpp:13-25 | no holes, all 512 slots on the free list |
| Memory.MemorySpace.DeleteSlot | memory_space.cpp:27-37 | removes exactly one hole and pushes its slot on the free list |
| Memory.MemorySpace.MergeHole | memory_space.cpp:39-56 | computes the double merge on the list of holes and keeps the heap shape |
| Memory.MemorySpace.Allocate | memory_space.cpp:58-86 | computes first fit on the list of holes, in place, for every alignment |
| Memory.MemorySpace.FindFit | memory_space.cpp:64-83 | the walk stops at the first hole that fits, or at the end exactly when none does |
| Memory.MemorySpace.Take | memory_space.cpp:70-78 | the give-back of padding never fires |
| Memory.MemorySpace.AllocatePages | memory_space.cpp:88-91 | first fit of the rounded-up length at page alignment |
| Memory.MemorySpace.Free | memory_space.cpp:93-125 | computes Release in place; aborts exactly on a non-empty range with 512 holes |
| Memory.MemorySpace.FindPrev | memory_space.cpp:116-120 | the walk stops at the one insertion point |
| Memory.MemorySpace.LinkSlot | memory_space.cpp:104-123 | inserts the freed range at its place, in the first free slot |
| Memory.MemorySpace.FreePages | memory_space.cpp:127-130 | frees the rounded-up range |
| Arena.SeededPartition | memory_space.cpp:93-114 | freeing a whole region into an empty allocator makes it one hole |
| Arena.AllocateKeeps | memory_space.cpp:88-91 | a page allocation hands out a block disjoint from every live one, and free and live memory still partition the region |
| Arena.FreeKeeps | memory_space.cpp:93-125 | a live block may be freed, and the partition is kept |
| Arena.SameBlocksSameHoles | memory_space.cpp:39-56 | the hole list is a function of the live blocks, whatever the order of operations |
| Arena.NothingLive | memory_space.cpp:93-125 | with nothing live the region is a single hole |
| Arena.HolesBounded | memory_space.cpp:99-102 | at most one hole more than there are live blocks |
| Arena.SameHolesSameBlocks | memory_space.cpp:39-56 | a block more in use shows in the hole list |
| Arena.RoomForBlock | memory_space.cpp:66-85 | a region larger than what the live blocks and holes too small for a request can take up has a hole for it, however fragmented |
| Arena.RawFreeRestores | io_thread.cpp:181 | allocating rounded up and freeing the raw size restores the holes exactly for whole pages |
| ArenaRuns.StepSound | memory_space.cpp:88-130 | any allocation or free of a live block keeps the partition, and neither aborts below the bound |
| ArenaRuns.StepExact | memory_space.cpp:58-125 | an allocation adds one block of the rounded-up size at the least free page address, or changes nothing exactly when there is none; a free ends that block only |
| ArenaRuns.RunConserves | memory_space.cpp:88-130 | over any run the hole list is determined by what is live at its end |
| ArenaRuns.RunSound | memory_space.cpp:99-102 | runs with at most 510 blocks live never abort |
| ArenaRuns.TableCanFill | memory_space.cpp:99-102 | a run with 511 live blocks that does abort |
| Prp.RestartedRoundTrip | nvme_driver.cpp:216-272 | with the slot number restarted, every buffer is read back exactly, in ceil((entries-1)/511) list pages |
| Prp.ChainHop | nvme_driver.cpp:246-259 | moving the last entry to a fresh page and linking it leaves what the device reads unchanged |
| Prp.OnePageRoundTrip | nvme_driver.cpp:216-272 | the driver's own loop is read back exactly for up to 512 list entries; without a list memory and pages are untouched, and PRP2 is zero for one page |
| Prp.RoundTripExactly | nvme_driver.cpp:244-268 | the driver's own loop round-trips for all memory contents if and only if no list or at most 512 entries are needed |
| Prp.TooLongFails | nvme_driver.cpp:246-263 | with more entries there are memory contents for which the device reads something else |
| Prp.PastHop | nvme_driver.cpp:259-267 | where the entries after a hop really go |
| Prp.OnePageFrame | nvme_driver.cpp:261-262 | up to 512 entries every write stays inside the list page |
| Prp.DecodeFrame | nvme_driver.cpp:216-272 | what the device reads depends only on the command's own list page |
| QueuePair.InitRelated | nvme_driver.cpp:96-113 | initialised queues are empty on both sides |
| QueuePair.SubmitKeeps | nvme_driver.cpp:308-316 | a submission with at most depth-2 commands unfetched overwrites none of them |
| QueuePair.DoorbellKeeps | nvme_driver.cpp:274-296 | after each call at most depth-2 entries are unpublished, and their number is the tail distance modulo depth |
| QueuePair.FetchKeeps | nvme_driver.cpp:308-316 | the device fetches exactly the submitted commands, in order |
| QueuePair.PostKeeps | nvme_driver.cpp:96-113 | the device may post exactly while fewer than depth-1 entries are beyond the doorbell, and then overwrites none unconsumed |
| QueuePair.PendingExactly | nvme_driver.cpp:524-535 | an entry is seen as pending exactly when one is posted and unconsumed, and it is the oldest |
| QueuePair.ConsumeKeeps | nvme_driver.h:103-113 | moving the head keeps index and phase in step with the number consumed |
| QueuePair.RingKeeps | nvme_driver.cpp:298-306 | ringing the doorbell releases exactly the consumed entries |
| QueuePair.WrapFlipsPhase | nvme_driver.h:103-113 | the phase flips at the end of a lap exactly for depths up to 65535 |
| QueuePair.OverfullLooksEmpty | nvme_driver.cpp:308-316 | one command too many makes the queue look empty to the device |
| Commands.SetupIsFreshExactly | nvme_driver.cpp:193-208 | registering a command leaves all others as they were exactly when its id was free |
| Commands.DistinctAllFire | nvme_driver.cpp:537-579 | completions of distinct asynchronous commands run each one's callback once, in order, and erase exactly those |
| Commands.CompletionsHandled | nvme_driver.cpp:550-579 | for any completions and any commands: one with a callback is erased exactly if one of the completions is its own, one without stays and is marked completed exactly then, all else is unchanged |
| Commands.FiredExactly | nvme_driver.cpp:562-568 | with distinct ids exactly the callbacks of the commands completed run, once each and in order, whatever other completions come between |
| Commands.NewPage | nvme_driver.cpp:239-240 | a list page handed out is none of those in use |
| Commands.TakePagesSnoc | nvme_driver.cpp:250-251 | pages are taken one after the other |
| Commands.TakenWereFree | nvme_driver.cpp:239-251 | exactly the addresses of the pages taken were free and are not any more |
| Commands.TakenDiffer | nvme_driver.cpp:239-251 | the pages taken are whole and all different |
| Commands.GivenAreFree | nvme_driver.h:30-34 | giving back any number of list pages frees exactly their addresses |
| Commands.GiveUndoesTake | nvme_driver.cpp:239-251 | giving back the pages taken restores the holes |
| Commands.HandlingFrees | nvme_driver.cpp:581-592 | handling completions frees exactly the list pages of the commands erased |
| Commands.HandleAllAppend | nvme_driver.cpp:585-589 | completions are handled one after the other, and nothing follows an abort |
| Commands.GivePagesSucceeds | nvme_driver.h:30-34 | with at most 510 blocks live the frees of a command's pages do not abort, end exactly those blocks, and leave the other commands' pages live |
| Commands.HandlingSucceeds | nvme_driver.cpp:581-592 | with at most 510 blocks live no sequence of completions makes the interrupt handler abort |
| NvmeDriver.NvmeQueue.constructor | nvme_driver.cpp:76-113 | the initial queue |
| NvmeDriver.NvmeQueue.WriteSqDoorbell | nvme_driver.cpp:274-296 | rings exactly when QueuePair says so |
| NvmeDriver.NvmeQueue.SubmitSqCommand | nvme_driver.cpp:308-316 | entry, tail and doorbell as in QueuePair |
| NvmeDriver.NvmeQueue.CqePending | nvme_driver.cpp:524-535 | the phase test |
| NvmeDriver.NvmeQueue.UpdateCqHead | nvme_driver.h:103-113 | the head step with its 16-bit temporary |
| NvmeDriver.NvmeQueue.RingCqDoorbell | nvme_driver.cpp:298-306 | writes the head to the doorbell and nothing else |
| NvmeDriver.NvmeDriver.SetupAsyncCommand | nvme_driver.cpp:193-208 | emplace under the next 16-bit id; the fields are overwritten even if the id was in use |
| NvmeDriver.NvmeDriver.AddListPage | nvme_driver.cpp:239-240 | the page first fit hands out, free before and owned by this command only; fails exactly when none fits, changing nothing |
| NvmeDriver.NvmeDriver.SetupBuffer | nvme_driver.cpp:216-272 | computes Prp.Setup in DMA memory, taking exactly the list pages it records; fails exactly when these are too few, never without a list; up to 512 entries the device reads back exactly the buffer |
| NvmeDriver.NvmeDriver.SetupList | nvme_driver.cpp:232-271 | the same for a buffer that needs a list |
| NvmeDriver.NvmeDriver.FillList | nvme_driver.cpp:244-268 | the loop computes Prp.ListLoop on exactly the pages it takes, and fails exactly where that runs out of pages |
| NvmeDriver.NvmeDriver.ChainPage | nvme_driver.cpp:246-259 | the hop: one page taken, last entry moved, link written; fails only for want of a page, changing neither the holes nor the list |
| NvmeDriver.NvmeDriver.SubmitAsyncCommand | nvme_driver.cpp:336-352 | registers, describes and submits one command, also under an id still in use, taking exactly its list pages; fails exactly when a list page is missing, and then nothing reaches the queue |
| NvmeDriver.NvmeDriver.RemoveAsyncCommand | nvme_driver.cpp:210-214 | erases the command and makes exactly the addresses of its list pages free; aborts exactly when one of these frees finds the slot table full |
| NvmeDriver.NvmeDriver.HandleCqe | nvme_driver.cpp:537-579 | a command with a callback is erased, its pages freed and the callback run; another is marked completed; an unknown id changes nothing; aborts exactly when those frees do |
| NvmeDriver.NvmeDriver.NvmeIrq | nvme_driver.cpp:581-592 | handles every posted entry once, oldest first, and rings the doorbell exactly if there was one; what that means for each command, for free memory and for the callbacks; aborts exactly where handling the entries in order does |
| FlowInvariant.EnlistPaces | io_thread.cpp:93-102 | a new request goes out or waits so that none waits while one more may go |
| FlowKeeps.InitInv | nvme_driver.cpp:76-113 | the initial state satisfies the invariant, whatever id the counter has reached |
| FlowKeeps.FillKeeps | io_thread_synthetic.cpp:83-90 | priming one request keeps it |
| FlowKeeps.CollectKeeps | io_thread.cpp:156-167 | popping takes all requests completed and not yet processed, and keeps it |
| FlowKeeps.ProcessKeeps | io_thread.cpp:173-193 | accounting and freeing one completed request keeps it |
| FlowKeeps.DrainKeeps | io_thread.cpp:195-199 | sending the oldest waiting request keeps it |
| FlowKeeps.OnCompletedKeeps | io_thread_synthetic.cpp:69-79 | replacing a completed request keeps it |
| FlowKeeps.SetupCmdKeeps | nvme_driver.cpp:193-208 | registering a command under a free id keeps it |
| FlowKeeps.BuildListMemory | nvme_driver.cpp:216-272 | building a request's PRP entries describes its buffer and disturbs no other description and no live range |
| FlowKeeps.BuildPrpKeeps | nvme_driver.cpp:345-347 | building PRP entries keeps the invariant |
| FlowKeeps.EnqueueCmdKeeps | nvme_driver.cpp:311-314 | writing the entry keeps it while the queue has room |
| FlowKeeps.RoomInQueue | nvme_driver.cpp:311-314 | with min(queue_depth, average) below the depth the queue always has room for the command about to be written |
| FlowKeeps.RingSqDbKeeps | nvme_driver.cpp:274-296 | ringing keeps it |
| FlowKeeps.DevFetchKeeps | nvme_driver.cpp:308-316 | the device's fetch keeps it |
| FlowKeeps.DevPostKeeps | nvme_driver.cpp:524-535 | a completion of any command held keeps it |
| FlowKeeps.IrqCheckKeeps | nvme_driver.cpp:585 | the test for a pending entry keeps it, and finding none means none is posted |
| FlowKeeps.IrqHandleKeeps | nvme_driver.cpp:565-567 | running the callback keeps it |
| FlowKeeps.IrqReleaseKeeps | nvme_driver.cpp:578 | erasing the command and freeing its list page keeps it |
| FlowKeeps.IrqAdvanceKeeps | nvme_driver.cpp:588 | moving the head keeps it |
| FlowKeeps.IrqRingKeeps | nvme_driver.cpp:591 | the completion doorbell is written only for entries consumed since it was last, and keeps it |
| FlowKeeps.HandledIsListed | nvme_driver.cpp:552-560 | the entry being handled belongs to a live command with its own callback, so the branch for an unknown id is dead |
| FlowKeeps.RoomInTable | memory_space.cpp:99-102 | the abort in free is unreachable |
| FlowKeeps.LiveBounded | io_thread.cpp:82-103 | the blocks in use never exceed those made before, the average, the commands in flight and one, and 510 |
| FlowKeeps.StepKeepsBut | nvme_driver.cpp:193-352 | every step keeps the invariant, if a command registered gets a free id and one written finds room |
| FlowKeeps.StepKeeps | nvme_driver.cpp:193-352 | every step of every thread and of the device keeps the invariant |
| FlowTheorems.WindowFresh | nvme_driver.cpp:196-199 | while fewer than 65536 ids are issued in any command's lifetime, the next id is free, across counter wraps |
| FlowTheorems.WindowIsFresh | nvme_driver.cpp:196-199 | so a run that stays within that window only gives out free ids |
| FlowTheorems.QuietIsFresh | nvme_driver.cpp:196-199 | if neither device nor interrupt thread can move, the id about to be given out is free |
| FlowTheorems.SmallIsFresh | nvme_driver.cpp:196-199 | flows of at most 65536 requests always do |
| FlowTheorems.RunKeeps | nvme_driver.cpp:193-352 | every state of every run in every interleaving satisfies the invariant |
| FlowTheorems.StepAdvances | io_thread_synthetic.cpp:81-95 | every step advances the flow by the measure Progress |
| FlowTheorems.RunsEnd | io_thread_synthetic.cpp:81-95 | no run from a reachable state goes on for ever |
| FlowTheorems.RunsFromInitEnd | io_thread_synthetic.cpp:81-95 | a run has at most average + 18 max(average, count) + 2 steps |
| FlowTheorems.AtMostOnce | nvme_driver.cpp:537-579 | each callback runs at most once, after its command was fetched, in completion order, and is the command's own |
| FlowTheorems.FetchedDescribesBuffer | nvme_driver.cpp:216-272 | what the device fetches is the next request, and its data pointers decode to exactly that request's live buffer |
| FlowTheorems.NeverOverlap | memory_space.cpp:58-125 | queues, list pages and buffers never overlap |
| FlowTheorems.PacingLaw | io_thread.cpp:82-103 | submitted - completed = min(average, count - completed); in flight is the minimum of that and the cap; the rest waits |
| FlowTheorems.IrqNeverBlocks | nvme_driver.cpp:581-592 | inside the interrupt handler the next step is always enabled |
| FlowTheorems.QuietDevice | nvme_driver.cpp:308-316 | if device and interrupt thread cannot move but for completions withheld, everything published is fetched and only those are held |
| FlowTheorems.StuckDevice | io_thread.cpp:152-160 | when nothing can move the device holds no command |
| FlowTheorems.StuckIsFinished | io_thread_synthetic.cpp:83-94 | a flow that cannot move has completed its requests if and only if there were none, or average and queue depth are at least 1 |
| FlowTheorems.NothingLeft | nvme_driver.h:30-34 | with every request processed no command and no block of the flow is left |
| FlowRoom.StepStaysRunning | io_thread.cpp:90 | with enough memory no step's allocation fails |
| FlowRoom.RunStaysRunning | io_thread.cpp:90 | nor any of a run |
| FlowRoom.FinishedExactly | io_thread_synthetic.cpp:81-95 | a flow that can go no further is finished if and only if no more requests are started than completed and, unless there are none, at least one is kept going |
| FlowRoom.FlowCompletes | io_thread_synthetic.cpp:81-95 | the capstone: every run of a roomy flow in which commands get free ids stays running, and where it can go no further every request was completed exactly once and the allocator is back at its starting hole list, exactly under that condition |
| FlowRoom.SafeAction | nvme_driver.cpp:196-199 | a flow that can move can move without giving out an id in use |
| FlowRoom.EndReachable | io_thread_synthetic.cpp:81-95 | from every reachable state some run leads to such an end, giving out free ids only |
| FlowLimits.FillStep | io_thread_synthetic.cpp:83-90 | while the flow is primed the queue can be filled step by step, whatever the configuration |
| FlowLimits.QueueOverflows | nvme_driver.cpp:308-316 | with more commands in flight than the queue holds, a run leaves depth commands unfetched in a queue that looks empty |
| FlowLimits.QueueRoomExactly | nvme_driver.cpp:308-316 | no run overfills the queue if and only if min(queue_depth, average) is below the depth |
| FlowLimits.FullQueueLosesAll | nvme_driver.cpp:308-316 | where exactly depth requests can be in flight a run submits depth commands, gets stuck and completes none |
| FlowLimits.StuckLeaves | io_thread_synthetic.cpp:92-94 | where a flow can go no further, what is still in use is the buffers of requests never sent or never collected, and the hole list is the old one exactly if there are none |
| FlowLimits.ThinRun | io_thread.cpp:159-170 | in flows of at most 65536 requests completions can be let through one at a time up to the last one waited for |
| FlowLimits.BuffersLeft | io_thread_synthetic.cpp:83-94 | with more requests started than completed, a run ends with average - count requests not processed and memory not given back |
| FlowLimits.MemoryReturnsExactly | io_thread_synthetic.cpp:83-94 | memory is given back at the end of every run if and only if nothing is started, or no more is started than completed and the queue depth is at least 1 |
| FlowIds.NarrowPost | nvme_driver.cpp:581-592 | with one command in flight completions come in the order of submission |
| FlowIds.SafeIsFresh | nvme_driver.cpp:196-199 | with at most 65536 requests, or one in flight at a time, every enabled run gives out free ids only |
| FlowIds.ThreadMustMove | io_thread.cpp:152-171 | with two commands in flight a single completion withheld does not stop the flow |
| FlowIds.RunToClash | nvme_driver.cpp:196-199 | a run in which the first command is withheld until the ids are used up |
| FlowIds.IdsClash | nvme_driver.cpp:193-208 | with two commands in flight and more than 65536 requests an enabled run gives the id of a command outstanding to another one, and its request is never called back, whatever follows |
| FlowIds.IdsSafeExactly | nvme_driver.cpp:193-208 | every enabled run gives out free ids only if and only if there are at most 65536 requests or at most one is in flight at a time |
| FlowIds.SafeFlowCompletes | io_thread_synthetic.cpp:81-95 | the capstone for those flows, for every sequence of enabled steps |
| IoThread.SubmitSound | io_thread.cpp:82-103 | submitting keeps every request in one place and the pacing exact |
| IoThread.NotifySound | io_thread.cpp:131-137 | a completion of any outstanding request, in any order, keeps the thread's state sound |
| IoThread.AccountSound | io_thread.cpp:177-193 | accounting neither wraps the in-flight counter nor aborts in free |
| IoThread.DrainSound | io_thread.cpp:195-199 | the draining loop stops at the cap or with nothing waiting |
| IoThread.TotalsOfAll | io_thread.cpp:178-193 | counts and bytes transferred do not depend on the order of completion |
| IoThread.SomethingInFlight | io_thread.cpp:159-160 | whenever the thread blocks with work left, a request is in flight |
| IoThread.NeverRefused | io_thread.cpp:90 | a roomy flow always has room for the next buffer |
| IoThread.EndSettled | io_thread_synthetic.cpp:92-94 | at the end, with no more requests started than completed, each was completed once, memory is back and the statistics are the totals |
| IoThread.IOThread.constructor | io_thread.cpp:6-16 | a fresh thread, with the settings and sizes of a flow |
| IoThread.IOThread.SubmitIoRequest | io_thread.cpp:82-103 | one request more, in the queue the cap says, with a buffer of its own; a failed allocation changes nothing |
| IoThread.IOThread.PlaceRequest | io_thread.cpp:93-102 | a request with its buffer goes to the device or waits, as the cap says |
| IoThread.IOThread.SubmitToDevice | io_thread.cpp:105-129 | one more in flight, at the driver |
| IoThread.IOThread.NotifyRequestCompletion | io_thread.cpp:131-137 | queues the completed request |
| IoThread.IOThread.Account | io_thread.cpp:177-193 | counters, statistics and free for one request |
| IoThread.IOThread.DrainWaiting | io_thread.cpp:195-199 | waiting requests go out oldest first, up to the cap |
| IoThread.IOThread.OnRequestCompleted | io_thread_synthetic.cpp:69-79 | submits the next request exactly while some are left; fails exactly for want of room, changing nothing |
| IoThread.IOThread.ProcessCompletedRequest | io_thread.cpp:173-204 | accounts, drains and replaces one completed request; fails exactly when its successor finds no room, with all else done |
| IoThread.IOThread.WaitForCompletedRequests | io_thread.cpp:152-171 | returns only after processing at least one completion and all that were queued before, unless the next request finds no room |
| IoThread.IOThread.Prime | io_thread_synthetic.cpp:83-90 | submits exactly the average, or stops at the first request that finds no room |
| IoThread.IOThread.RunImpl | io_thread_synthetic.cpp:81-95 | terminates; fails only when the next request finds no room, never in a roomy flow; otherwise the count is completed, and with no more started than that each exactly once and the hole list is the one before |
| CommandLocks.StepKeeps | nvme_driver.cpp:193-214 | every step of submitters, interrupt thread, I/O thread and device keeps lock ownership, the life of every command and the once-only delivery of its request in order |
| CommandLocks.TouchedIsListed | nvme_driver.cpp:537-579 | no thread touches an erased command, from registration on, and waiter and handler are never inside one command together |
| CommandLocks.NoLostWakeup | nvme_driver.cpp:21-37 | a thread asleep in wait is not completed and its completion is still on the way |
| CommandLocks.OneAtATime | nvme_driver.cpp:193-214 | no two threads work on the command table, one command, the allocator or the completion queue together |
| CommandLocks.LockOrder | nvme_driver.cpp:550-579 | locks are taken in the order command_mutex, command or alloc_mutex, completion_mutex |
| CommandLocks.NoCyclicWait | nvme_driver.cpp:537-579 | no chain of threads waiting for one another closes |
| CommandLocks.CollectedOnce | io_thread.cpp:131-167 | the requests collected or queued are, once each, the asynchronous commands whose callback has been called |
| CommandLocks.StuckIsDone | io_thread.cpp:131-171 | no deadlock: when nothing can move every command is completed and released, every asynchronous one was collected once and no other, and the I/O thread sleeps with nothing to collect |
| CommandRuns.StepAdvances | nvme_driver.cpp:537-579 | every step of every thread takes a command further, or the I/O thread towards sleep |
| CommandRuns.RunsFromInitEnd | nvme_driver.cpp:21-37 | every run has at most 29 steps for each command and four, and one that cannot be continued has completed and released every command and collected every asynchronous one once |
| RingBuffer.TracksSub | ringbuffer.h:87-101 | the wrapped difference of the indices is the number of elements between them, and equal indices mean none |
| RingBuffer.MaskExact | ringbuffer.h:347-348 | masking a wrapped index selects the slot of the true counter |
| RingBuffer.NarrowFullCheck | ringbuffer.h:112 | in a narrow index type a full ring is recognised exactly when the head has not wrapped past the tail |
| RingBuffer.Ringbuffer.constructor | ringbuffer.h:38 | an empty ring |
| RingBuffer.Ringbuffer.ReadAvailable | ringbuffer.h:87-91 | the number of elements present, across index wrap |
| RingBuffer.Ringbuffer.WriteAvailable | ringbuffer.h:97-101 | the number of free slots |
| RingBuffer.Ringbuffer.Insert | ringbuffer.h:108-120 | appends exactly when there is room |
| RingBuffer.Ringbuffer.Remove | ringbuffer.h:217-229 | takes the oldest element, if any |
| RingBuffer.Ringbuffer.RemoveMany | ringbuffer.h:191-200 | drops the oldest elements, at most as many as there are |
| RingBuffer.Ringbuffer.At | ringbuffer.h:238-265 | the element at a distance from the oldest one |
| RingBuffer.Ringbuffer.WriteBuff | ringbuffer.h:386-406 | appends the longest prefix that fits |
| RingBuffer.Ringbuffer.ReadBuff | ringbuffer.h:447-467 | takes the oldest elements in order, as many as asked for and present |
| RingBuffer.Ringbuffer.WriteBuffInBatches | ringbuffer.h:410-443 | appends a prefix, and all of it unless the ring is full, while the consumer runs in between |
| RingBuffer.Ringbuffer.ReadBuffInBatches | ringbuffer.h:471-504 | takes elements in order, and all asked for unless the ring is empty, while the producer runs in between |
| SpscRing.StartWriteKeeps | ringbuffer.h:389-396 | a write accepts exactly what is free at its load of the tail |
| SpscRing.StoreSlotIsFree | ringbuffer.h:399-400 | a slot is never written while it holds an element not released |
| SpscRing.StoreSlotKeeps | ringbuffer.h:399-400 | storing one slot keeps the invariant |
| SpscRing.LoadSlotIsPublished | ringbuffer.h:460-461 | a slot is read only after publication, and holds the next element |
| SpscRing.StepKeeps | ringbuffer.h:386-467 | every step of either side keeps the invariant and only appends to input and output |
| SpscRing.OutputIsPrefix | ringbuffer.h:386-467 | in every interleaving the output is a prefix of what was published, and all of it once the ring is empty |
| SpscRing.WriteFinishes | ringbuffer.h:386-406 | a write begun ends after its own steps, wherever the consumer is, and publishes all it accepted |
| SpscRing.ReadFinishes | ringbuffer.h:447-467 | a read begun ends after its own steps, wherever the producer is, and releases the next elements, as many as it began with |
| Deframer.TurnFits | pcie_link_mcmq.cpp:242-256 | one turn reads a header or cuts out exactly the next message |
| Deframer.DrainFits | pcie_link_mcmq.cpp:235-323 | the loop dispatches the complete messages and stops short of the next |
| Deframer.ShortFrameAborts | pcie_link_mcmq.cpp:258 | a frame shorter than a message type fails the assertion, after the messages before it |
| Deframer.RoomForChunk | pcie_link_mcmq.cpp:193-194 | with frames of at most 12289 bytes there is always room for a chunk, so no byte is dropped |
| Deframer.ChunksDoNotMatter | pcie_link_mcmq.cpp:224-262 | with the length kept, every split into chunks dispatches the same messages and leaves nothing |
| Deframer.HeldIsInto | pcie_link_mcmq.cpp:246-249 | a length is pending exactly when the part of a frame received goes beyond its header |
| Deframer.LostForGood | pcie_link_mcmq.cpp:211 | a length forgotten is never made up for |
| Deframer.SourceParsesExactly | pcie_link_mcmq.cpp:210-323 | the source dispatches the messages sent if and only if no chunk ends inside a frame beyond its header |
| LinkMessages.FeedAppend | pcie_link_mcmq.cpp:264-322 | messages act one after the other, and nothing follows a failed assertion |
| LinkMessages.NothingTakenBack | pcie_link_mcmq.cpp:264-322 | no message withdraws an interrupt, readiness, bytes of the result or a completion |
| LinkMessages.RefusedExactly | pcie_link_mcmq.cpp:264-322 | the switch stops exactly at a message too short for its type, or an interrupt that is not just a vector |
| LinkMessages.CompletionsRouted | pcie_link_mcmq.cpp:165-187 | any completions, of outstanding and unknown reads, once or more often: each read holds the data last sent for it, cut to its buffer, and the others are left alone |
| LinkMessages.ResultAssembledExactly | pcie_link_mcmq.cpp:292-318 | a result in fragments is put together and announced if and only if it is one fragment or the first is not empty |
| LinkMessages.AnnouncedExactly | pcie_link_mcmq.cpp:306-316 | after each fragment the buffer holds what was sent so far, and the result is announced exactly when that is all of it |
| LinkMessages.ReportArrives | pcie_link_mcmq.cpp:210-323 | the same for a result arriving in cleanly cut chunks |
| LinkMessages.WorkIsDrainThenFeed | pcie_link_mcmq.cpp:235-323 | the loop with the switch inside cuts the same messages as the loop alone and handles them in order |
| LinkMessages.PCIeLinkMcmq.constructor | pcie_link_mcmq.h:17 | nothing received yet; id counter and result fields may have any value |
| LinkMessages.PCIeLinkMcmq.SetupReadRequest | pcie_link_mcmq.cpp:125-139 | registers a read under the next 32-bit id |
| LinkMessages.PCIeLinkMcmq.CompleteReadRequest | pcie_link_mcmq.cpp:165-187 | copies what fits; an unknown id changes nothing |
| LinkMessages.PCIeLinkMcmq.FinishRead | pcie_link_mcmq.cpp:148-162 | returns the data and erases the request |
| LinkMessages.PCIeLinkMcmq.ClearResult | pcie_link_mcmq.cpp:112-114 | a cleared result |
| LinkMessages.PCIeLinkMcmq.HandleMessage | pcie_link_mcmq.cpp:258-322 | the effect of each message type, and which lengths fail an assertion |
| LinkMessages.PCIeLinkMcmq.Step | pcie_link_mcmq.cpp:242-256 | one turn, on the real ring |
| LinkMessages.PCIeLinkMcmq.DrainLoop | pcie_link_mcmq.cpp:235-323 | the loop terminates and computes Work |
| LinkMessages.PCIeLinkMcmq.WakeUp | pcie_link_mcmq.cpp:211-323 | a wake-up forgets the pending length and then dispatches what Drain says, in order |
| LinkMessages.CutOutIsRun | pcie_link_mcmq.cpp:210-323 | the messages cut out of the chunks are those Run dispatches |
| LinkTraffic.EachKindDelivered | pcie_link_mcmq.cpp:264-322 | in any mixture of messages the handler gets every vector sent, in order; the device is ready exactly if it said so; reads and result fare as by their own messages alone; only parts of a result can fail an assertion |
| LinkTraffic.InterruptsArrive | pcie_link_mcmq.cpp:210-323 | for cleanly cut chunks, every vector sent and exactly these reach the handler in order, whatever else is sent |
| LinkTraffic.AllArrive | pcie_link_mcmq.cpp:189-326 | for cleanly cut chunks with one result in parts among other messages: all reads, vectors and the whole result arrive |
| LinkMessages.PCIeLinkMcmq.RecvThread | pcie_link_mcmq.cpp:189-326 | over all chunks the messages of Run(false), all handled in order; stops early exactly where an assertion on a message fails |

## Left out

- Memory.MemorySpace.Allocate: requires that length plus alignment does not exceed 2^64, where the sums in size_t would wrap.
- Memory.MemorySpace.AllocatePages: requires that the rounded-up length does not exceed 2^64, for the same reason.
- Memory.MemorySpace.FreePages: requires of the rounded-up range what Free does.
- Memory.MemorySpace.Free: requires the range to be in use and to end below 2^32; the source relies on its callers for the first, and 32-bit sums would wrap beyond the second.
- FlowRoom.FlowCompletes: is about one flow whose requests need at most 513 pages each, so one list page; longer lists are the subject of `Prp`.
- FlowRoom.FlowCompletes: several I/O threads sharing the command table and the allocator are not interleaved with one another; `ArenaRuns.RunConserves` and `ArenaRuns.RunSound` hold of the allocator under any interleaving of any threads, and `CommandLocks` has any number of submitters, without memory.
- FlowRoom.FlowCompletes: assumes a region large enough for any fragmentation; in a smaller one an allocation may fail, which the source reports as an exception, and then `FlowTheorems.RunKeeps` is what remains.
- FlowTheorems.FetchedDescribesBuffer: in the flow the rings are indexed sequences, and their memory is one of the blocks allocated before the run.
- IoThread.IOThread.SubmitToDevice: stands for the driver's submission, which `FlowModel` and `NvmeDriver` model; here the command is only added to those outstanding.
- IoThread.IOThread.constructor: requires the bounds of a flow: whole-page sizes of at most 513 pages, and at most 510 blocks in use at once, which bounds the average.
- IoThread.IOThread.WaitForCompletedRequests: requires a queue depth and an average of at least 1, without which the source would block for ever.
- IoThread.IOThread.RunImpl: with no request kept going and some to complete it requires what the source does not, for the source would wait for ever (`FlowTheorems.StuckIsFinished`).
- IoThread.IOThread.RunImpl: completions reach the thread while it waits or between two requests it processes, and the driver's list pages are not allocated from its memory; `FlowModel` has all interleavings with the list pages.
- CommandLocks.StuckIsDone: wake-ups without a notification are not steps of the model; the loops around both waits would go back to sleep.
- SpscRing.OutputIsPrefix: removing without reading and clearing from the producer's side are not steps of the model; memory orders are modelled as the order of the steps.
- LinkMessages.PCIeLinkMcmq.SetupReadRequest: locks and the condition variable of a read are not modelled; an id is read in the host's byte order, taken as little-endian.
- Deframer.SourceParsesExactly: each wake-up is one chunk; wake-ups without data would forget a pending length too, as an empty chunk does here.
- The synchronous read and write calls: opcodes are not modelled, and nvme_driver.cpp:632 submits a read for a write.
- Status codes and results of commands, and the opcode, block address and length fields of an entry: copied, never branched on in the parts modelled.
- The doorbell buffer option, controller bring-up, identification and queue creation: straight-line register and admin traffic; the model starts from initialised queues.
- The bounds assertion of reads and writes against the mapping window: the model's memory is unbounded, and what is written lies in allocated blocks.
- Constructors of the shared and VFIO memory: the region is assumed page-aligned and seeded once; the VFIO seed length includes the base address and is not used as the region's size.
- Framing of outgoing messages, whose high address word is truncated to zero.
- Sockets, epoll, VFIO, YAML, protobuf, histograms, random generation, timestamps and logging.
