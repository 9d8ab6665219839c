# A verified model of tzdriver's core

tzdriver is the Linux driver through which client applications talk to trusted applications in a
TEE. This project models the parts of it whose correctness depends on several functions agreeing
with each other, and proves those agreements for every input, every reachable state or every
interleaving.

- **Buddy allocators** (`Blocks`, `Tiling`, `ZoneSpec`, `BuddyZone`, `BuddyLaws`, `ReservedPool`).
  The mailbox pool and the reserved pool share one zone: page tags and free lists in arrays,
  updated in place. The abstract state is the map `live` from the head of each block handed out to
  its order. The invariant says that the free lists hold exactly the *maximal* unused aligned
  blocks; tiling, canonical form and completeness of allocation follow from that. Page numbers
  stand for addresses, and the buddy is found by XOR on natural numbers.
- **Shared memory** (`SharedTable`, `Mappings`, `SharedMem`). Objects with usage counts driven by
  mmap, remap, munmap and calls. A mapping is known by its address space and start, but an object
  records only the start, and one device may be mapped by two processes. In every run the counts
  match the *records*; that they match the live mappings is what `shared_vma_close` can lose, and the
  model says exactly when.
- **Client calls** (`Mailbox`, `OpRecord`, `ClientCall`). A call takes up to four parameter buffers
  and can fail at any of them. It sits on the zones above, so conservation is stated on the
  allocator's own state.
- **SMC command slots** (`CmdQueue`, `SmcProtocol`, `SmcCaller`, `TimeoutStep`). The queue's lock
  sections as a class over the bitmaps and arrays; the protocol as a transition system with any
  number of callers, a TEE that takes and answers commands, and wake-ups; the queue sections of a
  caller as steps of that protocol; the timeout schedule of a pending command.
- **Services and sessions** (`Sessions`, `SessionRuns`, `SessionStates`, `SessionManager`). The
  counters of services, device slots, session lists and session objects as a transition system whose
  events are lock sections, and the open, send, close and release paths built from them.
- **TA image framing** (`LoadImage`, with the count of free pages in `FreePages`) and the **log ring reader** (`LogReader`).

`Folding`, `Options` and `Machine` are helpers. An invariant of the form `HealthOf(x) == Sound` is a folded
conjunction; mentioning `Unfold(0)` opens it.

What comes from outside (allocation failures, reads of client memory, the TEE's answers, signals)
is a parameter or an event. Locks make a lock section one step. The TEE sets and clears the bits as
the comments of `struct tc_ns_smc_queue` describe, keeps the slot number of a command, and wakes a
caller whose SMC has already returned. The maximum-order caveat is part of the model: freeing the
one block of the maximum order leaves its `count` set, because the merge loop that clears it has no
iteration, so a second free of that block lists it twice; `Freed` gives the exact condition for one
call and `BuddyLaws.AnyRun` for whole sequences.

## Model

| member | source | states |
|---|---|---|
| `BuddyZone.Zone.constructor` | linux/core/mailbox_mempool.c:579-631 | the initial zone meets the invariant, with nothing handed out and no stale tag |
| `BuddyZone.GetOrder` | linux/core/mailbox_mempool.c:138-156 | the order is the least whose block holds the pages |
| `BuddyZone.PageAlignLeast` | linux/core/mailbox_mempool.c:143 | rounding a size up gives the least multiple of the page size not below it |
| `BuddyZone.OrderHolds` | linux/core/mailbox_mempool.c:138-156 | a block of the order taken for a size in bytes holds that many bytes, and a block of the order below would not |
| `BuddyZone.Zone.Alloc` | linux/core/mailbox_mempool.c:138-187 | fails exactly for size 0, an order above the maximum, or when no aligned run of 2^order pages is wholly unallocated; otherwise hands out such a run by best fit, at least as long as the size asked for and not twice as long as needed, and keeps the tiling |
| `BuddyZone.Zone.TakeFirst` | linux/core/mailbox_mempool.c:157-176 | splitting the first sufficient free block keeps list, tag and tiling agreement and hands out its bottom part |
| `BuddyZone.Zone.ListUpperHalves` | linux/core/mailbox_mempool.c:166-173 | the split loop lists exactly the upper halves, one per order, with their tags |
| `BuddyZone.Zone.MergeOnce` | linux/core/mailbox_mempool.c:244-268 | one round of coalescing: merges exactly when the XOR buddy is a free block of the same order, into the lower of the two |
| `BuddyZone.Zone.MergeLoop` | linux/core/mailbox_mempool.c:244-273 | coalescing ends with the maximal free block listed, or reaches the maximum order |
| `BuddyZone.Zone.MailboxFree` | linux/core/mailbox_mempool.c:218-275 | removes the block whose head is freed, changes nothing for any other page, and keeps the invariant if and only if the page is not the stale whole-pool head; says when the tag becomes stale |
| `BuddyZone.Zone.ListWholePool` | linux/core/mailbox_mempool.c:189-203 | a block merged up to the maximum order is the whole pool, headed by page 0 |
| `BuddyZone.Zone.BuddyMerge` | linux/core/reserved_mempool.c:443-486 | yields the head of the maximum-order block, or lists the maximal block below it |
| `BuddyZone.Zone.ReservedFree` | linux/core/reserved_mempool.c:488-523 | refines the same abstract free as `MailboxFree` |
| `Blocks.XorIsBuddy` | linux/core/mailbox_mempool.c:244-250 | for an aligned head, XOR with 2^k is the other half of the enclosing block, and the lower of the two heads it |
| `ZoneSpec.BuddyTest` | linux/core/mailbox_mempool.c:244-256 | the buddy's tag says order k and count 0 exactly when the buddy block is in list k |
| `ZoneSpec.MergeStep` | linux/core/mailbox_mempool.c:255-268 | unlinking the buddy and retagging both heads turns two blocks into one of the next order |
| `ZoneSpec.MergeDone` | linux/core/mailbox_mempool.c:256-273 | listing the merged block restores the whole invariant without the freed block |
| `ZoneSpec.SplitDone` | linux/core/mailbox_mempool.c:157-176 | unlinking the split block restores the whole invariant with the new block |
| `ZoneSpec.NoListNoRun` | linux/core/mailbox_mempool.c:157-163 | empty lists from order k up mean that no aligned run of 2^k unallocated pages exists |
| `ZoneSpec.TagMeaning` | linux/core/mailbox_mempool.c:228-242 | a nonzero count marks the head of a block handed out, except for the freed whole pool |
| `Tiling.MaximalDisjoint` | linux/core/mailbox_mempool.c:244-273 | maximal free blocks that share a page are the same block |
| `Tiling.MaximalCover` | linux/core/mailbox_mempool.c:244-273 | a page is unused exactly when a maximal free block holds it |
| `BuddyLaws.TilesCover` | linux/core/mailbox_mempool.c:157-176 | every page lies in a block, handed out or listed, that starts at a multiple of its size and stays in the pool |
| `BuddyLaws.TilesDisjoint` | linux/core/mailbox_mempool.c:235-273 | no page lies in two blocks, and no block is both handed out and listed, or in two lists |
| `BuddyLaws.BuddiesNotBothFree` | linux/core/mailbox_mempool.c:244-273 | two buddies of one order are never both free |
| `BuddyLaws.FreeBlocksDetermined` | linux/core/mailbox_mempool.c:166-173 | the free blocks are a function of which pages are handed out |
| `BuddyLaws.AllFreed` | linux/core/mailbox_mempool.c:189-203 | with everything freed, one maximum-order block is all there is |
| `BuddyLaws.AllocThenFree` | linux/core/mailbox_mempool.c:138-275 | alloc succeeds exactly when it should, and the free of that block restores the free blocks of every order |
| `BuddyLaws.AnyRun` | linux/core/mailbox_mempool.c:138-275 | any sequence of requests, of any order, and of frees of arbitrary pages: the zone stays valid if and only if no free of page 0 meets the stale whole-pool tag; the caller-visible state evolves by an abstract step relation |
| `BuddyLaws.ServeRequest` | linux/core/mailbox_mempool.c:138-275 | one request refines the abstract step, through either free function |
| `BuddyLaws.SmallRunsAreSafe` | linux/core/mailbox_mempool.c:205-275 | without requests of the maximum order that never happens |
| `BuddyLaws.GiveAny` | linux/core/mailbox_mempool.c:205-242 | in a pool that never handed out its maximum-order block, a free (mailbox or reserved) changes something if and only if the page heads a block handed out |
| `BuddyLaws.WholePoolFreedTwice` | linux/core/mailbox_mempool.c:189-275 | the excepted case: the whole pool taken once and freed twice is listed twice |
| `ReservedPool.CalcResMemSize` | linux/core/reserved_mempool.c:77-90 | the greatest power of two not above a 32-bit size, 0 for 0 |
| `ReservedPool.PowerOfTwoTest` | linux/core/reserved_mempool.c:77-90 | `n & (n - 1)` is zero exactly for powers of two |
| `ReservedPool.ResMaxOrderExact` | linux/core/reserved_mempool.c:325-352 | the zone's maximum order spans the pool exactly |
| `ReservedPool.SliceBelowMax` | linux/core/reserved_mempool.c:92-96 | a request within the slice size needs an order at least four below the maximum |
| `ReservedPool.SliceExact` | linux/core/reserved_mempool.c:92-96 | the slice is a sixteenth of the pool up to its bound, a multiple of the page size and at least 64 pages |
| `Mailbox.MailboxInit` | linux/core/mailbox_mempool.c:579-631 | a new pool has nothing handed out and can serve exactly the sizes from 1 byte to the whole pool |
| `Mailbox.MailboxAlloc` | linux/core/mailbox_mempool.c:138-187 | succeeds exactly when the size is not 0, its order is within the maximum and an aligned free run exists; hands out such a run, at least as long as the size asked for |
| `Mailbox.MailboxRelease` | linux/core/mailbox_mempool.c:218-275 | any page: takes exactly its block, if it heads one, from the map; the pool stays usable if and only if the page is not the whole pool given back already |
| `SharedMem.SharedMemory.constructor` | linux/core/mem.c:64-86 | starts with no object over a pool that has never handed out its maximum-order block |
| `SharedMem.SharedMemory.TcMemAllocate` | linux/core/mem.c:64-109 | memory is found exactly when the rounded length is within the slice (if there is a reserved pool) and the pool or `vmalloc` has it; reserved memory exactly when the pool can serve it, one new block; never the maximum-order block |
| `SharedMem.SharedMemory.TcMemFree` | linux/core/mem.c:35-54 | returns exactly the object's reserved block, if it has one |
| `SharedMem.SharedMemory.GetSharemem` | linux/core/mem.h:27-31 | one reference more, counts still exact |
| `SharedMem.SharedMemory.PutSharemem` | linux/core/mem.h:33-39 | one reference less; the last one frees the object and its block |
| `SharedTable.FreedWithLastReference` | linux/core/mem.h:33-39 | an object survives a put if and only if it is still mapped or held |
| `SharedTable.UsageDetermined` | linux/core/tc_client_driver.c:544-569 | usage counts are a function of the mappings and the references held |
| `SharedTable.GottenOk` | linux/core/gp_ops.c:501-525 | taking a reference keeps usage = recorded mappings + holders and list membership = mapped |
| `SharedTable.PutOk` | linux/core/gp_ops.c:993-999 | giving a reference up keeps them, with the pool's blocks matching the remaining objects |
| `SharedTable.AttachedOk` | linux/core/tc_client_driver.c:666-690 | turning a held reference into a second mapping keeps them |
| `SharedTable.DetachedOk` | linux/core/tc_client_driver.c:544-569 | removing a mapping keeps them; the object leaves the list exactly when none is left |
| `SharedTable.AddedOk` | linux/core/tc_client_driver.c:690-703 | linking a new object keeps them |
| `SharedTable.FoundByOwnOffset` | linux/core/tc_client_driver.c:577-600 | an object is found again by its own page offset if and only if the offset is below 2^31 or at least 2^64 - 2^31; otherwise a second mmap creates another object |
| `Mappings.AttachedTally` | linux/core/tc_client_driver.c:666-690 | a second mapping keeps the tally: per device and address, records and live mappings are equally many |
| `Mappings.AddedTally` | linux/core/tc_client_driver.c:690-703 | so does the first mapping of a new object |
| `Mappings.DetachedTally` | linux/core/tc_client_driver.c:544-569 | so does a close, whichever object of the device it takes the record from |
| `Mappings.SomeRecord` | linux/core/tc_client_driver.c:544-569 | so a close always finds an object of its device that records the address |
| `Mappings.FoundIsOwn` | linux/core/tc_client_driver.c:545-566 | while objects record their own mappings, the object found is the mapping's own if and only if no object before it on the list records the same address |
| `Mappings.DetachedFaithful` | linux/core/tc_client_driver.c:545-566 | records stay the objects' own mappings if and only if the record of the own object was taken |
| `Mappings.OneProcessIsRight` | linux/core/tc_client_driver.c:545-566 | on a device mapped by one process only, no other object records the address |
| `Mappings.LifetimeExact` | linux/core/mem.h:27-39 | while records are faithful: usage = live mappings + references held; an object exists exactly while mapped or held, and is listed exactly while mapped |
| `SharedMem.SharedMemory.FindByOffset` | linux/core/tc_client_driver.c:577-611 | the first listed object whose stored page offset matches, the 32-bit truncation of the offset included |
| `SharedMem.FirstMatchOk` | linux/core/tc_client_driver.c:577-611 | the walk over the list yields the first object that matches, and none exactly when none matches |
| `SharedMem.SharedMemory.MapAgain` | linux/core/tc_client_driver.c:577-690 | succeeds exactly when the object has no CA mapping, the length matches and the remap works; otherwise nothing changes; records stay exact |
| `SharedMem.SharedMemory.Mmap` | linux/core/tc_client_driver.c:653-704 | for any address: succeeds exactly under the stated conditions, by a second mapping of the first object with that offset or by a new object; a failure leaves objects, counts, lists, mappings and pool as they were; records stay exact |
| `SharedMem.MapThenMapAgain` | linux/core/tc_client_driver.c:653-704 | a mapping of a fresh offset followed by another of the same offset and page-multiple length: the first succeeds exactly when there is memory; the second succeeds and shows the same object when the offset survives the 32-bit truncation; when it does not, a second mapping that succeeds shows a different object |
| `SharedMem.SharedMemory.VmaClose` | linux/core/tc_client_driver.c:528-570 | always puts the first listed object of the device that records the address; it is the own object of the mapping if and only if none before it records that address, and then, and only then, records stay exact |
| `SharedMem.SharedMemory.CloseInOneProcess` | linux/core/tc_client_driver.c:528-570 | on a device mapped by one process a close always puts the mapping's own object |
| `SharedMem.TwoProcesses` | linux/core/tc_client_driver.c:545-566 | the counterexample: two processes map different objects of one device at the same address; closing the second mapping frees the first object, which is still mapped |
| `OpRecord.PackedTypes` | linux/tc_ns_client.h:27-32 | packing four type nibbles and reading one back returns it |
| `OpRecord.TypeAtMeaning` | linux/tc_ns_client.h:27-32 | the four types of a word are its four low nibbles in order |
| `OpRecord.RefOffsetMeaning` | linux/core/gp_ops.c:422-434 | on 32-bit values the test accepts exactly references that lie inside the object |
| `OpRecord.PageListCovers` | linux/core/gp_ops.c:612-640 | the page list has one entry for every page that the buffer touches, from the page of its first byte to the page of its last |
| `OpRecord.TypesPacked` | linux/core/gp_ops.c:760-767 | each nibble of the packed word is the translated type of that parameter |
| `OpRecord.BlockLargeEnough` | linux/core/gp_ops.c:343-402 | a block recorded for a size holds that many bytes |
| `ClientCall.Call.AllocForTmpMem` | linux/core/gp_ops.c:343-402 | succeeds exactly when the size is readable, within 1 MB, a block is there and input data is readable; then a block of the size's order is recorded (none for size 0), else -ENOMEM or -EFAULT as the failure says; on every exit what was taken is recorded |
| `ClientCall.Call.FindShared` | linux/core/gp_ops.c:501-505 | none exactly when no listed object is mapped at the address; otherwise the first on the list that is |
| `ClientCall.Call.FindForRef` | linux/core/gp_ops.c:481-512 | the object a reference names: the first listed one at the address, if the size is readable and not 0 and the range named lies inside it; none exactly when no object is named |
| `ClientCall.RefNamesOne` | linux/core/gp_ops.c:501-525 | a reference names at most one object |
| `ClientCall.Call.AllocForRefMem` | linux/core/gp_ops.c:481-541 | succeeds exactly when the reference names an object that is in reserved memory or gets its copy from the mailbox; then the object is held, in place if and only if its memory is reserved, with a copy of the size's order otherwise, and the type the TEE sees follows its memory kind; -ENOMEM exactly when the copy has no room, else -EINVAL |
| `ClientCall.Call.AllocForPageList` | linux/core/gp_ops.c:612-657 | succeeds exactly when a block is there and filled; then the block is recorded, else it is given back |
| `ClientCall.Call.AllocForList` | linux/core/gp_ops.c:713-757 | the two parameter kinds with a page or scatter list: succeeds exactly when the list is accepted, a block of its size is there and it is filled |
| `ClientCall.Call.AllocParam` | linux/core/gp_ops.c:725-757 | one parameter of any type: succeeds exactly under the condition of its kind in the mailbox as it stands, and then has the buffer and type its kind asks for, else returns the code of its failure |
| `ClientCall.Call.TakeAll` | linux/core/gp_ops.c:720-758 | the four parameters in order: stops at the first that cannot be served in the state its predecessors left, succeeds exactly when there is none, and otherwise returns that one's code |
| `ClientCall.Call.AllocOperation` | linux/core/gp_ops.c:713-772 | succeeds exactly when each parameter can be served in the state its predecessors left; then every parameter has the buffer and type its kind asks for and the packed word tells the translated types; otherwise everything is given back |
| `ClientCall.Call.FreeParam` | linux/core/gp_ops.c:970-1024 | finds by type exactly the buffers recorded for that parameter |
| `ClientCall.Call.FreeOperation` | linux/core/gp_ops.c:970-1024 | mailbox blocks and object references are those from before the call |
| `ClientCall.Call.Serve` | linux/core/gp_ops.c:1191-1211 | whichever step fails, the buffers are released once; the return value for every combination of parameters served, set-up, answer and write-back, 0 exactly when all succeed |
| `ClientCall.TcClientCall` | linux/core/gp_ops.c:1264-1303 | conservation: for every parameter mix and failure point, the mailbox blocks handed out, all shared memory usage counts, lists and reserved blocks are as at entry; returns 0 exactly when the command pack and then each parameter is served in turn and set-up, answer and write-back succeed, and otherwise the code of the first that fails |
| `LoadImage.LoadTimesBounds` | linux/core/session_manager.c:750-765 | the number of frames is the least that holds the file |
| `LoadImage.LoadImageByFrame` | linux/core/session_manager.c:750-803 | succeeds exactly when all copies and sends do; the payloads then concatenate to the file; frames are in sequence, nonempty, fit, and only the last has flag 0; the invalid-size branch is never taken; a failed load has sent a prefix |
| `LoadImage.AllocFrameMemory` | linux/core/session_manager.c:666-675 | the first halving of the size that the pool can serve, or none if it can serve no halving |
| `LoadImage.AllocPackAndUuid` | linux/core/session_manager.c:682-699 | succeeds exactly when two pages are free beside the frame memory; otherwise gives the frame memory back |
| `FreePages.TakingPages` | linux/core/mailbox_mempool.c:138-187 | handing out a block of order k takes 2^k pages from the free ones |
| `FreePages.PageServed` | linux/core/mailbox_mempool.c:138-187 | a request of at most a page is served exactly when some page is free |
| `LoadImage.FirstSizeMeaning` | linux/core/session_manager.c:846-847 | the size tried first is 1 MB for files above 1 MB less four bytes, otherwise the least page multiple that holds the file |
| `LoadImage.AllocForLoadImage` | linux/core/session_manager.c:666-700 | gets all three buffers exactly when the pool can serve some halving of the size, and two pages are free beside the first one it can serve; otherwise none |
| `LoadImage.FreeLoadImageBuffer` | linux/core/session_manager.c:826-831 | gives all three back |
| `LoadImage.LoadImageFile` | linux/core/session_manager.c:833-911 | returns 0 exactly for sizes 1..8M whose buffers can be had, with a frame above four bytes, and whose copies, sends and final check succeed; then the round trip above; other sizes are refused with -EINVAL, and the mailbox ends as it began |
| `LogReader.GetNextLogItem` | linux/tlogger/tlogger.c:199-229 | the first valid item on the 64-byte grid, or none exists on it |
| `LogReader.FieldsReadBack` | linux/tlogger/tlogger.c:98-112 | an item header laid out field by field, low byte first, is read back, wherever it lies in the ring |
| `LogReader.ItemValidMeaning` | linux/tlogger/tlogger.c:185-197 | an item is valid exactly when its magic is right, its text is not empty, its buffer length is the text length rounded up, and it fits |
| `LogReader.ParseLogItem` | linux/tlogger/tlogger.c:231-274 | on arbitrary bytes: whole valid items inside the segment, each the next one on the grid after the last, at most `count` bytes, until none is left or the next one, where the reader then stands, does not fit |
| `LogReader.ParsedUnique` | linux/tlogger/tlogger.c:231-274 | that determines the items delivered, the bytes and the reason to stop |
| `LogReader.WholeParse` | linux/tlogger/tlogger.c:231-274 | on a well-formed segment nothing is skipped, the parse ends at the segment end or at an item that does not fit, and with 1024 bytes of room it moves on |
| `LogReader.ParseOne` | linux/tlogger/tlogger.c:244-270 | one round: no item left on the grid, the next item does not fit, or it is copied whole |
| `LogReader.Reader.TriggerParseLog` | linux/tlogger/tlogger.c:382-426 | within one loop a parse from the reader's position; otherwise a wrapped read from there, or from the oldest data if the writer has passed; inside the ring and the user buffer |
| `LogReader.Reader.OverwrittenMeaning` | linux/tlogger/tlogger.c:400-408 | counted over all loops, the reader is moved exactly when the writer is more than one ring ahead of it |
| `LogReader.Reader.ReadWrapped` | linux/tlogger/tlogger.c:391-424 | the tail of the ring is parsed, and its beginning after it if nothing is left of the tail and room remains |
| `LogReader.Reader.ProcessRead` | linux/tlogger/tlogger.c:428-457 | -EINVAL exactly for a user buffer below 1024 bytes or an oversized ring; nothing read exactly when offset and loop are the writer's; -EFAULT exactly when a position lies outside; otherwise the number of bytes delivered by a parse within the loop or by the wrapped read of an older loop, in bounds |
| `LogReader.Reader.ReadMany` | linux/tlogger/tlogger.c:364-399 | any sequence of reads of a well-formed segment delivers it contiguously from where the reader stood, advancing with every read until its end |
| `TimeoutStep.ScheduleOk` | linux/core/smc_smp.c:1566-1600 | at most five steps, none empty, adding up to max(15 s, t + 2) jiffies, whose wake points are t - 1, t, t + 1, t + 2 and the end |
| `TimeoutStep.ClampedLeast` | linux/core/smc_smp.c:1573-1576 | the timeout in jiffies is the least number not below min(timeout, 15 s) |
| `TimeoutStep.Step.InitTimeoutStep` | linux/core/smc_smp.c:1566-1600 | builds that schedule |
| `TimeoutStep.Step.SetTimeoutStep` | linux/core/smc_smp.c:1683-1690 | a new episode drops the old schedule, a continued one keeps its step |
| `TimeoutStep.Step.ProcTaPending` | linux/core/smc_smp.c:1629-1681 | every step index used is below `size`, across retries; which step ends the wait and how: each earlier step ran out, and the outcome is the timeout, the kill, the wake-up or the result exactly as wake-up, timer mode, signal and out bit say |
| `TimeoutStep.Step.ProcNormalExit` | linux/core/smc_smp.c:1692-1712 | a matching affinity sleeps not at all; otherwise the call is done exactly when the wait saw the result, and exactly a wake-up makes the next retry a new episode |
| `TimeoutStep.Step.WholeEpisode` | linux/core/smc_smp.c:1614-1712 | an episode, of a new call or after a wake-up, that times out at every step sleeps exactly the schedule of the timeout reported first before the kill check, across all retries |
| `CmdQueue.SmcQueue.OccupyFreeEntry` | linux/core/smc_smp.c:240-293 | the first free slot is taken and holds the numbered command; the TEE sees no more than before; or all slots are busy and nothing changes |
| `CmdQueue.SmcQueue.PublishEntry` | linux/core/smc_smp.c:230-238 | the TEE sees exactly one slot more, with the command it holds; no other slot changes |
| `CmdQueue.SmcQueue.ReuseEntry` | linux/core/smc_smp.c:295-319 | succeeds exactly for a slot in use that the TEE does not see; it then sees it, with the last result as command; no other slot changes |
| `CmdQueue.SmcQueue.CopyOutEntry` | linux/core/smc_smp.c:321-352 | delivers the result exactly when it is posted; the slot is free after a final result and kept after a pending one; no other slot changes |
| `CmdQueue.SmcQueue.ReleaseEntry` | linux/core/smc_smp.c:361-368 | the slot is free, its result dropped and hidden from the TEE; no other slot changes |
| `CmdQueue.SmcQueue.AbortEntry` | linux/core/smc_smp.c:1523-1545 | exactly a command that the TEE has becomes a kill under the same number, visible again; no other slot changes |
| `CmdQueue.OneSlot` | linux/core/smc_smp.c:230-379 | what a section makes of its one slot determines the queue |
| `SmcProtocol.StepInv` | linux/core/smc_smp.c:1731-1792 | every step of every caller and of the TEE keeps the protocol invariant |
| `SmcProtocol.RunInv` | linux/core/smc_smp.c:1731-1792 | so it holds in every state of every interleaving |
| `SmcProtocol.RunGoesOn` | linux/core/smc_smp.c:1731-1792 | every step that its caller or the TEE can take continues a run, so the statements over runs cover all interleavings |
| `SmcProtocol.CopyInv` | linux/core/smc_smp.c:1338-1365 | the done path keeps the invariant, in which a call that holds its slot between sends has a pending result as command and one about to send again a result that asks for it |
| `SmcProtocol.HoldingAfterPending` | linux/core/smc_smp.c:1338-1365 | in every run a call holds its slot between two sends only because its last copy was a TEEC_PENDING result, which is still its command |
| `SmcProtocol.OpsInv` | linux/core/smc_smp.c:1303-1336 | the retry label: occupy, reuse or neither |
| `SmcProtocol.AbortInv` | linux/core/smc_smp.c:1501-1564 | the kill path |
| `SmcProtocol.CheckInv` | linux/core/smc_smp.c:1692-1712 | what a caller does when its SMC returns |
| `SmcProtocol.DeliverInv` | linux/core/smc_smp.c:1190-1230 | a wake-up sets the run flag of its caller |
| `SmcProtocol.WakeReaches` | linux/core/smc_smp.c:1190-1230 | a wake-up sets the flag of its caller, changes nothing else of it, and lets a sleeper go on |
| `SmcProtocol.NoLostWakeup` | linux/core/smc_smp.c:1646-1680 | no caller sleeps over a set out bit with its run flag clear and no wake-up on the way |
| `SmcProtocol.WokenBy` | linux/core/smc_smp.c:1190-1230 | in every run a run flag that is set was set by a wake-up during the same call and not cleared since |
| `SmcProtocol.FlagSetAfterClear` | linux/core/smc_smp.c:1668-1680 | in every run a flag found set before the last look at the out bit was set by a wake-up that arrived after it was cleared |
| `SmcProtocol.SlotExclusive` | linux/core/smc_smp.c:262-292 | a busy slot belongs to exactly one call or was left behind, never both; a free slot to none |
| `SmcProtocol.CopyNeverUnready` | linux/core/smc_smp.c:321-352 | the "not ready" error cannot happen after the out bit was seen, kills or not |
| `SmcProtocol.VisibleIsComplete` | linux/core/smc_smp.c:287-293 | a slot the TEE can see holds a whole command numbered with its slot, in runs without kills the one its owner sent |
| `SmcProtocol.ResendSucceeds` | linux/core/smc_smp.c:1303-1328 | without kills, a pending result leaves in and doing set and out clear, so the resend finds its slot |
| `SmcProtocol.AnswerMatches` | linux/core/smc_smp.c:1714-1729 | without kills, the result a call copies answers the command it sent last |
| `SmcProtocol.TakeReaches` | linux/core/smc_smp.h:87-99 | a command the TEE takes is the one in the slot, and only the doing bit changes in the queue |
| `SmcProtocol.PostReaches` | linux/core/smc_smp.h:87-99 | a result the TEE posts stands in the slot under its number with the out bit set |
| `SmcProtocol.SleeperServed` | linux/core/smc_smp.c:1642-1680 | a sleeping caller whose command the TEE can see gets whatever answer the TEE gives, by the steps listed |
| `SmcProtocol.CallServed` | linux/core/smc_smp.c:1731-1792 | wherever a run has got to, a new command for a free slot can go to the TEE and come back with any answer, numbered with the slot; a final one frees the slot |
| `SmcProtocol.PendingServed` | linux/core/gp_ops.c:1227-1239 | without kills, a call that got TEEC_PENDING can be sent again: the TEE sees the result it gave as command, and its next answer comes back |
| `SmcCaller.Driver.Occupy` | linux/core/smc_smp.c:1303-1322 | on the real queue, taking a slot is the protocol's step: a free slot becomes busy, holds the numbered command and is not yet visible; or all slots are busy |
| `SmcCaller.Driver.Publish` | linux/core/smc_smp.c:287-293 | showing the command is the protocol's step; the TEE sees the slot |
| `SmcCaller.Driver.Reuse` | linux/core/smc_smp.c:1303-1336 | sending again is the protocol's step: with in and doing set the last result is visible as command, otherwise the slot is freed and the call ends; without kills it never fails |
| `SmcCaller.Driver.CheckReturn` | linux/core/smc_smp.c:1757-1788 | what follows an SMC return is the protocol's step: done exactly when the out bit is set; otherwise sleeping, running again for a matching affinity, the kill shown to the TEE on an abort exit, or giving up on any other |
| `SmcCaller.Driver.SleepRunsOut` | linux/core/smc_smp.c:1648-1665 | a sleep that runs out is the protocol's step: run the TEE in between, show the kill when a signal is pending at the last, or look again |
| `SmcCaller.Driver.LookAgain` | linux/core/smc_smp.c:1664-1680 | the last look is the protocol's step: copying exactly when the out bit is set, else the TEE is run again |
| `SmcCaller.Driver.HandleWorkingDone` | linux/core/smc_smp.c:1714-1729 | copying is the protocol's step and always finds the result posted for the slot; a final one ends the call and frees the slot, TEEC_PENDING2 leads exactly to the retry label with a normal send, TEEC_PENDING exactly to holding the slot; the two pending ones become the next command |
| `Sessions.RefInDevKeeps` | linux/core/session_manager.c:527-547 | an open on a known service counts in the slot, never above 255 |
| `Sessions.FindListedKeeps` | linux/core/session_manager.c:620-626 | an opener that finds a listed service counts in its usage |
| `Sessions.CreateServiceKeeps` | linux/core/session_manager.c:549-579 | a new service keeps uuids unique on the global list |
| `Sessions.AddToDevKeeps` | linux/core/session_manager.c:113-130 | the opener's reference becomes the slot's |
| `Sessions.UnrefLastKeeps` | linux/core/session_manager.c:162-185 | taking the last slot reference down empties the slot and leaves one reference to put |
| `Sessions.PutServiceKeeps` | linux/core/session_manager.c:98-111 | a put keeps usage exact, and a service freed by it has no session |
| `Sessions.AddSessionKeeps` | linux/core/session_manager.c:952-967 | an open in flight becomes a listed session |
| `Sessions.RemoveSessionKeeps` | linux/core/session_manager.c:1251-1262 | a listed session becomes a close in flight |
| `Sessions.ReachedSlotHasSessions` | linux/core/session_manager.c:1174-1176 | a slot that a release has not passed counts sessions of the device, so the loop test holds for it exactly when it is in use, whatever other devices do |
| `Sessions.ReleaseSkipKeeps` | linux/core/session_manager.c:1174-1186 | so only empty slots are skipped |
| `Sessions.StepKeeps` | linux/core/session_manager.c:88-185 | every lock section keeps: usage = device slots + openers + holders; service_ref = sessions + opens and closes in flight, in 1..255; one service per uuid |
| `SessionRuns.RunKeeps` | linux/core/session_manager.c:1016-1275 | so they hold, with the counts of the session objects, in every state of every interleaving of opens, sends, closes and releases |
| `SessionRuns.RunGoesOn` | linux/core/session_manager.c:1016-1275 | every lock section that can happen continues a run |
| `SessionRuns.NoDangling` | linux/core/session_manager.c:1090-1101 | slots, openers, holders and opens in flight point only at listed services |
| `SessionRuns.InFlightHasSlot` | linux/core/session_manager.c:162-185 | an open or close in flight finds its slot with a nonzero count, so the "no service to be deleted" branch is unreachable |
| `SessionRuns.FreedOnlyUnused` | linux/core/session_manager.c:98-111 | a service is freed only when no slot, opener, holder or session is left |
| `SessionRuns.SessionStep` | linux/core/session_manager.c:70-86 | every lock section keeps: a session's usage = its place on a list + the threads holding it; an object is on one list at most |
| `SessionRuns.SessionLives` | linux/core/session_manager.c:70-86 | a session object exists exactly while it is listed or held |
| `SessionRuns.SessionFreed` | linux/core/session_manager.c:78-86 | it is freed exactly by the put of its last holder after it was unlinked, so a command that has put the service still has its session |
| `SessionRuns.ReleaseRun` | linux/core/session_manager.c:1168-1191 | during a release, whatever other threads do, the slots passed that held a service had it put exactly once and the others are untouched |
| `SessionRuns.ReleaseComplete` | linux/core/session_manager.c:1168-1191 | a finished release has put every referenced service exactly once and leaves no session of the device |
| `SessionManager.Manager.RefServiceInDev` | linux/core/session_manager.c:527-547 | finds the slot with the uuid, if any, and takes a reference unless the count is 255 |
| `SessionManager.Manager.FindOrCreate` | linux/core/session_manager.c:549-595 | the listed service with the uuid, else a new one |
| `SessionManager.Manager.AddServiceToDev` | linux/core/session_manager.c:113-130 | fills the first free slot with count 1, fails exactly when all 32 are used |
| `SessionManager.Manager.FindService` | linux/core/session_manager.c:597-650 | fails exactly when the slot's count is full, memory ran out for a new service, or no slot is free, and then leaves services and devices as they were |
| `SessionManager.Manager.DelServiceFromDev` | linux/core/session_manager.c:162-185 | undoes one slot reference, with the put when it was the last |
| `SessionStates.DropUndoesFind` | linux/core/session_manager.c:1016-1073 | dropping the reference that `find_service` took restores every service and device |
| `SessionStates.OpenedExactly` | linux/core/session_manager.c:597-650 | an open that succeeds: one session more at the end of the list of the service with the uuid, one reference more in its slot (the first free one if it had none), one usage more for a new slot, every other service and device unchanged |
| `SessionManager.Manager.OpenSession` | linux/core/session_manager.c:1016-1073 | lists exactly one session, or leaves services and devices as they were |
| `SessionManager.Manager.FindSessionWithOwner` | linux/core/session_manager.c:187-204 | the first session with that id and owner, or none exists |
| `SessionManager.Manager.GetSessionOf` | linux/core/session_manager.c:1075-1088 | the first session with that id and owner, held, or none exists |
| `SessionManager.Manager.FindServiceInDev` | linux/core/session_manager.c:206-220 | the slot with the uuid, or none has it |
| `SessionStates.NamesOne` | linux/core/session_manager.c:1075-1101 | device, uuid and session id name at most one session |
| `SessionManager.Manager.FindForSend` | linux/core/session_manager.c:1277-1308 | finds a session if and only if the device has it, and then the one named: the first with that id and owner on the list of the service in the slot with the uuid; it is held, the service no longer; services and devices are as before |
| `SessionManager.Manager.SendCmd` | linux/core/session_manager.c:1277-1321 | the command goes to the session named by device, uuid and id, if and only if there is one; after the call services, devices and session objects are as before |
| `SessionManager.Manager.CloseSession` | linux/core/session_manager.c:1221-1275 | succeeds if and only if the device has the session; removes exactly that session and its slot reference; else nothing changes |
| `SessionManager.Manager.OpenThenClose` | linux/core/session_manager.c:1016-1275 | closing a session just opened restores every service, device and session object |
| `SessionStates.NotOwnedExact` | linux/core/session_manager.c:1133-1154 | the sessions that stay are those of other devices |
| `SessionStates.NotOwnedKeeps` | linux/core/session_manager.c:1133-1154 | no other device loses a session |
| `SessionManager.Manager.CloseSessionsInList` | linux/core/session_manager.c:1133-1154 | removes exactly the device's sessions, the rest in order |
| `SessionManager.Manager.IfExistUnclosedSession` | linux/core/session_manager.c:1156-1166 | true exactly when a referenced service has a session |
| `SessionManager.Manager.CloseThread` | linux/core/session_manager.c:1168-1191 | every used slot is given up once; the test of the loop skips none |
| `SessionManager.Manager.CloseFd` | linux/core/tc_client_driver.c:503-521 | releasing a device with nothing in flight removes exactly its own sessions, takes one usage from each service it referenced, frees those at zero, and changes nothing else; `SessionRuns.ReleaseComplete` covers releases among other threads |

## Left out

- Page contents: clearing freed pages, the bytes of buffers, and the translation between addresses and page numbers in both pools.
- Pools whose page count is not a power of two.
- ClientCall.TcClientCall: one call at a time, so other threads do not change the pools meanwhile; writing results back (`update_client_operation`) is an outcome and not modelled byte by byte; page pinning of the no-copy path is not modelled.
- SharedMem.SharedMemory.VmaClose: whole mappings only; a partial munmap is not modelled. That a mapping is not made twice at one address of one address space is the kernel's own rule and a precondition of `Mmap`.
- LogReader.Reader.ReadMany: within one loop of the writer; exactly-once delivery across the wrap depends on how the writer treats the tail.
- SmcProtocol.ResendSucceeds: for runs without kills; after `set_abort_cmd` the TEE's behaviour is open.
- SmcProtocol.AnswerMatches: for runs without kills, for the same reason.
- CmdQueue.SmcQueue.OccupyFreeEntry: one scan; the retry count and sleep around it appear in the protocol as giving up at any time.
- SessionManager.Manager.CloseFd: the close thread is created and the TEE is not rebooting; otherwise the driver leaves the sessions to other code.
- SessionManager.Manager.OpenSession: login check, hash, image loading and the TEE's answer are one boolean; the paths of `SessionManager` are sequential, and interleavings are covered by `SessionRuns` on their lock sections.
- Agents, TEE reboot, module exit, SMC transport, CPU affinity and power control, SIQ queue, command monitor, device number bitmap, TUI, ION, hashing and login, debugfs: foreign calls, teardown outside the invariants, or easy members.
- The liteos copies of the same algorithms.
