# A model of the RT-Thread kernel's allocators, timers, scheduler and IPC, with three tools beside it

The project models, in Dafny, the parts of RT-Thread that rest on several functions together, and proves what they
promise over every run.

**Lists.** `Rings` and `Arena` are the intrusive doubly linked lists: link maps, the four stores of an insertion, and
the proof that any number of lists can live in one memory and that removal needs not know the list. That is why the
kernel modules below may take a list as a sequence. `Chains` are the singly linked lists, `Lists` the sequence side.

**Allocators.** `Tiling` is a pool seen as a sequence of blocks. `MemHeap` is the configured system heap: a class over
the item fields `next`, `prev`, `next_free`, `prev_free`, the counters and the bytes of the pool, where every store to a
header overwrites the header's bytes. `HeapGroup` is `rt_malloc`, `rt_free` and `rt_realloc` over several such heaps.
`SmallMem` is `mem.c` with its pointer to the lowest free block. `PageList`, `Slab`, `SlabHeap`, `SlabRequest` and
`SlabHeapObject` are `slab.c`: free pages, chunk sizes and zones, the whole heap as a value, which block serves which
request and how it is aligned, and the class that updates the heap.

**Timers.** `TimerQueue` says in true time what has to happen: a queue of starts, a log of shots, and the three-way
account of every start. `TimerWheel` is the skip list over wrapping 32-bit ticks, for any number of rows; each of its
methods is proved equal to a step of the queue. `TimerRuns` says what stops, starts and periodic timers come to over
whole runs.

**Scheduler and IPC.** An interrupt-disabled section is one step; what a thread does after `rt_schedule()` is a later
step of that thread; ticks, timeouts and calls from an interrupt, over whichever thread it interrupts, are steps of
the environment. `Kernel` gives the steps of the scheduler and of threads as functions on values with their invariant,
and `KernelRun` closes with lemmas over every sequence of them, in any order; there a resumption called with
interrupts on is two sections behind a test. `Mutex`, `Mailbox`, `Event` and `MessageQueue` do the same for the IPC
objects, whose calls make both sections of a resumption with interrupts off; the rest of the system may do there
whatever keeps the invariant of the kernel. `WaitRoom` is the accounting of waiting and woken threads that the mailbox
and the message queue share. `KernelObject`, `MutexObject`, `MailboxObject`, `EventObject` and `MessageQueueObject`
are the classes whose methods make the stores of the C code and are proved equal to those steps. `Bits` and `FirstBit`
are the priority bitmap and its table-driven search.

**Stand-alone algorithms.** `MergeSort` and `CoreLists` are CoreMark's list operations, `StackUsage` the call-graph
analysis of `WCS.py`, `Romfs` the image of `mkromfs.py` together with the kernel's lookup in it.

## Where the code and its documentation part

- `slab.c` says that all power-of-two allocations are aligned to their size. They are so exactly when the size is at
  most a page or divides the address of the zone or the page run that serves the request (`SlabRequest.AlignedIff`,
  and `Allocator.Malloc` for every call). It fails for the first 8192 bytes of a heap that can be set up, as whole
  pages and as a chunk (`RunOffByAPage`, `ChunkOffByAPage`).
- `mem.c` serves a request from any free block that is large enough, except the last block of the heap when it fits to
  the byte (`MissedExactly`, `ServedIff`, `LastByteRefused`).
- `timer.c` asserts only that the delay is below half the tick range. The check loop ends exactly if no due timer is
  periodic with a delay of 0 (`EndsIff`, and `WrapEndsIff` on wrapped ticks); one start and one tick lead to a check
  that never ends (`ZeroDelaySpins`). The other timer lemmas ask for at least one tick.
- `mem.c` keeps a block only for the same size or one smaller by more than a header and a smallest block. A slightly
  smaller request moves the payload, and can fail (`SmallHeap.ReallocLive`).
- `memheap.c` lets the size of the free neighbour pass through an `rt_int32_t` in its growth test. In a pool of 2^31
  bytes or more the test is wrong exactly when that neighbour is at least so large and there is no room
  (`GrowSoundExactly`); then the payload grows too far (`GrowsTooFar`, and `GrowsPastPool` for a heap on which it
  does).
- `thread.c` tests the state of a thread before it disables interrupts, and resumes a thread in two sections. If an
  interrupt or another thread wakes the thread in between, a resumption can put it into its queue twice or take it out
  of there (`DoubleResume`, `StaleResume`); `EveryRun` says exactly when the queues stay right, `ResumeFits` that one
  wake-up at a time is enough. A suspension does no such harm (`SuspendNowKeeps`).
- `dfs_romfs.h` declares an entry with two pointers and an `rt_size_t`: 32 bytes on the configured 64-bit target.
  `mkromfs.py` writes entries of 16 bytes, so only a kernel with 32-bit pointers can read its image, and the lookup is
  modelled for that one.
- `mem.c` does not round a shrinking reallocation up to the smallest block of an allocation, so blocks may be as small
  as one alignment unit; and it does not keep the previous link of the end header.
- `mkromfs.py` joins text and bytes in the manner of Python 2.

## Model

| member | source | states |
|---|---|---|
| Arena.JoinMany | rt-thread/include/rtservice.h:58-80 | with any number of lists in one memory, inserting a node that is in no list puts it at the chosen place of that list; every other list stays as it was and no two lists share a node |
| Arena.LeaveMany | rt-thread/include/rtservice.h:86-92 | removing a node takes it out of the one list it is in, makes it an empty list, and leaves every other list as it was |
| Arena.Links.Init | rt-thread/include/rtservice.h:47-50 | memory in no list becomes one more empty list |
| Arena.Links.AddAfter | rt-thread/include/rtservice.h:58-65 | the stores insert behind the given node of the list it is in |
| Arena.Links.Append | rt-thread/include/rtservice.h:73-80 | insertion before the head is insertion at the end of the list |
| Arena.Links.Insert | rt-thread/include/rtservice.h:73-80 | insertion before a node takes that node's place |
| Arena.Links.Remove | rt-thread/include/rtservice.h:86-92 | removal deletes the node from its list without being told which list that is |
| Arena.Links.IsEmpty | rt-thread/include/rtservice.h:98-101 | true exactly when the list has no node |
| Arena.Links.Len | rt-thread/include/rtservice.h:107-118 | the walk terminates and counts the nodes |
| Rings.InsertAfterRing | rt-thread/include/rtservice.h:58-65 | on one ring, `next` and `prev` stay inverse and the node is at the place behind the given one |
| Rings.InsertBeforeRing | rt-thread/include/rtservice.h:73-80 | the same in front of the given node; before the head it is the tail |
| Rings.RemoveRing | rt-thread/include/rtservice.h:86-92 | the rest of the ring stays linked in order and the removed node is a ring of its own |
| Tiling.PayloadsDisjoint | rt-thread/src/memheap.c:181-328 | live payloads of a tiled pool are pairwise disjoint, a header apart, and inside the pool |
| Tiling.HeadersAvoidPayloads | rt-thread/src/memheap.c:181-328 | no block header lies inside a live payload |
| Tiling.SpliceTiled | rt-thread/src/memheap.c:226-305 | replacing a run of blocks by another over the same bytes keeps the pool tiled |
| Tiling.NothingLive | rt-thread/src/memheap.c:557-665 | a merged tiling without live payload is one free block and the tail |
| MemHeap.ContentsKept | rt-thread/src/memheap.c:338-665 | stores confined to block headers leave every surviving payload byte alone |
| MemHeap.TakeStep | rt-thread/src/memheap.c:262-266 | taking a block off the free list keeps the heap's shape |
| MemHeap.PutStep | rt-thread/src/memheap.c:646-653 | putting a block at the head of the free list keeps the heap's shape |
| MemHeap.CutStep | rt-thread/src/memheap.c:231-260 | splitting a block links the second part into the address-ordered ring and keeps the heap's shape |
| MemHeap.AbsorbRightStep | rt-thread/src/memheap.c:625-644 | merging with the free right neighbour unlinks that from both rings and keeps the heap's shape |
| MemHeap.AbsorbLeftStep | rt-thread/src/memheap.c:606-623 | merging into the free left neighbour keeps the heap's shape |
| MemHeap.PlacedSums | rt-thread/src/memheap.c:226-305 | handing out a block adds one live payload and takes its bytes, and the new header's, from the free ones |
| MemHeap.PlacedMerged | rt-thread/src/memheap.c:226-305 | no two free neighbours arise |
| MemHeap.ReleasedSums | rt-thread/src/memheap.c:601-657 | freeing ends exactly that payload; its bytes and one header per merge become free |
| MemHeap.ReleasedMerged | rt-thread/src/memheap.c:601-657 | after freeing no two neighbouring blocks are both free |
| MemHeap.ResizedSums | rt-thread/src/memheap.c:387-547 | resizing in place changes one payload's size and keeps every other payload |
| MemHeap.ResizedMerged | rt-thread/src/memheap.c:387-547 | after resizing no two neighbouring blocks are both free |
| MemHeap.GrowTestExactly | rt-thread/src/memheap.c:390-404 | the growth test, whose neighbour size passes through an `rt_int32_t`, tells whether there is room exactly if the free neighbour is below 2^31 bytes, or there is room, or the request is beyond the range |
| MemHeap.GrowSoundExactly | rt-thread/src/memheap.c:387-404 | on every heap: the test answers whether the free neighbour has room exactly if that is below 2^31 bytes, or there is room, or the request is beyond the range |
| MemHeap.GrowsTooFar | rt-thread/src/memheap.c:404-432 | where it is wrong the payload grows all the same, and its new header leaves at most the smallest payload, or nothing, before the end of the neighbour |
| MemHeap.SmallPoolSound | rt-thread/src/memheap.c:387-404 | in a pool below 2^31 bytes the test is right for every payload and every request |
| MemHeap.GrowsPastPool | rt-thread/src/memheap.c:387-432 | a heap and a request that fail: 3 GiB, one smallest payload, and a growth that ends behind the pool is taken to fit |
| MemHeap.MemHeap.constructor | rt-thread/src/memheap.c:89-157 | the fresh heap is one free block of the aligned pool size minus two headers, with `max_used_size` two headers |
| MemHeap.MemHeap.TakeOff | rt-thread/src/memheap.c:291-305 | the stores unlink the block from the free list and mark it used |
| MemHeap.MemHeap.PutFree | rt-thread/src/memheap.c:646-653 | the stores insert the block at the head of the free list |
| MemHeap.MemHeap.CutBlock | rt-thread/src/memheap.c:231-260 | the stores cut the block and link the rest behind it |
| MemHeap.MemHeap.MergeNext | rt-thread/src/memheap.c:625-644 | the stores unlink the right neighbour from both lists |
| MemHeap.MemHeap.MergePrev | rt-thread/src/memheap.c:606-623 | the stores unlink the block its free left neighbour swallows |
| MemHeap.MemHeap.FindFree | rt-thread/src/memheap.c:212-223 | first fit along the free list; when nothing fits, no free block is large enough |
| MemHeap.MemHeap.Place | rt-thread/src/memheap.c:226-305 | the chosen block is split or taken whole, the invariant is kept and no live byte is written |
| MemHeap.MemHeap.Alloc | rt-thread/src/memheap.c:181-328 | NULL exactly when no free block fits strictly below the available size; else one new payload, disjoint from the old ones, whose bytes all stay |
| MemHeap.MemHeap.GrowInPlace | rt-thread/src/memheap.c:382-460 | growing draws on the free right neighbour and gives back what is left of it |
| MemHeap.MemHeap.ShrinkInPlace | rt-thread/src/memheap.c:477-553 | shrinking gives back the end, merged with a free right neighbour |
| MemHeap.MemHeap.Move | rt-thread/src/memheap.c:466-474 | allocate, copy, free: the first bytes are at a new place, hardly more than asked for is taken, and all other payloads stay |
| MemHeap.MemHeap.Realloc | rt-thread/src/memheap.c:338-554 | in a heap of any size, where the growth test is right: exactly when it fails and leaves blocks and bytes as they were, exactly when the payload stays in place, its size afterwards, and that the first min(old, new) bytes and all other payloads are kept |
| MemHeap.MemHeap.JudgedRightly | rt-thread/src/memheap.c:387-404 | whether the growth test is right for a live payload can be told from the links before the call |
| MemHeap.MemHeap.Free | rt-thread/src/memheap.c:557-665 | the payload ends, free neighbours are merged on both sides, every other payload keeps its bytes |
| MemHeap.MemHeap.EverythingFreed | rt-thread/src/memheap.c:557-665 | once everything is freed, in any order, the heap is one block of `pool_size` minus two headers |
| MemHeap.MemHeap.LivePayloads | rt-thread/src/memheap.c:181-665 | in every state of the heap: payloads disjoint, at least the minimum, `available_size` the sum of the free payloads, `max_used_size` the high-water mark |
| MemHeap.MemHeap.Run | rt-thread/src/memheap.c:89-665 | over any run of allocations, reallocations and releases, growths that the test misjudges left out, the invariant holds and an empty set of payloads means the pristine heap |
| HeapGroup.Heaps.Malloc | rt-thread/src/memheap.c:765-820 | the first heap able to serve, the system heap before the others, gains one payload; NULL exactly when none is able; all other heaps and all live bytes stay |
| HeapGroup.Heaps.Free | rt-thread/src/memheap.c:823-826 | only the heap named in the header changes, by that one payload |
| HeapGroup.Heaps.Realloc | rt-thread/src/memheap.c:829-886 | where the growth test of the own heap is right: NULL exactly when neither that heap nor another can serve; a failure changes nothing; a success keeps the first min(old, new) bytes, also across heaps, and every other payload |
| HeapGroup.Heaps.MoveOut | rt-thread/src/memheap.c:846-868 | the copy into another heap and the release of the old payload |
| HeapGroup.MovedOut | rt-thread/src/memheap.c:846-868 | allocation elsewhere, copy and release make up one move that leaves every other payload alone |
| SmallMem.FirstFromLow | rt-thread/src/mem.c:307-314 | first fit from `lfree` finds what first fit from the heap start finds |
| SmallMem.MissedExactly | rt-thread/src/mem.c:307-314 | the strict search bound hides a large enough free block exactly when it is the last one and fits to the byte |
| SmallMem.ServedIff | rt-thread/src/mem.c:272-412 | a request is served exactly when a free block can hold it that is not the last block fitting it to the byte |
| SmallMem.LastByteRefused | rt-thread/src/mem.c:307-309 | on the fresh heap a request for all of it finds nothing |
| SmallMem.CarvedMerged | rt-thread/src/mem.c:313-374 | allocation leaves no two free neighbours |
| SmallMem.FreedMerged | rt-thread/src/mem.c:156-194 | freeing leaves no two free neighbours |
| SmallMem.ShrunkMerged | rt-thread/src/mem.c:473-506 | shrinking leaves no two free neighbours |
| SmallMem.PluggedKeeps | rt-thread/src/mem.c:156-194 | merging moves no payload and keeps the span of the used blocks |
| SmallMem.PluggedLow | rt-thread/src/mem.c:156-194 | merging keeps the lowest free block the lowest |
| SmallMem.CarvedLow | rt-thread/src/mem.c:382-389 | giving out a block leaves the lowest free block alone, or makes it the next free one |
| SmallMem.CarvedSums | rt-thread/src/mem.c:313-374 | giving out a block adds one payload and its span to the used bytes |
| SmallMem.FreedSums | rt-thread/src/mem.c:597-615 | freeing removes one payload and its span |
| SmallMem.AllocLive | rt-thread/src/mem.c:272-412 | an allocation adds one payload, at least as large as asked for, where none was |
| SmallMem.AllFreed | rt-thread/src/mem.c:554-617 | with every payload freed the heap is one free block again |
| SmallMem.SmallHeap.constructor | rt-thread/src/mem.c:204-257 | one free block and the end header, `lfree` at the start |
| SmallMem.SmallHeap.Search | rt-thread/src/mem.c:307-314 | the loop ends at the first suitable block of the whole heap |
| SmallMem.SmallHeap.Carve | rt-thread/src/mem.c:318-374 | split or whole, with `used_mem` and the maximum kept exact |
| SmallMem.SmallHeap.Alloc | rt-thread/src/mem.c:272-412 | the whole new state, including `lfree` as the lowest free block and `used_mem` as the span of the used blocks |
| SmallMem.SmallHeap.NextFree | rt-thread/src/mem.c:382-389 | `lfree` ends at the next free block or the end header |
| SmallMem.SmallHeap.PlugHoles | rt-thread/src/mem.c:156-194 | the stores merge with both free neighbours and move `lfree` along |
| SmallMem.SmallHeap.Free | rt-thread/src/mem.c:554-617 | NULL changes nothing; else the block is free and merged with its free neighbours, and the counters and `lfree` follow |
| SmallMem.SmallHeap.Realloc | rt-thread/src/mem.c:423-518 | for every pointer and size: NULL with nothing changed for a size beyond the heap, a release for size 0, an allocation for NULL, the pointer back with nothing changed from outside the heap, else a resized payload; every other payload stays |
| SmallMem.SmallHeap.ReallocLive | rt-thread/src/mem.c:463-517 | the same size stays; a request smaller by more than a header and a smallest block shrinks in place; any other one moves, also a slightly smaller one, and fails with nothing changed exactly when no free block is found for it |
| SmallMem.SmallHeap.Shrink | rt-thread/src/mem.c:473-506 | the rest becomes a free block merged with what follows |
| PageList.CutCanonical | rt-thread/src/slab.c:246-263 | taking pages keeps the list sorted, disjoint and merged |
| PageList.CutPages | rt-thread/src/slab.c:246-263 | exactly the n pages given out stop being free |
| PageList.ReturnCanonical | rt-thread/src/slab.c:286-318 | giving pages back keeps the list sorted, disjoint and maximally merged |
| PageList.ReturnPages | rt-thread/src/slab.c:286-318 | exactly the n pages given back become free |
| PageList.CanonicalUnique | rt-thread/src/slab.c:236-322 | the set of free pages determines the list |
| PageList.AllocThenFree | rt-thread/src/slab.c:236-322 | allocating n pages and freeing them gives back the identical list |
| PageList.CutCounts | rt-thread/src/slab.c:236-267 | n pages fewer are free |
| PageList.ReturnCounts | rt-thread/src/slab.c:272-322 | n pages more are free |
| PageList.Pages.constructor | rt-thread/src/slab.c:327-334 | one run of all pages |
| PageList.Pages.Alloc | rt-thread/src/slab.c:236-267 | first fit in address order, cut from the front of the run; NULL exactly when no run is long enough |
| PageList.Pages.Free | rt-thread/src/slab.c:272-322 | the loop inserts or merges at the one right place |
| Slab.ZoneIndexFits | rt-thread/src/slab.c:401-459 | a request goes to the smallest chunk size that holds it |
| Slab.ZoneIndexWaste | rt-thread/src/slab.c:401-459 | the waste is below an eighth of the request from 128 bytes on, below 8 bytes under that |
| Slab.ChunkSizesGrow | rt-thread/src/slab.c:133-145 | chunk sizes grow with the zone index, so each belongs to one index |
| Slab.TakeKeeps | rt-thread/src/slab.c:549-577 | the chunk taken was not live, is live now, no other changes, and `z_nfree` counts the freed and the never used chunks |
| Slab.PutKeeps | rt-thread/src/slab.c:838-855 | freeing a live chunk makes exactly that chunk free and keeps the count |
| Slab.AllFreeNoneLive | rt-thread/src/slab.c:862-863 | when `z_nfree` equals `z_nmax` no chunk of the zone is live |
| SlabHeap.LiveApart | rt-thread/src/slab.c:478-670 | two live blocks, chunks or page runs, never share a byte |
| SlabHeap.Lookup | rt-thread/src/slab.c:795-796 | `memusage` leads from the address of every live block to its zone or to its page count |
| SlabHeap.TakeLargeKeeps | rt-thread/src/slab.c:493-507 | a large block is one new live block; nothing else changes |
| SlabHeap.FreeLargeKeeps | rt-thread/src/slab.c:797-826 | freeing a large block ends exactly that one |
| SlabHeap.TakeChunkKeeps | rt-thread/src/slab.c:539-584 | a chunk handed out is one of the first zone on the list and was not live; a zone stays on its list exactly while it has a free chunk |
| SlabHeap.ReuseFor | rt-thread/src/slab.c:597-602 | a retired zone is ready to be laid out anew |
| SlabHeap.GrabFor | rt-thread/src/slab.c:603-629 | a zone from the page allocator overlaps nothing held and is marked in `memusage` |
| SlabHeap.OpenKeeps | rt-thread/src/slab.c:631-659 | laying out a zone and giving its first chunk adds one live block of the chunk size, in that zone |
| SlabHeap.PutChunkKeeps | rt-thread/src/slab.c:831-855 | freeing a chunk ends exactly that live block and relinks the zone if it was full |
| SlabHeap.RetireKeeps | rt-thread/src/slab.c:862-882 | retiring a zone ends no live block |
| SlabHeap.RetireReleaseKeeps | rt-thread/src/slab.c:862-903 | nor does giving a zone back to the page allocator |
| SlabHeap.RetiresIff | rt-thread/src/slab.c:831-854 | after a chunk is freed its zone retires exactly if that was its last live chunk and another zone of its size has a free one |
| SlabHeap.CutTracks | rt-thread/src/slab.c:236-267 | no page gets lost when pages are taken |
| SlabHeap.ReturnTracks | rt-thread/src/slab.c:272-322 | no page gets lost when pages are given back |
| SlabHeapObject.Allocator.constructor | rt-thread/src/slab.c:344-392 | the zone size for the number of pages; the page table takes the first pages, every other page is free, and nothing is live |
| SlabHeapObject.Allocator.Malloc | rt-thread/src/slab.c:478-670 | NULL exactly when it cannot serve; else exactly one new live block of at least the size asked for, cut from the zone or page run that the state before names; a power of two is aligned to its size exactly if it is at most a page or divides the address of that origin; no page is lost |
| SlabHeapObject.Allocator.MallocLarge | rt-thread/src/slab.c:493-521 | whole pages: NULL exactly when no run is long enough, else one new live block at the start of the first run that fits |
| SlabHeapObject.Allocator.MallocChunk | rt-thread/src/slab.c:539-584 | one new live block, a chunk of the first zone on the list: the next never used one, or the one freed last when there is none |
| SlabHeapObject.Allocator.MallocZone | rt-thread/src/slab.c:594-664 | one new live block in a retired zone, if there is one, else in a zone from the first page run that fits; NULL exactly when there is neither |
| SlabHeapObject.Allocator.Header | rt-thread/src/slab.c:634-656 | the chunk offset, aligned for a power of two, the number of chunks and the counters of a new zone |
| SlabHeapObject.Allocator.Free | rt-thread/src/slab.c:771-905 | NULL changes nothing; else exactly that live block ends; no page is lost |
| SlabHeapObject.Allocator.FreeChunk | rt-thread/src/slab.c:831-903 | exactly that chunk ends; its zone retires exactly if that was its last live chunk and another zone of its size has a free one, and otherwise has the chunk first among its freed ones, and heads its list if it had none |
| SlabHeapObject.Allocator.RetireZone | rt-thread/src/slab.c:862-903 | a zone that is all free leaves its list and is the first to be used again or, with the threshold reached, has its pages free; no live block changes |
| SlabRequest.LimitFits | rt-thread/src/slab.c:365-370 | below the zone limit four chunks fit in a zone |
| SlabRequest.PowerChunk | rt-thread/src/slab.c:401-459 | the chunk for a power of two is of that very size, or the smallest one |
| SlabRequest.AlignedIff | rt-thread/src/slab.c:478-670 | for a power of two the block is aligned to its size exactly if that is at most a page, or divides the address of the zone or the page run that the state before the call names: chunks and whole pages |
| SlabRequest.RunOffByAPage | rt-thread/src/slab.c:152-156 | the alignment the comment promises for all powers of two fails: in the heap of ten pages from page 2 on, the first request of 8192 bytes is served a page off |
| SlabRequest.ChunkOffByAPage | rt-thread/src/slab.c:152-156 | and as a chunk, in the heap of 16385 pages from page 2 on |
| SlabRequest.FreshOrigin | rt-thread/src/slab.c:344-392 | the first block of a heap as set up, or its zone, starts right behind the page table |
| SlabHeapObject.FirstBlock | rt-thread/src/slab.c:344-670 | over every heap that can be set up and every power of two: whether the first request is served, and that its block is aligned exactly if it is at most a page or divides the address behind the page table |
| TimerQueue.FiresOnce | rt-thread/src/timer.c:529-594 | a start that was not given up has fired exactly once, at its deadline, as soon as that tick has come |
| TimerQueue.FiresUnlessStopped | rt-thread/src/timer.c:315-470 | over any run in which nobody stops or restarts it, a started timer fires exactly once, at start plus `init_tick` |
| TimerQueue.FiresInOrder | rt-thread/src/timer.c:352-377 | shots come in deadline order, ties in start order |
| TimerQueue.EndsIff | rt-thread/src/timer.c:529-594 | from every ordered queue, with callbacks that ask for nothing, the check ends exactly if no due timer is periodic with a delay of 0 ticks |
| TimerQueue.ZeroDelaySpins | rt-thread/src/timer.c:529-594 | after a fresh wheel, one start and one tick, the check ends exactly if the timer is not periodic with a delay of 0 |
| TimerQueue.ExecKeeps | rt-thread/src/timer.c:315-520 | start, stop and set-time keep every start queued, fired or given up, one of the three, and the queue in order |
| TimerQueue.StopStops | rt-thread/src/timer.c:438-462 | a stop takes the timer out of the queue and gives up exactly its waiting start; a periodic timer whose callback is running will not be started again; every other timer, the delays and the clock stay |
| TimerQueue.StartStarts | rt-thread/src/timer.c:315-429 | a start gives up exactly the waiting start of the timer, if any, and queues a new one at the present tick plus the present delay; every other timer stays |
| TimerQueue.SetTimeSets | rt-thread/src/timer.c:474-491 | a new delay leaves the waiting start as it is and is the delay of the next one |
| TimerQueue.FireKeeps | rt-thread/src/timer.c:545-583 | one firing logs the first entry at this tick and leaves one due entry fewer |
| TimerQueue.Check | rt-thread/src/timer.c:529-594 | the check terminates and leaves nothing due |
| TimerQueue.Step | rt-thread/src/clock.c:62-89 | each tick keeps the system idle between ticks: nothing overdue, no callback running |
| TimerRuns.DroppedNeverFires | rt-thread/src/timer.c:438-594 | over every run a start that was given up never fires |
| TimerRuns.StoppedNeverFires | rt-thread/src/timer.c:438-594 | over every run, from a stop of a timer on none of its earlier starts fires any more |
| TimerRuns.FireSpares | rt-thread/src/timer.c:545-583 | when the timeout function asks nothing about a timer, a firing leaves it alone; the timer that fired waits for one more period if it is periodic, else for nothing |
| TimerRuns.FireStops | rt-thread/src/timer.c:545-583 | a timer whose last request by a timeout function is a stop waits for nothing afterwards, also the periodic one that fired |
| TimerRuns.FireStarts | rt-thread/src/timer.c:545-583 | one whose last request is a start waits for exactly that start and is not started once more |
| TimerRuns.FiresEveryPeriod | rt-thread/src/timer.c:315-594 | over every run a periodic timer that is left alone fires once a period, at each beat that has come and at no other time |
| TimerWheel.OrderExactly | rt-thread/src/timer.c:374-381 | the wrapped comparison orders two ticks rightly exactly when they are within half the range |
| TimerWheel.RowEmbeds | rt-thread/src/timer.c:357-385 | each row is a sublist, in order, of the row below |
| TimerWheel.InsertRows | rt-thread/src/timer.c:394-406 | linking a timer into any number of rows from the bottom keeps every row sorted and nested |
| TimerWheel.InsertBottom | rt-thread/src/timer.c:394-395 | the bottom row afterwards is the queue of a plain linear scan |
| TimerWheel.WithoutRows | rt-thread/src/timer.c:136-144 | unlinking from every row keeps the rows sorted and nested |
| TimerWheel.TickOrder | rt-thread/src/timer.c:374-381 | for queued timers the two wrapped tests read as comparisons of true deadlines |
| TimerWheel.StepDown | rt-thread/src/timer.c:383-384 | one row further down, everything already passed is due no later |
| TimerWheel.RisesExactly | rt-thread/src/timer.c:386-406 | a timer joins at least k rows above the bottom one exactly if the insertion counter is a multiple of the k-th power of mask + 1 |
| TimerWheel.Wheel.Remove | rt-thread/src/timer.c:136-144 | the timer leaves every row and the list of the running callback |
| TimerWheel.Wheel.Search | rt-thread/src/timer.c:357-385 | top-down, in every row, the place behind the last timer due no later: in the bottom row the place of a linear scan |
| TimerWheel.Wheel.Link | rt-thread/src/timer.c:391-406 | the bottom row always, and above it as many rows as the insertion counter has low digits 0; every row at its own place |
| TimerWheel.Wheel.Start | rt-thread/src/timer.c:315-429 | the wheel makes the start of the queue in true time |
| TimerWheel.Wheel.Stop | rt-thread/src/timer.c:438-462 | the wheel makes the stop of the queue; an error exactly for an inactive timer, which changes nothing; afterwards the timer is inactive and in no row |
| TimerWheel.Wheel.SetTime | rt-thread/src/timer.c:474-491 | the new delay is stored and counts from the next start |
| TimerWheel.Wheel.Check | rt-thread/src/timer.c:529-594 | the loop over the wrapped ticks fires what the queue in true time fires, for any callback |
| TimerWheel.Wheel.Tick | rt-thread/src/clock.c:62-89 | the wheel makes the step of the queue |
| TimerWheel.Wheel.NextTimeout | rt-thread/src/timer.c:114-134 | the earliest deadline, or RT_TICK_MAX without timers |
| TimerWheel.WrapEndsIff | rt-thread/src/timer.c:529-594 | the loop of the check by its test on wrapped ticks, for deadlines and delays within half the range: it ends exactly if no due timer is periodic with a delay of 0 |
| TimerWheel.WrapZeroDelaySpins | rt-thread/src/timer.c:315-594 | one start and one tick lead to a check that never ends exactly for a periodic timer with a delay of 0 |
| Bits.BitAlone | rt-thread/src/scheduler.c:728-820 | setting or clearing a priority bit changes that bit alone |
| FirstBit.LookupLowest | rt-thread/src/kservice.c:1298-1317 | every entry of the 256-entry table is the lowest set bit of its index |
| FirstBit.FfsLowest | rt-thread/src/kservice.c:1328-1342 | the search returns one more than the lowest set bit of any 32-bit word |
| Kernel.Highest | rt-thread/src/scheduler.c:153-175 | the table-driven search finds the most urgent non-empty queue |
| Kernel.InsertCore | rt-thread/src/scheduler.c:699-733 | insertion keeps: bit set iff queue non-empty, each READY thread only in the queue of its priority |
| Kernel.RemoveCore | rt-thread/src/scheduler.c:796-826 | removal keeps the bits and the queues in step and takes the thread out of every queue and list |
| Kernel.ScheduleKeeps | rt-thread/src/scheduler.c:409-529 | a schedule keeps the invariant and changes nothing but states and queue places |
| Kernel.ScheduleEffect | rt-thread/src/scheduler.c:409-529 | who runs after an unlocked schedule and who is READY |
| Kernel.MostUrgentRuns | rt-thread/src/scheduler.c:409-529 | after an unlocked schedule, with the idle thread able to run, the current thread is RUNNING and no READY thread is more urgent |
| Kernel.YieldTakesTurns | rt-thread/src/scheduler.c:430-462 | a yielding thread goes behind the last of its priority and the first one runs |
| Kernel.ScheduleStays | rt-thread/src/scheduler.c:430-446 | a running thread that is more urgent than every READY one, or as urgent and not marked, goes on; no queue changes, only the mark goes |
| Kernel.ScheduleSwitches | rt-thread/src/scheduler.c:430-463 | otherwise the first thread of the most urgent queue runs and the present one is READY at the tail of its own queue; no other thread and no other queue changes |
| Kernel.SchedulePicks | rt-thread/src/scheduler.c:428-463 | when the present thread does not run any more, the first thread of the most urgent queue does |
| Kernel.ScheduleLocked | rt-thread/src/scheduler.c:409-529 | a locked scheduler changes nothing |
| Kernel.YieldEffect | rt-thread/src/thread.c:496-509 | whether marked before or not, a yielding thread goes behind the last of its equals with a full slice and the first of them runs |
| Kernel.TimeSliceEffect | rt-thread/src/clock.c:73-85 | the last tick of a slice does the same as a yield; any other tick changes the counter and nothing else |
| Kernel.EverybodysTurn | rt-thread/src/scheduler.c:430-463 | after n + 1 turns of the threads of one priority the n-th in the queue runs: everybody gets a turn, in queue order |
| Kernel.SuspendKeeps | rt-thread/src/thread.c:767-806 | with its test inside the section: a suspended thread is in no queue; an error exactly for one that neither runs nor is READY |
| Kernel.SuspendPlaces | rt-thread/src/thread.c:767-806 | a suspended thread leaves its queue and the order of all others stays |
| Kernel.ResumeKeeps | rt-thread/src/thread.c:816-850 | with interrupts off throughout, as in ipc.c: a resumed thread leaves its suspend list, its timer stops, and no other list changes |
| Kernel.ResumePlaces | rt-thread/src/thread.c:816-881 | resumed or timed out, a thread goes to the tail of the queue of its priority unless it is still the current one; the order of all others stays |
| Kernel.ExpireKeeps | rt-thread/src/thread.c:859-881 | a timeout takes the thread off its list with -RT_ETIMEOUT and changes no other thread |
| Kernel.ChangePriorityKeeps | rt-thread/src/thread.c:664-707 | a READY thread moves to the queue of its new priority and no other moves |
| Kernel.ChangePlaces | rt-thread/src/thread.c:664-707 | a READY thread goes from its queue to the tail of that of the new priority; the order of all others stays, and no queue changes for a thread that is not READY |
| Kernel.WaitKeeps | rt-thread/src/ipc.c:85-131 | the thread is suspended and added to that one list |
| Kernel.WaitPlaces | rt-thread/src/ipc.c:85-131 | those who waited before stay in order; in FIFO order the newcomer is last |
| Kernel.WaitInOrder | rt-thread/src/ipc.c:98-124 | a list kept by priority stays so, and the newcomer waits behind its equals |
| Kernel.ResumeFirstKeeps | rt-thread/src/ipc.c:142-155 | exactly the first waiter is resumed |
| Kernel.ResumeAllKeeps | rt-thread/src/ipc.c:165-193 | every waiter is resumed with -RT_ERROR and the list is empty; no other thread and no other list changes |
| Kernel.StartKeeps | rt-thread/src/thread.c:316-348 | starting a new thread, with no interrupt between the sections, keeps the invariant |
| Kernel.StartEffect | rt-thread/src/thread.c:316-348 | a started thread is READY at the tail of the queue of its initial priority, with that priority and its bit; no other thread, queue or list changes |
| Kernel.StartupUrgent | rt-thread/src/thread.c:316-348 | after a startup, the idle thread able to run, nobody READY is more urgent than the running thread |
| Kernel.ExitKeeps | rt-thread/src/thread.c:106-142 | closing the running thread keeps the invariant |
| Kernel.ExitEffect | rt-thread/src/thread.c:106-142 | a thread that exits is closed with its timer stopped, in no queue and on no list; no other thread, queue or list changes |
| Kernel.ExitGivesWay | rt-thread/src/thread.c:106-142 | after an exit the first of the most urgent READY threads runs |
| Kernel.UnlockNests | rt-thread/src/scheduler.c:872-961 | after n locks an unlock leaves everything but the count while the scheduler is locked more than once; the outermost one schedules |
| KernelObject.Rtos.constructor | rt-thread/src/scheduler.c:182-261 | set-up, any startups and the start of the scheduler: the invariant holds, a most urgent started thread runs, the other started ones are READY at their initial priorities, the rest not started |
| KernelObject.Rtos.RemoveThread | rt-thread/src/scheduler.c:796-826 | the stores take the thread out of its queue or list and clear the bit of a queue left empty, as `Remove` |
| KernelObject.Rtos.InsertThread | rt-thread/src/scheduler.c:699-733 | the stores put the thread at the tail of its queue and set its bit, or leave it running if it is current, as `Insert` |
| KernelObject.Rtos.DoSchedule | rt-thread/src/scheduler.c:409-529 | the stores make the step `Schedule` and the invariant holds afterwards |
| KernelObject.Rtos.SuspendThread | rt-thread/src/thread.c:767-806 | with its test inside the section, the stores make the step `Suspend`, with its error, and the invariant holds afterwards |
| KernelObject.Rtos.SuspendSection | rt-thread/src/thread.c:787-801 | the section behind the test makes the step `SuspendNow`, whatever the state is by then |
| KernelObject.Rtos.DetachThread | rt-thread/src/thread.c:834-843 | the first section of a resumption makes the step `Detach`; the second is `InsertThread` |
| KernelObject.Rtos.ResumeThread | rt-thread/src/thread.c:816-850 | with interrupts off throughout, as in ipc.c, the stores make the step `Resume`, with its error, and the invariant holds afterwards |
| KernelObject.Rtos.Timeout | rt-thread/src/thread.c:859-881 | the stores make the step `Expire` and the schedule that follows, and the invariant holds afterwards |
| KernelObject.Rtos.SetThreadPriority | rt-thread/src/thread.c:664-707 | the stores make the step `ChangePriority` and the invariant holds afterwards |
| KernelObject.Rtos.SuspendOn | rt-thread/src/ipc.c:85-131 | the FIFO and the priority loop insert at the place of the model |
| KernelObject.Rtos.ResumeHead | rt-thread/src/ipc.c:142-155 | the first waiter is resumed |
| KernelObject.Rtos.ResumeEvery | rt-thread/src/ipc.c:165-193 | the loop wakes every waiter |
| KernelObject.Rtos.HighestWaiting | rt-thread/src/ipc.c:203-218 | the most urgent priority among the waiters |
| KernelObject.Rtos.YieldThread | rt-thread/src/thread.c:496-509 | the stores make the step `Yield`, and the invariant holds afterwards |
| KernelObject.Rtos.TickSlice | rt-thread/src/clock.c:73-85 | the slice counter, 64 bits wide, goes down by one; used up it is refilled, the thread is marked and the scheduler runs: the step `TimeSlice` |
| KernelObject.Rtos.StartThread | rt-thread/src/thread.c:316-348 | with no interrupt between its sections, the stores make the step `Startup` and the schedule that follows, and the invariant holds afterwards |
| KernelObject.Rtos.ExitThread | rt-thread/src/thread.c:106-142 | the stores make the step `Exit` and the schedule that follows, and the invariant holds afterwards |
| KernelObject.Rtos.EnterCritical | rt-thread/src/scheduler.c:872-887 | the lock count goes up by one: the step `Lock` |
| KernelObject.Rtos.ExitCritical | rt-thread/src/scheduler.c:936-961 | the stores make the step `Unlock`: only the outermost one schedules |
| KernelRun.DetachExactly | rt-thread/src/thread.c:834-843 | the first section of a resumption, however the thread has fared since the test, keeps the invariant exactly if the thread is not READY by then |
| KernelRun.InsertExactly | rt-thread/src/scheduler.c:699-733 | the second section keeps the invariant exactly if the thread runs by then, or is in no queue, on no list and its timer stopped |
| KernelRun.DoubleResume | rt-thread/src/thread.c:816-850 | two resumptions of one thread, both between their sections: the first insertion keeps the invariant and the second breaks it |
| KernelRun.StaleResume | rt-thread/src/thread.c:826-843 | a resumption whose test came before another wake-up takes the READY thread out of its queue and breaks the invariant |
| KernelRun.SuspendNowKeeps | rt-thread/src/thread.c:787-801 | the section of a suspension keeps the invariant however the thread has fared since the test; the thread is suspended on no list |
| KernelRun.StepExactly | rt-thread/src/thread.c:106-881 | each section of the kernel keeps the invariant exactly if it is a fitting one: only the two of a resumption can fail |
| KernelRun.StepAside | rt-thread/src/thread.c:106-881 | a section leaves every thread that it is not about in its state, off the lists if it was, its timer stopped if it was |
| KernelRun.EveryRun | rt-thread/src/scheduler.c:409-529 | over every sequence of sections, from threads and interrupts, in any order, the invariant holds throughout exactly if every one fits |
| KernelRun.SuspendedStays | rt-thread/src/thread.c:816-850 | over every run a suspended thread stays suspended, and in transit if it is, while nobody wakes it |
| KernelRun.ResumeFits | rt-thread/src/thread.c:816-850 | over every run a resumption fits from its test to its second section if nobody else wakes the thread in between, and the thread is on no list from the one section to the other |
| KernelRun.MostUrgentEveryRun | rt-thread/src/scheduler.c:409-529 | after every run of fitting sections in which the idle thread neither waits nor ends, an unlocked schedule leaves no READY thread more urgent than the running one |
| KernelRun.LockedKeepsCurrent | rt-thread/src/scheduler.c:872-961 | over every run of fitting sections without an unlock, a locked scheduler keeps the current thread and stays locked |
| Mutex.TakeKeeps | rt-thread/src/ipc.c:697-842 | a free mutex is taken, an own one held once more up to the limit, one of another is refused exactly if the call may not wait, and waited for otherwise; then the owner has the smaller of its and the taker's priority, the taker is the one newcomer on the list and its timer runs if the wait is bounded, and nobody else changes; the laws of `EveryRun` hold |
| Mutex.BlockEffect | rt-thread/src/ipc.c:770-811 | the wait of a take: priority handed to the owner, place on the list, timer, and nothing else |
| Mutex.ReleaseKeeps | rt-thread/src/ipc.c:853-977 | an error exactly for a caller that is not the owner; at the last release it is back at its base priority and the first waiter, if any, leaves the list and owns the mutex; at any other only the count changes |
| Mutex.GrantKeeps | rt-thread/src/ipc.c:906-949 | the new owner takes over the most urgent priority that still waits |
| Mutex.GrantEffect | rt-thread/src/ipc.c:906-949 | the first waiter leaves the list, can run and owns the mutex; in FIFO order it has the most urgent priority that waited; nobody else changes |
| Mutex.GrantPrio | rt-thread/src/ipc.c:906-949 | in either order the new owner has exactly the priority of the most urgent waiter |
| Mutex.InheritKeeps | rt-thread/src/ipc.c:782-789 | at most the owner's priority changes, and it only gets more urgent |
| Mutex.TimeoutKeeps | rt-thread/src/thread.c:859-881 | a timed out waiter leaves the list and nothing else of the mutex changes |
| Mutex.TurnsElsewhere | rt-thread/src/thread.c:496-509 | a yield and a time slice are steps of the rest of the system in the runs of a mutex |
| Mutex.OtherListsElsewhere | rt-thread/src/ipc.c:85-155 | so are waits on, and wake-ups from, the lists of other objects |
| Mutex.ReturnKeeps | rt-thread/src/ipc.c:816-842 | a take that waited returns RT_EOK exactly when it owns the mutex |
| Mutex.EveryRun | rt-thread/src/ipc.c:697-977 | over every interleaving: value 1 iff no owner iff hold 0, waiters imply an owner, the owner is at least as urgent as every waiter, everybody else is at base priority |
| MutexObject.Mtx.constructor | rt-thread/src/ipc.c:573-596 | a fresh mutex is free |
| MutexObject.Mtx.Acquire | rt-thread/src/ipc.c:697-842 | the call makes the step `Take` and, when it waits, the schedule, and keeps the invariant |
| MutexObject.Mtx.TakeSection | rt-thread/src/ipc.c:717-811 | the first interrupt-disabled section |
| MutexObject.Mtx.Return | rt-thread/src/ipc.c:816-842 | the end of a take that waited |
| MutexObject.Mtx.Give | rt-thread/src/ipc.c:853-977 | the call makes the model's step and keeps the invariant |
| MutexObject.Mtx.ReleaseSection | rt-thread/src/ipc.c:873-970 | the section of a release |
| MutexObject.Mtx.GrantNext | rt-thread/src/ipc.c:906-949 | the hand-over |
| WaitRoom.WakeKeeps | rt-thread/src/ipc.c:1664-1667 | the first waiter, if there is one, leaves the list and can run with RT_EOK, and nobody else changes; then there is a woken thread for one more item while somebody waits |
| WaitRoom.EnterKeeps | rt-thread/src/ipc.c:1586-1621 | a thread that starts to wait is suspended with its error cleared, is on the list in its order, and its timer runs exactly if the wait is bounded; nobody else and no wake-up of another room changes |
| WaitRoom.LeaveKeeps | rt-thread/src/ipc.c:1626-1644 | a thread that goes on is inside no more and takes at most its own wake-up with it |
| WaitRoom.TimeoutKeeps | rt-thread/src/thread.c:859-881 | a timeout loses no wake-up |
| WaitRoom.FailAllKeeps | rt-thread/src/ipc.c:1928-1931 | a reset wakes everybody with an error |
| Mailbox.PushAppends | rt-thread/src/ipc.c:1646-1657 | the ring with its two offsets is a queue: a send appends |
| Mailbox.PushFrontPrepends | rt-thread/src/ipc.c:1729-1743 | an urgent send goes to the front |
| Mailbox.PopTakesFirst | rt-thread/src/ipc.c:1868-1880 | a receive takes the first |
| Mailbox.SendKeeps | rt-thread/src/ipc.c:1554-1681 | sent exactly when there was room, refused exactly when there was none and the call may not wait, waiting otherwise; sent, the mail is appended and one receiver woken; waiting, the caller is on the list, with its timer exactly for a positive time; no wake-up is lost on either side |
| Mailbox.UrgentKeeps | rt-thread/src/ipc.c:1710-1762 | sent exactly when there was room, at the front, with one receiver woken; else refused with nothing changed |
| Mailbox.ReceiveKeeps | rt-thread/src/ipc.c:1775-1903 | received exactly when there was a mail, the oldest one, with one sender woken; refused exactly when there was none and the time is 0; waiting otherwise, for RT_WAITING_FOREVER without a timer; no wake-up lost |
| Mailbox.SendOnKeeps | rt-thread/src/ipc.c:1626-1681 | a woken sender returns its error exactly if it has one; else it sends, is refused or waits again exactly as in the first round |
| Mailbox.ReceiveOnKeeps | rt-thread/src/ipc.c:1848-1903 | likewise a woken receiver |
| Mailbox.ResetKeeps | rt-thread/src/ipc.c:1915-1947 | a reset empties the box and both lists, and wakes exactly the waiters, with an error |
| Mailbox.NoWakeupLost | rt-thread/src/ipc.c:1554-1903 | over every interleaving, while a receiver is suspended the mails never exceed the receivers woken but not yet run; likewise senders and free slots |
| MailboxObject.Mb.constructor | rt-thread/src/ipc.c:1406-1434 | a fresh box is empty |
| MailboxObject.Mb.Put | rt-thread/src/ipc.c:1646-1657 | the stores append |
| MailboxObject.Mb.PutFront | rt-thread/src/ipc.c:1729-1743 | the stores prepend, with the out offset wrapping down |
| MailboxObject.Mb.TakeOut | rt-thread/src/ipc.c:1868-1880 | the stores remove the first |
| MailboxObject.Mb.SendSection | rt-thread/src/ipc.c:1573-1678 | one round of the send loop makes the model's step |
| MailboxObject.Mb.Send | rt-thread/src/ipc.c:1554-1681 | the call keeps the invariant and appends exactly when it says so |
| MailboxObject.Mb.SendMore | rt-thread/src/ipc.c:1626-1681 | the rounds after a wait |
| MailboxObject.Mb.Urgent | rt-thread/src/ipc.c:1710-1762 | prepends exactly when there is room |
| MailboxObject.Mb.ReceiveSection | rt-thread/src/ipc.c:1792-1898 | one round of the receive loop makes the model's step |
| MailboxObject.Mb.Receive | rt-thread/src/ipc.c:1775-1903 | takes the first mail exactly when there is one |
| MailboxObject.Mb.ReceiveMore | rt-thread/src/ipc.c:1848-1903 | the rounds after a wait |
| MailboxObject.Mb.Reset | rt-thread/src/ipc.c:1915-1947 | the box is empty and everybody is woken |
| Event.MetGrows | rt-thread/src/ipc.c:1160-1178 | a condition met by fewer bits is met by more, so clearing bits satisfies nobody |
| Event.WakeScanned | rt-thread/src/ipc.c:1187-1202 | a wake-up in the middle of the scan satisfies none of the waiters already passed over |
| Event.ScanKeeps | rt-thread/src/ipc.c:1150-1204 | after the scan nobody who still waits is satisfied, and everybody woken was satisfied by the bits it began with |
| Event.SendKeeps | rt-thread/src/ipc.c:1125-1214 | a send keeps the invariant and wakes satisfied waiters only; an error exactly for no bits |
| Event.ScanPasses | rt-thread/src/ipc.c:1150-1204 | one pass gives each waiter its turn in list order: satisfied by the set as it is by then, it leaves and can run, with all the bits it asked for or those of them that are set; otherwise it and its request stay |
| Event.SendEffect | rt-thread/src/ipc.c:1137-1207 | the bits sent are set first, then every waiter has its turn; nobody else changes; no bits change nothing |
| Event.SendLeaves | rt-thread/src/ipc.c:1145-1193 | what is set afterwards is all that was set or sent, but for exactly the bits given to those woken threads that asked to clear them |
| Event.SendSets | rt-thread/src/ipc.c:1145-1193 | all that was set or sent is set if nobody woken asked to clear, as when nobody waits |
| Event.SendWakes | rt-thread/src/ipc.c:1150-1204 | the first waiter that all the bits set and sent satisfy leaves the list, with its bits of these |
| Event.ReceiveKeeps | rt-thread/src/ipc.c:1230-1349 | bits are given at once exactly when the condition is met, and they answer the request; nobody is left waiting satisfied |
| Event.ReceiveEffect | rt-thread/src/ipc.c:1230-1324 | a receive that is satisfied gets the bits, and leaves the set, of a satisfied waiter at its turn; one that is not is refused exactly when the time is 0, and else waits, with its timer exactly for a positive time |
| Event.GoOnKeeps | rt-thread/src/ipc.c:1329-1348 | a receive that waited returns its error or exactly the bits it was given, which answer what it asked for; the set stays |
| Event.TimeoutKeeps | rt-thread/src/thread.c:859-881 | a timeout keeps the invariant |
| Event.ResetKeeps | rt-thread/src/ipc.c:1361-1389 | a reset clears every bit, empties the list and wakes exactly the waiters, with an error |
| Event.NobodyWaitsSatisfied | rt-thread/src/ipc.c:1125-1349 | over every interleaving no suspended thread's AND/OR condition is met by the current set |
| EventObject.Ev.constructor | rt-thread/src/ipc.c:1011-1029 | a fresh event has no bits |
| EventObject.Ev.SendSection | rt-thread/src/ipc.c:1137-1207 | one pass over the waiters in list order makes the model's step |
| EventObject.Ev.SendBits | rt-thread/src/ipc.c:1125-1214 | the call makes the step `Send`, schedules exactly if it woke somebody, and keeps the invariant |
| EventObject.Ev.ReceiveSection | rt-thread/src/ipc.c:1246-1324 | the section up to the wait makes the model's step |
| EventObject.Ev.ReceiveBits | rt-thread/src/ipc.c:1230-1349 | the call makes the step `Receive`: it gives bits exactly when the condition is met, and schedules exactly if it waits |
| EventObject.Ev.ReturnBits | rt-thread/src/ipc.c:1329-1348 | the end of a receive that waited |
| EventObject.Ev.ResetBits | rt-thread/src/ipc.c:1361-1389 | the stores make the step `Reset`, the bits are 0 and the invariant holds afterwards |
| MessageQueue.TakeFreeOk | rt-thread/src/ipc.c:2268-2269 | a node leaves the free list and is in flight; the messages stay |
| MessageQueue.LinkTailOk | rt-thread/src/ipc.c:2274-2298 | the filled node is the last message |
| MessageQueue.LinkHeadOk | rt-thread/src/ipc.c:2388-2406 | an urgent one is the first |
| MessageQueue.TakeHeadOk | rt-thread/src/ipc.c:2544-2557 | the first message leaves the queue and is in flight |
| MessageQueue.PutFreeOk | rt-thread/src/ipc.c:2567-2569 | its node goes back to the free list |
| MessageQueue.DrainKeeps | rt-thread/src/ipc.c:2624-2642 | a reset moves every queued node to the free list and none in flight |
| MessageQueue.SendTakeKeeps | rt-thread/src/ipc.c:2180-2272 | a sender, also an interrupt over any thread, has a node exactly when one was free and the message fits; it is refused exactly when none was and it may not wait, and waits exactly otherwise; no wake-up is lost |
| MessageQueue.SendLinkKeeps | rt-thread/src/ipc.c:2274-2322 | the message, filled up with what its node held, is appended, or put first if urgent, and exactly one receiver is woken if one waits |
| MessageQueue.ReceiveTakeKeeps | rt-thread/src/ipc.c:2467-2560 | a receiver has the first message exactly when there is one; it is refused exactly when there is none and it may not wait, and waits otherwise |
| MessageQueue.ReceivePutKeeps | rt-thread/src/ipc.c:2562-2592 | what it copies out is the message it took, cut to the buffer; its node is free again and exactly one sender is woken if one waits |
| MessageQueue.SendOnKeeps | rt-thread/src/ipc.c:2248-2272 | a woken sender returns its error exactly if it has one; else it has a node, is refused or waits again exactly as in the first round |
| MessageQueue.ReceiveOnKeeps | rt-thread/src/ipc.c:2524-2560 | a woken receiver likewise |
| MessageQueue.ResetKeeps | rt-thread/src/ipc.c:2605-2650 | the queue is empty, exactly the waiters are woken with an error, nodes in flight stay with their threads |
| MessageQueue.EveryNodeInOnePlace | rt-thread/src/ipc.c:2164-2650 | over every interleaving of the two sections of every call, each node is in exactly one place, `entry` is the queue length and no wake-up is lost |
| MessageQueueObject.MsgQueue.constructor | rt-thread/src/ipc.c:1970-2020 | no message is queued, no node is in flight, and each of the nodes is on the free list once |
| MessageQueueObject.MsgQueue.TakeFreeNode | rt-thread/src/ipc.c:2268-2269 | the stores take the first free node |
| MessageQueueObject.MsgQueue.LinkAtTail | rt-thread/src/ipc.c:2274-2298 | the stores link at the tail |
| MessageQueueObject.MsgQueue.LinkAtHead | rt-thread/src/ipc.c:2388-2406 | the stores link at the head |
| MessageQueueObject.MsgQueue.TakeHeadNode | rt-thread/src/ipc.c:2544-2557 | the stores unlink the head |
| MessageQueueObject.MsgQueue.PutFreeNode | rt-thread/src/ipc.c:2567-2569 | the stores push on the free list |
| MessageQueueObject.MsgQueue.DrainAll | rt-thread/src/ipc.c:2624-2642 | the loop empties the queue |
| MessageQueueObject.MsgQueue.SendTakeSection | rt-thread/src/ipc.c:2180-2272 | one round of the send loop makes the model's step |
| MessageQueueObject.MsgQueue.BeginSend | rt-thread/src/ipc.c:2164-2272 | the first section of a send, also from an interrupt over any thread, makes the model's step: a node exactly when one was free and the message fits |
| MessageQueueObject.MsgQueue.ResumeSend | rt-thread/src/ipc.c:2248-2272 | the rounds after a wait |
| MessageQueueObject.MsgQueue.FinishSend | rt-thread/src/ipc.c:2274-2322 | the second section: appended, or first if urgent |
| MessageQueueObject.MsgQueue.ReceiveTakeSection | rt-thread/src/ipc.c:2467-2560 | one round of the receive loop makes the model's step |
| MessageQueueObject.MsgQueue.BeginReceive | rt-thread/src/ipc.c:2445-2560 | the first section of a receive, also from an interrupt over any thread, makes the model's step |
| MessageQueueObject.MsgQueue.ResumeReceive | rt-thread/src/ipc.c:2524-2560 | the rounds after a wait |
| MessageQueueObject.MsgQueue.FinishReceive | rt-thread/src/ipc.c:2562-2592 | the second section returns the message the first one took |
| MessageQueueObject.MsgQueue.ResetQueue | rt-thread/src/ipc.c:2605-2650 | the stores make the step `Reset`: the queue is empty and nodes in flight are untouched |
| MergeSort.MergeSorts | packages/CoreMark-latest/core_list_join.c:453-477 | merging two sorted runs gives a sorted one |
| MergeSort.MergeStable | packages/CoreMark-latest/core_list_join.c:455-468 | ties keep their order, those of the first run before those of the second |
| MergeSort.PassDoubles | packages/CoreMark-latest/core_list_join.c:432-489 | a pass doubles the length of the sorted runs, and a pass with one merge sorts the list |
| MergeSort.PassStable | packages/CoreMark-latest/core_list_join.c:432-489 | a pass keeps the order of ties |
| MergeSort.StableSortPermutes | packages/CoreMark-latest/core_list_join.c:425-495 | a stably sorted list holds the same cells |
| MergeSort.StableSortUnique | packages/CoreMark-latest/core_list_join.c:425-495 | there is only one stable sort of a list |
| MergeSort.Cells.MergeTwo | packages/CoreMark-latest/core_list_join.c:453-480 | relinking gives the merge of the two runs behind what was merged before |
| MergeSort.Cells.StepAhead | packages/CoreMark-latest/core_list_join.c:440-447 | the stepping loop finds the second run or the end |
| MergeSort.Cells.OnePass | packages/CoreMark-latest/core_list_join.c:432-483 | one pass merges all runs two by two and counts the merges |
| MergeSort.Cells.Sort | packages/CoreMark-latest/core_list_join.c:425-495 | terminates on any non-empty list and relinks the same cells into sorted order, ties as they were; no link outside these cells changes |
| CoreLists.RemoveShortens | packages/CoreMark-latest/core_list_join.c:315-326 | the data sequence loses exactly the removed datum, which the cell given back holds |
| CoreLists.RestoreLengthens | packages/CoreMark-latest/core_list_join.c:344-354 | undoing inserts the datum before that of the modified cell |
| CoreLists.UndoRestores | packages/CoreMark-latest/core_list_join.c:315-354 | undoing a removal at once restores the same links and data |
| CoreLists.TurnedTwice | packages/CoreMark-latest/core_list_join.c:394-402 | turning the list round twice gives back every link |
| CoreLists.ListCells.Remove | packages/CoreMark-latest/core_list_join.c:315-326 | the stores of a removal |
| CoreLists.ListCells.UndoRemove | packages/CoreMark-latest/core_list_join.c:344-354 | the stores of its undoing |
| CoreLists.ListCells.Reverse | packages/CoreMark-latest/core_list_join.c:394-402 | each cell ends up linked to the one that was before it, so that the same cells are a list from the last to the first |
| StackUsage.ResolveAll | rt-thread/tools/WCS.py:223-242 | every call is resolved to what the lookup finds, a global before a local, or is listed as unresolved |
| StackUsage.ResolveCalls | rt-thread/tools/WCS.py:224-233 | the same for one function |
| StackUsage.RightUnique | rt-thread/tools/WCS.py:245-299 | a function has one worst-case stack |
| StackUsage.DivergesBelow | rt-thread/tools/WCS.py:259-281 | without pointer calls a function is unbounded only through a callee |
| StackUsage.CycleDiverges | rt-thread/tools/WCS.py:264-267 | a function met among its own callers is on a cycle |
| StackUsage.StepRight | rt-thread/tools/WCS.py:269-290 | own stack plus the largest callee is the maximum over all call paths, and it is reached |
| StackUsage.OpensStep | rt-thread/tools/WCS.py:286-288 | what a function leaves unresolved is its own or a callee's |
| StackUsage.ManualRight | rt-thread/tools/WCS.py:189-200 | a preset entry of a callee-free function is as computed |
| StackUsage.Analysis.Calc | rt-thread/tools/WCS.py:246-290 | with any memo and any stack of callers, the search terminates and every entry it adds is right |
| StackUsage.Analysis.CalcCalls | rt-thread/tools/WCS.py:269-290 | the loop over the calls |
| StackUsage.Analysis.AddCall | rt-thread/tools/WCS.py:273-288 | one call of the loop |
| StackUsage.Analysis.CalcAll | rt-thread/tools/WCS.py:292-299 | in any order of functions: 'unbounded' iff a cycle or a pointer call is reached, else exactly the maximum over call paths; for bounded functions the unresolved names are exactly those reachable |
| Romfs.DataHolds | applications/mkromfs.py:165-214 | wherever a folder's bytes stand, every entry in them points at that child's NUL-padded name and its contents, 4-aligned, at any depth |
| Romfs.ImageDescribes | applications/mkromfs.py:233-244 | every name and data address of the image, minus the base, points at what it stands for |
| Romfs.SmallFits | applications/mkromfs.py:165-214 | an image that ends below 2^32 can be packed |
| Romfs.BinData | applications/mkromfs.py:165-214 | the loop produces that layout; it fails exactly when a number does not fit its field |
| Romfs.GetBinData | applications/mkromfs.py:233-244 | the whole image |
| Romfs.BinName | applications/mkromfs.py:31-36 | the name, at least one NUL, up to a boundary of 4 |
| Romfs.Search | rt-thread/components/dfs/filesystems/romfs/dfs_romfs.c:83-121 | the search in a folder of the image stops at the first child of that name |
| Romfs.Lookup | rt-thread/components/dfs/filesystems/romfs/dfs_romfs.c:48-129 | the kernel's lookup in the generated image finds an entry exactly when the path leads somewhere in the tree, and the entry of that node |

## Left out

- `RT_USING_SMP`, `RT_USING_SIGNALS`, context switching, stack checks, hooks, debug output, name tags of memory blocks: not in this configuration or without effect on the properties.
- Semaphores alone, memory pools, devices, object containers, detaching and deleting objects: the same shapes, easier.
- `rt_tick_set`, soft timers, switching a timer between one-shot and periodic: the timer lemmas are about hard timers whose kind is fixed.
- `rt_calloc` and the slab allocator's `rt_realloc`: compositions of the calls that are modelled.
- File and regular-expression reading in `WCS.py` and `mkromfs.py`, the C text output and the sorting of children in `mkromfs.py`: input and output.
- The parsing of a path into its components in the romfs lookup: the model's path is the sequence of components.
- MemHeap.MemHeap.Alloc: a request leaves room for rounding in 64 bits; one call at a time, as the heap's semaphore ensures. A reallocation by moving, which takes the lock twice, is one call here.
- MemHeap.MemHeap.Realloc: as for the allocation; a growth that the narrowed test misjudges, which no pool below 2^31 bytes has, is not a call of it, as it writes past the neighbour; `GrowsTooFar` says what it does.
- HeapGroup.Heaps.Malloc: the set of heaps is fixed while the model runs; a payload is named by its heap and its offset, as its header does.
- SmallMem.SmallHeap.Realloc: block payloads have no bytes in this model, so the copy of the moving branch is not in it; the other heap's copy is.
- SmallMem.SmallHeap.Alloc: the heap has room for the smallest block; the statistics counters are kept, the semaphore is one call at a time.
- SlabHeapObject.Allocator.Malloc: the page list is a sequence of runs rather than links through the free pages, and zone headers are records rather than bytes of the zone; the statistics counters are not kept; one call at a time, although the code opens the lock around the page allocator.
- TimerQueue.FiresUnlessStopped: a check follows each tick, timeout functions take no time, and delays are at least 1 and below half the range.
- TimerWheel.Wheel.SetTime: a new delay is at least 1 and below half the range, although the control call stores any; `WrapEndsIff` says what a delay of 0 does.
- TimerWheel.Wheel.Link: the counter is read as a number, in which `&` with 1 or 3 and the shift are remainder and quotient.
- TimerWheel.Wheel.Check: a timeout function is any finite sequence of starts, stops and new delays; it is a parameter.
- KernelRun.EveryRun: the three stores of `rt_thread_startup` before it resumes the new thread are one step, since nobody else knows the thread; a thread that has suspended itself calls the scheduler next, as the code asks of it.
- Kernel.MostUrgentRuns: 32 priorities, as configured; a thread's timer is a flag here, and its timeout a step of the environment.
- Kernel.ChangePriorityKeeps: the suspend list of a waiting thread is not sorted again, as in the code.
- Mutex.EveryRun: one mutex, no other change of priorities, and no outside resumption of a thread that waits for it.
- Mailbox.NoWakeupLost: at most 65535 mails; the time left after a wait is a parameter of the next round.
- Event.NobodyWaitsSatisfied: the option of a receive asks for all or for any of the bits, as the code asserts.
- MessageQueue.EveryNodeInOnePlace: message bytes are integers; a short message leaves the rest of its node as it was, which the model shows.
- MergeSort.Cells.Sort: the comparator is a function of the two cells and a total preorder; the list is not empty and at most 2^30 cells long.
- StackUsage.Analysis.CalcAll: functions are numbers, so that being the same function is identity, not equality of records.
- Romfs.Lookup: the image is shorter than 2^32 bytes and names hold no NUL; directory entries are 16 bytes, as on a target with 32-bit pointers.
