# A verified model of gperftools' allocator

This project models the core of gperftools in Dafny and proves what its layers promise.

- **Page heap** (`Spans`, `FreeLists`, `PageHeap`): spans of pages with boundary tags, bins per length and ordered
  sets for large spans, eager coalescing, commit accounting, release, heap limit, aligned allocation. A class with the
  source's fields; every public method is one step under the page-heap lock and keeps one invariant.
- **Central lists and thread caches as a concurrent system** (`Cells`, `Central`, `Allocator`, `AllocatorProof`,
  `AllocatorSteps`, `AllocatorTheorems`, `TransferBudget`, `Locks`, `Stats`): a step is what a thread does between taking a
  lock and the next release; chains in hand are part of the state; clients and large allocations interleave freely. The
  theorems speak about every state of every run, and `AllocatorSteps` says what each step does. `Locks` refines this to
  single lock and unlock calls, with the locks taken below and the fork handler.
- **The same on linked memory** (`LinkedLists`, `SpanLists`, `CentralFreeList`): in-object links and circular span lists,
  with the central list's methods proved to do what the functions of the concurrent system do.
- **One thread's side** (`ThreadLists`, `ThreadBudget`): free lists with low-water marks and dynamic limits, and the
  byte budget shared over a linked list of caches.
- **Lookup structures** (`PackedCache`, `SizeClassCache`, `PageMap`, `SizeMap`, `AddressMap`): bit-level cache words, the
  cache beside the running allocator with its stale entries, radix trees, the size-class table, the address map.
- **Extras** (`Regex`, `ProfileData`): the continuation-passing matcher against its language, and the profile collector
  that loses no sample.
- **Layers** runs page heap and caches together, one history for both, up to the reported
  `generic.current_allocated_bytes` and the class a block is freed to.

`dafny verify dfyconfig.toml` checks the whole project.

## How the model is set up

- Constants are those of a 64-bit build with 8 KiB pages and no small-but-slow option. Addresses, counts and limits are
  unbounded integers, except where the source's width matters: `RoundUpSize`, `PageMap`, `AddressMap.FindInside`, the trace
  hash and the packed cache work modulo 2^64 or on 64-bit words.
- The page heap counts in pages where the source counts in bytes. Span lengths are assumed to stay below 2^31 pages
  (the source keeps leftovers in an `int`), alignments are powers of two, and refcounts do not wrap.
- The system allocator, the system release call, page-map memory, the victim of a transfer-cache eviction
  and unlocked reads are nondeterministic. A region from the system is fresh but otherwise arbitrary.
- Transfer batches are at least one object. Class 0 serves no requests, but its transfer cache has slots that other
  classes take.
- Clients free only blocks they hold, each once. A free that misses the size-class cache writes it while the block is
  still the client's, so that write is one step on a live block.
- In the concurrent system a thread may refill, flush or scavenge by any amount at any time; `ThreadLists` has the
  amounts the source chooses.

Some promises fail as stated; each is proved with its exact condition and an input that meets it:

- Touching returned spans are always merged. With aggressive decommit on (and nothing refused), freeing a span leaves
  two touching iff a normal neighbour on either side has a returned span beyond it (`DeleteLocked`, `BothSides`;
  `AggressiveLeavesTouching`). Touching normal spans are merged in every mode.
- The total of the transfer cache sizes does not rise. It does in a step iff a slot in transit arrives (`TotalRises`;
  `RiseReached`), though never above its initial value (`CacheBounded`).
- The range that contains a key is found, unless it ends at the very top of the address space and starts before the key
  (`FindInside`; `TopRangeMissed`).
- The limit of a thread cache is not negative, unless the minimum is below the stolen amount less one (`MoveLimit`;
  `LimitGoesNegative` for every such minimum); and a new cache finds unclaimed space or another cache, unless it is the
  first and the overall size is zero (`NewHeap`; `NothingToTakeFrom`).
- A span is cut into objects, unless it ends at the very top of the address space, where the end wraps to zero
  (`Memory.Carve`).
- The size classes pass the check of natural alignment, unless the smallest span is five pages (`AlignedUnless`).

## Model

| member | source | states |
|---|---|---|
| `Spans.LeftNeighbour` | src/page_heap.cc:465-474 | the page-map entry just before a span is unset or is the span that ends there, whatever stale entries inner pages hold |
| `Spans.RightNeighbour` | src/page_heap.cc:475-483 | the same for the entry just after a span |
| `Spans.CutTagged` | src/page_heap.cc:310-325 | splitting a span keeps first and last pages of both parts (all pages of sized spans) mapped to their spans and maps no page outside all spans |
| `Spans.JoinTagged` | src/page_heap.cc:465-483 | joining two touching spans keeps the boundary tags right although inner entries go stale |
| `FreeLists.PutFiles` | src/page_heap.cc:488-511 | a span put into the bin for its length and location leaves every free span in exactly one bin, the right one |
| `FreeLists.TakeFiles` | src/page_heap.cc:513-531 | the same for taking a span out |
| `FreeLists.UpperBound` | src/page_heap.cc:261-289 | the search in the ordered set returns the least element of the best-fit order (length, then address) of at least n pages, or none if there is none |
| `PageHeaps.RoundUpSize` | src/page_heap.cc:126-135 | the least multiple of the smallest span at or above n in 64-bit arithmetic, and the largest multiple when that wraps |
| `PageHeaps.PageHeap.constructor` | src/page_heap.cc:74-88 | a new heap satisfies the whole invariant |
| `PageHeaps.PageHeap.RemoveFromFreeList` | src/page_heap.cc:513-531 | takes one span off its bin and out of the ledger, keeping the invariant for all others |
| `PageHeaps.PageHeap.PrependToFreeList` | src/page_heap.cc:488-511 | files one span in the bin for its length and location and books its pages |
| `PageHeaps.PageHeap.DecommitSpan` | src/page_heap.cc:336-347 | committed pages drop by the span length exactly when the system releases it |
| `PageHeaps.PageHeap.CheckAndHandlePreMerge` | src/page_heap.cc:415-433 | a neighbour is taken for merging iff it is free and of the same location, or, with aggressive decommit on, normal beside a returned span and released on the way |
| `PageHeaps.PageHeap.MergeSide` | src/page_heap.cc:465-483 | one side of a merge: the exact table of spans afterwards, pages conserved, and no mergeable neighbour left on that side |
| `PageHeaps.PageHeap.MergeIntoFreeList` | src/page_heap.cc:435-486 | a freed span and its neighbours end up in one span; spans stay disjoint, tagged, filed once, counted and coalesced; with aggressive decommit on and nothing refused, returned spans stay coalesced iff no normal neighbour, on either side, has a returned span beyond it |
| `PageHeaps.BothSides` | src/page_heap.cc:465-483 | merging on both sides leaves two touching returned spans iff there were such before or a normal neighbour with a returned span beyond it was taken in; it never joins two that touched before |
| `PageHeaps.AggressiveLeavesTouching` | src/page_heap.cc:421-426 | a run of the heap from its start (three pages allocated and cut apart, freed one by one, with a release and aggressive decommit between) that ends with two touching returned spans unless the system refuses something; before the last step there were none and the condition held |
| `PageHeaps.PageHeap.SetAggressiveDecommit` | src/page_heap.h:238-238 | turning the mode on ends only the claim about touching returned spans; the rest of the invariant stays |
| `PageHeaps.PageHeap.ReleaseSpan` | src/page_heap.cc:567-579 | a normal span moves from free to unmapped pages whole, or nothing changes when the system refuses; handed-out spans are untouched |
| `PageHeaps.PageHeap.ReleaseRound` | src/page_heap.cc:589-613 | a round starts at the remembered list, skips empty ones, releases the last span of the first that is not (the shortest of the large ones), and stops as soon as enough is released, with the last span needed; with normal pages left it releases one or ends in a refusal; spans already released stay so and no normal span changes otherwise |
| `PageHeaps.PageHeap.ReleaseAtLeastNPages` | src/page_heap.cc:581-616 | terminates; returns at least the request unless nothing normal is left or a release was refused, and no more than the last span it needed; a request of nothing changes nothing; the result is exactly the drop in free pages, and returned spans are coalesced afterwards iff they were before, in every mode |
| `PageHeaps.PageHeap.NextToRelease` | src/page_heap.cc:591-606 | the last normal span of the list the round is at, or the shortest of the large ones, lowest address first; none iff there is none |
| `PageHeaps.PageHeap.EnsureLimit` | src/page_heap.cc:618-640 | true iff taken minus unmapped plus n is within the limit afterwards; with releasing and no refusal, iff it could be met by releasing every normal page; releases nothing if the limit is met already, else no span more than it needed |
| `PageHeaps.PageHeap.CarveOff` | src/page_heap.cc:349-386 | the rest of a carved span becomes a free span of the same location, tagged and filed |
| `PageHeaps.PageHeap.Carve` | src/page_heap.cc:349-386 | hands out exactly n pages from the front of a free span; the exact table afterwards, with the rest, if any, free at the old location; unmapped pages drop by n iff the span was returned |
| `PageHeaps.PageHeap.BestLarge` | src/page_heap.cc:261-289 | of the two ordered sets, the shortest span of at least n pages, normal before returned at equal length; none iff there is none |
| `PageHeaps.PageHeap.AllocLarge` | src/page_heap.cc:261-308 | recurses at most once; uses a best fit, and exactly that, iff one exists when the limit allows n; never fails when a large fit exists, nothing is refused and releasing can meet the limit; pages come back from the system only within the limit |
| `PageHeaps.PageHeap.NormalWithinReach` | src/page_heap.cc:261-308 | if what was taken is within the limit and a normal span of n pages exists, releasing can meet the limit for n, so AllocLarge cannot fail |
| `PageHeaps.PageHeap.TryLength` | src/page_heap.cc:94-116 | one length: the first normal span of that length, else the first returned one if the limit can be met and it is still there, else none; a span that coalescing has taken away is part of a longer one |
| `PageHeaps.PageHeap.SearchFreeAndLargeLists` | src/page_heap.cc:90-122 | when the limit allows n: cuts n pages off a shortest free span of at least n pages over all lists and sets, normal before returned, and fails iff there is none; otherwise it fails only if nothing fits, the limit is out of reach or the system refuses, and takes pages back from the system only within the limit |
| `PageHeaps.PageHeap.IncrementalScavenge` | src/page_heap.cc:533-565 | counts down; at zero releases until one page is out and then waits a thousand pages for every page released, divided by the rate, within bounds; with the rate off, or nothing to release, it waits the default; pages move only between free and unmapped |
| `PageHeaps.PageHeap.DeleteLocked` | src/page_heap.cc:393-408 | the freed span, and nothing else, is no longer handed out; its pages lie inside a free span afterwards and are counted once; the scavenger counts them, and releases something when its wait is over; with aggressive decommit off, or nothing refused, coalesced returned spans stay so iff aggressive decommit is off or no normal neighbour of the span has a returned span beyond it |
| `PageHeaps.PageHeap.AdoptRegion` | src/page_heap.cc:755-763 | a new region becomes a span that joins the heap like a freed one |
| `PageHeaps.PageHeap.AskSystem` | src/page_heap.cc:712-727 | asks for a large region, then for just n pages, and never for what the limit cannot meet after releasing everything: then no request is made at all; with n within reach and nothing refused it fails only if the system denied a request, without a limit iff it denied all |
| `PageHeaps.PageHeap.GrowHeap` | src/page_heap.cc:708-769 | on success a free span of at least n pages exists and all of the region is free and charged; with n beyond the reach of the limit nothing is asked of the system and nothing taken; without a limit it fails iff the size is beyond the address space, the system meets none of its requests, or the page map refuses; with one within reach, nothing refused, only if one of these has happened |
| `PageHeaps.PageHeap.NewLocked` | src/page_heap.cc:166-219 | hands out exactly one new span of the rounded size; if a free span fits and the limit allows it, that is a best fit, cut in place, and the system is not asked; beyond the reach of the limit nothing is asked of the system; without a heap limit it fails iff the size is beyond the address space, the system met none of its one or two requests, or the page map refused the region, and with one that can be met, nothing refused, only if one of these has happened or the page map took memory |
| `PageHeaps.PageHeap.SearchTwice` | src/page_heap.cc:171-203 | no free span is long enough, but in a crowded heap whose returned spans are coalesced enough free pages lie in a row: after everything is given back to the system they are one span, and that is used; a heap that is not crowded is left alone |
| `PageHeaps.RunInOne` | src/page_heap.cc:178-191 | when all free spans are returned ones, maximally joined, pages free in a row lie in one span |
| `PageHeaps.PageHeap.RegisterSizeClass` | src/page_heap.cc:642-651 | maps every page of the span to it and keeps the invariant |
| `PageHeaps.PageHeap.NewWithSizeClass` | src/page_heap.cc:152-164 | as NewLocked, best fit and failures included, with the size class set and all pages mapped for a sized span |
| `PageHeaps.PageHeap.Split` | src/page_heap.cc:310-325 | two in-use spans that tile the old one |
| `PageHeaps.PageHeap.AlignSpan` | src/page_heap.cc:239-257 | trims a span to n pages from its first aligned page on and frees both ends; nothing else changes hands |
| `PageHeaps.PageHeap.NewAligned` | src/page_heap.cc:221-259 | hands out the rounded size at an aligned page; if a free span fits size plus alignment and the limit allows it, that is the first aligned page of a best fit and the system is not asked; always fails when size plus alignment overflows, else without a heap limit exactly when the larger span cannot be had |
| `LinkedLists.Memory.Carve` | src/central_freelist.cc:319-358 | the carving loop of Populate, in 64-bit arithmetic, writes a null-terminated list through exactly the objects of the span, in address order, and writes nothing else; it cuts nothing iff the span ends at the very top of the address space |
| `Cells.CellsFacts` | src/central_freelist.cc:320-355 | those objects lie in the span, do not overlap, and are as many as fit |
| `Central.FetchShape` | src/central_freelist.cc:270-297 | as a function on sequences: takes the first n objects of the first span with any, or all it has, moves the span to the other list iff it is then empty, and changes no other span |
| `Central.FetchManyKeeps` | src/central_freelist.cc:228-259 | fetching from span after span conserves objects, keeps refcount plus free objects constant per span, lists and counters right, and stops short only when no span has objects |
| `Central.ReleaseOneKeeps` | src/central_freelist.cc:91-130 | putting an object back conserves objects; the span leaves the lists exactly when its last outstanding object comes back, and then all its cells are there |
| `Central.ReleaseListKeeps` | src/central_freelist.cc:83-130 | the same for a chain, up to the point where a span must go to the page heap |
| `Central.PopulateKeeps` | src/central_freelist.cc:300-366 | a new span joins with all its cells and at once has an object out |
| `Central.PushSlotKeeps` | src/central_freelist.cc:214-226 | a full batch in a free slot keeps used slots within the cache size |
| `Central.PopSlotKeeps` | src/central_freelist.cc:228-239 | a used slot gives back exactly one full batch |
| `CentralFreeLists.CentralFreeList.FetchFromOneSpans` | src/central_freelist.cc:270-297 | on linked objects: walks, cuts and relinks so that the links say what the function on sequences says, and the result is a null-terminated chain of the returned count |
| `CentralFreeLists.CentralFreeList.FetchMany` | src/central_freelist.cc:244-256 | the loop of RemoveRange: the chains of successive spans pushed in front of each other make one null-terminated chain of exactly the returned count |
| `CentralFreeLists.CentralFreeList.RemoveRange` | src/central_freelist.cc:228-259 | on linked objects: refines the step of the concurrent system, a slot's batch when exactly a batch is asked for and a slot is used, otherwise the fetch; the chain has exactly the returned count |
| `CentralFreeLists.CentralFreeList.InsertSlot` | src/central_freelist.cc:214-224 | the batch becomes the last slot and every other list is untouched |
| `CentralFreeLists.CentralFreeList.InsertRange` | src/central_freelist.cc:214-226 | on linked objects: refines the step of the concurrent system up to where it needs space elsewhere |
| `CentralFreeLists.CentralFreeList.ShrinkCache` | src/central_freelist.cc:187-212 | the same for the class that gives up a slot, with the evicted batch as a chain |
| `CentralFreeLists.CentralFreeList.GrowCache` | src/central_freelist.cc:156-161 | the same for the class that gains one |
| `CentralFreeLists.CentralFreeList.AddSpan` | src/central_freelist.cc:361-365 | the locked end of Populate |
| `CentralFreeLists.CentralFreeList.Populate` | src/central_freelist.cc:319-365 | carving and adding together: the span joins with the list written through its objects, and all other lists of the class stay as they are |
| `CentralFreeLists.CentralFreeList.ReleaseToSpans` | src/central_freelist.cc:91-130 | on linked objects: refines the function on sequences and writes only the object's own link |
| `CentralFreeLists.CentralFreeList.ReleaseListToSpans` | src/central_freelist.cc:83-89 | the loop refines the release of a sequence; the rest of the chain is intact where it stops |
| `LinkedLists.ChainDistinct` | src/linked_list.h:44-46 | a list that ends holds no object twice |
| `LinkedLists.Memory.Push` | src/linked_list.h:48-52 | the list becomes the element and the old list |
| `LinkedLists.Memory.TryPop` | src/linked_list.h:60-69 | fails iff the list is empty, else first element and rest |
| `LinkedLists.Memory.PopRange` | src/linked_list.h:75-92 | the first n objects become a null-terminated list of their own, the rest stays a list |
| `LinkedLists.Memory.PushRange` | src/linked_list.h:94-98 | the range is joined in front, and an empty range changes nothing |
| `LinkedLists.Memory.Size` | src/linked_list.h:100-107 | the number of objects |
| `SpanLists.Init` | src/span.cc:53-56 | an empty ring |
| `SpanLists.Remove` | src/span.cc:58-63 | the ring without the span, all other spans in order, the span unlinked |
| `SpanLists.Prepend` | src/span.cc:73-80 | the ring with the span first |
| `SpanLists.Length` | src/span.cc:65-71 | terminates with the number of spans |
| `AllocatorProof.StepKeeps` | src/central_freelist.cc:83-366 | every step of every thread and of clients keeps the invariant: conservation of objects per class, central lists, chains in hand, locks, and class 0 without objects although it is an eviction victim like any other |
| `AllocatorProof.InvAlways` | src/central_freelist.cc:83-366 | the invariant holds in every state of every interleaved run |
| `AllocatorProof.OneCarrier` | src/central_freelist.cc:91-130 | a span on its way from or to the page heap is in one thread's hand only |
| `AllocatorProof.FreeFindsClass` | src/tcmalloc.cc:1464-1523 | the class found for a block a client holds is the class it was allocated from |
| `AllocatorSteps.RemoveTakesSlot` | src/central_freelist.cc:228-239 | in every invariant state, a request for a whole batch is served from the last slot whenever there is one, and nothing else of the class changes |
| `AllocatorSteps.RemoveTakesObjects` | src/central_freelist.cc:240-259 | otherwise from the spans, with all that was asked for unless they run out, slots untouched; the first object goes to the caller, the others in front of the thread's list |
| `AllocatorSteps.RemoveAsks` | src/central_freelist.cc:240-248 | the page heap is asked iff no slot can serve the request and no span has an object |
| `AllocatorSteps.AskGetsSpan` | src/central_freelist.cc:300-313 | what the page heap returns, and only that, becomes a span of the class, with all its cells in hand |
| `AllocatorSteps.CarryServes` | src/central_freelist.cc:359-366 | with a new span the request is served in full or until spans run out; without one exactly if others have given objects back meanwhile |
| `AllocatorSteps.InsertPlaces` | src/central_freelist.cc:214-226 | a full batch goes into a slot whenever one is free; with none free and room to grow the thread looks for a victim; all else goes back to the spans |
| `AllocatorSteps.EvictTakes` | src/central_freelist.cc:187-212 | a victim gives up a free slot if it has one, a used one only if forced, with its last batch going back to its spans, and none if it has none |
| `AllocatorSteps.BackPlaces` | src/central_freelist.cc:147-164 | a slot gained is added if there is still room, and filled with the batch; without one there is one more, forced, try, and then the batch goes back to the spans |
| `AllocatorSteps.DropShape` | src/central_freelist.cc:83-130 | a chain goes back whole, or up to the object that completes a span; then exactly that span is in hand with all its cells and the rest of the chain |
| `AllocatorSteps.DropGoesOn` | src/central_freelist.cc:118-126 | the same for the rest, once the lock is back |
| `AllocatorSteps.DrainGives` | src/central_freelist.cc:118-126 | the completed span leaves the spans in use and nothing else changes |
| `AllocatorSteps.ListIsStack` | src/thread_cache.h:305-344 | an allocation takes the first object of the thread's list, a free puts one there, and nothing else moves |
| `AllocatorSteps.MallocUndone` | src/thread_cache.h:305-344 | freeing what was just allocated gives the state before |
| `AllocatorTheorems.ExactlyOnePlace` | src/central_freelist.cc:83-366 | in every run each object slot of a sized span is in exactly one place (client, one thread list, one transfer slot, its span's list, or one thread's hand), and nothing else is in any |
| `AllocatorTheorems.BlocksDisjoint` | src/thread_cache.h:305-344 | in every run any two different live blocks, small or large, are disjoint byte ranges, as section 7.22.3 of ISO C11 requires, and a client holds a small block once |
| `AllocatorTheorems.CentralAlways` | src/central_freelist.cc:83-130 | at every unlock: refcount plus free objects is the number of objects per span, a span is on the nonempty list iff it has free objects, counters are the true totals, and no listed span has all its objects back |
| `TransferBudget.CacheBounded` | src/central_freelist.cc:132-226 | in every run the total of cache sizes plus slots in transit never exceeds the initial total, and in every class, class 0 included, used slots are within the cache size within its maximum, each with a full batch |
| `TransferBudget.StepBudget` | src/central_freelist.cc:147-212 | no step raises the total with the slots in transit |
| `TransferBudget.TotalRises` | src/central_freelist.cc:147-164 | the bare total is not monotone: it rises in a step iff a slot taken from another class arrives and the class still has room |
| `TransferBudget.RiseReached` | src/central_freelist.cc:147-164 | a run of one thread and two classes that reaches such a step: the total falls from one to none and rises again |
| `Locks.OpsSafe` | src/central_freelist.cc:168-181 | the lock and unlock calls on every way from one locked part of the code to the next, LockInverter included, give up the lock held before they take the next, and end with the one that part needs |
| `Locks.ErrandSafe` | src/common.cc:266-292 | calls that only pass through locks (scoped holders, metadata and system allocation inside the page heap or outside, the fork handler) take locks in rank order and end with what they started with |
| `Locks.LocksAll` | src/static_vars.cc:95-107 | the fork handler takes all class locks and the others in rank order |
| `Locks.FineKeeps` | src/central_freelist.cc:118-126 | with lock and unlock as steps of their own and any number of locks held, every step keeps the lock discipline and is a step of the concurrent system or only moves a lock |
| `Locks.RunProjects` | src/central_freelist.cc:83-366 | every run with single lock operations is, without them, a run of the concurrent system, so all its theorems hold there |
| `Locks.LockOrder` | src/central_freelist.cc:186-197 | in every run, at every lock call outside the fork handler the thread holds no class lock, and none at all if it asks for a class lock; at every call the locks held come before the one asked for |
| `Locks.Exclusive` | src/central_freelist.cc:214-226 | in every run no lock has two holders, and code that needs a lock runs with it held |
| `Locks.NoDeadlock` | src/static_vars.cc:95-107 | in every run no cycle of threads waiting for each other exists, with any number of threads in the fork handler that takes all class locks at once |
| `Locks.SomeoneAdvances` | src/static_vars.cc:95-107 | whenever a thread waits for a lock, some thread can go on with the code it is in |
| `Stats.ReportedBytes` | src/tcmalloc.cc:284-316 | in every run at rest: pages in use minus thread, central and transfer bytes (with the overhead per span) is the bytes of live blocks at class size or span length |
| `Layers.TableServes` | src/common.cc:158-201 | the classes of any table that is accepted, with a transfer count of at least one, are what page heap and caches need: usable, few enough for the size-class cache, and with spans that need no rounding |
| `Layers.Boot` | src/static_vars.cc:61-89 | start-up: size table, central lists and page heap come up together, in a state from which all the following holds, iff the smallest span is a power of two |
| `Layers.MaxSlotsExact` | src/central_freelist.cc:63-77 | the slots of a class hold as many batches as fit in a megabyte, at least one and at most 64 |
| `Layers.System.Ask` | src/central_freelist.cc:300-312 | the span a thread asks for comes from NewWithSizeClass: the history of the caches goes on with exactly that span, and what the page heap has handed out is still what the caches have |
| `Layers.System.Drain` | src/central_freelist.cc:118-126 | the same for an empty span given back through Delete |
| `Layers.System.NewLarge` | src/page_heap.cc:152-164 | the same for a large block |
| `Layers.System.NewLargeAligned` | src/page_heap.cc:221-259 | the same for an aligned large block |
| `Layers.System.FreeLarge` | src/page_heap.cc:388-408 | the same for a large block freed |
| `Layers.System.Other` | src/thread_cache.h:305-344 | every other step of threads and clients leaves the page heap alone |
| `Layers.System.CurrentAllocated` | src/tcmalloc.cc:627-633 | whatever page heap and caches have been through together, at rest the reported current_allocated_bytes is the total of all live blocks, plus exactly the pages charged but refused by the page map |
| `Layers.System.FreesRight` | src/tcmalloc.cc:1464-1523 | whatever they have been through, a small block is freed to its own class by this page map, this cache and the table the classes come from, for every size served from that class |
| `Layers.System.FreesLarge` | src/tcmalloc.cc:1877-1896 | and a large block to its span, whatever size the caller passes |
| `Layers.System.ReleaseMemory` | src/page_heap.cc:581-616 | releasing memory to the system changes nothing for the caches |
| `Layers.HeapServes` | src/central_freelist.cc:305-311 | what the page heap hands out is what the caches may be given: new and apart from every span in use |
| `Layers.ClassSpansWhole` | src/central_freelist.cc:303-311 | span lengths of size classes need no rounding, so Populate gets the length it asks for |
| `PackedCaches.GetPut` | src/packed-cache-inl.h:182-186 | a put sets its key, evicts exactly the other keys with equal low bits and leaves all others, on the 64-bit words |
| `PackedCaches.GetInvalidate` | src/packed-cache-inl.h:188-191 | an invalidation evicts exactly the keys with equal low bits |
| `PackedCaches.PackedCache.TryGet` | src/packed-cache-inl.h:160-175 | a hit iff the partial map has the key, with its value |
| `PackedCaches.PackedCache.Clear` | src/packed-cache-inl.h:177-180 | no key hits |
| `PackedCaches.PackedCache.Put` | src/packed-cache-inl.h:182-186 | the partial map after a put, for every key |
| `PackedCaches.PackedCache.Invalidate` | src/packed-cache-inl.h:188-191 | the partial map after an invalidation, for every key |
| `PackedCaches.Key` | src/packed-cache-inl.h:160-168 | page numbers and words correspond one to one |
| `SizeClassCache.CacheStepKeeps` | src/central_freelist.cc:315-317 | every step beside the unlocked cache keeps: a hit on a page of a sized span gives its class unless its new owner has yet to cache that page, and a large span's first page never hits |
| `SizeClassCache.StepHits` | src/central_freelist.cc:315-317 | Populate's writes and the write after a miss make their page hit with its class, pages with the same low bits miss, all others hit as before; only the first page of a span newly taken from the page heap is dropped |
| `SizeClassCache.CacheInvAlways` | src/page_heap.cc:152-164 | the same in every run, with stale entries of dead spans left in the cache |
| `SizeClassCache.HitIsRight` | src/tcmalloc.cc:1474-1500 | a hit on the page where a client's block starts gives the block's class |
| `SizeClassCache.SmallFree` | src/tcmalloc.cc:1464-1523 | in every run a small block goes to its own class by cache, by descriptor, by any size in bytes that the index serves from that class, or by any size at a page start |
| `SizeClassCache.LargeFree` | src/tcmalloc.cc:1877-1896 | in every run a large block misses the cache and goes to the page heap, whatever size the caller passes |
| `ThreadBudget.Budget.constructor` | src/thread_cache.cc:62-70 | an empty list with all of the budget unclaimed |
| `ThreadBudget.Budget.IncreaseCacheLimit` | src/thread_cache.cc:243-270 | for every minimum: unclaimed plus all limits stays the overall size; without unclaimed space the first of the next ten caches, round robin, that can be stolen from loses the amount, no other does, and the search goes on behind it; the request fails iff there is none, which with at most ten caches means none in the list |
| `ThreadBudget.Budget.FindVictim` | src/thread_cache.cc:250-270 | the ten tries visit the caches round robin from the steal pointer, stop at the first that qualifies, and else leave the pointer ten places on |
| `ThreadBudget.Budget.MoveLimit` | src/thread_cache.cc:264-268 | what one cache loses the other gains, and with a minimum of at least the stolen amount less one it is left with a limit that is not negative |
| `ThreadBudget.LimitGoesNegative` | src/thread_cache.cc:260-265 | for every smaller minimum, a budget in which a limit does go negative |
| `ThreadBudget.NothingToTakeFrom` | src/thread_cache.cc:254-259 | a budget whose first cache meets an empty list: no minimum and no overall size |
| `ThreadBudget.Budget.NewHeap` | src/thread_cache.cc:301-319 | the new cache is first in the list; its limit is the stolen amount, from the unclaimed space or from the first of ten caches that has more than the minimum, or the minimum if there is none; the budget still balances; the search meets an empty list iff it is the first cache and the overall size is zero |
| `ThreadBudget.Budget.DeleteCache` | src/thread_cache.cc:321-337 | the list without the cache, its limit unclaimed again, all other limits as they were, and the steal pointer at the next cache, or the first, if it was here |
| `ThreadBudget.Budget.RecomputePerThreadCacheSize` | src/thread_cache.cc:339-361 | limits scaled by the ratio of shares if it is below one, none moved away from zero or across it, and the budget balances again |
| `ThreadBudget.ShareFair` | src/thread_cache.cc:339-347 | the share is the largest that an equal division of the space gives every thread, unless that is below the minimum or above the largest cache |
| `ThreadBudget.ShrunkExact` | src/thread_cache.cc:349-356 | a scaled limit is within one byte of the exact product, toward zero, and a ratio of one or more changes nothing |
| `ThreadBudget.RoundReaches` | src/thread_cache.cc:254-259 | going round the list reaches every cache in as many tries as there are caches |
| `ThreadBudget.Budget.ShrinkAll` | src/thread_cache.cc:350-358 | the walk visits every cache once and adds up the new limits |
| `ThreadBudget.Budget.SetOverall` | src/thread_cache.cc:374-384 | the overall size clipped to its range (zero only if size and minimum are), limits scaled, and balanced |
| `ThreadBudget.Budget.SetMinimum` | src/thread_cache.h:117-120 | any minimum keeps the invariant; one below the stolen amount less one ends only the claim that limits are not negative |
| `ThreadLists.GrownOk` | src/thread_cache.cc:134-150 | the limit grows by one below the batch size, else by a batch, cut off at the largest multiple of the batch within bounds; it stays below the batch size or a multiple of it |
| `ThreadLists.GrowsToTop` | src/thread_cache.cc:134-150 | fetches alone take every limit to the largest multiple of the batch size allowed, and there it stays |
| `ThreadLists.StockedExact` | src/thread_cache.cc:126-150 | the list after a fetch: the rest of the batch and the new limit |
| `ThreadLists.PopExact` | src/thread_cache.h:214-219 | objects leave from the front, and the low-water mark is the least length there has been |
| `ThreadLists.TooLongOk` | src/thread_cache.cc:154-182 | an overfull list is back within its bounds and its limit is still well-formed |
| `ThreadLists.TooLongExact` | src/thread_cache.cc:154-182 | a batch leaves, or all there is; a limit below the batch size grows by one; one above it counts overflows and loses a batch at the last |
| `ThreadLists.Converges` | src/thread_cache.cc:154-182 | the limit of a list that keeps overflowing comes nearer to the batch size at every overflow, and stays there |
| `ThreadLists.FreedExact` | src/thread_cache.h:324-344 | a freed object is first on its list; a batch leaves iff the list was full |
| `ThreadLists.ScavengedOk` | src/thread_cache.cc:206-236 | so is a scavenged one |
| `ThreadLists.ScavengedExact` | src/thread_cache.cc:206-236 | half of the low-water mark leaves, at least one if it is positive; the limit falls by a batch, not below it, iff the mark is positive and it was above; the mark restarts at the length |
| `ThreadLists.BatchesWhole` | src/thread_cache.cc:185-203 | cutting a chain into batches loses nothing and all chains but the last are full |
| `ThreadLists.ThreadCache.constructor` | src/thread_cache.cc:72-101 | empty lists with limit one |
| `ThreadLists.ThreadCache.ReleaseToCentralCache` | src/thread_cache.cc:185-203 | the first objects leave in full batches and a rest, size and low-water mark follow, and no object is lost |
| `ThreadLists.ThreadCache.Allocate` | src/thread_cache.h:305-322 | the first object of the list, or of a fetched batch whose rest goes on the list, or none; size is still the sum of length times class size |
| `ThreadLists.ThreadCache.FetchFromCentralCache` | src/thread_cache.cc:114-152 | asks for the lesser of limit and batch size; the first object is the caller's, the rest makes the list, and the limit grows |
| `ThreadLists.ThreadCache.Deallocate` | src/thread_cache.h:324-344 | the exact lists after a free, through list overflow and scavenging; size, lengths, marks and limits keep their invariant and objects are conserved |
| `ThreadLists.ThreadCache.ListTooLong` | src/thread_cache.cc:154-182 | a batch leaves and the limit adapts |
| `ThreadLists.ThreadCache.Scavenge` | src/thread_cache.cc:206-236 | every list loses half of its low-water mark, at least one if the mark is positive, and the marks restart |
| `ThreadLists.ThreadCache.Destroy` | src/thread_cache.cc:103-110 | all lists empty, every object sent back, size zero |
| `SizeMaps.LgFloor` | src/common.cc:69-81 | the power of two below |
| `SizeMaps.AlignmentForSize` | src/common.cc:83-103 | the spacing of sizes, an eighth of the power of two below within its bounds |
| `SizeMaps.GridNext` | src/common.cc:162-164 | each size is a multiple of its spacing, so the check in the loop cannot fail, and each has one successor |
| `SizeMaps.GridEnd` | src/common.cc:193-201 | the grid ends exactly at the largest size and has at most 105 sizes, so the class arrays cannot overflow |
| `SizeMaps.SpanFor` | src/common.cc:166-178 | terminates with the least multiple of the smallest span that wastes at most an eighth and holds enough objects |
| `SizeMaps.SizeMap.AddSize` | src/common.cc:181-196 | merging or appending keeps class sizes strictly rising, every class's span good for its own size, and the merge rule exact |
| `SizeMaps.SizeMap.BuildClasses` | src/common.cc:158-201 | for every unit and transfer count: strictly rising classes up to the largest size, within the array; a size is a class of its own exactly if the next size needs a span of another length or with another number of objects |
| `SizeMaps.LeftoverBound` | src/common.cc:170-178 | leftover of every class, merged or not, is at most an eighth of its span, which holds an object and at least a quarter of a batch |
| `SizeMaps.SharedIndex` | src/common.h:181-209 | two sizes with one flattened index are never separated by a class size |
| `SizeMaps.SizeMap.FillIndex` | src/common.cc:203-211 | the index maps every size up to the largest to the smallest class that holds it |
| `SizeMaps.SmallestIsLeast` | src/common.cc:213-231 | no smaller class holds the size, so the double check cannot fail |
| `SizeMaps.SizeMap.Init` | src/common.cc:127-252 | all of the table for every system page size and transfer count; start-up is refused iff the smallest span is five pages |
| `SizeMaps.SizeMap.CheckAlignment` | src/common.cc:233-246 | the check loop passes iff every power of two from 16 to a page and every multiple of it below a page gets a class that is a multiple of it |
| `SizeMaps.SizeMap.AlignedUnless` | src/common.cc:233-246 | that is so for every page size and transfer count but one: it fails iff the smallest span is five pages, where 6144 bytes are served from 6656 |
| `SizeMaps.AlignedClass` | src/common.cc:181-196 | sizes that share a class with larger ones keep their alignment, as merging runs on to a multiple |
| `SizeMaps.SizeMap.GetSizeClass` | src/common.h:240-250 | a class iff the size is at most the largest, and then the smallest that holds it |
| `SizeMaps.ClassUsable` | src/common.cc:105-124 | with a transfer count of at least one, batch sizes are between one and the longest list |
| `SizeMaps.NumMoveExact` | src/common.cc:105-124 | a batch is the largest number of objects within 64 KiB, at least two, at most the transfer count |
| `PageMaps.PageMap2.Get` | src/pagemap.h:139-147 | the value of the flat map, none when out of range |
| `PageMaps.PageMap2.Set` | src/pagemap.h:149-154 | updates the flat map at one page and nowhere else |
| `PageMaps.PageMap2.Ensure` | src/pagemap.h:156-175 | terminates, adds only empty leaves, changes no value, makes the whole range settable on success; with memory it succeeds iff the range is in bounds; a range that wraps the word is accepted untouched |
| `PageMaps.PageMap2.Next` | src/pagemap.h:184-200 | the value at the least set page at or after k, none iff there is none |
| `PageMaps.PageMap3.Get` | src/pagemap.h:244-253 | the same flat map through three levels |
| `PageMaps.PageMap3.Set` | src/pagemap.h:255-261 | updates the flat map at one page and nowhere else |
| `PageMaps.PageMap3.Ensure` | src/pagemap.h:263-290 | as for two levels |
| `PageMaps.PageMap3.EnsureLeaf` | src/pagemap.h:271-284 | a new node changes no leaf, a new leaf no value |
| `PageMaps.PageMap3.Next` | src/pagemap.h:294-315 | the value at the least set page at or after k, although missing nodes are skipped whole |
| `AddressMaps.AddressMap.Find` | src/addressmap-inl.h:279-296 | the value of the plain map |
| `AddressMaps.AddressMap.Insert` | src/addressmap-inl.h:298-328 | the plain map with the key set |
| `AddressMaps.AddressMap.FindAndRemove` | src/addressmap-inl.h:330-347 | the old value, and the plain map without the key |
| `AddressMaps.AddressMap.FindInside` | src/addressmap-inl.h:349-392 | for ranges up to the very end of the address space: the backward walk over blocks and clusters terminates with a range that starts at or contains the key, and finds none only if there is none but one that contains the key past its start and ends at the very top |
| `AddressMaps.TopRangeMissed` | src/addressmap-inl.h:361-364 | a stored range of 16 bytes up to the top of the address space that is not found for a key inside it |
| `AddressMaps.AddressMap.Iterate` | src/addressmap-inl.h:394-407 | every stored pair is visited, once |
| `ProfileData.ProfileParses` | src/profiledata.cc:114-121 | what is written decodes to the period and the records |
| `ProfileData.Collector.Start` | src/profiledata.cc:89-126 | a fresh profile, or nothing changed if one is running or the file cannot be opened |
| `ProfileData.Collector.Evict` | src/profiledata.cc:64-76 | the buffer index never passes its length and written slots plus buffer grow by exactly the record |
| `ProfileData.Collector.Add` | src/profiledata.cc:240-299 | the truncated trace is counted once more in table plus records, whichever entry is evicted |
| `ProfileData.Collector.PlaceFor` | src/profiledata.cc:258-298 | the entry that holds the trace, else one with the smallest count, whose record is saved first |
| `ProfileData.Collector.FlushTable` | src/profiledata.cc:219-238 | all counts are in records, the buffer is written, and nothing is lost |
| `ProfileData.Collector.Finish` | src/profiledata.cc:160-169 | the end marker fits, after a flush if need be |
| `ProfileData.Collector.Stop` | src/profiledata.cc:145-176 | the slots written since Start decode to one header, records and one trailer in which every trace's counts sum to the times it was added |
| `Regex.NullableExact` | benchmark/trivialre.h:158-169 | the test for matching the empty string is exact |
| `Regex.MatchCorrect` | benchmark/trivialre.h:114-198 | the continuation-passing matcher terminates and succeeds iff the text has a prefix in the language that the continuation accepts, with line anchors read from the position in the whole text |
| `Regex.CallCorrect` | benchmark/trivialre.h:158-169 | the same for continuations, through the loop of a star |
| `Regex.MatchSubstring` | benchmark/trivialre.h:57-69 | true iff some substring is in the language |

## Left out

- Sampling, hooks, thread-local bootstrapping, emergency allocation, debug allocation and the exported entry points: the model starts at the size class or page count.
- The system allocators behind `SystemAlloc` and `SystemRelease`: they are oracles that give a fresh region or refuse.
- Metadata other than the page map's: descriptors and thread caches do not count as taken from the system here.
- Width of `size_` and `max_size_`: 32-bit overflow of a thread cache's byte counts is not modelled; the comparison of a negative limit with the unsigned minimum is.
- Floating-point rounding in RecomputePerThreadCacheSize: the ratio is a real number and the scaled limit its whole part.
- PageHeaps.PageHeap.NewAligned: alignment is tested by remainder, which is the source's mask test for powers of two.
- PageMaps.PageMap3.Ensure: nodes and leaves are values in sequences, so sharing of nodes is excluded by construction rather than proved; the same holds for two levels.
- CentralFreeLists.CentralFreeList.ReleaseListToSpans: stops where the lock is dropped for the page heap; what other threads do in between is in the concurrent system.
- CentralFreeLists.CentralFreeList.Populate: takes spans that end below the very top of the address space; there nothing is cut and a span without objects would join. The concurrent system counts such a span as cut like any other.
- CentralFreeLists.CentralFreeList.AddSpan: the span lists are sequences here; their circular links are in SpanLists.
- AddressMaps.AddressMap.Insert: the entry free list and the allocation of entries in batches are not modelled.
- ProfileData.Collector.Stop: the memory map dumped after the profile and the messages are not modelled.
- Regex surface syntax and character sets: regular expressions are given as trees.
- Locks of hooks, debug allocation, emergency allocation and profilers: `Locks` has those of the allocator proper.
- Weak memory: every access to a shared word is atomic.
- One-level page map, range iteration and the human-readable statistics: they would only add easy members.
