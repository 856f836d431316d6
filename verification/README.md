# TCMalloc: the page heap, the central freelist and the per-CPU caches, verified

A Dafny model of the parts of TCMalloc that decide who has which memory. It follows the
allocator from the system up:

* **Hugepage ranges and the address map** (`HugePages`, `Treap`, `TreapSteps`, `TreapSearch`,
  `AddressMap`). The map of free ranges is a treap of linked nodes that is changed in place. Each
  node is an object. Ghost maps say what each node holds and a ghost tree says how they hang
  together, so that the pointer loops are proved by lemmas about trees with a hole.
* **Hugepage allocator and cache** (`Allocator`, `Cache`, `CacheRuns`). The cache drops the
  page heap lock while it unbacks memory. `CacheRuns` takes it apart at that point and looks at all
  interleavings.
* **Hugepage filler** (`RangeTrackers`, `PageTrackers`, `HintedLists`, `Filler*`). Trackers of single hugepages are on lists by what they have
  free; counters are kept besides; background treatments hold on to trackers without the lock.
  `FillerRuns` looks at all interleavings of one treatment pass at a time with everything else.
* **Hugepage-aware allocator** (`PageHeapBooks`, `PageHeap`, `PageHeapRuns`). Small requests are
  packed by the filler, large ones get hugepages of their own and donate the rest of the last one.
* **Central freelist** (`CentralSpans`, `CentralFreeLists`, `CentralRuns`). Objects come back in
  batches by runs of the same span; a thread that needs a new span drops the lock.
* **Per-CPU caches** (`CpuMaxCapacity`, `CpuCapacity`, `CpuResize`). Capacity moves between classes
  and CPUs in atomic steps of several threads.
* **Guarded pages** (`GuardedPages`, `GuardedRuns`). Sampled allocations on pages of their own.

## Main results

* Every insertion into the address map and every removal keeps it in order and changes what it
  covers by exactly the range. Its form is determined by what it covers.
* The allocator's ranges are disjoint. A search down one path of the treap finds a range that is
  long enough if there is one.
* In every interleaving of shrinking threads each hugepage of the cache is with one user, cached, or
  in flight.
* Every filler operation keeps every tracker on the one list its state names, and the counters equal
  to sums over the lists. `TryGet` fails only if nothing fits, and its choice is the best.
  `ReleasePages` reaches its target or releases all there is.
* In every interleaving with a treatment pass a picked tracker is not handed out, each emptied
  tracker is handed out once, and nothing is released from a hugepage that is being collapsed.
* After any sequence of requests to the page heap no page is in two spans, cache usage is hugepages
  owned and tracked, system pages are pages of spans, free pages and unmapped pages, and the counts
  of donated hugepages and abandoned pages are right.
* In every interleaving every object of a central freelist is in one place, and the counter is right;
  any batch of objects may come back, from whoever has them.
  Returning by runs is returning one at a time.
* In every interleaving no capacity of a CPU cache is lost or made.
* Whatever a program does with guarded allocations, nobody who leaves the watched bytes alone is
  reported for an overflow.

## Where the code does not do what it might be expected to

* `ResizeCpuSizeClasses` (tcmalloc/cpu_cache.h:1693-1714) looks at up to as many classes as there
  are, but has statistics for one less. `CpuResize.MayPass` is the exact condition, on statistics and
  capacities, under which they may be read beyond their end: so many of the classes with the most misses
  are full that the limit gets past the end, and then there is nothing more to look at, or a class
  that wants to grow, or a full one of which something may have been taken before for a class five places or
  more ahead of it. `ResizeCpuSizeClasses` stays in range unless that holds; `CpuResize.WorstCase` shows
  that if it holds there are answers with which it does not. `CpuResize.AllFull` is a call that reads beyond
  the end for every number of classes above five.
* `StealFromOtherCache` (tcmalloc/cpu_cache.h:1914-1919) makes stolen capacity available to the
  destination before it adds it to the destination's capacity. `CpuCapacity.TwoThieves` shows that a
  second thief at the same time could take that capacity below zero.
  `CpuCapacity.Background` shows that with one thief, as the code has it, this cannot happen.

## How to read the model

Clocks, random numbers, the operating system and the slab are parameters: what the system maps is
`os`, whether memory could be unbacked is a function `unback` of the call, what a time window says
about demand is a number. A method that drops a lock is two methods, and a module whose name ends in
`Runs` puts such pieces together in any order. Numbers are unbounded unless a width matters. The
model is for pages of 8 KiB and hugepages of 2 MiB.


## Model

| member | source | states |
|---|---|---|
| `HugePages.Join` | tcmalloc/huge_pages.h:373-376 | the joined range covers exactly the hugepages of both |
| `HugePages.Split` | tcmalloc/huge_pages.h:381-389 | the two parts are what was asked for and together have exactly the hugepages of the whole, none twice |
| `HugePages.HugeLengthFromPages` | tcmalloc/huge_pages.h:140-143 | the least number of hugepages that has room for the pages |
| `HugePages.IntersectsIsOverlap` | tcmalloc/huge_pages.h:349-351 | `intersects` on two ranges that are not empty is sharing a hugepage |
| `HugePages.SeparatedUnique` | tcmalloc/huge_address_map.cc:54-86 | two lists of ranges in order, none touching the next, that cover the same hugepages are the same list: the map has one form only |
| `AddressMap.HugeAddressMap.constructor` | tcmalloc/huge_address_map.h:131-132 | an empty map is in order and covers nothing |
| `AddressMap.HugeAddressMap.Insert` | tcmalloc/huge_address_map.cc:196-267 | from any map in order and any range disjoint from it: adds exactly the hugepages of the range, whichever of the neighbours it has to be merged with, keeps the map in order (search order, heap order, parent links, `longest` at every node, ranges never adjacent, node and size counters) |
| `AddressMap.HugeAddressMap.Remove` | tcmalloc/huge_address_map.cc:284-346 | takes out exactly the hugepages of the node, keeps the map in order, and gives the node to the free pool |
| `AddressMap.HugeAddressMap.Merge` | tcmalloc/huge_address_map.cc:156-194 | merging with one neighbour or both covers exactly the hugepages of the range on top, whatever the neighbours are |
| `AddressMap.HugeAddressMap.MergeThree` | tcmalloc/huge_address_map.cc:181-194 | a range that closes the gap between two neighbours leaves one node for all three |
| `AddressMap.HugeAddressMap.Neighbours` | tcmalloc/huge_address_map.cc:200-203 | the node before and the node after a range, next to each other in address order |
| `TreapSearch.NeighboursDecide` | tcmalloc/huge_address_map.cc:200-203 | a range overlaps something in the map if and only if it overlaps one of its two neighbours |
| `AddressMap.HugeAddressMap.InsertNew` | tcmalloc/huge_address_map.cc:217-266 | a range that touches nothing gets a node of its own |
| `AddressMap.HugeAddressMap.Graft` | tcmalloc/huge_address_map.cc:219-266 | hanging a node where its priority wants it and splitting what was there keeps all other nodes and puts the new one in its place in the order |
| `AddressMap.HugeAddressMap.SplitTreap` | tcmalloc/huge_address_map.cc:238-262 | the split below the new node ends with all nodes below the address on one side and all others on the other, in order, heap-ordered and linked |
| `AddressMap.HugeAddressMap.MergeTreaps` | tcmalloc/huge_address_map.cc:321-344 | two subtrees are merged into one that has the nodes of both in order, is heap-ordered, linked, and has exact `longest` |
| `AddressMap.HugeAddressMap.Unlink` | tcmalloc/huge_address_map.cc:284-345 | what is left after a node is unlinked has all other nodes in their order |
| `AddressMap.HugeAddressMap.Descend` | tcmalloc/huge_address_map.cc:219-233 | finds the place for a priority, with `longest` raised on the way |
| `AddressMap.HugeAddressMap.FixLongest` | tcmalloc/huge_address_map.cc:269-282 | walking up repairs `longest` at every node on the way |
| `AddressMap.HugeAddressMap.Widen` | tcmalloc/huge_address_map.cc:168-179 | a node that takes in a range next to it keeps its place and covers the range too |
| `AddressMap.HugeAddressMap.RemoveNode` | tcmalloc/huge_address_map.cc:284-346 | exactly one node leaves the order |
| `AddressMap.HugeAddressMap.Get` | tcmalloc/huge_address_map.cc:355-370 | a node from the pool if there is one, else a new one; counters follow |
| `AddressMap.HugeAddressMap.Put` | tcmalloc/huge_address_map.cc:348-353 | the node is at the head of the pool; counters follow |
| `AddressMap.HugeAddressMap.Predecessor` | tcmalloc/huge_address_map.cc:135-154 | the last node that starts at or before the address |
| `AddressMap.HugeAddressMap.First` | tcmalloc/huge_address_map.cc:88-98 | the node with the lowest addresses |
| `AddressMap.HugeAddressMap.Next` | tcmalloc/huge_address_map.cc:31-47 | the node after this one in address order |
| `AddressMap.HugeAddressMap.Check` | tcmalloc/huge_address_map.cc:54-86 | the consistency check finds nothing to complain about in any map in order |
| `AddressMap.HugeAddressMap.CheckNode` | tcmalloc/huge_address_map.cc:54-86 | a walk of a subtree returns its number of nodes and the sum of its lengths |
| `AddressMap.HugeAddressMap.FindFit` | tcmalloc/huge_allocator.cc:43-88 | the search down a single path finds a range of at least the length asked for if and only if there is one; the answer is tighter than every fitting range above it |
| `AddressMap.HugeAddressMap.Find` | tcmalloc/huge_cache.cc:322-367 | finds a node with a range of at least the length asked for if and only if there is one |
| `AddressMap.HugeAddressMap.Exactness` | tcmalloc/huge_address_map.cc:105-119 | the total size is the number of hugepages covered, and no two ranges touch |
| `TreapSteps.HangBranch` | tcmalloc/huge_address_map.cc:234-246 | the state in which a split can begin |
| `TreapSteps.MergeStep` | tcmalloc/huge_address_map.cc:327-342 | one turn of the merge keeps all nodes, their order and the heap |
| `TreapSearch.FindStep` | tcmalloc/huge_allocator.cc:58-85 | looking into one child only loses no fitting range for good |
| `Allocator.HugeAllocator.Get` | tcmalloc/huge_allocator.cc:119-149 | a range of the length asked for, disjoint from every range still held, or nothing; it fails exactly if no free range is long enough and the system gives nothing; the second search after growing does not fail |
| `Allocator.HugeAllocator.Release` | tcmalloc/huge_allocator.cc:151-156 | the hugepages are free again and no longer held |
| `Allocator.HugeAllocator.AllocateRange` | tcmalloc/huge_allocator.cc:102-117 | an overflowing request or a refusal of the system gives nothing; what the system gives counts as from the system |
| `Allocator.HugeAllocator.TakeFrom` | tcmalloc/huge_allocator.cc:131-148 | takes the front of a free range and gives back the rest |
| `Allocator.HugeAllocator.Grow` | tcmalloc/huge_allocator.cc:122-130 | after the system gave a range there is a free range that is long enough |
| `Allocator.HugeAllocator.FreeSize` | tcmalloc/huge_allocator.h:73-83 | the size of the free list is what came from the system less what is in use |
| `Cache.HugeCache.DoGet` | tcmalloc/huge_cache.cc:110-135 | serves from the cache if it has that many hugepages in a row, else from the allocator, and fails exactly if neither has them and the system gives nothing; the new hugepages were with nobody |
| `Cache.HugeCache.Get` | tcmalloc/huge_cache.cc:202-212 | what users hold grows by exactly the range, or nothing under the same condition; usage follows; the limit never falls, and after a miss it bridges the dip |
| `Cache.HugeCache.MaybeGrowCacheLimit` | tcmalloc/huge_cache.cc:137-181 | the least limit that is not below the old one and bridges the dip with a tenth to spare |
| `Cache.HugeCache.Release` | tcmalloc/huge_cache.cc:214-232 | the hugepages are with the cache or back with the allocator; the cache is no larger than its limit afterwards if memory can be unbacked, and never smaller than need be |
| `Cache.HugeCache.ReleaseUnbacked` | tcmalloc/huge_cache.cc:234-238 | the hugepages go straight back to the allocator |
| `Cache.HugeCache.BeginUnback` | tcmalloc/huge_cache.cc:258-278 | up to the point where the lock is dropped: a range is out of the cache and in flight, and the cache is not below the target |
| `Cache.HugeCache.EndUnback` | tcmalloc/huge_cache.cc:281-289 | with the lock held again: the range is with the allocator if it could be unbacked, else back in the cache |
| `Cache.HugeCache.ShrinkCache` | tcmalloc/huge_cache.cc:256-293 | alone, it ends, returns exactly the decrease in size, never goes below the target, and reaches it if memory can be unbacked |
| `Cache.HugeCache.MaybeShrinkCacheLimit` | tcmalloc/huge_cache.cc:240-254 | the limit only falls, and only if the cache has been much larger than needed |
| `Cache.HugeCache.ReleaseCachedPages` | tcmalloc/huge_cache.cc:295-307 | releases at least what is asked for, or all there is, if memory can be unbacked; returns exactly the decrease in size |
| `Cache.HugeCache.SizeCounts` | tcmalloc/huge_cache.h:185-199 | size is what the cache has; what the allocator counts as in use is usage, size, and what is in flight |
| `CacheRuns.Run` | tcmalloc/huge_cache.cc:256-293 | in every interleaving of callers and of any number of threads shrinking the cache, what came from the allocator is divided among users, cache and ranges in flight, none shared |
| `CacheRuns.Quiet` | tcmalloc/huge_cache.cc:202-238 | with no thread in the middle of shrinking the sizes say how much is where |
| `RangeTrackers.FindAndMark` | tcmalloc/internal/range_tracker.h:221-264 | the shortest free run that is long enough is taken from its start, and the longest free run is exact afterwards although only the two longest are remembered |
| `RangeTrackers.Unmark` | tcmalloc/internal/range_tracker.h:294-307 | frees exactly the run; the longest free run is exact although only the run around it is looked at |
| `RangeTrackers.LongestDecides` | tcmalloc/internal/range_tracker.h:211-213 | there is room for a run if and only if the longest one is as long |
| `PageTrackers.PageTracker.Get` | tcmalloc/huge_page_filler.h:1524-1547 | takes a free run and reports exactly how many of its pages were released |
| `PageTrackers.PageTracker.Put` | tcmalloc/huge_page_filler.h:1591-1596 | frees exactly the allocation |
| `PageTrackers.PageTracker.ReleaseFree` | tcmalloc/huge_page_filler.h:1598-1647 | passes every page that is free and backed to the system once, in ranges from left to right, and no other page; marks and counts exactly those for which that worked, whatever fails |
| `PageTrackers.PageTracker.MarkSubreleased` | tcmalloc/huge_page_filler.h:1649-1669 | marks exactly the pages that were free, backed, and found unbacked |
| `PageTrackers.BackedCount` | tcmalloc/huge_page_filler.h:1738-1740 | free pages are released or backed, and the released count is the number of released pages |
| `PageTrackers.EmptyTracker` | tcmalloc/huge_page_filler.h:1736-1736 | no allocation means no page in use |
| `HintedLists.HintedTrackerLists.FindSet` | tcmalloc/hinted_tracker_lists.h:41-47 | the first list with an entry, by the bitmap |
| `HintedLists.HintedTrackerLists.GetLeast` | tcmalloc/hinted_tracker_lists.h:41-54 | takes the head of the first list that is not empty; nothing if there is none |
| `HintedLists.HintedTrackerLists.PeekLeast` | tcmalloc/hinted_tracker_lists.h:61-69 | the head of the first list that is not empty; nothing if there is none |
| `HintedLists.HintedTrackerLists.Add` | tcmalloc/hinted_tracker_lists.h:73-80 | the entry is at the head of its list; bitmap and size follow |
| `HintedLists.HintedTrackerLists.Remove` | tcmalloc/hinted_tracker_lists.h:84-92 | the entry is off its list; bitmap and size follow |
| `FillerLists.Chunk` | tcmalloc/huge_page_filler.h:3450-3474 | a chunk number that exists |
| `FillerLists.ChunkMonotone` | tcmalloc/huge_page_filler.h:3450-3474 | more allocations never give a higher chunk |
| `FillerLists.IndexInRange` | tcmalloc/huge_page_filler.h:3476-3506 | the list a tracker belongs on exists |
| `FillerLists.TakeOff` | tcmalloc/huge_page_filler.h:3509-3536 | a tracker is found where its state says, and taking it off leaves all others in place |
| `FillerLists.PutOn` | tcmalloc/huge_page_filler.h:3551-3598 | putting a tracker where its state says keeps every tracker on one list |
| `Filler.HugePageFiller.constructor` | tcmalloc/huge_page_filler.h:1743-1775 | an empty filler is in order |
| `Filler.HugePageFiller.RemoveFromFillerList` | tcmalloc/huge_page_filler.h:3509-3536 | the tracker is off the list its state names, and the counters have all the others |
| `Filler.HugePageFiller.AddToFillerList` | tcmalloc/huge_page_filler.h:3551-3584 | the tracker is on the list its state names, or put aside if it is empty; the counters follow |
| `Filler.HugePageFiller.DonateToFillerList` | tcmalloc/huge_page_filler.h:3587-3598 | the tracker is on the donated list for its longest free run |
| `Filler.HugePageFiller.TakeLeast` | tcmalloc/huge_page_filler.h:1853-1885 | the head of the first list of a family with an entry |
| `Filler.HugePageFiller.Pick` | tcmalloc/huge_page_filler.h:1848-1886 | the tracker to serve from is the best one, and there is none only if no tracker has room |
| `Filler.HugePageFiller.TryGet` | tcmalloc/huge_page_filler.h:1779-1916 | null if and only if no tracker for the density has a free run that long; else the pages come from a tracker of the first family with room, the lowest list in it; all counters stay sums over the lists |
| `FillerPick.FitsFrom` | tcmalloc/huge_page_filler.h:3476-3491 | the lists that are looked at are exactly those of trackers with room |
| `FillerPick.LowerList` | tcmalloc/huge_page_filler.h:3450-3506 | a lower list is a shorter longest free run, and at equal ones more allocations |
| `FillerPick.PickedBest` | tcmalloc/huge_page_filler.h:1848-1890 | the first tracker found is the best of all |
| `Filler.HugePageFiller.PutPages` | tcmalloc/huge_page_filler.h:1973-1992 | before the lock may be dropped: the pages are free, the tracker is on its list, or off all lists if it is empty now |
| `Filler.HugePageFiller.PutFinish` | tcmalloc/huge_page_filler.h:1993-2030 | afterwards: the empty tracker is given to the caller, or put aside while a treatment has a hold on it |
| `Filler.HugePageFiller.Put` | tcmalloc/huge_page_filler.h:1971-2031 | the tracker is handed out exactly if it is empty now and no treatment has a hold on it; otherwise nothing but the allocation changed |
| `Filler.HugePageFiller.FetchFullyFreedTracker` | tcmalloc/huge_page_filler.h:3540-3548 | one tracker that was put aside is handed out |
| `Filler.HugePageFiller.Contribute` | tcmalloc/huge_page_filler.h:2166-2191 | the tracker is on the list its state names and counted |
| `Filler.HugePageFiller.SelectCandidates` | tcmalloc/huge_page_filler.h:2195-2239 | after a family has been looked at, the candidates are the best of all seen so far |
| `FillerRelease.BeforeIsKey` | tcmalloc/huge_page_filler.h:1460-1473 | the comparison of candidates is a total preorder given by a key |
| `FillerRelease.SkipFull` | tcmalloc/huge_page_filler.h:2384-2497 | the lists that are skipped have trackers without a free page only, and all others have trackers with pages to release |
| `Filler.HugePageFiller.ReleaseCandidates` | tcmalloc/huge_page_filler.h:2242-2300 | candidates are released best first until there is enough |
| `Filler.HugePageFiller.ReleaseFrom` | tcmalloc/huge_page_filler.h:2271-2276 | all free and backed pages of one tracker are offered, and the tracker is back on the list its state names |
| `Filler.HugePageFiller.ReleasePages` | tcmalloc/huge_page_filler.h:2384-2497 | always ends; if memory can be unbacked, demand does not hold it back, and nothing is being collapsed it releases what is desired or all free pages, although candidates come in batches |
| `Filler.HugePageFiller.FreePages` | tcmalloc/huge_page_filler.h:3634-3636 | the pages counted as free are the free and backed pages of the trackers |
| `Filler.HugePageFiller.SelectTrackers` | tcmalloc/huge_page_filler.h:2881-2950 | the trackers picked are held, each once, and nothing else changed; those for sampling are all that are eligible, or as many as there is room for; those for collapse too, and none that was left out has more objects, or as many and is the only dense one |
| `Filler.HugePageFiller.SelectSampled` | tcmalloc/huge_page_filler.h:2082-2110 | a tracker is picked for sampling if there is room, at most once |
| `Filler.HugePageFiller.Offer` | tcmalloc/huge_page_filler.h:2627-2669 | with one more tracker offered the picks for collapse are again the most urgent of all seen; one that has to make way is let go |
| `Filler.HugePageFiller.CollapseStart` | tcmalloc/huge_page_filler.h:1675-1681 | collapse begins only on a tracker with nothing released |
| `Filler.HugePageFiller.CollapseStop` | tcmalloc/huge_page_filler.h:1686-1690 | collapse ends |
| `Filler.HugePageFiller.HandleReleaseFree` | tcmalloc/huge_page_filler.h:2978-2987 | released pages are counted, and the tracker is on the list its state names |
| `Filler.HugePageFiller.HandleUnbackedHugePage` | tcmalloc/huge_page_filler.h:2998-3007 | pages found unbacked are counted as released, once |
| `Filler.HugePageFiller.OnCollapseSuccess` | tcmalloc/huge_page_filler.h:2990-2995 | the hugepage counts as whole again |
| `Filler.HugePageFiller.RestoreOne` | tcmalloc/huge_page_filler.h:2752-2791 | one picked tracker is let go; an empty one is not released from |
| `Filler.HugePageFiller.Restore` | tcmalloc/huge_page_filler.h:2137-2150 | all holds are gone, allocations are as they were |
| `Filler.HugePageFiller.SetAbandoned` | tcmalloc/huge_page_aware_allocator.h:828-833 | the flag is set and nothing else changes |
| `Filler.HugePageFiller.SizeIs` | tcmalloc/huge_page_filler.h:2515-2521 | the counters of a filler at rest add up |
| `FillerRuns.FillerRun.TreatedStays` | tcmalloc/huge_page_filler.h:1971-2031 | in every reachable state a tracker that a treatment has picked is in the filler and not handed out |
| `FillerRuns.FillerRun.CollapsingIntact` | tcmalloc/huge_page_filler.h:2195-2239 | in every reachable state a tracker being collapsed has no page released |
| `FillerRuns.FillerRun.EmptiedHanded` | tcmalloc/huge_page_filler.h:1993-2031 | with nobody in the middle of freeing and nothing put aside, every tracker that was not handed out has an allocation: those that became empty have all been handed out |
| `FillerRuns.FillerRun.Alloc` | tcmalloc/huge_page_filler.h:1779-1916 | allocating between any other steps keeps everything in order |
| `FillerRuns.FillerRun.FreeBegin` | tcmalloc/huge_page_filler.h:1973-1992 | a thread may drop the lock in the middle of freeing |
| `FillerRuns.FillerRun.FreeEnd` | tcmalloc/huge_page_filler.h:1993-2030 | and go on at any time |
| `FillerRuns.FillerRun.Release` | tcmalloc/huge_page_filler.h:2384-2497 | releasing between any other steps keeps everything in order |
| `FillerRuns.FillerRun.Select` | tcmalloc/huge_page_filler.h:2881-2950 | a treatment pass picks its trackers |
| `FillerRuns.FillerRun.StartCollapse` | tcmalloc/huge_page_filler.h:2677-2750 | it collapses them one after the other without the lock |
| `FillerRuns.FillerRun.Restore` | tcmalloc/huge_page_filler.h:2752-2791 | and lets them go |
| `FillerRuns.FillerRun.Fetch` | tcmalloc/huge_page_aware_allocator.h:1062-1072 | trackers that were put aside are handed out after that |
| `FillerRuns.RunAll` | tcmalloc/huge_page_filler.h:2881-2975 | every interleaving of allocating, freeing, releasing and treatment passes, one at a time, keeps all of that, and hands out each emptied tracker once |
| `PageHeap.HugePageAwareAllocator.AllocAndContribute` | tcmalloc/huge_page_aware_allocator.h:526-544 | a loose hugepage gets a tracker of which the first pages are in use |
| `PageHeap.HugePageAwareAllocator.RefillFiller` | tcmalloc/huge_page_aware_allocator.h:547-561 | a hugepage from the cache serves the request |
| `PageHeap.HugePageAwareAllocator.AllocSmall` | tcmalloc/huge_page_aware_allocator.h:585-599 | served from the filler exactly if it has room, else from a new hugepage; fails exactly if neither is to be had |
| `PageHeap.HugePageAwareAllocator.AllocLarge` | tcmalloc/huge_page_aware_allocator.h:603-665 | whole hugepages are not shared; a request for less comes from the filler if it has room; fails exactly if there are no hugepages to be had either |
| `PageHeap.HugePageAwareAllocator.AllocRawHugepages` | tcmalloc/huge_page_aware_allocator.h:677-711 | hugepages of its own from the start of a hugepage on, exactly if there are enough in a row; the rest of the last one is donated |
| `PageHeap.HugePageAwareAllocator.New` | tcmalloc/huge_page_aware_allocator.h:715-754 | one more live allocation of the length asked for, or, exactly if neither the filler nor the cache, the allocator or the system has room, none |
| `PageHeap.HugePageAwareAllocator.NewAligned` | tcmalloc/huge_page_aware_allocator.h:758-784 | an aligned request starts a hugepage |
| `PageHeap.HugePageAwareAllocator.DeleteFromHugepage` | tcmalloc/huge_page_aware_allocator.h:823-837 | frees an allocation on one hugepage; the hugepage goes back if it is empty, is abandoned if its donor went |
| `PageHeap.HugePageAwareAllocator.DeleteTail` | tcmalloc/huge_page_aware_allocator.h:901-940 | frees the part of a large allocation on its last hugepage: the hugepage goes with the others, goes alone if pages of it are released, or stays with its other users |
| `PageHeap.HugePageAwareAllocator.Delete` | tcmalloc/huge_page_aware_allocator.h:864-942 | frees exactly the allocation that has this first page, wherever it came from; the fatal case of a missing tracker does not arise |
| `PageHeap.HugePageAwareAllocator.ReleaseHugepage` | tcmalloc/huge_page_aware_allocator.h:945-971 | an empty tracker is gone from the page map and the telemetry, and its hugepage goes back |
| `PageHeap.HugePageAwareAllocator.Abandon` | tcmalloc/huge_page_aware_allocator.h:828-833 | the abandoned pages are counted once |
| `PageHeapBooks.WhereFrom` | tcmalloc/huge_page_aware_allocator.h:877-898 | the first page of a live allocation tells whether it is in the filler or straight from the cache |
| `PageHeap.HugePageAwareAllocator.UsageConserved` | tcmalloc/huge_page_aware_allocator.h:526-544 | usage of the cache is the hugepages allocations have for themselves and one for each tracker |
| `PageHeap.HugePageAwareAllocator.NobodyShares` | tcmalloc/huge_page_aware_allocator.h:677-711 | the hugepages of allocations and trackers are all different |
| `PageHeap.HugePageAwareAllocator.NoOverlap` | tcmalloc/huge_page_aware_allocator.h:715-754 | no page belongs to two live allocations |
| `PageHeap.HugePageAwareAllocator.Stats` | tcmalloc/huge_page_aware_allocator.h:975-986 | system pages are the pages of live allocations, free pages and unmapped pages |
| `PageHeapBooks.TelemetryAdd` | tcmalloc/huge_page_aware_allocator.h:698-698 | the donated count goes up with each donation |
| `PageHeapBooks.TelemetryDrop` | tcmalloc/huge_page_aware_allocator.h:950-958 | a tracker that goes takes its share of both counts, which never go below zero |
| `PageHeapBooks.TelemetryAbandon` | tcmalloc/huge_page_aware_allocator.h:828-833 | the abandoned count has the pages of the abandoned donations |
| `PageHeap.HugePageAwareAllocator.ReleaseAtLeastNPages` | tcmalloc/huge_page_aware_allocator.h:1020-1059 | releases what is asked for if memory can be unbacked, or nothing is left in the cache, and in the filler either if that may be broken up |
| `PageHeap.HugePageAwareAllocator.ReleaseAtLeastNPagesBreakingHugepages` | tcmalloc/huge_page_aware_allocator.h:1226-1253 | releases what is asked for if memory can be unbacked, or nothing is left to release |
| `PageHeapRuns.Run` | tcmalloc/huge_page_aware_allocator.h:715-971 | after any sequence of requests, to allocate, free and release in both ways, the spans that callers have do not overlap, are the live allocations, and all of the above holds |
| `CentralSpans.IndexFor` | tcmalloc/central_freelist.h:534-571 | a list that exists, among the first half exactly for long-lived spans |
| `CentralSpans.IndexOrder` | tcmalloc/central_freelist.h:534-571 | fewer objects in use never give a lower list; every list of long-lived spans comes before all others |
| `CentralSpans.FirstIsFirst` | tcmalloc/central_freelist.h:443-455 | no span with a free object is on a list before the first that is looked at |
| `CentralFreeLists.RecordSameSpanRuns` | tcmalloc/central_freelist.h:146-169 | the length of each run of equal spans is where the run starts, and the matches are counted |
| `CentralSpans.RunIsOneByOne` | tcmalloc/central_freelist.h:463-518 | returning a run to its span at once is the same as returning the objects one at a time: same spans, same lists, same spans given up, in the same order |
| `CentralSpans.ReturnMeans` | tcmalloc/central_freelist.h:582-673 | every span has its objects back, and exactly those without an object in use are given up |
| `CentralSpans.ReturnCounts` | tcmalloc/central_freelist.h:582-673 | the number of free objects and of spans afterwards |
| `CentralSpans.ReturnInUse` | tcmalloc/central_freelist.h:582-673 | exactly the returned objects are no longer in use |
| `CentralFreeLists.CentralFreeList.ReleaseToSpans` | tcmalloc/central_freelist.h:463-518 | the span is on the list for what it has free now, or is given up; histogram and lists are right in all four cases |
| `CentralFreeLists.CentralFreeList.ReleaseRun` | tcmalloc/central_freelist.h:646-663 | one turn writes the spans given up only where they have been read already |
| `CentralFreeLists.CentralFreeList.ReleaseRuns` | tcmalloc/central_freelist.h:635-663 | the whole batch by runs has the effect of one object at a time; the array of spans is used again for those given up |
| `CentralFreeLists.CentralFreeList.InsertRange` | tcmalloc/central_freelist.h:582-673 | exactly the objects of the batch leave the hands of callers; the counter follows; with one object to a span nothing is kept |
| `CentralFreeLists.CentralFreeList.FirstNonEmptySpan` | tcmalloc/central_freelist.h:521-526 | none if and only if no span has a free object; else one on the lowest list |
| `CentralFreeLists.CentralFreeList.PopFrom` | tcmalloc/central_freelist.h:720-750 | pops up to that many objects and moves the span to the list it belongs on |
| `CentralFreeLists.CentralFreeList.PopAll` | tcmalloc/central_freelist.h:712-751 | pops until there is enough or no span has a free object; no more spans are looked at than objects wanted |
| `CentralFreeLists.CentralFreeList.Populate` | tcmalloc/central_freelist.h:766-800 | the new span is registered with what is left of it, nothing if too few came; nothing happens if there is none |
| `CentralFreeLists.CentralFreeList.Deliver` | tcmalloc/central_freelist.h:757-757 | popped objects reach the caller and leave the count |
| `CentralFreeLists.CentralFreeList.RemoveRange` | tcmalloc/central_freelist.h:692-762 | the objects are new to callers and all different; if they are fewer than wanted nothing is left free, not of a new span either; none come only if there was no new span |
| `CentralFreeLists.CentralFreeList.HandleLongLivedSpans` | tcmalloc/central_freelist.h:842-875 | up to ten old spans move to the lists of long-lived ones, all of them if there are fewer, and each is on the list for its number of objects in use |
| `CentralFreeLists.CentralFreeList.Length` | tcmalloc/central_freelist.h:327-340 | with no thread waiting the counter and the objects of callers are all objects of all spans |
| `CentralRuns.InsertStep` | tcmalloc/central_freelist.h:582-673 | a batch of any objects that callers have, whoever got them, leaves their hands and no others do |
| `CentralRuns.Run` | tcmalloc/central_freelist.h:692-800 | in every interleaving of threads, also those waiting for a new span without the lock, every object is free, popped by one waiting thread, or with one caller; a batch that comes back may have any objects, in any order, from anybody |
| `CpuCapacity.NextKeeps` | tcmalloc/cpu_cache.h:1316-1355 | every atomic step of growing, resizing, draining and stealing keeps each CPU's capacity equal to what is available, in its classes and in the hands of threads, and the total constant |
| `CpuCapacity.NextNonNegative` | tcmalloc/cpu_cache.h:1815-1920 | with one thief no subtraction goes below zero |
| `CpuCapacity.RunKeeps` | tcmalloc/cpu_cache.h:1331-2015 | so in every interleaving |
| `CpuCapacity.RunNonNegative` | tcmalloc/cpu_cache.h:1747-1812 | in every interleaving in which nobody steals while another does no counter goes below zero |
| `CpuCapacity.Background` | tcmalloc/background.cc:130-133 | and so it is in every interleaving in which only one thread ever shuffles |
| `CpuCapacity.AtRest` | tcmalloc/cpu_cache.h:1316-2165 | when all threads are done nothing is in hand and no capacity was lost or made |
| `CpuCapacity.TwoThieves` | tcmalloc/cpu_cache.h:1914-1919 | two threads that steal at once could take a capacity below zero: a run in which it happens |
| `CpuMaxCapacity.GetUpdatedMaxCapacities` | tcmalloc/cpu_cache.h:1395-1521 | the class with the most misses gets five batches or all the others can give; the changes cancel out, no class changes twice, none gives up room for its batch, there are no more changes than classes, and who gets more had more misses than who gives |
| `CpuMaxCapacity.Shrink` | tcmalloc/cpu_cache.h:1476-1500 | what is found is exactly what the classes give up: as much as wanted, or all they can give if that is less |
| `CpuMaxCapacity.SortedIs` | tcmalloc/cpu_cache.h:1425-1432 | the statistics in the order in which they are looked at |
| `CpuResize.CpuCache.Grow` | tcmalloc/cpu_cache.h:1331-1355 | as many objects as wanted, available and allowed, and not a byte is lost |
| `CpuResize.CpuCache.ShrinkOtherCache` | tcmalloc/cpu_cache.h:1923-1981 | one object's capacity exactly if the class has any and is willing, and not a byte is lost |
| `CpuResize.CpuCache.StealCapacityForSizeClassWithinCpu` | tcmalloc/cpu_cache.h:1984-2015 | goes round the classes once and takes one object's capacity from each that is not to grow, is willing and has any, until there is enough; all that is taken is returned |
| `CpuResize.CpuCache.GrowClass` | tcmalloc/cpu_cache.h:1719-1738 | one class grows by what others can spare, as far as it may or what there is suffices; no class that is to grow loses anything |
| `CpuResize.CpuCache.ResizeCpuSizeClasses` | tcmalloc/cpu_cache.h:1658-1744 | not a byte is lost, the five classes with the most misses lose nothing, and the first of them gains if it can; the statistics, which have one entry less than the classes that may be looked at, are not read beyond their end unless `MayPass`; with nothing available and nobody giving they are exactly if `Certain`; with just so much available that nobody is asked they are whatever the answers would be |
| `GuardedPages.NearestSlot` | tcmalloc/guarded_page_allocator.cc:472-492 | for every mapped address the nearest slot is one, and no page of a slot is closer |
| `GuardedPages.Pool.SlotBack` | tcmalloc/guarded_page_allocator.cc:526-538 | the slot of the address of a slot is that slot |
| `GuardedPages.OnPage` | tcmalloc/guarded_page_allocator.cc:467-470 | every address on the page of a slot belongs to that slot |
| `GuardedPages.RightAligned` | tcmalloc/guarded_page_allocator.cc:540-557 | a right-aligned allocation is inside its page, aligned, and as far right as that allows |
| `GuardedPages.GuardedPageAllocator.GetFreeSlot` | tcmalloc/guarded_page_allocator.cc:448-456 | a free slot below the number of slots, the closest one in the direction looked at |
| `GuardedPages.GuardedPageAllocator.ReserveFreeSlot` | tcmalloc/guarded_page_allocator.cc:422-446 | a slot exactly if allocations are allowed and fewer slots are taken than may be |
| `GuardedPages.GuardedPageAllocator.FreeSlot` | tcmalloc/guarded_page_allocator.cc:458-465 | the slot is free again |
| `GuardedPages.GuardedPageAllocator.MaybeRightAlign` | tcmalloc/guarded_page_allocator.cc:540-569 | the bytes written are exactly the ones that will be looked at, and no others |
| `GuardedPages.GuardedPageAllocator.WriteOverflowOccurred` | tcmalloc/guarded_page_allocator.cc:494-505 | true exactly if one of these bytes has changed |
| `GuardedPages.GuardedPageAllocator.Allocate` | tcmalloc/guarded_page_allocator.cc:168-221 | an aligned allocation on a slot of its own, exactly if one may be taken and its page can be opened; a slot that was written past its end is never used again; no byte but those watched is written |
| `GuardedPages.GuardedPageAllocator.Deallocate` | tcmalloc/guarded_page_allocator.cc:232-285 | a second deallocation, an overflow and a pointer that is not the start are told apart: an overflow is reported exactly if a watched byte was changed; before a fault is forced the page is closed, and the fault is then reported as what it is; else the slot is free again |
| `GuardedRuns.WriteStep` | tcmalloc/guarded_page_allocator.cc:494-505 | a write to an open page spoils what is known of a slot exactly if it hits a byte watched there |
| `GuardedRuns.Run` | tcmalloc/guarded_page_allocator.cc:168-285 | whatever a program allocates, writes and deallocates, in any order: an overflow is only reported if a watched byte was written, and a live allocation that is deallocated by its start with the watched bytes left alone is never reported |
| `CpuResize.WorstCase` | tcmalloc/cpu_cache.h:1693-1739 | for all capacities and statistics: there are answers of the classes and an amount available such that the statistics are read beyond their end if and only if `MayPass` |
| `CpuResize.AllFull` | tcmalloc/cpu_cache.h:1693-1714 | for every number of classes above five: a cache in which all have misses and are full, and a call that reads the statistics beyond their end whatever the answers |

## Left out

- HugeRegion and HugeRegionSet: a different bitmap allocator for allocations that would waste much of a hugepage.
- AllocLarge: does not model the branches that take from regions; the model goes straight to hugepages there.
- Delete: does not model the branch that gives back to a region.
- ReleaseAtLeastNPages: does not model releasing from regions.
- ReleaseAtLeastNPagesBreakingHugepages: does not model releasing from regions.
- ShrinkToUsageLimit, AllocEnormous and the choice whether to back an allocation: plumbing around the operations modelled.
- Treatment passes inside the page heap: the page heap is modelled between passes; the protocol of a pass with allocation, freeing and releasing is in `FillerRuns`.
- The merge times of the address map (`when_`): floating point without a structural property.
- Statistics that only report: lifetimes, usage histograms, subrelease statistics, the count of hugepages that were released and refilled, the number of spans used per batch, printing.
- MinMaxTracker, skip-subrelease intervals and backoff: their results are arbitrary numbers or flags of the model.
- FindAndMark: the range tracker is a value that is replaced and not an object that is changed; its bitmap is the set of pages in use.
- Unmark: as for FindAndMark.
- SelectTrackers: which trackers are eligible (by clocks, sampling and page flags) and how many objects each has are functions given to the call; the heap is a list the least urgent of which is looked up.
- ReleasePages: the target that demand statistics reduce it to is arbitrary.
- Span internals and the page map: a span of the central freelist is a value in a map, with the set of its free objects; objects are numbered, and which free objects are popped is arbitrary.
- Populate: taking a span from the page heap and building its freelist happen at the moment the lock is taken again, as nobody else knows the span before.
- The slab and restartable sequences: growing and shrinking a class of a CPU's cache is one step with any outcome the slab allows.
- NextKeeps: which CPU and class a thief picks, and the round-robin and miss thresholds that guide it, are left to the step.
- ShrinkOtherCache: whether a class is willing is an answer given to the call and not computed from its score and ticks; so `WorstCase` ranges over all answers, also for classes of objects of more than 64 KiB, which always give in the code (tcmalloc/cpu_cache.h:1964-1966).
- ResizeSlabIfNeeded, TryReclaimingCaches and the transfer caches: not modelled.
- TrySample, stack traces and counters of guarded pages: not modelled; a page is open or not, and deallocations do not overlap in time.
- NewAligned: requires of densely accessed spans that nothing would be donated, as the code asserts (tcmalloc/huge_page_filler.h:1781-1783, 2178).
- CentralRuns.Run: spans of one object, which the freelist passes on without keeping anything, are in `InsertRange` and `RemoveRange` only.
- Wrap-around of 64-bit counters: numbers are unbounded, except that the length of a request to the hugepage allocator overflows as in the code.
