# Verified models of the allocator, the codec and the loading protocols

These Dafny files model the parts of the engine in which a mistake would be hardest to see: the
vendored allocator mimalloc (`Private/3rdparty/mimalloc`), the base64 codec
(`Private/3rdparty/cpp-base64`), and the first-party protocols for plugin loading, asset
dependencies, asynchronous disk loads and job threads. `dafny verify dfyconfig.toml` checks them all.

## How the models are built

**Protocols of several threads** are transition systems with one step per atomic operation, for any
number of threads. An action that is not possible leaves the state alone, so every sequence of
actions is a run, and the results hold for all of them. A compare-and-swap that the source allows to
fail spuriously may do so here.

| Files | What they model |
|---|---|
| `PageProtocol`, `PageInvariant`, `PageRemoteSteps`, `PageOwnerSteps`, `PageLifeSteps`, `PageSafety`, `PageRemoteEffects`, `PageOwnerEffects` | how a thread frees a block of another thread's page: `xthread_free`, its four flags, the heap's delayed list, releasing and abandoning |
| `AbandonedProtocol`, `AbandonedInvariant`, `AbandonedSteps`, `AbandonedSafety`, `AbandonedAlone` | the tagged list of abandoned segments, the visited list, the count of readers |
| `ArenaProtocol`, `ArenaInvariant`, `ArenaSteps`, `ArenaSafety`, `ArenaPurges`, `ArenaAlone` | claims across bitmap fields with rollback, frees, delayed purges under ownership |
| `StaticArena` | the bump allocator for arena metadata |
| `AsyncLoading`, `AsyncOrder` | admission of asynchronous reads, and the list of pending ones |

In each of the first three, the `Protocol` file has the states and steps, with the source lines of
each program counter; the `Invariant` file says what holds between steps; the step files show that
each step keeps it; the `Safety` file has the results. The `Effects`, `Purges`, `Alone` and `Order`
files say what the operations do: what must have happened when one ends, in whatever run, and what it
makes of the state from beginning to end when nobody disturbs it. Variables such as `spot`, `who`, `alist` and
`chains` are history variables: they record what happened and no step depends on them, except that
a client frees only what it holds.

**Code of one thread that works in place** is a class or a method with loops, proved against a
specification on plain values.

| Files | What they model |
|---|---|
| `CommitMasks`, `SegmentMasks` | the commit and purge masks of a segment, word by word, and when they change |
| `SpanBins`, `SpanQueues`, `SpanLinks` | size classes, and their queues with `prev` and `next` links |
| `SliceTiling`, `SegmentLayout`, `Segments` | the slice table: what a layout is, what each change does to it, and the operations of segment.cpp themselves |
| `SpanSearch`, `ThreadSegments` | all segments of a thread: the search for a free span, and segments that come, go, are abandoned and reclaimed |
| `BitmapSearch` | the scans for a run of zero bits |
| `PageLists` | block lists as links, and the randomized free list |
| `Base64Codec`, `Base64RoundTrips` | both loops of the codec and the wrapping, and what they mean for each other |
| `PluginLoading`, `DependencyDatabase` | the two recursive walks over dependencies, cycles included |
| `JobThreadTable` | the open-addressed table from thread ids to runners |

`Sequences`, `Words` and `Paths` have what several of them share.

Sizes are those of a 64-bit build: 512 slices of 64 KiB in a segment, masks and bitmaps in words of
64 bits, 36 size classes, an 8 KiB static area, 64 read requests, 64 job runners. Answers of the
operating system, the clock, random numbers and hash values are parameters, and any answer is
allowed. Clients free each live block once.

## What the code does, where one might expect something else

- Runs of one or two blocks are searched within a field only, as the source says. So a run of two
  blocks may be missed (`BitmapSearch.RunAcrossTheEnd`); `BitmapSearch.Bitmap.FindAcross` says
  exactly when the search succeeds.
- From an input of 2 to the 32 bytes on, the 32-bit position of `base64_encode` never reaches the
  end; below it always does (`Base64Codec.LoopEnds`), and encoding and decoding are inverse.
- Decoding text without padding fails exactly when one character is left over
  (`Base64RoundTrips.UnpaddedDecodes`). The decoder ignores the unused low bits of a last character,
  so different texts can decode to the same bytes (`SameByte`); encoding gives the text back exactly
  when these bits are zero (`DecodeEncode`).
- The thread table has as many slots as there may be runners. With all of them taken, looking up an
  id that is not there does not end; `JobThreadTable.Table.ProbeEnds` says exactly when it does.
- Among jobs of the same priority, the one that was queued last is taken out first
  (`AsyncOrder.TakenIsNext`).
- A job that finds no slot counts down before it enters the list, so it may enter when nobody is
  left to take it out. This can happen if and only if more jobs may be open at a time than there are
  slots (`AsyncLoading.AttendedIffFewAtOnce`, with the run in `Stalling`).
- A job whose read ends without error calls its callback twice, and only such a job
  (`AsyncLoading.CallbackTwiceAfterRead`, with the run in `CallsTwice`).
- The comment at `Public/Common/3rdparty/mimalloc/mimalloc-types.h:173` speaks of 1024 slices; the
  constants give 512, and the models follow the constants.

## Model

| member | source | states |
|---|---|---|
| `PageSafety.ExactlyOnePlace` | Private/3rdparty/mimalloc/alloc.cpp:491-605 | In every reachable state, each block of an existing page is at exactly one place, once: live, on `free`, on `local_free`, on `xthread_free`, in a chain just collected, on a heap's delayed list, on a delayed list taken over, in the owner's hand, or with one freeing thread. Other blocks are nowhere |
| `PageSafety.UsedCounts` | Private/3rdparty/mimalloc/page.cpp:209-286 | In every reachable state, not only between owner operations, `used` is the number of blocks on neither `free` nor `local_free`, and equals capacity minus the two lengths |
| `PageSafety.NeverCorrupted` | Private/3rdparty/mimalloc/page.cpp:225-246 | A collected chain is never longer than the capacity, so the branch for a corrupted list is unreachable, and it is never longer than `used`, so the subtraction does not underflow |
| `PageSafety.ReleaseIsSafe` | Private/3rdparty/mimalloc/page.cpp:464-485 | When `used == 0`: the page is not in DELAYED_FREEING, no freeing thread is at any step for one of its blocks, its thread-free list is empty, and all its blocks are on the owner's two lists |
| `PageSafety.OneThreadDelays` | Private/3rdparty/mimalloc/alloc.cpp:526-569 | A page is in DELAYED_FREEING exactly while some thread is between setting and resetting that flag for it, and there is at most one such thread |
| `PageSafety.OnlyGuardLeaves` | Private/3rdparty/mimalloc/page.cpp:169-199 | Whatever step any thread or owner takes, a page leaves DELAYED_FREEING only by the reset of the thread that set it, and then it is in NO_DELAYED |
| `PageSafety.DelayedHeapIsAlive` | Private/3rdparty/mimalloc/alloc.cpp:546-559 | The heap that a freeing thread reads from `xheap` exists, is the page's current one throughout, and has neither begun its final drain nor been abandoned |
| `PageSafety.RemoteNotStuck` | Private/3rdparty/mimalloc/alloc.cpp:526-569 | A thread in the middle of a free always has an enabled next step: whatever it dereferences is there |
| `PageSafety.DoneForever` | Private/3rdparty/mimalloc/heap.cpp:124-173 | Once a heap is marked NEVER_DELAYED on all pages and drained, then after every further run its delayed list is empty and no page, thread or walk refers to it |
| `PageSafety.ReachableOk` | Private/3rdparty/mimalloc/page.cpp:68-156 | The invariant (disjoint lists without repetition, flags, counters, who may touch what) holds in every state that any interleaving reaches |
| `PageRemoteSteps.RemoteKeeps` | Private/3rdparty/mimalloc/alloc.cpp:491-569 | Every atomic step of a free by another thread keeps the invariant: both CAS loops, spurious failures, and the reset to NO_DELAYED |
| `PageOwnerSteps.PageKeeps` | Private/3rdparty/mimalloc/page.cpp:209-286 | Every step of the owner on a page keeps the invariant: allocation, local free, extension, collecting the thread-free list, and moving `local_free` |
| `PageOwnerSteps.CollectedFits` | Private/3rdparty/mimalloc/page.cpp:225-240 | A chain that was collected and not yet spliced has at most as many blocks as the page |
| `PageOwnerSteps.DelayKeeps` | Private/3rdparty/mimalloc/page.cpp:365-394 | Every step of processing the delayed list keeps the invariant: taking it over, the bounded `_mi_page_try_use_delayed_free` loop, the local free, and putting a block back |
| `PageLifeSteps.LifeKeeps` | Private/3rdparty/mimalloc/heap.cpp:103-189 | Creating, releasing, abandoning, reclaiming and attaching pages, and the phases of an abandoning collect, keep the invariant |
| `PageLifeSteps.ReleaseKeeps` | Private/3rdparty/mimalloc/page.cpp:464-485 | Releasing a page with `used == 0`, and forgetting its blocks, keeps the invariant although other threads are in the middle of frees |
| `PageRemoteEffects.FreeDoes` | Private/3rdparty/mimalloc/alloc.cpp:526-569 | A free from beginning to end, within any run: read off lists and flags, it either pushes the block on its page's list while the page is not in USE_DELAYED, or finds USE_DELAYED and sets DELAYED_FREEING, then hands the block to the delayed list of the page's heap, then leaves NO_DELAYED; nothing else, and in this order |
| `PageRemoteEffects.ClaimedFreeDoes` | Private/3rdparty/mimalloc/alloc.cpp:546-568 | From DELAYED_FREEING on, in any run, the thread hands its block over and then resets the flag |
| `PageRemoteEffects.FlagDecides` | Private/3rdparty/mimalloc/alloc.cpp:530-544 | In every reachable state, when the first compare-and-swap finds its word current: under USE_DELAYED the page is in DELAYED_FREEING and the block still with the thread; otherwise the block is on the page's list, once, and the flag as before |
| `PageRemoteEffects.CasWordDecides` | Private/3rdparty/mimalloc/alloc.cpp:530-544 | The same with everything that stays as it is: heaps, owner, the owner's lists, other pages |
| `PageRemoteEffects.CasDelayedPushes` | Private/3rdparty/mimalloc/alloc.cpp:554-558 | With the head as it was read, the block becomes the first of the heap's delayed list |
| `PageRemoteEffects.CasResetLeaves` | Private/3rdparty/mimalloc/alloc.cpp:562-568 | The reset leaves NO_DELAYED and the list as it is |
| `PageRemoteEffects.DirectFreeAlone` | Private/3rdparty/mimalloc/alloc.cpp:526-544 | An undisturbed free under another flag: one block more at the front of the page's list, and nothing else |
| `PageRemoteEffects.DelayedFreeAlone` | Private/3rdparty/mimalloc/alloc.cpp:526-569 | An undisturbed free under USE_DELAYED: one block more at the front of the heap's delayed list, the page in NO_DELAYED, and nothing else |
| `PageRemoteEffects.DelayedFreeingHappens` | Private/3rdparty/mimalloc/alloc.cpp:526-544 | From every start there is a run into DELAYED_FREEING |
| `PageRemoteEffects.DelayedFreeHappens` | Private/3rdparty/mimalloc/alloc.cpp:526-569 | And one to the end of that free |
| `PageOwnerEffects.MallocGives` | Private/3rdparty/mimalloc/alloc.cpp:39-57 | The first free block is the client's; `used` counts it |
| `PageOwnerEffects.LocalFreeTakes` | Private/3rdparty/mimalloc/alloc.cpp:573-605 | The block is at the front of the local list; `used` does not count it any more |
| `PageOwnerEffects.ExtendAdds` | Private/3rdparty/mimalloc/page.cpp:648-673 | The new blocks come before the free ones |
| `PageOwnerEffects.CollectAlone` | Private/3rdparty/mimalloc/page.cpp:209-247 | Undisturbed: all of the thread-free list goes before the local list, `used` falls by its length, the flag stays |
| `PageOwnerEffects.CollectTakes` | Private/3rdparty/mimalloc/page.cpp:213-222 | With the word as it was read the whole list is taken at once; an empty list ends it |
| `PageOwnerEffects.MigrateMoves` | Private/3rdparty/mimalloc/page.cpp:249-286 | The local list goes before the free one |
| `PageOwnerEffects.TakeAlone` | Private/3rdparty/mimalloc/page.cpp:365-372 | The whole delayed list is taken over |
| `PageOwnerEffects.TakenAlone` | Private/3rdparty/mimalloc/page.cpp:374-393 | The next block of it, in every reachable state: it becomes free locally and the page USE_DELAYED again (NEVER_DELAYED stays); on a page that stays in DELAYED_FREEING it goes back to the delayed list after the bounded number of looks |
| `PageOwnerEffects.SwitchAlone` | Private/3rdparty/mimalloc/page.cpp:169-199 | Undisturbed, the flag becomes the one that is wanted unless it is to stay |
| `PageOwnerEffects.SwitchWaits` | Private/3rdparty/mimalloc/page.cpp:177-190 | While the page is in DELAYED_FREEING, four more looks and then giving up (or, for the outer loop, beginning again) |
| `PageOwnerEffects.SwitchSets` | Private/3rdparty/mimalloc/page.cpp:192-196 | With the word as it was read, the flag changes and the list does not |
| `PageOwnerEffects.PageGoes` | Private/3rdparty/mimalloc/page.cpp:464-485 | The page and its blocks are gone, all else stays |
| `PageOwnerEffects.OwnersChange` | Private/3rdparty/mimalloc/page.cpp:433-461 | Abandoning, taking over, putting back and attaching a page change its owner and heap and nothing else |
| `PageOwnerEffects.PhasesChange` | Private/3rdparty/mimalloc/heap.cpp:134-189 | What a collect that abandons has to mark, and the order of its phases |
| `PageOwnerEffects.MarkAlone` | Private/3rdparty/mimalloc/heap.cpp:124-132 | A page is NEVER_DELAYED afterwards |
| `PageOwnerEffects.ReclaimAlone` | Private/3rdparty/mimalloc/segment.cpp:1586-1603 | A page without owner comes to the heap and is in USE_DELAYED again |
| `CommitMasks.AllSet` | Private/3rdparty/mimalloc/segment.cpp:28-36 | True exactly when the one set of slices includes the other |
| `CommitMasks.AnySet` | Private/3rdparty/mimalloc/segment.cpp:38-46 | True exactly when the two sets of slices meet |
| `CommitMasks.Intersect` | Private/3rdparty/mimalloc/segment.cpp:48-54 | The word-wise result denotes the intersection |
| `CommitMasks.Clear` | Private/3rdparty/mimalloc/segment.cpp:56-62 | The word-wise result denotes the difference |
| `CommitMasks.Set` | Private/3rdparty/mimalloc/segment.cpp:64-70 | The word-wise result denotes the union |
| `CommitMasks.IsEmpty` | Public/Common/3rdparty/mimalloc/mimalloc-internal.h:794-802 | True exactly when no slice is in the mask |
| `CommitMasks.IsFull` | Public/Common/3rdparty/mimalloc/mimalloc-internal.h:804-812 | True exactly when all slices are in the mask |
| `CommitMasks.CreateEmpty` | Public/Common/3rdparty/mimalloc/mimalloc-internal.h:778-784 | The result denotes the empty set |
| `CommitMasks.CreateFull` | Public/Common/3rdparty/mimalloc/mimalloc-internal.h:786-792 | The result denotes all slices of a segment |
| `CommitMasks.Create` | Private/3rdparty/mimalloc/segment.cpp:72-102 | Filling word by word, across word boundaries, gives exactly the slices from `bitidx` to `bitidx + bitcount` |
| `CommitMasks.FirstOne` | Private/3rdparty/mimalloc/segment.cpp:133-149 | Finds the first one bit at or after the index, or none is left |
| `CommitMasks.OnesInWord` | Private/3rdparty/mimalloc/segment.cpp:164-168 | Counts the ones of a word from a position on, and no further |
| `CommitMasks.NextRun` | Private/3rdparty/mimalloc/segment.cpp:128-181 | Returns the first maximal run of bits at or after the index, also across words, and count 0 exactly when there is none |
| `CommitMasks.Runs` | Public/Common/3rdparty/mimalloc/mimalloc-internal.h:818-825 | The iteration ends; its runs are in order with gaps between them, and a bit is set exactly when it is in one of them: each is visited once |
| `SpanBins.BoundsTable` | Private/3rdparty/mimalloc/init.cpp:122-129 | The 36 bounds of the table are those of the closed form |
| `SpanBins.BinHolds` | Private/3rdparty/mimalloc/segment.cpp:212-223 | A count lies above the bound of the bin before its own and not above the bound of its own |
| `SpanBins.LeastBin` | Private/3rdparty/mimalloc/segment.cpp:212-232 | A bound covers a count exactly when the bin is not below the count's own: `mi_slice_bin8` gives the least bin that covers it |
| `SpanBins.BinMonotone` | Private/3rdparty/mimalloc/segment.cpp:212-223 | A larger count never has a smaller bin |
| `SpanBins.BinInRange` | Private/3rdparty/mimalloc/segment.cpp:225-232 | All counts of a segment have a bin within the table |
| `SpanBins.QueueCovers` | Private/3rdparty/mimalloc/segment.cpp:260-266 | The queue chosen for a count has a bound of at least that count |
| `SpanQueues.SpanQueue.Push` | Private/3rdparty/mimalloc/segment.cpp:246-258 | On `prev` and `next` links: the queue is the old one with the span in front, and other records are untouched |
| `SpanQueues.SpanQueue.Delete` | Private/3rdparty/mimalloc/segment.cpp:268-283 | On links: the queue is the old one without the span, in the same order, also when the span was in no queue |
| `SpanQueues.Unlinked` | Private/3rdparty/mimalloc/segment.cpp:268-283 | The pointer updates of a deletion turn a well-linked queue into a well-linked queue of the others, and touch no record outside it |
| `SpanQueues.NewEnds` | Private/3rdparty/mimalloc/segment.cpp:274-279 | The ends after a deletion are the right ones, whether or not the span was an end |
| `SpanQueues.Linking` | Private/3rdparty/mimalloc/segment.cpp:246-258 | The pointer updates of a push turn a well-linked queue into a well-linked queue with the slice in front, and touch no record outside it |
| `SpanLinks.PushLinks` | Private/3rdparty/mimalloc/segment.cpp:764-769 | All queues share the slice records: the pointer updates of a push leave every queue well linked, and make the queues those that `Pushed` gives; a slice in no queue has no links |
| `SpanLinks.RemoveLinks` | Private/3rdparty/mimalloc/segment.cpp:782-789 | The same for a removal, of a slice in the queue for its size or in none: every queue stays well linked, the queues are those that `Removed` gives, and the slice has no links |
| `SpanLinks.RemoveUnqueued` | Private/3rdparty/mimalloc/segment.cpp:271-282 | For a slice in no queue, as during reclaim, the updates change no link and no queue |
| `SliceTiling.SpanAround` | Private/3rdparty/mimalloc/segment.cpp:311-361 | In a tiled table every slice lies in exactly one span |
| `SliceTiling.SpanBefore` | Private/3rdparty/mimalloc/segment.cpp:823-838 | The back offset in the entry before a span leads to the first entry of the span just before it |
| `SliceTiling.FreeTags` | Private/3rdparty/mimalloc/segment.cpp:738-770 | Writing a free span over whole adjacent spans tiles the table again, with correct back offsets |
| `SliceTiling.UsedTiled` | Private/3rdparty/mimalloc/segment.cpp:873-904 | Writing the entries of a page, with only the first 255 back offsets and the last, keeps the tiling and all back offsets that are needed |
| `SliceTiling.SplitTiles` | Private/3rdparty/mimalloc/segment.cpp:911-923 | A split gives two spans; all others are unchanged |
| `SliceTiling.OnlyOneFree` | Private/3rdparty/mimalloc/segment.cpp:1136-1170 | Without used pages a coalesced table has one free span behind the info span, or none if the info fills it |
| `SegmentMasks.PurgeState.constructor` | Private/3rdparty/mimalloc/segment.cpp:1011-1037 | A new segment has nothing scheduled and nothing in use |
| `SegmentMasks.PurgeState.Commit` | Private/3rdparty/mimalloc/segment.cpp:563-596 | Succeeds exactly when the range was committed or the system commits it; then the range is committed and unscheduled; else nothing changes. Keeps: scheduled and live slices are committed, and no live one is scheduled |
| `SegmentMasks.PurgeState.EnsureCommitted` | Private/3rdparty/mimalloc/segment.cpp:598-606 | The shortcut for full masks has the same effect as committing |
| `SegmentMasks.PurgeState.Purge` | Private/3rdparty/mimalloc/segment.cpp:608-643 | Called only with ranges that meet no live slice; unschedules the range, and decommits it exactly when the system says so |
| `SegmentMasks.PurgeState.TryPurge` | Private/3rdparty/mimalloc/segment.cpp:701-726 | On the masks: if due or forced, nothing is scheduled afterwards, and of what was committed exactly the scheduled runs that the system decommits are gone; otherwise nothing changes |
| `SegmentMasks.PurgeState.SchedulePurge` | Private/3rdparty/mimalloc/segment.cpp:645-699 | On the masks: before purges are long due, exactly the committed part of the range is added to what is scheduled and nothing is decommitted; when they are, nothing is scheduled afterwards and exactly the runs that the system decommits are not committed any more; without delay the range is purged at once. The expiry time in each case; all purges keep off slices in use |
| `SegmentMasks.PurgeState.PurgeRuns` | Private/3rdparty/mimalloc/segment.cpp:714-724 | The loop purges each maximal run once, with the answer of the system for that run |
| `SegmentMasks.DecommittedRuns` | Private/3rdparty/mimalloc/segment.cpp:714-724 | What is not committed any more are whole runs, those that the system decommitted |
| `SegmentMasks.InARun` | Private/3rdparty/mimalloc/segment.cpp:714-724 | Every scheduled slice is in a maximal run, so the answers decide on all of them |
| `SegmentLayout.TakeLaid` | Private/3rdparty/mimalloc/segment.cpp:782-789 | Taking a span out of the free or used ones leaves a layout that lacks only that span's classification |
| `SegmentLayout.SplitLaid` | Private/3rdparty/mimalloc/segment.cpp:911-923 | Splitting the span in hand leaves a new free span behind it; no two free spans become adjacent |
| `SegmentLayout.PageLaid` | Private/3rdparty/mimalloc/segment.cpp:851-909 | Making the span in hand a page completes the layout, and its slices are live |
| `SegmentLayout.MergeLaid` | Private/3rdparty/mimalloc/segment.cpp:791-844 | The span in hand and its free neighbours as one free span complete the layout: no two free spans are adjacent, pages and other free spans are as before |
| `SegmentLayout.PushHolds` | Private/3rdparty/mimalloc/segment.cpp:738-770 | A push puts a span in the queue of its size; queues then hold exactly the old spans and it. `SpanLinks.PushLinks` is the same about links |
| `SegmentLayout.RemoveHolds` | Private/3rdparty/mimalloc/segment.cpp:782-789 | A removal takes exactly the span out of the queues of the segment. `SpanLinks.RemoveLinks` is the same about links |
| `SegmentLayout.TakeFrontLaid` | Private/3rdparty/mimalloc/segment.cpp:943-948 | Taking the first slices of a free span leaves the rest as a free span |
| `SegmentLayout.Restored` | Private/3rdparty/mimalloc/segment.cpp:951-956 | After a failed commit coalescing finds just the span that was split |
| `SegmentLayout.Undone` | Private/3rdparty/mimalloc/segment.cpp:951-956 | After a failed commit the layout is the one before the split |
| `SegmentLayout.WalkMerged` | Private/3rdparty/mimalloc/segment.cpp:1511-1551 | A walk that frees a page on its way, and goes on behind the merged span, skips no page and no free span |
| `SegmentLayout.FoundMerged` | Private/3rdparty/mimalloc/segment.cpp:1511-1551 | What a walk found so far stays true when spans before and after its position are merged |
| `Segments.Segment.constructor` | Private/3rdparty/mimalloc/segment.cpp:1046-1134 | A new segment has the info span, one queued free span and no page, and meets the segment invariant |
| `Segments.Segment.LayOut` | Private/3rdparty/mimalloc/segment.cpp:1109-1121 | The two first spans tile the table; the free one is in its queue |
| `Segments.Segment.WriteUsed` | Private/3rdparty/mimalloc/segment.cpp:873-904 | The entries of a page: the first, the early back offsets, the last; nothing outside the span is written |
| `Segments.Segment.SpanAllocate` | Private/3rdparty/mimalloc/segment.cpp:851-909 | Succeeds exactly when the range is committed; then its slices are live and `used` is one more; else nothing but the commit bookkeeping changed |
| `Segments.Segment.SpanFree` | Private/3rdparty/mimalloc/segment.cpp:738-770 | The table has the free span, the purge is scheduled exactly when allowed, and the span is queued exactly when the segment is owned |
| `Segments.Segment.AbsorbNext` | Private/3rdparty/mimalloc/segment.cpp:811-822 | A free next span, and only a free one, is added and leaves its queue |
| `Segments.Segment.AbsorbPrev` | Private/3rdparty/mimalloc/segment.cpp:823-838 | A free previous span, and only a free one, found by its back offset, is added and leaves its queue |
| `Segments.Segment.AbsorbNeighbours` | Private/3rdparty/mimalloc/segment.cpp:811-838 | The range covers the span in hand and exactly its free neighbours |
| `Segments.Segment.Coalesce` | Private/3rdparty/mimalloc/segment.cpp:791-844 | The result is a free span over the span in hand and its free neighbours; tiling, back offsets, no adjacent free spans and the queues hold afterwards; the purge is scheduled for just that range |
| `Segments.Segment.TakeSpan` | Private/3rdparty/mimalloc/segment.cpp:943-948 | The first slices of a queued free span are in hand; exactly the rest is queued in its place |
| `Segments.Segment.PageInHand` | Private/3rdparty/mimalloc/segment.cpp:851-909 | Committing makes the span in hand a page of the segment; when it fails, the table is untouched |
| `Segments.Segment.GiveBack` | Private/3rdparty/mimalloc/segment.cpp:951-956 | After a failed commit spans, pages and queues are as before the call |
| `Segments.Segment.AllocateAt` | Private/3rdparty/mimalloc/segment.cpp:942-957 | Success exactly when the range is or gets committed; then there is one page more, of the wanted size; else spans, pages, free spans and queues are as before |
| `Segments.Segment.PageClear` | Private/3rdparty/mimalloc/segment.cpp:1179-1210 | The page's slices are free and merged with free neighbours; `used` is one less; all other pages stay; what is committed of the span is scheduled unless purges are long due |
| `Segments.Segment.TakePage` | Private/3rdparty/mimalloc/segment.cpp:1198-1202 | The page becomes the span in hand; its slices are in use no more |
| `Segments.Segment.Release` | Private/3rdparty/mimalloc/segment.cpp:1136-1170 | With no page used the walk meets exactly two spans, and afterwards no queue holds a span of the segment |
| `Segments.Segment.Abandon` | Private/3rdparty/mimalloc/segment.cpp:1434-1467 | The queues hold no span of the segment; the table is unchanged; scheduled purges are tried |
| `Segments.Segment.PageFree` | Private/3rdparty/mimalloc/segment.cpp:1212-1233 | The segment is released exactly when this was its only page, and abandoned exactly when all that is left are abandoned pages; the pages that remain are as they were |
| `Segments.Segment.Settle` | Private/3rdparty/mimalloc/segment.cpp:1223-1232 | The segment is released exactly if it has no page, abandoned exactly if it has none but abandoned ones, and its table stays if it is not released |
| `Segments.Segment.PageAbandon` | Private/3rdparty/mimalloc/segment.cpp:1469-1486 | The segment is abandoned exactly when its last page that was not is |
| `Segments.Segment.CheckFree` | Private/3rdparty/mimalloc/segment.cpp:1502-1553 | Exactly the pages that turn out all free are freed, and the answer is true exactly when a free span of the wanted length or a fitting page is left; the pages that remain are as they were |
| `Segments.Segment.CheckSpan` | Private/3rdparty/mimalloc/segment.cpp:1511-1551 | One round misses nothing and makes progress, whether or not spans merge under it |
| `Segments.Segment.CheckEmpty` | Private/3rdparty/mimalloc/segment.cpp:1520-1532 | The page is freed, and the walk goes on behind the merged span |
| `Segments.Segment.Reclaim` | Private/3rdparty/mimalloc/segment.cpp:1557-1632 | The segment is released exactly when no page is left; else it is owned, has exactly the pages that are not all free, none abandoned, and exactly its free spans are queued again; the pages that remain are as they were |
| `Segments.Segment.ReclaimSpan` | Private/3rdparty/mimalloc/segment.cpp:1576-1619 | One round: the pages and queued spans up to the position are as they should be, the others still abandoned or unqueued |
| `Segments.Segment.ReclaimEmpty` | Private/3rdparty/mimalloc/segment.cpp:1594-1598 | A page that is all free is freed while only some free spans are queued yet |
| `Segments.Segment.ReclaimFree` | Private/3rdparty/mimalloc/segment.cpp:1612-1616 | A free span is queued, and no page is skipped |
| `SpanSearch.TooShort` | Private/3rdparty/mimalloc/segment.cpp:929-930 | No queue before the one that the search starts at holds a span long enough |
| `SpanSearch.FindIn` | Private/3rdparty/mimalloc/segment.cpp:934-960 | The first span of a queue that can serve, or the queue has none |
| `SpanSearch.Find` | Private/3rdparty/mimalloc/segment.cpp:928-964 | The first span that can serve in the least queue that has one, or no queue has one |
| `SpanSearch.NotFound` | Private/3rdparty/mimalloc/segment.cpp:961-964 | In terms of segments: an exhausted search means that each free span of each suitable owned segment is too short |
| `SpanSearch.NothingFound` | Private/3rdparty/mimalloc/segment.cpp:961-964 | The same over all owned segments and spans at once |
| `SpanSearch.AllocateIn` | Private/3rdparty/mimalloc/segment.cpp:942-957 | The page is made in the span found; all other segments and the invariant of the whole thread are kept |
| `SpanSearch.FindAndAllocate` | Private/3rdparty/mimalloc/segment.cpp:925-965 | If no page is returned although commits succeed, no suitable owned segment has a free span of `slice_count` slices; if one is, it is the only change to the pages of any segment. A page that is returned is the best fit: the first span that can serve, of the first queue from the size class of the request on |
| `ThreadSegments.FreePage` | Private/3rdparty/mimalloc/segment.cpp:1212-1233 | Over all segments of a thread: freeing a page keeps the invariant of the thread; the segment leaves the thread exactly when only abandoned pages or none are left; pages of other segments stay |
| `ThreadSegments.AbandonPage` | Private/3rdparty/mimalloc/segment.cpp:1469-1486 | Abandoning a page keeps the invariant of the thread; the segment leaves exactly when this was its last page that was not abandoned |
| `ThreadSegments.Reclaim` | Private/3rdparty/mimalloc/segment.cpp:1557-1632 | Reclaiming keeps the invariant of the thread; the segment joins it, with exactly the pages that are not all free, unless none is |
| `ThreadSegments.NewSegment` | Private/3rdparty/mimalloc/segment.cpp:1046-1134 | A new segment at an unused address joins the thread and keeps its invariant |
| `ThreadSegments.Leave` | Private/3rdparty/mimalloc/segment.cpp:1434-1467 | When a segment leaves the thread, no queue holds a span of it, and the others are in order |
| `AbandonedSafety.ExactlyOnePlace` | Private/3rdparty/mimalloc/segment.cpp:1266-1428 | In every reachable state the two lists are what following the links gives, and each mapped segment is once on the one, or once on the other, or held by exactly one thread |
| `AbandonedSafety.OnlyTheHolder` | Private/3rdparty/mimalloc/segment.cpp:1296-1428 | A thread that may write to, push or free a segment is its only holder, and the segment is on no list |
| `AbandonedSafety.PopTakesTheFirst` | Private/3rdparty/mimalloc/segment.cpp:1411-1420 | A pop whose word is still current has read the true successor, however long ago: its CAS removes the first segment and installs the rest (no ABA) |
| `AbandonedSafety.ReadsMappedOnly` | Private/3rdparty/mimalloc/segment.cpp:1409-1421 | A thread about to read `abandoned_next` reads memory that is mapped |
| `AbandonedSafety.FreesUnreadOnly` | Private/3rdparty/mimalloc/segment.cpp:457-480 | When a segment's memory is returned, no thread has read or is about to read a link in it |
| `AbandonedSafety.NeverStuck` | Private/3rdparty/mimalloc/segment.cpp:1296-1428 | A thread in any operation can take its next step |
| `AbandonedSafety.WalkEnds` | Private/3rdparty/mimalloc/segment.cpp:1337-1343 | The walk to the end of the visited chain comes one step closer each time and stops exactly at the end |
| `AbandonedSafety.ReachableOk` | Private/3rdparty/mimalloc/segment.cpp:1266-1428 | The invariant holds in every state that any interleaving of any number of threads reaches |
| `AbandonedSteps.StepKeeps` | Private/3rdparty/mimalloc/segment.cpp:1296-1428 | Every atomic step, with spurious CAS failures, keeps the invariant |
| `AbandonedSteps.PushStepKeeps` | Private/3rdparty/mimalloc/segment.cpp:1296-1375 | Every step of the two pushes keeps the invariant |
| `AbandonedSteps.RevisitStepKeeps` | Private/3rdparty/mimalloc/segment.cpp:1311-1358 | Every step of moving the visited list back keeps the invariant, also when other threads push in between |
| `AbandonedSteps.PopStepKeeps` | Private/3rdparty/mimalloc/segment.cpp:1391-1428 | Every step of a pop keeps the invariant |
| `AbandonedSteps.FreeStepKeeps` | Private/3rdparty/mimalloc/segment.cpp:457-480 | Waiting for readers and returning the memory keeps the invariant |
| `AbandonedAlone.PushAlone` | Private/3rdparty/mimalloc/segment.cpp:1361-1375 | Undisturbed: following the links, the segment comes first and then the list as it was |
| `AbandonedAlone.VisitAlone` | Private/3rdparty/mimalloc/segment.cpp:1296-1308 | The same for the visited list |
| `AbandonedAlone.RevisitAlone` | Private/3rdparty/mimalloc/segment.cpp:1311-1358 | Undisturbed: all of the visited list goes before the abandoned one, each in its order, whether the second is empty or not |
| `AbandonedAlone.CollectAlone` | Private/3rdparty/mimalloc/segment.cpp:1687-1694 | After the first step of a collect no segment waits in the visited list |
| `AbandonedAlone.PopAlone` | Private/3rdparty/mimalloc/segment.cpp:1391-1428 | Undisturbed: the first abandoned segment, or else the first visited one, is the thread's and has no link; the rest stays in order; none only if both lists are empty |
| `AbandonedAlone.ReleaseAlone` | Private/3rdparty/mimalloc/segment.cpp:457-480 | With no reader about, exactly the segment is unmapped |
| `AbandonedAlone.PushRetries` | Private/3rdparty/mimalloc/segment.cpp:1368-1373 | A failed compare-and-swap of a push changes nothing and links the segment anew |
| `AbandonedAlone.TailRetries` | Private/3rdparty/mimalloc/segment.cpp:1347-1354 | The same when the visited list is moved |
| `AbandonedAlone.PopRetries` | Private/3rdparty/mimalloc/segment.cpp:1411-1420 | The same of a pop, which leaves if the list is empty by then |
| `ArenaSafety.BitsAreHoldings` | Private/3rdparty/mimalloc/bitmap.cpp:248-358 | In every reachable state a bit is set exactly when someone holds it (an allocation, a thread in an operation, the tail reservation), and then exactly one does |
| `ArenaSafety.AllocationsApart` | Private/3rdparty/mimalloc/arena.cpp:235-314 | Live allocations are not empty, lie within `block_count`, are pairwise disjoint, and none of their blocks is scheduled for purge |
| `ArenaSafety.PurgesOwnBlocks` | Private/3rdparty/mimalloc/arena.cpp:563-723 | Every block handed to an OS purge is in use, within the arena, and held by the purging thread and no one else |
| `ArenaSafety.RollbackIsExact` | Private/3rdparty/mimalloc/bitmap.cpp:330-348 | A rollback step clears bits that this claim had set and no others |
| `ArenaSafety.FailureHoldsNothing` | Private/3rdparty/mimalloc/bitmap.cpp:330-357 | A claim fails only when it holds no bit any more |
| `ArenaSafety.ClaimsEnd` | Private/3rdparty/mimalloc/bitmap.cpp:284-357 | A claim across fields comes closer to its end with each step in which no other thread changed the word; there are at most four attempts |
| `ArenaSafety.StepsOfClaim` | Private/3rdparty/mimalloc/bitmap.cpp:248-358 | Over a whole run, the steps of a claim across fields are at most its weight at the start and the steps in which others changed the word that it had read |
| `ArenaSafety.ClaimIsShort` | Private/3rdparty/mimalloc/bitmap.cpp:248-358 | From its beginning a claim of n bits takes at most 16 n + 16 steps, and one more for each interference |
| `ArenaSafety.FreeFindsItsBits` | Private/3rdparty/mimalloc/arena.cpp:836-842 | A free finds all bits of its allocation set: it never reports an already freed block |
| `ArenaSafety.ReachableOk` | Private/3rdparty/mimalloc/bitmap.cpp:248-455 | The invariant holds in every state that any interleaving reaches |
| `ArenaSteps.StepKeeps` | Private/3rdparty/mimalloc/arena.cpp:235-843 | Every atomic step of claims, rollbacks, frees, delayed purges and their owners keeps the invariant |
| `ArenaSteps.AcrossKeeps` | Private/3rdparty/mimalloc/bitmap.cpp:284-328 | Every step of a claim across fields keeps the invariant |
| `ArenaSteps.RollKeeps` | Private/3rdparty/mimalloc/bitmap.cpp:330-348 | Every step of a rollback keeps the invariant |
| `ArenaSteps.WholeField` | Private/3rdparty/mimalloc/bitmap.cpp:331-339 | The plain store of zero in a rollback clears only bits of the claim, because the claim holds the whole field |
| `ArenaSteps.PurgeStepKeeps` | Private/3rdparty/mimalloc/arena.cpp:629-723 | Every step of the purge under ownership keeps the invariant |
| `ArenaSteps.HandOutKeeps` | Private/3rdparty/mimalloc/arena.cpp:252-314 | Handing a claimed range to the client, with its purge bits cleared, keeps the invariant |
| `ArenaPurges.FreeSchedules` | Private/3rdparty/mimalloc/arena.cpp:760-843 | When a free comes to release its blocks, whatever others did meanwhile: it still holds them all, and all are scheduled if the purge is to be delayed, none otherwise |
| `ArenaPurges.FreeHandsOver` | Private/3rdparty/mimalloc/arena.cpp:563-623 | Its own blocks, all of them, are given to the operating system exactly if the free purges at once |
| `ArenaPurges.PurgeHandsOver` | Private/3rdparty/mimalloc/arena.cpp:629-710 | A purge under ownership gives to the operating system exactly the blocks of its range that were scheduled; afterwards none of the range is scheduled |
| `ArenaPurges.MarkedSoFar` | Private/3rdparty/mimalloc/arena.cpp:622-622 | In every reachable state, a free that marks its blocks has scheduled those that it has passed |
| `ArenaPurges.OnlyHolderPurges` | Private/3rdparty/mimalloc/arena.cpp:563-723 | No step sets or clears the purge bit of a block that its thread does not hold |
| `ArenaPurges.ReachableProgress` | Private/3rdparty/mimalloc/arena.cpp:563-723 | In every reachable state each thread has set or cleared the purge bits up to where its program point is |
| `ArenaAlone.FieldAlone` | Private/3rdparty/mimalloc/bitmap.cpp:50-108 | Undisturbed: a free range within a field is allocated, with its purge bits cleared |
| `ArenaAlone.AcrossAlone` | Private/3rdparty/mimalloc/bitmap.cpp:248-358 | Undisturbed: a claim across fields gets its range exactly if all of it is free, and otherwise leaves everything as it was |
| `ArenaAlone.RollsAlone` | Private/3rdparty/mimalloc/bitmap.cpp:330-348 | A rollback gives back all that was claimed |
| `ArenaAlone.FreeAlone` | Private/3rdparty/mimalloc/arena.cpp:760-843 | Undisturbed: the allocation is gone, its blocks are free, and scheduled exactly if the purge is to be delayed |
| `ArenaAlone.TryPurgeAlone` | Private/3rdparty/mimalloc/arena.cpp:683-710 | Undisturbed: of the range, the longest free part at its beginning is purged and unscheduled, and nothing else changes |
| `ArenaAlone.AcrossRetries` | Private/3rdparty/mimalloc/bitmap.cpp:289-324 | A compare-and-swap that finds its word changed takes nothing |
| `ArenaAlone.TriesAgain` | Private/3rdparty/mimalloc/bitmap.cpp:350-357 | At most three further attempts, in the same field |
| `BitmapSearch.Bitmap.ClaimInField` | Private/3rdparty/mimalloc/bitmap.cpp:50-108 | Claims the first free run within a field and sets exactly its bits; fails exactly when the field has none |
| `BitmapSearch.Bitmap.FindInFields` | Private/3rdparty/mimalloc/bitmap.cpp:113-130 | Fails only when no field contains a run; otherwise it claims the first run of the first field, in the order of the visit, that has one |
| `BitmapSearch.Bitmap.ClaimAcross` | Private/3rdparty/mimalloc/bitmap.cpp:248-328 | Claims a run that begins in the free top of a field; fails only when none that crosses into the next begins there |
| `BitmapSearch.Bitmap.ClaimField` | Private/3rdparty/mimalloc/bitmap.cpp:381-393 | One round claims the first run that begins in the field, or none begins in it |
| `BitmapSearch.Bitmap.ScanAhead` | Private/3rdparty/mimalloc/bitmap.cpp:266-279 | Says yes only for a free run, and no only when no run begins in the free top of the field |
| `BitmapSearch.Bitmap.ClaimParts` | Private/3rdparty/mimalloc/bitmap.cpp:284-328 | The three masks together set exactly the bits of the run |
| `BitmapSearch.Bitmap.FindAcross` | Private/3rdparty/mimalloc/bitmap.cpp:362-396 | For count above 2: succeeds if and only if a free run exists anywhere in the bitmap. For count 1 and 2: if and only if one lies within a field. On success exactly the bits of a free run are set. The run claimed is the first one of the first field, in the order of the visit, in which one begins |
| `BitmapSearch.SkipIsSafe` | Private/3rdparty/mimalloc/bitmap.cpp:92-104 | The shift past the highest set bit makes progress and jumps over no free run |
| `BitmapSearch.NoRoom` | Private/3rdparty/mimalloc/bitmap.cpp:263-264 | When the check for the end of the bitmap gives up, no run begins in that field's free top |
| `BitmapSearch.Blocked` | Private/3rdparty/mimalloc/bitmap.cpp:266-279 | A set bit ahead rules out every run that begins in the free top |
| `BitmapSearch.NoRunAnywhere` | Private/3rdparty/mimalloc/bitmap.cpp:362-396 | No run within a field and none across the end of a field means none at all |
| `BitmapSearch.RunAcrossTheEnd` | Private/3rdparty/mimalloc/bitmap.cpp:367-371 | The input on which the search for two bits misses a run: only the last bit of one field and the first of the next are free |
| `BitmapSearch.NoRunInFields` | Private/3rdparty/mimalloc/bitmap.cpp:113-130 | A failed search of all fields means that no run lies within a field |
| `PageLists.PageBlocks.Malloc` | Private/3rdparty/mimalloc/alloc.cpp:39-57 | Takes the first block of the free list, or none if it is empty |
| `PageLists.PageBlocks.FreeLocal` | Private/3rdparty/mimalloc/alloc.cpp:573-605 | Puts the block in front of the local list; `used` is one less |
| `PageLists.PageBlocks.CollectThreadFree` | Private/3rdparty/mimalloc/page.cpp:209-247 | The loop to the tail and the splice put the chain in front of the local list; the corrupted branch is not taken |
| `PageLists.PageBlocks.CollectLocal` | Private/3rdparty/mimalloc/page.cpp:249-286 | The local list becomes the free list; when forced, it goes in front of it; no block is lost |
| `PageLists.PageBlocks.Extend` | Private/3rdparty/mimalloc/page.cpp:648-673 | The new blocks in address order, then the old free list |
| `PageLists.PageBlocks.ExtendSecure` | Private/3rdparty/mimalloc/page.cpp:581-645 | For every random stream: an acyclic list that visits each new block exactly once and then the old list; each block is the lowest one left of the slice that its random number names, or of the next slice, going round, that has any left |
| `PageLists.PageBlocks.LinkRandomly` | Private/3rdparty/mimalloc/page.cpp:594-641 | For every random stream the links order the new blocks as a permutation, and in the order that the random numbers decide; no old link is written |
| `PageLists.PageBlocks.LinkRest` | Private/3rdparty/mimalloc/page.cpp:619-641 | The loop over the other blocks keeps to that order |
| `PageLists.PageBlocks.Round` | Private/3rdparty/mimalloc/page.cpp:621-640 | One round takes the lowest block left of the first slice, going round from the one named, that has any |
| `PageLists.NextPicked` | Private/3rdparty/mimalloc/page.cpp:627-640 | The slice that the search stops at, and its first unlinked block, are the ones that the random number decides |
| `PageLists.PageBlocks.Step` | Private/3rdparty/mimalloc/page.cpp:628-640 | One round appends a block that was not linked yet |
| `PageLists.PageBlocks.Attach` | Private/3rdparty/mimalloc/page.cpp:642-644 | The last new block is linked to the old free list |
| `PageLists.MakeSlices` | Private/3rdparty/mimalloc/page.cpp:601-611 | The slices partition the new blocks: all of the same size, the last with what is left over |
| `PageLists.SliceCount` | Private/3rdparty/mimalloc/page.cpp:596-601 | The number of slices is the largest power of two that is neither above the number of blocks nor above 64 |
| `PageLists.SliceSize` | Private/3rdparty/mimalloc/page.cpp:594-603 | The chosen number of slices gives each at least one block |
| `PageLists.NextSlice` | Private/3rdparty/mimalloc/page.cpp:629-634 | The search for a slice that has blocks left ends, at the first such slice in cyclic order |
| `PageLists.SomeLeft` | Private/3rdparty/mimalloc/page.cpp:621-634 | As long as blocks are missing from the list a slice has some left |
| `PageLists.NextThreaded` | Private/3rdparty/mimalloc/page.cpp:621-641 | One round keeps: what is linked and what the slices have left partition the new blocks |
| `PageLists.AllThreaded` | Private/3rdparty/mimalloc/page.cpp:613-641 | After all rounds each new block was linked exactly once |
| `StaticArena.RangesAreApart` | Private/3rdparty/mimalloc/arena.cpp:167-198 | Under every interleaving, with rollbacks that may or may not succeed, the ranges handed out are aligned, inside the static area, and pairwise disjoint |
| `StaticArena.AddGivesRange` | Private/3rdparty/mimalloc/arena.cpp:183-197 | A call gets a range of its size and alignment exactly when the top stays within the area; earlier ranges stay handed out |
| `StaticArena.AddKeeps` | Private/3rdparty/mimalloc/arena.cpp:183-185 | Advancing the top keeps the invariant, also beyond the end of the area |
| `StaticArena.RollBackKeeps` | Private/3rdparty/mimalloc/arena.cpp:185-190 | Rolling the top back never goes below a range that was handed out |
| `StaticArena.CallAlone` | Private/3rdparty/mimalloc/arena.cpp:167-198 | An undisturbed call gets the first aligned range from the top on exactly if there is room for the size and the alignment; otherwise everything is as before, the top included |
| `StaticArena.RollBackRestores` | Private/3rdparty/mimalloc/arena.cpp:185-190 | The rollback puts the top back where the call found it exactly if nobody has moved it on |
| `StaticArena.AddMoves` | Private/3rdparty/mimalloc/arena.cpp:183-197 | The top moves on by size and alignment; the range begins at the first aligned place |
| `Base64Codec.AlphabetIsLegible` | Private/3rdparty/cpp-base64/base64.cpp:46-73 | Both alphabets have 64 characters, and `pos_of_char` inverts both |
| `Base64Codec.Encode` | Private/3rdparty/cpp-base64/base64.cpp:113-163 | For all input shorter than 2 to the 32: the text is given character by character, by the 24-bit groups and the tables of sections 4 and 5 of RFC 4648; the padding is at the end, 0, 2 or 1 characters by the length modulo 3; no character of the other alphabet occurs |
| `Base64Codec.EncodeWith` | Private/3rdparty/cpp-base64/base64.cpp:133-161 | The loop with its 32-bit position, which does not wrap around for such input |
| `Base64Codec.LoopEnds` | Private/3rdparty/cpp-base64/base64.cpp:133-158 | The position after some number of rounds reaches the end of the input if and only if the input is shorter than 2 to the 32: otherwise it wraps around and the loop does not stop |
| `Base64Codec.AppendGroup` | Private/3rdparty/cpp-base64/base64.cpp:136-157 | One round appends the group of the next three, two or one bytes |
| `Base64Codec.EncodedLength` | Private/3rdparty/cpp-base64/base64.cpp:113-163 | Four characters for every three bytes or part of them |
| `Base64Codec.GroupBits` | Private/3rdparty/cpp-base64/base64.cpp:136-143 | The four sextets of a group are the 24 bits of its bytes, most significant first (section 4 of RFC 4648) |
| `Base64Codec.AppendBytes` | Private/3rdparty/cpp-base64/base64.cpp:209-237 | One round appends the bytes of the next group, or meets its fault |
| `Base64Codec.DecodePlain` | Private/3rdparty/cpp-base64/base64.cpp:165-243 | The loop computes the decoding, with its two kinds of failure |
| `Base64Codec.Decode` | Private/3rdparty/cpp-base64/base64.cpp:165-243 | With removal of line breaks, it decodes what is left |
| `Base64Codec.InsertLinebreaks` | Private/3rdparty/cpp-base64/base64.cpp:75-91 | Inserting in place at growing positions gives the wrapped text |
| `Base64Codec.EncodeWrapped` | Private/3rdparty/cpp-base64/base64.cpp:93-106 | The output is given place by place: a line break after each full line, and the standard encoding in between |
| `Base64Codec.EncodePem` | Private/3rdparty/cpp-base64/base64.cpp:98-101 | The same at 64 characters |
| `Base64Codec.EncodeMime` | Private/3rdparty/cpp-base64/base64.cpp:103-106 | The same at 76 characters |
| `Base64Codec.AlphabetIs` | Private/3rdparty/cpp-base64/base64.cpp:46-55 | Each character of both alphabets, and the padding of each |
| `Base64Codec.EncodedIs` | Private/3rdparty/cpp-base64/base64.cpp:133-161 | What the groups give one after the other is the text by its definition over the bits |
| `Base64Codec.WrappedIs` | Private/3rdparty/cpp-base64/base64.cpp:75-91 | Each place of wrapped text, and its length |
| `Base64RoundTrips.GroupBack` | Private/3rdparty/cpp-base64/base64.cpp:165-243 | Decoding a group gives its bytes, whatever follows |
| `Base64RoundTrips.RoundTrip` | Private/3rdparty/cpp-base64/base64.cpp:113-243 | For every byte string and both alphabets, decoding an encoding gives the bytes back |
| `Base64RoundTrips.StrippedRoundTrip` | Private/3rdparty/cpp-base64/base64.cpp:165-243 | The same with the padding stripped |
| `Base64RoundTrips.UnwrapWrapped` | Private/3rdparty/cpp-base64/base64.cpp:75-91 | Removing line breaks undoes wrapping at any width |
| `Base64RoundTrips.WrappedRoundTrip` | Private/3rdparty/cpp-base64/base64.cpp:93-243 | Decoding wrapped output gives the bytes back |
| `Base64RoundTrips.LineWidths` | Private/3rdparty/cpp-base64/base64.cpp:75-91 | Every line but the last has exactly the width; the last is not empty and not longer |
| `Base64RoundTrips.UnpaddedDecodes` | Private/3rdparty/cpp-base64/base64.cpp:165-243 | Text of base64 characters decodes exactly when its length is not 1 modulo 4, to three quarters of its length; otherwise it fails with an index out of range |
| `Base64RoundTrips.DecodeEncode` | Private/3rdparty/cpp-base64/base64.cpp:113-243 | Text of one alphabet without padding that decodes, when decoded, encoded and stripped again, is the same text if and only if the unused low bits of its last character are zero |
| `Base64RoundTrips.SameByte` | Private/3rdparty/cpp-base64/base64.cpp:165-243 | Two different texts that decode to the same byte |
| `Base64RoundTrips.GroupsBefore` | Private/3rdparty/cpp-base64/base64.cpp:195-240 | Groups decode one after the other: what earlier groups give does not depend on later ones |
| `Base64RoundTrips.EarlyPaddingFails` | Private/3rdparty/cpp-base64/base64.cpp:57-73 | Padding in the first two places of any group, after groups that decode, comes to the place that the source calls unreachable (`ExpectUnreachable`): there is no error return |
| `Base64RoundTrips.ReadIs` | Private/3rdparty/cpp-base64/base64.cpp:57-73 | `pos_of_char` reads the characters of both alphabets, each as its position, and no others |
| `Base64RoundTrips.DecodesIff` | Private/3rdparty/cpp-base64/base64.cpp:195-240 | Any text decodes if and only if each of its groups has two readable characters and then only readable ones up to its padding or the end |
| `Base64RoundTrips.GroupGives` | Private/3rdparty/cpp-base64/base64.cpp:209-237 | A group that decodes gives the bytes of its 24 bits, as many as its characters hold in full |
| `PluginLoading.Application.Register` | Private/Application/Application.cpp:49-55 | A plugin is entered and started once |
| `PluginLoading.Application.LoadByGuid` | Private/Application/Application.cpp:113-135 | Terminates on every graph; afterwards the plugin is registered if it was found; fails without any change when it is not found; the loading order is kept on acyclic graphs |
| `PluginLoading.Application.LoadInfo` | Private/Application/Application.cpp:137-189 | Registers the plugin and everything that it needs, nothing else, each at most once. If the library finds plugins under their own guids, the result is true exactly when the plugin was registered before, or no plugin registered by the call misses a dependency or fails to load its assets or binary, cycles or not |
| `PluginLoading.Application.LoadDeps` | Private/Application/Application.cpp:149-156 | All dependencies that are found are registered afterwards |
| `PluginLoading.Application.LoadDep` | Private/Application/Application.cpp:153-156 | One dependency is registered if it was found; earlier ones stay |
| `PluginLoading.Application.LoadSelf` | Private/Application/Application.cpp:158-188 | The plugin's own part succeeds exactly when its asset and binary directories, where it has them, load |
| `PluginLoading.Application.LoadAlone` | Private/Application/Application.cpp:113-189 | From an empty application: exactly the plugins reachable from the root through found plugins are registered, each started once and each having its turn once; on acyclic graphs each after its dependencies. The result is true exactly when none of them misses a dependency or fails to load its assets or binary |
| `PluginLoading.ToldTwice` | Private/Application/Application.cpp:149-156 | The results of the dependencies combine to the result for all plugins they registered; what is missing stays missing |
| `PluginLoading.ClosedHasReachable` | Private/Application/Application.cpp:137-189 | A set closed under dependencies contains whatever a chain of dependencies reaches |
| `PluginLoading.NeededIsClosed` | Private/Application/Application.cpp:137-189 | The reachable plugins are closed under dependencies |
| `PluginLoading.AllNeeded` | Private/Application/Application.cpp:137-189 | Registered plugins whose found dependencies are registered include all that the root reaches |
| `PluginLoading.SelfOrdered` | Private/Application/Application.cpp:149-184 | On acyclic graphs, when it is a plugin's turn, all its dependencies have had theirs |
| `DependencyDatabase.Walk.Load` | Private/Asset/AssetOwners.cpp:202-227 | Terminates on every graph; adds exactly what the plugin and the newly met ones bring, nothing unreachable |
| `DependencyDatabase.Walk.LoadDeps` | Private/Asset/AssetOwners.cpp:217-224 | All dependencies have been met afterwards |
| `DependencyDatabase.Walk.LoadDep` | Private/Asset/AssetOwners.cpp:219-223 | A dependency already in the list is not visited again |
| `DependencyDatabase.Walk.LoadProject` | Private/Asset/AssetOwners.cpp:236-245 | The plugins of the project one after the other, none of them entered into the list |
| `DependencyDatabase.Walk.ComputeFull` | Private/Asset/AssetOwners.cpp:182-265 | The database has exactly the plugins with assets that are reachable from the project, the plugin and the asset compiler through found plugins |
| `DependencyDatabase.AllMetOnTheWay` | Private/Asset/AssetOwners.cpp:202-245 | Whatever a chain of dependencies reaches has been met |
| `DependencyDatabase.Exactly` | Private/Asset/AssetOwners.cpp:182-265 | A finished walk has loaded a plugin exactly when it has assets and is reachable |
| `AsyncLoading.SlotsAreBounded` | Private/IO/AsyncLoadFromDiskJob.cpp:70-92 | After every run: slot holders never exceed the maximum, the counter is the holders plus the rejected increments not yet undone, and each admission is released at most once |
| `AsyncLoading.NeverBelowZero` | Private/IO/AsyncLoadFromDiskJob.cpp:110-146 | Whoever counts down finds the counter positive |
| `AsyncLoading.MostUrgentFirst` | Private/IO/AsyncLoadFromDiskJob.cpp:110-163 | After every run the pending list is sorted, has each pending job once, and no pending job is more urgent than its last |
| `AsyncLoading.AttendedIffFewJobs` | Private/IO/AsyncLoadFromDiskJob.cpp:70-163 | For any set of jobs: in all their runs, somebody is busy (will still look at the list) whenever a job is pending, if and only if there are no more jobs than slots |
| `AsyncLoading.AttendedIffFewAtOnce` | Private/IO/AsyncLoadFromDiskJob.cpp:70-163 | The same for any number of jobs: in all runs with at most n jobs open at a time somebody is busy whenever a job is pending, if and only if n is not more than the number of slots |
| `AsyncLoading.StallingIsUnattended` | Private/IO/AsyncLoadFromDiskJob.cpp:73-87 | The run in which it fails: all slots are taken, one more job is turned away, all others end, and only then does it enter the list, where it stays |
| `AsyncLoading.FewJobsNeverWait` | Private/IO/AsyncLoadFromDiskJob.cpp:70-92 | With no more jobs than slots, no job is ever turned away or left in the list |
| `AsyncLoading.FewAtOnceNeverWait` | Private/IO/AsyncLoadFromDiskJob.cpp:70-92 | With never more open jobs than slots, no job is ever turned away or left in the list |
| `AsyncLoading.OnlyEnqueueIsLost` | Private/IO/AsyncLoadFromDiskJob.cpp:75-89 | A step loses the last busy job exactly when it enters the list while nobody else is busy |
| `AsyncLoading.UnattendedIsStuck` | Private/IO/AsyncLoadFromDiskJob.cpp:110-163 | Once jobs are pending and nobody is busy, the list does not change and nobody becomes busy until a new job is submitted; only callbacks are made |
| `AsyncLoading.CallbackTwiceAfterRead` | Private/IO/AsyncLoadFromDiskJob.cpp:735-764 | After every run: a job has called back twice exactly when it is done and its read ended without error, once when it is done otherwise or is between its two calls, and else not at all |
| `AsyncLoading.CallsTwice` | Private/IO/AsyncLoadFromDiskJob.cpp:743-757 | The run of a single job that calls back twice |
| `AsyncLoading.InsertedSorted` | Private/IO/AsyncLoadFromDiskJob.cpp:78-87 | Insertion at the upper bound keeps the list sorted |
| `AsyncLoading.BackIsMostUrgent` | Private/IO/AsyncLoadFromDiskJob.cpp:129-151 | In a sorted list no pending job is more urgent than the last |
| `AsyncLoading.LastInFirstOut` | Private/IO/AsyncLoadFromDiskJob.cpp:76-88 | A job enters behind all jobs of the same priority: of these it is taken out first |
| `AsyncLoading.RequeueKeeps` | Private/IO/AsyncLoadFromDiskJob.cpp:117-139 | Giving up a slot, entering the list and taking out the last keeps the invariant |
| `AsyncLoading.StepKeeps` | Private/IO/AsyncLoadFromDiskJob.cpp:384-433 | Every step of every job keeps the invariant |
| `AsyncOrder.TakenIsNext` | Private/IO/AsyncLoadFromDiskJob.cpp:110-163 | After every run, when any step takes a job out of the list, no job that still waits is more urgent, nor one that is as urgent and entered later |
| `AsyncOrder.TakesOutOne` | Private/IO/AsyncLoadFromDiskJob.cpp:117-151 | A job that ends or requeues itself takes out exactly one job if there is one; everybody else stays where he is |
| `AsyncOrder.TakesOutNone` | Private/IO/AsyncLoadFromDiskJob.cpp:144-163 | With nobody in the list, a job that ends changes nothing else |
| `AsyncOrder.EntersInTurn` | Private/IO/AsyncLoadFromDiskJob.cpp:78-87 | Insertion at the upper bound keeps the order by urgency and then by time of entry, latest first |
| `AsyncOrder.LetIn` | Private/IO/AsyncLoadFromDiskJob.cpp:70-75 | A new job gets a slot exactly if fewer than the maximum are counted; it is counted either way |
| `AsyncOrder.WaitsInList` | Private/IO/AsyncLoadFromDiskJob.cpp:75-89 | A job without a slot ends in the list, and the counter is what it was |
| `AsyncOrder.TriesAgain` | Private/IO/AsyncLoadFromDiskJob.cpp:110-141 | A job whose files run out gives its slot back, and waits in the list unless it goes first |
| `AsyncOrder.LifeOfAJob` | Private/IO/AsyncLoadFromDiskJob.cpp:384-433 | From every reachable state with a slot to spare, an undisturbed job gets it, reads, gives it back, calls back and is done; the counter ends as it began |
| `JobThreadTable.Table.IndexFromId` | Private/Threading/Jobs/JobManager.cpp:173-183 | Probing ends at the slot of the runner with the id, or at an empty slot if there is no such runner; all slots passed were taken |
| `JobThreadTable.Table.ProbeFor` | Private/Threading/Jobs/JobManager.cpp:175-180 | The loop ends at the first slot to stop at, if one is to come |
| `JobThreadTable.Table.Insert` | Private/Threading/Jobs/JobManager.cpp:132-137 | The table is the old map with one runner more |
| `JobThreadTable.Table.Fill` | Private/Threading/Jobs/JobManager.cpp:132-148 | After inserting runners with distinct ids in any order, each is found and nothing else is |
| `JobThreadTable.Table.Find` | Public/Common/Threading/Jobs/JobManager.h:67-70 | The lookup is that of a map from ids to runners |
| `JobThreadTable.Table.ProbeEnds` | Private/Threading/Jobs/JobManager.cpp:173-183 | Probing for an id reaches a slot to stop at if and only if the id is in the table or fewer runners than slots are |
| `JobThreadTable.Room` | Private/Threading/Jobs/JobManager.cpp:173-183 | Fewer runners than slots means exactly that a slot is empty |

## Left out

- Memory orders weaker than sequential consistency; all atomics here are sequentially consistent.
- Tags of the abandoned list that wrap around: tags are unbounded, so a wrap within one pop is not covered.
- The static area's top is unbounded too; 64-bit wrap-around of it is not covered.
- Statistics, debug fills, padding and canaries, cookies, encoded links, guard slices: they do not touch the state that the invariants speak of.
- Huge segments and very large alignments, `mi_heap_destroy`, `mi_arenas_unsafe_destroy`: special paths with rules of their own.
- Page queues within a heap, retiring, and moving pages to and from the full queue: which page a heap looks at first does not matter to the protocol.
- `mi_heap_delete` and `mi_heap_absorb`: pages that move from one heap to another. Each heap of the model keeps its pages until they are released or abandoned.
- The counters `abandoned_count`, `abandoned_visited_count` and `abandoned_visits`, and `right_page_reclaimed`: hints for how often to search.
- The dirty and committed bitmaps of an arena, and `purge_expire`: an arena purge may happen at any time here. The committed bits are no statement about the operating system, as they stay set after a failed commit.
- The search for a run in `ArenaProtocol` is a free choice of the range that is claimed next; the search itself is in `BitmapSearch`, without other threads.
- Freeing a span of no slices: `mi_segment_span_free` treats it as one slice, and no caller asks for it.
- Commit ranges finer than a slice: MI_COMMIT_SIZE and MI_MINIMAL_COMMIT_SIZE are the slice size, so rounding to them is the identity on whole slices.
- In `Segments` the queues are sequences; `SpanLinks` shows that the link updates do the same to all queues.
- SpanSearch.FindAndAllocate: `suitable` stands for the check of the arena a segment comes from.
- StaticArena.RangesAreApart: alignment is relative to the start of the static area, as in the source; that the area itself is aligned is up to the linker.
- Base64RoundTrips.UnpaddedDecodes, Base64RoundTrips.DecodeEncode: speak of text without padding; text that mixes alphabets is covered by the first only.
- PluginLoading.Application.LoadInfo: the exact result is stated for libraries that find each plugin under the guid its file says; otherwise only what follows from success.
- PluginLoading.Application.LoadAlone: the library of plugin files does not change during the load; assets loaded into the target database do not make further plugins known.
- PluginLoading.Application.LoadSelf: which assets and binaries are in memory afterwards is not recorded, only the order of the plugins and the result.
- DependencyDatabase.Walk.ComputeFull: assets of the engine and the project and the cached database are left out; the plugin of the context is registered from the start.
- AsyncLoading.AttendedIffFewJobs: whether a job that is busy is ever given time by the scheduler is not modelled.
- AsyncLoading.StepKeeps: priorities of queued jobs do not change.
- Operating system calls, file and directory access, logging, reflection, serialization and floating-point code.
