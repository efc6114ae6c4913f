# Verified models of kernel cache and registry components

A Dafny model of five parts of the ReactOS kernel that keep reference counts, intrusive lists and
lock-delimited state: the lazy writer's worker pool, the file cache built from fixed-size views
(VACBs) with pinned ranges (BCBs) on top, the registry key cache (KCBs), the ordering of boot
drivers, and two concurrent protocols (IRP cancellation and registry callback rundown).

`dafny verify dfyconfig.toml` checks everything.

## How it is modelled

- Concurrent protocols are state machines. Every critical section is one step, and a theorem about
  runs ranges over every interleaving of any number of threads (`LazyWriter`, `LazyScan`,
  `LazyActivity`, `IrpCancel`, `CallbackRundown`, `LockOrder`). `IrpOutcome`, `CallbackTraversal` and
  `KcbLaws` state what comes out of such runs: statuses, calls made, which blocks are freed or listed.
- Objects whose fields are updated in place are classes (`WorkerPool`, `Manager`, `PinManager`,
  `KeyCache`, `Allocator`). Each method states its new state as a function of the old one, or as a
  relation to it. The driver lists are linked rings of heap objects (`IntrusiveList`), and the lock
  arrays and name buffers are arrays.
- Maps from identities stand for memory: a view, BCB or KCB that is not in its map has been freed.
  Fields called history (`holders`, `users`, `handed`, `done`, `waited`) record what callers hold or
  did, and are not read by the code that is modelled.
- What the memory manager, the file system or the scheduler decides comes in as a parameter:
  residency of pages, success of writes, lock grants, addresses of new blocks.

## Properties of the code that fail, and exactly when

- A purge keeps the last view of its range when that view ends exactly at the end of the range
  (`CachePurge.BoundaryViewStays`, with the purge of 0 to the view size in `BoundaryExample`). A purge
  that fails has already dropped the dirty views before the one in use, so their unwritten bytes are
  in no dirty view any more; `FailedPurgeForgets` shows it and `PurgeCacheSection` states when it
  happens.
- Mapping or pinning an empty range at the start of a view can return the buffer of the view before
  it (`CachePin.EmptyRequestMisplaced`); `MapData` and `PinData` state exactly when.
- A caller of CcWaitForCurrentLazyWriterActivity is left on the post-tick queue, with no scan to come,
  if and only if ScanActive is set and no scan is before its collection (`LazyActivity.WaiterToldIff`,
  `LazyScan.WaiterLeftBehind`). Scans overlap, and then the first to end clears ScanActive under the other
  (`LazyScan.OverlapDropsFlag`).
- CcFlushCache keeps the hold of a dirty view whose write fails. `CacheFlush.FlushCache` states that
  a failed flush leaves the holds as they were, or one view held once more exactly when the chunk it
  stopped at has a dirty view; `CacheRun.LeakingFlush` is a run that does it.
- CcRosFlushDirtyPages need not end. `CacheTrim.FlushDirtyPages` states exactly when it does, in terms
  of what the locks and the writes answer, whichever way skipped, failing and successful attempts are
  mixed. A call that flushes everything, as a shutdown makes it, ends if and only if as many writes go
  through as views are dirty (`FlushAllEndsIff`); while another thread has a dirty file in lazy write it
  goes on for ever (`SkippedFlushAll`, `CacheRun.StuckFlushAll`). Another call ends when it reaches its
  target or has passed over every view still dirty since its last attempt to write, so failing writes
  keep it going (`FailingNeverEnds`).
- A callback that unregisters itself waits for its own caller and never returns, and neither do
  callbacks that unregister each other (`CallbackRundown.StuckForever`, `SelfUnregisters`); a wait can
  go on if and only if nobody is inside the callback (`WaitEndsIff`).
- The assertion of the trim fails exactly when a view is mapped and clean (`CacheTrim.TrimPass`).
  Nobody maps views through CcRosReleaseVacb, and then it holds (`UnmappedSound`, `CacheRun.Serve`).
- CmpGetNextName does not move on a path that starts with a NUL, so it then disagrees with
  CmpRemoveSubkeysInRemainingName (`KeyPath.RemoveIsNext`, `NulExample`).
- The comment on CmpBuildAndLockKcbArray speaks of 32 array elements; the array has 34 and holds
  up to 33 indices, which is what `KcbLocks.BuildAndLock` takes.

## Model

| member | source | states |
|---|---|---|
| LazyWriter.InitEstablishesInv | ntoskrnl/cc/cacheman.c:52-97 | all workers idle, no work: the pool invariant holds |
| LazyWriter.WorkerPool.constructor | ntoskrnl/cc/cacheman.c:52-97 | the pool starts with the configured number of workers, all idle |
| LazyWriter.WorkerPool.PostWorkQueue | ntoskrnl/cc/lazywrite.c:52-91 | the item goes behind the others of the queue asked for; the first idle worker is woken exactly when there is one and no throttle; the invariant is kept |
| LazyWriter.WorkerPool.WorkerPass | ntoskrnl/cc/lazywrite.c:265-348 | the worker goes idle exactly when there is no work or the next item is a SetDone and others are active, and then the throttle is on; else it has the oldest express item, or the oldest regular one; the throttle drops exactly after a SetDone |
| LazyWriter.StepKeepsInv | ntoskrnl/cc/lazywrite.c:234-348 | every step keeps: exact active count, queued work attended, throttle attended, every item in exactly one place |
| LazyWriter.EnabledStepExists | ntoskrnl/cc/lazywrite.c:234-348 | an enabled step always has a successor |
| LazyWriter.RunKeepsInv | ntoskrnl/cc/lazywrite.c:234-348 | the invariant in every state of every run |
| LazyWriter.SetDoneTakenWhenQuiet | ntoskrnl/cc/lazywrite.c:265-310 | a SetDone is taken only when no other worker handles anything |
| LazyWriter.SetDoneIsBarrier | ntoskrnl/cc/lazywrite.c:265-342 | in every run, when a SetDone is dequeued everything posted before it is handled to completion |
| LazyWriter.NothingStranded | ntoskrnl/cc/lazywrite.c:60-82 | in every reachable state active plus idle is the configured count, and queued work or a raised throttle has a worker that can step |
| LazyWriter.WorkerStepDecreases | ntoskrnl/cc/lazywrite.c:234-348 | every step of a worker reduces the work left by one |
| LazyWriter.WorkersTerminate | ntoskrnl/cc/lazywrite.c:234-348 | without new posts the workers take exactly the steps the measure says |
| LazyWriter.StoppedMeansDone | ntoskrnl/cc/lazywrite.c:344-348 | when no worker can step, the queues are empty, the throttle is off and everything posted is done |
| LazyWriter.PostExact | ntoskrnl/cc/lazywrite.c:60-82 | which queue, which end, whom a post wakes |
| LazyWriter.PassExact | ntoskrnl/cc/lazywrite.c:265-348 | when a pass retires the worker, when the throttle is on afterwards, and which item it takes |
| LazyWriter.ThrottleExact | ntoskrnl/cc/lazywrite.c:269-306 | the throttle goes up exactly where a SetDone has to wait and comes down only where a worker has handled one; while it is on no post wakes a worker and no step makes one more active |
| LazyWriter.ThrottledUntilDone | ntoskrnl/cc/lazywrite.c:297-306 | in every run, from the pass that leaves a SetDone waiting until a worker that has handled one takes the lock, the throttle is on and the active count does not grow |
| LazyWriter.DropsAfterSetDone | ntoskrnl/cc/lazywrite.c:324-327 | the worker that drops the throttle has handled a SetDone |
| LazyScan.StepKeepsInv | ntoskrnl/cc/lazywrite.c:145-232 | with any number of scans under way: ScanActive is set only while a scan is under way or to come, OtherWork says whether somebody waits, and every waiter is in exactly one place, in arrival order on the queue |
| LazyScan.RunKeepsInv | ntoskrnl/cc/lazywrite.c:145-361 | the same in every state of every run, with the scan a worker runs by itself and the timer set again under a scan |
| LazyScan.InitInv | ntoskrnl/cc/cacheman.c:52-97 | the start satisfies the invariant |
| LazyScan.CollectionTakesAll | ntoskrnl/cc/lazywrite.c:145-207 | in every run the first collection of any scan takes everybody who waited, and nobody is taken without one |
| LazyScan.ScansEnd | ntoskrnl/cc/lazywrite.c:145-232 | left to themselves the scans take exactly the steps the measure says |
| LazyScan.OwnStepExists | ntoskrnl/cc/lazywrite.c:145-232 | while the scans are not quiet one of them can step |
| LazyScan.QuietAfter | ntoskrnl/cc/lazywrite.c:145-232 | scans that went quiet have collected if and only if one of them was to collect |
| LazyScan.LeftBehindBy | ntoskrnl/cc/lazywrite.c:145-207 | whoever is left behind is so by a scan past its collection |
| LazyScan.WaiterServedIff | ntoskrnl/cc/lazywrite.c:375-414 | once the scans have gone quiet a waiter has been posted, with everybody else who waits, if and only if a scan was before its collection or ScanActive was clear; otherwise it is left on the queue |
| LazyScan.WaiterLeftBehind | ntoskrnl/cc/lazywrite.c:375-414 | a run from the start that ends with no scan and the waiter still queued |
| LazyScan.OverlapDropsFlag | ntoskrnl/cc/lazywrite.c:351-361 | a run from the start with a scan under way and ScanActive clear |
| LazyScan.NextCallServesAll | ntoskrnl/cc/lazywrite.c:210-232 | the next call that finds ScanActive clear brings everybody who waits back in |
| LazyScan.BringsScan | ntoskrnl/cc/lazywrite.c:196-232 | which calls bring a scan, and that one which ends with deferred writes left brings the next |
| LazyScan.CollectsQueue | ntoskrnl/cc/lazywrite.c:157-166 | a collection takes the queue as it stands |
| LazyScan.PostsInOrder | ntoskrnl/cc/lazywrite.c:187-193 | in every run a scan posts the waiters it collected in the order in which they came |
| LazyActivity.InitInv | ntoskrnl/cc/cacheman.c:52-97 | scans and workers at rest satisfy the joint invariant |
| LazyActivity.StepKeepsInv | ntoskrnl/cc/lazywrite.c:145-361 | every step of scans and workers together keeps: a waiter posted has an item of its own, behind the write-behind of its scan and behind the item of its scan |
| LazyActivity.RunKeepsInv | ntoskrnl/cc/lazywrite.c:145-361 | the same in every state of every run |
| LazyActivity.EventMeansWritten | ntoskrnl/cc/lazywrite.c:172-194 | in every run from the start, when a worker comes to set an event it is that of a waiter, the write-behind posted by the scan that collected it is done, and that scan is over if it was a work item |
| LazyActivity.ComesToRest | ntoskrnl/cc/lazywrite.c:145-348 | left to itself the lazy writer takes a bounded number of steps |
| LazyActivity.RestIsQuiet | ntoskrnl/cc/lazywrite.c:145-348 | where it stops every scan is over and everything posted is done |
| LazyActivity.WaiterToldIff | ntoskrnl/cc/lazywrite.c:375-414 | where it stops the event of a waiter has been set, as those of all who wait, if and only if a scan was before its collection or ScanActive was clear when it came |
| LazyActivity.ExpressIsReadAhead | ntoskrnl/cc/lazywrite.c:110-194 | in every run nothing but read-ahead is on the express queue |
| CacheManager.Manager.constructor | ntoskrnl/cc/view.c:1464-1500 | with no views the invariants hold and files show what is on the disk |
| CacheManager.RoundDown | ntoskrnl/cc/view.c:797-924 | the aligned offset at or below, less than a view away |
| VacbCache.ViewsDisjoint | ntoskrnl/cc/view.c:864-914 | two views of a file that share a byte are one view |
| VacbCache.MarkKeeps | ntoskrnl/cc/view.c:665-699 | marking a clean view keeps all counts, lists and totals, and no unwritten byte loses its dirty view |
| VacbCache.UnmarkKeeps | ntoskrnl/cc/view.c:701-733 | unmarking a dirty view keeps all counts, lists and totals |
| VacbCache.EvictKeeps | ntoskrnl/cc/view.c:1049-1094 | a view with one reference is clean, unmapped and unheld, so the assertions of the free routine hold and eviction loses no unwritten byte |
| VacbCache.InsertKeeps | ntoskrnl/cc/view.c:864-914 | linking a new view at its gap keeps the list strictly ascending and all invariants |
| VacbCache.FlushedKeeps | ntoskrnl/cc/view.c:1174-1193 | writing a range leaves no difference to the disk in it and changes no view |
| VacbCache.FlushViewKeeps | ntoskrnl/cc/view.c:161-204 | a successful flush leaves the view clean and written, a failed one dirty as before; invariants kept |
| CacheManager.BehindNothing | ntoskrnl/cc/view.c:639-657 | the early exit of the list walk misses nothing |
| CacheManager.GapFound | ntoskrnl/cc/view.c:864-914 | the insertion point found for any offset, aligned or not, is right for the rounded one |
| CacheManager.Manager.LookupVacb | ntoskrnl/cc/view.c:622-663 | finds and holds the covering view exactly when there is one |
| CacheManager.Manager.CreateVacb | ntoskrnl/cc/view.c:797-924 | yields the covering view, held, and links a new one exactly when there was none |
| CacheManager.Manager.LinkVacb | ntoskrnl/cc/view.c:905-924 | links the new view in order, with a hold for its creator |
| CacheManager.Manager.GetVacb | ntoskrnl/cc/view.c:973-1022 | the covering view, one more hold, last on the LRU list with the others in the order they had, nothing else changed |
| CacheManager.Manager.MarkDirtyVacb | ntoskrnl/cc/view.c:665-699 | new state exactly, last on the dirty list and on the LRU list, invariants kept |
| CacheManager.Manager.FlushVacb | ntoskrnl/cc/view.c:161-204 | new state exactly for success and failure, invariants kept |
| CacheManager.FailedFlushLast | ntoskrnl/cc/view.c:161-204 | a view whose write fails is last on the dirty list and on the LRU list |
| CacheManager.Manager.ReleaseVacb | ntoskrnl/cc/view.c:590-619 | gives back one hold, marks the view dirty or mapped as told, changes no other view and no data |
| CacheManager.Manager.AddMapping | ntoskrnl/cc/view.c:607-613 | the first mapping takes a reference; invariants kept |
| CacheManager.Manager.Unreference | ntoskrnl/cc/view.c:615-616 | a holder never gives up the last reference, so the assertion holds |
| CacheManager.Manager.FreeOneUnusedVacb | ntoskrnl/cc/view.c:736-793 | evicts the least recently used view without users, and fails only when every view is used |
| CacheTrim.TrimPass | ntoskrnl/cc/view.c:480-553 | evicts exactly the unused views, whatever the target, reports the smaller of target and pages freed, and its assertion holds if and only if no view is mapped and clean |
| CacheTrim.FlushDirtyPages | ntoskrnl/cc/view.c:307-453 | for every sequence of answers of the locks and the writes: the count is what the answers wrote, views that failed stay dirty, no unwritten byte is lost; it ends after the first answers with which everything, the target or every view still dirty is dealt with, and if there are none it does not end; less than one view beyond the target, and within a bound when nothing fails and not everything is asked for |
| CacheTrim.FlushAllEndsIff | ntoskrnl/cc/view.c:331-342 | a call that flushes everything ends if and only if as many writes go through as views are dirty |
| CacheTrim.SkippedFlushAll | ntoskrnl/cc/view.c:371-376 | it does not end over views that are only passed over |
| CacheTrim.FailingNeverEnds | ntoskrnl/cc/view.c:414-441 | no call with something to do ends while every write fails without a page |
| CacheTrim.TrimCache | ntoskrnl/cc/view.c:455-588 | frees every view nobody used and none that was held, reports at most the target and at most what it freed, loses no unwritten byte; exactly when it ends, and when its assertion holds |
| CacheTrim.TrimRest | ntoskrnl/cc/view.c:555-574 | the write-back for the rest of the target and the second walk, bounded by what was written; exactly when it ends |
| CacheTrim.UnmappedSound | ntoskrnl/cc/view.c:497-503 | while nobody maps views the assertion holds |
| CacheCopy.ReadChunk | ntoskrnl/cc/copy.c:515-556 | one chunk inside one view: what is at its place in the view is the bytes of the file, in the buffer if resident, holds as before |
| CacheCopy.CopyRead | ntoskrnl/cc/copy.c:486-557 | cut at view boundaries and read through the views, refines one flat read; a chunk that is not resident stops it with exactly the bytes before it copied |
| CacheCopy.WriteCovered | ntoskrnl/cc/copy.c:616-665 | bytes written before the view is marked dirty are in a dirty view once it is released |
| CacheCopy.WriteChunk | ntoskrnl/cc/copy.c:616-665 | one chunk written at its place in the view lands at its place in the file, the view dirty, holds as before |
| CacheCopy.CopyWrite | ntoskrnl/cc/copy.c:592-666 | cut at view boundaries and written through the views, refines one flat write; every byte that differs from the disk is in a dirty view |
| CacheFlush.LastChunk | ntoskrnl/cc/view.c:1203-1210 | the 64-bit sum overflows only in the last chunk, so giving up there skips nothing |
| CacheFlush.ChunkEnd | ntoskrnl/cc/view.c:1181-1190 | the two lengths handed to Mm both end at the chunk or the range, whichever is first |
| CacheFlush.WriteSegment | ntoskrnl/cc/view.c:1174-1196 | a chunk without a dirty view is on disk afterwards, nothing outside it changed, holds as before |
| CacheFlush.FlushChunk | ntoskrnl/cc/view.c:1150-1201 | one chunk is clean and on disk afterwards and nothing outside it changed; it fails exactly when its dirty view or its segment cannot be written, and leaves a hold taken exactly in the first case |
| CacheFlush.FlushNext | ntoskrnl/cc/view.c:1150-1211 | the chunk joins what is already clean without a gap, or the walk fails at it, for exactly the failing chunk |
| CacheFlush.FlushCache | ntoskrnl/cc/view.c:1096-1218 | terminates for every start and length; success if and only if no chunk fails, and then the disk holds the whole range and no overlapping view is dirty; on failure the chunks before are clean and a hold leaks exactly when a view write failed; the disk is untouched outside the rounded range |
| CachePurge.DiscardKeeps | ntoskrnl/cc/fs.c:240-262 | a view that passes the test of the purge is unheld and unmapped, and dropping it keeps every invariant |
| CachePurge.InUseIff | ntoskrnl/cc/fs.c:240-252 | the test of the purge fails exactly for views that somebody holds or that are mapped |
| CachePurge.PurgeExact | ntoskrnl/cc/fs.c:220-264 | the walk with its early exits drops exactly the views in range with none in use at or before them, and succeeds if and only if none in range is in use |
| CachePurge.BoundaryViewStays | ntoskrnl/cc/fs.c:232-238 | a view wholly in range stays if and only if it ends where the range ends |
| CachePurge.BoundaryExample | ntoskrnl/cc/fs.c:232-238 | purging exactly the bytes of one unused view leaves that view |
| CachePurge.PurgeCoveredIff | ntoskrnl/cc/fs.c:220-264 | after the walk every unwritten byte is in a dirty view if and only if no dropped view had one |
| CachePurge.RevertedCovered | ntoskrnl/cc/fs.c:282-285 | dropping views and pages together strands no unwritten byte outside the range |
| CachePurge.PurgeCacheSection | ntoskrnl/cc/fs.c:207-288 | the views left, the result, the data shown afterwards, and when unwritten bytes stay in dirty views |
| CachePurge.PurgedStays | ntoskrnl/cc/fs.c:240-262 | no held view is dropped |
| CachePurge.FailedPurgeForgets | ntoskrnl/cc/fs.c:247-252 | a state in which a failing purge leaves an unwritten byte in no dirty view |
| CachePin.PinManager.constructor | ntoskrnl/cc/view.c:1320 | files start without BCBs and the BCB invariant holds |
| CachePin.PinManager.FindBcb | ntoskrnl/cc/pin.c:36-68 | the first BCB in list order that contains the range and is pinned as asked, or none fits |
| CachePin.PinManager.Join | ntoskrnl/cc/pin.c:235-256 | one more user of a kind; RefCount stays the number of users and PinCount that of pins |
| CachePin.PinManager.Dereference | ntoskrnl/cc/pin.c:70-104 | one user less; the view is given back exactly when the last one goes, with PinCount 0 |
| CachePin.KindIs | ntoskrnl/cc/pin.c:583-601 | PinCount tells a mapping from a pin |
| CachePin.PinManager.Unpin | ntoskrnl/cc/pin.c:583-601 | the test on PinCount releases the kind of hold the caller has, mapped or pinned |
| CachePin.PinManager.RepinBcb | ntoskrnl/cc/pin.c:606-616 | one more repin |
| CachePin.PinManager.UnpinRepinned | ntoskrnl/cc/pin.c:621-680 | one repin less, whatever the write-through flush says; after a successful one the range of the BCB is on disk; the last user finds no pin to release |
| CachePin.PinManager.CreateBcb | ntoskrnl/cc/pin.c:127-207 | a new BCB for the range, last on the list of its file, owns one reference of the view that holds it |
| CachePin.PinManager.MapData | ntoskrnl/cc/pin.c:323-428 | a mapping of the range, or no trace when not resident; the buffer shows the byte asked for unless the request is empty at a view boundary and found in the view before |
| CachePin.PinManager.PinData | ntoskrnl/cc/pin.c:210-318 | when it succeeds, and the same for pins; every failure leaves the BCBs as they were |
| CachePin.PinManager.PinMappedData | ntoskrnl/cc/pin.c:433-473 | succeeds if and only if the file allows pinning, the range is resident and a fitting BCB grants or may be made; then the mapping turned into a pin of a BCB that holds the range, else nothing changes |
| CachePin.PinManager.SetDirtyPinnedData | ntoskrnl/cc/pin.c:547-566 | the view of the BCB is dirty, holds and data unchanged, unwritten bytes covered |
| CachePin.PinManager.WritePinned | ntoskrnl/cc/pin.c:547-566 | bytes written through a pinned buffer and set dirty are at their place in the file, and every unwritten byte is in a dirty view |
| CachePin.PinManager.ReadBuffer | ntoskrnl/cc/pin.c:323-428 | a read at its place in the buffer returns the bytes of the file |
| CachePin.OthersCovered | ntoskrnl/cc/pin.c:210-601 | mapping, pinning and unpinning leave every unwritten byte in a dirty view |
| CachePin.CacheKeeps | ntoskrnl/cc/pin.c:70-207 | whatever leaves held views in place keeps the BCB invariant |
| CachePin.EmptyRequestMisplaced | ntoskrnl/cc/pin.c:55-65 | a file of two views and a mapped BCB at the end of the first: an empty mapping at the second gets the buffer of the first |
| CacheRun.ServeCopy | ntoskrnl/cc/copy.c:486-666 | a read returns the flat bytes, a write changes just them |
| CacheRun.ServeWrites | ntoskrnl/cc/view.c:307-588 | a write-back or trim shows in no file and stores only what is shown; the assertion of the trim holds |
| CacheRun.ServeFlush | ntoskrnl/cc/view.c:1096-1218 | a flush, failing or not, shows in no file and stores only what is shown; success stores the range |
| CacheRun.ServePurge | ntoskrnl/cc/fs.c:207-288 | a purge that succeeds shows the disk again in the range, one that fails shows nothing |
| CacheRun.ServeFree | ntoskrnl/cc/view.c:736-793 | an eviction shows in no file |
| CacheRun.ServeOne | ntoskrnl/cc/copy.c:486-666 | one read, write, write-back, trim, eviction, flush or purge acts as on a flat file system and takes no held view away |
| CacheRun.Serve | ntoskrnl/cc/copy.c:486-666 | every sequence of these requests refines the flat file system: same answers, same contents, held views stay, the assertion of the trim holds, and no unwritten byte is outside a dirty view unless a purge failed |
| CacheRun.ServeAndFlush | ntoskrnl/cc/view.c:1096-1218 | after any run a flush that reports success leaves on the disk exactly the flat file |
| CacheRun.ServePinned | ntoskrnl/cc/pin.c:70-207 | the same under mapped and pinned ranges: the BCB invariant holds and every buffer stays a place in the same part of the file |
| CacheRun.LeakingFlush | ntoskrnl/cc/view.c:1150-1201 | a write to a new file and a failing flush leave the view held by nobody with a hold |
| CacheRun.StuckFlushAll | ntoskrnl/po/power.c:1106 | a write to a new file that others keep in lazy write: the flush of everything has not ended after any number of attempts |
| CacheClients.ServeRange | ntoskrnl/cc/pin.c:210-428 | mapping or pinning a range shows in no file; success opens a handle that stands for a user of the BCB |
| CacheClients.ServePinMapped | ntoskrnl/cc/pin.c:433-473 | the handle of a mapping turns into one of a pin, or nothing changes |
| CacheClients.ServeRelease | ntoskrnl/cc/pin.c:583-616 | unpinning closes a handle, repinning opens one; nothing shows |
| CacheClients.ServeReleaseAgain | ntoskrnl/cc/pin.c:621-680 | a repin is given up; write-through stores only what is shown |
| CacheClients.ServeBuffer | ntoskrnl/cc/pin.c:547-566 | a write through a pinned buffer is a flat write and a read through a buffer a flat read, exactly when the handle and its BCB allow it |
| CacheClients.ServePlain | ntoskrnl/cc/copy.c:486-666 | every request of the plain cache keeps BCBs and handles |
| CacheClients.ServeCall | ntoskrnl/cc/copy.c:486-666 | one call of either sort acts as on a flat file system and keeps every open handle backed by a user |
| CacheClients.ServeCalls | ntoskrnl/cc/pin.c:210-680 | every interleaving of reads, writes, write-backs, trims, evictions, flushes and purges with maps, pins, repins, unpins and accesses through buffers refines the flat file system; BCB invariant, handles and coverage of unwritten bytes are kept |
| CacheClients.ServeCallsAndFlush | ntoskrnl/cc/view.c:1096-1218 | after any such run a successful flush leaves exactly the flat file on the disk |
| KcbCache.Init | ntoskrnl/config/cmkcbncb.c:24-72 | the empty cache satisfies the invariant |
| KcbCache.ReferenceKeeps | ntoskrnl/config/cmkcbncb.c:355-427 | referencing fails exactly at the maximum count; a count of 0 leaves the delayed-close list; invariant kept |
| KcbLaws.ReferenceExact | ntoskrnl/config/cmkcbncb.c:355-427 | one more reference and holder, off the delayed-close list if it had none, nothing else changed |
| KcbCache.DelayDerefKeeps | ntoskrnl/config/cmdelay.c:284-331 | queueing a dereference moves the reference, the count stays exact |
| KcbLaws.DelayDerefExact | ntoskrnl/config/cmdelay.c:284-331 | a reference that is not the last is given up at once, the last is queued behind the others |
| KcbLaws.UnqueueExact | ntoskrnl/config/cmdelay.c:223-263 | the worker takes the oldest queued dereference |
| KcbLaws.DerefsAfter | ntoskrnl/config/cmdelay.c:284-331 | what a close queues goes behind what is queued |
| KcbCache.Dereference | ntoskrnl/config/cmkcbncb.c:604-637 | terminates up the parent chain; invariant kept |
| KcbLaws.DereferenceExact | ntoskrnl/config/cmkcbncb.c:604-637 | the last close frees the KCB exactly when it is deleted, marked against delayed close, or the flush is held back and it is no symbolic link, and otherwise puts it at the front of the delayed-close list; any other close takes one reference and nothing else |
| KcbCache.CleanUp | ntoskrnl/config/cmkcbncb.c:474-513 | frees the KCB and its reference on the parent, at once or delayed; terminates; invariant kept |
| KcbLaws.CleanUpExact | ntoskrnl/config/cmkcbncb.c:474-513 | under the exclusive lock exactly the chain of parents goes whose last reference this was and whose last close frees, and the first that stays loses one reference; otherwise only the KCB goes and the reference on its parent is given up or queued |
| KcbCache.DereferenceReleases | ntoskrnl/config/cmkcbncb.c:604-637 | exactly one reference is given up, no other holder notices, and what is freed had no other holder |
| KcbCache.CleanUpReleases | ntoskrnl/config/cmkcbncb.c:474-513 | the KCB is gone, no holder notices, and whatever else is freed had none |
| KcbCache.LookupExact | ntoskrnl/config/cmkcbncb.c:107-144 | the hash chain search finds exactly the live, undeleted KCB of the key |
| KcbCache.CreateKeeps | ntoskrnl/config/cmkcbncb.c:653-893 | never a second KCB for a key; one more holder; fails exactly on a full count or the depth limit, and then changes nothing; fake KCBs and frozen hives included |
| KcbLaws.CreateExact | ntoskrnl/config/cmkcbncb.c:744-870 | a KCB that was made has the key, parent, level and flags asked for, its parent one child and one reference more, and every other KCB, holder and queue is as before; of one that was found only the count, the close state and the two flags move |
| KcbCache.RefreshKeeps | ntoskrnl/config/cmkcbncb.c:765-775 | a fake KCB that becomes real, and the mark of a frozen hive, keep the invariant |
| KcbCache.MarkDeletedKeeps | ntoskrnl/config/cmapi.c:2400-2445 | marking a referenced KCB deleted takes it out of the hash table and keeps the invariant |
| KcbLaws.DeletedUnfound | ntoskrnl/config/cmapi.c:2400-2445 | a deleted key is found no more, and only its mark changed |
| KcbCache.DelistLeaves | ntoskrnl/config/cmdelay.c:423-474 | a KCB on the delayed-close list has no references, and leaving the list keeps the rest |
| KcbCache.UnqueueKeeps | ntoskrnl/config/cmdelay.c:223-263 | a queued dereference names a live KCB |
| KcbCache.HoldKeeps | ntoskrnl/config/cmlazy.c:135 | flipping CmpHoldLazyFlush at any time keeps the invariant |
| KcbCache.Apply | ntoskrnl/config/cmkcbncb.c:355-893 | every call, and every change of CmpHoldLazyFlush, keeps the invariant |
| KcbCache.ReachesInv | ntoskrnl/config/cmkcbncb.c:355-893 | every run of calls from a good state ends in one |
| KcbCache.RunExact | ntoskrnl/config/cmkcbncb.c:355-893 | after every run from the empty cache, CmpHoldLazyFlush flipping at will: RefCount is holders plus children plus queued dereferences, parents outlive children, count 0 exactly on the delayed-close list, whose length is the counter |
| KcbLaws.StepLawful | ntoskrnl/config/cmkcbncb.c:355-893 | every call: entries come in at the front of the delayed-close list only, and live KCBs keep key, parent, level and link |
| KcbLaws.RunOrderly | ntoskrnl/config/cmkcbncb.c:622-635 | in every run no deleted KCB, and none marked against it, is on the delayed-close list |
| KcbLaws.OldestLast | ntoskrnl/config/cmdelay.c:395-420 | in every run the delayed-close list is in the order of closing, so the worker expels the oldest |
| KcbLaws.ExpelsLast | ntoskrnl/config/cmdelay.c:126-132 | the worker for delayed closes takes the last entry of the list |
| KcbCache.FreedOnlyUnused | ntoskrnl/config/cmkcbncb.c:474-637 | a step frees a KCB only when nobody but its own caller held it |
| KcbCache.KeyCache.constructor | ntoskrnl/config/cmkcbncb.c:24-72 | starts empty with the invariant |
| KcbCache.KeyCache.SetHoldLazyFlush | ntoskrnl/config/cmlazy.c:446-450 | only the flag changes |
| KcbCache.KeyCache.Ref | ntoskrnl/config/cmkcbncb.c:355-427 | new state exactly, result false exactly at the maximum count |
| KcbCache.KeyCache.DelayDereference | ntoskrnl/config/cmdelay.c:284-331 | new state exactly |
| KcbCache.KeyCache.Deref | ntoskrnl/config/cmkcbncb.c:604-637 | new state exactly, recursion up the parents included |
| KcbCache.KeyCache.CleanUpKcb | ntoskrnl/config/cmkcbncb.c:474-513 | new state exactly |
| KcbCache.KeyCache.RemoveKeyHash | ntoskrnl/config/cmkcbncb.c:76-105 | the chain walk always finds the entry and takes out just it |
| KcbCache.KeyCache.FindKeyHash | ntoskrnl/config/cmkcbncb.c:107-144 | the loop computes the lookup |
| KcbCache.KeyCache.CreateKcb | ntoskrnl/config/cmkcbncb.c:653-893 | result and new state exactly |
| KcbCache.KeyCache.InsertKcb | ntoskrnl/config/cmkcbncb.c:140-143 | the new KCB at the front of its chain, new state exactly |
| KcbCache.KeyCache.RefreshFound | ntoskrnl/config/cmkcbncb.c:765-870 | the flags of a KCB that was found, new state exactly |
| KcbCache.KeyCache.DerefWorker | ntoskrnl/config/cmdelay.c:223-263 | terminates with the queue empty although it may queue parents; frees only what nobody holds |
| KcbCache.KeyCache.ExpelOldest | ntoskrnl/config/cmdelay.c:53-186 | the oldest entry leaves the list and is freed, nothing held is |
| KcbCache.KeyCache.CloseWorker | ntoskrnl/config/cmdelay.c:53-186 | expels exactly the oldest entries over the limit, at most a quarter of the table, each freed and unheld |
| KcbLocks.AscendingUnique | ntoskrnl/config/cmkcbncb.c:1209-1254 | the ascending list of a set of indices is unique |
| KcbLocks.Exchange | ntoskrnl/config/cmkcbncb.c:1225-1230 | the two entries change places, no other moves |
| KcbLocks.Sweep | ntoskrnl/config/cmkcbncb.c:1221-1232 | entry i becomes the least of the rest, same members |
| KcbLocks.CloseUp | ntoskrnl/config/cmkcbncb.c:1241-1244 | the entries from j on move down by one |
| KcbLocks.DropEqual | ntoskrnl/config/cmkcbncb.c:1237-1249 | one of two equal entries goes, same members, still sorted |
| KcbLocks.Compact | ntoskrnl/config/cmkcbncb.c:1237-1249 | nothing behind entry i equals it, same members, still sorted |
| KcbLocks.SortKcbArray | ntoskrnl/config/cmkcbncb.c:1209-1254 | strictly ascending, same set of indices |
| KcbLocks.CollectedFits | ntoskrnl/config/cmparse.c:1813-1836 | the entries fit the array unless a path of full depth is all matched and has a parent; under the guards of both callers they fit |
| KcbLocks.BuildAndLock | ntoskrnl/config/cmkcbncb.c:1300-1364 | locks exactly the buckets of the KCB, the stack and perhaps the parent, each once, in ascending order |
| KcbLocks.LockKcbArray | ntoskrnl/config/cmkcbncb.c:1175-1195 | acquires in array order |
| KcbLocks.UnLockKcbArray | ntoskrnl/config/cmkcbncb.c:1143-1156 | releases in reverse order |
| KcbLocks.TwoKcbLocks | ntoskrnl/config/cmsysini.c:2077-2142 | both buckets once, ascending, released in reverse |
| LockOrder.StartInv | ntoskrnl/config/cmkcbncb.c:1175-1195 | with no threads the invariant holds |
| LockOrder.StepKeepsInv | ntoskrnl/config/cmkcbncb.c:1175-1195 | threads with ascending plans keep mutual exclusion and distinct arrival times |
| LockOrder.RunKeepsInv | ntoskrnl/config/cmkcbncb.c:1175-1195 | the same over every run |
| LockOrder.BlockerAhead | ntoskrnl/config/cmkcbncb.c:1197-1206 | who blocks a waiter goes on, or waits for a higher lock, or came first |
| LockOrder.NoCycle | ntoskrnl/config/cmkcbncb.c:1197-1206 | no wait-for cycle of any length |
| LockOrder.RunHasNoCycle | ntoskrnl/config/cmkcbncb.c:1197-1206 | in every run from the start no wait-for cycle of any length, and an exclusive lock has one holder |
| LockOrder.SomebodyGoes | ntoskrnl/config/cmkcbncb.c:1197-1206 | while a thread is not done, some thread has an enabled step |
| LockOrder.StepShrinks | ntoskrnl/config/cmkcbncb.c:1143-1195 | every step of a thread reduces the work left by one |
| LockOrder.EverybodyServed | ntoskrnl/config/cmkcbncb.c:1143-1195 | without new requests every run is bounded, and where it stops all threads have had their locks and hold none |
| LockOrder.GrantIff | ntoskrnl/config/cmkcbncb.c:1175-1195 | a waiter gets its lock exactly when no holder excludes it and nobody came before: shared holders do not exclude each other |
| LockOrder.UpThenDown | ntoskrnl/config/cmkcbncb.c:1143-1195 | a thread takes its locks from the lowest up and gives them back from the highest down |
| LockOrder.BeginExact | ntoskrnl/config/cmkcbncb.c:1175-1195 | a request is kept as it was made |
| KeyPath.ComponentsProper | ntoskrnl/config/cmparse.c:19-71 | names are never empty and hold no separator |
| KeyPath.GetNextName | ntoskrnl/config/cmparse.c:19-71 | the loops compute the next name, the rest, last and valid |
| KeyPath.NthName | ntoskrnl/config/cmparse.c:19-71 | call n yields component n of the path |
| KeyPath.NthFlags | ntoskrnl/config/cmparse.c:62-70 | valid exactly for names of at most 256 characters, last exactly for the final name with no separator behind it |
| KeyPath.CreateKey | ntoskrnl/config/cmkcbncb.c:679-709 | the hash loop computes the key of the KCB created under a parent |
| KeyPath.CreationIsHash | ntoskrnl/config/cmkcbncb.c:693-709 | for a proper name the creation key is the plain rolling hash |
| KeyPath.HashIsNumber | ntoskrnl/config/cmkcbncb.c:693-709 | the rolling hash is the name read as a number to the base 37 behind the key it starts from, on 32 bits |
| KeyPath.ComputeHashValue | ntoskrnl/config/cmparse.c:1139-1255 | one pass over any path yields the first 32 components in order, entry i with the key of KCBs created for components 0..i one under another, and the total; and exactly when its assertion holds |
| KeyPath.TrailingSeparator | ntoskrnl/config/cmparse.c:1875-1882 | a separator at the end adds no name |
| KeyPath.ParsePath | ntoskrnl/config/cmparse.c:1875-1882 | separators at the end go, the names stay, and so the assertion in CmpComputeHashValue holds on every path it gets |
| KeyPath.RemoveSubkeys | ntoskrnl/config/cmparse.c:1359-1393 | the first k + 1 components and the separators around them are gone |
| KeyPath.RemoveIsNext | ntoskrnl/config/cmparse.c:1359-1393 | the same path, up to leading separators, as k + 1 calls of CmpGetNextName, if and only if the path does not start with a NUL |
| KeyPath.NulExample | ntoskrnl/config/cmparse.c:1359-1393 | on the path of one NUL the two differ |
| NameInfo.CountName | ntoskrnl/config/cmapi.c:1527-1541 | the loop counts the bytes of the full name |
| NameInfo.FillOne | ntoskrnl/config/cmapi.c:1568-1591 | one name and the separator before it, nothing else touched |
| NameInfo.FillName | ntoskrnl/config/cmapi.c:1560-1605 | the back-to-front loop fills the root-to-leaf name and nothing beyond |
| NameInfo.QueryNameInformation | ntoskrnl/config/cmapi.c:1516-1609 | counted length, the two error cases, and the back-to-front fill equal to the root-to-leaf name, nothing beyond it touched |
| NameInfo.SplitFullName | ntoskrnl/config/cmapi.c:1560-1605 | splitting the full name gives the names back if and only if all are non-empty and without separator |
| NameInfo.NamesReadBack | ntoskrnl/config/cmparse.c:19-71 | call n of CmpGetNextName on the full name yields the n-th key from the root |
| SlotAllocator.FullPage | ntoskrnl/config/cmalloc.c:84-88 | FreeCount reaches the page capacity exactly when nobody has a slot of the page |
| SlotAllocator.Allocator.constructor | ntoskrnl/config/cmalloc.c:25-49 | starts with no page |
| SlotAllocator.Allocator.CutPage | ntoskrnl/config/cmalloc.c:151-172 | all slots of a new page linked in order |
| SlotAllocator.Allocator.Allocate | ntoskrnl/config/cmalloc.c:108-246 | a slot nobody has, from the head of the list or a new page; none exactly when the list is empty and no page is to be had |
| SlotAllocator.Allocator.Free | ntoskrnl/config/cmalloc.c:51-106 | the page is released exactly when nobody has another slot of it, and none of its slots stays linked; otherwise the slot goes to the end of the list |
| SlotAllocator.Allocator.AllocateBlock | ntoskrnl/config/cmalloc.c:108-246 | a slot nobody has, else a block of the pool, else nothing, exactly when |
| SlotAllocator.Allocator.FreeBlock | ntoskrnl/config/cmalloc.c:51-106 | a slot goes back to its page, a block of the pool to the pool |
| IntrusiveList.Unlink | ntoskrnl/config/cmboot.c:992-993 | RemoveEntryList joins the neighbours; a self-linked entry stays self-linked |
| IntrusiveList.RemoveEntry | ntoskrnl/config/cmboot.c:992-993 | takes exactly the entry out of its ring |
| IntrusiveList.InsertBefore | ntoskrnl/config/cmboot.c:1005-1006 | links the entry at that place of the ring |
| IntrusiveList.InsertHead | ntoskrnl/config/cmboot.c:869-871 | links the entry at the head of the ring |
| BootOrder.RelinkProgress | ntoskrnl/config/cmboot.c:979-1010 | one relinking removes an inversion, or keeps their number and brings the first descent forward |
| BootOrder.FindSpot | ntoskrnl/config/cmboot.c:995-1003 | the backward walk stops at the first tag not larger, or at the start |
| BootOrder.Relink | ntoskrnl/config/cmboot.c:992-1006 | the node moves in front of the spot, the ring otherwise unchanged |
| BootOrder.OrderRound | ntoskrnl/config/cmboot.c:968-1011 | a round advances over an ascending segment or makes progress |
| BootOrder.OrderGroup | ntoskrnl/config/cmboot.c:953-1015 | terminates; the segment is a permutation sorted by tag; all other nodes stay |
| BootOrder.PullGroup | ntoskrnl/config/cmboot.c:853-877 | one pass moves the drivers of a group to the front, reversed, the others in order behind |
| BootOrder.PullOrders | ntoskrnl/config/cmboot.c:826-881 | a pass for the group in front extends the group order |
| BootOrder.DoSort | ntoskrnl/config/cmboot.c:826-881 | a permutation ordered by first place of the group in the order list, unlisted drivers last and in order |
| BootOrder.FindRunEnd | ntoskrnl/config/cmboot.c:1040-1068 | the last node of the run of equal groups |
| BootOrder.ResolveDependencies | ntoskrnl/config/cmboot.c:1028-1076 | a permutation with every maximal run sorted by tag in place |
| BootOrder.SortsCompose | ntoskrnl/config/cmboot.c:1028-1076 | group order followed by run order is the boot order |
| BootOrder.SortDrivers | ntoskrnl/config/cmboot.c:826-1076 | listed groups first, by group order then tag; every run of an unlisted group sorted in place |
| IrpCancel.StepKeepsInv | media/doc/irp cancel boilerplate.c:10-103 | every step keeps: one lock holder, queue and links agree, exactly one party is in charge of an IRP |
| IrpCancel.RunKeepsInv | media/doc/irp cancel boilerplate.c:10-103 | the same in every state of every run |
| IrpCancel.CompletedOnce | media/doc/irp cancel boilerplate.c:10-103 | an IRP is completed at most once, exactly once at rest, never on the queue |
| IrpOutcome.FateStep | media/doc/irp cancel boilerplate.c:10-103 | whoever takes the cancel routine settles the status, and nothing else changes it |
| IrpOutcome.StatusTold | media/doc/irp cancel boilerplate.c:10-103 | in every run an IRP is completed as a success if and only if a dequeue took its cancel routine, and as cancelled if and only if a canceller, or the queueing thread that saw the flag, took it |
| IrpOutcome.FirstQueuedFirst | media/doc/irp cancel boilerplate.c:33-103 | in every run IRPs are dequeued in the order in which they were queued |
| IrpOutcome.CancelledIsNoticed | media/doc/irp cancel boilerplate.c:33-62 | in every run an IRP on the queue that was cancelled, before or after it was queued, has a canceller on its way |
| IrpCancel.LateRemovalHarmless | media/doc/irp cancel boilerplate.c:10-103 | the late RemoveEntryList of the cancel routine never changes the queue; a timely one takes out just its IRP |
| CallbackRundown.StepKeepsInv | ntoskrnl/config/cmhook.c:58-198 | every step keeps: exact rundown counts, live callbacks listed, one unregistration at a time per callback |
| CallbackRundown.RunKeepsInv | ntoskrnl/config/cmhook.c:58-198 | the same in every state of every run |
| CallbackRundown.NothingDangles | ntoskrnl/config/cmhook.c:58-101 | no freed callback is touched, and a traverser's next link is a live list entry |
| CallbackRundown.NeverRunsAgain | ntoskrnl/config/cmhook.c:149-198 | once freed by CmUnRegisterCallback a callback is not running and never runs again |
| CallbackTraversal.TracedStep | ntoskrnl/config/cmhook.c:58-101 | every step keeps: entries are passed in list order, none before the one in hand is left out, and one passed without a call is pending deletion |
| CallbackTraversal.CalledUnlessDeleted | ntoskrnl/config/cmhook.c:73-78 | in every run a traversal calls an entry it comes to if and only if that is not pending deletion |
| CallbackTraversal.TraversalEnds | ntoskrnl/config/cmhook.c:58-101 | in every run a traversal ends early if and only if a call failed, which was its last; one that ends otherwise has called every entry on the list that is not pending deletion; always in list order, each once |
| CallbackTraversal.BeginsAtHead | ntoskrnl/config/cmhook.c:69-71 | a traversal begins at the head of the list |
| CallbackTraversal.GoesOn | ntoskrnl/config/cmhook.c:86-97 | after a failed call the traversal ends, after a successful one it goes on to the next entry then on the list |
| CallbackRundown.RegisterExact | ntoskrnl/config/cmhook.c:126-142 | a new callback goes to the end of the list |
| CallbackRundown.UnregisterExact | ntoskrnl/config/cmhook.c:149-198 | an unregistration marks its callback if that is on the list and not pending deletion, and does nothing otherwise |
| CallbackRundown.UnregisterGoesOn | ntoskrnl/config/cmhook.c:173-185 | it goes on, waiting only for callers and the lock, until the callback is off the list and freed |
| CallbackRundown.WaitEndsIff | ntoskrnl/config/cmhook.c:173-178 | a waiting unregistration can go on if and only if nobody is inside its callback |
| CallbackRundown.SelfStuck | ntoskrnl/config/cmhook.c:173-178 | a callback that unregisters itself waits for itself |
| CallbackRundown.StuckForever | ntoskrnl/config/cmhook.c:173-178 | unregistrations called from callbacks that wait for one another never go on, whatever other threads do |
| CallbackRundown.SelfUnregisters | ntoskrnl/config/cmhook.c:173-178 | a run from the start that gets there |

## Left out

- The second cache manager under ntoskrnl/cache, which would repeat the model of ntoskrnl/cc.
- Allocation failures and raised exceptions, apart from the page allocation of the slot allocators.
- The race branch of CcpGetAppropriateBcb: with atomic calls no BCB appears in between.
- Calls of the file cache, the pin functions and the key cache are atomic; the window in CmpReferenceKeyControlBlock between the shared and the exclusive bucket lock is not modelled.
- CcRosDeleteFileCache, CcRosReleaseFileCache and CcSetFileSizes: files stay open and keep their size.
- Valid data length updates, write-through of CcCopyWrite and the FileOffset-less form of CcFlushCache.
- CcZeroData, CcCanIWrite and deferred writes, and read-ahead.
- CachePurge.PurgeCacheSection: uninitialising the private cache maps is not modelled; views are freed as they are unlinked, not in a second loop.
- KeyPath.ComputeHashValue: the length fields are unbounded; the 16-bit length of a counted string cannot overflow in them.
- LockOrder.EverybodyServed: waiters of a push lock are served in arrival order, which is the strictest order a push lock may use.
- BootOrder.SortDrivers: group names are compared after upper-casing, as equal strings; reading the order list from the hive is not modelled. A name found by the backward scan is never empty, so drivers without a group count as unlisted.
- Name control blocks, value caches, key bodies and security cells of the registry.
- Hive cells, symbolic links and the lookup loop of CmpLookInCache.
