# Evas: the cache server, the image cache, the canvas

A Dafny model of the stateful parts of Evas where a step taken too early, twice or not at
all does damage, with proofs of what they keep. `dafny verify dfyconfig.toml` checks it.

- **The request scheduler of cserve2** (`Lists`, `RequestTable`, `RequestOps`, `Scheduler`,
  `Runs`, `Settling`, `RequestServer`). Requests with waiters, dependencies and flags wait in
  queues by type and are handed to bounded pools of slaves. They are kept as a map from
  handles to records, so that freeing one and dangling pointers are explicit. What slaves,
  clients and the system do comes as events; `Env` says which slaves can be spawned and which
  messages built during a pass.
- **The preloader** (`PreloadPool`, `PreloadThreads`). One atomic step for each critical
  section; runs are arbitrary interleavings of the main thread and the workers.
- **The image cache** (`ImageEntries`, `ImageOps`, `ImageRuns`, `ImageSafety`,
  `ImageReferences`, `ImageTargets`, `ImageCache`). Dirty list, active and inactive hash, LRU,
  references, memory accounting, deferred deletion and copy on write. Decoding, the file's
  time stamp and the success of a copy are parameters.
- **Canvas callbacks** (`CallbackList`, `CanvasCallbacks`). A callback is an arbitrary
  script of adds, deletes and further calls, nested to any depth.
- **Clipping** (`ClipGeometry`, `ClipDirty`, `ClipTree`). Objects on the heap with links to
  their clipper and clipees, a dirty flag and a cached clip.
- **Framing** (`Bytes`, `Framing`, `CommandLink`, `ReplyLink`, `ClientLink`, `FrameChannel`).
  The two pipes between the server and a slave process, whose descriptors take and give any
  part of what is asked for: commands go down, replies come up; and a client's messages.
- **The font debug message** (`FontDebug`, `FontDebugMessage`). Printer and parser.
- **The glyph cache** (`GlyphPacking`, `GlyphCache`, `GlyphRequests`, `GlyphRuns`,
  `GlyphPins`, `GlyphLeaks`, `GlyphFlush`, `GlyphWaiting`, `GlyphFonts`, `GlyphHeap`,
  `GlyphDoubles`, `GlyphSound`, `GlyphHome`, `GlyphHarm`, `GlyphStrays`, `GlyphSafety`,
  `GlyphServer`). Packing by the font slave, pins of pending answers, eviction under a budget,
  and the glyph entries on the heap, each with its own name: an entry that is freed while a
  list has it is recorded as harmed, and reading it is taken to give what it held. It is the
  build with DEBUG_LOAD_TIME: `_glyphs_load_request_prepare` is called only there
  (src/bin/evas_cserve2_cache.c:1415-1418), and without it nothing is ever rendered.
- **Premultiplication** (`Premul`). Packed arithmetic of 32-bit words, with the machine's
  wrap-around written out.

In each part functions on values say what an operation does, lemmas say what that means,
and a class has the code with its fields, loops and order of updates, proved equal to the
functions.

Where the code does not do what its surroundings expect, the model follows the code, a
lemma gives the case, and another the exact condition:

- a waiter attached to a cancelled request is lost: `LateWaiterIsLost`, `RepliesAddUpIff`;
- a slave that dies idle stays listed: `FreedIsUnlistedIff`;
- a referenced image is freed under its holder: `DirtiedWhileCancelledIsFreed`, reached by
  `CancelledStateIsReached`, `ReferencedLeavesIff`;
- somebody waits for an image without a job: `StepAttendedIff`;
- a load divides by an average of no glyphs: `LowAverageFails`, `LoadFailsIff`;
- pins are left behind: `UsedIsNeverEvicted`, `FailedIsNeverEvicted`, `RunExactIff`;
- a glyph entry is freed while a list has it: `AskedTwiceIsHarmed`, `EntriesAreSafeIff`;
- a request's font entry is freed: `GoneInTheSlave`, `WaitingFontGoes`, `RequestFindsFontIff`;
- the debug message is misread when a counter is wrong: `DebugRoundTrip`; in every run of the
  glyph cache it is right (`EveryRun`).

The early return of the dirty walk would miss objects in a dirty set that is not closed
(`OpenSetMisses`, `WalkReachesAllIff`). The modelled calls never leave such a set: it is part
of `ClipTree.Valid` that it is closed, and every one of them keeps that.

## Model

| member | source | states |
|---|---|---|
| `Runs.ExactlyOneReply` | src/bin/evas_cserve2_requests.c:103-409 | In every run that attaches waiters only to requests not cancelled, replies sent to a waiter plus its live attachments equal the times it was attached; with no request left, each attachment got exactly one reply, however the request ended. |
| `Runs.RunLedger` | src/bin/evas_cserve2_requests.c:103-560 | The general ledger of every run: replies plus attachments plus losses equal the initial ones plus those attached; replies are never taken back. |
| `Runs.StepLedger` | src/bin/evas_cserve2_requests.c:103-560 | One event changes the ledger of a waiter by what it attaches and loses, and only extends the replies. |
| `Runs.RepliesAddUpIff` | src/bin/evas_cserve2_requests.c:103-409 | The exact condition over every run: replies and live attachments add up for every waiter if and only if no answer in the run ends a cancelled request that somebody waits for. |
| `Runs.RunLosesIff` | src/bin/evas_cserve2_requests.c:103-409 | From any state, a run leaves some waiter without reply if and only if such an answer is in it. |
| `Runs.AnswerLosesIff` | src/bin/evas_cserve2_requests.c:328-395 | A slave answer leaves a waiter without reply if and only if its request was cancelled and somebody waits for it. |
| `Runs.LateWaiterIsLost` | src/bin/evas_cserve2_requests.c:117-179 | Counterexample: a client that attaches to a request already cancelled for everybody is never answered. |
| `Runs.RunLosesNone` | src/bin/evas_cserve2_requests.c:213-289 | Under that rule no run ever loses a waiter, since a cancelled request has none. |
| `Runs.Step` | src/bin/evas_cserve2_requests.c:103-560 | Every event keeps the whole structure: one queue of its own type for each live request, locked iff dependent iff once among the dependents, working slaves and processing requests in bijection, pools within their limits. |
| `Runs.DiedOutcome` | src/bin/evas_cserve2_requests.c:398-409 | The death of a busy slave: its request goes with exactly what depends on it, the slave is in no list any more, and the other slaves keep their requests. |
| `Runs.FreedIsUnlistedIff` | src/bin/evas_cserve2_requests.c:398-409 | Exact condition: the freed record of a dead slave is in no list if and only if it was busy; an idle one stays in the idle list. |
| `Runs.ReturnedOutcome` | src/bin/evas_cserve2_requests.c:328-395 | After an answer exactly the request of the slave is gone, and the slave works no more and is idle in its pool; the other slaves keep their requests. |
| `RequestTable.CancelAll` | src/bin/evas_cserve2_requests.c:256-289 | Exactly the request and all that transitively depends on it go, or it is only marked when in hand; queues lose exactly those and every other request is unchanged; the mutual recursion ends. |
| `RequestTable.CancelDependents` | src/bin/evas_cserve2_requests.c:198-210 | Exactly the transitive dependents go; the request itself is left without dependents. |
| `RequestTable.CancelAllLedger` | src/bin/evas_cserve2_requests.c:256-289 | Cancelling answers every waiter it removes, all of them with the given error. |
| `RequestTable.CancelDependentsLedger` | src/bin/evas_cserve2_requests.c:198-210 | So does cancelling the dependents alone. |
| `RequestTable.FailInHand` | src/bin/evas_cserve2_requests.c:306-325 | A failed request goes with all its dependents, and nothing else changes. |
| `RequestTable.FailInHandLedger` | src/bin/evas_cserve2_requests.c:306-325 | Every waiter of a failed request and of its dependents is answered with the error. |
| `RequestTable.Retire` | src/bin/evas_cserve2_requests.c:371-392 | After an answer the request alone goes; its dependents are unlocked and keep their place. |
| `RequestTable.FinishLedger` | src/bin/evas_cserve2_requests.c:328-395 | An answer reaches all waiters unless the request was cancelled, when exactly its waiters are lost. |
| `RequestTable.UnderRank` | src/bin/evas_cserve2_requests.c:160-165 | A chain of dependencies rises in request type, so it has no cycle and everything below a request is locked. |
| `RequestOps.Find` | src/bin/evas_cserve2_requests.c:124-144 | The search finds a live request of this type for this data if there is one. |
| `RequestOps.ObtainOnce` | src/bin/evas_cserve2_requests.c:117-173 | A new request is queued last, and only when no live request has the data; otherwise the one there is used; no other request but the dependency changes. |
| `RequestOps.Obtain` | src/bin/evas_cserve2_requests.c:117-173 | Adding keeps the structure, and a request given a dependency is locked. |
| `RequestOps.TypeSetCore` | src/bin/evas_cserve2_requests.c:182-195 | Changing the type of a waiting request moves it between queues and keeps the structure. |
| `RequestOps.CancelForOutcome` | src/bin/evas_cserve2_requests.c:213-253 | Cancelling for one client: others waiting, only its waiters go; none left, a request in hand is marked cancelled and a waiting one goes with its dependents; its waiters are answered in order. |
| `RequestOps.CancelForLedger` | src/bin/evas_cserve2_requests.c:213-253 | Nobody is lost by it, and all replies sent carry the error. |
| `Scheduler.ProcessSettles` | src/bin/evas_cserve2_requests.c:485-560 | Work conservation: after a pass every unlocked request still waiting waits for a full pool, and no request became unlocked or was added to a queue. |
| `Settling.WorkConserving` | src/bin/evas_cserve2_requests.c:103-560 | Over every run: unless a slave has died or a request has changed its type since the last pass, every unlocked request that waits has its pool at the limit. |
| `Settling.StepSettles` | src/bin/evas_cserve2_requests.c:103-560 | Additions and answers settle all queues, and no other event but these two unsettles one. |
| `Scheduler.NoPriorityInversion` | src/bin/evas_cserve2_requests.c:34-65 | A pass starts speculative loads only when no unlocked open or load waits, and leaves an image slave free. |
| `Scheduler.SweepFifo` | src/bin/evas_cserve2_requests.c:521-558 | Unlocked requests of a type leave their queue in order, first come first served; the locked ones keep their places. |
| `Scheduler.SweepBound` | src/bin/evas_cserve2_requests.c:439-560 | A queue starts requests only below its limit, never goes over it, and touches only its own pool and queue. |
| `Scheduler.SweepSettles` | src/bin/evas_cserve2_requests.c:521-558 | One queue is served until it has only locked requests or its pool is full. |
| `Scheduler.DispatchEffect` | src/bin/evas_cserve2_requests.c:532-557 | A dispatched request is processing on one more slave, or has failed with its dependents. |
| `Scheduler.Fail` | src/bin/evas_cserve2_requests.c:540-554 | A failed dispatch removes exactly the request and its dependents from heap and queues. |
| `Scheduler.ProcessFromLedger` | src/bin/evas_cserve2_requests.c:485-560 | A pass loses no waiter; every reply it sends is the error of a failed dispatch. |
| `RequestServer.Server.AnswerWaiters` | src/bin/evas_cserve2_requests.c:306-317 | Answers the waiters in order. In place, and equal to the specified step. |
| `RequestServer.Server.DependentsCancel` | src/bin/evas_cserve2_requests.c:198-210 | The loop over the dependents. In place, and equal to the specified step. |
| `RequestServer.Server.CancelEvery` | src/bin/evas_cserve2_requests.c:256-289 | The recursive cancel. In place, and equal to the specified step. |
| `RequestServer.Server.RequestFailed` | src/bin/evas_cserve2_requests.c:306-325 | The failure of a request in hand. In place, and equal to the specified step. |
| `RequestServer.Server.WaiterAdd` | src/bin/evas_cserve2_requests.c:104-114 | A waiter is appended. In place, and equal to the specified step. |
| `RequestServer.Server.Search` | src/bin/evas_cserve2_requests.c:124-144 | The two search loops. In place, and equal to the specified step. |
| `RequestServer.Server.RequestAdd` | src/bin/evas_cserve2_requests.c:117-173 | Add, with the pass it triggers. In place, and equal to the specified step. |
| `RequestServer.Server.TypeChange` | src/bin/evas_cserve2_requests.c:182-195 | Change of type. In place, and equal to the specified step. |
| `RequestServer.Server.RequestCancel` | src/bin/evas_cserve2_requests.c:213-253 | Cancel for one client, with its loop over waiters. In place, and equal to the specified step. |
| `RequestServer.Server.RequestCancelAll` | src/bin/evas_cserve2_requests.c:256-289 | Cancel for everybody. In place, and equal to the specified step. |
| `RequestServer.Server.Complete` | src/bin/evas_cserve2_requests.c:337-386 | The end by an answer. In place, and equal to the specified step. |
| `RequestServer.Server.SlaveRead` | src/bin/evas_cserve2_requests.c:328-395 | The read callback of a slave, with the pass after it. In place, and equal to the specified step. |
| `RequestServer.Server.SlaveDead` | src/bin/evas_cserve2_requests.c:398-409 | The death callback. In place, and equal to the specified step. |
| `RequestServer.Server.RequestsProcess` | src/bin/evas_cserve2_requests.c:485-560 | The pass over the table of types. In place, and equal to the specified step. |
| `RequestServer.Server.SweepQueue` | src/bin/evas_cserve2_requests.c:498-558 | One queue of the pass. In place, and equal to the specified step. |
| `RequestServer.Server.HandOver` | src/bin/evas_cserve2_requests.c:532-557 | Dispatch of one request. In place, and equal to the specified step. |
| `PreloadPool.EveryInterleaving` | src/lib/cache/evas_preload.c:76-266 | For every interleaving: never more live workers than the maximum, a non-empty queue has a live worker or one about to be spawned, a job runs at most once and is called back exactly once when freed, its end only after its run and never when cancelled, and never cancelled unrun but while queued. |
| `PreloadPool.CancelQueued` | src/lib/cache/evas_preload.c:236-266 | A job cancelled while queued never runs and is called back once, in every continuation. |
| `PreloadPool.FreedStays` | src/lib/cache/evas_preload.c:51-73 | A freed job is never touched again. |
| `PreloadPool.QuietMeansFinished` | src/lib/cache/evas_preload.c:76-125 | When no worker and no event can go on, every job has been called back exactly once. |
| `PreloadPool.EveryScheduleFinishes` | src/lib/cache/evas_preload.c:76-125 | Every schedule without new calls is bounded, and one that cannot go on has called back all jobs. |
| `PreloadPool.InternalProgress` | src/lib/cache/evas_preload.c:76-125 | Each step of a worker or of the event queue brings that end nearer. |
| `PreloadThreads.Preloader.ThreadRun` | src/lib/cache/evas_preload.c:165-233 | Queues a job and says whether to spawn a worker. In place, and equal to the specified step. |
| `PreloadThreads.Preloader.ThreadCancel` | src/lib/cache/evas_preload.c:236-266 | Cancels a queued job at once, flags a running one. In place, and equal to the specified step. |
| `PreloadThreads.Preloader.ProcessEvent` | src/lib/cache/evas_preload.c:62-73 | One done event, with the end or cancel callback. In place, and equal to the specified step. |
| `PreloadThreads.Preloader.WorkerTake` | src/lib/cache/evas_preload.c:87-98 | The first critical section of the worker. In place, and equal to the specified step. |
| `ImageSafety.EveryRunIsConsistent` | src/lib/cache/evas_cache_image.c:54-183 | After every run: an entry with a job out is live and knows it, each entry is in exactly one of dirty list, active hash, inactive hash with LRU; LRU entries are unreferenced and not preloading; no key is in both hashes; usage is the sum of the LRU sizes. |
| `ImageSafety.Step` | src/lib/cache/evas_cache_image.c:151-1197 | Every call and callback keeps the whole invariant. |
| `ImageSafety.DirtyForever` | src/lib/cache/evas_cache_image.c:54-69 | An entry once dirty stays so for the rest of its life and no later request returns it. |
| `ImageRuns.RequestIsFresh` | src/lib/cache/evas_cache_image.c:589-761 | A request returns only an entry of the key whose time stamp matches the file, findable, with one more reference. |
| `ImageRuns.RequestOutdates` | src/lib/cache/evas_cache_image.c:589-761 | A stale entry in use is dirtied with its references, one not in use is deleted. |
| `ImageRuns.DirtyIsolates` | src/lib/cache/evas_cache_image.c:807-846 | Copy on write: the result has one reference and no lookup finds it, everybody else keeps pixels, flags and references, and the references add up; it fails exactly when a copy is needed and cannot be made. |
| `ImageRuns.AloneIsolates` | src/lib/cache/evas_cache_image.c:849-881 | The same for an entry that may be dirty already. |
| `ImageReferences.ReferencedLeavesIff` | src/lib/cache/evas_cache_image.c:151-1197 | Exact condition, for every call and callback: a referenced entry is freed if and only if the call drops its last reference and nothing keeps it, or a cancelled job is called back for it, at once or later, while it is dirty or was to be deleted. |
| `ImageReferences.DirtiedWhileCancelledIsFreed` | src/lib/cache/evas_cache_image.c:369-389 | Counterexample: the only holder of an entry whose preload was called off dirties it, and the event of the job frees it although nobody dropped it. |
| `ImageReferences.CancelledStateIsReached` | src/lib/cache/evas_cache_image.c:419-459 | Its starting point comes about: request, preload, a thread takes the job, the target leaves. |
| `ImageReferences.CancelledOutcome` | src/lib/cache/evas_cache_image.c:369-389 | The callback of a cancelled job frees the entry if and only if it is dirty, or was to be deleted, or is unreferenced and over the limit; it tells the targets if and only if the entry is loaded and neither dirty nor to be deleted; a kept entry is on the LRU if and only if it is unreferenced. |
| `ImageReferences.CallOffOutcome` | src/lib/cache/evas_cache_image.c:419-459 | Calling off a preload frees the entry if and only if the job was still queued and its callback frees it; otherwise the job is flagged; no other referenced entry goes. |
| `ImageReferences.ReleaseOutcome` | src/lib/cache/evas_cache_image.c:764-793 | A drop takes a referenced entry if and only if it is the last one and the entry is dirty, over the limit, or called off for good; the flush takes no other. |
| `ImageReferences.DeleteOutcome` | src/lib/cache/evas_cache_image.c:152-183 | Deletion frees at once but when a thread has the job: then the entry is marked, its targets are let go and the job is flagged. |
| `ImageReferences.EndOutcome` | src/lib/cache/evas_cache_image.c:349-366 | The end of a job tells every target once, in order, ends the preload and touches no other entry. |
| `ImageTargets.StepAttendedIff` | src/lib/cache/evas_cache_image.c:151-1197 | Exact condition, for every call and callback: somebody comes to wait for an image without a job for it if and only if a cancelled job is called back after he joined, with the image not loaded and the entry kept. |
| `ImageTargets.EveryWaiterHasAJob` | src/lib/cache/evas_cache_image.c:349-459 | In every run without such a callback, whoever waits for an image has a job that will call back. |
| `ImageRuns.DirtyIsUnfindable` | src/lib/cache/evas_cache_image.c:54-69 | A dirty entry is in neither hash. |
| `ImageOps.FlushKeepsPrefix` | src/lib/cache/evas_cache_image.c:1171-1197 | A flush ends and keeps exactly the longest most recently released prefix within the limit; all else is unchanged. |
| `ImageOps.LastOfLru` | src/lib/cache/evas_cache_image.c:152-183 | The last entry of the LRU has no preload, so deleting it is never deferred and the flush loop goes on. |
| `ImageEntries.LruAddInv` | src/lib/cache/evas_cache_image.c:104-116 | An unreferenced entry that is not preloading goes from the active hash to the LRU, with its size added. |
| `ImageEntries.DirtyAddNear` | src/lib/cache/evas_cache_image.c:55-69 | Dirtying takes an entry out of hashes and LRU, with the usage. |
| `ImageCache.Images.DeleteEntry` | src/lib/cache/evas_cache_image.c:152-183 | Deletion, deferred while preloading. In place, and equal to the specified step. |
| `ImageCache.Images.CallOffPreload` | src/lib/cache/evas_cache_image.c:419-459 | The end of a preload nobody waits for. In place, and equal to the specified step. |
| `ImageCache.Images.AsyncCancel` | src/lib/cache/evas_cache_image.c:369-389 | The cancel callback. In place, and equal to the specified step. |
| `ImageCache.Images.AsyncEnd` | src/lib/cache/evas_cache_image.c:349-366 | What the end callback tells the targets. In place, and equal to the specified step. |
| `ImageCache.Images.PreloadDone` | src/lib/cache/evas_cache_image.c:349-389 | A done event of the preloader. In place, and equal to the specified step. |
| `ImageCache.Images.FlushLru` | src/lib/cache/evas_cache_image.c:1171-1197 | The flush loop. In place, and equal to the specified step. |
| `ImageCache.Images.Drop` | src/lib/cache/evas_cache_image.c:764-793 | Drop of a reference. In place, and equal to the specified step. |
| `ImageCache.Images.RequestImage` | src/lib/cache/evas_cache_image.c:589-761 | Lookup in both hashes, stale entries outdated, or a new entry. In place, and equal to the specified step. |
| `ImageCache.Images.DirtyImage` | src/lib/cache/evas_cache_image.c:807-846 | Dirtying, with a copy if shared. In place, and equal to the specified step. |
| `ImageCache.Images.AloneImage` | src/lib/cache/evas_cache_image.c:849-881 | Making an entry unshared. In place, and equal to the specified step. |
| `ImageCache.Images.PreloadImage` | src/lib/cache/evas_cache_image.c:1093-1110 | Start of a preload for a target. In place, and equal to the specified step. |
| `ImageCache.Images.PreloadCancel` | src/lib/cache/evas_cache_image.c:1113-1122 | A target leaves a preload. In place, and equal to the specified step. |
| `ImageCache.Images.SetLimit` | src/lib/cache/evas_cache_image.c:475-483 | A new limit. In place, and equal to the specified step. |
| `CallbackList.CallInvokes` | src/lib/canvas/evas_callbacks.c:131-161 | One call, whatever its callbacks add, delete and call: a node of the type that is there before and after, unmarked, is invoked exactly once unless the canvas was deleted; no node twice; none that was marked or of another type. |
| `CallbackList.WalkInvokes` | src/lib/canvas/evas_callbacks.c:140-152 | The same for the rest of a walk from any node: every unmarked node ahead once, none behind. |
| `CallbackList.WalkOrder` | src/lib/canvas/evas_callbacks.c:267-277 | The invocations of a walk go forward in the list, so by rising priority, whatever is inserted meanwhile. |
| `CallbackList.CallEvent` | src/lib/canvas/evas_callbacks.c:131-161 | A call keeps the list sorted and clears it when it is the outermost one; while a walk is active no node is freed or moved and marks stay. |
| `CallbackList.Run` | src/lib/canvas/evas_callbacks.c:131-161 | So does any script of adds, deletes and nested calls of a callback. |
| `CallbackList.AddLater` | src/lib/canvas/evas_callbacks.c:390-420 | Adding keeps all nodes and their order, whether a walk is active or not, and the list invariant. |
| `CallbackList.DelOutcome` | src/lib/canvas/evas_callbacks.c:423-482 | Deleting takes exactly the first unmarked match: marked in its place while a walk is active, else gone, and every other node unchanged; without a match nothing changes. |
| `CallbackList.ClearOutcome` | src/lib/canvas/evas_callbacks.c:77-88 | Clearing leaves exactly the unmarked nodes, and no list if and only if all were marked. |
| `CallbackList.PurgeIn` | src/lib/canvas/evas_callbacks.c:43-60 | The purge keeps exactly the unmarked nodes. |
| `CallbackList.PurgeKeeps` | src/lib/canvas/evas_callbacks.c:43-60 | The purge keeps the nodes sorted and apart. |
| `CallbackList.PlaceSorts` | src/lib/canvas/evas_callbacks.c:268-277 | Insertion keeps the list sorted. |
| `CanvasCallbacks.Canvas.ListPostFree` | src/lib/canvas/evas_callbacks.c:43-60 | The loop that frees marked nodes. In place, and equal to the specified function. |
| `CanvasCallbacks.Canvas.EventCallbackClear` | src/lib/canvas/evas_callbacks.c:77-88 | The deferred clear. In place, and equal to the specified function. |
| `CanvasCallbacks.Canvas.PriorityAdd` | src/lib/canvas/evas_callbacks.c:390-420 | Sorted add. In place, and equal to the specified function. |
| `CanvasCallbacks.Canvas.EventDel` | src/lib/canvas/evas_callbacks.c:423-482 | The search loops of both deletes; the data of the match is returned. In place, and equal to the specified function. |
| `CanvasCallbacks.Canvas.EventCallbackCall` | src/lib/canvas/evas_callbacks.c:131-161 | A call, reentrant. In place, and equal to the specified function. |
| `CanvasCallbacks.Canvas.EventWalk` | src/lib/canvas/evas_callbacks.c:140-152 | Its loop. In place, and equal to the specified function. |
| `ClipDirty.EvasObject.constructor` | src/lib/canvas/evas_clip.c:5-15 | A new object has no links and is dirty. |
| `ClipDirty.ObjectClipDirty` | src/lib/canvas/evas_clip.c:5-15 | On any graph, with cycles: dirty after are exactly the objects dirty before and those reached through clean ones; it ends. |
| `ClipDirty.EarlyReturnIsSafe` | src/lib/canvas/evas_clip.c:5-15 | When the dirty set was closed, everything reachable is dirty after, nothing else new, and the set is closed again. |
| `ClipDirty.WalkReachesAllIff` | src/lib/canvas/evas_clip.c:5-15 | Exact condition on any graph and dirty set: a walk marks everything it could reach if and only if what is next to a reachable dirty object is dirty or reached through clean ones. |
| `ClipDirty.OpenSetMisses` | src/lib/canvas/evas_clip.c:9 | Counterexample: behind a dirty object with a clean clipee the early return misses one. |
| `ClipTree.CleanIsExact` | src/lib/include/evas_inline.x:199-275 | Refinement: the incrementally kept clip of every clean object is what a computation from scratch up its clippers gives. |
| `ClipTree.ClipIsCommonArea` | src/lib/include/evas_inline.x:226-249 | Without maps, a point is in the clip of an object if and only if it is in the object and all its clippers. |
| `ClipGeometry.ClipToIsIntersection` | src/lib/include/evas_macros.h:32-57 | The clipped rectangle covers exactly the points both cover. |
| `ClipTree.ClipRecalc` | src/lib/include/evas_inline.x:199-275 | The object and its clippers become clean and nothing else; with events frozen nothing happens; caches stay right. |
| `ClipTree.RecalcClippees` | src/lib/canvas/evas_clip.c:18-29 | A dirty object and everything under it become clean, with everything above, and nothing else. |
| `ClipTree.DirtyAfterChange` | src/lib/canvas/evas_clip.c:5-15 | After a change to one object, marking it marks exactly what lies under it, which is every stale cache. |
| `ClipTree.Change` | src/lib/canvas/evas_object_main.c:639-651 | A setter keeps every clean cache exact; the dirty set after is stated exactly, frozen or not. |
| `ClipTree.ClipSet` | src/lib/canvas/evas_clip.c:165-277 | Links of both clippers, caches and the dirty set after setting a clipper; an object already clipped by it, or itself, changes nothing. |
| `ClipTree.ClipUnset` | src/lib/canvas/evas_clip.c:302-333 | The same for unsetting. |
| `ClipTree.Unlink` | src/lib/canvas/evas_clip.c:221-239 | The object leaves the clipees of its clipper, which keep their order. |
| `ClipTree.Link` | src/lib/canvas/evas_clip.c:250-251 | The object becomes the last clipee of its clipper. |
| `CommandLink.SlaveReadsCommands` | src/bin/evas_cserve2_slave.c:113-149 | Down the pipe, for every way of cutting up the server's writes and the slave's reads and of interleaving them: at every moment the commands read are the first ones sent, in order, and all of them once writer and pipe are empty; the slave lives if and only if no header read came back short. |
| `CommandLink.Step` | src/bin/evas_cserve2_slave.c:113-149 | Each write and each read keeps that; a slave gives up exactly at a short header. |
| `CommandLink.WrittenOutIsSafe` | src/bin/evas_cserve2_slaves.c:144-189 | When nothing is left to write, no header read is short. |
| `CommandLink.ServedSlaveLives` | src/bin/evas_cserve2_requests.c:456-560 | As the server sends, one command at a time to an idle slave over an empty pipe, no header is ever read in part, the slave lives in every run, and it reads the commands sent, in order, and all of them in the end. |
| `ReplyLink.ServerReadsReplies` | src/bin/evas_cserve2_slave.c:151-182 | Up the pipe, for every interleaving of the slave's piecewise writes with readable events: the replies the server has read are the first ones given, in order, and all of them once the slave has written out and the pipe is empty, without any assumption on headers. |
| `ReplyLink.HeadersAreWhole` | src/bin/evas_cserve2_slaves.c:213-219 | On that side no header is ever read in part: what is not written yet is part of the last payload. |
| `Framing.ReadingKeepsIff` | src/bin/evas_cserve2_slaves.c:200-219 | Exact condition of a read event: the stream is kept if and only if no header is read in part; a short header read loses its bytes. |
| `Framing.SendGiven` | src/bin/evas_cserve2_slaves.c:573-603 | A send adds exactly one frame behind everything handed over before, however short the writes. |
| `Framing.WriteCbGiven` | src/bin/evas_cserve2_slaves.c:170-189 | A write callback moves bytes from pending to written and changes neither their order nor their number. |
| `Framing.NextHeader` | src/bin/evas_cserve2_slaves.c:213-219 | Between frames the pipe starts with the header of the next message sent. |
| `Framing.ReadCbConsumed` | src/bin/evas_cserve2_slaves.c:200-251 | What a read callback takes is delivered or kept as part of a frame. |
| `Framing.StreamPrefix` | src/bin/evas_cserve2_slaves.c:594-603 | Frames cannot be mistaken: a stream that starts another is that of its first messages. |
| `Bytes.WordRoundTrip` | src/bin/evas_cserve2_slaves.c:594-603 | An int copied as four bytes reads back as itself. |
| `FrameChannel.Slave.SlaveWrite` | src/bin/evas_cserve2_slaves.c:144-167 | The write loop. In place, and equal to the specified function. |
| `FrameChannel.Slave.WriteReady` | src/bin/evas_cserve2_slaves.c:170-189 | The write callback. In place, and equal to the specified function. |
| `FrameChannel.Slave.SendAux` | src/bin/evas_cserve2_slaves.c:573-591 | Send or append to what is pending. In place, and equal to the specified function. |
| `FrameChannel.Slave.ProcSend` | src/bin/evas_cserve2_slaves.c:594-603 | A frame. In place, and equal to the specified function. |
| `FrameChannel.Slave.ReadPayload` | src/bin/evas_cserve2_slaves.c:227-243 | The payload loop. In place, and equal to the specified function. |
| `FrameChannel.Slave.ReadReady` | src/bin/evas_cserve2_slaves.c:200-251 | The read callback. In place, and equal to the specified function. |
| `FrameChannel.SlaveProcess.CommandRead` | src/bin/evas_cserve2_slave.c:113-149 | However the payload arrives and the reads are cut up: what is read is exactly the frame of what is returned, or the start of one still waited for; it gives up if and only if the header is short or the size negative; equal to the reads of the command link. |
| `FrameChannel.SlaveProcess.ResponseSend` | src/bin/evas_cserve2_slave.c:151-182 | Whatever the sizes of the writes, exactly one frame is written; equal to the writes of the reply link. |
| `ClientLink.ServerReadsMessages` | src/bin/evas_cserve2_messages.c:32-125 | For every cutting up of the writes of a client and the reads of the server: at every moment the messages read are the first ones sent, in order, and all of them in the end; the server goes on exactly as long as no read gets part of a size and none is for a message without bytes. |
| `ClientLink.Step` | src/bin/evas_cserve2_messages.c:70-125 | Each piece written or read keeps that. |
| `FrameChannel.Client.ClientSend` | src/bin/evas_cserve2_messages.c:156-193 | What is given to a client plus what is pending grows by exactly the data. |
| `FrameChannel.Client.ClientDeliver` | src/bin/evas_cserve2_messages.c:128-153 | Delivery moves pending bytes out in order; nothing stays pending without bytes. |
| `FontDebug.DebugRoundTrip` | src/bin/evas_cserve2_cache.c:1817-1854 | The client reads back exactly the fonts written, to the last byte, if and only if every counter nglyphs is the length of its list. |
| `FontDebug.FontsBack` | src/bin/evas_cserve2_debug.c:309-339 | The same for the list of fonts followed by anything. |
| `FontDebug.FontBack` | src/bin/evas_cserve2_debug.c:273-306 | The same for one font. |
| `FontDebug.CacheBack` | src/bin/evas_cserve2_debug.c:244-270 | The same for one cache. |
| `FontDebug.GlyphBack` | src/bin/evas_cserve2_debug.c:222-241 | A glyph always reads back. |
| `FontDebug.StringsComeBack` | src/bin/evas_cserve2_debug.c:280-286 | NULL comes back as NULL and a string as itself with its NUL. |
| `FontDebugMessage.MessageSize` | src/bin/evas_cserve2_cache.c:1651-1713 | The first pass computes the number of bytes of the message, modulo the range of an unsigned int. |
| `FontDebugMessage.FontDebugMsg` | src/bin/evas_cserve2_cache.c:1817-1854 | The second pass fills the buffer exactly, never writing past it, with the message. |
| `FontDebugMessage.MessageBuffer.PutFont` | src/bin/evas_cserve2_cache.c:1716-1814 | One font through the moving position. |
| `FontDebugMessage.MessageReader.ParseGlyph` | src/bin/evas_cserve2_debug.c:222-241 | Equal to the specified reading, advancing exactly past it. |
| `FontDebugMessage.MessageReader.ParseCache` | src/bin/evas_cserve2_debug.c:244-270 | Equal to the specified reading, advancing exactly past it. |
| `FontDebugMessage.MessageReader.ParseFont` | src/bin/evas_cserve2_debug.c:273-306 | Equal to the specified reading, advancing exactly past it. |
| `FontDebugMessage.MessageReader.ParseMessage` | src/bin/evas_cserve2_debug.c:309-339 | Equal to the specified reading; a message of another type gives no fonts. |
| `GlyphPacking.LoadPacks` | src/bin/evas_cserve2_fonts.c:457-563 | A load that ends has put exactly the glyphs that can be loaded, in order and with their sizes, into its segments, each packed without gap and within its size. |
| `GlyphPacking.LoadAllocates` | src/bin/evas_cserve2_fonts.c:499-514 | Segments it adds are newly allocated and distinct; the one it started with comes first. |
| `GlyphPacking.LoadFailsIff` | src/bin/evas_cserve2_fonts.c:457-563 | Exact condition for any load: it divides by zero if and only if one of its glyphs, after those before it, is bigger than the new segment it would get, or finds a full segment that counts no glyph. |
| `GlyphPacking.LoadFailsAtHead` | src/bin/evas_cserve2_fonts.c:400-412 | What that means for the next glyph, whatever is asked for after it. |
| `GlyphPacking.NewSegmentFails` | src/bin/evas_cserve2_fonts.c:400-412 | A glyph bigger than the new segment made for it fails the load, whatever is asked for after it. |
| `GlyphPacking.LowAverageFails` | src/bin/evas_cserve2_fonts.c:400-412 | Counterexample: glyphs that could not be loaded are counted, so an average below a byte makes the next segment empty and the load fail. |
| `GlyphPacking.UsualGlyphsLoad` | src/bin/evas_cserve2_fonts.c:457-563 | Every load ends whose glyphs load, with sizes between a and b bytes, b at most fifty a or a page, and at most the largest segment. |
| `GlyphPacking.RoomyGlyphsLoad` | src/bin/evas_cserve2_fonts.c:457-563 | Every load ends, whatever glyphs are empty or do not load, when a page has room for the biggest glyph and one byte more for each glyph asked for. |
| `GlyphPacking.PackedApart` | src/bin/evas_cserve2_fonts.c:347-358 | Packed glyphs are in order, do not overlap and stay within their bounds. |
| `GlyphPacking.PackedTotal` | src/bin/evas_cserve2_fonts.c:357 | The usage of a packed segment is the sum of its glyphs. |
| `GlyphPacking.FontSlaveGlyphsLoad` | src/bin/evas_cserve2_fonts.c:457-563 | The loop of the slave, which continues the segment of the last load. |
| `GlyphFlush.FlushTakes` | src/bin/evas_cserve2_cache.c:728-753 | Exact flush: a cache goes if and only if it is unpinned, of an unused font, and the usage without such caches before it in the list is still over the maximum. |
| `GlyphFlush.FlushIs` | src/bin/evas_cserve2_cache.c:728-753 | The same for a flush of any part of the list. |
| `GlyphFlush.FontGoesIff` | src/bin/evas_cserve2_cache.c:706-753 | A flush frees a font entry if and only if the font has caches and each of them goes. |
| `GlyphCache.FlushOutcome` | src/bin/evas_cserve2_cache.c:728-753 | A flush frees only unpinned caches of unused fonts and changes nothing else. |
| `GlyphCache.FlushOldestFirst` | src/bin/evas_cserve2_cache.c:728-753 | Of the caches that may go, those used longest ago go first. |
| `GlyphCache.FreeKeeps` | src/bin/evas_cserve2_cache.c:706-725 | Freeing an unpinned cache leaves the lists, tables, pins and usage right, and every answer in the list of its cache. |
| `GlyphHarm.FreeHarmsIff` | src/bin/evas_cserve2_cache.c:706-725 | Exact condition: freeing a cache frees an entry that is still in a list if and only if the table has another entry for one of its indices. |
| `GlyphPins.FlushBudget` | src/bin/evas_cserve2_cache.c:728-753 | After a flush the usage is within the maximum or every cache left is pinned or of a used font. |
| `GlyphPins.PinnedSurvives` | src/bin/evas_cserve2_cache.c:1119-1150 | A cache with a pending answer in it survives every flush, with its list. |
| `GlyphSound.PinnedIsLive` | src/bin/evas_cserve2_cache.c:706-753 | While every entry of the caches that may be freed is the one its table has, what a pending answer points to stays allocated in a flush. |
| `GlyphSafety.EntriesAreSafeIff` | src/bin/evas_cserve2_cache.c:706-1521 | Exact condition over every run: at every moment no continuation that brings no index twice frees an entry that a list or an answer has, if and only if no load in the run brought an index twice, the first time into a cache that may be freed. |
| `GlyphSafety.SafeIff` | src/bin/evas_cserve2_cache.c:706-1521 | The same for any state: safe in all such continuations if and only if nothing was harmed yet and every entry of the caches that may be freed is the one its table has; otherwise a run that harms is constructed. |
| `GlyphSafety.AskedTwiceIsHarmed` | src/lib/cserve2/evas_cs2_utils.c:86-121 | Counterexample: from nothing, one request that lists a glyph twice; then loads that bring no index twice free an entry that is still in a list. |
| `GlyphSafety.DoublesIff` | src/bin/evas_cserve2_cache.c:1387-1404 | When pins are exact, a load brings an index twice if and only if the list handed to the slave has a loadable glyph twice. |
| `GlyphSound.EverythingIsLive` | src/bin/evas_cserve2_cache.c:706-1521 | In every run in which no index is brought twice, all that lists, tables and answers have is allocated. |
| `GlyphSound.StepSoundIff` | src/bin/evas_cserve2_cache.c:706-1521 | The same for each event. |
| `GlyphHome.StepHeapInv` | src/bin/evas_cserve2_cache.c:1119-1521 | Every event keeps: what is in a list is allocated or was harmed, answers have entries of their own font, what is being rendered is not in the table, and the table has the last entry of an index in a list. |
| `GlyphLeaks.RunExactIff` | src/bin/evas_cserve2_cache.c:1119-1521 | Exact condition over every run: each cache has as many pins as answers point into it if and only if it was so before and no event in the run reports used glyphs of which the first is cached, or fails a request that had found glyphs, queued or in the slave's hands. |
| `GlyphLeaks.StepExactIff` | src/bin/evas_cserve2_cache.c:1119-1521 | The same for each event. |
| `GlyphLeaks.FailedIsNeverEvicted` | src/bin/evas_cserve2_cache.c:1518-1521 | Counterexample: a load that fails keeps the pins of the glyphs it had found, and no later run evicts their caches. |
| `GlyphPins.UsedIsNeverEvicted` | src/bin/evas_cserve2_cache.c:2279-2309 | Counterexample: reporting a cached glyph as used takes a pin that is never given back: no later run evicts the cache. |
| `GlyphPins.OverpinnedForever` | src/bin/evas_cserve2_cache.c:1448-1521 | A cache pinned more often than answers point into it is never evicted. |
| `GlyphPins.FontGoesWithLastCache` | src/bin/evas_cserve2_cache.c:723-724 | A font entry is freed with a cache if and only if that is its only one. |
| `GlyphFonts.RequestFindsFontIff` | src/bin/evas_cserve2_cache.c:706-862 | Exact condition over every run: a request, queued or in the slave's hands, finds its font entry gone if and only if since it came the last reference went while the font had no caches, or a flush took all its caches. |
| `GlyphFonts.StepFontIff` | src/bin/evas_cserve2_cache.c:706-862 | Each event frees a font entry exactly when it is one of the two. |
| `GlyphFonts.GoneInTheSlave` | src/bin/evas_cserve2_cache.c:856-862 | Counterexample: the last reference goes while the slave renders the first glyphs of the font, and the entry it works on is freed. |
| `GlyphFonts.OnlyFails` | src/bin/evas_cserve2_cache.c:1448-1521 | Such a load can only fail: its result would be written into the freed entry. |
| `GlyphWaiting.WaitingFontGoesIff` | src/bin/evas_cserve2_cache.c:706-753 | A request that waits through a flush finds its font entry gone if and only if the flush takes all caches of the font, which can be told before. |
| `GlyphWaiting.WaitingFontGoes` | src/bin/evas_cserve2_cache.c:1449-1516 | Counterexample: a legal run from nothing after which a request waits for a font whose entry the flush of another load has freed. |
| `GlyphPins.TwoSlavesOverlap` | src/bin/evas_cserve2_cache.c:1430-1436 | Why one font slave: two loads given the same usage would put glyphs in the same place. |
| `GlyphRequests.GroupsPartition` | src/bin/evas_cserve2_cache.c:1155-1185 | The answer is split into one group for each cache, with exactly its glyphs in order. |
| `GlyphRequests.UnpinUndoesPin` | src/bin/evas_cserve2_cache.c:1188-1278 | Answering takes back exactly the pins of the answer. |
| `GlyphRequests.PromoteIs` | src/bin/evas_cserve2_cache.c:688-693 | The caches answered from become the most recently used, in the order of the groups. |
| `GlyphRequests.DeliverPins` | src/bin/evas_cserve2_cache.c:1188-1278 | Sending an answer changes pins and pending answers by the same amount. |
| `GlyphRequests.NothingForgotten` | src/bin/evas_cserve2_cache.c:1371-1405 | Every glyph asked for is answered from the caches or handed to the slave. |
| `GlyphRequests.AskKeeps` | src/bin/evas_cserve2_cache.c:2252-2276 | A request keeps caches, pins, tables and usage right, answered at once or queued. |
| `GlyphRequests.DispatchKeeps` | src/bin/evas_cserve2_cache.c:1408-1439 | So does preparing a load. |
| `GlyphRequests.UsedKeeps` | src/bin/evas_cserve2_cache.c:2279-2309 | So does a report of used glyphs. |
| `GlyphRuns.SlaveResultFits` | src/bin/evas_cserve2_cache.c:1449-1469 | The result of the slave continues the cache where it still ends, or is new, and has exactly the loadable glyphs. |
| `GlyphRuns.AbsorbKeeps` | src/bin/evas_cserve2_cache.c:1457-1504 | A segment entering the caches keeps packing, pins, lists, tables and usage right. |
| `GlyphRuns.Respond` | src/bin/evas_cserve2_cache.c:1449-1516 | The whole response, with flush and answer, keeps them right. |
| `GlyphRuns.EveryRun` | src/bin/evas_cserve2_cache.c:1119-1516 | After every run: glyphs of a segment in order, apart and within it, usage their sum, the counter nglyphs the length of the list, memory usage the sum over the list, pins at least the answers in preparation, and each of these in the list of a cache that is there. |
| `GlyphServer.Server.RequestCheck` | src/bin/evas_cserve2_cache.c:1119-1150 | The lookup loop. In place, and equal to the specified step. |
| `GlyphServer.Server.GroupCreate` | src/bin/evas_cserve2_cache.c:1155-1185 | The grouping loops. In place, and equal to the specified step. |
| `GlyphServer.Server.LoadedMsgCreate` | src/bin/evas_cserve2_cache.c:1246-1272 | The loop that unpins and promotes. In place, and equal to the specified step. |
| `GlyphServer.Server.FontGlyphsLoad` | src/bin/evas_cserve2_cache.c:2252-2276 | A request. In place, and equal to the specified step. |
| `GlyphServer.Server.FontGlyphsUsed` | src/bin/evas_cserve2_cache.c:2279-2309 | A report. In place, and equal to the specified step. |
| `GlyphServer.Server.ShmFree` | src/bin/evas_cserve2_cache.c:706-725 | Freeing of a cache. In place, and equal to the specified step. |
| `GlyphServer.Server.ShmLruFlush` | src/bin/evas_cserve2_cache.c:728-753 | The flush loop. In place, and equal to the specified step. |
| `GlyphServer.Server.RequestPrepare` | src/bin/evas_cserve2_cache.c:1371-1405 | The preparation loop. In place, and equal to the specified step. |
| `GlyphServer.Server.RequestBuild` | src/bin/evas_cserve2_cache.c:1408-1439 | The message for the slave. In place, and equal to the specified step. |
| `GlyphServer.Server.CacheAbsorb` | src/bin/evas_cserve2_cache.c:1457-1499 | The loop over the glyphs of a segment. In place, and equal to the specified step. |
| `GlyphServer.Server.RequestResponse` | src/bin/evas_cserve2_cache.c:1449-1516 | The response. In place, and equal to the specified step. |
| `GlyphServer.Server.FontUnreferenced` | src/bin/evas_cserve2_cache.c:856-862 | The last reference of a font goes. In place, and equal to the specified step. |
| `GlyphServer.Server.GlyphsDelete` | src/bin/evas_cserve2_cache.c:713-718 | The loop over the list of a freed cache: which entries the table makes it free. In place, and equal to the specified step. |
| `Premul.PremulChannels` | src/bin/evas_cserve2_utils.c:11-15 | The packed word arithmetic computes floor(c * (a + 1) / 256) on each channel and keeps alpha: no carry between lanes and no overflow. |
| `Premul.PremulBelowAlpha` | src/bin/evas_cserve2_utils.c:11-15 | No channel of the result is above alpha, and opaque pixels do not change. |
| `Premul.TwoLanes` | src/bin/evas_cserve2_utils.c:15 | Red and blue multiplied in one word do not reach each other. |
| `Premul.CountUnchanged` | src/bin/evas_cserve2_utils.c:38-58 | The count of opaque and transparent pixels is the same before and after, so both functions set the same flag. |
| `Premul.LoadParams.ConvertArgbPremul` | src/bin/evas_cserve2_utils.c:4-23 | Every pixel is rewritten in place and the opaque and transparent ones counted. |
| `Premul.LoadParams.ImagePremul` | src/bin/evas_cserve2_utils.c:26-35 | The flag is set exactly when the count is large enough and there is alpha. |
| `Premul.LoadParams.AlphaSparseSet` | src/bin/evas_cserve2_utils.c:38-58 | The same flag from the separate scan. |

## Left out

- Sockets, epoll, signals, shared memory calls, FreeType, Eet and the main loop: their results are parameters or sequences of bytes.
- RequestOps.Obtain: a dependency must be of an earlier type than what depends on it, as every caller in evas_cserve2_cache.c arranges, and is given only to a request not being processed.
- RequestOps.TypeSetCore: the new type must keep that order.
- Runs.ExactlyOneReply: needs waiters attached only to requests that are not cancelled, because the search in cserve2_request_add does not test that flag; what happens otherwise is `LateWaiterIsLost`.
- Runs.DiedOutcome: the death of a busy slave; that of an idle one is `FreedIsUnlistedIff`, and no run goes on after it, because the list then names a freed record.
- The callbacks in Slave_Request_Funcs and the sending to clients are not reentrant in the model; what the error callback does is not part of it.
- cserve2_requests_init and shutdown, the statistics and all printing.
- PreloadThreads.Preloader.ThreadRun: thread creation and allocation succeed, and one main thread runs and cancels; the build without threads and the shutdown are not modelled.
- ImageSafety.Step: the size of an entry does not change while it is on the LRU; the list lru_nodata, unload_all, unload_data, load_data, size_set, surface_alloc, colorspace and the shutdown are left out, the list because its flags do not match (src/lib/cache/evas_cache_image.c:130-149).
- ImageRuns.RequestIsFresh: error codes and the load options are part of the key or left out.
- The pipe of evas_async_events.c is a queue in the preloader's model; its descriptors and reads are left out.
- CallbackList.PlaceSorts: where among equal priorities Eina inserts is left open, and any place is allowed.
- The callbacks of objects (src/lib/canvas/evas_callbacks.c:164-265) keep their list the same way; propagation to parents, event counters and mouse flags are left out, as are post-event callbacks and the end of a canvas after its walks.
- CallbackList.CallEvent: evas_event_callback_all_del, which marks all nodes without noting that deletions wait, is used only before the list is freed and is left out.
- ClipTree.ClipSet: smart object hooks, interceptors, damage, type checks, mouse events and the pass across maps (src/lib/canvas/evas_clip.c:77-150) are left out; the chain of clippers has no cycle, without which evas_object_clip_recalc does not end.
- ClipTree.ClipIsCommonArea: without maps on the chain; with them `CleanIsExact` still holds.
- CommandLink.SlaveReadsCommands: payload sizes fit an int, the only write error is one that would block, and the other end is not closed.
- ReplyLink.ServerReadsReplies: a pipe takes the eight bytes of a header in one write, as it does any write of at most PIPE_BUF bytes; an interrupted write has taken nothing.
- FrameChannel.Slave.ReadReady: the size read is not negative, as `HeadersAreWhole` and `NextHeader` show for what a slave writes.
- FrameChannel.Client.ClientDeliver: the write does not fail.
- ClientLink.ServerReadsMessages: reads and writes fail only by having to wait; what a command does is not part of it.
- FontDebugMessage.FontDebugMsg: the size fits an unsigned int; `MessageSize` says what is computed when it does not.
- GlyphRuns.EveryRun: one font slave, new segments have new names, and runs stop short of what reads a freed font entry: a load is started, and its result taken in, only while the entry is there. When it is not is `RequestFindsFontIff`.
- What the allocator does with freed memory: names of freed records are not used again while somebody points to them.
- The message with the glyphs of an answer (src/bin/evas_cserve2_cache.c:1188-1278) is modelled in its effect on pins and list; its bytes are laid out like those of the font debug message.
- References of clients to files and images, those to fonts but for the first and the last, file change handling, the unused image list and the rest of evas_cserve2_cache.c.
- Premul.LoadParams.AlphaSparseSet: widths and heights whose product an unsigned int cannot hold.
- evas_cserve_main.c, evas_cache2.c, evas_cache_engine_image.c, evas_filter.c and hit testing in evas_events.c.
