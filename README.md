# Krita: stroke scheduling queue and four smaller cores, modelled in Dafny

This project models five pieces of Krita and proves what each promises.

- **The stroke scheduling queue** (`KisStrokesQueue`). It keeps an ordered queue of strokes. Each stroke is Legacy, Lod0, LodN, Suspend or Resume. The queue does four things:
  - It admits new strokes. A stroke is either a Legacy stroke at the tail, or a Lod0 stroke with a LodN "buddy" that works on a coarser level of detail (LOD). The Lod0 stroke may be bracketed by a Suspend and a Resume stroke.
  - It routes jobs to strokes and their buddies, and it ends and cancels them.
  - It hands the head stroke's jobs to the updater context one at a time. Each hand-out is gated on the LOD and on the exclusive, sequential and barrier properties.
  - It resynchronises the LOD caches when the desired LOD changes.

  The queue is modelled three times:
  - `StrokesModel` describes every operation as a function from the old state to the new one.
  - `StrokesQueueImpl.StrokesQueue` is a class with the fields of `KisStrokesQueue::Private`. Its methods loop over the queue as the source does. Each is proved to end in the state the matching `StrokesModel` function computes.
  - `StrokesProperties` proves the queue's promises about those functions.
- **The resource path registry** (`KoResourcePaths`). It maps a resource type to an ordered, duplicate-free list of relative directories and another of absolute ones. The model also covers the string building of the save location and the filter split.
- **Krita's built-in mime table** (`KisMimeDatabase`). The model covers the one-time fill of the table, the first-match lookups by suffix and by mime type, and the system-database fallback with the preferred suffix moved to the front.
- **The texture tile update** (`KisTextureTileUpdateInfo`). The model covers the tile and patch geometry, the grow-only conversion buffer with swap, and the channel-masking byte copy of `retrieveData`.
- **The X11 tablet support**. The model covers the mouse-button translations, the Wacom tool-id classification, the device and pointer type, the press/release grab of `translateXinputEvent`, and the "choke mouse" flag of `eventFilter`.

Files:

| file | contents |
|---|---|
| `wrappers.dfy` | the `Option` type |
| `strokes_model.dfy` | the value model of the queue |
| `strokes_properties.dfy` | the queue's properties |
| `strokes_queue.dfy` | the queue object |
| `resource_paths.dfy` | the path registry |
| `mime_database.dfy` | the mime table |
| `texture_tile.dfy` | the tile geometry, buffers and channel copy |
| `tablet_x11.dfy` | the X11 tablet support |

## Model

| member | source | states |
|---|---|---|
| StrokesModel.FirstIndex | libs/image/kis_strokes_queue.cpp:139-180 | the iterator loops stop at the first stroke satisfying the test: no earlier stroke satisfies it, and the end of the queue means none does |
| StrokesModel.InsertAt | libs/image/kis_strokes_queue.cpp:205 | `QList::insert` puts the stroke at the position and shifts the rest back by one, keeping their order |
| StrokesModel.BracketInserts | libs/image/kis_strokes_queue.cpp:218-226 | inserting Resume, ending it, then inserting Lod0 and Suspend at the same position and ending Suspend leaves the three consecutive at that position, the rest of the queue in order |
| StrokesModel.CheckStrokeState | libs/image/kis_strokes_queue.cpp:491-535 | after the finished heads are dropped, the answer is true exactly when the head has jobs and a compatible LOD |
| StrokesQueueImpl.StrokesQueue.constructor | libs/image/kis_strokes_queue.cpp:32-68 | the queue starts empty with no opened strokes, desired LOD 0 and the LOD cache marked stale |
| StrokesQueueImpl.StrokesQueue.Destroy | libs/image/kis_strokes_queue.cpp:70-78 | the destructor cancels every queued stroke |
| StrokesQueueImpl.StrokesQueue.SetLod0ToNStrokeStrategyFactory | libs/image/kis_strokes_queue.cpp:436-439 | the sync factory is replaced; nothing else changes |
| StrokesQueueImpl.StrokesQueue.SetSuspendUpdatesStrokeStrategyFactory | libs/image/kis_strokes_queue.cpp:441-444 | the suspend factory is replaced; nothing else changes |
| StrokesQueueImpl.StrokesQueue.SetResumeUpdatesStrokeStrategyFactory | libs/image/kis_strokes_queue.cpp:446-449 | the resume factory is replaced; nothing else changes |
| StrokesQueueImpl.StrokesQueue.HasUnfinishedStrokes | libs/image/kis_strokes_queue.cpp:300-309 | true exactly when some queued stroke has not ended |
| StrokesQueueImpl.StrokesQueue.CanUseLodN | libs/image/kis_strokes_queue.cpp:115-124 | true exactly when no Legacy stroke is queued |
| StrokesQueueImpl.StrokesQueue.ShouldWrapInSuspendUpdatesStroke | libs/image/kis_strokes_queue.cpp:126-137 | true exactly when no non-cancelled Resume stroke is queued |
| StrokesQueueImpl.StrokesQueue.FindNewLod0Pos | libs/image/kis_strokes_queue.cpp:139-153 | the position of the first non-cancelled Resume stroke, or the end of the queue |
| StrokesQueueImpl.StrokesQueue.Lookup | libs/image/kis_strokes_queue.cpp:253 | the position of the stroke a handle refers to, or the end of the queue once that stroke has left it |
| StrokesQueueImpl.StrokesQueue.FindNewLodNPos | libs/image/kis_strokes_queue.cpp:155-180 | the position of the first non-cancelled Lod0, Suspend or Resume stroke, or the end; only a head at that position that supports suspension is asked to suspend |
| StrokesQueueImpl.StrokesQueue.StartLod0ToNStroke | libs/image/kis_strokes_queue.cpp:80-100 | the new state is the model's: with a factory, an ended LodN sync stroke holding the factory's jobs is appended and the stale flag is cleared |
| StrokesQueueImpl.StrokesQueue.CancelForgettableStrokes | libs/image/kis_strokes_queue.cpp:102-113 | the new state is the model's: forgettable strokes are cancelled only when the queue is non-empty and every stroke has ended |
| StrokesQueueImpl.StrokesQueue.SwitchDesiredLevelOfDetail | libs/image/kis_strokes_queue.cpp:392-411 | the new state is the model's LOD switch |
| StrokesQueueImpl.StrokesQueue.StartStroke | libs/image/kis_strokes_queue.cpp:182-247 | the new state and the handle returned are the model's startStroke |
| StrokesQueueImpl.StrokesQueue.AdmitPair | libs/image/kis_strokes_queue.cpp:196-230 | the buddy-pair branch of startStroke ends in the model's state |
| StrokesQueueImpl.StrokesQueue.PlaceLod0 | libs/image/kis_strokes_queue.cpp:207-230 | the Lod0 stroke is placed as in the model, with or without its bracket |
| StrokesQueueImpl.StrokesQueue.BracketLod0 | libs/image/kis_strokes_queue.cpp:208-226 | the three inserts at the Lod0 position give the model's queue, with Suspend and Resume already ended |
| StrokesQueueImpl.StrokesQueue.AdmitLegacy | libs/image/kis_strokes_queue.cpp:232-244 | the Legacy branch of startStroke ends in the model's state |
| StrokesQueueImpl.StrokesQueue.AddJob | libs/image/kis_strokes_queue.cpp:249-266 | the new state is the model's addJob |
| StrokesQueueImpl.StrokesQueue.EndStroke | libs/image/kis_strokes_queue.cpp:268-281 | the new state is the model's endStroke |
| StrokesQueueImpl.StrokesQueue.CancelStroke | libs/image/kis_strokes_queue.cpp:283-298 | the new state and the answer are the model's cancelStroke |
| StrokesQueueImpl.StrokesQueue.TryCancelCurrentStrokeAsync | libs/image/kis_strokes_queue.cpp:311-351 | the new state and the answer are the model's tryCancelCurrentStrokeAsync |
| StrokesQueueImpl.StrokesQueue.SetDesiredLevelOfDetail | libs/image/kis_strokes_queue.cpp:419-427 | the new state is the model's setDesiredLevelOfDetail |
| StrokesQueueImpl.StrokesQueue.ExplicitRegenerateLevelOfDetail | libs/image/kis_strokes_queue.cpp:413-417 | the new state is the model's forced LOD switch |
| StrokesQueueImpl.StrokesQueue.NotifyUFOChangedImage | libs/image/kis_strokes_queue.cpp:429-434 | the LOD cache is marked stale; nothing else changes |
| StrokesQueueImpl.StrokesQueue.CheckStrokeState | libs/image/kis_strokes_queue.cpp:491-535 | the recursive check ends in the model's state and answer |
| StrokesQueueImpl.StrokesQueue.ProcessOneJob | libs/image/kis_strokes_queue.cpp:465-489 | the new state and the job handed out are the model's processOneJob |
| StrokesQueueImpl.StrokesQueue.ProcessQueue | libs/image/kis_strokes_queue.cpp:353-365 | the loop ends in the model's state and hands out the model's jobs, in order |
| StrokesQueueImpl.StrokesQueue.SizeMetric | libs/image/kis_strokes_queue.cpp:383-390 | the answer is the model's sizeMetric, and it is zero exactly when the queue is empty |
| StrokesQueueImpl.StrokesQueue.HasOpenedStrokes | libs/image/kis_strokes_queue.cpp:459-463 | true exactly when the opened-strokes counter is non-zero |
| StrokesQueueImpl.StrokesQueue.IsEmpty | libs/image/kis_strokes_queue.cpp:377-381 | true exactly when no stroke is queued |
| StrokesProperties.InitialStateAllocated | libs/image/kis_strokes_queue.cpp:65-68 | the initial state satisfies the id invariant, has no opened strokes and marks the LOD cache stale |
| StrokesProperties.CancelForgettableStrokesKeeps | libs/image/kis_strokes_queue.cpp:102-113 | cancelling forgettable strokes keeps every stroke's kind, id, buddy and position |
| StrokesProperties.CanUseLodNAfterCancelForgettable | libs/image/kis_strokes_queue.cpp:102-124 | cancelling forgettable strokes does not change whether a buddy pair can be made |
| StrokesProperties.StartStrokeAdmitsLegacy | libs/image/kis_strokes_queue.cpp:191-244 | with a Legacy stroke queued, no clone, or desired LOD 0, the new stroke is Legacy, at the tail, without a buddy, and the LOD cache is marked stale |
| StrokesProperties.StartStrokeAdmitsPair | libs/image/kis_strokes_queue.cpp:191-205 | otherwise a buddy pair is admitted, after the sync stroke if the cache was stale, at the same desired LOD and with the same factories |
| StrokesProperties.LodNBuddyPlacement | libs/image/kis_strokes_queue.cpp:155-205 | the LodN buddy goes immediately before the first non-cancelled Lod0/Suspend/Resume stroke or at the tail; only a head that is that position and supports suspension is asked to suspend |
| StrokesProperties.AdmitPairBracketsLod0 | libs/image/kis_strokes_queue.cpp:207-226 | with no live Resume stroke, Suspend, Lod0 and Resume end up consecutive at the tail, with Suspend and Resume ended |
| StrokesProperties.StartStrokeBracketsLod0 | libs/image/kis_strokes_queue.cpp:182-247 | the same for startStroke as a whole |
| StrokesProperties.AdmitPairInsertsLod0BeforeResume | libs/image/kis_strokes_queue.cpp:228-229 | with a live Resume stroke, the Lod0 stroke goes immediately before the first one, after its buddy |
| StrokesProperties.StartStrokeInsertsLod0BeforeResume | libs/image/kis_strokes_queue.cpp:182-247 | the same for startStroke as a whole |
| StrokesProperties.InsertKeepsNoLiveResume | libs/image/kis_strokes_queue.cpp:126-137 | inserting a stroke that is not a live Resume stroke keeps the queue free of live Resume strokes |
| StrokesProperties.PlaceLod0HandleResolves | libs/image/kis_strokes_queue.cpp:207-238 | the id of the Lod0 stroke, placed in either branch, resolves to that stroke, which carries its buddy's id, and the id invariant is kept |
| StrokesProperties.BracketedLod0Resolves | libs/image/kis_strokes_queue.cpp:207-238 | the same when the Lod0 stroke is bracketed by Suspend and Resume |
| StrokesProperties.InsertedLod0Resolves | libs/image/kis_strokes_queue.cpp:228-238 | the same when the Lod0 stroke goes before a live Resume stroke |
| StrokesProperties.AdmitPairHandleResolves | libs/image/kis_strokes_queue.cpp:237-238 | the handle of the new Lod0 stroke resolves to it |
| StrokesProperties.AdmitLegacyHandleResolves | libs/image/kis_strokes_queue.cpp:237-238 | the handle of the new Legacy stroke resolves to it |
| StrokesProperties.StartStrokeHandleResolves | libs/image/kis_strokes_queue.cpp:237-246 | the handle startStroke returns resolves to an open stroke without jobs, of the kind admitted; the id invariant is kept and one more stroke is opened |
| StrokesProperties.AddJobRoutesCloneToBuddy | libs/image/kis_strokes_queue.cpp:256-265 | with a buddy and a clone, the clone goes to the buddy and the original to the stroke; nothing else changes |
| StrokesProperties.AddJobWithoutCloneAddsNothing | libs/image/kis_strokes_queue.cpp:258-260 | with a buddy and no clone, addJob adds nothing at all |
| StrokesProperties.AddJobWithoutBuddy | libs/image/kis_strokes_queue.cpp:256-265 | without a buddy, the job goes to the stroke only |
| StrokesProperties.EndStrokeEndsBuddy | libs/image/kis_strokes_queue.cpp:268-281 | endStroke ends the stroke and its buddy, nothing else, and closes one opened stroke |
| StrokesProperties.EndStrokeKeepsAllocated | libs/image/kis_strokes_queue.cpp:268-281 | endStroke keeps the id invariant |
| StrokesProperties.CancelStrokeCancelsBuddy | libs/image/kis_strokes_queue.cpp:283-298 | cancelStroke cancels the stroke and its buddy, closes one opened stroke and answers true; a handle that no longer resolves changes nothing and answers false |
| StrokesProperties.StartThenEndBalances | libs/image/kis_strokes_queue.cpp:240-275 | starting a stroke and then ending it leaves hasOpenedStrokes as it was |
| StrokesProperties.TryCancelCancelsOnlyEndedQueues | libs/image/kis_strokes_queue.cpp:311-351 | it acts exactly when the queue is non-empty and every stroke has ended; it then cancels every stroke, marks the cache stale iff a Lod0 stroke is queued, answers true and leaves the opened counter alone |
| StrokesProperties.SetDesiredLevelOfDetailIdempotent | libs/image/kis_strokes_queue.cpp:419-427 | requesting the LOD already requested does nothing, so requesting it twice is the same as once |
| StrokesProperties.SwitchKeepsRequest | libs/image/kis_strokes_queue.cpp:392-411 | a LOD switch never changes the requested LOD |
| StrokesProperties.SwitchDeferredWhileLodStrokesQueued | libs/image/kis_strokes_queue.cpp:395-398 | while any non-Legacy stroke is queued, a LOD switch changes nothing |
| StrokesProperties.SwitchStartsSyncStroke | libs/image/kis_strokes_queue.cpp:80-100 | an applied switch to a non-zero LOD appends one ended LodN sync stroke with the factory's jobs and clears the stale flag; a switch to LOD 0 adds no stroke and leaves the cache stale |
| StrokesProperties.NoFactoryNoSyncStroke | libs/image/kis_strokes_queue.cpp:86 | without a sync factory, startLod0ToNStroke changes nothing |
| StrokesProperties.SwitchAppendsSyncStrokes | libs/image/kis_strokes_queue.cpp:392-411 | a LOD switch only ever appends sync strokes, at most one |
| StrokesProperties.CheckStrokeStateDropsOnlyFinished | libs/image/kis_strokes_queue.cpp:522-531 | checkStrokeState drops strokes from the front only once they have ended and have no jobs (the first only while no stroke job runs), and otherwise only appends sync strokes |
| StrokesProperties.CheckStrokeStateFlags | libs/image/kis_strokes_queue.cpp:513-525 | an uninitialised head with jobs and a compatible LOD latches its exclusive and wrap-around flags; after a dequeue they are reset to false; otherwise they are unchanged |
| StrokesProperties.ProcessOneJobPopsOnlyAdmissible | libs/image/kis_strokes_queue.cpp:465-575 | the head's next job is handed out exactly when its LOD is compatible, an exclusive head sees no merge job, a sequential head sees no stroke job, and a barrier job sees no job and no external work; otherwise no job leaves the queue |
| StrokesProperties.ProcessOneJobOnEmptyQueue | libs/image/kis_strokes_queue.cpp:468 | on an empty queue processOneJob does nothing |
| StrokesProperties.ProcessQueueKeepsOneLevelOfDetail | libs/image/kis_strokes_queue.cpp:353-365 | processQueue hands out at most one job per spare thread, and once a LOD runs every further job has that LOD |
| StrokesProperties.ProcessQueueStep | libs/image/kis_strokes_queue.cpp:359-361 | one round of the loop: no job ends the run, a job starts the rest of it |
| StrokesProperties.SizeMetricBounds | libs/image/kis_strokes_queue.cpp:383-390 | sizeMetric is zero exactly for the empty queue, and otherwise at least the queue length and at least the head's job count |
| StrokesProperties.InitialStateValid | libs/image/kis_strokes_queue.cpp:32-78 | the empty queue is valid: every queued stroke's id, and its buddy's, is below the next id to hand out, and no two queued strokes share an id |
| StrokesProperties.StartLod0ToNStrokeKeepsValid | libs/image/kis_strokes_queue.cpp:80-100 | startLod0ToNStroke keeps the queue valid and never lowers the next id |
| StrokesProperties.CancelForgettableStrokesKeepsValid | libs/image/kis_strokes_queue.cpp:102-113 | cancelling the forgettable strokes keeps the queue valid |
| StrokesProperties.PairPreludeKeepsValid | libs/image/kis_strokes_queue.cpp:189-198 | the checks startStroke makes before it queues anything keep the queue valid |
| StrokesProperties.WithLodNBuddyDistinct | libs/image/kis_strokes_queue.cpp:200-205 | queueing the LodN buddy under a fresh id, with the suspend request its position needs, keeps every queued id distinct |
| StrokesProperties.PlaceLod0Distinct | libs/image/kis_strokes_queue.cpp:207-230 | placing a Lod0 stroke, bracketed or not, leaves every queued id distinct |
| StrokesProperties.BracketedLod0Distinct | libs/image/kis_strokes_queue.cpp:207-227 | the suspend, Lod0 and resume strokes placed together at a Resume keep every queued id distinct |
| StrokesProperties.InsertedLod0Distinct | libs/image/kis_strokes_queue.cpp:228-230 | the Lod0 stroke inserted at its position keeps every queued id distinct |
| StrokesProperties.StartStrokeKeepsValid | libs/image/kis_strokes_queue.cpp:182-247 | startStroke keeps the queue valid |
| StrokesProperties.AdmitPairDistinct | libs/image/kis_strokes_queue.cpp:191-230 | queueing a LodN stroke and its Lod0 buddy keeps every queued id distinct |
| StrokesProperties.AdmitLegacyDistinct | libs/image/kis_strokes_queue.cpp:232-235 | queueing a Legacy stroke last keeps every queued id distinct |
| StrokesProperties.AddJobKeepsValid | libs/image/kis_strokes_queue.cpp:249-266 | addJob on a queued stroke keeps the queue valid |
| StrokesProperties.EndStrokeKeepsValid | libs/image/kis_strokes_queue.cpp:268-281 | endStroke on a queued stroke keeps the queue valid |
| StrokesProperties.CancelStrokeKeepsValid | libs/image/kis_strokes_queue.cpp:283-298 | cancelStroke keeps the queue valid |
| StrokesProperties.TryCancelCurrentStrokeAsyncKeepsValid | libs/image/kis_strokes_queue.cpp:311-351 | tryCancelCurrentStrokeAsync keeps the queue valid |
| StrokesProperties.SwitchDesiredLevelOfDetailKeepsValid | libs/image/kis_strokes_queue.cpp:392-411 | a LOD switch keeps the queue valid |
| StrokesProperties.SetDesiredLevelOfDetailKeepsValid | libs/image/kis_strokes_queue.cpp:419-427 | setDesiredLevelOfDetail keeps the queue valid |
| StrokesProperties.ExplicitRegenerateLevelOfDetailKeepsValid | libs/image/kis_strokes_queue.cpp:413-417 | explicitRegenerateLevelOfDetail keeps the queue valid |
| StrokesProperties.DropHeadKeepsValid | libs/image/kis_strokes_queue.cpp:522-531 | dropping the finished head stroke keeps the queue valid |
| StrokesProperties.CheckStrokeStateKeepsValid | libs/image/kis_strokes_queue.cpp:491-535 | checkStrokeState keeps the queue valid |
| StrokesProperties.ProcessOneJobKeepsValid | libs/image/kis_strokes_queue.cpp:465-489 | processOneJob keeps the queue valid |
| StrokesProperties.ProcessQueueKeepsValid | libs/image/kis_strokes_queue.cpp:353-365 | processQueue keeps the queue valid |
| StrokesProperties.ValidHandleUnique | libs/image/kis_strokes_queue.cpp:249-298 | in a valid queue a handle resolves to the position of the stroke carrying it, so addJob, endStroke and cancelStroke act on that stroke and no other |
| ResourcePaths.MapTypeToStandardLocation | libs/widgetutils/KoResourcePaths.cpp:135-155 | "tmp" maps to the temp location, "cache" to the cache location, and every other type to the app data location |
| ResourcePaths.WithTrailingSlash | libs/widgetutils/KoResourcePaths.cpp:231-258 | the result ends in '/'; a name already ending in '/' is kept, any other gets one '/' appended |
| ResourcePaths.AddPath | libs/widgetutils/KoResourcePaths.cpp:238-268 | the result lists exactly the old entries and the new one; a listed entry changes nothing; otherwise it goes first with priority and last without |
| ResourcePaths.AddResourceType | libs/widgetutils/KoResourcePaths.cpp:225-244 | an empty relative name changes nothing; otherwise the type's list becomes its old list (empty for a new type) with the name, slash-terminated, put first with priority, last without it, and left out when already listed; no other type's list changes |
| ResourcePaths.AddResourceDir | libs/widgetutils/KoResourcePaths.cpp:252-268 | an empty directory or type changes nothing; otherwise the type's list becomes its old list (empty for a new type) with the directory, slash-terminated, put first with priority, last without it, and left out when already listed; no other type's list changes |
| ResourcePaths.Aliases | libs/widgetutils/KoResourcePaths.cpp:115-133 | the type's relative directories followed by its absolute ones; an unknown type contributes nothing |
| ResourcePaths.SaveLocation | libs/widgetutils/KoResourcePaths.cpp:450-465 | the path starts with the writable location; with aliases it ends in the first alias and ignores the suffix; without, it ends in "krita" or in "/" and the suffix |
| ResourcePaths.SaveLocationPath | libs/widgetutils/KoResourcePaths.cpp:450-465 | with aliases the path is the writable location, '/' and the first alias; without, it is the writable location with "/krita" added unless it already ends in "krita", then '/' and the suffix when there is one |
| ResourcePaths.SaveLocationIgnoresSuffix | libs/widgetutils/KoResourcePaths.cpp:453-455 | when the type has aliases, the save location is the same whatever the suffix |
| ResourcePaths.PriorityAbsoluteFollowsRelatives | libs/widgetutils/KoResourcePaths.cpp:262-265 | a new absolute directory added with priority becomes the first alias after the type's relative directories, ahead of the older absolute ones |
| ResourcePaths.AppendedAbsoluteIsLastAlias | libs/widgetutils/KoResourcePaths.cpp:266-267 | a new absolute directory added without priority becomes the last alias |
| ResourcePaths.ListedDirectoryIgnored | libs/widgetutils/KoResourcePaths.cpp:262 | adding an absolute directory the type already lists changes nothing |
| ResourcePaths.SplitFilter | libs/widgetutils/KoResourcePaths.cpp:385-389 | the filter split; SplitFilterShape and SplitFilterSingleStar state what it does |
| ResourcePaths.LocateLocal | libs/widgetutils/KoResourcePaths.cpp:499-504 | the file name under the save location of the type with an empty suffix |
| ResourcePaths.IndexOfChar | libs/widgetutils/KoResourcePaths.cpp:385 | the first index of the character, -1 exactly when it is absent |
| ResourcePaths.Split | libs/widgetutils/KoResourcePaths.cpp:386-387 | splitting gives at least one part |
| ResourcePaths.AddPathKeepsPathList | libs/widgetutils/KoResourcePaths.cpp:231-244 | adding a slash-terminated entry keeps the list slash-terminated and free of duplicates |
| ResourcePaths.AddResourceTypeKeepsWellFormed | libs/widgetutils/KoResourcePaths.cpp:220-248 | registering a relative name keeps every list slash-terminated and free of duplicates |
| ResourcePaths.AddResourceDirKeepsWellFormed | libs/widgetutils/KoResourcePaths.cpp:250-272 | registering an absolute directory keeps every list slash-terminated and free of duplicates |
| ResourcePaths.AddResourceTypeIdempotent | libs/widgetutils/KoResourcePaths.cpp:238 | registering the same relative name again changes nothing, whatever the priority |
| ResourcePaths.AddResourceDirIdempotent | libs/widgetutils/KoResourcePaths.cpp:262 | registering the same absolute directory again changes nothing, whatever the priority |
| ResourcePaths.PriorityRelativeIsFirstAlias | libs/widgetutils/KoResourcePaths.cpp:239-240 | a new relative name given priority becomes the type's first alias and so the directory the save location uses |
| ResourcePaths.AppendedRelativePrecedesAbsolutes | libs/widgetutils/KoResourcePaths.cpp:241-242 | a new relative name without priority follows the other relative names and precedes the absolute directories |
| ResourcePaths.SplitPartsFree | libs/widgetutils/KoResourcePaths.cpp:386-387 | no part of a split contains the separator |
| ResourcePaths.SplitJoin | libs/widgetutils/KoResourcePaths.cpp:386-387 | joining the parts with the separator gives the string back |
| ResourcePaths.SplitFilterShape | libs/widgetutils/KoResourcePaths.cpp:385-389 | a filter whose first '*' is past its start adds a non-empty alias without '*' and becomes a filter with its only '*' first; any other filter is left alone |
| ResourcePaths.SplitFilterSingleStar | libs/widgetutils/KoResourcePaths.cpp:385-389 | a filter with one '*', not at its start, splits into an alias and a filter that together give it back |
| ResourcePaths.ResourceRegistry.constructor | libs/widgetutils/KoResourcePaths.cpp:106-111 | both maps start empty |
| ResourcePaths.ResourceRegistry.AddResourceTypeInternal | libs/widgetutils/KoResourcePaths.cpp:220-248 | the relatives map becomes AddResourceType of the old one, the absolutes map is unchanged, and well-formedness is kept |
| ResourcePaths.ResourceRegistry.AddResourceDirInternal | libs/widgetutils/KoResourcePaths.cpp:250-272 | the absolutes map becomes AddResourceDir of the old one, the relatives map is unchanged, and well-formedness is kept |
| MimeDatabase.Filled | libs/koplugin/KisMimeDatabase.cpp:148 | an empty table is filled with the built-in entries; a filled one is left as it is |
| MimeDatabase.FirstWithPattern | libs/koplugin/KisMimeDatabase.cpp:37-68 | the first entry listing the pattern, or None exactly when no entry lists it |
| MimeDatabase.FirstWithMimeType | libs/koplugin/KisMimeDatabase.cpp:92-117 | the first entry for the mime type, or None exactly when there is none |
| MimeDatabase.SuffixPattern | libs/koplugin/KisMimeDatabase.cpp:58-61 | the pattern starts with "*."; a suffix already starting so is kept, any other gets "*." in front |
| MimeDatabase.LastIndexOfChar | libs/koplugin/KisMimeDatabase.cpp:36 | the last index of the character, -1 exactly when it is absent |
| MimeDatabase.FileSuffix | libs/koplugin/KisMimeDatabase.cpp:35-36 | a file's suffix contains neither '.' nor '/' |
| MimeDatabase.SystemAnswer | libs/koplugin/KisMimeDatabase.cpp:44-77 | the system answer, or the empty string for the octet-stream catch-all |
| MimeDatabase.RemoveAll | libs/koplugin/KisMimeDatabase.cpp:125 | the removed string is gone, every other string keeps its count, and a list without it is returned unchanged |
| MimeDatabase.RemoveAllConcat | libs/koplugin/KisMimeDatabase.cpp:125 | removing from a concatenation removes from each part and keeps their order |
| MimeDatabase.RemoveAllSingle | libs/koplugin/KisMimeDatabase.cpp:125 | removing from a one-element list leaves it, or empties it when the element is the one removed |
| MimeDatabase.PreferredFirst | libs/koplugin/KisMimeDatabase.cpp:121-131 | the preferred suffix comes first; a list already starting with it is unchanged; otherwise the result is the preferred suffix followed by the list with it removed, other suffixes in their order |
| MimeDatabase.SuffixesForMimeType | libs/koplugin/KisMimeDatabase.cpp:109-134 | the answer is never empty unless a table entry for the mime type lists no pattern |
| MimeDatabase.Separate | libs/koplugin/KisMimeDatabase.cpp:150-215 | the intended table: one entry per block with exactly that block's patterns |
| MimeDatabase.Accumulate | libs/koplugin/KisMimeDatabase.cpp:144-219 | one entry per block with that block's mime type and description; the first entry lists the reused value's suffixes and the first block's patterns, and each later entry lists the previous entry's suffixes followed by its own block's patterns |
| MimeDatabase.AccumulatedSuffixes | libs/koplugin/KisMimeDatabase.cpp:150-215 | entry k of the filled table lists the patterns of blocks 0 to k, with block k's mime type and description |
| MimeDatabase.FillAccumulates | libs/koplugin/KisMimeDatabase.cpp:150-215 | filling block by block with one reused value builds the accumulated table |
| MimeDatabase.SuffixLookupUnaffected | libs/koplugin/KisMimeDatabase.cpp:63-68 | despite the growing lists, a suffix lookup finds the entry of the block that first listed the pattern |
| MimeDatabase.NameLookupUnaffected | libs/koplugin/KisMimeDatabase.cpp:92-97 | a mime type lookup finds the same entry in the filled table and in the intended one |
| MimeDatabase.FilledIdempotent | libs/koplugin/KisMimeDatabase.cpp:148 | filling a filled table changes nothing |
| MimeDatabase.SuffixPatternPrefixOptional | libs/koplugin/KisMimeDatabase.cpp:58-61 | a suffix with or without "*." maps to the same mime type |
| MimeDatabase.MimeTypeForSuffixFirstMatch | libs/koplugin/KisMimeDatabase.cpp:63-68 | a listed suffix maps to the mime type of the first entry listing it, whatever the system says |
| MimeDatabase.MimeTypeForSuffixFallback | libs/koplugin/KisMimeDatabase.cpp:70-77 | an unlisted suffix gets the system answer, or the empty string for octet-stream |
| MimeDatabase.NameLookupsReadFirstEntry | libs/koplugin/KisMimeDatabase.cpp:92-117 | the description and the suffixes come from the same entry, the first for that mime type |
| MimeDatabase.SuffixesDefaultToKra | libs/koplugin/KisMimeDatabase.cpp:121-133 | with no entry and no usable system answer, the suffixes are [".kra"] |
| MimeDatabase.MimeTypeForFileUsesSuffix | libs/koplugin/KisMimeDatabase.cpp:35-42 | when the table lists the file's suffix, the file's mime type is that suffix's |
| MimeDatabase.MimeTypeForFileFallback | libs/koplugin/KisMimeDatabase.cpp:44-50 | when the table does not list the file's suffix, the file's mime type is the system answer for the whole file name, or the empty string for octet-stream |
| MimeDatabase.DescriptionFallback | libs/koplugin/KisMimeDatabase.cpp:99-106 | with no table entry for the mime type, the description is the system comment, or the empty string for octet-stream |
| MimeDatabase.MimeTypeForFile | libs/koplugin/KisMimeDatabase.cpp:31-51 | mimeTypeForFile; MimeTypeForFileUsesSuffix and MimeTypeForFileFallback state both of its paths |
| MimeDatabase.MimeTypeForSuffix | libs/koplugin/KisMimeDatabase.cpp:53-78 | mimeTypeForSuffix; SuffixPatternPrefixOptional, MimeTypeForSuffixFirstMatch and MimeTypeForSuffixFallback state it |
| MimeDatabase.DescriptionForMimeType | libs/koplugin/KisMimeDatabase.cpp:88-107 | descriptionForMimeType; NameLookupsReadFirstEntry and DescriptionFallback state both of its paths |
| MimeDatabase.PresetSuffixesAsWritten | libs/koplugin/KisMimeDatabase.cpp:150-164 | as written, the brush preset entry lists both Gimp brush patterns before its own |
| MimeDatabase.GbrMissingAsWritten | libs/koplugin/KisMimeDatabase.cpp:154 | as written, "gbr" is not a table suffix and falls through to the system database |
| MimeDatabase.IntendedBrushSuffixes | libs/koplugin/KisMimeDatabase.cpp:150-215 | in the intended table every entry lists only its own patterns, and "gbr" and "vbr" both map to the Gimp brush type |
| MimeDatabase.IntendedPresetSuffixes | libs/koplugin/KisMimeDatabase.cpp:162-165 | in the intended table the brush preset entry lists only "*.kpp" |
| MimeDatabase.KisMimeDatabase.constructor | libs/koplugin/KisMimeDatabase.cpp:28 | the static table starts empty |
| MimeDatabase.KisMimeDatabase.FillMimeData | libs/koplugin/KisMimeDatabase.cpp:144-219 | the table becomes Filled of the old one: built once, block by block, with one reused value |
| TextureTile.Intersect | libs/ui/opengl/kis_texture_tile_update_info.h:111 | a null side gives the null rectangle, and a non-null intersection lies inside both rectangles |
| TextureTile.IntersectContains | libs/ui/opengl/kis_texture_tile_update_info.h:111 | a point is in the intersection exactly when it is in both rectangles |
| TextureTile.NewTileUpdateInfo | libs/ui/opengl/kis_texture_tile_update_info.h:102-122 | the column, row, LOD, original tile and image rectangles are kept; at LOD 0 the patch is the tile intersected with the update; otherwise the original patch is that intersection aligned, and the patch and tile are the scaled original patch and tile |
| TextureTile.PatchInsideTile | libs/ui/opengl/kis_texture_tile_update_info.h:219-223 | at LOD 0 a non-empty patch has a non-negative offset and does not reach past the tile |
| TextureTile.EntireTileUpdatedIff | libs/ui/opengl/kis_texture_tile_update_info.h:249-251 | at LOD 0 the whole tile is updated exactly when the update covers every point of the tile |
| TextureTile.EdgesOfEntireTile | libs/ui/opengl/kis_texture_tile_update_info.h:233-251 | when the whole tile is updated at LOD 0, each edge predicate compares that edge of the tile with the image's |
| TextureTile.EdgesReachImage | libs/ui/opengl/kis_texture_tile_update_info.h:233-247 | at LOD 0, an edge predicate holds of a non-empty patch only when both the tile and the update reach that edge of the image |
| TextureTile.RealPatchOffset | libs/ui/opengl/kis_texture_tile_update_info.h:220-223 | when the whole tile is updated the patch offset is (0, 0); PatchInsideTile bounds it otherwise |
| TextureTile.IsEntireTileUpdated | libs/ui/opengl/kis_texture_tile_update_info.h:249-251 | isEntireTileUpdated; EntireTileUpdatedIff states it |
| TextureTile.IsTopmost | libs/ui/opengl/kis_texture_tile_update_info.h:233-235 | isTopmost; EdgesOfEntireTile and EdgesReachImage state it |
| TextureTile.IsLeftmost | libs/ui/opengl/kis_texture_tile_update_info.h:237-239 | isLeftmost; EdgesOfEntireTile and EdgesReachImage state it |
| TextureTile.IsRightmost | libs/ui/opengl/kis_texture_tile_update_info.h:241-243 | isRightmost; EdgesOfEntireTile and EdgesReachImage state it |
| TextureTile.IsBottommost | libs/ui/opengl/kis_texture_tile_update_info.h:245-247 | isBottommost; EdgesOfEntireTile and EdgesReachImage state it |
| TextureTile.PatchPixelsLength | libs/ui/opengl/kis_texture_tile_update_info.h:134 | the length is below 2^32 and equals pixel size times width times height when that product fits |
| TextureTile.Buffer.constructor | libs/ui/opengl/kis_texture_tile_update_info.h:43 | a new buffer has size zero |
| TextureTile.Buffer.EnsureNotSmaller | libs/ui/opengl/kis_texture_tile_update_info.h:54-67 | the size is at least the request and never shrinks; a larger request gets a new array of exactly that size, any other changes nothing |
| TextureTile.Buffer.Swap | libs/ui/opengl/kis_texture_tile_update_info.h:45-48 | the two buffers exchange arrays and sizes |
| TextureTile.SwapTwice | libs/ui/opengl/kis_texture_tile_update_info.h:45-48 | swapping twice restores both buffers |
| TextureTile.FlagOps | libs/ui/opengl/kis_texture_tile_update_info.h:175-182 | a channel whose flag is set is copied, any other is zeroed |
| TextureTile.SingleChannelOps | libs/ui/opengl/kis_texture_tile_update_info.h:159-168 | colour channels take the selected channel, alpha is copied, other channels are not written |
| TextureTile.CopyBytes | libs/ui/opengl/kis_texture_tile_update_info.h:160-162 | memcpy: the n destination bytes become the source bytes; nothing else changes |
| TextureTile.FillZero | libs/ui/opengl/kis_texture_tile_update_info.h:181 | memset: the n bytes become zero; nothing else changes |
| TextureTile.CopyChannels | libs/ui/opengl/kis_texture_tile_update_info.h:156-185 | every byte of every written channel slot of every pixel gets what its channel's operation says; every other byte is unchanged |
| TextureTile.RetrieveOps | libs/ui/opengl/kis_texture_tile_update_info.h:154-175 | single-channel mode when one channel is selected and not shown as colour, flag mode over all channels otherwise |
| TextureTile.RetrieveData | libs/ui/opengl/kis_texture_tile_update_info.h:144-189 | no flags changes nothing; otherwise the cache grows to the patch length, the patch ends up holding the converted bytes, and the cache holds the bytes read |
| TextureTile.FlagModeBytes | libs/ui/opengl/kis_texture_tile_update_info.h:173-185 | in flag mode a patch byte is the source byte when its channel is flagged and zero otherwise; bytes past the last channel are not written |
| TextureTile.SingleChannelBytes | libs/ui/opengl/kis_texture_tile_update_info.h:154-171 | in single-channel mode colour bytes come from the selected channel of the same pixel, alpha bytes are copied, and other bytes are not written |
| TabletX11.Translate | krita/ui/input/wintab/kis_tablet_support_x11.cpp:317-466 | the event has the kind given, its target and the new grab follow Grab, its buttons are the state's, and its button is none for a move and the translated X button otherwise |
| TabletX11.TranslateMouseButtons | krita/ui/input/wintab/kis_tablet_support_x11.cpp:297-307 | Left iff Button1Mask, Mid iff Button2Mask, Right iff Button3Mask, and no other bit |
| TabletX11.TranslateMouseButton | krita/ui/input/wintab/kis_tablet_support_x11.cpp:309-315 | buttons 2 and 3 are Mid and Right; every other number, button 1 included, is Left |
| TabletX11.ToolDeviceType | krita/ui/input/wintab/kis_tablet_support_x11.cpp:240-281 | mouse ids give FourDMouse, lens ids Puck, eraser ids XFreeEraser, airbrush ids Airbrush, and every other id Stylus |
| TabletX11.FetchWacomToolId | krita/ui/input/wintab/kis_tablet_support_x11.cpp:224-285 | without the library, configuration or device nothing changes; otherwise the tool's type and serial replace them |
| TabletX11.ListedTypes | krita/ui/input/wintab/kis_tablet_support_x11.cpp:336-400 | an eraser is reported as a stylus with an eraser pointer, a stylus gets a pen pointer, and an unlisted device has no device and no known pointer |
| TabletX11.Short | krita/ui/input/wintab/kis_tablet_support_x11.cpp:406-417 | the (short) cast: a value in 16-bit range is kept, others wrap modulo 2^16 |
| TabletX11.Grab | krita/ui/input/wintab/kis_tablet_support_x11.cpp:428-443 | a press records its target, a release clears the record, a move keeps it, and a recorded widget always receives the event |
| TabletX11.DeviceAndPointerReported | krita/ui/input/wintab/kis_tablet_support_x11.cpp:385-402 | the sent event's device and pointer type: the listed mapping, with the Wacom library's tool type replacing the device type only |
| TabletX11.AirbrushRotationIsTangentialPressure | krita/ui/input/wintab/kis_tablet_support_x11.cpp:405-425 | for an airbrush the rotation axis becomes tangential pressure and the rotation is 0; otherwise the rotation is the axis in 64ths |
| TabletX11.GrabRun | krita/ui/input/wintab/kis_tablet_support_x11.cpp:428-443 | one target per event of a run |
| TabletX11.MotionsKeepGrab | krita/ui/input/wintab/kis_tablet_support_x11.cpp:428-443 | while a widget is recorded, every motion goes to it and the record survives |
| TabletX11.PressMotionsRelease | krita/ui/input/wintab/kis_tablet_support_x11.cpp:428-443 | press, motions, release: the release goes to the press's widget wherever the pointer is, and the record is cleared |
| TabletX11.RunAppend | krita/ui/input/wintab/kis_tablet_support_x11.cpp:428-443 | a run of two parts is the second part run from the first part's grab |
| TabletX11.FilterResult | krita/ui/input/wintab/kis_tablet_support_x11.cpp:478-522 | a choked core mouse event is eaten and clears the flag; otherwise the answer is the tablet path's and an accepted event sets the flag |
| TabletX11.ExactlyOneMouseEventSwallowed | krita/ui/input/wintab/kis_tablet_support_x11.cpp:478-516 | after an accepted tablet event the next core mouse event is eaten, and one after it that no tablet handles passes |
| TabletX11.TabletDevice.constructor | krita/ui/input/wintab/kis_tablet_support_x11.cpp:428 | a device starts with no recorded widget |
| TabletX11.FirstWithDeviceId | krita/ui/input/wintab/kis_tablet_support_x11.cpp:385-400 | the first listed device with the id, or None exactly when no device has it |
| TabletX11.FirstHandling | krita/ui/input/wintab/kis_tablet_support_x11.cpp:490-495 | the first device that handles the event type, or None exactly when none does |
| TabletX11.FirstIndexUnique | krita/ui/input/wintab/kis_tablet_support_x11.cpp:385-400 | the device search stops at the first device with the id |
| TabletX11.FirstHandlingUnique | krita/ui/input/wintab/kis_tablet_support_x11.cpp:490-495 | the eventFilter search stops at the first device handling the type |
| TabletX11.TabletSupportX11.constructor | krita/ui/input/wintab/kis_tablet_support_x11.cpp:48 | the choke flag starts false |
| TabletX11.TabletSupportX11.FindDevice | krita/ui/input/wintab/kis_tablet_support_x11.cpp:385-400 | the loop finds the first device with the id |
| TabletX11.TabletSupportX11.FindHandling | krita/ui/input/wintab/kis_tablet_support_x11.cpp:490-495 | the loop finds the first device handling the type |
| TabletX11.TabletSupportX11.ResolveDevice | krita/ui/input/wintab/kis_tablet_support_x11.cpp:385-400 | the device with the event's id replaces the one passed in, and its type gives the device and pointer type |
| TabletX11.TabletSupportX11.RouteEvent | krita/ui/input/wintab/kis_tablet_support_x11.cpp:428-443 | the target and the device's new grab follow Grab |
| TabletX11.TabletSupportX11.TranslateXinputEvent | krita/ui/input/wintab/kis_tablet_support_x11.cpp:317-466 | the event sent is Translate's, the answer is its target's, and only the grab of the device in use changes |
| TabletX11.TabletSupportX11.EventFilter | krita/ui/input/wintab/kis_tablet_support_x11.cpp:473-523 | a choked mouse event is eaten; otherwise the first handling device translates the event, sent to the popup, else the modal widget, else the window's widget; the answer and the flag follow FilterResult |

## Left out

- Locking: the queue's mutex and the updater context's lock, and the registry's two mutexes, are left out. Every operation is modelled as sequential.
- `KisStroke` is abstracted to a record: its kind, LOD, jobs, the ended/cancelled/initialised flags, the buddy, the suspend requests, and the strategy's fixed answers. `KisStroke` is not part of this model, so each rule below about what it does is an assumption.
- StrokesModel.NewStroke: a new stroke is assumed to start open, uninitialised, not cancelled, without a buddy and with no jobs. Any initialisation job the real `KisStroke` constructor queues is not modelled, so StartStrokeHandleResolves ("an open stroke without jobs") and the point at which CheckStrokeState first sees the stroke's jobs rest on this assumption.
- StrokesModel.EndOne: `KisStroke::endStroke` is assumed only to mark the stroke ended. Any finishing job it may queue is not modelled, so an ended stroke leaves the queue as soon as its own jobs are gone.
- StrokesModel.CancelOne: `KisStroke::cancelStroke` is assumed to mark the stroke ended and cancelled and to drop its pending jobs. The stroke's `cancelStrokeCallback` and any rollback job the strategy queues are not modelled. CheckStrokeState therefore dequeues a cancelled head at once when no stroke job is running (kis_strokes_queue.cpp:522-531), and does not first dispatch a cancellation job.
- StrokesModel.AddOneJob: a cancelled stroke is assumed to drop the job it is given.
- StrokesModel.AddJob, StrokesModel.EndStroke: `requires Resolves(s.strokes, id)` stands for `Q_ASSERT(stroke)` (kis_strokes_queue.cpp:254 and 273). A null handle is a fatal caller error in the source and is not modelled as an outcome.
- The strategies' and job data's `createLodClone` results, and the three strategy factories, are parameters.
- Job execution and `KisUpdaterContext` are left out. The context is a record of spare threads, running merge and stroke jobs, and the LOD running on the CPU.
- StrokesModel.AddStrokeJob: the model assumes that `KisUpdaterContext::addStrokeJob` (called at kis_strokes_queue.cpp:484) takes one spare thread, counts one more running stroke job and sets the running LOD to the job's. `KisUpdaterContext` is not part of this model, so ProcessQueue and ProcessQueueKeepsOneLevelOfDetail rest on that assumption.
- Stroke handles are ids: a handle resolves while its stroke is queued. The ids a stroke gets stand for object identity. They are not the source's allocation order. StrokesProperties.Valid states that queued ids are distinct, and every operation keeps it.
- StrokesModel.SizeMetric: the product is an unbounded integer. The source computes it in `qint32` (kis_strokes_queue.cpp:389), and the wrap-around past 2^31 - 1 is not modelled.
- `currentStrokeName`, `needsExclusiveAccess` and `wrapAroundModeSupported` only read a field; the flags are state of the model.
- `tryCancelCurrentStrokeAsync` does not look at the jobs running in the pool (kis_strokes_queue.cpp:311-351); the model follows it.
- The filter split takes `split('*')[1]`, the text between the first and the second '*' (KoResourcePaths.cpp:385-387); the model follows it.
- The suspend and resume factories are called unconditionally, as the code does. The model does not skip the bracket when they are unset.
- QStandardPaths is the `writable` parameter of the save location. The following are left out because they touch the filesystem or the OS:
  - `QDir::mkpath` and `QDir::cleanPath`;
  - `findResourceInternal`, `findDirsInternal` and `filesInDir`;
  - the directory scans of `findAllResourcesInternal` and `resourceDirsInternal`;
  - the installation-prefix lookup.
- Case-insensitive path comparison on Windows is left out. Entries are compared exactly.
- Localisation: the mime descriptions are the untranslated strings `i18nc` is given.
- The system mime database is a pair of function parameters for `mimeTypeForFile` and `mimeTypeForName`. `mimeTypeForData` and `iconNameForMimeType` only forward to it and are left out.
- MimeDatabase.FileSuffix: `QFileInfo::suffix` is modelled as the text after the last '.' of the part after the last '/'. Other path syntax is not modelled.
- `readBytes`, `convertPixelsTo` and KisLodTransform are left out. The bytes read are the patch buffer's contents. The aligned and scaled rectangles are function parameters.
- TextureTile.RetrieveData: the requirement `|channels| * channelSize <= pixelSize` states the source's assumption that every channel has the size of the selected one, which its memcpy stride relies on. The source does not check it.
- TextureTile.RetrieveData starts after the patch cache swap and `readBytes` (lines 135-140).
- The per-thread `QThreadStorage` conversion cache, the destructor's swap, and the out-of-memory dialog with `qFatal` are left out.
- TextureTile.RetrieveData: when the conversion cache has to grow, the bytes the single-channel copy does not write are left unstated. The new array is zero-initialised in Dafny, while `new quint8[size]` in the source is not initialised. When the cache does not grow, every byte is stated.
- TextureTile.Rect: rectangles have non-negative width and height. Negative-size QRects are not modelled.
- TextureTile.Buffer.EnsureNotSmaller: the request is a non-negative integer, so the `int` conversion of `patchPixelsLength` is not modelled.
- The following X11 plumbing is left out:
  - `kis_x11_init_tablet`, the device enumeration, and `scaleCoord`;
  - pressure, tilt, z, the high-resolution position and the keyboard modifiers;
  - `mapFromGlobal`.
- X11 calls the model takes as parameters:
  - `childAt` is a parameter;
  - `QApplication::sendEvent` is an `accepts` predicate over the target and the event;
  - the widget chain of `eventFilter` (popup, modal, window) is given as optional widgets;
  - the Wacom library's answer is an `Option` parameter.
- TabletX11.TabletSupportX11.TranslateXinputEvent: the `qFatal` for an event type the device does not handle is a precondition.

## Findings

| source | as written | input that shows it | evidently intended | confidence | as-written member | corrected member |
|---|---|---|---|---|---|---|
| libs/koplugin/KisMimeDatabase.cpp:150-215 | one `KisMimeType` value is reused and `suffixes <<` appends to it, so each entry lists the patterns of every earlier entry | `suffixesForMimeType("application/x-krita-paintoppreset")` lists "*.gbr,*vbr" and "*.gih" before "*.kpp" | each entry lists only its own patterns | not executed | MimeDatabase.PresetSuffixesAsWritten | MimeDatabase.IntendedPresetSuffixes |
| libs/koplugin/KisMimeDatabase.cpp:154 | `"*.gbr,*vbr"` is one pattern string, so neither suffix is in the table | `mimeTypeForSuffix("gbr")` falls through to the system database | two patterns "*.gbr" and "*.vbr" mapping to image/x-gimp-brush | not executed | MimeDatabase.GbrMissingAsWritten | MimeDatabase.IntendedBrushSuffixes |

