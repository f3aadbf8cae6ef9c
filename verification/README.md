# Kopf: a verified model of the reconciler

Kopf is a framework of Kubernetes operators. Its core watches objects, calls handlers of their changes, keeps the progress
and the last-handled essence in the objects themselves, and patches them while others patch them too. This project models
that core in Dafny and proves what it promises. `dafny verify dfyconfig.toml` checks everything.

The code that changes things step by step is modelled by classes and methods with loops, each proved against a function or
a relation on values; the promises are lemmas about these. The asynchronous protocols are state machines: a step is what runs
between two points where a coroutine gives the control away, the steps of all the coroutines interleave in any order, and the
lemmas speak of every run. A condition variable is never held across such a point, so that what is done under it is one step.

## Modules

- `Trees`, `MergePatches`, `Diffs`, `Fields`, `Agreement`: JSON-like trees, path operations, merge-patches, scoped diffs.
- `Conventions`, `Essences`, `Extracts`, `Blindness`, `SelfTriggering`, `Cycles`, `Causes`: what the operator stores in an
  object, and why it does not react to that.
- `Progress`, `Writes`: the states of the handlers stored in an object, loaded, and purged.
- `Patching`, `Finalizing`: patching with optimistic concurrency, and the transformation functions of the finalizers.
- `Queueing`, `Reactors`: the watcher and its per-object workers. `Barrier`, `Orchestration`: the startup barrier.
- `Execution`, `Activities`, `Daemons`, `Processing`: handlers, activities, daemons, and the release of deleted objects.
- `Scheduling`, `Indexing`, `Vaults`: the pool of tasks, the in-memory indices, the credentials.

## Where the code and its promises differ

The model follows the code. These differences are stated as lemmas, with the exact conditions where they are known:

- `Patching.PatchingExactly`, `Patching.RefusedMergeLoses`: a merge-patch refused with the status 422 is not caught as the
  JSON-patches are; the transformation functions queued in that cycle are forgotten.
- `Patching.SplittingExactly`, `Patching.OneMoveSplitsExactly`, `Patching.MovesAreHalfDone`: the operations for the body and for
  the status subresource are sent apart. If the JSON-patch library emits a "move" between the two, only a half of it is done,
  unless it takes nothing out of its source; and nothing remains for the next cycle. `Patching.UncrossedSplits`: with no such
  moves in the call, nothing is lost. The condition is on the operations of each call; nothing like that is required of the library.
- `Cycles.SelfTriggeringExactly`, `Cycles.OwnWriteIsUpdate`: the operator reacts to its own first write, as to an update, exactly
  if that write reveals the prefix of the annotations as an operator's own, while foreign annotations are kept under the same prefix.
- `Barrier.StoppedInListing`, `Barrier.StoppedInIndexing`, `Barrier.ReadinessIsReachableExactly`: a watcher that is stopped
  while it lists or indexes leaves its toggles in the barrier, and the operator is never ready after that.
- `Barrier.LimitCanDeadlock`, `Barrier.NoRoomIsNeverReady`: the deadlock of a limited number of workers at the startup, which is
  known to docs/indexing.rst; it is exactly when some watcher has more workers that will hold their places until the readiness
  than places.
- `Processing.InconsistentReleaseExactly`, `Processing.DaemonsAreReleasedInconsistently`: the comment in
  kopf/_core/reactor/processing.py:312 says that an object is never released in the inconsistent state. It is: if nobody needs
  the finalizer, before the gate (lines 303-306); or if it is being deleted, and has only daemons, which are over, so that there
  is nothing to wait for in the gate.
- `Daemons.CancelledExactly`, `Daemons.CanBeAbandonedUncancelled`: a daemon can be given up without being cancelled if it was
  not checked in the time for the cancellation.
- `Extracts.OwnKeysAreSeen`: the storages write no marker under a prefix that begins with `kopf.`, but only kopf.zalando.org
  and its subdomains are known without it; under any other such prefix, the operator's annotations are essential for the others.
- `Progress.RecordRoundTripExactly`: an empty purpose of a handler is loaded as no purpose.
  `Progress.SharedKeysLose`: handlers named `a/b` and `a.b` share their annotations. `Progress.OwnersCanRename`: a patch that
  gives a replica set its deployment has the records stored under one name and looked for under another.

## Model

| member | source | states |
|---|---|---|
| `Trees.ResolveField` | kopf/_cogs/structs/dicts.py:84-133 | The walk with a default gives the value at the path, or the default if a key is absent or a non-dict is on the way. |
| `Trees.LeafAfterEnsure` | kopf/_cogs/structs/dicts.py:136-156 | After setting a field, every path under it holds what was put there, and every other path holds what it held before. |
| `Trees.LeafAfterRemove` | kopf/_cogs/structs/dicts.py:159-195 | After removing a field nothing is under it, and dropping the emptied parents loses no other value. |
| `Trees.ClearMeansNoLeafAbove` | kopf/_cogs/structs/dicts.py:136-195 | A path operation raises a type error exactly when some non-dict is above the end of the path. |
| `Trees.SameLeavesSamePruned` | kopf/_cogs/structs/dicts.py:159-195 | Two trees are equal after pruning the empty dicts exactly when they hold the same values at the same paths. |
| `MergePatches.Dict.Ensure` | kopf/_cogs/structs/dicts.py:136-156 | The walk down the parents and the rebuilding fail, changing nothing, exactly if a value is above the field; or else every path under the field holds what was put there, and every other path what it held. |
| `MergePatches.Dict.Remove` | kopf/_cogs/structs/dicts.py:159-195 | The recursion fails, changing nothing, exactly if a value is above the field; or else nothing is under the field, and no other value is lost with the emptied parents. |
| `MergePatches.LeafOfMergePatch` | kopf/_cogs/structs/patches.py:149-162 | MergePatch of section 2 of RFC 7386, value by value: what the patch says for the path, or else what was there. |
| `MergePatches.Dict.ApplyPatch` | kopf/_cogs/structs/patches.py:149-162 | Leaf-by-leaf application from the root, in whatever order of keys, has the effect of the patch at every path; it cannot fail if nothing is in its way. |
| `MergePatches.Dict.Merge` | kopf/_cogs/structs/patches.py:138-162 | Applying a patch in memory succeeds and equals RFC 7386 up to empty objects if and only if the objects of the patch meet only objects or nothing. |
| `Diffs.DiffOfDicts` | kopf/_cogs/structs/diffs.py:144-186 | An item is in the diff of two dicts exactly when its tail is in the diff of the members it goes through, within the scope. |
| `Diffs.DiffExactly` | kopf/_cogs/structs/diffs.py:144-186 | For every scope, an item is in the diff exactly if its values are those of the two trees at its field, they differ and are not two dicts, all the parents are dicts on both sides, and the scope has it; it is an addition exactly if there was nothing, a removal exactly if there is nothing now, and a change otherwise. |
| `Diffs.FieldDiffsCommute` | kopf/_cogs/structs/diffs.py:113-186 | Reducing a diff to a field gives exactly the diff of the two fields, for all trees and paths. |
| `Diffs.AdjustedCauseKeepsDiff` | kopf/_core/intents/handlers.py:29-36 | A cause narrowed to the field of a handler still has the diff of its own old and new states. |
| `Diffs.EmptyDiffExactly` | kopf/_cogs/structs/diffs.py:144-186 | The full diff is empty exactly when the trees are equal but for null members. |
| `Causes.ReasonsAreExact` | kopf/_core/intents/causes.py:310-339 | Each reason, exactly: by the deletion and its blocking, by what is stored, and by whether the two essences are equal but for null members; an unchanged object is resumed exactly if it is seen for the first time. |
| `Diffs.FieldsAreApart` | kopf/_cogs/structs/diffs.py:144-186 | No item of a diff is at or under the path of another item. |
| `Diffs.OneItemLess` | kopf/_cogs/structs/diffs.py:144-186 | Writing one item of the diff into the old tree leaves exactly the other items to write. |
| `Diffs.FullDiffIsComplete` | kopf/_cogs/structs/diffs.py:144-186 | Writing all the items of the full diff, in any order, turns the old tree into the new one. |
| `Diffs.LeftDiffDecidesSatisfaction` | kopf/_core/actions/application.py:141-149 | The left-scoped diff of a patch against a body is empty exactly when RFC 7386 leaves that body unchanged. |
| `Fields.EnsureElsewhere` | kopf/_cogs/structs/dicts.py:136-156 | Setting a field neither changes nor breaks the fields that are not above or below it. |
| `Fields.RemoveElsewhere` | kopf/_cogs/structs/dicts.py:159-195 | Removing a field, with its emptied parents, neither changes nor breaks the fields that are not above or below it. |
| `Fields.FieldOfMerged` | kopf/_cogs/clients/patching.py:44-67 | What the server has in a field after a merge-patch: the old value, nothing, or the merge, by what the patch has at that path. |
| `Agreement.SameWhenRemoved` | kopf/_cogs/configs/progress.py:362-370 | Two trees that differ only at a path are the same once it is removed with its emptied parents. |
| `Agreement.AgreeAfterEnsure` | kopf/_cogs/structs/dicts.py:198-213 | Picking the same field into two trees that differ only at a path keeps them so. |
| `Agreement.AgreeAfterRemoval` | kopf/_cogs/configs/diffbase.py:91-97 | Removing the same field from two trees that differ only at a path keeps them so. |
| `Conventions.DetectMarkedPrefixes` | kopf/_cogs/configs/conventions.py:231-243 | The loop collects exactly the prefixes of the marked keys. |
| `Conventions.KeyUnderPrefix` | kopf/_cogs/configs/diffbase.py:80-82 | A key starts with the prefix and a slash exactly when that is what is before its first slash. |
| `Conventions.SafeKeysAreSafe` | kopf/_cogs/configs/conventions.py:151-156 | Only the characters that are not for annotations are replaced, each by one other, and once is enough. |
| `Conventions.NamesFit` | kopf/_cogs/configs/conventions.py:176-182 | The name after the prefix is never longer than 63 characters: it is the whole id if that fits, or its beginning with the digest, as long as possible. |
| `Conventions.OlderNamesFit` | kopf/_cogs/configs/conventions.py:158-174 | The older keys are never longer than 63 characters with the prefix, if it leaves a place for the digest: the whole one if that fits, or its beginning with the digest. |
| `Conventions.BothNamesAreUsed` | kopf/_cogs/configs/conventions.py:145-149 | The keys are exactly the present one, which is the first, and the older one, if these are supported; none of them twice. |
| `Conventions.DroppedByMark` | kopf/_cogs/configs/diffbase.py:78-84 | An annotation is dropped exactly when it is of kubectl, or when some marked key has the same prefix. |
| `Conventions.WithoutAnnotations` | kopf/_cogs/configs/conventions.py:266-275 | Removing annotations leaves exactly the others. |
| `Conventions.WithoutEmptyStanzas` | kopf/_cogs/configs/conventions.py:277-287 | Dropping the empty stanzas only cuts something out of the essence. |
| `Essences.Selected` | kopf/_cogs/configs/diffbase.py:55-74 | The content with the labels and annotations is a part of the body. |
| `Essences.Build` | kopf/_cogs/configs/diffbase.py:55-142 | The essence is always cut out of the body: nothing is added to it or changed in it. |
| `Essences.Cleared` | kopf/_cogs/configs/progress.py:236-242 | The cleared essence is cut out of the essence. |
| `Blindness.ContentIsAlike` | kopf/_cogs/configs/diffbase.py:55-84 | Bodies that differ only in the framework's own annotations, its status field, and volatile metadata have alike contents. |
| `Blindness.PickedAllAreAlike` | kopf/_cogs/configs/diffbase.py:86-87 | The restoring of harmless extra fields keeps the essences alike. |
| `Blindness.FewerFieldsAreAlike` | kopf/_cogs/configs/diffbase.py:91-97 | The removal of ignored fields, whatever they are, keeps the essences alike. |
| `SelfTriggering.SurvivorsExactly` | kopf/_cogs/configs/diffbase.py:78-84 | The foreign annotations left are the same before and after the framework's writes exactly when the diff-base's prefix is detected equally, or hides no foreign annotation. |
| `SelfTriggering.EssenceIsBlind` | kopf/_core/reactor/processing.py:178-181 | The essence built and cleared from the body does not change with the framework's own writes and with volatile metadata. |
| `SelfTriggering.EssentialAnnotations` | kopf/_cogs/configs/diffbase.py:78-84 | Which annotations the essence has, when no extra or ignored fields reach into the metadata. |
| `SelfTriggering.SomeAnnotationDiffers` | kopf/_cogs/configs/diffbase.py:78-84 | If the prefix is detected differently and hides something foreign, then some foreign annotation is essential only before or only after the writes. |
| `SelfTriggering.EssenceIsBlindExactly` | kopf/_core/reactor/processing.py:178-181 | With no such fields, the essence survives the writes if and only if the prefix of the diff-base is detected equally or hides nothing foreign. |
| `Extracts.EssenceExactly` | kopf/_cogs/configs/diffbase.py:55-142 | Value by value: the essence has, as it is in the body, exactly what is of the content or is asked for, and is neither ignored, nor of the diff-base or the progress of the operator, nor of any other operator unless asked for. |
| `Extracts.LastSeenIsCleared` | kopf/_core/reactor/processing.py:178-181 | The last-seen state is exactly what was stored without the operator's own progress. |
| `Extracts.OwnKeysAreSeen` | kopf/_cogs/configs/conventions.py:231-259 | After the merge of what was stored, the other operators drop the annotation from their essences exactly if the prefix is of the framework's own domain or is marked; it is marked exactly if it does not begin with `kopf.`, or the marker is there anyway. |
| `Cycles.Fetch` | kopf/_cogs/configs/diffbase.py:144-154 | The loop gives what the first of the keys with anything decoded has. |
| `Cycles.FetchedExactly` | kopf/_cogs/configs/diffbase.py:144-154 | What is fetched is what the first of the keys holds that holds anything, and nothing exactly if none does. |
| `Cycles.Store` | kopf/_cogs/configs/diffbase.py:156-167 | All the keys and the marker, if it is neither in the body nor in the patch, are written into the patch in place. |
| `Cycles.MergedIsAlike` | kopf/_cogs/clients/patching.py:44-67 | A merged patch of framework writes changes only the own annotations and the own status field. |
| `Cycles.ClearedTwice` | kopf/_core/reactor/processing.py:178-181 | Clearing of an essence that is cleared already changes nothing, so that the stored essence is compared as it is. |
| `Cycles.ReadBack` | kopf/_cogs/configs/diffbase.py:144-167 | After the merge, the last-handled essence is read back exactly: the new one if it was stored, or else the old record. |
| `Cycles.NoSelfTriggering` | kopf/_core/reactor/processing.py:519-525 | After a finished cycle, the event with the merged body rebuilds the stored essence exactly, and is classified as NOOP, if storing reveals nothing. |
| `Cycles.EssenceStaysExactly` | kopf/_core/reactor/processing.py:519-525 | If a new essence is stored, and the extra and ignored fields are outside of the metadata, the essence is rebuilt equal if and only if the write reveals nothing. |
| `Cycles.SelfTriggeringExactly` | kopf/_core/reactor/processing.py:440-538 | Then the event about the own patch is classified as NOOP if the write reveals nothing, and as UPDATE if it does. |
| `Cycles.OwnWriteIsUpdate` | kopf/_cogs/configs/diffbase.py:78-84 | With the prefix `a.b` of the diff-base, and an annotation `a.b/x` of somebody else, the first own patch of the object is classified as UPDATE. |
| `Cycles.NewObjectSettles` | kopf/_core/reactor/processing.py:440-538 | A new object with any specification is classified for creation, and after its first finished cycle as NOOP. |
| `Progress.RecordRoundTripExactly` | kopf/_core/actions/progression.py:145-183 | The record of a handler, full or pure, is loaded as the same inactive state exactly if its purpose is not empty text. |
| `Progress.StoreState` | kopf/_core/actions/progression.py:320-331 | The loop writes the changed states only, in their order, into the patch in place. |
| `Progress.UnchangedIsNotStored` | kopf/_core/actions/progression.py:320-331 | The states that are as they were loaded leave the patch as it was. |
| `Progress.ProgressRoundTrip` | kopf/_core/actions/progression.py:255-331 | Storing a state, merging the patch and loading again gives every record back, for ids with disjoint annotations in a patch not touching them, if the ids are still named in the same way. |
| `Progress.OlderRecordsAreFound` | kopf/_cogs/configs/progress.py:176-188 | A record is taken from the present annotation, or else from the older one, or else from the status, exactly in this order. |
| `Progress.StoredNamesAreKept` | kopf/_cogs/configs/conventions.py:69-75 | They are, if the patch touches neither the kind nor the owners of the object. |
| `Progress.OwnersCanRename` | kopf/_cogs/configs/conventions.py:69-75 | A patch that gives a replica set its deployment changes the names. |
| `Progress.SharedKeysLose` | kopf/_cogs/configs/conventions.py:145-182 | Different handler ids can have the same annotations. |
| `Progress.Purge` | kopf/_cogs/configs/progress.py:205-220 | The loop marks what is in the body for deletion, and drops what is only in the patch; it stops at the first field that is in the body, while the patch is broken above it. |
| `Progress.PurgeErases` | kopf/_core/actions/progression.py:333-351 | After purging and merging, nothing is left of the own handlers, the handlers of the state, and all their sub-handlers, whatever the body and the patch had, even in a corrupted status; nothing is fetched for them by the same names. |
| `Progress.PurgedIsForgotten` | kopf/_core/actions/progression.py:333-351 | If the patch touches neither the kind nor the owners of the object, nothing at all is fetched for the purged handlers. |
| `Writes.ProgressIsFrameworks` | kopf/_core/actions/progression.py:320-351 | What is stored and purged for the progress is of the framework only, as the absence of self-triggering requires it. |
| `Writes.FinishedCycleIsQuiet` | kopf/_core/reactor/processing.py:440-538 | For a whole finished cycle: the states are stored and purged, the essence is stored, all is merged, and the event about that is classified as NOOP, if storing reveals nothing. |
| `Patching.BodyOpsAreEnough` | kopf/_cogs/clients/patching.py:82-89 | The operations of the body alone make the main part of the result, when none crosses the status. |
| `Patching.StatusOpsAreEnough` | kopf/_cogs/clients/patching.py:82-89 | The operations of the status alone make the status of the result, when none crosses it. |
| `Patching.UncrossedSplits` | kopf/_cogs/clients/patching.py:82-89 | If no operation of the call moves anything between the body and the status, nothing is lost by sending them apart. |
| `Patching.MoveSplitsExactly` | kopf/_cogs/clients/patching.py:82-89 | A move between the body and the status loses nothing if and only if it takes nothing out of its source. |
| `Patching.OneMoveSplitsExactly` | kopf/_cogs/clients/patching.py:82-89 | So it is for a move among any other operations of the body and of the status that do not touch what it takes. |
| `Patching.Call` | kopf/_cogs/clients/patching.py:46-67 | A successful call returns the body with the version that the server has just then; a refused call changes nothing. |
| `Patching.JsonPatchIsForItsVersion` | kopf/_cogs/clients/patching.py:95-145 | A successful JSON-patch is applied to the very version that it was made of, with no other writes in between. |
| `Patching.Cluster.PatchObj` | kopf/_cogs/clients/patching.py:35-151 | The four phases with their early returns, in place: with nobody around, all that was asked for is merged, the functions are applied to that if their operations can be split, and nothing remains; with others around, it is the outcome of which `Patching.MergesAreFresh` and `Patching.PatchingExactly` speak. |
| `Patching.MergedIsMergePatch` | kopf/_cogs/clients/patching.py:44-67 | With the status as one of the fields, what a merge-patch makes of the object is MergePatch of section 2 of RFC 7386. |
| `Patching.MergesAreFresh` | kopf/_cogs/clients/patching.py:44-147 | Whatever the others write: the main part of the patch is merged into the version just before its request, the status into the version just before its own, and the operations are made of the last of these; the call returns a version not older than that, exactly that one if there are no operations; or else a merge-patch was refused, or the object is gone with nothing remaining. |
| `Patching.CalmPatchingExactly` | kopf/_cogs/clients/patching.py:35-151 | With nobody around, the object becomes its merge with what was asked for, with or without the subresource, and then what the split operations of the functions make of it; nothing remains; the last version is returned exactly if anything was to be sent. |
| `Patching.BodyPhase` | kopf/_cogs/clients/patching.py:95-147 | After the JSON phases, all the functions are pending; or the object is what the split operations make of the very version they were made of, by one or two writes in a row; or the object is gone. |
| `Patching.PatchingExactly` | kopf/_cogs/clients/patching.py:69-151 | The call raises exactly if a merge-patch is refused as unprocessable. If not, and if its operations can be split, its functions are all pending, or reflected in the version that the operations were made of, not older than the given body, or the object is gone. |
| `Patching.SplittingExactly` | kopf/_cogs/clients/patching.py:82-147 | With nobody around, the functions of a call are reflected in the object if and only if nothing is lost by splitting the operations of that call. |
| `Patching.CycleIsHonest` | kopf/_core/reactor/processing.py:71-148 | A cycle settles its functions only if they are reflected in the version that their operations were made of, not older than the body of that cycle, or the object is gone; what was settled before stays so. |
| `Patching.CycleIsSound` | kopf/_core/reactor/processing.py:71-148 | A cycle forgets nothing that was pending, and loses what it has queued exactly if its merge-patch was refused. |
| `Patching.NothingIsForgotten` | kopf/_core/reactor/processing.py:71-148 | Over any number of cycles, each queued function is pending, settled in its own cycle or later, or lost with its cycle; all that is settled is settled honestly; nothing is lost if no merge-patch is refused. |
| `Patching.FateOfFunctions` | kopf/_core/reactor/processing.py:71-148 | Then each queued function is pending; or it was settled in its own cycle or later, with all the functions of that cycle reflected in the version that their operations were made of, not older than the body of that cycle; or the object is gone. |
| `Patching.RefusedMergeLoses` | kopf/_cogs/clients/patching.py:46-72 | A concrete cycle with a refused merge-patch after which the function is neither pending nor reflected. |
| `Patching.MovesAreHalfDone` | kopf/_cogs/clients/patching.py:82-89 | A move from the spec to the status subresource is done only in the status, and nothing remains. |
| `Finalizing.BlockingBlocks` | kopf/_cogs/structs/finalizers.py:25-27 | Blocking blocks, can be repeated with no effect, and keeps all other finalizers. |
| `Finalizing.AllowingAllows` | kopf/_cogs/structs/finalizers.py:30-36 | Allowing allows, can be repeated with no effect, keeps all other finalizers in their order and everything else in the body, and leaves neither an empty list of finalizers nor empty metadata. |
| `Finalizing.AllowingUndoesBlocking` | kopf/_cogs/structs/finalizers.py:25-36 | Allowing after blocking restores the body, up to the empty structures. |
| `Finalizing.BlockDeletion` | kopf/_cogs/structs/finalizers.py:25-27 | In place, with the missing structures made, the deletion becomes blocked by one finalizer at the end if it was not; nothing else in the body changes. |
| `Finalizing.AllowDeletion` | kopf/_cogs/structs/finalizers.py:30-36 | The loop of single removals in place leaves no such finalizers and no emptied structures. |
| `Queueing.FeedKeeps` | kopf/_core/reactor/queueing.py:200-205 | A new event of an object with a worker keeps the order and the awareness of all objects. |
| `Queueing.OpenKeeps` | kopf/_core/reactor/queueing.py:206-231 | A new worker with a new stream keeps them too. |
| `Queueing.TakeEventKeeps` | kopf/_core/reactor/queueing.py:303-334 | Taking an event, with the version check, keeps them too; what the check does is in `Queueing.TakeHandsOver`. |
| `Queueing.LeaveKeeps` | kopf/_core/reactor/queueing.py:357-363 | A worker that leaves keeps them if its backlog is over and its object is consistent, or the watching is over. |
| `Queueing.TimeOutKeeps` | kopf/_core/reactor/queueing.py:303-319 | A retirement is never earlier than the deadline of the last patch, as the idle timeout is stretched. |
| `Queueing.StepKeeps` | kopf/_core/reactor/queueing.py:183-370 | Every step of the watcher, the workers, the gate and the clock keeps the invariant. |
| `Queueing.FeedQueues` | kopf/_core/reactor/queueing.py:200-205 | A new event becomes the last of the waiting events of its object, and no other object is affected. |
| `Queueing.OpenQueues` | kopf/_core/reactor/queueing.py:206-231 | So it does if there was no stream; the object then has a worker. |
| `Queueing.TakeHandsOver` | kopf/_core/reactor/queueing.py:303-334 | Taking an item hands over exactly the oldest of the waiting events; the awaited version ends the waiting, and another one leaves it as it was; the worker leaves only if there are no events, and the watching is over. |
| `Queueing.TimeOutWaitsOrLeaves` | kopf/_core/reactor/queueing.py:303-319 | A worker that times out leaves exactly if its queue is empty; then all that was received is handed over, and the last patch is seen or given up; or else it waits on, not less than until the last patch is given up. |
| `Queueing.GateIsExact` | kopf/_core/reactor/processing.py:313-323 | The gate lets the handlers of a non-GONE cause go exactly if nothing was patched before them, and nothing is waited for or the deadline is over; it sleeps until the deadline of the last patch, and only with nothing to be patched. |
| `Queueing.ReturnRemembers` | kopf/_core/reactor/queueing.py:337-349 | After a patch, the object is inconsistent for the timeout, and its worker knows the version, and stays for that long. |
| `Queueing.ConsistencyGate` | kopf/_core/reactor/queueing.py:296-349 | In every run, the handlers of a non-GONE cause run only if the version of the last patch of the object has arrived since, or its deadline is reached, across any generations of workers. |
| `Queueing.PromptHandling` | kopf/_core/reactor/queueing.py:325-349 | In every run, once the version of the last patch has arrived, or with no patches, the worker waits for nothing, and the gate lets the handlers go at once if nothing was patched before them. |
| `Queueing.SleepIsInterrupted` | kopf/_core/reactor/queueing.py:200-220 | In every run, the sleep in the gate can be interrupted once there are new events of the object, and never with an empty queue. |
| `Queueing.PerObjectOrder` | kopf/_core/reactor/queueing.py:183-369 | In every run, the events handed to the processor followed by the backlog are exactly the events received for the object, in order. |
| `Queueing.PerObjectExclusivity` | kopf/_core/reactor/queueing.py:298-369 | In every run, at most one call of the processor is in flight for an object. |
| `Queueing.EveryStreamIsServed` | kopf/_core/reactor/queueing.py:200-231 | In every run, no stream is without a worker, and no worker fails for a lost stream. |
| `Queueing.WorkersAreReleased` | kopf/_core/reactor/queueing.py:321-323 | In every run, once the watching is over, each worker has its end marker right after all the events of its object, so that it never waits, and leaves exactly when there are no more events. |
| `Reactors.Reactor.Multiplex` | kopf/_core/reactor/queueing.py:183-231 | A turn of the watcher puts the event as the last one of its object, which has a worker, with no other object affected, and keeps the invariant. |
| `Reactors.Reactor.CloseStreams` | kopf/_core/reactor/queueing.py:380-382 | The loop puts the end marker into each stream's queue, and no object loses an event by that. |
| `Reactors.Reactor.StreamsAreSeparate` | kopf/_core/reactor/queueing.py:217-220 | No two streams share a queue. |
| `Reactors.Reactor.StartWorker` | kopf/_core/reactor/queueing.py:292-306 | A worker takes its stream, which is always there, with the backlog untouched, and goes for the first event with nothing expected. |
| `Reactors.Reactor.TakeItem` | kopf/_core/reactor/queueing.py:305-334 | In place, the oldest of the waiting events is handed over to the processor, and the awaited version ends the waiting, while another one leaves it; or if there are no events, the worker leaves; the invariant is kept, and no other object is affected. |
| `Reactors.Reactor.GiveUp` | kopf/_core/reactor/queueing.py:307-319 | The worker retires exactly if its queue is empty, and then all the events are handed over in a consistent state; or else it waits for the last patch; the invariant is kept. |
| `Reactors.Reactor.PassGate` | kopf/_core/reactor/processing.py:313-323 | The branches of the gate let the handlers of a non-GONE cause go only in a consistent state, sleep until the deadline of the last patch, and change nothing for any object; the invariant is kept. |
| `Reactors.Reactor.WakeUp` | kopf/_core/reactor/processing.py:319-323 | After the sleep, the handlers go only if no new events have arrived and the last patch is given up; nothing changes for any object; the invariant is kept. |
| `Reactors.Reactor.EndWorker` | kopf/_core/reactor/queueing.py:365-369 | No object notices the end of the task of a worker that has left; no stream is left without its worker; the invariant is kept. |
| `Reactors.Reactor.FinishEvent` | kopf/_core/reactor/queueing.py:303-349 | After a patch, the object is inconsistent for the timeout, and its worker knows the version to be seen, and stays for that long; with no patch, its consistency is as it was; the invariant is kept. |
| `Barrier.OnMeansReady` | kopf/_cogs/aiokits/aiotoggles.py:117-118 | When the set of toggles is on, every watcher of an indexed resource is complete. |
| `Barrier.StepKeeps` | kopf/_core/reactor/orchestration.py:239-264 | Every step of the orchestrator, the watchers and the workers keeps the invariant of the barrier. |
| `Barrier.StartupBarrier` | kopf/_core/reactor/queueing.py:183-231 | Whenever the readiness is on, each spawned watcher of an indexed resource has passed its LISTED mark, and each object met before that was indexed. |
| `Barrier.HandlersGoAfterIndexing` | kopf/_core/reactor/processing.py:95-112 | No worker goes past the barrier but after the completeness of all the watchers that were to be ready at that moment. |
| `Barrier.LateObjectsDoNotBlock` | kopf/_core/reactor/queueing.py:208-215 | Once a watcher meets a new object with the readiness on, neither that object nor any later one of it turns the readiness off or is blocked, in all further runs. |
| `Barrier.NeverReady` | kopf/_core/reactor/orchestration.py:171-186 | An orphaned or deadlocked toggle keeps the operator not ready in all further runs. |
| `Barrier.StoppedInListing` | kopf/_core/reactor/orchestration.py:171-186 | A watcher stopped before its LISTED mark makes the operator never ready. |
| `Barrier.StoppedInIndexing` | kopf/_core/reactor/orchestration.py:171-186 | A watcher stopped before its listed objects are indexed makes the operator never ready. |
| `Barrier.LimitCanDeadlock` | kopf/_core/reactor/queueing.py:170-172 | With one worker and two objects, there is a run after which the operator can never be ready, though no toggle is orphaned. |
| `Barrier.NoRoomIsNeverReady` | kopf/_core/reactor/queueing.py:170-172 | If a watcher has more of such workers than places in its pool, the operator is not ready in all further runs. |
| `Barrier.FewWorkersAreRoomy` | kopf/_core/reactor/queueing.py:170-172 | The places are enough if no watcher has more objects than its limit. |
| `Barrier.CanBeReady` | kopf/_core/reactor/processing.py:108-112 | If no toggle is orphaned, and the pools have places for all who hold them until the readiness, the owners of the toggles can drop all of them, in a run where each pool starts the oldest of its waiting workers first, and those who hold nothing leave. |
| `Barrier.ReadinessIsReachableExactly` | kopf/_core/reactor/orchestration.py:171-264 | With any limit of workers, and with the oldest waiting workers started first, the readiness can be reached from a reachable state if and only if no toggle is orphaned, and each pool has places for all who hold them until the readiness. |
| `Orchestration.ToggleSet.MakeToggle` | kopf/_cogs/aiokits/aiotoggles.py:127-137 | A new toggle is in the set, and an "off" one turns off the set of the `all` kind. |
| `Orchestration.ToggleSet.DropToggle` | kopf/_cogs/aiokits/aiotoggles.py:139-142 | The toggle is not in the set, which is on exactly if all the others are. |
| `Orchestration.ToggleSet.DropToggles` | kopf/_cogs/aiokits/aiotoggles.py:144-147 | Exactly these toggles are not in the set any more; the set of the `all` kind is on exactly if all the "off" toggles were among them, the set of the `any` kind exactly if some "on" toggle was not. |
| `Orchestration.ToggleSet.Turn` | kopf/_cogs/aiokits/aiotoggles.py:48-52 | Exactly this toggle has the new state; the set is on exactly as the new state and the other toggles say, for both kinds. |
| `Orchestration.Ensemble.SpawnMissingWatchers` | kopf/_core/reactor/orchestration.py:229-264 | All the needed watchers run, the old ones are untouched, the new ones have their own toggles if indexed, and the blocker is gone. |
| `Orchestration.WatchedExactly` | kopf/_core/reactor/orchestration.py:244-246 | The namespaced resources are watched in each of the namespaces, the cluster-wide ones once. |
| `Orchestration.Ensemble.TerminateRedundancies` | kopf/_core/reactor/orchestration.py:171-186 | Exactly the redundant watchers are gone; their toggles are left behind, with nobody to have them; one of these that is "off" keeps the operator not ready. |
| `Orchestration.NewWatchersBlock` | kopf/_core/reactor/orchestration.py:239-264 | After the spawning, the set is on exactly if it was on before and none of the new watchers is of an indexed resource. |
| `Execution.LookaheadIsNoFalseAlarm` | kopf/_core/actions/execution.py:276-345 | A handler that is stopped ahead of its limits would be refused by the strict checks in any later attempt. |
| `Execution.LookaheadExactly` | kopf/_core/actions/execution.py:276-345 | An error stops the handler if and only if the next attempt would be refused, for the same reason, right after the pause; or else the handler waits for that pause. |
| `Execution.AnswersDecide` | kopf/_core/actions/execution.py:246-361 | The answer decides: within the limits, a success or an ignored error is a success with that very result, a permanent error is a failure with that error, all other errors are retried, unless the next attempt would be refused; a refused call is a failure with the refusal; the sub-references are kept. |
| `Execution.PausesAreKept` | kopf/_core/actions/progression.py:194-215 | The unfinished handler awakens exactly after the pause that was asked for, or at once if it was not; the finished one waits for nothing, and remembers when it was over first. |
| `Execution.HandlersJoin` | kopf/_core/actions/progression.py:283-295 | Exactly the joining handlers become active, the new ones begin with no attempts and are awakened; nothing else changes in the states. |
| `Execution.DoneExactly` | kopf/_core/actions/progression.py:362-421 | A state is done exactly when it has no delays. |
| `Execution.MinimalDelay` | kopf/_core/actions/progression.py:402-421 | The delay is the least of the delays, and there is none exactly when the state is done. |
| `Execution.DelayWakesUp` | kopf/_cogs/aiokits/aiotime.py:6-35 | After the least delay, at least one handler is awakened. |
| `Activities.LifecyclesAreLawful` | kopf/_core/actions/lifecycles.py:23-51 | The lifecycles of the framework, one of which is the identity, plan only what is given, with no repetitions of their own, and at least something. |
| `Activities.ExecutedIsPlausible` | kopf/_core/actions/execution.py:246-361 | A function is called only within its limit of retries; what is not final was called and has answered with an error to be retried; it is a final success exactly if it was called and has answered well; the result is that of the answer. |
| `Activities.ExecuteHandlersOnce` | kopf/_core/actions/execution.py:171-208 | A round executes exactly those of the awakened handlers that are planned, each once, and at least one of them if there are any. |
| `Activities.OutcomesAreMerged` | kopf/_core/actions/progression.py:297-311 | Only the executed handlers change, by their own outcomes, with the pauses counted from that moment. |
| `Activities.RoundIsSane` | kopf/_core/engines/activities.py:127-136 | A round keeps all the handlers within their limits, and leaves fewer executions than before. |
| `Activities.RunActivity` | kopf/_core/engines/activities.py:124-153 | The activity ends within the sum of the limits and one more for each handler, calls each function within its limit until its first answer that is not to be retried, and raises exactly if some handler has finally failed; or else all the last answers are good, and the results are exactly theirs. |
| `Daemons.NoDelayExactly` | kopf/_core/engines/daemons.py:254-283 | A check leaves nothing to wait for exactly if the daemon has exited, or is past its backoff and timeout. |
| `Daemons.DelayLeadsToNextStage` | kopf/_core/engines/daemons.py:258-273 | The delay of a check is positive and ends at the very moment of the next stage of the termination; or it is for the polling, of the handler or the common one. |
| `Daemons.FlagsAreSet` | kopf/_core/engines/daemons.py:249-283 | A check sets the demanded flag, and that of the stage if the daemon has not exited at once, and no others; the daemon can exit in it only by a new flag; the moment of the first flag is remembered. |
| `Daemons.StagesGoForward` | kopf/_core/engines/daemons.py:231-283 | Over any number of checks under a clock that does not go back, the stages never go back. |
| `Daemons.CancelledExactly` | kopf/_core/engines/daemons.py:266-273 | A daemon is cancelled at most once, and exactly if some check has found it alive in the time for that. |
| `Daemons.CanBeAbandonedUncancelled` | kopf/_core/engines/daemons.py:258-279 | With rare checks, a daemon is given up without a cancellation. |
| `Daemons.OneRunnerPerHandler` | kopf/_core/engines/daemons.py:87-115 | In every run, there is at most one runner of a handler for an object. |
| `Daemons.NeverRespawned` | kopf/_core/engines/daemons.py:472-499 | A daemon that has exited unasked is not run again in all further runs. |
| `Daemons.AskedCanBeRespawned` | kopf/_core/engines/daemons.py:472-499 | A daemon that has exited as asked can be spawned again. |
| `Daemons.DaemonsMemory.SpawnDaemons` | kopf/_core/engines/daemons.py:87-115 | The loop spawns exactly those of the handlers that are not running yet, with one runner for each; the running ones are untouched. |
| `Daemons.DaemonsMemory.StopDaemons` | kopf/_core/engines/daemons.py:229-285 | The loop checks each of the daemons once, which asks them to stop; the delays are exactly those of the checks, and there are none exactly if each of the daemons has exited or is given up. |
| `Daemons.DaemonsMemory.EndRunner` | kopf/_core/engines/daemons.py:472-499 | The daemon is forgotten, and can be spawned again if and only if it was asked to stop; the others and their runners are untouched. |
| `Processing.EventsAreClassified` | kopf/_core/intents/causes.py:309-320 | A blocked object under deletion is for the deletion handlers, and only the deleted ones are gone. |
| `Processing.ProcessCauses` | kopf/_core/reactor/processing.py:280-347 | The branches of the source, in place, block exactly the objects that need it, do not have it, and are not being deleted, with no handlers then; and release an object exactly if it is due; never both; the delays are exactly those of the daemons, and of the unfinished handlers if these were handled. |
| `Processing.DecisionIsExact` | kopf/_core/reactor/processing.py:280-347 | The changes are handled exactly if nothing is done to the finalizer, nothing else was patched before, and the object is gone or consistent; the operator wakes up for every daemon and every handler that is not over, and for nothing else; for nothing exactly if all is over. |
| `Processing.ReleasedExactly` | kopf/_core/reactor/processing.py:298-345 | The removal is queued exactly if nobody needs the finalizer, or if the object is being deleted and nothing is to be waited for in a cycle that passes the gate. |
| `Processing.FinalizerSettles` | kopf/_core/reactor/processing.py:298-345 | After one write of the finalizer, the next cycle with the same findings queues nothing for it: blocking and allowing do not alternate. |
| `Processing.DeletionSafety` | kopf/_core/reactor/processing.py:280-345 | While somebody needs the finalizer, the removal is queued only when all the selected handlers are finished in a consistent state, and no daemons are waited for. |
| `Processing.InconsistentReleaseExactly` | kopf/_core/reactor/processing.py:298-345 | The removal is queued in an inconsistent state exactly if nobody needs the finalizer, or if the object is being deleted with no handlers of changes and with no daemons to wait for. |
| `Processing.DaemonsAreReleasedInconsistently` | kopf/_core/reactor/processing.py:308-345 | Such a release does happen. |
| `Processing.ProcessDeletion` | kopf/_core/reactor/processing.py:407-412 | With the daemons of the object: the removal is queued only if each has exited or is past its backoff and timeout, and all the handlers are done; each of the daemons is checked, and the operator wakes up for the next checks of them. |
| `Scheduling.RefilledKeeps` | kopf/_cogs/aiokits/aiotasks.py:354-373 | The spawner starts the oldest jobs first, and stops only with no capacity or no jobs. |
| `Scheduling.StepKeeps` | kopf/_cogs/aiokits/aiotasks.py:308-406 | Every step of the callers, the spawner, the cleaner and the tasks keeps the invariant of the pool. |
| `Scheduling.PoolIsBounded` | kopf/_cogs/aiokits/aiotasks.py:280-406 | In every run, the unfinished tasks are within the limit, and the accepted jobs are those started, in order, followed by those pending. |
| `Scheduling.NobodyOversleeps` | kopf/_cogs/aiokits/aiotasks.py:354-397 | In every run, a spawner that could spawn, and a closing that could be over, have a wakeup pending. |
| `Scheduling.ClosedIsQuiet` | kopf/_cogs/aiokits/aiotasks.py:297-323 | Once the closing is over, nothing is pending or running, and nothing is ever accepted. |
| `Scheduling.Scheduler.Add` | kopf/_cogs/aiokits/aiotasks.py:325-352 | A job is accepted in its turn, or refused by a closed pool with no trace. |
| `Scheduling.Scheduler.RunSpawner` | kopf/_cogs/aiokits/aiotasks.py:354-373 | The loop starts as many tasks as specified. |
| `Scheduling.Scheduler.OnDone` | kopf/_cogs/aiokits/aiotasks.py:392-397 | A finished task leaves the running ones and goes to the cleaner. |
| `Scheduling.Scheduler.PingOthers` | kopf/_cogs/aiokits/aiotasks.py:375-390 | The cleaner releases the task and wakes up the spawner and the closing. |
| `Scheduling.Scheduler.BeginClosing` | kopf/_cogs/aiokits/aiotasks.py:308-319 | The pool is closed for new jobs, and its closing waits. |
| `Scheduling.Scheduler.ContinueClosing` | kopf/_cogs/aiokits/aiotasks.py:301-323 | The closing is over exactly if nothing is pending or running. |
| `Indexing.IndexIsOne` | kopf/_core/engines/indexing.py:63-143 | The forward and reverse indices are determined by the plain map of the objects. |
| `Indexing.ContentsAreOne` | kopf/_core/engines/indexing.py:63-143 | The plain map is determined by the index: the inversion loses nothing. |
| `Indexing.PutInverts` | kopf/_core/engines/indexing.py:134-140 | Putting one value keeps the index the inversion of the map. |
| `Indexing.DroppedInverts` | kopf/_core/engines/indexing.py:111-120 | Dropping one value, with the emptied store, keeps it too. |
| `Indexing.Index.Discard` | kopf/_core/engines/indexing.py:106-123 | The object loses exactly these keys, and is forgotten when it has none. |
| `Indexing.Index.Replace` | kopf/_core/engines/indexing.py:126-143 | The object has exactly the new mapping, and is not there if it is empty; no store or reverse set is empty. |
| `Indexing.LastDecisionIsIndexed` | kopf/_core/engines/indexing.py:189-216 | After any events, an index has of each object exactly what the last deciding event has brought. |
| `Indexing.NothingDecided` | kopf/_core/engines/indexing.py:189-216 | An object with no deciding events is not in the index. |
| `Vaults.StepKeeps` | kopf/_cogs/structs/credentials.py:368-468 | Every populating, invalidation and expiration keeps the invariant of the vault. |
| `Vaults.VaultIsSound` | kopf/_cogs/structs/credentials.py:240-255 | In every run, no current credentials equal any in the invalid history of their key, which has at most three; the next expiration is the nearest; not ready means empty if the vault was not created pre-expired. |
| `Vaults.CreatedIsReadyExactly` | kopf/_cogs/structs/credentials.py:240-255 | A new vault is ready or empty exactly if it is not pre-expired. |
| `Vaults.NothingToExpireExactly` | kopf/_cogs/structs/credentials.py:377-389 | Comparing with the nearest expiration decides exactly whether any item is to be expired. |
| `Vaults.OnlyExpiredGo` | kopf/_cogs/structs/credentials.py:368-395 | Exactly the expired items go, with no trace in the history; the readiness is lost exactly if these were all. |
| `Vaults.LateReportsAreHarmless` | kopf/_cogs/structs/credentials.py:422-429 | A late report about replaced credentials changes neither them nor the others. |
| `Vaults.GoneUntilBrought` | kopf/_cogs/structs/credentials.py:422-468 | A failed object is not used in all further runs until it is brought by a populating again. |
| `Vaults.FailedIsRefused` | kopf/_cogs/structs/credentials.py:427-428 | Failed credentials are refused, even as another object, until three others of that key have failed after them. |
| `Vaults.HistoryIsLastThree` | kopf/_cogs/structs/credentials.py:427-428 | Over any run, the history of a key is exactly the last three of all its credentials that have ever failed. |
| `Vaults.RefusedExactly` | kopf/_cogs/structs/credentials.py:526-536 | Over any run, credentials are refused, through whatever objects, exactly if they equal one of the last three failed of their key, and such are never in the vault. |
| `Vaults.NothingToUseExactly` | kopf/_cogs/structs/credentials.py:422-468 | Over any run, the vault is ready with nothing in it exactly if the last re-authentication has left it empty, and nothing was reported since then; in all other cases of an empty vault the clients wait. |
| `Vaults.NextIsOne` | kopf/_cogs/structs/credentials.py:368-468 | Each operation leaves the vault in exactly one state; the nearest expiration is determined by the rest. |
| `Vaults.Vault.UpdateExpiration` | kopf/_cogs/structs/credentials.py:538-544 | The loop finds the nearest expiration of the current items. |
| `Vaults.Vault.UpdateConverted` | kopf/_cogs/structs/credentials.py:526-536 | The loop takes exactly the credentials that are not known as invalid. |
| `Vaults.Vault.Populate` | kopf/_cogs/structs/credentials.py:447-468 | The vault takes the acceptable credentials and is ready. |
| `Vaults.Vault.Invalidate` | kopf/_cogs/structs/credentials.py:422-435 | The section until the waiting does the step, and waits exactly if nothing is left. |
| `Vaults.Vault.Expire` | kopf/_cogs/structs/credentials.py:368-395 | The section until the waiting drops exactly the expired items, and waits exactly if these were the last. |
| `Vaults.Vault.Select` | kopf/_cogs/structs/credentials.py:335-353 | One of the highest priority is selected, or none exactly if the vault is empty. |
| `Vaults.Vault.Choose` | kopf/_cogs/structs/credentials.py:310-326 | What a client is given without waiting is not expired and does not equal any of the last failed. |

## Left out

- HTTP, SSL, sessions, webhooks, login plugins, the command line, logging and posting of events: I/O with no state for the claims.
- The user's functions are arbitrary answers with arbitrary delays; threads and context variables are not modelled.
- Inside of `json`, `iso8601`, `hashlib` and `jsonpatch`: texts are read back as written; a JSON-patch makes the body it was made for. Numbers of the trees are integers, and `True` is not equal to `1`.
- MergePatches.Dict.Ensure: works on a tree owned by one dict, not on nested dicts in memory, so that sharing of sub-dicts between a body and a patch is not modelled.
- Diffs.FullDiffIsComplete: is for trees with no null members, as Kubernetes keeps none; trees with nulls are in `Diffs.EmptyDiffExactly`.
- Cycles.NoSelfTriggering: is for the default storages in annotations, with the older progress in the status; the diff-base in the status, and the storages combined of several, are not modelled. The extra fields are taken in the same order in both cycles.
- Progress.ProgressRoundTrip: does not include the dummy touches, which write one more annotation under the same prefix.
- Patching.Call: other errors than 404 and 422 are not modelled, nor are the retries of the calls.
- Patching.OneMoveSplitsExactly: is for a call with one move; calls with several moves, and those where other operations touch what is moved, are only in the general condition of `Patching.SplittingExactly`.
- Patching.SplittingExactly: is exact when nobody else writes; with other writers around, `Patching.PatchingExactly` says that the condition is enough.
- The application of the delays, and the version that never arrives after the last finalizer is removed, are not modelled: these are single branches in kopf/_core/actions/application.py:53-104 and 157-163.
- Queueing.ConsistencyGate: the workers do not fail, and are not killed by the exit timeout; timers never fire early.
- Queueing.PerObjectOrder: same as above.
- Indexing.LastDecisionIsIndexed: several indices are values here, while one index is modelled in memory.
- Daemons.StagesGoForward: the stopping on pausing and exiting, which is another routine, can cancel the same daemon once more.
- Daemons.NeverRespawned: a runner that is cancelled before it gets the control for the first time is not modelled; the flags of one check are set at one moment.
- Progress.PurgedIsForgotten: if the status field of the progress is there but is not a dict, and the annotations have nothing, `StatusProgressStorage.fetch` fails with an attribute error, where the model fetches nothing; a status that is broken above or under that field is as in the source.
- Progress.PurgeErases: a patch that is itself broken above a record to be deleted is a type error in the source, and the cycle fails; the status as a whole, and the metadata, are dicts.
- Scheduling.Scheduler.Add: the test of `_closed` and the put are one step. The lock between them is never waited for: nobody holds it where the control is given away, except in the waiting, which releases it.
- Vaults.VaultIsSound: the cached sessions, and naive timestamps, which are taken as UTC, are not modelled.
- Peering, throttling of errors, timer schedules, subresources, admission webhooks, filters of handlers: not modelled.
