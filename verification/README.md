# A verified model of spfs and spk

This project models the parts of spfs, a content-addressed store of filesystem layers, and of
spk, the package manager built on it, that are hardest to get right, and proves what they keep
and compute for every input, every interleaving and every point of failure.

* **The object graph.** Platforms refer to layers, layers to manifests and annotation blobs,
  manifests to blobs, and a blob shares its digest with its payload (`Graph.dfy`). Because a
  digest is computed from content, the graph has no cycle; where a proof needs that, it takes a
  rank function for which every child ranks below its parent. On this graph sit
  * the syncer: as a machine of interleaved tasks over every schedule and every pattern of
    failures (`SyncProtocol.dfy`), with a bound on every run and the absence of deadlocks, permits
    included (`SyncProgress.dfy`), what each policy leaves alone and what it brings up to date
    (`SyncPolicy.dfy`), the exact condition under which the destination is closed after
    every single write (`SyncSharing.dfy`, `SyncRace.dfy`), and as a class run one task at a time
    (`Syncer.dfy`);
  * the cleaner: tag pruning (`Prune.dfy`), the concurrent walk, the throttled collection of
    results and the sweep (`Clean.dfy`), and whole runs side by side (`CleanRuns.dfy`);
  * the checker: a machine of interleaved tasks with its two progress states, the summaries of its
    result trees (`Check.dfy`), a bound on every run and where it can come to a halt
    (`CheckProgress.dfy`), how it blocks when permits are short (`CheckBlocking.dfy`, with an
    argument about trading in `Trading.dfy`), and the exact condition under which it can always be
    finished, for the ways in which it takes up its roots (`CheckFinish.dfy`).
* **Layers.** The stack that keeps the last occurrence of each layer (`LayerStack.dfy`), what that
  means for the merged manifest and for what is mounted (`StackMeaning.dfy`), the expansion of
  platforms into layers (`StackLayers.dfy`), the flatten loop of the overlay mount
  (`Flatten.dfy`), the update of manifests (`Overlay.dfy`), and the tree that a runtime shows:
  rendered layers stacked by overlayfs and covered by the masks of the runtime (`Mount.dfy`).
* **Single algorithms.** The FUSE inode table and paged directory reads (`Fuse.dfy`), the bytes
  hashed into a build id (`BuildDigest.dfy`, `BuildVariants.dfy`, `BuildCollision.dfy`, over the
  ordered maps of `Lexical.dfy`), partial Base32 digests (`Base32.dfy`), the monitor's event protocol
  (`Monitor.dfy`), and the closure of components under `uses` (`Components.dfy`).

Concurrency is a nondeterministic choice of the next task; every await point ends a step, and a
future that was dropped is a task that is never chosen again. Checks of the destination that the
code makes one after the other within one step only ever meet a destination that grows. Reads,
writes and removals may fail at any moment. Digests, times and process ids are plain numbers that
are only compared. `dafny verify dfyconfig.toml` checks the whole project.

## What turned out to be false

Some properties that one would expect do not hold. Each of these has a counterexample and the exact
condition under which it does hold, except that for some ways of starting a check, named below, the
condition is sufficient and its converse has a condition of its own.

* **Flattening can bring a file back, and can take one away.** Merging the bottom layers with
  `Entry::update` keeps the entries below a path that becomes a file, so they are back once the path
  is a directory again; stacked by overlayfs they are gone (`Mount.FlatteningRevealsAFile`). And
  rendered layers have no masks, so what a middle layer masks shows again in the stack once a layer
  above reopens the directory; in the merge it is gone (`Mount.FlatteningHidesAFile`). A stack and
  its merge differ exactly at the paths that are revealed or retained in this way
  (`Mount.DifferIff`). The runtime shows the same flattened or not if and only if what is above
  settles every such path (`Mount.FlatteningShowsTheSameIff`); flattening is invisible whatever is
  above if and only if there is no such path below the names of the root
  (`Mount.FlatteningIsInvisibleIff`). Contents that are given again with their directory do no harm
  (`Mount.GivenAgainIsInvisible`).
* **`update` is not associative.** A mask works only on what is below it, and a file on top keeps
  what is left over of the bottom layer and drops what is of the middle one
  (`Overlay.MaskDoesNotAssociate`, `Overlay.FileDoesNotAssociate`). Updates associate if and only
  if, path by path, no file of the upper layer shadows a directory of the middle one that adds
  something, and nothing that the middle layer masks shows through where the upper one gives the
  path again (`Overlay.UpdateAssociatesIff`).
* **Dropping repeated layers can change the tree.** A stack keeps the last occurrence of a layer,
  and that changes neither the merged manifest nor what is mounted (`StackMeaning.LastsShowTheSame`,
  `StackMeaning.LastsMountTheSame`). Expanding platforms keeps the first occurrence instead; that is
  harmless for all contents if and only if first and last occurrences come in the same order
  (`StackLayers.ResolvedShowsTheSameIff`), which fails for a layer placed above a platform that
  holds it (`StackLayers.UpperCopyIsDropped`).
* **A concurrent sync does not keep the destination closed after every write**
  (`SyncRace.ParentBeforeSharedChild`). Under every interleaving it does if and only if nothing that
  has to be copied is waited for by an object or a tag and asked for by anything else; shared blobs
  do no harm (`SyncRace.StaysClosedIff`). Run one task at a time it always does
  (`SequentialSync.SyncOnce`), and a concurrent sync has restored it by the time all tasks have
  returned (`SyncProtocol.SuccessClosesDestination`).
* **The throttle of the cleaner loses results, with the errors in them**, exactly when there are
  more than `tag_stream_concurrency + 1` tag streams, whatever the order in which they finish
  (`Clean.CollectResults`). With one more, a clean can sweep in spite of a recorded error and remove
  what a kept tag reaches (`CleanRuns.ErrorIsLost`).
* **Two builds of one recipe can hash the same bytes** (`BuildCollision.OneRecipeCollides`). The
  values of a recipe's options are the only ones with their bytes if and only if no value holds,
  after a NUL, the name and the equals sign of its own option or of the next one; the first option
  starts only once (`BuildCollision.OnlyValuesIff`). So it is for builds of a recipe whose options take
  any value that is given for them (`BuildCollision.DeterminedIff`). Over lists with other names there
  is always another one: any two options read as one (`BuildDigest.NulInValueCollides`).
* **After a repair the monitor may lose track of the poller** (`Monitor.RepairLosesAProcess`). From
  any moment it follows the poller until the next repair if and only if delivering the events on
  their way gives the last scan, or forces a repair itself (`Monitor.FollowsIff`).
* **A check can block for ever.** A task holds its permit while the children of its object are
  checked. What matters is whether as many objects as there are permits can be open at once below the
  roots in flight: objects that are such roots or children of others in the set, and that each have a
  child of their own to wait for. If that is impossible below as many roots as can be in flight, every
  run without a failure can be finished, in whatever way the roots are taken up
  (`CheckFinish.EnoughFinishes`). The converse depends on how they are taken up.
  * `check_env` takes up ten items at a time, in order. For up to ten items the condition is exact
    (`CheckFinish.FewRootsFinishIff`), and so it is for several references of up to ten items each,
    which are checked together. For more items a check blocks if the set hangs from the first ten
    (`CheckFinish.TooFewBlocks` with `CheckFinish.FirstRootsStart`).
  * `check_all_objects` takes up fifty objects at a time, in the order of a walk of the storage. The
    condition is exact for all orders together (`CheckFinish.FinishesInAnyOrderIff`).
  * `check_all_tags` takes up fifty streams at a time, or fewer if so configured, and the tags of each
    one after the other. It can always be finished under the condition (`CheckFinish.StreamsAreValid`),
    and blocks if the set hangs from the first tags of the first streams
    (`CheckFinish.FirstOfStreamsStart`).

  One permit blocks on any layer with a manifest (`CheckFinish.NestedObjectsBlock`). If no root reaches
  more than so many objects with children, permits for that many below each root in flight, and one
  more, are enough for any number of roots (`CheckFinish.PermitsPerRoot`).

Where the code and its own words disagree, the model follows the code: the flatten loop nests each
group into the next one, unlike the picture in its comment; an invalid length of a partial digest is
reported as not being a multiple of two, while 5 and 7 left-over symbols are accepted and 6 are not;
two layers without a manifest compare equal whatever their annotations, so resolving a stack keeps
only one of them.

## Model

| member | source | states |
|---|---|---|
| Graph.AnnotationBlobs | crates/spfs/src/graph/layer.rs:110-120 | the children that a layer's annotations contribute are exactly the blob references among them |
| Graph.EntryBlobs | crates/spfs/src/graph/manifest.rs:67-77 | the children of a manifest are exactly the targets of its blob entries |
| Graph.EdgeIff | crates/spfs/src/graph/object.rs:162-169 | a platform refers to its stack, a layer to its manifest and its annotations that are blobs, a manifest to its blob entries, and a blob to nothing |
| Graph.CoverHoldsReachable | crates/spfs/src/graph/object.rs:162-169 | a set with the roots that is closed under child objects holds everything reachable |
| Graph.ClosedHoldsReachable | crates/spfs/src/graph/object.rs:162-169 | a repository in which nothing dangles and which holds the roots holds their whole graph, with payloads |
| SyncProtocol.Calls | crates/spfs/src/sync.rs:295-298 | an object's calls ask for exactly its child objects, and only a manifest calls for entries |
| SyncProtocol.StepGrows | crates/spfs/src/sync.rs:285-467 | no step takes back an object, payload, tag or processed digest, or changes what a task was asked |
| SyncProtocol.InvAfter | crates/spfs/src/sync.rs:285-467 | the obligations of one task's step that are enough for the invariant of all tasks |
| SyncProtocol.StartKeepsInv | crates/spfs/src/sync.rs:221-269 | starting a call (duplicate check, tag resolution, source-only manifest read) keeps the invariant |
| SyncProtocol.ReadKeepsInv | crates/spfs/src/sync.rs:527-539 | reading from the source, or from the destination when existing objects are trusted, keeps it |
| SyncProtocol.BeginKeepsInv | crates/spfs/src/sync.rs:285-289 | claiming a digest, or skipping a duplicate or a complete blob, keeps it |
| SyncProtocol.ClaimedKeepsInv | crates/spfs/src/sync.rs:290-292 | skipping an object that the destination has, or turning to its children, keeps it |
| SyncProtocol.WaitingKeepsInv | crates/spfs/src/sync.rs:294-305 | calling for a child, and storing a parent once all its calls have returned, keep it |
| SyncProtocol.AllChildrenProcessed | crates/spfs/src/sync.rs:299-304 | when every call of a parent has returned, every child is processed |
| SyncProtocol.PayloadKeepsInv | crates/spfs/src/sync.rs:489-505 | finding a payload there, or taking one of the permits to copy it, keeps it |
| SyncProtocol.CopyingKeepsInv | crates/spfs/src/sync.rs:499-521 | so does copying it under a permit, also when another payload arrives |
| SyncProtocol.BlobKeepsInv | crates/spfs/src/sync.rs:455-459 | writing a blob comes after its payload |
| SyncProtocol.MarkKeepsInv | crates/spfs/src/sync.rs:460 | a blob is marked only once it and its payload are stored |
| SyncProtocol.TagKeepsInv | crates/spfs/src/sync.rs:221-232 | a tag is written after its target was synced |
| SyncProtocol.StepKeepsInv | crates/spfs/src/sync.rs:221-467 | every step of every task, failing or not, keeps the invariant |
| SyncProtocol.ExecKeepsInv | crates/spfs/src/sync.rs:180-193 | every schedule keeps it |
| SyncProtocol.WritesReferToStoredOrInFlight | crates/spfs/src/sync.rs:221-467 | under every interleaving and pattern of failures into a closed destination, each child of a stored object and each tag's target is stored or claimed by a task that has not returned, and each stored blob has its payload |
| SyncProtocol.DemandedProcessed | crates/spfs/src/sync.rs:180-193 | when all tasks have returned, every requested digest is processed, everything processed is stored, and every requested tag is settled |
| SyncProtocol.SuccessClosesDestination | crates/spfs/src/sync.rs:180-193 | a sync whose tasks all returned leaves a closed destination closed, with everything reachable from the request |
| SyncProtocol.ResyncRepairsDestination | crates/spfs/src/sync.rs:68-80 | under the policies LatestTagsAndResyncObjects and ResyncEverything, a successful sync into any destination, however incomplete, leaves everything reachable from the request and the source's targets for the tags |
| SyncPolicy.TagsReachSource | crates/spfs/src/sync.rs:221-232 | under every policy but MissingDataOnly, after a successful sync each requested tag is at the source's target |
| SyncPolicy.ExistingTagsStay | crates/spfs/src/sync.rs:222-224 | under MissingDataOnly a tag that the destination has keeps its target, at every moment of every run |
| SyncPolicy.OtherTagsStay | crates/spfs/src/sync.rs:221-232 | under every policy and at every moment, a tag that is not asked for is as it was |
| SyncPolicy.DescendsIntoMissing | crates/spfs/src/sync.rs:285-292 | under MissingDataOnly and LatestTags only objects that the destination did not have are descended into |
| SyncPolicy.StoredComesFromSource | crates/spfs/src/sync.rs:527-538 | an object that is stored and was not there before comes from the source, or is a blob written for an entry |
| SyncPolicy.ResyncReadsAll | crates/spfs/src/sync.rs:527-538 | under the other two policies a sync succeeds only if the source has every object that is reached and is not a blob |
| SyncPolicy.CopiesMissingPayloads | crates/spfs/src/sync.rs:498-500 | under every policy but ResyncEverything only payloads that the destination did not have are copied |
| SyncPolicy.ResyncCopiesPayloads | crates/spfs/src/sync.rs:498-500 | under ResyncEverything a sync succeeds only if the source has the payload of every blob that is reached |
| SyncPolicy.PayloadsComeFromSource | crates/spfs/src/sync.rs:502-519 | a payload that is added is one of the source, or was delivered by a repository instead of one asked for |
| SyncPolicy.PermitsAreRespected | crates/spfs/src/sync.rs:362-502 | at no moment of any run are the entries of more manifests synced, or more payloads copied, than there are permits |
| SyncPolicy.LayersCallInTurn | crates/spfs/src/sync.rs:311-351 | at every moment, of any two calls that a layer has made one has returned |
| SyncPolicy.CallsInOrder | crates/spfs/src/sync.rs:295-379 | the calls of an object are its children in their order, each with the call for its kind |
| SyncProgress.StepDecreases | crates/spfs/src/sync.rs:285-467 | on an acyclic graph every step that does something lowers the total work left |
| SyncProgress.EveryRunEnds | crates/spfs/src/sync.rs:180-193 | the number of steps of a run is bounded by that work, whatever the interleaving |
| SyncProgress.StepKeepsOrder | crates/spfs/src/sync.rs:294-304 | a task waits only for tasks started after it, for the calls of its object |
| SyncProgress.NoDeadlock | crates/spfs/src/sync.rs:285-525 | with permits for at least one manifest and one payload, at every moment of every run without a failed task, all tasks have returned or some task can move |
| SyncProgress.NoPermitNoCopy | crates/spfs/src/sync.rs:362-366 | without permits for manifests, or for payloads, none is ever copied, whatever the schedule |
| SyncProgress.FinishedRunSucceeds | crates/spfs/src/sync.rs:180-193 | a run without a failed task that can go no further has succeeded, so it leaves a closed destination closed |
| SyncSharing.StepTraced | crates/spfs/src/sync.rs:285-467 | every task has been called for by an item, a tag or an object, and an object is claimed by one task only |
| SyncSharing.ChildrenStored | crates/spfs/src/sync.rs:299-304 | if nothing is shared, the children of an object are stored when all its calls have returned |
| SyncSharing.TargetStored | crates/spfs/src/sync.rs:227-228 | and so is the target of a tag |
| SyncSharing.UnsharedStaysClosed | crates/spfs/src/sync.rs:221-467 | if nothing that has to be copied is waited for by an object or a tag and asked for by anything else, a closed destination is closed after every write, under every interleaving and every pattern of failures |
| SyncRace.Approach | crates/spfs/src/sync.rs:285-351 | along a path of missing objects from a request, some schedule starts a task on the last one |
| SyncRace.RunOut | crates/spfs/src/sync.rs:285-525 | with one task left alone, everything else runs to a point where nothing can move |
| SyncRace.LeftAboveFrozen | crates/spfs/src/sync.rs:299-302 | whoever has not returned there has called, directly or not, for the task that was left alone |
| SyncRace.RaceBreaks | crates/spfs/src/sync.rs:287-304 | a shared digest yields a schedule after which something stored refers to something that is not |
| SyncRace.StaysClosedIff | crates/spfs/src/sync.rs:221-539 | of a sync that can read all it asks for, from the source or, where existing objects are trusted, from the destination, the destination is closed after every write under every interleaving if and only if nothing that has to be copied is shared |
| SyncRace.ParentBeforeSharedChild | crates/spfs/src/sync.rs:264-289 | two platforms that share a layer, and a run that stores one of them before the layer |
| SequentialSync.Syncer.constructor | crates/spfs/src/sync.rs:96-109 | a fresh syncer has processed nothing |
| SequentialSync.Syncer.WriteObject | crates/spfs/src/sync.rs:304 | an object whose children and payload are there may be written; the destination stays closed |
| SequentialSync.Syncer.SyncPayload | crates/spfs/src/sync.rs:489-525 | success means that the payload is there, whatever the source delivers |
| SequentialSync.Syncer.SyncBlob | crates/spfs/src/sync.rs:433-467 | success stores the blob after its payload; the destination is closed after every write, and left alone if it has the object and the policy does not resync |
| SequentialSync.Syncer.SyncManifest | crates/spfs/src/sync.rs:353-387 | the same for a manifest, below the objects being worked on |
| SequentialSync.Syncer.SyncEntries | crates/spfs/src/sync.rs:368-379 | the entries in any order, all stored on success |
| SequentialSync.Syncer.SyncLayer | crates/spfs/src/sync.rs:311-351 | manifest, annotations, then the layer |
| SequentialSync.Syncer.SyncAnnotations | crates/spfs/src/sync.rs:328-341 | the annotation blobs in order, all stored on success |
| SequentialSync.Syncer.SyncPlatform | crates/spfs/src/sync.rs:285-309 | the stack, then the platform |
| SequentialSync.Syncer.SyncStack | crates/spfs/src/sync.rs:295-302 | the stack in any order, all stored on success |
| SequentialSync.Syncer.SyncDigest | crates/spfs/src/sync.rs:260-269 | on an acyclic graph a duplicate is stored unless it is an unfinished ancestor, and a child never is |
| SequentialSync.Syncer.SyncTag | crates/spfs/src/sync.rs:221-232 | on success the tag is there with its target stored: the source's target, or under MissingDataOnly the one that it had; no other tag changes |
| SequentialSync.StillClosed | crates/spfs/src/sync.rs:304 | writing an object after its children leaves nothing dangling |
| SequentialSync.SyncOnce | crates/spfs/src/sync.rs:260-467 | one sync by a fresh syncer, one task at a time: the destination is closed after every single write, wherever the sync stops, loses nothing and keeps its tags, and success stores the whole graph below the digest |
| Prune.PruneTagStream | crates/spfs/src/clean.rs:457-483 | entry by entry: in a namespace that is pruned an entry goes exactly when as many newer entries have its target as are to be kept, or when no keep rule protects it and its version is too high or it is too old; the rest is kept, both in order |
| Prune.RepeatIff | crates/spfs/src/clean.rs:463-476 | an entry is dropped as a repeat exactly when as many newer entries have its target as are to be kept |
| Prune.EarlierIsPruned | crates/spfs/src/prune.rs:35-59 | what is pruned at one time is pruned at every earlier time and the same version |
| Prune.KeptAtLowerVersion | crates/spfs/src/prune.rs:35-59 | what is kept at one version is kept at every lower one |
| Prune.SecondPassKeeps | crates/spfs/src/clean.rs:460-483 | pruning what was kept keeps all of it, with new versions and restarted counts |
| Prune.KeptOrPruned | crates/spfs/src/clean.rs:485-488 | every entry is kept or pruned: each is found as often in both together as in the history |
| Prune.PruningIsIdempotent | crates/spfs/src/clean.rs:457-483 | a second pass with the same parameters prunes nothing |
| Prune.RepeatsKeptUpTo | crates/spfs/src/clean.rs:463-476 | with only repeat pruning each target keeps its entries up to the configured number |
| Prune.RepeatPruningKeepsTargets | crates/spfs/src/clean.rs:459-483 | with only repeat pruning the kept entries have the same targets, between one and the configured number each, so the same objects stay reachable |
| Clean.CollectResults | crates/spfs/src/clean.rs:348-369 | for every order of completion each result is collected or dropped, and none is dropped exactly when there are at most `concurrency + 1` streams |
| Clean.Throttle | crates/spfs/src/clean.rs:350-359 | waiting for the fastest half drops the results of those that finish first |
| Clean.SomeDropped | crates/spfs/src/clean.rs:348-365 | with more streams some result is dropped |
| Clean.CollectedCount | crates/spfs/src/clean.rs:348-369 | how many results are collected, as a closed form of the number of streams and the concurrency, whatever the order of completion |
| Clean.EnterKeeps | crates/spfs/src/clean.rs:511-513 | attaching a digest keeps the walk sound and complete, and makes progress |
| Clean.LoadKeeps | crates/spfs/src/clean.rs:515-537 | so does visiting the children of what was read; after a failed read the walk stays sound |
| Clean.EndOfWalk | crates/spfs/src/clean.rs:411-423 | when no visit is left, everything reachable is attached |
| Clean.WalkedIsExact | crates/spfs/src/clean.rs:393-423 | whatever the order of visits and whatever can be read, a walk attaches only what is reachable, and all of it unless it records an error |
| Clean.WalkStreams | crates/spfs/src/clean.rs:393-423 | for every order of visits the walk ends, attaches only what is reachable, and all of it unless an error was recorded |
| Clean.Cleaner.FirstVisits | crates/spfs/src/clean.rs:402-405 | the walk of each stream starts from exactly its kept targets |
| Clean.RootsOfMeans | crates/spfs/src/clean.rs:402-405 | the roots of the walk are exactly the targets of the entries that pruning keeps |
| Clean.VisitKeeps | crates/spfs/src/clean.rs:509-540 | whatever visit moves next, the walk stays sound, stays complete unless a read failed, and makes progress |
| Clean.Cleaner.WalkAttached | crates/spfs/src/clean.rs:393-423 | the same for the streams of a repository |
| Clean.Cleaner.PruneStreams | crates/spfs/src/clean.rs:490-506 | every history is left with what pruning keeps; a dry run leaves it alone |
| Clean.Cleaner.SweepObjects | crates/spfs/src/clean.rs:546-620 | whether or not it completes, every attached and every young object stays as it was, and their payloads stay; a completed sweep leaves no other object, and attaches the young |
| Clean.Cleaner.SweepPayloads | crates/spfs/src/clean.rs:622-659 | whether or not it completes, attached payloads stay; a completed sweep leaves no other |
| Clean.Cleaner.SweepRenders | crates/spfs/src/clean.rs:706-745 | whether or not it completes, attached and young renders stay; a completed sweep leaves no others; a dry run reports the young ones too |
| Clean.Cleaner.PruneAllTagsAndClean | crates/spfs/src/clean.rs:330-391 | with at most `concurrency + 1` streams the sweep is reached only without a recorded error; then exactly what the kept tags reach is marked; whether or not the sweep completes, nothing marked or young is removed, nor the payload of a young blob, nor a young render; a completed run leaves nothing else; a dry run changes nothing, and what it reports |
| Clean.DryRunReportsAllRemovals | crates/spfs/src/clean.rs:546-745 | the payloads and renders that a dry run reports include all that a real run on the same state removes |
| CleanRuns.DryRunAgainstRealRun | crates/spfs/src/clean.rs:330-391 | a dry run and a real run on one state, each with its own order of events, that both go on to the sweep have marked the same, and what the dry one reports includes every payload and render that the real one removes |
| CleanRuns.WalkLoses | crates/spfs/src/clean.rs:393-423 | whatever the order of visits, a walk that cannot read a platform records one error and does not attach its layer |
| CleanRuns.ErrorIsLost | crates/spfs/src/clean.rs:348-379 | with `concurrency + 2` streams of one tag each, a clean goes on to the sweep with a recorded error, and an object that a kept tag reaches is among those that the sweep removes |
| CleanRuns.SomeoneIsUnlucky | crates/spfs/src/clean.rs:356-358 | such a run exists |
| LayerStack.Stack.Push | crates/spfs/src/graph/stack.rs:79-107 | the item is removed from its place and put on top; the answer is false exactly when the stack stays as it was |
| LayerStack.Stack.Extend | crates/spfs/src/graph/stack.rs:142-148 | pushing a list leaves the last occurrence of every item, in order |
| LayerStack.LastsInOrder | crates/spfs/src/graph/stack.rs:142-148 | two items of a stack are in the order of their last occurrences in what was pushed |
| LayerStack.FirstsInOrder | crates/spfs/src/resolve.rs:467-470 | what `unique` keeps is in the order of the first occurrences |
| LayerStack.PushedAgain | crates/spfs/src/graph/stack_test.rs:12-43 | what is below is irrelevant to the order once all of it is pushed again |
| LayerStack.FirstsInside | crates/spfs/src/resolve.rs:444-470 | dropping later repeats inside a part first makes no difference to the whole |
| LayerStack.FirstsBefore | crates/spfs/src/resolve.rs:444-470 | nor does dropping them in the part before |
| StackMeaning.UpdateTwice | crates/spfs/src/tracking/entry.rs:362-381 | updating by the same layer twice is updating once |
| StackMeaning.HiddenBelow | crates/spfs/src/tracking/entry.rs:362-381 | what a layer hides completely it also hides below another layer |
| StackMeaning.SameBelow | crates/spfs/src/tracking/entry.rs:362-381 | trees that look the same below a layer do so with another layer in between |
| StackMeaning.RemovedBelow | crates/spfs/src/graph/stack.rs:79-107 | taking a layer out of a stack makes no difference once it is on top |
| StackMeaning.LastsShowTheSame | crates/spfs/src/resolve.rs:161-173 | a stack that keeps only the last occurrences has the same merged manifest as the whole list, for all contents |
| StackMeaning.Disagreement | crates/spfs/src/resolve.rs:467-470 | two orders of the same layers disagree on some pair |
| StackMeaning.FirstsShowTheSameIff | crates/spfs/src/resolve.rs:467-470 | keeping the first occurrences gives the same visible merged manifest for all contents if and only if first and last occurrences come in the same order |
| StackMeaning.LastsMountTheSame | crates/spfs/src/graph/stack.rs:13-22 | what a runtime shows is the same for the last occurrences as for the whole list, for all contents |
| StackMeaning.FirstsMountTheSameIff | crates/spfs/src/resolve.rs:467-470 | keeping the first occurrences shows the same when mounted, for all contents, if and only if first and last occurrences come in the same order |
| StackLayers.UniqueLayers | crates/spfs/src/resolve.rs:467-470 | only the first layer of each manifest is kept, with its annotations |
| StackLayers.ResolveStack | crates/spfs/src/resolve.rs:437-471 | dropping repeats at every level comes to dropping them once in the whole expansion |
| StackLayers.ResolvePlatform | crates/spfs/src/resolve.rs:449-453 | a platform is expanded as a stack, with repeated digests keeping their last place |
| StackLayers.ResolvableIff | crates/spfs/src/resolve.rs:445-465 | the expansion exists exactly when everything found through platforms is present and not a blob |
| StackLayers.ResolveStackToLayers | crates/spfs/src/resolve.rs:437-471 | a stack resolves exactly then, to the first occurrences of its expansion; the layers are stored ones or made for a stored manifest |
| StackLayers.ExpandConcat | crates/spfs/src/resolve.rs:445-466 | a stack on top of another expands to the one expansion followed by the other |
| StackLayers.FlatStack | crates/spfs/src/resolve.rs:445-466 | a stack without platforms expands to its layers, in order, a manifest being a layer of its own |
| StackLayers.ResolvedShowsTheSameIff | crates/spfs/src/resolve.rs:437-471 | the resolved layers have the merged manifest of the expansion, and show the same when mounted, for all contents if and only if first and last occurrences come in the same order |
| StackLayers.UpperCopyIsDropped | crates/spfs/src/resolve.rs:467-470 | a layer above a platform that holds it loses its place on top |
| Flatten.RoundKeeps | crates/spfs/src/resolve.rs:291-322 | a round keeps the leaves in order and only the bottom grouped, and shortens the list exactly from four elements on |
| Flatten.RoundShape | crates/spfs/src/resolve.rs:290-322 | the exact length of a round of n elements; the upper half is untouched; the lower half, rounded down, becomes groups of seven and one of the rest, every group but the first holding the group before |
| Flatten.PlaceholderIsLowest | crates/spfs/src/resolve.rs:290-322 | a group stands at the place of its lowest manifest |
| Flatten.RoundsKeep | crates/spfs/src/resolve.rs:281-323 | so does any number of rounds |
| Flatten.StuckRounds | crates/spfs/src/resolve.rs:290-293 | with three or fewer elements further rounds change nothing |
| Flatten.FlattenRound | crates/spfs/src/resolve.rs:291-322 | the drains are in range and the loop computes the round |
| Flatten.FlattenUntilFits | crates/spfs/src/resolve.rs:281-323 | the loop ends exactly when some number of rounds fits, and always when up to three layers fit; each step is a round of the one before, and none but the last fits |
| Flatten.SortOfReversed | crates/spfs/src/resolve.rs:251-252 | sorting by order undoes the right-to-left walk |
| Flatten.ExistingManifests | crates/spfs/src/resolve.rs:236-253 | the stack walk and the sort recover the leaves of a group in their order |
| Flatten.MergeGroup | crates/spfs/src/resolve.rs:331-336 | merging a group layers its leaves from bottom to top |
| Flatten.MergeGroups | crates/spfs/src/resolve.rs:325-345 | what is mounted for every element |
| Flatten.OverlayFromBottom | crates/spfs/src/resolve.rs:325-345 | the flattened and the original overlay differ at most in what is at the bottom |
| Flatten.FlatteningPreservesOverlay | crates/spfs/src/resolve.rs:281-345 | flattening preserves the overlay, for any way to merge and any way to mount, as soon as the stored merge of the bottom group looks like the group |
| Overlay.UpdateEntry | crates/spfs/src/tracking/entry.rs:362-381 | the loop over a layer's entries, in any order, computes the update |
| Overlay.UpdateLeavesOver | crates/spfs/src/tracking/entry.rs:366-368 | an update leaves invisible entries behind exactly when it shadows a directory that has entries |
| Overlay.VisibleIsWhole | crates/spfs/src/graph/manifest.rs:287-330 | what is written is the whole entry exactly when it has no leftovers |
| Overlay.UpdateAssociatesIff | crates/spfs/src/tracking/entry.rs:362-381 | updating by two layers one after the other is updating by their merge if and only if, path by path, the upper layer shadows no directory of the middle one that adds something and reopens nothing that it masks |
| Overlay.AddsNothingIff | crates/spfs/src/tracking/entry.rs:370-380 | an update leaves the entries as they are if and only if they hold all of the layer's already |
| Overlay.ShutsOutIff | crates/spfs/src/tracking/entry.rs:362-381 | an update leaves exactly the layer if and only if nothing of what was there shows through |
| Overlay.MaskDoesNotAssociate | crates/spfs/src/tracking/entry.rs:371-373 | three layers with a mask in the middle for which the grouping matters |
| Overlay.FileDoesNotAssociate | crates/spfs/src/tracking/entry.rs:366-368 | three layers with a file on top for which it matters too |
| Mount.StackedShows | docs/admin/config.md:127-130 | an upper layer decides about the paths that it gives or hides; its masks, which are not rendered, decide nothing |
| Mount.CoveredShows | crates/spfs/src/env.rs:609-669 | masked paths are gone, directories on the way to a mask are there, and the rest is as mounted |
| Mount.MountedShows | crates/spfs/src/storage/fs/renderer_unix.rs:109-160 | in a stack of rendered layers the last one to give a path or to have a file in its way decides |
| Mount.UpdateRecords | crates/spfs/src/tracking/entry.rs:362-381 | an update records what a layer gives and forgets what it masks; a file in the way forgets nothing |
| Mount.MergeShown | crates/spfs/src/resolve.rs:160-173 | what a merged manifest shows at a path, from what each layer says about it |
| Mount.DifferIff | crates/spfs/src/resolve.rs:331-343 | a stack and its merge differ at a path if and only if the path is retained (given, then masked, and neither given again nor in the way of a file) or revealed (given, then in the way of a file, neither given again nor masked, and its directory is one again) |
| Mount.FlatteningShowsTheSameIff | crates/spfs/src/resolve.rs:325-345 | a runtime shows the same with the stored merge of its bottom layers as with the layers if and only if what is above settles every path that is retained or revealed |
| Mount.FlatteningIsInvisibleIff | crates/spfs/src/resolve.rs:325-345 | whatever is above, if and only if no path below the names of the root is retained or revealed |
| Mount.InvisibleWithoutMasksIff | crates/spfs/src/resolve.rs:325-345 | without masks, if and only if the merge is rendered as the stack is mounted |
| Mount.OriginalsAre | crates/spfs/src/resolve.rs:267-276 | the list to flatten holds every layer that has a manifest, with it and its place in the stack, and nothing else |
| Mount.ResolveOverlayDirs | crates/spfs/src/resolve.rs:267-345 | the steps are rounds of which only the last fits; what is mounted is the merge of its bottom group and the untouched layers above, in layer order, and the runtime shows what it would show unflattened if and only if the bottom group is harmless |
| Mount.FlatteningRevealsAFile | crates/spfs/src/resolve.rs:331-343 | three layers whose merge brings back a file that the stack does not show, whatever is above |
| Mount.FlatteningHidesAFile | crates/spfs/src/storage/fs/renderer_unix.rs:156 | three layers whose merge hides a file that the stack shows |
| Mount.GivenAgainIsInvisible | crates/spfs/src/resolve.rs:331-343 | a directory, a file and the same directory again: flattening them cannot be seen |
| Fuse.Filesystem.constructor | crates/spfs-vfs/src/fuse.rs:87-114 | the table is that of the manifest numbered from 1, in which only the root's mode is replaced |
| Fuse.RootModeBits | crates/spfs-vfs/src/fuse.rs:104-112 | the mode of the root is that of a directory, with the other bits as given |
| Fuse.Filesystem.AllocateInodes | crates/spfs-vfs/src/fuse.rs:124-149 | the entries are numbered in the iteration order of the manifest and added to the table |
| Fuse.TableNumbers | crates/spfs-vfs/src/fuse.rs:120-149 | a tree of n entries uses exactly n consecutive numbers, each for the entry that carries it |
| Fuse.ChildTable | crates/spfs-vfs/src/fuse.rs:135-138 | the table of a child is a part of the table of its parent |
| Fuse.LookupIs | crates/spfs-vfs/src/fuse.rs:263-300 | `ENOTDIR` exactly for a file as parent; an inode exactly for the name of a child that is not a mask, and it is that child's; no such entry for everything else |
| Fuse.ShownEntries | crates/spfs-vfs/src/fuse.rs:561-573 | what a directory shows are its entries that are not masks, in their order |
| Fuse.LookupAgrees | crates/spfs-vfs/src/fuse.rs:263-300 | following lookups along a path finds an inode exactly when the manifest has an unmasked entry there, and the table holds that entry |
| Fuse.MountedTableAgrees | crates/spfs-vfs/src/fuse.rs:87-149 | inodes are exactly 1 to n, the root is 1, and lookups from it agree with the manifest |
| Fuse.ReadDir | crates/spfs-vfs/src/fuse.rs:553-589 | one page: the unmasked entries after the offset, up to the capacity |
| Fuse.PageResumes | crates/spfs-vfs/src/fuse.rs:561-573 | resuming at the last inode returned starts with the next entry |
| Fuse.ReadWholeDirectory | crates/spfs-vfs/src/fuse.rs:553-589 | for any capacities of at least one, pages until an empty one list every unmasked entry exactly once, in order |
| Fuse.MountedDirectoriesAreDistinct | crates/spfs-vfs/src/fuse.rs:120-149 | in every directory of a mounted table, in whatever order it is listed, the offsets are distinct and not zero |
| Check.ReportsAdd | crates/spfs/src/check.rs:724-749 | adding the summaries of disjoint sets of digests reports their union |
| Check.Items | crates/spfs/src/check.rs:327-395 | a check calls for exactly the child objects |
| Check.StartKeepsInv | crates/spfs/src/check.rs:231-244 | starting a digest, or finding it a duplicate, keeps the invariant: every processed digest is owned by one task, whose results report what it owns |
| Check.LoadingKeepsInv | crates/spfs/src/check.rs:249-322 | so does loading and entering the check |
| Check.WaitingKeepsInv | crates/spfs/src/check.rs:327-395 | so does calling for children and finishing |
| Check.DoneKeepsInv | crates/spfs/src/check.rs:327-415 | so does handing a result to the caller, also as an annotation |
| Check.OtherAnnotationsFail | crates/spfs/src/check.rs:404-411 | a layer fails exactly when the result for an annotation is none of a duplicate, a missing object and a blob |
| Check.OpenCount | crates/spfs/src/check.rs:246 | the number of permits held is the number of tasks that wait for the children of their object |
| Check.ExecKeepsInv | crates/spfs/src/check.rs:111-131 | every schedule keeps it, whatever the number of permits |
| Check.RootsReport | crates/spfs/src/check.rs:751-758 | the sum of the roots' summaries reports what the roots own |
| Check.FinishedProcessedReachable | crates/spfs/src/check.rs:231-270 | when all tasks have finished, exactly what the roots reach has been processed |
| Check.CheckReportsExactly | crates/spfs/src/check.rs:875-1100 | under every interleaving, an error-free check lists as missing exactly the absent objects and payloads reachable from the roots, counts exactly the payloads that are there, and counts at least the objects that are there and at most those reached |
| CheckProgress.NoDeadlock | crates/spfs/src/check.rs:246 | with more permits than objects with children are reached, at every moment of every run without a failure, the check is finished or some task can move |
| CheckProgress.OpenWithinInner | crates/spfs/src/check.rs:246-262 | no more tasks hold a permit than objects with children are reached |
| CheckProgress.StepDecreases | crates/spfs/src/check.rs:231-395 | on an acyclic graph every step that does something lowers the total work left |
| CheckProgress.NoStepFails | crates/spfs/src/check.rs:400-415 | with annotations that refer to blobs, no step fails unless reading an object does |
| CheckProgress.StepKeepsFlight | crates/spfs/src/check.rs:111-147 | no more roots are ever in flight than allowed |
| CheckProgress.StuckIsOpen | crates/spfs/src/check.rs:246-395 | if no task can move before the check is finished, all permits are with objects that can be open at once below the roots in flight, each waiting for a child of its own |
| CheckProgress.RunsToTheEnd | crates/spfs/src/check.rs:231-395 | if that many objects cannot be open at once below as many roots as can be in flight, every run without a failure can be finished |
| Trading.Rotate | crates/spfs/src/check.rs:344-368 | when layers, which go through their children in order, are to wait for what others would rather wait for, they can exchange it around a circle, and still no two wait for the same |
| Trading.Trade | crates/spfs/src/check.rs:344-368 | so one of them can always be given the first child that nobody has claimed, with a different one left for each of the others |
| CheckBlocking.NeverFinishes | crates/spfs/src/check.rs:246-262 | open objects, as many as there are permits, that wait for each other or for a permit are never closed |
| CheckBlocking.OpenAll | crates/spfs/src/check.rs:246-395 | some run opens exactly a given set of objects that can be open at once below roots that can be in flight at once, as long as there are permits |
| CheckBlocking.HeadIsAdmitted | crates/spfs/src/check.rs:111-147 | as long as one of these roots has not been opened, it can be taken up |
| CheckBlocking.HoldAll | crates/spfs/src/check.rs:231-246 | from there each of them comes to wait for a child that only it has claimed |
| CheckBlocking.OpenObjectsBlock | crates/spfs/src/check.rs:246-395 | if as many objects as there are permits can be open at once below roots that can be in flight at once, some run comes to a point from which no continuation finishes |
| CheckFinish.EnoughFinishes | crates/spfs/src/check.rs:111-147 | in whatever way roots are taken up, if fewer objects than there are permits can be open at once below as many roots as can be in flight, the check can be finished from every point of every run without a failure |
| CheckFinish.TooFewBlocks | crates/spfs/src/check.rs:246-395 | it cannot if as many can be open below roots that can be in flight at once |
| CheckFinish.AlwaysFinishesIff | crates/spfs/src/check.rs:231-395 | the condition is exact if every root can be taken up whenever fewer than allowed are in flight |
| CheckFinish.FewRootsFinishIff | crates/spfs/src/check.rs:139-147 | so it is as long as all roots fit in the buffer |
| CheckFinish.FinishesInAnyOrderIff | crates/spfs/src/check.rs:121-128 | for any number of roots taken up so many at a time, a check can always be finished in whatever order they come if and only if fewer objects than there are permits can be open at once below that many roots |
| CheckFinish.StreamsAreValid | crates/spfs/src/check.rs:111-192 | taking up so many streams at a time, and the roots of each one after the other, keeps to the limit, and never stops while no root is in flight |
| CheckFinish.StreamsInTurn | crates/spfs/src/check.rs:111-192 | a root is taken up exactly when fewer than allowed are in flight, the earlier ones of its stream have their results, and fewer streams than allowed before it have not |
| CheckFinish.FirstOfStreamsStart | crates/spfs/src/check.rs:111-192 | the first roots of the first streams can be in flight at once |
| CheckFinish.PermitsPerRoot | crates/spfs/src/check.rs:111-147 | if no root reaches more than so many objects with children, permits for that many below each root in flight and one more are enough |
| CheckFinish.NestedObjectsBlock | crates/spfs/src/check.rs:246-395 | with as many permits as objects are nested in each other above one more digest, some run blocks for ever |
| BuildDigest.ComputeOpts | crates/spk-schema/src/build_spec.rs:37-107 | the loop with its name set and index computes the options of a variant |
| BuildVariants.VariantOptions | crates/spk-schema/src/build_spec.rs:37-107 | for uniquely named options of the recipe, a variant has one option for each name, in the order of first mention; a variable is what its first mention says, a package keeps the name and value of its first mention |
| BuildVariants.VariantComponents | crates/spk-schema/src/build_spec.rs:79-83 | a package option has the components of all mentions of it in recipe and variant, and no others |
| BuildVariants.VariantDefault | crates/spk-schema/src/build_spec.rs:84-87 | its default is that of the last mention |
| BuildVariants.GivenWithoutNamespace | crates/spk-schema/src/build_spec.rs:120-127 | for an option without namespace the value given for it in this package comes first, then the one given for it anywhere |
| BuildVariants.GivenWithNamespace | crates/spk-schema/crates/foundation/src/name/mod.rs:216-245 | for one with a namespace the value given for it comes first, then the one for what follows the first dot |
| BuildVariants.ValueRules | crates/spk-schema/src/option.rs:549-562 | what the recipe sets comes first, for a variable unless it is empty, then what is given, then the default |
| BuildDigest.ResolveOptions | crates/spk-schema/src/build_spec.rs:109-139 | fails exactly when some value is not valid, else gives every option its value |
| BuildVariants.ResolvedMeans | crates/spk-schema/src/build_spec.rs:117-137 | for uniquely named options, the resolved ones are all options with their values, in order of name |
| BuildVariants.PackagesMean | crates/spk-schema/src/build_spec.rs:153-174 | the packages are all package options with the names of their components, in order of name |
| BuildDigest.FeedOptions | crates/spk-schema/src/build_spec.rs:147-152 | the bytes of the options |
| BuildDigest.FeedPackages | crates/spk-schema/src/build_spec.rs:153-177 | the bytes of the packages with components |
| BuildVariants.BytesOfOption | crates/spk-schema/src/build_spec.rs:147-152 | an option is its name, an equals sign, its value and a NUL |
| BuildVariants.MoreOptions | crates/spk-schema/src/build_spec.rs:147-152 | the bytes of options follow each other |
| BuildVariants.BytesOfComponent | crates/spk-schema/src/build_spec.rs:168-174 | a component is its name and a comma |
| BuildVariants.MoreComponents | crates/spk-schema/src/build_spec.rs:168-174 | the bytes of components follow each other |
| BuildVariants.BytesOfPackage | crates/spk-schema/src/build_spec.rs:161-175 | a package without components has no bytes; any other is its name, an equals sign, its components and a byte one |
| BuildVariants.MorePackages | crates/spk-schema/src/build_spec.rs:153-176 | the bytes of packages follow each other |
| BuildVariants.ExampleBytes | crates/spk-schema/src/build_spec.rs:141-180 | the bytes of one recipe with a package and a variable, written out |
| BuildDigest.HashedBytes | crates/spk-schema/src/build_spec.rs:141-180 | the whole computation up to the hash |
| BuildDigest.OptionsDecode | crates/spk-schema/src/build_spec.rs:147-152 | option bytes followed by package bytes can be split in only one way |
| BuildDigest.PackagesDecode | crates/spk-schema/src/build_spec.rs:153-177 | package bytes decode uniquely |
| BuildDigest.EqualBytesEqualInputs | crates/spk-schema/src/build_spec.rs:147-177 | without separators in the wrong places, bytes are equal if and only if the resolved options and the packages with components are |
| BuildDigest.BuildsAgree | crates/spk-schema/src/build_spec.rs:141-180 | two builds hash the same bytes if and only if they agree on every option value and every component |
| BuildDigest.NulInValueCollides | crates/spk-schema/src/build_spec.rs:147-152 | any two options have the bytes of one option with a NUL in its value |
| BuildCollision.OnlyValuesIff | crates/spk-schema/src/build_spec.rs:147-152 | values of options with given names are the only ones with their bytes if and only if no value holds, after a NUL, the name and equals sign of its own option or of the next one |
| BuildCollision.ImitationCollides | crates/spk-schema/src/build_spec.rs:147-152 | a value that does can be cut differently |
| BuildCollision.CollisionImitates | crates/spk-schema/src/build_spec.rs:147-152 | other values with the same bytes are due to such a value |
| BuildCollision.BytesDetermineValues | crates/spk-schema/src/build_spec.rs:109-180 | the bytes of a build whose values do not do so determine every value among all builds of the recipe |
| BuildCollision.AnyValuesResolve | crates/spk-schema/src/build_spec.rs:109-139 | for a recipe whose options take any value, any list of values is what some given values resolve to |
| BuildCollision.DeterminedIff | crates/spk-schema/src/build_spec.rs:109-180 | the bytes of a build of such a recipe determine every value, among all values that can be given, if and only if no value holds, after a NUL, the start of its own option or of the next one |
| BuildCollision.OneRecipeCollides | crates/spk-schema/src/build_spec.rs:141-180 | one recipe, two sets of given values, different resolved options and the same bytes |
| BuildDigest.AddRequirementByName | crates/spk-schema/src/build_spec.rs:59-104 | what a requirement of a variant does to the options does not depend on their order |
| BuildDigest.ReorderingKeepsBytes | crates/spk-schema/src/build_spec.rs:37-180 | reordering the uniquely named options of a recipe leaves the bytes unchanged |
| Base32.DecodeSymbols | crates/spfs-encoding/src/hash.rs:298-321 | a string of symbols decodes exactly when its length leaves 0, 2, 4, 5 or 7 symbols over, to its whole bytes |
| Base32.PrefixParses | crates/spfs-encoding/src/hash.rs:273-324 | any k leading symbols of a digest string parse exactly for those lengths, to the first floor(5k/8) bytes |
| Base32.ParseDisplay | crates/spfs-encoding/src/hash.rs:345-352 | parsing what is displayed gives the bytes back |
| Base32.ParseEncode | crates/spfs-encoding/src/hash.rs:273-324 | so does parsing the padded text |
| Base32.TextLength | crates/spfs-encoding/src/hash.rs:345-352 | the displayed text has just enough symbols |
| Base32.OnlyWholeTextIsFull | crates/spfs-encoding/src/hash.rs:326-334 | of a digest's text only the whole parses to a full digest |
| Base32.DisplayIsInjective | crates/spfs-encoding/src/hash.rs:345-352 | different partial digests are displayed differently |
| Base32.Alphabet | crates/spfs-encoding/src/hash.rs:345-352 | the symbols are A to Z and 2 to 7, in this order (section 6 of RFC 4648) |
| Base32.OnlySymbols | crates/spfs-encoding/src/hash.rs:273-297 | nothing but these has a value |
| Base32.BadTextFails | crates/spfs-encoding/src/hash.rs:273-324 | the empty text, and any text with a character other than these and the padding, does not parse |
| Base32.TestVector | crates/spfs-encoding/src/hash.rs:345-352 | the text of one digest, the test vector "f" of section 10 of RFC 4648 |
| Monitor.Poll | crates/spfs/src/monitor.rs:201-222 | the events of a poll, in any order of iteration, turn what was known into what was scanned |
| Monitor.PollReplays | crates/spfs/src/monitor.rs:246-258 | replaying them through the parent filter gives the scan |
| Monitor.Repair | crates/spfs/src/monitor.rs:265-291 | the tracked set becomes the scan and is never empty on the way unless the scan is |
| Monitor.StepKeepsInv | crates/spfs/src/monitor.rs:302-362 | every step of poller and monitor keeps the protocol's invariant |
| Monitor.ReturnsOnlyAfterEmptyScan | crates/spfs/src/monitor.rs:155-363 | on every run the wait returns only after the first scan, a poll's or a repair's found no process |
| Monitor.ReturnsIff | crates/spfs/src/monitor.rs:302-362 | the wait ends exactly when the last tracked process exits, or a time-out finds none tracked, and the scan of the repair finds none either, or when the poller has stopped and all its events have been seen |
| Monitor.TimeoutRepairs | crates/spfs/src/monitor.rs:302-362 | a wait that goes on after a time-out tracks what the scan of that time-out has found |
| Monitor.TwoTimeoutsReturn | crates/spfs/src/monitor.rs:302-362 | from every state two time-outs whose scans are empty end the wait |
| Monitor.ExecKeepsStep | crates/spfs/src/monitor.rs:174-258 | until a repair, a monitor in step with the poller stays so |
| Monitor.FollowsIff | crates/spfs/src/monitor.rs:174-362 | from any moment before the wait is over, also right after a repair, on every stretch without a repair the tracked set is the last scan whenever no event is on its way, if and only if delivering the events on their way gives the last scan or forces a repair |
| Monitor.RepairLosesAProcess | crates/spfs/src/monitor.rs:201-222 | a repair after which a process that the poller has scanned is never tracked |
| Monitor.StartsInStep | crates/spfs/src/monitor.rs:155-176 | a wait starts in step with the poller |
| Components.ResolveUses | crates/spk-schema/src/component_spec_list.rs:72-98 | the worklist ends with the least set that holds the requests, the uses of its members and, with `All`, every name; everything in it is there for one of these reasons; `All` is dropped |
| Components.LeastIsUnique | crates/spk-schema/src/component_spec_list.rs:72-98 | that set is determined by the list and the requests |
| Components.GatherNames | crates/spk-schema/src/component_spec_list.rs:188-199 | finds a repeated name, or gathers all names |
| Components.UsesAreDefined | crates/spk-schema/src/component_spec_list.rs:219-239 | succeeds exactly when every used component is defined |
| Components.ReadSpecs | crates/spk-schema/src/component_spec_list.rs:184-248 | a list is accepted exactly when names are distinct, `all` is not defined and uses are defined or have a default; the result has exactly the definitions of the input and the missing defaults, as given if order has meaning and in order of name otherwise |
| Components.KeyOrder | crates/spk-schema/crates/foundation/src/ident_component/component_spec.rs:29-36 | in order of name the reserved ones come first, as they are declared, and the others by name |
| Lexical.LessIff | crates/spk-schema/src/component_spec_list.rs:242-245 | one name is below another if it is a proper start of it or is below it at the first difference |
| Components.ClosureStaysInList | crates/spk-schema/src/component_spec_list.rs:72-98 | on an accepted list the closure of names in the list stays in the list |

## Left out

- Namespaces, privileges and system calls: whether the mount arguments fit is a predicate on the manifests whose directories would be mounted, and overlayfs is taken to merge directories and to let the upper of two other things hide the lower. The edits in the upper directory of a runtime are not modelled.
- Hash functions and encodings of objects: a digest is a number, and one assignment of objects to digests holds for all repositories.
- Reporters, progress bars and permissions of payloads: they do not change what is stored.
- Items of an environment that are files, and the resolution of partial digests and tags in a repository: a sync starts from the resolved digest or the tag.
- Reusing a syncer after a failed call, and cloning one with another source: its processed set then holds unfinished digests.
- Proxies of the cleaner: they are removed by link count, which earlier removals change.
- Counters of a clean, removed objects in its result, and tags whose removal fails.
- Young objects: they are kept without their children, so nothing is claimed about what they refer to.
- A clean that overlaps with a commit or a sync: the code relies on the age of objects alone.
- Repairing while checking, the results of tags and environments around the results of objects, and the bytes counted in a summary.
- CheckFinish.AlwaysFinishesIff: for repositories whose layer annotations refer to blobs or to nothing that is there; a check that meets another object there ends in an error.
- CheckFinish.EnoughFinishes: for more items of an environment than are taken up at a time, in an order that is given, and for tag streams, whether a check can block below roots that are not the first ones is not decided; that depends on which objects the earlier roots have left behind.
- BuildCollision.DeterminedIff: for recipes none of whose options is set or named like another one with the namespace of the package, and for which every value is valid; without that, BuildCollision.BytesDetermineValues still holds.
- Attributes, file handles and reading files in FUSE; `readdirplus`, which differs from `readdir` only in the attributes; wrap-around of 64-bit inode numbers.
- Validity of option values and conversion of requests to options: the first is a parameter, the second is taken to succeed.
- Annotations of resolved layers, beyond their being those of a stored layer: a layer is known by its manifest, as its comparison has it.
- The monitor without a mount namespace, with failing scans, and its heartbeat.
- BuildDigest.HashedBytes: an option list with a repeated name, which reading a recipe rejects, would hash both packages of that name; the model keeps the last.
- Clean.WalkStreams: two equal visits that are pending at once count as one, since the later of the two does nothing.
- SyncRace.StaysClosedIff: for syncs that can read all they ask for, with layers whose manifest is one and whose annotations are blobs; the direction from unshared to closed (SyncSharing.UnsharedStaysClosed) needs none of this.
