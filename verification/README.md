# A verified model of catalogd

catalogd watches ClusterCatalog objects, pulls the image each one names, unpacks the config
directory of that image, stores the metadata found there, and serves it over HTTP. This project
models the part that keeps API objects, disk and memory in step, in Dafny 4.11, and proves what
that part is for. `dafny verify dfyconfig.toml` checks all of it.

The model has three levels.

- **Components.** `Paths` (cleaning and comparing path strings, the layer filter), `Layers`
  (applying tar entries with whiteouts and links), `Filtering` (what the filter does to an
  unpack), `Removal` (permissions and recursive removal), `Disk` (an unpacked directory as nested
  nodes and as a map from paths), `ImageCache` (`Unpack` and its cache), `ContentStore` (files,
  temporary file and rename), `GarbageCollection`, `Polling` (64-bit durations), `Conditions`,
  `StatusUpdates`, `GoErrors` (wrapping, joining, terminal errors), `Api`.
- **One reconcile.** `Reconciling` cuts it into the steps between which other things can happen.
  `Controller` has the same as classes that change their fields in place; each method is proved
  against the step functions. `Convergence` is about reconciles in a row.
- **All runs.** `Machine` is one catalog with everything that can happen to it, in any order:
  users create, edit and delete the object, other controllers add finalizers and conditions, the
  controller reads from a cache that may lag behind, its writes are refused or go through without
  it learning of it, the process is killed at any step, the collector works from an old list, the
  registry answers differently each time. `Ownership`, `Consistency` and `Serving` prove what
  holds in every reachable state and along every run; `RoundsAsRuns` shows that a reconcile is
  such a run; `Scenarios` has runs from the beginning, the smooth one and those in which something
  goes wrong; `Isolation` adds the other catalogs.

The API server is the sequence of the object's versions; the resource version is the index. A
digest is a wrapper around the manifest it was computed from, so hashes do not collide. Disk
permissions are those of an owner that is not root.

## What turned out not to hold

- A catalog that is marked deleted, is available, and is kept only by finalizers of others is
  unpacked and stored again although the controller's finalizer is gone (`HeldByOthersIsRefilled`,
  and from the initial state `FinalizerCanBeOutlived`). This step, and no other, loses the
  finalizer's cover (`CoverIsLostExactly`). What was stored goes again if the object is made
  unavailable; if the others let go first, it stays (`ContentOutlivesObject`, `OrphanStays`).
- If a tag moves between resolving and pulling, the directory of the old digest gets the new
  image, and is served as the old digest from then on (`MovedTagIsServed`). A pull is right
  exactly if both images unpack to the same (`PullIsCompleteWhenTagStands`).
- A process that is killed during an unpack leaves a directory that the next one takes for the
  whole image (`KilledUnpackIsServed`).
- A layer that whites out or replaces the config directory, or a directory above it, is not
  noticed by the filtered unpack (`DroppedEntryExact`); nor is an entry that a link from elsewhere
  leads into the config directory (`DroppedEntryInside`, `LinkedFileIsMissed`). An image whose
  entries are named so that neither can happen is unpacked right (`FilteredUnpackByNames`).
- Garbage collection removes plainly, and so fails on the read-only trees that unpacking leaves
  (`SealedCatalogStopsCollection`, `RemoveAllExact`).
- A condition of a type the controller does not know makes it unpack in every reconcile
  (`ForeignForcesUnpack`, `ForeignConditionSurvives`).
- Poll intervals overflow exactly above `Polling.LONGEST_INTERVAL` minutes
  (`LongestIntervalIsExact`).

Two comments in the source disagree with its code; the model follows the code. The unavailable
path sets Progressing to True, not to False (clustercatalog_controller.go:171, 351). `reconcile`
does return delays (clustercatalog_controller.go:152, 227, 262).

## Assumptions of the machine

Nobody but the controller removes its finalizer. The API server refuses to add finalizers to an
object that is being deleted, and increases the generation exactly with the spec and on deletion.
The controller's cache does not go back to older versions, also across restarts; what happens
without that is in `OlderListLosesCover`. At most one reconcile per catalog is under way. `torn` is set when the unpack cache may have become incomplete (a kill during an unpack,
an I/O error during a removal, a tag that moved, a directory listing that was wrong), and cleared
by a complete purge and by a pull that nothing disturbs. `swept` is set when the collector fails
half way through the directory of an unpack that is about to be stored, and cleared by the next
unpack. The statements that need their absence say so.

## Model

| member | source | states |
|---|---|---|
| `Ownership.NothingOutlivesFinalizer` | internal/controllers/core/clustercatalog_controller.go:164-191 | In every run in which no step unpacks from a copy that is marked deleted, available and held by others alone: whenever any entry, content or unpack directory exists, the object exists and carries the delete-server-cache finalizer. Stale reads, refused and lost writes, kills, restarts and garbage collection are all allowed. |
| `Scenarios.HeldByOthersIsRefilled` | internal/controllers/core/clustercatalog_controller.go:182-190 | From every idle state without entry whose object is available, marked deleted and held by others alone, a successful reconcile is a run to an idle state with entry, content and cache, and without the finalizer. |
| `Scenarios.HeldByOthersHappens` | internal/controllers/core/clustercatalog_controller.go:182-190 | Such an object is reached from the initial state by two user actions, for every available spec and every other finalizer. |
| `Ownership.CoverIsLostExactly` | internal/controllers/core/clustercatalog_controller.go:182-190 | From every state that satisfies the invariant, every step: afterwards nothing is held or the object carries the finalizer, exactly if the step did not unpack, or get killed at it, from a copy held by others alone and leave something. (The object has not been replaced by a new one in between.) |
| `Scenarios.FinalizerCanBeOutlived` | internal/controllers/core/clustercatalog_controller.go:182-262 | From the initial state, for every available spec whose image can be unpacked: a run that ends with entry, content and cache, and an object without the finalizer. |
| `Scenarios.OrphanStays` | internal/controllers/core/clustercatalog_controller.go:90-93 | Once the object is gone, and the controller has seen that, its content stays in every run up to the creation of an object of the same name. |
| `Scenarios.ContentOutlivesObject` | internal/controllers/core/clustercatalog_controller.go:182-262 | From the initial state, for every such spec: a run after which the object is gone and its content stays in that way. |
| `Scenarios.OlderListLosesCover` | internal/controllers/core/clustercatalog_controller.go:90-93 | From a reachable state, were the controller to start from an older version than it has read: two ordinary steps, neither from a copy held by others, leave an unpack that no finalizer covers. |
| `Ownership.NextGuarded` | internal/controllers/core/clustercatalog_controller.go:82-135 | One step of anything keeps the ownership invariant, except a step that unpacks from a copy held by others alone and leaves something. |
| `Ownership.RunGuarded` | internal/controllers/core/clustercatalog_controller.go:82-135 | The ownership invariant along every run without such a step. |
| `Ownership.HistoryGrows` | internal/controllers/core/clustercatalog_controller.go:104-132 | In every run versions are only appended, the same generation of an object means the same spec, and a reconcile's working copy is the version it read apart from status and finalizers. |
| `Ownership.NoUnexpectedFieldChange` | internal/controllers/core/clustercatalog_controller.go:106-112 | In every reachable state the working copy of a reconcile equals what it read, apart from status and finalizers, so the panic for unexpected field changes is never reached. |
| `Consistency.ReachableIsConsistent` | internal/controllers/core/clustercatalog_controller.go:82-263 | The joint invariant of map, content, cache, status and working copy holds in every reachable state. |
| `Consistency.NextConsistent` | internal/controllers/core/clustercatalog_controller.go:82-263 | One step of anything keeps the joint invariant. |
| `Consistency.EntryMeansContent` | internal/controllers/core/clustercatalog_controller.go:238-261 | Whenever no reconcile is in the middle of local work, an entry in the map means that content exists, and it is a permutation of the blobs of that entry's unpack. Excluded from the second part is only an entry whose own unpack the collector half removed between the unpack and the store. |
| `Consistency.CacheStaysComplete` | internal/source/containers_image.go:72-79 | In every reachable state, unless something tore the cache since the last complete purge or undisturbed pull: each digest directory holds everything its image unpacks to, and there is at most one, so that finding the directory means the unpack is done. |
| `Consistency.StatusStaysCoherent` | internal/controllers/core/clustercatalog_controller.go:305-382 | Every status the API server ever holds has Serving true exactly with resolved source, URL and unpack time set, at most one condition per type, and no known condition observed at a generation from the future. |
| `Consistency.ErrorsAreReported` | internal/controllers/core/clustercatalog_controller.go:98-123 | In every reachable state between the return of `reconcile` with an error and the end of the writes, the status to be written says Blocked and False exactly if the error is terminal, and Retrying otherwise. |
| `Serving.ContentChanges` | internal/controllers/core/clustercatalog_controller.go:425-443 | Each single step leaves the content alone, or replaces it by the complete new content in the store step, or deletes it in the delete step of a catalog that is unavailable or being deleted. |
| `Serving.ContentLostOnlyByPurge` | internal/controllers/core/clustercatalog_controller.go:164-191 | Along every run in which content disappears there is a prefix after which the content is there and the next step takes it away, and that step is the delete step of an unavailable or deleted catalog; failed unpacks, failed stores, restarts and collections never do. |
| `Serving.EntryIsOfSameSpec` | internal/controllers/core/clustercatalog_controller.go:216-218 | In every consistent state: if the copy that was read says it is served, an entry of its generation was made from the same object with the same spec, also if an earlier object of the name left an entry behind. |
| `Serving.NeverPanics` | internal/controllers/core/clustercatalog_controller.go:384-388 | In every reachable state the poll check is not reached with a missing image source. |
| `Serving.SkipMeansMatch` | internal/controllers/core/clustercatalog_controller.go:197-228 | The skip branch is taken only with an entry of this generation, content on disk, and exactly the expected status. |
| `Serving.SkipRefinesFullPath` | internal/controllers/core/clustercatalog_controller.go:224-262 | In every reachable state in which the skip branch is taken and the spec still resolves to the entry's digest, with an untorn cache: unpacking and storing again would give a permutation of the content there is, and the same object except for the unpack time. |
| `Convergence.SkipExactly` | internal/controllers/core/clustercatalog_controller.go:197-228 | For an available catalog in agreement, the decision is to skip exactly if no poll is due and no condition has an unknown type; otherwise it is to unpack. |
| `Convergence.UnpackReachesAgreement` | internal/controllers/core/clustercatalog_controller.go:230-262 | One error-free unpack leaves API object, map and disk in agreement, even after the status went through the API server's rounding of times. |
| `Convergence.TwoRoundsAgree` | internal/controllers/core/clustercatalog_controller.go:82-263 | After two error-free reconciles of an available catalog there is agreement, whatever is held and whichever of finalizer, unpack and skip they took, if the poll check does not stop them. |
| `Convergence.AgreementIsQuiet` | internal/controllers/core/clustercatalog_controller.go:224-228 | From agreement any number of reconciles, with whatever outcomes the outside would have had, changes nothing and writes nothing, until a poll is due. |
| `Convergence.ForeignForcesUnpack` | internal/controllers/core/clustercatalog_controller.go:213-215 | The exception: with a condition of unknown type no reconcile ever skips. |
| `Convergence.ForeignConditionSurvives` | internal/controllers/core/clustercatalog_controller.go:295-303 | After any number of reconciles, whatever happened in them, such a condition is still there and the next reconcile does not skip either, since it is cleared from the expected status only. |
| `Convergence.PollFollows` | internal/controllers/core/clustercatalog_controller.go:282-293 | An error-free reconcile of a polled catalog ends in agreement and asks to be called back after at most 101% of the interval, exactly if its own deadline is still ahead; every reconcile after that delay unpacks. |
| `Convergence.UnavailableIsWithdrawn` | internal/controllers/core/clustercatalog_controller.go:164-180 | One error-free reconcile of an unavailable catalog leaves nothing on disk or in the map, the unavailable status, and no finalizer of the controller. |
| `Convergence.UnavailablePass` | internal/controllers/core/clustercatalog_controller.go:344-382 | The two status updates of that path always end in the unavailable status, and together change nothing, not even a transition time, if it was there before. |
| `Convergence.WithdrawnIsQuiet` | internal/controllers/core/clustercatalog_controller.go:164-180 | Once withdrawn, any number of further reconciles changes nothing and writes nothing. |
| `Convergence.DeletedIsReleased` | internal/controllers/core/clustercatalog_controller.go:182-190 | One error-free reconcile of an available catalog that is being deleted leaves nothing on disk or in the map; the object is gone exactly if no others hold it, and otherwise has lost this finalizer, kept all of the others', and is not serving. |
| `Convergence.UnavailableIsReleased` | internal/controllers/core/clustercatalog_controller.go:164-180 | The same for an unavailable one: it is gone exactly if it is being deleted and no others hold it. |
| `Convergence.OthersFinalizersStay` | internal/controllers/core/clustercatalog_controller.go:104-132 | However a reconcile ends, it changes nothing of the object but status and finalizers, leaves every finalizer of others as often as it was, and does away with the object only if it is being deleted and no others hold it. |
| `Convergence.WritesOnlyChanges` | internal/controllers/core/clustercatalog_controller.go:106-132 | A reconcile writes exactly if status or finalizers changed; what is not written, or refused, stays. |
| `Convergence.ErrorForgetsEntry` | internal/controllers/core/clustercatalog_controller.go:97-103 | After an error of `reconcile` the entry is gone, and the next reconcile does not skip. |
| `Convergence.DelayIsForPolling` | internal/controllers/core/clustercatalog_controller.go:282-293 | A delay is asked for only for a polled catalog, with an entry left and no error. |
| `RoundsAsRuns.ReconcileIsRun` | internal/controllers/core/clustercatalog_controller.go:82-135 | The reconcile function is one of the machine's runs: from any idle state, with the same resulting object and local state. |
| `RoundsAsRuns.NoPanicAfterRead` | internal/controllers/core/clustercatalog_controller.go:384-388 | In every consistent state a reconcile of the latest version, at whatever time, does not stop in the poll check. |
| `RoundsAsRuns.ReachableConverges` | internal/controllers/core/clustercatalog_controller.go:82-263 | From every reachable idle state with an available catalog there is agreement after two error-free reconciles. |
| `RoundsAsRuns.RunsConverge` | internal/controllers/core/clustercatalog_controller.go:82-263 | The same as a run: the machine leads from there to a state in agreement whose content is a permutation of the blobs of the entry's unpack, unless the collector had got at the unpack of the entry before. |
| `RoundsAsRuns.DeletionCompletes` | internal/controllers/core/clustercatalog_controller.go:182-190 | From every reachable idle state of an available catalog that is being deleted, a reconcile in which nothing fails is a run to where nothing is held and the object is gone, or kept by others alone. |
| `Scenarios.NewCatalogConverges` | internal/controllers/core/clustercatalog_controller.go:82-263 | From the initial state, for every image that can be unpacked: a run of two reconciles after which a new catalog of that image is in agreement, with the blobs of its unpack as content. |
| `Reconciling.BodyReportsErrors` | internal/controllers/core/clustercatalog_controller.go:305-326 | Whenever `reconcile` returns an error its status update says so with the right reason, and the error is terminal exactly if the decision was to unpack and the cause is one that no retry cures. |
| `Reconciling.ReturnedErrorIsTerminal` | internal/controllers/core/clustercatalog_controller.go:120-134 | There is an error exactly if one came up in `reconcile` or in a write, and joining neither hides nor adds a terminal one. |
| `Controller.Reconciler.Reconcile` | internal/controllers/core/clustercatalog_controller.go:82-135 | Object, map, content, cache, delay and error after the call are those of the reconcile function; nothing of any other catalog changes. |
| `Controller.Reconciler.ReconcileBody` | internal/controllers/core/clustercatalog_controller.go:160-263 | The branches in their order, on the working copy in place; the result of each is that of the pure `reconcile`. |
| `Controller.Reconciler.Withdraw` | internal/controllers/core/clustercatalog_controller.go:164-180 | The unavailable branch: after success nothing is held and the finalizer is gone from the working copy. |
| `Controller.Reconciler.Finalize` | internal/controllers/core/clustercatalog_controller.go:408-418 | The deletion branch: the same, with a wrapped error. |
| `Controller.Reconciler.UnpackIfNeeded` | internal/controllers/core/clustercatalog_controller.go:197-262 | The part after the finalizers: unpack or skip, and the delay until the next poll. |
| `Controller.Reconciler.NeedsUnpack` | internal/controllers/core/clustercatalog_controller.go:197-222 | True exactly if the pure decision is to unpack. |
| `Controller.Reconciler.UnpackAndStore` | internal/controllers/core/clustercatalog_controller.go:230-261 | Unpack, store, status and entry, with both error exits. |
| `Controller.Reconciler.StoreUnpacked` | internal/controllers/core/clustercatalog_controller.go:243-261 | From the unpacked directory on: content, status and entry, or the error and what was there. |
| `Controller.Reconciler.NoteSuccess` | internal/controllers/core/clustercatalog_controller.go:248-261 | Afterwards the status says what the result says, and the entry is there; other catalogs stay. |
| `Controller.Reconciler.NextPollResult` | internal/controllers/core/clustercatalog_controller.go:282-293 | Zero without an interval; otherwise positive exactly before the jittered deadline, ending at that deadline, and at most 101% of the interval, for every interval that does not overflow; with 64-bit wrap-around and saturation for the others. |
| `Controller.Reconciler.DeleteCatalogCache` | internal/controllers/core/clustercatalog_controller.go:431-443 | Content, status, cache and entry in this order, with the two error exits. |
| `Controller.Reconciler.CleanupAndForget` | internal/controllers/core/clustercatalog_controller.go:437-442 | Its second half: after an I/O error the entry stays and the status reports it, otherwise cache and entry are gone; other catalogs stay. |
| `Controller.Reconciler.DeleteStoredCatalog` | internal/controllers/core/clustercatalog_controller.go:425-429 | The catalog's entry is gone, its content and cache and everything of all other catalogs are as before. |
| `Controller.Reconciler.WriteBack` | internal/controllers/core/clustercatalog_controller.go:104-132 | Each write happens only if its part changed; the finalizer write after a lost status reply is refused; other objects stay. |
| `Controller.WorkingCatalog.UpdateStatusProgressing` | internal/controllers/core/clustercatalog_controller.go:305-326 | A reader finds Progressing True, Succeeded after a success; False, Blocked after a terminal error and True, Retrying after any other, with its text; every other type reads as before; a coherent status stays coherent. |
| `Controller.WorkingCatalog.UpdateStatusServing` | internal/controllers/core/clustercatalog_controller.go:328-342 | A reader finds Serving True, Available, and source, URL and time of the unpack; every other type reads as before; a coherent status stays coherent. |
| `Controller.WorkingCatalog.UpdateStatusNotServing` | internal/controllers/core/clustercatalog_controller.go:372-382 | A reader finds Serving False, Unavailable, and no source, URL or time; every other type reads as before; a coherent status stays coherent. |
| `Controller.WorkingCatalog.UpdateStatusUserUnavailable` | internal/controllers/core/clustercatalog_controller.go:344-370 | A reader finds Progressing True, Succeeded and Serving False, UserSpecifiedUnavailable; other types read as before; a coherent status that was not serving stays coherent. |
| `StatusUpdates.UpdatesKeepCoherent` | internal/controllers/core/clustercatalog_controller.go:305-382 | Each of the status updates keeps the status coherent, in the order the code applies them. |
| `StatusUpdates.PersistKeepsCoherent` | internal/source/containers_image.go:181-187 | So does the round trip through the API server. |
| `StatusUpdates.ProgressingReports` | internal/controllers/core/clustercatalog_controller.go:305-326 | The Progressing condition after an error: Blocked and False if it is terminal, Retrying and True if not. |
| `StatusUpdates.SuccessShows` | internal/controllers/core/clustercatalog_controller.go:305-312 | After a success the Progressing condition is True, Succeeded, of this generation. |
| `StatusUpdates.UserUnavailableShows` | internal/controllers/core/clustercatalog_controller.go:344-370 | On the unavailable path Progressing is True, Succeeded and Serving False, UserSpecifiedUnavailable. |
| `StatusUpdates.MatchShows` | internal/controllers/core/clustercatalog_controller.go:265-280 | A status matches an unpack result exactly if a reader finds the three fields of the result, Serving True, Available and Progressing True, Succeeded. |
| `StatusUpdates.ExpectedIsCurrent` | internal/controllers/core/clustercatalog_controller.go:265-280 | The expected status equals the actual one exactly if the actual one says what the entry says and has no unknown condition types. |
| `StatusUpdates.UnpackMakesMatch` | internal/controllers/core/clustercatalog_controller.go:250-251 | After the updates of a successful unpack the status says what the result says. |
| `StatusUpdates.UnpackOfMatchIsNoop` | internal/controllers/core/clustercatalog_controller.go:250-251 | Repeating them for the same resolved source changes at most the unpack time. |
| `StatusUpdates.PersistKeepsMatch` | internal/source/containers_image.go:181-187 | A status still matches its unpack result after the API server's rounding exactly if the unpack time is a whole second, which is why the times are truncated. |
| `Conditions.LookupSet` | internal/controllers/core/clustercatalog_controller.go:325-325 | After setting a condition every other type reads as before, and this one as set, with the old transition time exactly if the status value was the same, and with now otherwise. |
| `Conditions.SetIsNoop` | internal/controllers/core/clustercatalog_controller.go:213-215 | Setting a condition changes nothing exactly if the list already says it. |
| `Conditions.SetKeepsUnique` | internal/controllers/core/clustercatalog_controller.go:325-325 | At most one condition per type is kept. |
| `Conditions.SetKeepsOrder` | internal/controllers/core/clustercatalog_controller.go:325-325 | Types keep their places and a new one goes to the end. |
| `Conditions.KnownIsNoop` | internal/controllers/core/clustercatalog_controller.go:295-303 | Clearing unknown conditions leaves known ones only, and is the identity exactly on lists of known types. |
| `Conditions.KnownExact` | internal/controllers/core/clustercatalog_controller.go:295-303 | Every condition of a known type stays, as often as it was there, and no other. |
| `Conditions.SetBack` | internal/controllers/core/clustercatalog_controller.go:344-382 | Setting another reason or message with the same status value and then the old one again restores the list, transition time included. |
| `ImageCache.ImageRegistry.Unpack` | internal/source/containers_image.go:41-167 | Result and cache are those of the unpack function; other catalogs' directories stay. |
| `ImageCache.ImageRegistry.UnpackPulledImage` | internal/source/containers_image.go:150-166 | From the pulled image to the result, with both error exits. |
| `ImageCache.ImageRegistry.ExtractImage` | internal/source/containers_image.go:262-317 | Label, directory, layers and permissions, with what each error leaves behind. |
| `ImageCache.ImageRegistry.ExtractLayers` | internal/source/containers_image.go:296-312 | The layer loop: the tree after the layers applied so far, and whether all were. |
| `ImageCache.ImageRegistry.DiscardFailed` | internal/source/containers_image.go:150-155 | The directory of a failed unpack is gone exactly if no I/O error hits its removal: permissions never stop it, by the removal model. |
| `ImageCache.ImageRegistry.DeleteOtherImages` | internal/source/containers_image.go:346-362 | The eviction loop over the listing, each removal by the removal model, stopping at the first I/O error. |
| `ImageCache.ImageRegistry.Cleanup` | internal/source/containers_image.go:191-196 | The whole catalog directory is gone exactly if no I/O error hits its removal, by the removal model; success for a missing directory. |
| `ImageCache.UnpackTerminalExact` | internal/source/containers_image.go:420-425 | An unpack error is terminal exactly for a missing image source, an unparsable reference, a bare name without tag and digest, or a missing label on an image given by digest, whatever it is wrapped in. |
| `ImageCache.PullLeavesExactlyOne` | internal/source/containers_image.go:150-166 | After a pull without error exactly the resolved digest's directory is there, holding the pulled image. |
| `ImageCache.PullIsCompleteWhenTagStands` | internal/source/containers_image.go:61-150 | The pulled directory is complete exactly if the image pulled unpacks to the same as the one resolved, since the pull goes by the reference of the spec and not by the resolved digest. |
| `Scenarios.MovedTagIsServed` | internal/source/containers_image.go:61-150 | For any two images that unpack differently: a run from the initial state in which a tag moves between resolving and pulling, ending, after a restart, with the second image's blobs served as the first one's digest. |
| `Scenarios.KilledUnpackIsServed` | internal/source/containers_image.go:72-79 | For any image and any number of its layers: a run from the initial state in which the process is killed after applying these, ending with the partial directory taken for the image and served. |
| `ImageCache.KilledAfterLayers` | internal/source/containers_image.go:296-317 | Being killed after all entries of any number of layers, before permissions are taken away, is one of the points at which an unpack can be killed. |
| `Scenarios.DirectoryIsTrusted` | internal/source/containers_image.go:72-79 | From every idle state without entry: whatever is in the directory of the digest that the spec resolves to is served as that digest's content by the next reconcile. |
| `ImageCache.FailedUnpackLeavesNothing` | internal/source/containers_image.go:150-155 | After a failed unpack whose cleanup succeeds, the directories are those from before. |
| `ImageCache.UnpackKeepsCacheComplete` | internal/source/containers_image.go:41-167 | Under the stated assumptions one call keeps every directory complete and at most one, returns what the digest stands for, and after an error leaves the directories as they were. |
| `ImageCache.RenewalCompletes` | internal/source/containers_image.go:132-166 | Whatever the cache held before, a successful pull that nothing disturbs leaves it complete, with one directory. |
| `ImageCache.HitEqualsPull` | internal/source/containers_image.go:72-79 | A cache hit returns the same tree and resolved source as pulling afresh into an empty cache. |
| `ImageCache.UnpackResolves` | internal/source/containers_image.go:169-189 | A successful result names the reference the spec resolves to; its unpack time is the directory's modification time on a hit and now after a pull, its poll time now, both in whole seconds. |
| `ImageCache.UnpackSucceedsExactly` | internal/source/containers_image.go:41-167 | Unpack succeeds exactly if the spec resolves and the directory is there, or the image can be pulled and opened, has the label, all layers can be read and applied, nothing but directories, files and links results, the catalog's directory can be listed, and no I/O error hits a removal. |
| `ImageCache.BuiltIsConfigDirectory` | internal/source/containers_image.go:283-317 | What an unpack of a well-named image leaves is the config directory that the label names, with all that is in it, and otherwise only directories leading there. |
| `ImageCache.BuiltIsReadOnly` | internal/source/containers_image.go:313-315 | Everything in it is read-only, and there is nothing but directories, files and symbolic links. |
| `ImageCache.UnpackResultIsThere` | internal/source/containers_image.go:169-175 | The tree of a successful result is the one in its directory. |
| `Filtering.FilteredUnpackIsSubtree` | internal/source/containers_image.go:296-344 | For every stack of layers whose entries, where links lead them, neither enter nor leave the config directory nor hide it: if all of it can be unpacked, the filtered unpack succeeds, its config directory is exactly that of the full unpack, and beside it there are only plain directories leading there. |
| `Filtering.FilteredUnpackByNames` | internal/source/containers_image.go:296-344 | The same from names and kinds of the entries alone: no name goes up or is below the name of a link, none whites out the config directory or one above it or puts anything but a directory there, and hard links in it are to things in it. |
| `Filtering.DroppedEntryExact` | internal/source/containers_image.go:330-344 | At any point of any layer: an entry that the filter drops and that ends up outside the config directory changes it in the full unpack exactly if it whites out or replaces the directory or one above it, and then leaves nothing there, or after an opaque whiteout exactly what this layer has written. |
| `Filtering.DroppedEntryInside` | internal/source/containers_image.go:330-344 | The other case: an entry that the filter drops and that a link leads into the config directory takes effect there in the full unpack: it is put there, or its victim is gone, or the directory is cleared. |
| `Filtering.LinkedFileIsMissed` | internal/source/containers_image.go:330-344 | For every source path but the root: a layer of a link and a file by way of it, after which the full unpack has something in the config directory and the filtered unpack is empty. |
| `Layers.TreeBlobsOfAny` | internal/storage/localdir.go:42-48 | The blobs of a tree do not depend on the order in which its files are visited. |
| `Filtering.JudgeIsPrefix` | internal/source/containers_image.go:330-344 | For a source path that does not go up the filter is the element-wise prefix test. |
| `Filtering.PathOfPlainName` | internal/source/containers_image.go:330-344 | An entry's path has the elements of its name, with a leading slash, with ./ or without. |
| `Filtering.HardlinkExact` | internal/source/containers_image.go:319-328 | A hard link puts in place what its target is, and fails exactly if that is a directory or missing. |
| `Filtering.WhiteoutByName` | internal/source/containers_image.go:319-328 | An entry .wh.x takes away exactly the x beside it and what is in it. |
| `Filtering.OpaqueByName` | internal/source/containers_image.go:319-328 | An opaque whiteout takes away exactly what is in its directory and was not written by this layer. |
| `Filtering.LinkLeads` | internal/source/containers_image.go:319-328 | A relative link leads on from its directory, an absolute one from the unpack directory. |
| `Layers.RefusalStopsUnpack` | internal/source/containers_image.go:338-341 | A header that the filter refuses anywhere in a layer fails the layer. |
| `Layers.UnpackingStaysAccessible` | internal/source/containers_image.go:333-335 | Whatever modes the headers ask for, every file and directory stays accessible to the owner while layers are applied. |
| `Paths.FilterExact` | internal/source/containers_image.go:330-344 | On all pairs of strings: an entry is kept exactly if it lies within the source path, and the error is returned exactly if the two cannot be compared. |
| `Paths.FilterKeepsSubtree` | internal/source/containers_image.go:330-344 | With at most one leading slash each and a source that does not go up, there is no error and the entry is kept exactly if the source's elements are a prefix of its own. |
| `Paths.FilterOnElements` | internal/source/containers_image.go:330-344 | For paths written out of plain elements, with or without a leading slash on either side: kept exactly if the source's elements are a prefix of the name's, dropped otherwise. |
| `Paths.SlashMakesNoDifference` | internal/source/containers_image.go:331-337 | For all strings: one leading slash on the source or on the name does not change the verdict. |
| `Paths.ParseRender` | internal/source/containers_image.go:331-338 | Cleaning a cleaned path gives it back. |
| `Paths.ParseDescends` | internal/source/containers_image.go:331-338 | Cleaning a path with one more element is cleaning the path and taking one step: stay, down, or up. |
| `Paths.RelWordsExact` | internal/source/containers_image.go:339-343 | The relative path exists exactly if the two can be compared, and does not start by going up exactly if the target lies within the source. |
| `Removal.DeleteRecursiveSucceeds` | internal/source/containers_image.go:399-418 | For every tree with whatever permissions, and for none, under a parent that can be written and searched: deletion succeeds exactly if the parent can also be read or there is nothing to look into. |
| `Removal.MakeWritableOpens` | internal/source/containers_image.go:400-415 | The walk gives every directory mode 0700 and changes nothing else. |
| `Removal.RemoveAllExact` | internal/source/containers_image.go:417-417 | Under such a parent plain removal succeeds exactly if every directory with something in it can be read, written and searched, and the parent can be read if there is anything to look into. |
| `Removal.LeftAreClosed` | internal/source/containers_image.go:417-417 | Of the entries of an open directory, plain removal leaves exactly those that are closed somewhere, whatever comes before them. |
| `Removal.MakeReadOnlySeals` | internal/source/containers_image.go:364-397 | Sealing succeeds exactly if there are only directories, files and symbolic links, gives modes 0500 and 0400, and keeps the contents. |
| `Removal.SealedNeedsDeleteRecursive` | internal/source/containers_image.go:364-418 | A sealed tree can be deleted recursively exactly if it is empty or the parent can be read, and plainly exactly if it is empty. |
| `Disk.SealIsMakeReadOnly` | internal/source/containers_image.go:364-397 | The permission walk over the nested directory succeeds exactly if sealing the tree it holds does, and gives the sealed tree. |
| `Disk.OpenUpIsMakeWritable` | internal/source/containers_image.go:399-416 | The walk before the removal never fails and opens exactly the directories of the tree. |
| `Disk.RemoveAllIsRemovable` | internal/source/containers_image.go:417-417 | Plain removal of an open nested directory succeeds exactly if no directory of the tree with something below it is closed, and the parent can be read if the tree is not empty. |
| `GarbageCollection.CacheDirectory.RunGarbageCollection` | internal/garbagecollection/garbage_collector.go:66-94 | Both error exits leave the directory alone. Otherwise a directory called like a listed catalog stays unchanged however the run ends, and a successful run removes and reports exactly the other entries of the listing. |
| `GarbageCollection.CacheDirectory.Sweep` | internal/garbagecollection/garbage_collector.go:82-93 | The removal loop, stopping at the first error. |
| `GarbageCollection.SweepSucceeds` | internal/garbagecollection/garbage_collector.go:82-93 | The sweep succeeds exactly if every stale entry can be removed, and then reports the stale entries in listing order. |
| `GarbageCollection.SweepReportsExactly` | internal/garbagecollection/garbage_collector.go:82-93 | What a successful sweep reports are the names at strictly ascending positions of the listing, and the positions are exactly those of names that are not wanted. |
| `GarbageCollection.SweepSpares` | internal/garbagecollection/garbage_collector.go:82-93 | Even a failing sweep keeps every wanted or unlisted entry unchanged; a successful one removes every stale entry that was listed. |
| `GarbageCollection.CollectionIsExact` | internal/garbagecollection/garbage_collector.go:66-94 | After a successful sweep exactly the directories of existing catalogs are there, unchanged. |
| `GarbageCollection.CollectionByNames` | internal/garbagecollection/garbage_collector.go:73-93 | The same of the sweep, by the names of the listed catalogs. |
| `GarbageCollection.StaleAtExact` | internal/garbagecollection/garbage_collector.go:83-86 | The reported positions are exactly those of entries that are not a wanted directory. |
| `GarbageCollection.SealedCatalogStopsCollection` | internal/garbagecollection/garbage_collector.go:87-89 | A collection whose listing has a stale catalog directory with a sealed, non-empty unpack in it fails, whatever else is there. |
| `Polling.NoOverflow` | internal/controllers/core/clustercatalog_controller.go:384-393 | For every interval up to the longest, interval and jitter do not wrap, and a poll is due exactly after the interval. |
| `Polling.LongestIntervalIsExact` | internal/controllers/core/clustercatalog_controller.go:285-290 | Of all intervals from one minute to the largest integer: interval and sum with the jitter are free of wrap-around for every jitter exactly up to the longest. |
| `Polling.PollingKeepsGoing` | internal/controllers/core/clustercatalog_controller.go:282-293 | The delay is positive exactly before the deadline, is at most 101% of the interval, and a call after it finds the poll due. |
| `ContentStore.StoreIsAtomic` | internal/storage/localdir.go:32-53 | After every prefix of the system calls of a store, the content served is the new one exactly after all of them, and the old one before; other catalogs are served as before. |
| `ContentStore.StoreServes` | internal/storage/localdir.go:32-53 | The same for a store with an error at any call, and no temporary file stays if its removal works. |
| `ContentStore.StoreSucceeds` | internal/storage/localdir.go:32-53 | With nothing in the way and no I/O error a store succeeds and leaves content and directories, and no temporary file. |
| `ContentStore.PathsOfCatalog` | internal/storage/localdir.go:27-37 | Content is at api/v1/all below the catalog's directory, the temporary file beside it in the root. |
| `ContentStore.UrlsApart` | internal/storage/localdir.go:59-61 | A catalog's URL starts with the root's and ends in an element that is its name, so different catalogs have different URLs. |
| `ContentStore.DeleteServes` | internal/storage/localdir.go:55-57 | Delete leaves no content, or after an error none or the old one; other catalogs stay. |
| `ContentStore.InsideIsOwn` | internal/storage/localdir.go:33-33 | Two catalogs' directories have no path in common. |
| `ContentStore.LocalDir.Store` | internal/storage/localdir.go:32-53 | The files after the call, the content served for this catalog, and that of all others. |
| `ContentStore.LocalDir.MakeDirs` | internal/storage/localdir.go:34-36 | The three directories in order, up to the first call that fails. |
| `ContentStore.LocalDir.WriteAndRename` | internal/storage/localdir.go:34-52 | The calls up to the first that fails. |
| `ContentStore.LocalDir.Delete` | internal/storage/localdir.go:55-57 | The files after the call, the content served for this catalog, and that of all others. |
| `Isolation.InterleavingIsInvisible` | internal/controllers/core/clustercatalog_controller.go:256-268 | Reconciles as programs that choose each access by the answers so far: in every interleaving each hears the same answers, and so makes the same accesses, as with the others' turns left out, and ends with the same files, entry and content. |
| `Isolation.StoresDoNotInterfere` | internal/storage/localdir.go:32-53 | Stores of any number of catalogs in any interleaving: one that has had its turns serves all of its blobs if its own calls succeed when made alone, and what was served before if not. |
| `Isolation.OwnAnswersAgree` | internal/controllers/core/clustercatalog_controller.go:256-268 | An access that stays with its catalog gets the same answer in any two states that look the same to that catalog: success of a call, an entry, a file, a listing. |
| `Isolation.OwnersApart` | internal/storage/localdir.go:33-38 | No path belongs to two catalogs, temporary files included, even where one name is a prefix of another. |
| `Isolation.StoreIsConfined` | internal/storage/localdir.go:32-57 | Every access of store, delete, cleanup and the content check touches only the catalog's own paths. |
| `Isolation.UnpackIsConfined` | internal/source/containers_image.go:262-362 | At any point of an unpack, whatever the layers contain: every call is for a path that goes down only from the catalog's directory in the cache, and so stays with the catalog. |
| `Isolation.ChangedIsTouched` | internal/source/containers_image.go:319-344 | What applying an entry changes is one of the places that its calls are for, or below one. |
| `Isolation.UnpackMinds` | internal/controllers/core/clustercatalog_controller.go:197-262 | The program of a reconcile that unpacks, with any calls an unpack can make, stays with its catalog. |
| `Isolation.StoreMinds` | internal/storage/localdir.go:32-53 | So does that of a store, with its deferred removal. |
| `Isolation.PurgeMinds` | internal/controllers/core/clustercatalog_controller.go:431-443 | So does that of a purge. |
| `Isolation.DestinationIsDownward` | internal/source/containers_image.go:319-344 | Whatever an entry is called and whatever links there are, it ends up at a path that goes down only from the unpack directory. |
| `Isolation.UnpackingStaysDownward` | internal/source/containers_image.go:296-312 | So does everything that any sequence of entries leaves. |

## Left out

- HTTP serving, compression of responses, metrics, logging, the pull secret, the webhook, and the wiring in `cmd`: they add no state to the protocol.
- Registry access, signature policy, `copy.Image` and decompression: their outcomes are parameters, errors included.
- Parsing catalog files: a file is the sequence of its blobs, and the walk delivers the blobs of the unpacked tree in some order or an error; ignore files are not modelled.
- Validation rules of the API types: the model takes every spec, also those the API server would reject.
- A source type other than image, and a file at the unpack path: the source panics; the model has neither.
- A catalog without image source that reaches the poll check: `NeedsUnpack` returns false where the source panics; `NeverPanics` shows that this is not reached.
- Texts of conditions are enumerated, error texts reduced to what was being done; equality of texts is kept.
- Writes by others to the two known condition types or to other status fields.
- A write to the API server that is still on its way when the process is killed and takes effect later.
- A crash in the middle of a single system call, and the removal of the content directory as many calls: `Delete` is one step that may fail half way.
- The collector running between the unpack and the end of the walk is one step before or after the store step.
- The clock is read once at the start and once at the end of a whole reconcile in `Reconciling.ReconcileOnce`; in the machine it advances between any two steps.
- Hard links are copies of the node; ownership and times of files are not kept.
- The garbage collector's timer: a collection is an event.
- Filtering.FilteredUnpackIsSubtree: layers with an entry that enters or leaves the config directory through a link, or a hard link from it to elsewhere, are excluded; what the first kind does is in `DroppedEntryInside`.
- ImageCache.PullLeavesExactlyOne: assumes that the listing is right and that no I/O error hits a removal; what happens otherwise is in the unpack function and the class, not in the statement.
- I/O errors during removals, and what they leave, are inputs; permissions are modelled, and never stop `deleteRecursive`.
- Isolation.UnpackIsConfined: says which paths the calls of an unpack are for, and `ChangedIsTouched` that these are the places that change; which calls in which order build the tree of `Layers` is not modelled.
- A kill in the middle of one tar entry: an unpack is killed between entries, or while permissions are taken away or directories removed.
- Isolation.InterleavingIsInvisible: an I/O error is part of a reconcile's program (the call is not made), not of the shared state.
