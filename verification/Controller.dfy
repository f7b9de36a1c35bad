/**
 The reconciler as it runs: it changes its working copy, its map, the content store and the
 unpack cache in place. Each method is proved against the step functions of `Reconciling`.
 */
module Controller {
  import opened Prelude
  import opened GoErrors
  import opened Paths
  import opened Layers
  import opened Api
  import opened Conditions
  import opened StatusUpdates
  import opened ImageCache
  import opened ContentStore
  import opened Reconciling
  import Polling

  /** The objects in the API server. */
  class ApiServer {
    var objects: map<string, Catalog>

    constructor ()
      ensures objects == map[]
    {
      objects := map[];
    }

    /** Status().Update of an object that was read before; false if the client sees an error. */
    method UpdateStatus(name: string, status: Status, answer: WriteAnswer) returns (ok: bool)
      requires name in objects
      modifies this
      ensures objects == if answer == Refused then old(objects)
          else old(objects)[name := WithStatus(old(objects)[name], status)]
      ensures ok <==> answer == Applied
    {
      if answer != Refused {
        objects := objects[name := WithStatus(objects[name], status)];
      }
      ok := answer == Applied;
    }

    /** Update of the finalizers, from a copy that may be out of date; false if the client sees an error. */
    method UpdateFinalizers(name: string, finalizers: seq<Finalizer>, upToDate: bool, answer: WriteAnswer)
        returns (ok: bool)
      requires name in objects
      modifies this
      ensures !upToDate || answer == Refused ==> objects == old(objects)
      ensures upToDate && answer != Refused ==>
        match WithFinalizers(old(objects)[name], finalizers)
        case None => objects == old(objects) - {name}
        case Some(cat) => objects == old(objects)[name := cat]
      ensures ok <==> upToDate && answer == Applied
    {
      if upToDate && answer != Refused {
        match WithFinalizers(objects[name], finalizers) {
          case None => objects := objects - {name};
          case Some(cat) => objects := objects[name := cat];
        }
      }
      ok := upToDate && answer == Applied;
    }
  }

  /** The copy of a catalog that a reconcile works on. */
  class WorkingCatalog {
    const name: string
    const read: Catalog
    var status: Status
    var finalizers: seq<Finalizer>

    constructor (name: string, read: Catalog)
      ensures this.name == name && this.read == read && Value() == read
    {
      this.name := name;
      this.read := read;
      status := read.status;
      finalizers := read.finalizers;
    }

    function Value(): Catalog
      reads this
    {
      read.(status := status, finalizers := finalizers)
    }

    /** The status says how it went, Blocked or Retrying after an error, and the rest of it stays. */
    method UpdateStatusProgressing(err: Option<GoError>, now: Time)
      modifies this`status
      ensures status == UpdateProgressing(old(status), read.generation, err, now)
      ensures err.None? ==> Shows(status, TypeProgressing, True, ReasonSucceeded, UnpackedMessage, read.generation)
      ensures err.Some? ==>
        Shows(status, TypeProgressing, if IsTerminal(err.value) then False else True,
              if IsTerminal(err.value) then ReasonBlocked else ReasonRetrying, ErrorText(err.value), read.generation)
      ensures forall kind :: kind != TypeProgressing ==>
          Lookup(status.conditions, kind) == Lookup(old(status).conditions, kind)
      ensures Coherent(old(status), read.generation) ==> Coherent(status, read.generation)
    {
      var c := ProgressingCondition(read.generation, err);
      PutShows(status, c, now);
      if err.Some? {
        ProgressingReports(status, read.generation, err.value, now);
      } else {
        SuccessShows(status, read.generation, now);
      }
      ProgressingKeepsCoherent(status, read.generation, err, now);
      status := Put(status, c, now);
    }

    /** The status says what is served and where from, and about other condition types what it said. */
    method UpdateStatusServing(result: UnpackResult, url: string, now: Time)
      modifies this`status
      ensures status == UpdateServing(old(status), result, url, read.generation, now)
      ensures Shows(status, TypeServing, True, ReasonAvailable, ServingMessage, read.generation)
      ensures status.resolved == Some(result.resolved) && status.url == Some(url)
          && status.lastUnpacked == Some(result.unpackTime)
      ensures forall kind :: kind != TypeServing ==>
          Lookup(status.conditions, kind) == Lookup(old(status).conditions, kind)
      ensures Coherent(old(status), read.generation) ==> Coherent(status, read.generation)
    {
      ServingKeepsCoherent(status, read.generation, result, url, now);
      ServingShows(status, result, url, read.generation, now);
      status := status.(resolved := Some(result.resolved));
      status := status.(url := Some(url));
      status := status.(lastUnpacked := Some(result.unpackTime));
      PutShows(status, ServingCondition(read.generation), now);
      status := Put(status, ServingCondition(read.generation), now);
    }

    /** The status says that nothing is served, names no source, and is otherwise as before. */
    method UpdateStatusNotServing(now: Time)
      modifies this`status
      ensures status == UpdateNotServing(old(status), read.generation, now)
      ensures Shows(status, TypeServing, False, ReasonUnavailable, NoMessage, read.generation)
      ensures status.resolved.None? && status.url.None? && status.lastUnpacked.None?
      ensures forall kind :: kind != TypeServing ==>
          Lookup(status.conditions, kind) == Lookup(old(status).conditions, kind)
      ensures Coherent(old(status), read.generation) ==> Coherent(status, read.generation)
    {
      NotServingKeepsCoherent(status, read.generation, now);
      NotServingShows(status, read.generation, now);
      status := status.(resolved := None, url := None, lastUnpacked := None);
      PutShows(status, NotServingCondition(read.generation), now);
      status := Put(status, NotServingCondition(read.generation), now);
    }

    /** Both conditions say that the user wants it so; a status that was not serving stays coherent. */
    method UpdateStatusUserUnavailable(now: Time)
      modifies this`status
      ensures status == UpdateUserUnavailable(old(status), read.generation, now)
      ensures Shows(status, TypeProgressing, True, ReasonSucceeded, UnavailableMessage, read.generation)
      ensures Shows(status, TypeServing, False, ReasonUserSpecifiedUnavailable, UnavailableMessage, read.generation)
      ensures forall kind :: kind != TypeServing && kind != TypeProgressing ==>
        Lookup(status.conditions, kind) == Lookup(old(status).conditions, kind)
      ensures Coherent(old(status), read.generation) && !IsServing(old(status)) ==> Coherent(status, read.generation)
    {
      UnavailableKeepsCoherent(status, read.generation, now);
      UserUnavailableShows(status, read.generation, now);
      PutShows(status, UserUnavailableProgressing(read.generation), now);
      status := Put(status, UserUnavailableProgressing(read.generation), now);
      PutShows(status, UserUnavailableServing(read.generation), now);
      status := Put(status, UserUnavailableServing(read.generation), now);
    }
  }

  /** What one reconcile learns from outside, in the terms of the disk. */
  datatype Inputs = Inputs(
    startAt: Time, endAt: Time,
    kept: Option<set<string>>, // paths that a failing Delete leaves
    cleanupLeft: Cache,
    answers: Answers,
    blobs: seq<Blob>,          // what the walk over the unpacked directory delivers
    storing: StoreAnswer,
    jitter: int,
    statusWrite: WriteAnswer, finalizerWrite: WriteAnswer)

  function WalkOf(files: Files, root: string, name: string, i: Inputs): Result<Content, string> {
    if StoreFiles(files, root, name, i.blobs, i.storing).1 then Ok(i.blobs) else Err("store")
  }

  /** The same, in terms of what becomes of the content. */
  function OracleOf(files: Files, root: string, name: string, i: Inputs): Oracle {
    Oracle(i.startAt, i.endAt,
           if i.kept.None? then None else Some(DataPath(root, name) in i.kept.value),
           i.cleanupLeft, i.answers,
           WalkOf(files, root, name, i),
           i.jitter, i.statusWrite, i.finalizerWrite)
  }

  class Reconciler {
    const storage: LocalDir
    const unpacker: ImageRegistry
    var storedCatalogs: map<string, StoredCatalog>

    constructor (storage: LocalDir, unpacker: ImageRegistry)
      ensures this.storage == storage && this.unpacker == unpacker && storedCatalogs == map[]
    {
      this.storage := storage;
      this.unpacker := unpacker;
      storedCatalogs := map[];
    }

    /** Everything that is held for a catalog. */
    function LocalOf(name: string): Local
      reads this, storage, unpacker
    {
      var stored := if name in storedCatalogs then Some(storedCatalogs[name]) else None;
      Local(stored, storage.ContentOf(name), unpacker.CacheOf(name))
    }

    /** The entry is forgotten, and nothing else that is held for this catalog or for any other. */
    method DeleteStoredCatalog(name: string)
      modifies this
      ensures LocalOf(name) == old(LocalOf(name)).(stored := None)
      ensures forall n :: n != name ==> LocalOf(n) == old(LocalOf(n))
    {
      storedCatalogs := storedCatalogs - {name};
    }

    /** deleteCatalogCache */
    method DeleteCatalogCache(cat: WorkingCatalog, i: Inputs, ghost o: Oracle) returns (err: Option<GoError>)
      requires IsName(cat.name) && o == OracleOf(storage.files, storage.root, cat.name, i)
      modifies this, storage, unpacker, cat`status
      ensures var p := PurgeBody(old(cat.Value()), old(LocalOf(cat.name)), o);
        && LocalOf(cat.name) == p.local
        && (err.Some? <==> p.err.Some?)
        && (err.Some? ==> cat.Value() == p.work && p.err == Some(PurgeError(cat.read, err.value)))
        && (err.None? ==> cat.status == UpdateNotServing(old(cat.status), cat.read.generation, o.startAt))
      ensures forall n :: IsName(n) && n != cat.name ==> LocalOf(n) == old(LocalOf(n))
    {
      var ok := storage.Delete(cat.name, i.kept);
      DeletedContent(old(storage.files), storage.root, cat.name, i.kept);
      if !ok {
        cat.UpdateStatusProgressing(Some(DELETE_ERROR), i.startAt);
        return Some(DELETE_ERROR);
      }
      cat.UpdateStatusNotServing(i.startAt);
      err := CleanupAndForget(cat, i);
    }

    /** Its second half, once the content is gone: the cache, and then the entry. */
    method CleanupAndForget(cat: WorkingCatalog, i: Inputs) returns (err: Option<GoError>)
      modifies this, unpacker, cat`status
      ensures err == if old(LocalOf(cat.name)).cache.Some? && i.cleanupLeft.Some? then Some(CLEANUP_FAILURE) else None
      ensures err.Some? ==>
        && LocalOf(cat.name) == old(LocalOf(cat.name)).(cache := i.cleanupLeft)
        && cat.status == UpdateProgressing(old(cat.status), cat.read.generation, err, i.endAt)
      ensures err.None? ==>
        LocalOf(cat.name) == old(LocalOf(cat.name)).(cache := None, stored := None) && cat.status == old(cat.status)
      ensures forall n :: n != cat.name ==> LocalOf(n) == old(LocalOf(n))
    {
      err := unpacker.Cleanup(cat.name, i.cleanupLeft);
      OtherKeys(old(unpacker.dirs), unpacker.dirs, cat.name);
      if err.Some? {
        cat.UpdateStatusProgressing(err, i.endAt);
        return;
      }
      DeleteStoredCatalog(cat.name);
    }

    /** `reconcile` */
    method ReconcileBody(cat: WorkingCatalog, i: Inputs, ghost o: Oracle) returns (delay: int, err: Option<GoError>)
      requires IsName(cat.name) && NoSlash(i.storing.suffix)
          && TempPath(storage.root, cat.name, i.storing.suffix) !in storage.files
      requires o == OracleOf(storage.files, storage.root, cat.name, i) && cat.Value() == cat.read
      modifies this, storage, unpacker, cat
      ensures var p := Body(cat.read, old(LocalOf(cat.name)), storage.BaseUrl(cat.name), o);
        LocalOf(cat.name) == p.local && cat.Value() == p.work && err == p.err
      ensures delay == Delay(cat.read, old(LocalOf(cat.name)), storage.BaseUrl(cat.name), o)
      ensures forall n :: IsName(n) && n != cat.name ==> LocalOf(n) == old(LocalOf(n))
    {
      delay := 0;
      if cat.read.spec.availability == Unavailable {
        err := Withdraw(cat, i, o);
        return;
      }
      if !cat.read.deleting && DeleteServerCache !in cat.finalizers {
        cat.finalizers := cat.finalizers + [DeleteServerCache];
        return 0, None;
      }
      if cat.read.deleting && DeleteServerCache in cat.finalizers {
        err := Finalize(cat, i, o);
        return;
      }
      delay, err := UnpackIfNeeded(cat, i, o);
    }

    /** The branch for a catalog that is set to unavailable. */
    method Withdraw(cat: WorkingCatalog, i: Inputs, ghost o: Oracle) returns (err: Option<GoError>)
      requires IsName(cat.name) && o == OracleOf(storage.files, storage.root, cat.name, i) && cat.Value() == cat.read
      requires cat.read.spec.availability == Unavailable
      modifies this, storage, unpacker, cat
      ensures var p := PurgeBody(cat.read, old(LocalOf(cat.name)), o);
        LocalOf(cat.name) == p.local && cat.Value() == p.work && err == p.err
      ensures err.None? ==> HoldsNothing(LocalOf(cat.name)) && DeleteServerCache !in cat.finalizers
      ensures forall n :: IsName(n) && n != cat.name ==> LocalOf(n) == old(LocalOf(n))
    {
      err := DeleteCatalogCache(cat, i, o);
      if err.Some? {
        return;
      }
      cat.UpdateStatusUserUnavailable(i.endAt);
      cat.finalizers := Without(cat.finalizers, DeleteServerCache);
    }

    /**
     The finalizer helper on an object that is being deleted: its error comes wrapped, its success
     takes the finalizer away.
     */
    method Finalize(cat: WorkingCatalog, i: Inputs, ghost o: Oracle) returns (err: Option<GoError>)
      requires IsName(cat.name) && o == OracleOf(storage.files, storage.root, cat.name, i) && cat.Value() == cat.read
      requires cat.read.spec.availability == Available && cat.read.deleting
      modifies this, storage, unpacker, cat
      ensures var p := PurgeBody(cat.read, old(LocalOf(cat.name)), o);
        LocalOf(cat.name) == p.local && cat.Value() == p.work && err == p.err
      ensures err.None? ==> HoldsNothing(LocalOf(cat.name)) && DeleteServerCache !in cat.finalizers
      ensures forall n :: IsName(n) && n != cat.name ==> LocalOf(n) == old(LocalOf(n))
    {
      err := DeleteCatalogCache(cat, i, o);
      if err.Some? {
        return Some(Joined([Wrapped(Finalizing, err.value)]));
      }
      cat.finalizers := Without(cat.finalizers, DeleteServerCache);
    }

    /** The rest of `reconcile`, for a catalog whose finalizer is as it should be. */
    method UnpackIfNeeded(cat: WorkingCatalog, i: Inputs, ghost o: Oracle) returns (delay: int, err: Option<GoError>)
      requires IsName(cat.name) && NoSlash(i.storing.suffix)
          && TempPath(storage.root, cat.name, i.storing.suffix) !in storage.files
      requires o == OracleOf(storage.files, storage.root, cat.name, i) && cat.Value() == cat.read
      requires cat.read.spec.availability != Unavailable && (cat.read.deleting <==> !HasFinalizer(cat.read))
      modifies this, storage, unpacker, cat`status
      ensures var p := Body(cat.read, old(LocalOf(cat.name)), storage.BaseUrl(cat.name), o);
        LocalOf(cat.name) == p.local && cat.Value() == p.work && err == p.err
      ensures delay == Delay(cat.read, old(LocalOf(cat.name)), storage.BaseUrl(cat.name), o)
      ensures forall n :: IsName(n) && n != cat.name ==> LocalOf(n) == old(LocalOf(n))
    {
      var needed := NeedsUnpack(cat, i.startAt);
      delay, err := 0, None;
      if needed {
        err := UnpackAndStore(cat, i, o);
      }
      if err.None? && cat.read.spec.image.Some? {
        delay := NextPollResult(storedCatalogs[cat.name].result.lastPoll, cat.read.spec.image.value.pollIntervalMinutes,
          i);
      }
    }

    /**
     nextPollResult: no delay without an interval; otherwise one that is positive exactly before the
     jittered deadline, ends at it, and is at most 101 percent of the interval.
     */
    method NextPollResult(lastPoll: Time, interval: Option<int>, i: Inputs) returns (delay: int)
      ensures delay == Polling.RequeueAfter(lastPoll, interval, i.jitter, i.endAt)
      ensures interval.None? ==> delay == 0
      ensures interval.Some? && Polling.IsSafe(interval.value, i.jitter) && lastPoll <= i.endAt ==>
        && (delay > 0 <==> i.endAt < lastPoll + interval.value * Polling.MINUTE + i.jitter)
        && (delay > 0 ==> i.endAt + delay == lastPoll + interval.value * Polling.MINUTE + i.jitter)
        && 100 * delay <= 101 * interval.value * Polling.MINUTE
    {
      if interval.Some? && Polling.IsSafe(interval.value, i.jitter) {
        Polling.NoOverflow(interval.value, i.jitter);
      }
      delay := 0;
      if interval.Some? {
        var jittered := Polling.Wrap(Polling.PollDuration(interval.value) + i.jitter);
        delay := Polling.Saturate(lastPoll + jittered - i.endAt);
      }
    }

    /** The five cases, in order. A catalog without an image source stops the poll check. */
    method NeedsUnpack(cat: WorkingCatalog, now: Time) returns (needed: bool)
      ensures needed <==> UnpackDecision(cat.Value(), LocalOf(cat.name), storage.BaseUrl(cat.name), now) == MustUnpack
    {
      var has := cat.name in storedCatalogs;
      if !has || !storage.ContentExists(cat.name) {
        return true;
      }
      var stored := storedCatalogs[cat.name];
      var expected := UpdateServing(ClearUnknown(cat.status), stored.result, storage.BaseUrl(cat.name),
          stored.observedGeneration, now);
      expected := UpdateProgressing(expected, stored.observedGeneration, None, now);
      if cat.status != expected || cat.read.generation != stored.observedGeneration {
        return true;
      }
      if cat.read.spec.image.None? || cat.read.spec.image.value.pollIntervalMinutes.None? {
        return false;
      }
      needed := Polling.NeedsPoll(stored.result.lastPoll, cat.read.spec.image.value.pollIntervalMinutes.value, now);
    }

    method UnpackAndStore(cat: WorkingCatalog, i: Inputs, ghost o: Oracle) returns (err: Option<GoError>)
      requires IsName(cat.name) && NoSlash(i.storing.suffix)
          && TempPath(storage.root, cat.name, i.storing.suffix) !in storage.files
      requires o == OracleOf(storage.files, storage.root, cat.name, i)
      modifies this, storage, unpacker, cat`status
      ensures var p := UnpackBody(old(cat.Value()), old(LocalOf(cat.name)), storage.BaseUrl(cat.name), o);
        LocalOf(cat.name) == p.local && cat.Value() == p.work && err == p.err
      ensures forall n :: IsName(n) && n != cat.name ==> LocalOf(n) == old(LocalOf(n))
    {
      var result := unpacker.Unpack(cat.name, cat.read.spec.image, i.answers);
      OtherKeys(old(unpacker.dirs), unpacker.dirs, cat.name);
      if result.Err? {
        var e := Wrapped(SourcingContent, result.error);
        cat.UpdateStatusProgressing(Some(e), i.startAt);
        return Some(e);
      }
      err := StoreUnpacked(cat, result.value, i);
    }

    /** From the unpacked directory on. */
    method StoreUnpacked(cat: WorkingCatalog, result: UnpackResult, i: Inputs) returns (err: Option<GoError>)
      requires IsName(cat.name) && NoSlash(i.storing.suffix)
      requires TempPath(storage.root, cat.name, i.storing.suffix) !in storage.files
      modifies this, storage, cat`status
      ensures var walk := WalkOf(old(storage.files), storage.root, cat.name, i);
        var p := StoreStep(old(LocalOf(cat.name)), old(cat.Value()), result, walk, storage.BaseUrl(cat.name), i.endAt);
        && err == p.err && cat.Value() == p.work
        && LocalOf(cat.name) == if err.None? then RecordStep(p.local, p.work, result) else p.local
      ensures forall n :: IsName(n) && n != cat.name ==> LocalOf(n) == old(LocalOf(n))
    {
      var ok := storage.Store(cat.name, i.blobs, i.storing);
      if !ok {
        var e := Quoted(StoringContent, External("store"));
        cat.UpdateStatusProgressing(Some(e), i.endAt);
        return Some(e);
      }
      NoteSuccess(cat, result, i.endAt);
      err := None;
    }

    /** Status and entry after a successful unpack and store. */
    method NoteSuccess(cat: WorkingCatalog, result: UnpackResult, now: Time)
      modifies this, cat`status
      ensures LocalOf(cat.name) == old(LocalOf(cat.name)).(stored := Some(StoredCatalog(cat.read.generation, result)))
      ensures cat.status ==
        UpdateServing(UpdateProgressing(old(cat.status), cat.read.generation, None, now), result,
          storage.BaseUrl(cat.name),
                      cat.read.generation, now)
      ensures Matches(cat.status, result, storage.BaseUrl(cat.name), cat.read.generation)
      ensures forall n :: n != cat.name ==> LocalOf(n) == old(LocalOf(n))
    {
      UnpackMakesMatch(cat.status, result, storage.BaseUrl(cat.name), cat.read.generation, now);
      cat.UpdateStatusProgressing(None, now);
      cat.UpdateStatusServing(result, storage.BaseUrl(cat.name), now);
      storedCatalogs := storedCatalogs[cat.name := StoredCatalog(cat.read.generation, result)];
    }

    /** `Reconcile`: read, reconcile, forget the entry after an error, write status and finalizers. */
    method Reconcile(name: string, api: ApiServer, i: Inputs) returns (delay: int, err: Option<GoError>)
      requires IsName(name) && NoSlash(i.storing.suffix)
          && TempPath(storage.root, name, i.storing.suffix) !in storage.files
      modifies this, storage, unpacker, api
      ensures var r := ReconcileOnce(if name in old(api.objects) then Some(old(api.objects)[name]) else None,
                                     old(LocalOf(name)), storage.BaseUrl(name),
                                       OracleOf(old(storage.files), storage.root, name, i));
        && LocalOf(name) == r.local && delay == r.delay && err == r.err
        && r.api == (if name in api.objects then Some(api.objects[name]) else None)
      ensures api.objects - {name} == old(api.objects) - {name}
      ensures forall n :: IsName(n) && n != name ==> LocalOf(n) == old(LocalOf(n))
    {
      if name !in api.objects {
        return 0, None;
      }
      var existing := api.objects[name];
      var cat := new WorkingCatalog(name, existing);
      delay, err := ReconcileBody(cat, i, OracleOf(storage.files, storage.root, name, i));
      if err.Some? {
        DeleteStoredCatalog(name);
      }
      var statusOk, finalizersOk := WriteBack(cat, api, i);
      err := ReturnedError(err, statusOk, finalizersOk);
    }

    /** The two writes, each only if there is something to write. */
    method WriteBack(cat: WorkingCatalog, api: ApiServer, i: Inputs) returns (statusOk: bool, finalizersOk: bool)
      requires cat.name in api.objects && api.objects[cat.name] == cat.read
      modifies api
      ensures var (cat1, ok1, upToDate) := WriteStatus(cat.read, cat.Value(), i.statusWrite);
        var (api2, ok2) := WriteFinalizers(cat1, cat.finalizers, upToDate, i.finalizerWrite);
        && statusOk == ok1 && finalizersOk == ok2
        && api2 == (if cat.name in api.objects then Some(api.objects[cat.name]) else None)
      ensures api.objects - {cat.name} == old(api.objects) - {cat.name}
    {
      statusOk, finalizersOk := true, true;
      var upToDate := true;
      if cat.status != cat.read.status {
        statusOk := api.UpdateStatus(cat.name, cat.status, i.statusWrite);
        upToDate := i.statusWrite != LostReply;
      }
      if cat.finalizers != cat.read.finalizers {
        finalizersOk := api.UpdateFinalizers(cat.name, cat.finalizers, upToDate, i.finalizerWrite);
      }
    }
  }

  /** A failing Delete keeps the content exactly if it keeps its file. */
  lemma DeletedContent(files: Files, root: string, name: string, kept: Option<set<string>>)
    ensures Served(DeleteFiles(files, root, name, kept).0, root, name) ==
      if kept.Some? && DataPath(root, name) in kept.value then Served(files, root, name) else None
  {
    DataPathInside(root, name);
  }
}
