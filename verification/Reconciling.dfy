/**
 One reconcile of one catalog, cut into the steps between which other things can happen. The
 clock, the API server's answers and the outcomes of disk and registry work are parameters.
 */
module Reconciling {
  import opened Prelude
  import opened GoErrors
  import opened Layers
  import opened Api
  import opened Conditions
  import opened StatusUpdates
  import opened ImageCache
  import opened ContentStore
  import Polling

  /** An entry of the storedCatalogs map. */
  datatype StoredCatalog = StoredCatalog(observedGeneration: nat, result: UnpackResult)

  /** What the process and its disk hold for the catalog. */
  datatype Local = Local(stored: Option<StoredCatalog>, content: Option<Content>, cache: Cache)

  predicate HoldsNothing(local: Local) {
    local.stored.None? && local.content.None? && local.cache.None?
  }

  // ---------------------------------------------------------------------------------------
  // What to do.
  // ---------------------------------------------------------------------------------------

  /** Panic stands for the nil dereference in needsPoll. */
  datatype Decision = Purge | AddFinalizer | Skip | MustUnpack | Panic

  /** getCurrentState: the status that would go with the stored entry. */
  function ExpectedStatus(s: Status, local: Local, url: string, now: Time): Status {
    if local.stored.Some? && local.content.Some? then
      var stored := local.stored.value;
      UpdateProgressing(
        UpdateServing(ClearUnknown(s), stored.result, url, stored.observedGeneration, now),
        stored.observedGeneration, None, now)
    else ClearUnknown(s)
  }

  /** The five cases in which the catalog has to be unpacked. */
  function UnpackDecision(cat: Catalog, local: Local, url: string, now: Time): Decision {
    if local.stored.None? then MustUnpack
    else if local.content.None? then MustUnpack
    else if cat.status != ExpectedStatus(cat.status, local, url, now) then MustUnpack
    else if cat.generation != local.stored.value.observedGeneration then MustUnpack
    else if cat.spec.image.None? then Panic
    else if cat.spec.image.value.pollIntervalMinutes.None? then Skip
    else if Polling.NeedsPoll(local.stored.value.result.lastPoll, cat.spec.image.value.pollIntervalMinutes.value, now)
        then MustUnpack
    else Skip
  }

  /** The branches of `reconcile`: availability, then the finalizer helper, then the five cases. */
  function Decide(cat: Catalog, local: Local, url: string, now: Time): Decision {
    if cat.spec.availability == Unavailable then Purge
    else if !cat.deleting && !HasFinalizer(cat) then AddFinalizer
    else if cat.deleting && HasFinalizer(cat) then Purge
    else UnpackDecision(cat, local, url, now)
  }

  // ---------------------------------------------------------------------------------------
  // The steps.
  // ---------------------------------------------------------------------------------------

  /** Where a step leaves things: local state, the working copy, and the error `reconcile` returns, if any. */
  datatype Progress = Progress(local: Local, work: Catalog, err: Option<GoError>)

  const DELETE_ERROR := Plain(DeletingContent)

  /** An error of deleteCatalogCache, as `reconcile` returns it: the finalizer helper wraps it. */
  function PurgeError(cat: Catalog, e: GoError): GoError {
    if cat.spec.availability == Unavailable then e
    else Joined([Wrapped(Finalizing, e)])
  }

  function Fail(local: Local, work: Catalog, reported: GoError, returned: GoError, now: Time): Progress {
    Progress(local, work.(status := UpdateProgressing(work.status, work.generation, Some(reported), now)),
      Some(returned))
  }

  /** Storage.Delete. `failure` is None if it succeeds, and otherwise whether the content is still there. */
  function DeleteContent(local: Local, work: Catalog, failure: Option<bool>, now: Time): Progress {
    match failure
    case Some(stays) =>
      Fail(local.(content := if stays then local.content else None), work, DELETE_ERROR, PurgeError(work, DELETE_ERROR),
        now)
    case None =>
      Progress(local.(content := None), work.(status := UpdateNotServing(work.status, work.generation, now)), None)
  }

  /**
   The rest of deleteCatalogCache, and what follows its success. `left` is what an error leaves of
   the cache.
   */
  function CleanupCache(local: Local, work: Catalog, left: Cache, now: Time): Progress {
    if local.cache.Some? && left.Some? then
      Fail(local.(cache := left), work, CLEANUP_FAILURE, PurgeError(work, CLEANUP_FAILURE), now)
    else
      var status := if work.spec.availability == Unavailable
                    then UpdateUserUnavailable(work.status, work.generation, now) else work.status;
      Progress(local.(cache := None, stored := None),
               work.(status := status, finalizers := Without(work.finalizers, DeleteServerCache)), None)
  }

  /** Unpacker.Unpack and the error exit after it. */
  function UnpackStep(local: Local, work: Catalog, a: Answers, now: Time): Progress {
    UnpackProgress(local, work, UnpackCatalog(local.cache, work.spec.image, a), now)
  }

  function UnpackProgress(local: Local, work: Catalog, u: Unpacked, now: Time): Progress {
    match u.result
    case Err(e) =>
      var wrapped := Wrapped(SourcingContent, e);
      Fail(local.(cache := u.cache), work, wrapped, wrapped, now)
    case Ok(_) => Progress(local.(cache := u.cache), work, None)
  }

  /**
   Storage.Store and the status that goes with it. `walk` is what is read from the unpacked
   directory, or an error.
   */
  function StoreStep(local: Local, work: Catalog, result: UnpackResult, walk: Result<Content, string>, url: string,
      now: Time): Progress {
    match walk
    case Err(text) =>
      var e := Quoted(StoringContent, External(text));
      Fail(local, work, e, e, now)
    case Ok(blobs) =>
      var status := UpdateServing(UpdateProgressing(work.status, work.generation, None, now), result, url,
          work.generation, now);
      Progress(local.(content := Some(blobs)), work.(status := status), None)
  }

  /** The entry in the storedCatalogs map. */
  function RecordStep(local: Local, work: Catalog, result: UnpackResult): Local {
    local.(stored := Some(StoredCatalog(work.generation, result)))
  }

  /** Reconcile forgets the entry when `reconcile` returned an error. */
  function Settle(local: Local, err: Option<GoError>): Local {
    if err.Some? then local.(stored := None) else local
  }

  /** What the walk over an unpacked directory can deliver: the blobs that are in it, in some order. */
  ghost predicate WalkFits(cache: Cache, d: Digest, walk: Result<Content, string>) {
    walk.Ok? ==> d in Dirs(cache) && multiset(walk.value) == TreeBlobs(Dirs(cache)[d].tree)
  }

  // ---------------------------------------------------------------------------------------
  // The writes to the API server.
  // ---------------------------------------------------------------------------------------

  /** An update is applied, refused, or applied without the client learning of it. */
  datatype WriteAnswer = Applied | Refused | LostReply

  function WithStatus(cat: Catalog, s: Status): Catalog { cat.(status := Persist(s)) }

  /** A deleted object disappears with its last finalizer. */
  function WithFinalizers(cat: Catalog, finalizers: seq<Finalizer>): Option<Catalog> {
    if cat.deleting && finalizers == [] then None else Some(cat.(finalizers := finalizers))
  }

  // ---------------------------------------------------------------------------------------
  // A whole reconcile, when nothing comes in between.
  // ---------------------------------------------------------------------------------------

  /** Everything one reconcile learns from outside, and when its first and its last local step happen. */
  datatype Oracle = Oracle(
    startAt: Time, endAt: Time,
    deleteFailure: Option<bool>, cleanupLeft: Cache,
    answers: Answers, walk: Result<Content, string>,
    jitter: int,
    statusWrite: WriteAnswer, finalizerWrite: WriteAnswer)

  /** `reconcile` for a catalog that is unavailable or being deleted. */
  function PurgeBody(cat: Catalog, local: Local, o: Oracle): Progress {
    var deleted := DeleteContent(local, cat, o.deleteFailure, o.startAt);
    if deleted.err.Some? then deleted
    else CleanupCache(deleted.local, deleted.work, o.cleanupLeft, o.endAt)
  }

  /** `reconcile` for a catalog that has to be unpacked. */
  function UnpackBody(cat: Catalog, local: Local, url: string, o: Oracle): Progress {
    var unpacked := UnpackStep(local, cat, o.answers, o.startAt);
    if unpacked.err.Some? then unpacked
    else
      var result := UnpackCatalog(local.cache, cat.spec.image, o.answers).result.value;
      var stored := StoreStep(unpacked.local, cat, result, o.walk, url, o.endAt);
      if stored.err.Some? then stored
      else stored.(local := RecordStep(stored.local, stored.work, result))
  }

  /** `reconcile` */
  function Body(cat: Catalog, local: Local, url: string, o: Oracle): Progress {
    match Decide(cat, local, url, o.startAt)
    case Purge => PurgeBody(cat, local, o)
    case AddFinalizer => Progress(local, cat.(finalizers := cat.finalizers + [DeleteServerCache]), None)
    case Skip => Progress(local, cat, None)
    case Panic => Progress(local, cat, None)
    case MustUnpack => UnpackBody(cat, local, url, o)
  }

  /** The delay `reconcile` asks for: until the next poll, if it left an entry in place or made one. */
  function Delay(cat: Catalog, local: Local, url: string, o: Oracle): int {
    var decision, p := Decide(cat, local, url, o.startAt), Body(cat, local, url, o);
    if p.err.None? && (decision == Skip || decision == MustUnpack) && p.local.stored.Some? && cat.spec.image.Some?
    then Polling.RequeueAfter(p.local.stored.value.result.lastPoll, cat.spec.image.value.pollIntervalMinutes, o.jitter,
      o.endAt)
    else 0
  }

  datatype Round = Round(api: Option<Catalog>, local: Local, delay: int, err: Option<GoError>, wrote: bool)

  /**
   The status write, if there is anything to write: the object after it, whether it was reported
   as done, and whether the copy is still up to date.
   */
  function WriteStatus(cat: Catalog, work: Catalog, answer: WriteAnswer): (Catalog, bool, bool) {
    if work.status == cat.status then (cat, true, true)
    else
      match answer
      case Applied => (WithStatus(cat, work.status), true, true)
      case Refused => (cat, false, true)
      case LostReply => (WithStatus(cat, work.status), false, false)
  }

  /** The finalizer write, if there is anything to write; a copy that is out of date is refused. */
  function WriteFinalizers(cat: Catalog, finalizers: seq<Finalizer>, upToDate: bool,
      answer: WriteAnswer): (Option<Catalog>, bool) {
    if finalizers == cat.finalizers then (Some(cat), true)
    else if !upToDate || answer == Refused then (Some(cat), false)
    else (WithFinalizers(cat, finalizers), answer == Applied)
  }

  /** The errors of the two writes join the error of `reconcile`, as text only. */
  function ReturnedError(err: Option<GoError>, statusOk: bool, finalizersOk: bool): Option<GoError> {
    var one := if statusOk then err
               else Some(Joined((if err.Some? then [err.value] else []) + [Plain(UpdatingStatus)]));
    if finalizersOk then one
    else Some(Joined((if one.Some? then [one.value] else []) + [Plain(UpdatingFinalizers)]))
  }

  /** `Reconcile` */
  function ReconcileOnce(api: Option<Catalog>, local: Local, url: string, o: Oracle): Round {
    match api
    case None => Round(None, local, 0, None, false)
    case Some(cat) =>
      var body := Body(cat, local, url, o);
      var (cat1, statusOk, upToDate) := WriteStatus(cat, body.work, o.statusWrite);
      var (api2, finalizersOk) := WriteFinalizers(cat1, body.work.finalizers, upToDate, o.finalizerWrite);
      Round(api2, Settle(body.local, body.err), Delay(cat, local, url, o),
        ReturnedError(body.err, statusOk, finalizersOk),
            body.work.status != cat.status || body.work.finalizers != cat.finalizers)
  }

  // ---------------------------------------------------------------------------------------
  // Errors.
  // ---------------------------------------------------------------------------------------

  /**
   There is an error exactly if one came up, and joining those of the writes neither adds nor
   hides a terminal one.
   */
  lemma ReturnedErrorIsTerminal(err: Option<GoError>, statusOk: bool, finalizersOk: bool)
    ensures ReturnedError(err, statusOk, finalizersOk).None? <==> err.None? && statusOk && finalizersOk
    ensures var r := ReturnedError(err, statusOk, finalizersOk);
      (r.Some? && IsTerminal(r.value)) <==> (err.Some? && IsTerminal(err.value))
  {
    JoinedIsTerminal(err, UpdatingStatus);
    var one := if statusOk then err
               else Some(Joined((if err.Some? then [err.value] else []) + [Plain(UpdatingStatus)]));
    JoinedIsTerminal(one, UpdatingFinalizers);
  }

  lemma JoinedIsTerminal(err: Option<GoError>, doing: Doing)
    ensures IsTerminal(Joined((if err.Some? then [err.value] else []) + [Plain(doing)])) <==>
        err.Some? && IsTerminal(err.value)
  {
    var errs := (if err.Some? then [err.value] else []) + [Plain(doing)];
    assert !IsTerminal(Plain(doing));
    if err.Some? && IsTerminal(err.value) {
      assert errs[0] == err.value;
    }
  }

  lemma PurgeErrorIsTerminal(cat: Catalog, e: GoError)
    ensures IsTerminal(PurgeError(cat, e)) <==> IsTerminal(e)
  {
    var errs := [Wrapped(Finalizing, e)];
    assert IsTerminal(errs[0]) <==> IsTerminal(e);
  }

  /** The failure is in the working copy's status, with the reason that fits it. */
  ghost predicate FailureShown(p: Progress) {
    p.err.Some? ==> Reports(p.work.status, p.err.value)
  }

  ghost predicate FailsForGood(p: Progress) {
    p.err.Some? && IsTerminal(p.err.value)
  }

  lemma FailIsShown(local: Local, work: Catalog, reported: GoError, returned: GoError, now: Time)
    requires IsTerminal(reported) <==> IsTerminal(returned)
    ensures FailureShown(Fail(local, work, reported, returned, now))
  {
    ProgressingReports(work.status, work.generation, reported, now);
  }

  lemma DeleteReports(local: Local, work: Catalog, failure: Option<bool>, now: Time)
    ensures FailureShown(DeleteContent(local, work, failure, now))
        && !FailsForGood(DeleteContent(local, work, failure, now))
  {
    PurgeErrorIsTerminal(work, DELETE_ERROR);
    if failure.Some? {
      FailIsShown(local.(content := if failure.value then local.content else None), work, DELETE_ERROR,
        PurgeError(work, DELETE_ERROR), now);
    }
  }

  lemma CleanupReports(local: Local, work: Catalog, left: Cache, now: Time)
    ensures FailureShown(CleanupCache(local, work, left, now)) && !FailsForGood(CleanupCache(local, work, left, now))
  {
    assert !IsTerminal(CLEANUP_ERROR) && !IsTerminal(CLEANUP_FAILURE);
    PurgeErrorIsTerminal(work, CLEANUP_FAILURE);
    FailIsShown(local.(cache := left), work, CLEANUP_FAILURE, PurgeError(work, CLEANUP_FAILURE), now);
  }

  lemma UnpackReports(local: Local, work: Catalog, a: Answers, now: Time)
    ensures FailureShown(UnpackStep(local, work, a, now))
    ensures FailsForGood(UnpackStep(local, work, a, now)) <==> TerminalCause(local.cache, work.spec.image, a)
  {
    UnpackTerminalExact(local.cache, work.spec.image, a);
    UnpackProgressReports(local, work, UnpackCatalog(local.cache, work.spec.image, a), now);
  }

  lemma UnpackProgressReports(local: Local, work: Catalog, u: Unpacked, now: Time)
    ensures FailureShown(UnpackProgress(local, work, u, now))
    ensures FailsForGood(UnpackProgress(local, work, u, now)) <==> u.result.Err? && IsTerminal(u.result.error)
  {
    if u.result.Err? {
      var wrapped := Wrapped(SourcingContent, u.result.error);
      assert IsTerminal(wrapped) <==> IsTerminal(u.result.error);
      FailIsShown(local.(cache := u.cache), work, wrapped, wrapped, now);
    }
  }

  lemma StoreReports(local: Local, work: Catalog, result: UnpackResult, walk: Result<Content, string>, url: string,
      now: Time)
    ensures FailureShown(StoreStep(local, work, result, walk, url, now))
        && !FailsForGood(StoreStep(local, work, result, walk, url, now))
  {
    if walk.Err? {
      var e := Quoted(StoringContent, External(walk.error));
      FailIsShown(local, work, e, e, now);
    }
  }

  /**
   Whenever `reconcile` returns an error, the status it leaves says Blocked exactly if the error
   is terminal; and it is terminal exactly if it comes from Unpack for one of the causes that no
   retry can cure.
   */
  lemma BodyReportsErrors(cat: Catalog, local: Local, url: string, o: Oracle)
    ensures FailureShown(Body(cat, local, url, o))
    ensures FailsForGood(Body(cat, local, url, o)) <==>
            Decide(cat, local, url, o.startAt) == MustUnpack && TerminalCause(local.cache, cat.spec.image, o.answers)
  {
    match Decide(cat, local, url, o.startAt) {
      case Purge =>
        DeleteReports(local, cat, o.deleteFailure, o.startAt);
        var deleted := DeleteContent(local, cat, o.deleteFailure, o.startAt);
        CleanupReports(deleted.local, deleted.work, o.cleanupLeft, o.endAt);
      case MustUnpack =>
        UnpackReports(local, cat, o.answers, o.startAt);
        var unpacked := UnpackStep(local, cat, o.answers, o.startAt);
        if unpacked.err.None? {
          var result := UnpackCatalog(local.cache, cat.spec.image, o.answers).result.value;
          StoreReports(unpacked.local, cat, result, o.walk, url, o.endAt);
        }
      case _ =>
    }
  }
}
