/** Over all runs: the stored entry, the served content, the cache and the status fit together. */
module Consistency {
  import opened Prelude
  import opened GoErrors
  import opened Layers
  import opened Api
  import opened Conditions
  import opened StatusUpdates
  import opened ImageCache
  import opened ContentStore
  import opened Reconciling
  import opened Machine
  import opened Ownership

  // ---------------------------------------------------------------------------------------
  // Entry and content.
  // ---------------------------------------------------------------------------------------

  /** Between reconciles, and inside one wherever no work on the local state is pending. */
  ghost predicate AtBoundary(p: Phase) {
    p.Idle? || p.Deciding? || p.WritingStatus? || p.WritingFinalizers? || (p.Returned? && p.err.None?)
  }

  /** An event that is no step of `reconcile`. */
  ghost predicate IsQuiet(e: Event) { IsUserEvent(e) || IsEnvironment(e) || IsWrite(e) }

  /** The content consists of the blobs of the tree the entry's unpack returned. */
  ghost predicate WrittenFrom(content: Option<Content>, result: UnpackResult, swept: bool) {
    content.Some? && (!swept ==> multiset(content.value) == TreeBlobs(result.fs))
  }

  ghost predicate EntryFits(w: World) {
    && (AtBoundary(w.phase) && w.local.stored.Some? ==>
        WrittenFrom(w.local.content, w.local.stored.value.result, w.swept))
    && (w.phase.Recording? ==> WrittenFrom(w.local.content, w.phase.result, w.swept))
    && (w.phase.Storing? && !w.swept && w.phase.result.digest in Dirs(w.local.cache) ==>
          Dirs(w.local.cache)[w.phase.result.digest].tree == w.phase.result.fs)
  }

  lemma UnpackEntryFits(w: World, u: Unpacked, torn: bool)
    requires w.phase.Deciding?
    requires u.result.Ok? && u.result.value.digest in Dirs(u.cache) ==>
        Dirs(u.cache)[u.result.value.digest].tree == u.result.value.fs
    ensures EntryFits(AfterUnpack(w, u, torn))
  {
  }

  lemma StoreEntryFits(w: World, walk: Result<Content, string>)
    requires EntryFits(w) && w.phase.Storing? && WalkFits(w.local.cache, w.phase.result.digest, walk)
    ensures EntryFits(AfterStore(w, walk))
  {
  }

  lemma StepEntryFits(w: World, e: Event)
    requires EntryFits(w) && Fits(w, e) && !IsQuiet(e) && !e.UnpackImageStep? && !e.StoreContentStep?
    ensures EntryFits(ControllerStep(w, e))
  {
  }

  /** `w'` differs from `w` in the history, and in the phase only from one write to the next. */
  ghost predicate OnlyApiChanged(w: World, w': World) {
    && w' == w.(versions := w'.versions, phase := w'.phase) && w.versions <= w'.versions
    && (w'.phase == w.phase || ((w.phase.WritingStatus? || w.phase.WritingFinalizers?) && AtBoundary(w'.phase)
                                && !w'.phase.Storing? && !w'.phase.Recording?))
  }

  lemma ApiEventsChangeApi(w: World, e: Event)
    requires Fits(w, e) && (IsUserEvent(e) || IsWrite(e))
    ensures OnlyApiChanged(w, Next(w, e))
  {
  }

  lemma ApiEntryFits(w: World, w': World)
    requires EntryFits(w) && OnlyApiChanged(w, w')
    ensures EntryFits(w')
  {
  }

  lemma EnvironmentEntryFits(w: World, e: Event)
    requires EntryFits(w) && Fits(w, e) && IsEnvironment(e)
    ensures EntryFits(EnvironmentStep(w, e))
  {
  }

  lemma NextEntryFits(w: World, e: Event)
    requires EntryFits(w) && Enabled(w, e)
    ensures EntryFits(Next(w, e))
  {
    if e.UnpackImageStep? {
      var image := w.phase.read.spec.image;
      if UnpackCatalog(w.local.cache, image, e.answers).result.Ok? {
        UnpackResultIsThere(w.local.cache, image, e.answers);
      }
      UnpackEntryFits(w, UnpackCatalog(w.local.cache, image, e.answers), TornBy(w, e.answers));
    } else if IsEnvironment(e) {
      EnvironmentEntryFits(w, e);
    } else if IsQuiet(e) {
      ApiEventsChangeApi(w, e);
      ApiEntryFits(w, Next(w, e));
    } else if e.StoreContentStep? {
      StoreEntryFits(w, e.walk);
    } else {
      StepEntryFits(w, e);
    }
  }

  // ---------------------------------------------------------------------------------------
  // Entry and spec.
  // ---------------------------------------------------------------------------------------

  /** The canonical reference is one the spec's reference can resolve to. */
  predicate ResolvesTo(ref: ImageRef, resolved: CanonicalRef) {
    && ref.Named? && resolved.name == ref.name
    && (if ref.digest.Some? then resolved.digest == ref.digest.value && resolved.tag == ref.tag
        else ref.tag.Some? && resolved.tag.None?)
  }

  /** `result` is an unpack of version `v`. */
  ghost predicate IsUnpackOf(v: Option<Catalog>, generation: nat, result: UnpackResult) {
    && v.Some? && v.value.generation == generation && v.value.spec.image.Some?
    && ResolvesTo(v.value.spec.image.value.ref, result.resolved)
    && result.digest == result.resolved.digest
    && Truncate(result.unpackTime) == result.unpackTime
  }

  /** The entry was made from version `origin`. */
  ghost predicate EntryHasOrigin(w: World) {
    && (AtBoundary(w.phase) && w.local.stored.Some? ==>
          && w.origin < |w.versions|
          && IsUnpackOf(w.versions[w.origin], w.local.stored.value.observedGeneration, w.local.stored.value.result))
    && (w.phase.Storing? || w.phase.Recording? ==>
          w.origin == w.seen && IsUnpackOf(Some(w.phase.read), w.phase.read.generation, w.phase.result))
  }

  lemma UnpackHasOrigin(w: World, u: Unpacked, torn: bool)
    requires PhaseFits(w) && w.phase.Deciding?
    requires u.result.Ok? ==> IsUnpackOf(Some(w.phase.read), w.phase.read.generation, u.result.value)
    ensures EntryHasOrigin(AfterUnpack(w, u, torn))
  {
  }

  lemma UnpackIsOf(cat: Catalog, cache: Cache, a: Answers)
    requires UnpackCatalog(cache, cat.spec.image, a).result.Ok?
    ensures IsUnpackOf(Some(cat), cat.generation, UnpackCatalog(cache, cat.spec.image, a).result.value)
  {
    UnpackResolves(cache, cat.spec.image, a);
  }

  lemma StepHasOrigin(w: World, e: Event)
    requires WellFormed(w) && EntryHasOrigin(w) && Fits(w, e)
    requires !IsQuiet(e) && !e.UnpackImageStep?
    ensures EntryHasOrigin(ControllerStep(w, e))
  {
  }

  lemma ApiHasOrigin(w: World, w': World)
    requires PhaseFits(w) && EntryHasOrigin(w) && OnlyApiChanged(w, w')
    ensures EntryHasOrigin(w')
  {
  }

  lemma EnvironmentHasOrigin(w: World, e: Event)
    requires PhaseFits(w) && EntryHasOrigin(w) && Fits(w, e) && IsEnvironment(e)
    ensures EntryHasOrigin(EnvironmentStep(w, e))
  {
  }

  lemma NextHasOrigin(w: World, e: Event)
    requires WellFormed(w) && EntryHasOrigin(w) && Enabled(w, e)
    ensures EntryHasOrigin(Next(w, e))
  {
    if e.UnpackImageStep? {
      var image := w.phase.read.spec.image;
      if UnpackCatalog(w.local.cache, image, e.answers).result.Ok? {
        UnpackIsOf(w.phase.read, w.local.cache, e.answers);
      }
      UnpackHasOrigin(w, UnpackCatalog(w.local.cache, image, e.answers), TornBy(w, e.answers));
    } else if IsEnvironment(e) {
      EnvironmentHasOrigin(w, e);
    } else if IsQuiet(e) {
      ApiEventsChangeApi(w, e);
      ApiHasOrigin(w, Next(w, e));
    } else {
      StepHasOrigin(w, e);
    }
  }

  // ---------------------------------------------------------------------------------------
  // The cache.
  // ---------------------------------------------------------------------------------------

  /**
   Unless something was torn, every directory in the cache is complete, there is at most one, and
   so is what the entry was made from.
   */
  ghost predicate CacheFits(w: World) {
    && (w.swept ==> w.torn)
    && (!w.torn ==>
          && Complete(w.local.cache) && AtMostOne(w.local.cache)
          && (AtBoundary(w.phase) && w.local.stored.Some? ==>
                Built(w.local.stored.value.result.digest) == Some(w.local.stored.value.result.fs))
          && (w.phase.Storing? || w.phase.Recording? ==> Built(w.phase.result.digest) == Some(w.phase.result.fs)))
  }

  lemma UnpackCacheFits(w: World, u: Unpacked, torn: bool)
    requires w.phase.Deciding?
    requires !torn ==>
      && Complete(u.cache) && AtMostOne(u.cache)
      && (u.result.Ok? ==> Built(u.result.value.digest) == Some(u.result.value.fs))
    ensures CacheFits(AfterUnpack(w, u, torn))
  {
  }

  /** These steps leave the cache alone. */
  lemma StepCacheFits(w: World, e: Event)
    requires CacheFits(w) && Fits(w, e)
    requires !IsQuiet(e) && !e.UnpackImageStep? && !e.CleanupCacheStep?
    ensures CacheFits(ControllerStep(w, e))
  {
    assert ControllerStep(w, e).local.cache == w.local.cache && ControllerStep(w, e).torn == w.torn;
  }

  lemma CleanupCacheFits(w: World, left: Cache)
    requires CacheFits(w) && w.phase.Purging?
    ensures CacheFits(AfterCleanup(w, left))
  {
  }

  lemma ApiCacheFits(w: World, w': World)
    requires CacheFits(w) && OnlyApiChanged(w, w')
    ensures CacheFits(w')
  {
  }

  lemma EnvironmentCacheFits(w: World, e: Event)
    requires CacheFits(w) && Fits(w, e) && IsEnvironment(e)
    ensures CacheFits(EnvironmentStep(w, e))
  {
  }

  lemma NextCacheFits(w: World, e: Event)
    requires CacheFits(w) && Enabled(w, e)
    ensures CacheFits(Next(w, e))
  {
    if e.UnpackImageStep? {
      var image := w.phase.read.spec.image;
      if Renews(w.local.cache, image, e.answers) {
        RenewalCompletes(w.local.cache, image, e.answers);
      } else if !TornBy(w, e.answers) {
        UnpackKeepsCacheComplete(w.local.cache, image, e.answers);
      }
      UnpackCacheFits(w, UnpackCatalog(w.local.cache, image, e.answers), TornBy(w, e.answers));
    } else if IsEnvironment(e) {
      EnvironmentCacheFits(w, e);
    } else if IsQuiet(e) {
      ApiEventsChangeApi(w, e);
      ApiCacheFits(w, Next(w, e));
    } else if e.CleanupCacheStep? {
      CleanupCacheFits(w, e.left);
    } else {
      StepCacheFits(w, e);
    }
  }

  // ---------------------------------------------------------------------------------------
  // The status.
  // ---------------------------------------------------------------------------------------

  ghost predicate AllCoherent(vs: seq<Option<Catalog>>) {
    forall i :: 0 <= i < |vs| && vs[i].Some? ==> Coherent(vs[i].value.status, vs[i].value.generation)
  }

  /** Every status, stored or in the making, makes sense, and an error that `reconcile` returned is in it. */
  ghost predicate StatusFits(w: World) {
    && AllCoherent(w.versions)
    && (HasWork(w.phase) ==> Coherent(w.phase.work.status, w.phase.work.generation))
    && (w.phase.Purging? ==> !IsServing(w.phase.work.status))
    && ((w.phase.Returned? || w.phase.WritingStatus? || w.phase.WritingFinalizers?) && w.phase.err.Some? ==>
          Reports(w.phase.work.status, w.phase.err.value))
  }

  /** A coherent status stays coherent as generations go on. */
  lemma CoherentLater(s: Status, generation: nat, later: nat)
    requires Coherent(s, generation) && generation <= later
    ensures Coherent(s, later)
  {
  }

  lemma UserStatusFits(w: World, e: Event)
    requires StatusFits(w) && Enabled(w, e) && IsUserEvent(e)
    ensures UserVersion(w, e).Some? ==> Coherent(UserVersion(w, e).value.status, UserVersion(w, e).value.generation)
  {
    if e.Create? {
      assert UserVersion(w, e).value.status == EMPTY_STATUS;
    } else {
      var cat := Current(w).value;
      assert Coherent(cat.status, cat.generation);
      if e.SetForeignCondition? {
        PutKeepsRest(cat.status, e.condition, w.now, cat.generation);
        PersistKeepsCoherent(Put(cat.status, e.condition, w.now), cat.generation);
      } else {
        CoherentLater(cat.status, cat.generation, cat.generation + 1);
      }
    }
  }

  lemma AppendCoherent(vs: seq<Option<Catalog>>, v: Option<Catalog>)
    requires AllCoherent(vs) && (v.Some? ==> Coherent(v.value.status, v.value.generation))
    ensures AllCoherent(vs + [v])
  {
  }

  /** What a write stores is coherent. */
  lemma WrittenIsCoherent(w: World, e: Event)
    requires PhaseFits(w) && StatusFits(w) && Fits(w, e) && IsWrite(e) && Written(w, e).Some?
    ensures var v := Written(w, e).value; v.Some? ==> Coherent(v.value.status, v.value.generation)
  {
    PersistKeepsCoherent(w.phase.work.status, w.phase.work.generation);
  }

  lemma WriteStatusFits(w: World, e: Event)
    requires PhaseFits(w) && StatusFits(w) && Fits(w, e) && IsWrite(e)
    ensures StatusFits(WriteStep(w, e))
  {
    if Written(w, e).Some? {
      WrittenIsCoherent(w, e);
      AppendCoherent(w.versions, Written(w, e).value);
    }
  }

  lemma DeleteStatusFits(local: Local, work: Catalog, failure: Option<bool>, now: Time)
    requires Coherent(work.status, work.generation)
    ensures var p := DeleteContent(local, work, failure, now);
      Coherent(p.work.status, p.work.generation) && FailureShown(p) && (p.err.None? ==> !IsServing(p.work.status))
  {
    SomeUpdatesKeepCoherent(work, Some(DELETE_ERROR), now);
    DeleteReports(local, work, failure, now);
  }

  lemma SomeUpdatesKeepCoherent(work: Catalog, err: Option<GoError>, now: Time)
    requires Coherent(work.status, work.generation)
    ensures Coherent(UpdateProgressing(work.status, work.generation, err, now), work.generation)
    ensures var s := UpdateNotServing(work.status, work.generation, now); Coherent(s, work.generation) && !IsServing(s)
    ensures !IsServing(work.status) ==>
        Coherent(UpdateUserUnavailable(work.status, work.generation, now), work.generation)
  {
    var d := Digest(Image(None, []));
    UpdatesKeepCoherent(work.status, work.generation, err, UnpackResult(d, map[], CanonicalRef("", None, d), 0, 0), "",
      now);
  }

  lemma CleanupStatusFits(local: Local, work: Catalog, left: Cache, now: Time)
    requires Coherent(work.status, work.generation) && !IsServing(work.status)
    ensures var p := CleanupCache(local, work, left, now); Coherent(p.work.status, p.work.generation) && FailureShown(p)
  {
    SomeUpdatesKeepCoherent(work, Some(CLEANUP_FAILURE), now);
    CleanupReports(local, work, left, now);
  }

  lemma UnpackStatusFits(local: Local, work: Catalog, u: Unpacked, now: Time)
    requires Coherent(work.status, work.generation)
    ensures var p := UnpackProgress(local, work, u, now); Coherent(p.work.status, p.work.generation) && FailureShown(p)
  {
    if u.result.Err? {
      SomeUpdatesKeepCoherent(work, Some(Wrapped(SourcingContent, u.result.error)), now);
    }
    UnpackProgressReports(local, work, u, now);
  }

  lemma StoreStatusFits(local: Local, work: Catalog, result: UnpackResult, walk: Result<Content, string>, url: string,
      now: Time)
    requires Coherent(work.status, work.generation)
    ensures var p := StoreStep(local, work, result, walk, url, now);
        Coherent(p.work.status, p.work.generation) && FailureShown(p)
  {
    var err := if walk.Err? then Some(Quoted(StoringContent, External(walk.error))) else None;
    SomeUpdatesKeepCoherent(work, err, now);
    UpdatesKeepCoherent(UpdateProgressing(work.status, work.generation, None, now), work.generation, None, result, url,
      now)
      by { SomeUpdatesKeepCoherent(work, None, now); }
    StoreReports(local, work, result, walk, url, now);
  }

  lemma AfterDeleteStatusFits(w: World, failure: Option<bool>)
    requires PhaseFits(w) && StatusFits(w) && w.phase.Deciding?
    ensures StatusFits(AfterDelete(w, failure))
  {
    assert Coherent(w.phase.read.status, w.phase.read.generation);
    DeleteStatusFits(w.local, w.phase.read, failure, w.now);
  }

  lemma AfterCleanupStatusFits(w: World, left: Cache)
    requires PhaseFits(w) && StatusFits(w) && w.phase.Purging?
    ensures StatusFits(AfterCleanup(w, left))
  {
    CleanupStatusFits(w.local, w.phase.work, left, w.now);
  }

  lemma AfterUnpackStatusFits(w: World, u: Unpacked, torn: bool)
    requires PhaseFits(w) && StatusFits(w) && w.phase.Deciding?
    ensures StatusFits(AfterUnpack(w, u, torn))
  {
    assert Coherent(w.phase.read.status, w.phase.read.generation);
    UnpackStatusFits(w.local, w.phase.read, u, w.now);
  }

  lemma AfterStoreStatusFits(w: World, walk: Result<Content, string>)
    requires PhaseFits(w) && StatusFits(w) && w.phase.Storing?
    ensures StatusFits(AfterStore(w, walk))
  {
    assert Coherent(w.phase.read.status, w.phase.read.generation);
    StoreStatusFits(w.local, w.phase.read, w.phase.result, walk, w.url, w.now);
  }

  lemma StepStatusFits(w: World, e: Event)
    requires PhaseFits(w) && StatusFits(w) && Fits(w, e)
    requires e.Get? || e.Finish? || e.RecordEntry? || e.SettleEntry?
    ensures StatusFits(ControllerStep(w, e))
  {
  }

  lemma ControllerStatusFits(w: World, e: Event)
    requires PhaseFits(w) && StatusFits(w) && Enabled(w, e) && !IsQuiet(e)
    ensures StatusFits(ControllerStep(w, e))
  {
    match e {
      case DeleteContentStep(failure) => AfterDeleteStatusFits(w, failure);
      case CleanupCacheStep(left) => AfterCleanupStatusFits(w, left);
      case UnpackImageStep(a) =>
        AfterUnpackStatusFits(w, UnpackCatalog(w.local.cache, w.phase.read.spec.image, a), TornBy(w, a));
      case StoreContentStep(walk) => AfterStoreStatusFits(w, walk);
      case _ => StepStatusFits(w, e);
    }
  }

  lemma NextStatusFits(w: World, e: Event)
    requires PhaseFits(w) && StatusFits(w) && Enabled(w, e)
    ensures StatusFits(Next(w, e))
  {
    if IsUserEvent(e) {
      UserStatusFits(w, e);
      AppendCoherent(w.versions, UserVersion(w, e));
    } else if IsWrite(e) {
      WriteStatusFits(w, e);
    } else if !IsEnvironment(e) {
      ControllerStatusFits(w, e);
    }
  }

  // ---------------------------------------------------------------------------------------
  // The status and the object.
  // ---------------------------------------------------------------------------------------

  /** The versions of an object are consecutive, from the one that made it. */
  ghost predicate Consecutive(vs: seq<Option<Catalog>>) {
    forall i, j :: 0 <= j <= i < |vs| && vs[i].Some? && vs[i].value.uid <= j ==>
      vs[j].Some? && vs[j].value.uid == vs[i].value.uid
  }

  /** An object whose status says that it is served was there when the last unpack began. */
  ghost predicate ServedSince(c: Catalog, origin: nat) { IsServing(c.status) ==> c.uid <= origin }

  ghost predicate AllServedSince(vs: seq<Option<Catalog>>, origin: nat) {
    forall i :: 0 <= i < |vs| && vs[i].Some? ==> ServedSince(vs[i].value, origin)
  }

  /**
   No status, stored or in the making, claims more than the unpack that touched the disk last can
   account for.
   */
  ghost predicate Traced(w: World) {
    && Consecutive(w.versions) && w.origin <= w.seen && AllServedSince(w.versions, w.origin)
    && (HasWork(w.phase) ==> ServedSince(w.phase.work, w.origin))
  }

  lemma AppendConsecutive(vs: seq<Option<Catalog>>, v: Option<Catalog>)
    requires vs != [] && Consecutive(vs) && Follows(vs, v)
    ensures Consecutive(vs + [v])
  {
  }

  lemma UserVersionTraced(w: World, e: Event)
    requires PhaseFits(w) && Traced(w) && Enabled(w, e) && IsUserEvent(e)
    ensures UserVersion(w, e).Some? ==> ServedSince(UserVersion(w, e).value, w.origin)
  {
    if e.SetForeignCondition? {
      var s := Current(w).value.status;
      PutServing(s, e.condition, w.now);
      PersistServing(Put(s, e.condition, w.now));
    }
  }

  lemma WrittenTraced(w: World, e: Event)
    requires PhaseFits(w) && Traced(w) && Fits(w, e) && IsWrite(e) && Written(w, e).Some?
    ensures var v := Written(w, e).value; v.Some? ==> ServedSince(v.value, w.origin)
  {
    PersistServing(w.phase.work.status);
  }

  lemma AppendServedSince(vs: seq<Option<Catalog>>, v: Option<Catalog>, origin: nat)
    requires AllServedSince(vs, origin) && (v.Some? ==> ServedSince(v.value, origin))
    ensures AllServedSince(vs + [v], origin)
  {
  }

  lemma UserTraced(w: World, e: Event)
    requires WellFormed(w) && Traced(w) && Enabled(w, e) && IsUserEvent(e)
    ensures Traced(Machine.Append(w, UserVersion(w, e)))
  {
    UserVersionTraced(w, e);
    UserFollows(w, e);
    AppendConsecutive(w.versions, UserVersion(w, e));
    AppendServedSince(w.versions, UserVersion(w, e), w.origin);
  }

  lemma WriteTraced(w: World, e: Event)
    requires WellFormed(w) && Traced(w) && Fits(w, e) && IsWrite(e)
    ensures Traced(WriteStep(w, e))
  {
    if Written(w, e).Some? {
      WrittenTraced(w, e);
      WriteFollows(w, e);
      AppendConsecutive(w.versions, Written(w, e).value);
      AppendServedSince(w.versions, Written(w, e).value, w.origin);
    }
  }

  lemma EnvironmentTraced(w: World, e: Event)
    requires PhaseFits(w) && Traced(w) && Fits(w, e) && IsEnvironment(e)
    ensures Traced(EnvironmentStep(w, e))
  {
  }

  /** What the version that was read says of its object. */
  lemma ReadServedSince(w: World)
    requires WellFormed(w) && Traced(w) && !w.phase.Idle?
    ensures ServedSince(w.phase.read, w.origin) && w.phase.read.uid <= w.seen
  {
    assert w.versions[w.seen].Some? && w.versions[w.seen].value == w.phase.read;
  }

  lemma FailServedSince(local: Local, work: Catalog, reported: GoError, returned: GoError, now: Time, origin: nat)
    requires ServedSince(work, origin)
    ensures ServedSince(Fail(local, work, reported, returned, now).work, origin)
  {
    PutServing(work.status, ProgressingCondition(work.generation, Some(reported)), now);
  }

  lemma DeleteTraced(w: World, failure: Option<bool>)
    requires WellFormed(w) && Traced(w) && w.phase.Deciding?
    ensures Traced(AfterDelete(w, failure))
  {
    ReadServedSince(w);
    var read := w.phase.read;
    FailServedSince(w.local.(content := if failure == Some(true) then w.local.content else None), read,
                    DELETE_ERROR, PurgeError(read, DELETE_ERROR), w.now, w.origin);
    NotServingKeepsCoherent(read.status, read.generation, w.now);
  }

  lemma CleanupTraced(w: World, left: Cache)
    requires WellFormed(w) && Traced(w) && w.phase.Purging?
    ensures Traced(AfterCleanup(w, left))
  {
    var work := w.phase.work;
    FailServedSince(w.local.(cache := left), work, CLEANUP_FAILURE, PurgeError(work, CLEANUP_FAILURE), w.now, w.origin);
    UnavailableKeepsCoherent(work.status, work.generation, w.now);
  }

  lemma UnpackTraced(w: World, u: Unpacked, torn: bool)
    requires WellFormed(w) && Traced(w) && w.phase.Deciding?
    ensures Traced(AfterUnpack(w, u, torn))
  {
    ReadServedSince(w);
  }

  lemma StoreTraced(w: World, walk: Result<Content, string>)
    requires WellFormed(w) && Traced(w) && w.phase.Storing? && w.origin == w.seen
    ensures Traced(AfterStore(w, walk))
  {
    ReadServedSince(w);
  }

  lemma StepTraced(w: World, e: Event)
    requires WellFormed(w) && Traced(w) && Enabled(w, e) && (e.Get? || e.Finish? || e.RecordEntry? || e.SettleEntry?)
    ensures Traced(ControllerStep(w, e))
  {
    if !e.Get? { ReadServedSince(w); }
  }

  lemma NextTraced(w: World, e: Event)
    requires WellFormed(w) && EntryHasOrigin(w) && Traced(w) && Enabled(w, e)
    ensures Traced(Next(w, e))
  {
    if IsUserEvent(e) {
      UserTraced(w, e);
    } else if IsWrite(e) {
      WriteTraced(w, e);
    } else if IsEnvironment(e) {
      EnvironmentTraced(w, e);
    } else {
      ControllerTraced(w, e);
    }
  }

  lemma ControllerTraced(w: World, e: Event)
    requires WellFormed(w) && EntryHasOrigin(w) && Traced(w) && Enabled(w, e) && !IsQuiet(e)
    ensures Traced(ControllerStep(w, e))
  {
    match e {
      case DeleteContentStep(failure) => DeleteTraced(w, failure);
      case CleanupCacheStep(left) => CleanupTraced(w, left);
      case UnpackImageStep(a) => UnpackTraced(w, UnpackCatalog(w.local.cache, w.phase.read.spec.image, a),
          TornBy(w, a));
      case StoreContentStep(walk) => StoreTraced(w, walk);
      case _ => StepTraced(w, e);
    }
  }

  // ---------------------------------------------------------------------------------------
  // All of it, over runs.
  // ---------------------------------------------------------------------------------------

  ghost predicate Consistent(w: World) {
    WellFormed(w) && EntryFits(w) && EntryHasOrigin(w) && CacheFits(w) && StatusFits(w) && Traced(w)
  }

  lemma NextConsistent(w: World, e: Event)
    requires Consistent(w) && Enabled(w, e)
    ensures Consistent(Next(w, e))
  {
    NextFits(w, e);
    NextEntryFits(w, e);
    NextHasOrigin(w, e);
    NextCacheFits(w, e);
    NextStatusFits(w, e);
    NextTraced(w, e);
  }

  lemma {:induction false} RunConsistent(w: World, events: seq<Event>)
    requires Consistent(w) && CanRun(w, events)
    ensures Consistent(After(w, events))
    decreases |events|
  {
    if events != [] {
      NextConsistent(w, events[0]);
      RunConsistent(Next(w, events[0]), events[1..]);
    }
  }

  /** In every run: entry, content, cache and status fit together. */
  lemma ReachableIsConsistent(w: World, url: string, now: Time, events: seq<Event>)
    requires ReachedBy(w, url, now, events)
    ensures Consistent(w)
  {
    RunConsistent(Init(url, now), events);
  }

  /**
   Whenever no reconcile is in the middle of local work, an entry means content, and content made
   of the blobs of that entry's unpack, unless the collector got at that very unpack before it
   was stored.
   */
  lemma EntryMeansContent(w: World, url: string, now: Time, events: seq<Event>)
    requires ReachedBy(w, url, now, events) && AtBoundary(w.phase) && w.local.stored.Some?
    ensures w.local.content.Some?
    ensures !w.swept ==> multiset(w.local.content.value) == TreeBlobs(w.local.stored.value.result.fs)
  {
    ReachableIsConsistent(w, url, now, events);
  }

  /**
   In every reachable state, unless the cache was torn since the last purge or undisturbed pull:
   each digest directory holds all of its image and there is at most one.
   */
  lemma CacheStaysComplete(w: World, url: string, now: Time, events: seq<Event>)
    requires ReachedBy(w, url, now, events) && !w.torn
    ensures forall d :: d in Dirs(w.local.cache) ==> Built(d) == Some(Dirs(w.local.cache)[d].tree)
    ensures forall d, e :: d in Dirs(w.local.cache) && e in Dirs(w.local.cache) ==> d == e
  {
    ReachableIsConsistent(w, url, now, events);
  }

  /**
   Every status the API server ever holds is coherent: serving exactly with all three fields set,
   one condition a type, no generation from the future.
   */
  lemma StatusStaysCoherent(w: World, url: string, now: Time, events: seq<Event>, i: nat)
    requires ReachedBy(w, url, now, events) && i < |w.versions| && w.versions[i].Some?
    ensures Coherent(w.versions[i].value.status, w.versions[i].value.generation)
  {
    ReachableIsConsistent(w, url, now, events);
  }

  /**
   Whenever `reconcile` has returned an error, the status it goes on to write says Blocked exactly
   if the error is terminal.
   */
  lemma ErrorsAreReported(w: World, url: string, now: Time, events: seq<Event>)
    requires ReachedBy(w, url, now, events) && (w.phase.WritingStatus? || w.phase.WritingFinalizers?)
        && w.phase.err.Some?
    ensures Reports(w.phase.work.status, w.phase.err.value)
  {
    ReachableIsConsistent(w, url, now, events);
  }
}
