/** Where reconciles without disturbance lead, and that they then stay there. */
module Convergence {
  import opened Prelude
  import opened GoErrors
  import opened Layers
  import opened Api
  import opened Conditions
  import opened StatusUpdates
  import opened ImageCache
  import opened ContentStore
  import opened Reconciling
  import Polling

  // ---------------------------------------------------------------------------------------
  // An available catalog.
  // ---------------------------------------------------------------------------------------

  predicate IsLive(cat: Catalog) { cat.spec.availability == Available && !cat.deleting }

  /** Status, entry, content and generation agree. */
  ghost predicate Agreement(cat: Catalog, local: Local, url: string) {
    && HasFinalizer(cat) && local.stored.Some? && local.content.Some? && cat.spec.image.Some?
    && local.stored.value.observedGeneration == cat.generation
    && Matches(cat.status, local.stored.value.result, url, cat.generation)
  }

  ghost predicate IsPollDue(cat: Catalog, local: Local, now: Time)
    requires cat.spec.image.Some? && local.stored.Some?
  {
    var interval := cat.spec.image.value.pollIntervalMinutes;
    interval.Some? && Polling.NeedsPoll(local.stored.value.result.lastPoll, interval.value, now)
  }

  /**
   In agreement, a reconcile skips the unpack exactly if no poll is due and the status holds no
   condition of another type.
   */
  lemma SkipExactly(cat: Catalog, local: Local, url: string, now: Time)
    requires IsLive(cat) && Agreement(cat, local, url)
    ensures Decide(cat, local, url, now) in {Skip, MustUnpack}
    ensures Decide(cat, local, url, now) == Skip <==> !IsPollDue(cat, local, now) && OnlyKnown(cat.status.conditions)
  {
    ExpectedIsCurrent(cat.status, local.stored.value.result, url, cat.generation, now);
  }

  /** The status write of a successful unpack, as the API server keeps it. */
  lemma UnpackReachesAgreement(cat: Catalog, local: Local, url: string, o: Oracle)
    requires IsLive(cat) && HasFinalizer(cat) && Decide(cat, local, url, o.startAt) == MustUnpack
    requires ReconcileOnce(Some(cat), local, url, o).err.None?
    ensures var r := ReconcileOnce(Some(cat), local, url, o);
      r.api.Some? && r.api.value == cat.(status := r.api.value.status) && Agreement(r.api.value, r.local, url)
  {
    var body := UnpackBody(cat, local, url, o);
    assert body.err.None?;
    UnpackBodyMatches(cat, local, url, o);
    var result := body.local.stored.value.result;
    PersistKeepsMatch(body.work.status, result, url, cat.generation);
  }

  lemma UnpackBodyMatches(cat: Catalog, local: Local, url: string, o: Oracle)
    requires UnpackBody(cat, local, url, o).err.None?
    ensures var p := UnpackBody(cat, local, url, o);
      && p.work == cat.(status := p.work.status) && cat.spec.image.Some?
      && p.local.stored.Some? && p.local.content.Some? && p.local.stored.value.observedGeneration == cat.generation
      && Matches(p.work.status, p.local.stored.value.result, url, cat.generation)
      && (OnlyKnown(p.work.status.conditions) <==> OnlyKnown(cat.status.conditions))
      && Truncate(p.local.stored.value.result.unpackTime) == p.local.stored.value.result.unpackTime
  {
    UnpackResolves(local.cache, cat.spec.image, o.answers);
    var u := UnpackCatalog(local.cache, cat.spec.image, o.answers);
    UnpackOutcomeMatches(cat, local, url, u, o);
  }

  lemma UnpackOutcomeMatches(cat: Catalog, local: Local, url: string, u: Unpacked, o: Oracle)
    requires u.result.Ok? && o.walk.Ok?
    ensures var p := StoreStep(UnpackProgress(local, cat, u, o.startAt).local, cat, u.result.value, o.walk, url,
        o.endAt);
      && p.work == cat.(status := p.work.status) && p.local.content == Some(o.walk.value)
      && Matches(p.work.status, u.result.value, url, cat.generation)
      && (OnlyKnown(p.work.status.conditions) <==> OnlyKnown(cat.status.conditions))
  {
    UnpackMakesMatch(cat.status, u.result.value, url, cat.generation, o.endAt);
  }

  /** One reconcile without errors of an available catalog that has the finalizer ends in agreement. */
  lemma RoundAgrees(cat: Catalog, local: Local, url: string, o: Oracle)
    requires IsLive(cat) && HasFinalizer(cat) && Decide(cat, local, url, o.startAt) != Panic
    requires ReconcileOnce(Some(cat), local, url, o).err.None?
    ensures var r := ReconcileOnce(Some(cat), local, url, o);
      && cat.spec.image.Some? && r.api.Some? && r.api.value == cat.(status := r.api.value.status)
          && Agreement(r.api.value, r.local, url)
      && r.delay == Polling.RequeueAfter(r.local.stored.value.result.lastPoll, cat.spec.image.value.pollIntervalMinutes,
          o.jitter, o.endAt)
  {
    if Decide(cat, local, url, o.startAt) == Skip {
      ExpectedIsCurrent(cat.status, local.stored.value.result, url, cat.generation, o.startAt);
    } else {
      UnpackReachesAgreement(cat, local, url, o);
    }
  }

  /**
   Two reconciles without errors are enough: from any state in which the poll check does not stop
   them, an available catalog is in agreement after the second.
   */
  lemma TwoRoundsAgree(cat: Catalog, local: Local, url: string, first: Oracle, second: Oracle)
    requires IsLive(cat)
    requires UnpackDecision(cat, local, url, if HasFinalizer(cat) then first.startAt else second.startAt) != Panic
    requires var r := ReconcileOnce(Some(cat), local, url, first);
      r.err.None? && ReconcileOnce(r.api, r.local, url, second).err.None?
    ensures var r1 := ReconcileOnce(Some(cat), local, url, first);
      var r2 := ReconcileOnce(r1.api, r1.local, url, second);
      && r1.api.Some? && Decide(r1.api.value, r1.local, url, second.startAt) != Panic
      && r2.api.Some? && Agreement(r2.api.value, r2.local, url)
  {
    var r1 := ReconcileOnce(Some(cat), local, url, first);
    if HasFinalizer(cat) {
      RoundAgrees(cat, local, url, first);
      SkipExactly(r1.api.value, r1.local, url, second.startAt);
    } else {
      assert r1.api == Some(cat.(finalizers := cat.finalizers + [DeleteServerCache])) && r1.local == local;
    }
    RoundAgrees(r1.api.value, r1.local, url, second);
  }

  /** Reconciles one after the other. */
  ghost function Rounds(api: Option<Catalog>, local: Local, url: string, os: seq<Oracle>): Round
    requires os != []
    decreases |os|
  {
    var r := ReconcileOnce(api, local, url, os[0]);
    if |os| == 1 then r
    else
      var rest := Rounds(r.api, r.local, url, os[1..]);
      rest.(wrote := r.wrote || rest.wrote)
  }

  /**
   In agreement, and with no other conditions, any number of reconciles before the poll deadline
   neither unpack nor write.
   */
  lemma {:induction false} AgreementIsQuiet(cat: Catalog, local: Local, url: string, os: seq<Oracle>)
    requires IsLive(cat) && Agreement(cat, local, url) && OnlyKnown(cat.status.conditions)
    requires os != [] && forall i :: 0 <= i < |os| ==> !IsPollDue(cat, local, os[i].startAt)
    ensures var r := Rounds(Some(cat), local, url, os);
        r.api == Some(cat) && r.local == local && r.err.None? && !r.wrote
    decreases |os|
  {
    SkipExactly(cat, local, url, os[0].startAt);
    if |os| > 1 {
      AgreementIsQuiet(cat, local, url, os[1..]);
    }
  }

  /** A condition of a type the controller does not know. */
  ghost predicate HasForeign(cat: Catalog, kind: ConditionType) {
    kind != TypeServing && kind != TypeProgressing && HasKind(cat.status.conditions, kind)
  }

  lemma PutKeepsForeign(s: Status, c: Condition, now: Time, kind: ConditionType)
    requires HasKind(s.conditions, kind)
    ensures HasKind(Put(s, c, now).conditions, kind)
  {
    SetKeepsKinds(s.conditions, c, now, kind);
  }

  lemma BodyKeepsForeign(cat: Catalog, local: Local, url: string, o: Oracle, kind: ConditionType)
    requires HasKind(cat.status.conditions, kind)
    ensures HasKind(Body(cat, local, url, o).work.status.conditions, kind)
  {
    match Decide(cat, local, url, o.startAt) {
      case Purge => PurgeKeepsForeign(cat, local, o, kind);
      case MustUnpack => UnpackKeepsForeign(cat, local, url, o, kind);
      case _ =>
    }
  }

  lemma FailKeepsForeign(local: Local, work: Catalog, e: GoError, returned: GoError, now: Time, kind: ConditionType)
    requires HasKind(work.status.conditions, kind)
    ensures HasKind(Fail(local, work, e, returned, now).work.status.conditions, kind)
  {
    PutKeepsForeign(work.status, ProgressingCondition(work.generation, Some(e)), now, kind);
  }

  lemma PurgeKeepsForeign(cat: Catalog, local: Local, o: Oracle, kind: ConditionType)
    requires HasKind(cat.status.conditions, kind)
    ensures HasKind(PurgeBody(cat, local, o).work.status.conditions, kind)
  {
    var g := cat.generation;
    FailKeepsForeign(local, cat, DELETE_ERROR, DELETE_ERROR, o.startAt, kind);
    var bare := cat.status.(resolved := None, url := None, lastUnpacked := None);
    PutKeepsForeign(bare, NotServingCondition(g), o.startAt, kind);
    var s := UpdateNotServing(cat.status, g, o.startAt);
    FailKeepsForeign(local, cat.(status := s), CLEANUP_FAILURE, CLEANUP_FAILURE, o.endAt, kind);
    PutKeepsForeign(s, UserUnavailableProgressing(g), o.endAt, kind);
    PutKeepsForeign(Put(s, UserUnavailableProgressing(g), o.endAt), UserUnavailableServing(g), o.endAt, kind);
  }

  lemma UnpackKeepsForeign(cat: Catalog, local: Local, url: string, o: Oracle, kind: ConditionType)
    requires HasKind(cat.status.conditions, kind)
    ensures HasKind(UnpackBody(cat, local, url, o).work.status.conditions, kind)
  {
    var u := UnpackCatalog(local.cache, cat.spec.image, o.answers);
    if u.result.Err? {
      var e := Wrapped(SourcingContent, u.result.error);
      FailKeepsForeign(local.(cache := u.cache), cat, e, e, o.startAt, kind);
    } else {
      StoreKeepsForeign(UnpackProgress(local, cat, u, o.startAt).local, cat, u.result.value, url, o, kind);
    }
  }

  lemma StoreKeepsForeign(local: Local, cat: Catalog, result: UnpackResult, url: string, o: Oracle, kind: ConditionType)
    requires HasKind(cat.status.conditions, kind)
    ensures HasKind(StoreStep(local, cat, result, o.walk, url, o.endAt).work.status.conditions, kind)
  {
    if o.walk.Err? {
      var e := Quoted(StoringContent, External(o.walk.error));
      FailKeepsForeign(local, cat, e, e, o.endAt, kind);
    } else {
      var s := UpdateProgressing(cat.status, cat.generation, None, o.endAt);
      PutKeepsForeign(cat.status, ProgressingCondition(cat.generation, None), o.endAt, kind);
      PutKeepsForeign(s.(resolved := Some(result.resolved), url := Some(url), lastUnpacked := Some(result.unpackTime)),
                      ServingCondition(cat.generation), o.endAt, kind);
    }
  }

  /** No reconcile that meets a foreign condition skips the unpack. */
  lemma ForeignForcesUnpack(cat: Catalog, local: Local, url: string, now: Time, kind: ConditionType)
    requires HasForeign(cat, kind)
    ensures Decide(cat, local, url, now) !in {Skip, Panic}
  {
    if local.stored.Some? {
      ExpectedIsCurrent(cat.status, local.stored.value.result, url, local.stored.value.observedGeneration, now);
    }
    var i :| 0 <= i < |cat.status.conditions| && cat.status.conditions[i].kind == kind;
    assert !IsKnown(cat.status.conditions[i]);
  }

  lemma WritesKeepForeign(cat: Catalog, work: Catalog, statusWrite: WriteAnswer, finalizerWrite: WriteAnswer,
      kind: ConditionType)
    requires HasKind(cat.status.conditions, kind) && HasKind(work.status.conditions, kind)
    ensures var (cat1, _, upToDate) := WriteStatus(cat, work, statusWrite);
      var (api2, _) := WriteFinalizers(cat1, work.finalizers, upToDate, finalizerWrite);
      api2.Some? ==> HasKind(api2.value.status.conditions, kind)
  {
    PersistKeepsKind(work.status, kind);
  }

  lemma ForeignSurvivesRound(cat: Catalog, local: Local, url: string, o: Oracle, kind: ConditionType)
    requires HasForeign(cat, kind)
    ensures var r := ReconcileOnce(Some(cat), local, url, o); r.api.Some? ==> HasForeign(r.api.value, kind)
  {
    BodyKeepsForeign(cat, local, url, o, kind);
    WritesKeepForeign(cat, Body(cat, local, url, o).work, o.statusWrite, o.finalizerWrite, kind);
  }

  /**
   A foreign condition survives any number of reconciles, whatever happens in them, so that the
   next one does not skip either.
   */
  lemma {:induction false} ForeignConditionSurvives(cat: Catalog, local: Local, url: string, os: seq<Oracle>,
      kind: ConditionType, now: Time)
    requires HasForeign(cat, kind) && os != []
    ensures var r := Rounds(Some(cat), local, url, os);
      r.api.Some? ==> HasForeign(r.api.value, kind) && Decide(r.api.value, r.local, url, now) !in {Skip, Panic}
    decreases |os|
  {
    var r := ReconcileOnce(Some(cat), local, url, os[0]);
    ForeignSurvivesRound(cat, local, url, os[0], kind);
    if |os| == 1 {
      if r.api.Some? { ForeignForcesUnpack(r.api.value, r.local, url, now, kind); }
    } else if r.api.Some? {
      ForeignConditionSurvives(r.api.value, r.local, url, os[1..], kind, now);
    } else {
      GoneStaysGone(r.local, url, os[1..]);
    }
  }

  lemma {:induction false} GoneStaysGone(local: Local, url: string, os: seq<Oracle>)
    requires os != []
    ensures var r := Rounds(None, local, url, os); r.api.None? && r.local == local && !r.wrote
    decreases |os|
  {
    if |os| > 1 {
      GoneStaysGone(local, url, os[1..]);
    }
  }

  lemma PersistKeepsKind(s: Status, kind: ConditionType)
    requires HasKind(s.conditions, kind)
    ensures HasKind(Persist(s).conditions, kind)
  {
    var i :| 0 <= i < |s.conditions| && s.conditions[i].kind == kind;
    assert Persist(s).conditions[i].kind == kind;
  }

  /**
   A reconcile of a polled catalog that ends in agreement asks to be called back, unless it ends
   after the deadline it sets itself, and any reconcile after that delay unpacks.
   */
  lemma PollFollows(cat: Catalog, local: Local, url: string, o: Oracle, minutes: int, later: Time)
    requires IsLive(cat) && HasFinalizer(cat) && cat.spec.image.Some? && Decide(cat, local, url, o.startAt) != Panic
    requires cat.spec.image.value.pollIntervalMinutes == Some(minutes) && 1 <= minutes <= Polling.LONGEST_INTERVAL
    requires Polling.IsJitter(minutes, o.jitter) && ReconcileOnce(Some(cat), local, url, o).err.None?
    requires var r := ReconcileOnce(Some(cat), local, url, o);
      r.local.stored.Some? ==> r.local.stored.value.result.lastPoll <= o.endAt
    ensures var r := ReconcileOnce(Some(cat), local, url, o);
      && r.api.Some? && Agreement(r.api.value, r.local, url)
      && (r.delay > 0 <==> o.endAt < r.local.stored.value.result.lastPoll + minutes * Polling.MINUTE + o.jitter)
      && 100 * r.delay <= 101 * minutes * Polling.MINUTE
      && (r.delay > 0 && later > o.endAt + r.delay ==> Decide(r.api.value, r.local, url, later) == MustUnpack)
  {
    var r := ReconcileOnce(Some(cat), local, url, o);
    RoundAgrees(cat, local, url, o);
    Polling.PollingKeepsGoing(r.local.stored.value.result.lastPoll, minutes, o.jitter, o.endAt, later);
    SkipExactly(r.api.value, r.local, url, later);
  }

  // ---------------------------------------------------------------------------------------
  // An unavailable catalog.
  // ---------------------------------------------------------------------------------------

  /** What an unavailable catalog's status comes to. */
  ghost predicate SaysUnavailable(s: Status, generation: nat) {
    && s.resolved.None? && s.url.None? && s.lastUnpacked.None?
    && Says(s.conditions, UserUnavailableProgressing(generation))
    && Says(s.conditions, UserUnavailableServing(generation))
  }

  /**
   One pass makes the status say so, and a pass over a status that says so changes nothing,
   although it sets the Serving reason twice.
   */
  lemma UnavailablePass(s: Status, generation: nat, t: Time, t': Time)
    ensures var s' := UpdateUserUnavailable(UpdateNotServing(s, generation, t), generation, t');
      SaysUnavailable(s', generation) && (SaysUnavailable(s, generation) ==> s' == s)
  {
    var cs := s.conditions;
    var off, progressing, serving := NotServingCondition(generation), UserUnavailableProgressing(generation),
        UserUnavailableServing(generation);
    var one := SetCondition(cs, off, t);
    var two := SetCondition(one, progressing, t');
    SetSays(cs, off, t);
    SetSays(one, progressing, t');
    SetSays(two, serving, t');
    if SaysUnavailable(s, generation) {
      SetIsNoop(one, progressing, t');
      SetBack(cs, off, serving, t, t');
    }
  }

  lemma PersistSaysUnavailable(s: Status, generation: nat)
    requires SaysUnavailable(s, generation)
    ensures SaysUnavailable(Persist(s), generation)
  {
    PersistSays(s.conditions, TypeServing);
    PersistSays(s.conditions, TypeProgressing);
  }

  /** Gone, or unavailable with nothing held and the finalizer given up. */
  ghost predicate Withdrawn(api: Option<Catalog>, local: Local) {
    && HoldsNothing(local)
    && (api.Some? ==>
          && api.value.spec.availability == Unavailable && !HasFinalizer(api.value)
          && SaysUnavailable(api.value.status, api.value.generation))
  }

  /** One reconcile without errors withdraws an unavailable catalog. */
  lemma UnavailableIsWithdrawn(cat: Catalog, local: Local, url: string, o: Oracle)
    requires cat.spec.availability == Unavailable && ReconcileOnce(Some(cat), local, url, o).err.None?
    ensures var r := ReconcileOnce(Some(cat), local, url, o); Withdrawn(r.api, r.local)
  {
    UnavailablePass(cat.status, cat.generation, o.startAt, o.endAt);
    PersistSaysUnavailable(UpdateUserUnavailable(UpdateNotServing(cat.status, cat.generation, o.startAt),
      cat.generation, o.endAt), cat.generation);
  }

  /**
   A withdrawn catalog stays as it is: however many more reconciles delete what is not there, none
   of them writes.
   */
  lemma {:induction false} WithdrawnIsQuiet(api: Option<Catalog>, local: Local, url: string, os: seq<Oracle>)
    requires Withdrawn(api, local)
    requires os != [] && forall i :: 0 <= i < |os| ==> os[i].deleteFailure.None?
    ensures var r := Rounds(api, local, url, os); r.api == api && r.local == local && r.err.None? && !r.wrote
    decreases |os|
  {
    if api.Some? {
      UnavailablePass(api.value.status, api.value.generation, os[0].startAt, os[0].endAt);
    }
    if |os| > 1 {
      WithdrawnIsQuiet(api, local, url, os[1..]);
    }
  }

  // ---------------------------------------------------------------------------------------
  // A catalog that is being deleted.
  // ---------------------------------------------------------------------------------------

  ghost predicate HasOthers(cat: Catalog) { exists f :: f in cat.finalizers && f != DeleteServerCache }

  /** Nothing is held any more, and the object is gone, or kept by others alone and not serving. */
  ghost predicate Released(cat: Catalog, api: Option<Catalog>, local: Local) {
    && HoldsNothing(local) && (api.None? <==> !HasOthers(cat))
    && (api.Some? ==>
          && !HasFinalizer(api.value) && !IsServing(api.value.status)
          && api.value == cat.(status := api.value.status, finalizers := api.value.finalizers)
          && forall f :: f != DeleteServerCache ==> (f in api.value.finalizers <==> f in cat.finalizers))
  }

  /** One reconcile without errors releases an available catalog that is being deleted. */
  lemma DeletedIsReleased(cat: Catalog, local: Local, url: string, o: Oracle)
    requires cat.spec.availability == Available && cat.deleting && HasFinalizer(cat)
    requires ReconcileOnce(Some(cat), local, url, o).err.None?
    ensures var r := ReconcileOnce(Some(cat), local, url, o); Released(cat, r.api, r.local)
  {
    var status := UpdateNotServing(cat.status, cat.generation, o.startAt);
    NotServingKeepsCoherent(cat.status, cat.generation, o.startAt);
    PersistServing(status);
    var left := Without(cat.finalizers, DeleteServerCache);
    assert left == [] <==> !HasOthers(cat) by {
      if left != [] { assert left[0] in left; }
    }
  }

  /** The same for an unavailable one: gone if it is being deleted and no others hold it. */
  lemma UnavailableIsReleased(cat: Catalog, local: Local, url: string, o: Oracle)
    requires cat.spec.availability == Unavailable && ReconcileOnce(Some(cat), local, url, o).err.None?
    ensures var r := ReconcileOnce(Some(cat), local, url, o);
      HasFinalizer(cat) ==> (r.api.None? <==> cat.deleting && !HasOthers(cat))
  {
    var left := Without(cat.finalizers, DeleteServerCache);
    assert left == [] <==> !HasOthers(cat) by {
      if left != [] { assert left[0] in left; }
    }
  }

  // ---------------------------------------------------------------------------------------
  // What every reconcile leaves alone.
  // ---------------------------------------------------------------------------------------

  /**
   However a reconcile ends, it changes nothing of the object but status and finalizers, neither
   adds nor removes a finalizer of others, and does away with the object only if it is being
   deleted and carries no finalizer of others.
   */
  lemma OthersFinalizersStay(cat: Catalog, local: Local, url: string, o: Oracle, f: Finalizer)
    requires f != DeleteServerCache
    ensures var r := ReconcileOnce(Some(cat), local, url, o);
      && (r.api.Some? ==>
            && r.api.value == cat.(status := r.api.value.status, finalizers := r.api.value.finalizers)
            && multiset(r.api.value.finalizers)[f] == multiset(cat.finalizers)[f])
      && (r.api.None? ==> cat.deleting && f !in cat.finalizers)
  {
    BodyKeepsObject(cat, local, url, o, f);
    WritesKeepObject(cat, Body(cat, local, url, o).work, o.statusWrite, o.finalizerWrite, f);
  }

  lemma WritesKeepObject(cat: Catalog, work: Catalog, statusWrite: WriteAnswer, finalizerWrite: WriteAnswer,
      f: Finalizer)
    requires multiset(work.finalizers)[f] == multiset(cat.finalizers)[f]
    ensures var (cat1, _, upToDate) := WriteStatus(cat, work, statusWrite);
      var (api2, _) := WriteFinalizers(cat1, work.finalizers, upToDate, finalizerWrite);
      && (api2.Some? ==>
            && api2.value == cat.(status := api2.value.status, finalizers := api2.value.finalizers)
            && multiset(api2.value.finalizers)[f] == multiset(cat.finalizers)[f])
      && (api2.None? ==> cat.deleting && f !in cat.finalizers)
  {
    assert work.finalizers == [] ==> multiset(work.finalizers)[f] == 0;
  }

  lemma BodyKeepsObject(cat: Catalog, local: Local, url: string, o: Oracle, f: Finalizer)
    requires f != DeleteServerCache
    ensures var work := Body(cat, local, url, o).work;
      && work == cat.(status := work.status, finalizers := work.finalizers)
      && multiset(work.finalizers)[f] == multiset(cat.finalizers)[f]
  {
    assert multiset(cat.finalizers + [DeleteServerCache])[f] == multiset(cat.finalizers)[f];
  }

  /** It writes exactly if it has something to change, and what it does not write stays. */
  lemma WritesOnlyChanges(cat: Catalog, local: Local, url: string, o: Oracle)
    ensures var r, work := ReconcileOnce(Some(cat), local, url, o), Body(cat, local, url, o).work;
      && (r.wrote <==> work.status != cat.status || work.finalizers != cat.finalizers)
      && (!r.wrote ==> r.api == Some(cat))
      && (r.api.Some? && work.status == cat.status ==> r.api.value.status == cat.status)
      && (r.api.Some? && r.api.value.status != cat.status ==> r.api.value.status == Persist(work.status))
      && (r.api.Some? && r.api.value.finalizers != cat.finalizers ==> r.api.value.finalizers == work.finalizers)
      && (o.statusWrite == Refused && r.api.Some? ==> r.api.value.status == cat.status)
      && (o.finalizerWrite == Refused ==> r.api.Some? && r.api.value.finalizers == cat.finalizers)
  {
  }

  /**
   After an error in `reconcile` the entry is forgotten, so that the next reconcile of the catalog
   unpacks or purges.
   */
  lemma ErrorForgetsEntry(cat: Catalog, local: Local, url: string, o: Oracle, next: Catalog, now: Time)
    requires Body(cat, local, url, o).err.Some?
    ensures var r := ReconcileOnce(Some(cat), local, url, o);
      r.local.stored.None? && Decide(next, r.local, url, now) !in {Skip, Panic}
  {
  }

  /** A delay is asked for only if the catalog is polled, and an entry and no error are left. */
  lemma DelayIsForPolling(cat: Catalog, local: Local, url: string, o: Oracle)
    requires ReconcileOnce(Some(cat), local, url, o).delay != 0
    ensures cat.spec.image.Some? && cat.spec.image.value.pollIntervalMinutes.Some?
    ensures Body(cat, local, url, o).err.None? && ReconcileOnce(Some(cat), local, url, o).local.stored.Some?
    ensures Decide(cat, local, url, o.startAt) in {Skip, MustUnpack}
  {
  }
}
