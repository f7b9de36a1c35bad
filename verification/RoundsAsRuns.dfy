/**
 A whole reconcile is a run of the machine in which nothing comes in between, so what holds of
 reconciles in a row holds of runs.
 */
module RoundsAsRuns {
  import opened Prelude
  import opened GoErrors
  import opened Layers
  import opened Api
  import opened Conditions
  import opened StatusUpdates
  import opened ImageCache
  import opened ContentStore
  import opened Reconciling
  import opened Machine
  import opened Ownership
  import opened Consistency
  import opened Serving
  import opened Convergence

  // ---------------------------------------------------------------------------------------
  // Runs put together.
  // ---------------------------------------------------------------------------------------

  ghost predicate Leads(w: World, w': World) {
    exists events :: CanRun(w, events) && After(w, events) == w'
  }

  lemma LeadsByStep(w: World, e: Event)
    requires Enabled(w, e)
    ensures Leads(w, Next(w, e))
  {
    RunOne(w, e);
  }

  lemma {:induction false} RunAppend(w: World, a: seq<Event>, b: seq<Event>)
    requires CanRun(w, a) && CanRun(After(w, a), b)
    ensures CanRun(w, a + b) && After(w, a + b) == After(After(w, a), b)
    decreases |a|
  {
    if a == [] {
      assert a + b == b;
    } else {
      RunAppend(Next(w, a[0]), a[1..], b);
      RunCons(w, a[0], a[1..] + b);
      assert [a[0]] + (a[1..] + b) == a + b;
    }
  }

  lemma LeadsOn(w: World, mid: World, w': World)
    requires Leads(w, mid) && Leads(mid, w')
    ensures Leads(w, w')
  {
    var a :| CanRun(w, a) && After(w, a) == mid;
    var b :| CanRun(mid, b) && After(mid, b) == w';
    RunAppend(w, a, b);
  }

  // ---------------------------------------------------------------------------------------
  // The parts of a reconcile.
  // ---------------------------------------------------------------------------------------

  /** The controller has just read the latest version. */
  ghost predicate JustRead(w: World, cat: Catalog) {
    PhaseFits(w) && w.phase == Deciding(cat) && w.seen == Latest(w)
  }

  /** `reconcile` has returned, and nothing but local state and phase has changed. */
  ghost predicate ReturnedWith(w: World, w': World, cat: Catalog, p: Progress) {
    && w'.phase == Returned(cat, p.work, p.err) && w'.local == p.local
    && w'.versions == w.versions && w'.seen == w.seen && w'.url == w.url && (w'.swept ==> w.swept)
  }

  ghost predicate Until(w: World, at: Time) { w.now <= at }

  lemma StartRound(w: World, cat: Catalog, at: Time) returns (w': World)
    requires PhaseFits(w) && w.phase.Idle? && Current(w) == Some(cat) && w.now <= at
    ensures Leads(w, w') && JustRead(w', cat) && w'.versions == w.versions
    ensures w'.local == w.local && w'.url == w.url && w'.now == at && w'.swept == w.swept
  {
    LeadsByStep(w, Get(Latest(w)));
    var read := Next(w, Get(Latest(w)));
    LeadsByStep(read, Tick(at));
    w' := Next(read, Tick(at));
    LeadsOn(w, read, w');
  }

  lemma LaterStep(w: World, at: Time, e: Event) returns (w': World)
    requires w.now <= at && Fits(w, Tick(at)) && Enabled(w.(now := at), e)
    ensures w' == Next(w.(now := at), e) && Leads(w, w')
  {
    LeadsByStep(w, Tick(at));
    LeadsByStep(w.(now := at), e);
    w' := Next(w.(now := at), e);
    LeadsOn(w, w.(now := at), w');
  }

  lemma PurgeRound(w: World, cat: Catalog, o: Oracle) returns (w': World)
    requires JustRead(w, cat) && w.now == o.startAt <= o.endAt && Decides(w, Purge)
    ensures Until(w', o.endAt) && Leads(w, w') && ReturnedWith(w, w', cat, PurgeBody(cat, w.local, o))
  {
    var e := DeleteContentStep(o.deleteFailure);
    LeadsByStep(w, e);
    var w1 := Next(w, e);
    if o.deleteFailure.Some? {
      w' := w1;
    } else {
      w' := LaterStep(w1, o.endAt, CleanupCacheStep(o.cleanupLeft));
      LeadsOn(w, w1, w');
    }
  }

  lemma UnpackRound(w: World, cat: Catalog, o: Oracle) returns (w': World)
    requires JustRead(w, cat) && w.now == o.startAt <= o.endAt && Decides(w, MustUnpack)
    requires var u := UnpackCatalog(w.local.cache, cat.spec.image, o.answers);
      u.result.Ok? ==> WalkFits(u.cache, u.result.value.digest, o.walk)
    ensures Until(w', o.endAt) && Leads(w, w') && ReturnedWith(w, w', cat, UnpackBody(cat, w.local, w.url, o))
  {
    var e := UnpackImageStep(o.answers);
    LeadsByStep(w, e);
    var u := UnpackCatalog(w.local.cache, cat.spec.image, o.answers);
    var w1 := AfterUnpack(w, u, TornBy(w, o.answers));
    assert w1 == Next(w, e);
    if u.result.Err? {
      w' := w1;
    } else {
      w' := StoreRound(w1, cat, u.result.value, o);
      LeadsOn(w, w1, w');
    }
  }

  /** From Storing on. */
  ghost function StoreBody(cat: Catalog, local: Local, result: UnpackResult, url: string, o: Oracle): Progress {
    var stored := StoreStep(local, cat, result, o.walk, url, o.endAt);
    if stored.err.Some? then stored else stored.(local := RecordStep(stored.local, stored.work, result))
  }

  lemma StoreRound(w: World, cat: Catalog, result: UnpackResult, o: Oracle) returns (w': World)
    requires w.versions != [] && w.seen < |w.versions| && w.phase == Storing(cat, result) && w.now <= o.endAt
    requires WalkFits(w.local.cache, result.digest, o.walk)
    ensures Until(w', o.endAt) && Leads(w, w') && ReturnedWith(w, w', cat, StoreBody(cat, w.local, result, w.url, o))
  {
    var later := w.(now := o.endAt);
    var p := StoreStep(w.local, cat, result, o.walk, w.url, o.endAt);
    w' := LaterStep(w, o.endAt, StoreContentStep(o.walk));
    StoreOutcome(later, cat, result, o.walk, p);
    if p.err.None? {
      var w1 := w';
      w' := RecordRound(w1, cat, p.work, result);
      LeadsOn(w, w1, w');
    }
  }

  lemma StoreOutcome(w: World, cat: Catalog, result: UnpackResult, walk: Result<Content, string>, p: Progress)
    requires w.phase == Storing(cat, result)
    requires p == StoreStep(w.local, cat, result, walk, w.url, w.now)
    ensures AfterStore(w, walk) ==
      w.(local := p.local, phase := if p.err.Some? then Returned(cat, p.work, p.err)
        else Recording(cat, p.work, result))
  {
  }

  lemma RecordRound(w: World, cat: Catalog, work: Catalog, result: UnpackResult) returns (w': World)
    requires w.versions != [] && w.seen < |w.versions| && w.phase == Recording(cat, work, result)
    ensures w'.now == w.now && Leads(w, w')
        && ReturnedWith(w, w', cat, Progress(RecordStep(w.local, work, result), work, None))
  {
    LeadsByStep(w, RecordEntry);
    w' := Next(w, RecordEntry);
  }

  /** The two writes, starting from the latest version. */
  lemma EndRound(w: World, cat: Catalog, p: Progress, o: Oracle) returns (w': World)
    requires w.versions != [] && w.seen == Latest(w) && Current(w) == Some(cat)
    requires w.phase == Returned(cat, p.work, p.err) && w.local == p.local
    ensures Leads(w, w') && w'.phase.Idle? && w'.versions != [] && w'.url == w.url && w'.now == w.now
        && w'.swept == w.swept
    ensures w'.local == Settle(p.local, p.err)
    ensures var (cat1, _, upToDate) := WriteStatus(cat, p.work, o.statusWrite);
      Current(w') == WriteFinalizers(cat1, p.work.finalizers, upToDate, o.finalizerWrite).0
  {
    LeadsByStep(w, SettleEntry);
    var w1 := Next(w, SettleEntry);
    var w2 := StatusRound(w1, cat, p, o.statusWrite);
    LeadsOn(w, w1, w2);
    w' := FinalizerRound(w2, cat, p, o.finalizerWrite);
    LeadsOn(w, w2, w');
  }

  lemma StatusRound(w: World, cat: Catalog, p: Progress, answer: WriteAnswer) returns (w': World)
    requires w.versions != [] && w.seen == Latest(w) && Current(w) == Some(cat)
    requires w.phase == WritingStatus(cat, p.work, p.err)
    ensures Leads(w, w')
    ensures var (cat1, _, upToDate) := WriteStatus(cat, p.work, answer);
      && w'.local == w.local && w'.url == w.url && w'.now == w.now && w'.swept == w.swept && w'.versions != []
          && Current(w') == Some(cat1)
      && w'.seen < |w'.versions|
      && w'.phase.WritingFinalizers? && w'.phase.read == cat && w'.phase.work == p.work
      && w'.phase.at < |w'.versions| && (upToDate <==> UpToDate(w', w'.phase.at))
  {
    LeadsByStep(w, WriteStatusStep(answer));
    StatusWritten(w, cat, p, answer);
    w' := Next(w, WriteStatusStep(answer));
  }

  lemma FinalizerRound(w: World, cat: Catalog, p: Progress, answer: WriteAnswer) returns (w': World)
    requires w.versions != [] && w.seen < |w.versions| && w.phase.WritingFinalizers? && w.phase.at < |w.versions|
    requires w.phase.read == cat && w.phase.work == p.work
    requires Current(w).Some? && Current(w).value.finalizers == cat.finalizers
    ensures Leads(w, w')
    ensures w'.phase.Idle? && w'.local == w.local && w'.url == w.url && w'.now == w.now && w'.swept == w.swept
        && w'.versions != []
    ensures Current(w') == WriteFinalizers(Current(w).value, p.work.finalizers, UpToDate(w, w.phase.at), answer).0
  {
    LeadsByStep(w, WriteFinalizersStep(answer));
    FinalizersWritten(w, cat, p, answer);
    w' := Next(w, WriteFinalizersStep(answer));
  }

  /** Whether there is a status to write and the write goes through. */
  lemma StatusWritten(w: World, cat: Catalog, p: Progress, answer: WriteAnswer)
    requires w.versions != [] && w.seen == Latest(w) && Current(w) == Some(cat)
    requires w.phase == WritingStatus(cat, p.work, p.err)
    ensures var w' := WriteStep(w, WriteStatusStep(answer));
      var (cat1, _, upToDate) := WriteStatus(cat, p.work, answer);
      && w' == w.(versions := w'.versions, phase := w'.phase) && w'.versions != [] && Current(w') == Some(cat1)
      && w'.seen < |w'.versions|
      && w'.phase.WritingFinalizers? && w'.phase.read == cat && w'.phase.work == p.work
      && (upToDate <==> UpToDate(w', w'.phase.at)) && w'.phase.at < |w'.versions|
  {
    if p.work.status == cat.status || answer == Refused {
      assert Written(w, WriteStatusStep(answer)) == None;
    } else {
      var v := Some(WithStatus(cat, p.work.status));
      assert Written(w, WriteStatusStep(answer)) == Some(v);
      assert WriteStep(w, WriteStatusStep(answer)).versions == w.versions + [v];
    }
  }

  lemma FinalizersWritten(w: World, cat: Catalog, p: Progress, answer: WriteAnswer)
    requires w.versions != [] && w.seen < |w.versions| && w.phase.WritingFinalizers? && w.phase.at < |w.versions|
    requires w.phase.read == cat && w.phase.work == p.work
    requires Current(w).Some? && Current(w).value.finalizers == cat.finalizers
    ensures var w' := WriteStep(w, WriteFinalizersStep(answer));
      && w' == w.(versions := w'.versions, phase := Idle) && w'.versions != []
      && Current(w') == WriteFinalizers(Current(w).value, p.work.finalizers, UpToDate(w, w.phase.at), answer).0
  {
  }

  // ---------------------------------------------------------------------------------------
  // A reconcile is a run.
  // ---------------------------------------------------------------------------------------

  /** What is read from the unpacked directory is what is in it. */
  ghost predicate OracleFits(local: Local, cat: Catalog, o: Oracle) {
    var u := UnpackCatalog(local.cache, cat.spec.image, o.answers);
    u.result.Ok? ==> WalkFits(u.cache, u.result.value.digest, o.walk)
  }

  lemma BodyIsRun(w: World, cat: Catalog, o: Oracle) returns (w': World)
    requires JustRead(w, cat) && w.now == o.startAt <= o.endAt && !Decides(w, Panic) && OracleFits(w.local, cat, o)
    ensures Until(w', o.endAt) && Leads(w, w') && ReturnedWith(w, w', cat, Body(cat, w.local, w.url, o))
  {
    if Decides(w, Purge) {
      w' := PurgeRound(w, cat, o);
    } else if Decides(w, MustUnpack) {
      w' := UnpackRound(w, cat, o);
    } else {
      LeadsByStep(w, Finish);
      w' := Next(w, Finish);
    }
  }

  /** The machine can do in one go whatever a reconcile does. */
  lemma ReconcileIsRun(w: World, cat: Catalog, o: Oracle) returns (w': World)
    requires PhaseFits(w) && w.phase.Idle? && Current(w) == Some(cat) && w.now <= o.startAt <= o.endAt
    requires Decide(cat, w.local, w.url, o.startAt) != Panic && OracleFits(w.local, cat, o)
    ensures Leads(w, w') && w'.phase.Idle? && w'.versions != [] && w'.url == w.url && Until(w', o.endAt)
        && (w'.swept ==> w.swept)
    ensures Current(w') == ReconcileOnce(Some(cat), w.local, w.url, o).api
    ensures w'.local == ReconcileOnce(Some(cat), w.local, w.url, o).local
  {
    var w1 := StartRound(w, cat, o.startAt);
    var w2 := BodyIsRun(w1, cat, o);
    w' := EndRound(w2, cat, Body(cat, w.local, w.url, o), o);
    LeadsOn(w, w1, w2);
    LeadsOn(w, w2, w');
  }

  // ---------------------------------------------------------------------------------------
  // Convergence of runs.
  // ---------------------------------------------------------------------------------------

  /** Whatever version is the latest, a reconcile of it would not be stopped by the poll check. */
  lemma NoPanicAfterRead(w: World, cat: Catalog, at: Time)
    requires Consistent(w) && w.phase.Idle? && Current(w) == Some(cat)
    ensures UnpackDecision(cat, w.local, w.url, at) != Panic && Decide(cat, w.local, w.url, at) != Panic
  {
    var read := ReadLatest(w, cat);
    ConsistentNeverPanics(read, at);
  }

  lemma ReadLatest(w: World, cat: Catalog) returns (w': World)
    requires Consistent(w) && w.phase.Idle? && Current(w) == Some(cat)
    ensures Consistent(w') && w'.phase == Deciding(cat) && w'.local == w.local && w'.url == w.url
  {
    NextConsistent(w, Get(Latest(w)));
    w' := Next(w, Get(Latest(w)));
  }

  /**
   From every reachable idle state of an available catalog, two reconciles without errors lead to
   agreement.
   */
  lemma ReachableConverges(w: World, url: string, now: Time, events: seq<Event>, cat: Catalog, first: Oracle,
      second: Oracle)
    requires ReachedBy(w, url, now, events) && w.phase.Idle? && w.versions != [] && Current(w) == Some(cat)
        && IsLive(cat)
    requires var r := ReconcileOnce(Some(cat), w.local, w.url, first);
      r.err.None? && ReconcileOnce(r.api, r.local, w.url, second).err.None?
    ensures var r1 := ReconcileOnce(Some(cat), w.local, w.url, first);
      var r2 := ReconcileOnce(r1.api, r1.local, w.url, second);
      r2.api.Some? && Agreement(r2.api.value, r2.local, w.url)
  {
    ReachableIsConsistent(w, url, now, events);
    ConsistentConverges(w, cat, first, second);
  }

  lemma ConsistentConverges(w: World, cat: Catalog, first: Oracle, second: Oracle)
    requires Consistent(w) && w.phase.Idle? && Current(w) == Some(cat) && IsLive(cat)
    requires var r := ReconcileOnce(Some(cat), w.local, w.url, first);
      r.err.None? && ReconcileOnce(r.api, r.local, w.url, second).err.None?
    ensures var r1 := ReconcileOnce(Some(cat), w.local, w.url, first);
      var r2 := ReconcileOnce(r1.api, r1.local, w.url, second);
      && r1.api.Some? && Decide(r1.api.value, r1.local, w.url, second.startAt) != Panic
      && r2.api.Some? && Agreement(r2.api.value, r2.local, w.url)
  {
    NoPanicAfterRead(w, cat, if HasFinalizer(cat) then first.startAt else second.startAt);
    TwoRoundsAgree(cat, w.local, w.url, first, second);
  }

  lemma LeadsKeepsConsistent(w: World, w': World)
    requires Consistent(w) && Leads(w, w')
    ensures Consistent(w')
  {
    var events :| CanRun(w, events) && After(w, events) == w';
    RunConsistent(w, events);
  }

  /** The same of runs: undisturbed, the machine goes from any such state to agreement in two reconciles. */
  lemma RunsConverge(w: World, url: string, now: Time, events: seq<Event>, cat: Catalog, first: Oracle, second: Oracle)
    returns (w': World)
    requires ReachedBy(w, url, now, events) && w.phase.Idle? && w.versions != [] && Current(w) == Some(cat)
        && IsLive(cat)
    requires w.now <= first.startAt <= first.endAt <= second.startAt <= second.endAt
    requires OracleFits(w.local, cat, first)
    requires var r := ReconcileOnce(Some(cat), w.local, w.url, first);
      && r.err.None? && ReconcileOnce(r.api, r.local, w.url, second).err.None?
      && (r.api.Some? ==> OracleFits(r.local, r.api.value, second))
    ensures Leads(w, w') && w'.phase.Idle? && w'.versions != [] && Current(w').Some?
    ensures Agreement(Current(w').value, w'.local, w.url)
    ensures !w.swept ==> multiset(w'.local.content.value) == TreeBlobs(w'.local.stored.value.result.fs)
  {
    ReachableIsConsistent(w, url, now, events);
    w' := ConsistentRunsConverge(w, cat, first, second);
  }

  lemma ConsistentRunsConverge(w: World, cat: Catalog, first: Oracle, second: Oracle) returns (w': World)
    requires Consistent(w) && w.phase.Idle? && Current(w) == Some(cat) && IsLive(cat)
    requires w.now <= first.startAt <= first.endAt <= second.startAt <= second.endAt
    requires OracleFits(w.local, cat, first)
    requires var r := ReconcileOnce(Some(cat), w.local, w.url, first);
      && r.err.None? && ReconcileOnce(r.api, r.local, w.url, second).err.None?
      && (r.api.Some? ==> OracleFits(r.local, r.api.value, second))
    ensures Leads(w, w') && w'.phase.Idle? && w'.versions != [] && Current(w').Some?
    ensures Agreement(Current(w').value, w'.local, w.url)
    ensures !w.swept ==> multiset(w'.local.content.value) == TreeBlobs(w'.local.stored.value.result.fs)
  {
    NoPanicAfterRead(w, cat, first.startAt);
    ConsistentConverges(w, cat, first, second);
    var w1 := ReconcileIsRun(w, cat, first);
    LeadsKeepsConsistent(w, w1);
    w' := ReconcileIsRun(w1, Current(w1).value, second);
    LeadsOn(w, w1, w');
    LeadsKeepsConsistent(w, w');
  }

  /**
   Runs of a catalog that is being deleted: from every reachable idle state, a reconcile in which
   nothing fails leads to where nothing is held and the object is gone, or kept by others alone.
   */
  lemma DeletionCompletes(w: World, url: string, now: Time, events: seq<Event>, cat: Catalog, o: Oracle)
      returns (w': World)
    requires ReachedBy(w, url, now, events) && w.phase.Idle? && w.versions != [] && Current(w) == Some(cat)
    requires cat.spec.availability == Available && cat.deleting && HasFinalizer(cat)
    requires w.now <= o.startAt <= o.endAt && ReconcileOnce(Some(cat), w.local, w.url, o).err.None?
    ensures Leads(w, w') && w'.phase.Idle? && w'.versions != [] && Convergence.Released(cat, Current(w'), w'.local)
  {
    ReachableIsConsistent(w, url, now, events);
    DeletedIsReleased(cat, w.local, w.url, o);
    var quiet := o.(walk := Err("not reached"));
    assert ReconcileOnce(Some(cat), w.local, w.url, quiet) == ReconcileOnce(Some(cat), w.local, w.url, o);
    w' := ReconcileIsRun(w, cat, quiet);
  }
}
