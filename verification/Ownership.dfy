/**
 Over all runs: nothing the controller keeps for a catalog outlives the API object that
 carries its finalizer.
 */
module Ownership {
  import opened Prelude
  import opened Api
  import opened ImageCache
  import opened Reconciling
  import opened Machine

  // ---------------------------------------------------------------------------------------
  // The history of the object.
  // ---------------------------------------------------------------------------------------

  /**
   `b` is a later version of the same object: no smaller generation, the same generation only
   with the same spec, and once it is being deleted the finalizer does not come back.
   */
  ghost predicate Older(a: Catalog, b: Catalog) {
    && a.uid == b.uid && a.generation <= b.generation
    && (a.generation == b.generation ==> a.spec == b.spec && a.deleting == b.deleting)
    && (a.deleting ==> b.deleting && (HasFinalizer(b) ==> HasFinalizer(a)))
  }

  ghost predicate WellAged(vs: seq<Option<Catalog>>) {
    && (forall i :: 0 <= i < |vs| && vs[i].Some? ==>
        vs[i].value.uid <= i && (vs[i].value.deleting ==> vs[i].value.finalizers != []))
    && (forall i, j :: 0 <= i < j < |vs| && vs[i].Some? && vs[j].Some? && vs[i].value.uid == vs[j].value.uid ==>
          Older(vs[i].value, vs[j].value))
  }

  /** What may follow in the history: nothing, a new object, or a later version of the present one. */
  ghost predicate Follows(vs: seq<Option<Catalog>>, v: Option<Catalog>)
    requires vs != []
  {
    v.Some? ==>
      && (v.value.deleting ==> v.value.finalizers != [])
      && (v.value.uid == |vs| || (vs[|vs| - 1].Some? && Older(vs[|vs| - 1].value, v.value)))
  }

  lemma AppendWellAged(vs: seq<Option<Catalog>>, v: Option<Catalog>)
    requires vs != [] && WellAged(vs) && Follows(vs, v)
    ensures WellAged(vs + [v])
  {
    var all := vs + [v];
    forall i | 0 <= i < |vs| && vs[i].Some? && v.Some? && vs[i].value.uid == v.value.uid
      ensures Older(vs[i].value, v.value)
    {
      assert i < |vs| - 1 ==> Older(vs[i].value, vs[|vs| - 1].value);
    }
  }

  /** Same object, same spec, same finalizers; the status may differ. */
  ghost predicate SameMeta(a: Catalog, b: Catalog) {
    a == b.(status := a.status)
  }

  /** Same object and spec; status and finalizers may differ. */
  ghost predicate SameObject(a: Catalog, b: Catalog) {
    a == b.(status := a.status, finalizers := a.finalizers)
  }

  /** The finalizer is not added to an object that is being deleted. */
  ghost predicate AddsOnlyToLive(read: Catalog, work: Catalog) {
    read.deleting && HasFinalizer(work) ==> HasFinalizer(read)
  }

  ghost predicate HasWork(p: Phase) { !p.Idle? && !p.Deciding? && !p.Storing? }

  ghost predicate PhaseFits(w: World) {
    && w.versions != [] && w.seen < |w.versions|
    && (!w.phase.Idle? ==> w.versions[w.seen] == Some(w.phase.read))
    && (HasWork(w.phase) ==> SameObject(w.phase.work, w.phase.read) && AddsOnlyToLive(w.phase.read, w.phase.work))
    && (w.phase.WritingFinalizers? ==>
          && w.seen <= w.phase.at < |w.versions|
          && forall k :: w.seen <= k <= w.phase.at ==>
              w.versions[k].Some? && SameMeta(w.versions[k].value, w.phase.read))
  }

  ghost predicate WellFormed(w: World) { PhaseFits(w) && WellAged(w.versions) }

  lemma UserFollows(w: World, e: Event)
    requires PhaseFits(w) && WellAged(w.versions) && Enabled(w, e) && IsUserEvent(e)
    ensures Follows(w.versions, UserVersion(w, e))
  {
  }

  lemma WriteFollows(w: World, e: Event)
    requires PhaseFits(w) && WellAged(w.versions) && Fits(w, e) && IsWrite(e) && Written(w, e).Some?
    ensures Follows(w.versions, Written(w, e).value)
  {
  }

  lemma UserFits(w: World, e: Event)
    requires WellFormed(w) && Enabled(w, e) && IsUserEvent(e)
    ensures WellFormed(Next(w, e))
  {
    UserFollows(w, e);
    AppendWellAged(w.versions, UserVersion(w, e));
  }

  /** The version a write makes has the metadata of the one it starts from, apart from finalizers. */
  lemma WritePhaseFits(w: World, e: Event)
    requires PhaseFits(w) && Fits(w, e) && IsWrite(e)
    ensures PhaseFits(WriteStep(w, e))
  {
  }

  lemma WriteFits(w: World, e: Event)
    requires WellFormed(w) && Fits(w, e) && IsWrite(e)
    ensures WellFormed(WriteStep(w, e)) && w.versions <= WriteStep(w, e).versions
  {
    WritePhaseFits(w, e);
    if Written(w, e).Some? {
      WriteFollows(w, e);
      AppendWellAged(w.versions, Written(w, e).value);
    }
  }

  lemma EnvironmentFits(w: World, e: Event)
    requires PhaseFits(w) && Fits(w, e) && IsEnvironment(e)
    ensures PhaseFits(EnvironmentStep(w, e)) && EnvironmentStep(w, e).versions == w.versions
  {
  }

  lemma UnpackFits(w: World, u: Unpacked, torn: bool)
    requires PhaseFits(w) && w.phase.Deciding?
    ensures PhaseFits(AfterUnpack(w, u, torn)) && AfterUnpack(w, u, torn).versions == w.versions
  {
  }

  lemma PurgeFits(w: World, e: Event)
    requires PhaseFits(w) && Fits(w, e) && (e.DeleteContentStep? || e.CleanupCacheStep?)
    ensures PhaseFits(ControllerStep(w, e)) && ControllerStep(w, e).versions == w.versions
  {
  }

  lemma StoreFits(w: World, e: Event)
    requires PhaseFits(w) && Fits(w, e) && (e.StoreContentStep? || e.RecordEntry?)
    ensures PhaseFits(ControllerStep(w, e)) && ControllerStep(w, e).versions == w.versions
  {
  }

  lemma ReadFits(w: World, e: Event)
    requires PhaseFits(w) && Fits(w, e) && (e.Get? || e.Finish? || e.SettleEntry?)
    ensures PhaseFits(ControllerStep(w, e)) && ControllerStep(w, e).versions == w.versions
  {
  }

  /** Nothing but status and finalizers is ever changed in the working copy. */
  lemma StepFits(w: World, e: Event)
    requires WellFormed(w) && Fits(w, e) && !IsUserEvent(e) && !IsWrite(e)
    ensures WellFormed(Next(w, e)) && Next(w, e).versions == w.versions
  {
    if IsEnvironment(e) {
      EnvironmentFits(w, e);
    } else if e.UnpackImageStep? {
      UnpackFits(w, UnpackCatalog(w.local.cache, w.phase.read.spec.image, e.answers), TornBy(w, e.answers));
    } else if e.DeleteContentStep? || e.CleanupCacheStep? {
      PurgeFits(w, e);
    } else if e.StoreContentStep? || e.RecordEntry? {
      StoreFits(w, e);
    } else {
      ReadFits(w, e);
    }
  }

  lemma NextFits(w: World, e: Event)
    requires WellFormed(w) && Enabled(w, e)
    ensures WellFormed(Next(w, e)) && w.versions <= Next(w, e).versions
  {
    if IsUserEvent(e) {
      UserFits(w, e);
    } else if IsWrite(e) {
      WriteFits(w, e);
    } else {
      StepFits(w, e);
    }
  }

  // ---------------------------------------------------------------------------------------
  // The finalizer.
  // ---------------------------------------------------------------------------------------

  /** A version that a reconcile would unpack, with the controller's finalizer on it. */
  ghost predicate Unpackable(v: Option<Catalog>) {
    v.Some? && v.value.spec.availability == Available && !v.value.deleting && HasFinalizer(v.value)
  }

  /** Being deleted and still there, but not because of this controller. */
  ghost predicate HeldByOthers(v: Option<Catalog>) {
    v.Some? && v.value.spec.availability == Available && v.value.deleting && !HasFinalizer(v.value)
  }

  /** From version i on the object exists and carries the finalizer. */
  ghost predicate Anchored(vs: seq<Option<Catalog>>, i: nat) {
    && i < |vs| && vs[i].Some?
    && forall j :: i <= j < |vs| ==> vs[j].Some? && vs[j].value.uid == vs[i].value.uid && HasFinalizer(vs[j].value)
  }

  /** Whatever version the controller may still read, if it would unpack it, the finalizer is in place. */
  ghost predicate Owned(vs: seq<Option<Catalog>>, seen: nat) {
    forall i: nat :: seen <= i < |vs| && Unpackable(vs[i]) ==> Anchored(vs, i)
  }

  /** Content, cache and entry stem from a version since which the finalizer has been in place. */
  ghost predicate Rooted(w: World) {
    HoldsNothing(w.local)
      || (w.origin <= w.seen < |w.versions| && Unpackable(w.versions[w.origin]) && Anchored(w.versions, w.origin))
  }

  /** A reconcile that is about to give the finalizer up has deleted everything before. */
  ghost predicate Released(w: World) {
    && (w.phase.Purging? ==> w.local.content.None? && !Unpackable(Some(w.phase.read)))
    && (w.phase.Purging? || w.phase.Recording? ==> w.phase.work.finalizers == w.phase.read.finalizers)
    && ((w.phase.Returned? || w.phase.WritingStatus? || w.phase.WritingFinalizers?)
        && HasFinalizer(w.phase.read) && !HasFinalizer(w.phase.work)
        ==> HoldsNothing(w.local) && !Unpackable(Some(w.phase.read)))
  }

  ghost predicate Guarded(w: World)
    requires PhaseFits(w)
  {
    && Owned(w.versions, w.seen) && Rooted(w) && Released(w)
    && (w.phase.Storing? || w.phase.Recording? ==> Unpackable(Some(w.phase.read)) && w.origin == w.seen)
  }

  /** The next version keeps the finalizer, if the present one has it. */
  ghost predicate KeepsFinalizer(vs: seq<Option<Catalog>>, v: Option<Catalog>)
    requires vs != []
  {
    var last := vs[|vs| - 1];
    last.Some? && HasFinalizer(last.value) ==> v.Some? && v.value.uid == last.value.uid && HasFinalizer(v.value)
  }

  lemma AppendAnchored(vs: seq<Option<Catalog>>, v: Option<Catalog>, i: nat)
    requires vs != [] && Anchored(vs, i) && KeepsFinalizer(vs, v)
    ensures Anchored(vs + [v], i)
  {
    assert vs[|vs| - 1].Some? && HasFinalizer(vs[|vs| - 1].value);
  }

  lemma AppendOwned(vs: seq<Option<Catalog>>, v: Option<Catalog>, seen: nat)
    requires vs != [] && Owned(vs, seen) && KeepsFinalizer(vs, v)
    ensures Owned(vs + [v], seen)
  {
    var all := vs + [v];
    forall i: nat | seen <= i < |all| && Unpackable(all[i])
      ensures Anchored(all, i)
    {
      if i < |vs| { AppendAnchored(vs, v, i); }
    }
  }

  lemma AppendGuarded(w: World, v: Option<Catalog>)
    requires PhaseFits(w) && Owned(w.versions, w.seen) && Rooted(w) && KeepsFinalizer(w.versions, v)
    ensures Owned(w.versions + [v], w.seen) && Rooted(Append(w, v))
  {
    AppendOwned(w.versions, v, w.seen);
    if !HoldsNothing(w.local) { AppendAnchored(w.versions, v, w.origin); }
  }

  lemma UserGuarded(w: World, e: Event)
    requires WellFormed(w) && Guarded(w) && Enabled(w, e) && IsUserEvent(e)
    ensures WellFormed(Next(w, e)) && Guarded(Next(w, e))
  {
    UserFits(w, e);
    AppendGuarded(w, UserVersion(w, e));
  }

  /** Nothing comes to be held that was not, and the reconcile goes on or is cut off. */
  ghost predicate Shrinks(w: World, w': World) {
    && w'.versions == w.versions && w'.seen == w.seen && w'.origin == w.origin
    && (w'.phase == w.phase || w'.phase.Idle?)
    && w'.local.content == w.local.content && (HoldsNothing(w.local) ==> HoldsNothing(w'.local))
  }

  lemma ShrinkGuarded(w: World, w': World)
    requires PhaseFits(w) && Guarded(w) && Shrinks(w, w')
    ensures PhaseFits(w') && Guarded(w')
  {
  }

  lemma EnvironmentShrinks(w: World, e: Event)
    requires Fits(w, e) && IsEnvironment(e) && !e.KillInUnpack?
    ensures Shrinks(w, EnvironmentStep(w, e))
  {
  }

  /** A kill leaves what it leaves, under the version that was being unpacked, or nothing. */
  lemma KillGuarded(w: World, a: Answers, left: Cache)
    requires WellFormed(w) && Guarded(w) && w.phase.Deciding?
    requires Unpackable(w.versions[w.seen]) || (w.local.content.None? && left.None?)
    ensures Guarded(EnvironmentStep(w, KillInUnpack(a, left)))
  {
  }

  /** The steps that put something on disk or into the map. */
  ghost predicate IsFilling(e: Event) { e.UnpackImageStep? || e.StoreContentStep? || e.RecordEntry? }

  /** On the unpack path, whatever the local state and the phase become, the version read stays the anchor. */
  lemma FillingGuarded(w: World, w': World)
    requires WellFormed(w) && Guarded(w) && Unpackable(w.versions[w.seen])
    requires Fills(w, w') && PhaseFits(w')
    ensures Guarded(w')
  {
    assert Anchored(w.versions, w.seen);
  }

  /** A step on the unpack path. */
  ghost predicate Fills(w: World, w': World) {
    && w' == w.(local := w'.local, phase := w'.phase, origin := w.seen, swept := w'.swept, torn := w'.torn)
    && !w'.phase.Idle? && !w'.phase.Deciding? && !w'.phase.Purging?
    && (HasWork(w'.phase) ==> w'.phase.work.finalizers == w'.phase.read.finalizers)
  }

  lemma UnpackFills(w: World, u: Unpacked, torn: bool)
    requires w.phase.Deciding?
    ensures Fills(w, AfterUnpack(w, u, torn))
  {
  }

  lemma StoreFills(w: World, e: Event)
    requires WellFormed(w) && Guarded(w) && Fits(w, e) && (e.StoreContentStep? || e.RecordEntry?)
    ensures Fills(w, ControllerStep(w, e))
  {
  }

  lemma ReadGuarded(w: World, version: nat)
    requires PhaseFits(w) && Guarded(w) && w.phase.Idle? && w.seen <= version < |w.versions|
    ensures Guarded(AfterGet(w, version))
  {
  }

  lemma FinishGuarded(w: World)
    requires PhaseFits(w) && Guarded(w) && (Decides(w, AddFinalizer) || Decides(w, Skip)) && PhaseFits(AfterFinish(w))
    ensures Guarded(AfterFinish(w))
  {
  }

  lemma DeleteGuarded(w: World, failure: Option<bool>)
    requires PhaseFits(w) && Guarded(w) && Decides(w, Purge) && PhaseFits(AfterDelete(w, failure))
    ensures Guarded(AfterDelete(w, failure))
  {
  }

  lemma CleanupGuarded(w: World, left: Cache)
    requires PhaseFits(w) && Guarded(w) && w.phase.Purging? && PhaseFits(AfterCleanup(w, left))
    ensures Guarded(AfterCleanup(w, left))
  {
  }

  lemma SettleGuarded(w: World)
    requires PhaseFits(w) && Guarded(w) && w.phase.Returned? && PhaseFits(AfterSettle(w))
    ensures Guarded(AfterSettle(w))
  {
  }

  /** The steps that put nothing anywhere. */
  lemma EmptyingGuarded(w: World, e: Event)
    requires WellFormed(w) && Guarded(w) && Enabled(w, e)
    requires !IsUserEvent(e) && !IsEnvironment(e) && !IsWrite(e) && !IsFilling(e)
    requires PhaseFits(ControllerStep(w, e))
    ensures Guarded(ControllerStep(w, e))
  {
    match e {
      case Get(version) => ReadGuarded(w, version);
      case Finish => FinishGuarded(w);
      case DeleteContentStep(failure) => DeleteGuarded(w, failure);
      case CleanupCacheStep(left) => CleanupGuarded(w, left);
      case SettleEntry => SettleGuarded(w);
    }
  }

  lemma WritesGuarded(w: World, e: Event)
    requires WellFormed(w) && Guarded(w) && Fits(w, e) && IsWrite(e) && PhaseFits(WriteStep(w, e))
    ensures Guarded(WriteStep(w, e))
  {
    if Written(w, e).Some? {
      var v := Written(w, e).value;
      if KeepsFinalizer(w.versions, v) {
        AppendGuarded(w, v);
      } else {
        GivesUp(w, e, v);
      }
    }
  }

  /** The write that takes the finalizer away: no version that could still be read would be unpacked. */
  lemma GivesUp(w: World, e: Event, v: Option<Catalog>)
    requires WellFormed(w) && Guarded(w) && Fits(w, e) && IsWrite(e)
    requires Written(w, e) == Some(v) && !KeepsFinalizer(w.versions, v)
    ensures e.WriteFinalizersStep? && Owned(w.versions + [v], w.seen) && HoldsNothing(w.local)
  {
    if e.WriteFinalizersStep? {
      var all := w.versions + [v];
      var read, work := w.phase.read, w.phase.work;
      assert HasFinalizer(read) && !HasFinalizer(work);
      forall i: nat | w.seen <= i < |all|
        ensures !Unpackable(all[i])
      {
        if i < |w.versions| { assert SameMeta(w.versions[i].value, read); }
      }
    }
  }

  /**
   Unpacking, or being killed at it, from a copy that is held by others alone, with anything left
   afterwards.
   */
  ghost predicate FillsHeld(w: World, e: Event)
    requires Fits(w, e)
  {
    (e.UnpackImageStep? || e.KillInUnpack?) && HeldByOthers(Some(w.phase.read)) && !HoldsNothing(Next(w, e).local)
  }

  /** A failed unpack from a copy that is held by others alone, with nothing left afterwards. */
  lemma VainUnpackGuarded(w: World, u: Unpacked, torn: bool)
    requires WellFormed(w) && Guarded(w) && w.phase.Deciding? && u.result.Err?
    requires HoldsNothing(AfterUnpack(w, u, torn).local) && PhaseFits(AfterUnpack(w, u, torn))
    ensures Guarded(AfterUnpack(w, u, torn))
  {
  }

  lemma UnpackGuarded(w: World, a: Answers)
    requires WellFormed(w) && Guarded(w) && Enabled(w, UnpackImageStep(a)) && !FillsHeld(w, UnpackImageStep(a))
    requires PhaseFits(Next(w, UnpackImageStep(a)))
    ensures Guarded(Next(w, UnpackImageStep(a)))
  {
    var u := UnpackCatalog(w.local.cache, w.phase.read.spec.image, a);
    if HeldByOthers(Some(w.phase.read)) {
      if u.result.Ok? { UnpackResolves(w.local.cache, w.phase.read.spec.image, a); }
      VainUnpackGuarded(w, u, TornBy(w, a));
    } else {
      UnpackFills(w, u, TornBy(w, a));
      FillingGuarded(w, AfterUnpack(w, u, TornBy(w, a)));
    }
  }

  lemma ControllerGuarded(w: World, e: Event)
    requires WellFormed(w) && Guarded(w) && Enabled(w, e) && !FillsHeld(w, e)
    requires !IsUserEvent(e) && !IsEnvironment(e) && !IsWrite(e) && PhaseFits(Next(w, e))
    ensures Guarded(Next(w, e))
  {
    if e.UnpackImageStep? {
      UnpackGuarded(w, e.answers);
    } else if IsFilling(e) {
      StoreFills(w, e);
      FillingGuarded(w, ControllerStep(w, e));
    } else {
      EmptyingGuarded(w, e);
    }
  }

  /** Every event keeps the guard up, unless it fills from a copy that is held by others alone. */
  lemma NextGuarded(w: World, e: Event)
    requires WellFormed(w) && Guarded(w) && Enabled(w, e) && !FillsHeld(w, e)
    ensures WellFormed(Next(w, e)) && Guarded(Next(w, e))
  {
    NextFits(w, e);
    if IsUserEvent(e) {
      UserGuarded(w, e);
    } else if IsWrite(e) {
      WritesGuarded(w, e);
    } else if e.KillInUnpack? {
      KillGuarded(w, e.answers, e.left);
    } else if IsEnvironment(e) {
      EnvironmentShrinks(w, e);
      ShrinkGuarded(w, EnvironmentStep(w, e));
    } else {
      ControllerGuarded(w, e);
    }
  }

  lemma {:induction false} HistoryGrows(w: World, events: seq<Event>)
    requires WellFormed(w) && CanRun(w, events)
    ensures WellFormed(After(w, events)) && w.versions <= After(w, events).versions
    decreases |events|
  {
    if events != [] {
      NextFits(w, events[0]);
      HistoryGrows(Next(w, events[0]), events[1..]);
    }
  }

  /** No step of the run fills from a copy that is held by others alone. */
  ghost predicate NeverFillsHeld(w: World, events: seq<Event>)
    requires CanRun(w, events)
    decreases |events|
  {
    events != [] ==> !FillsHeld(w, events[0]) && NeverFillsHeld(Next(w, events[0]), events[1..])
  }

  lemma {:induction false} RunGuarded(w: World, events: seq<Event>)
    requires WellFormed(w) && Guarded(w) && CanRun(w, events) && NeverFillsHeld(w, events)
    ensures WellFormed(After(w, events)) && Guarded(After(w, events))
    decreases |events|
  {
    if events != [] {
      NextGuarded(w, events[0]);
      RunGuarded(Next(w, events[0]), events[1..]);
    }
  }

  /** Nothing is kept, or the object is there and carries the finalizer. */
  ghost predicate FinalizerCovers(w: World)
    requires w.versions != []
  {
    HoldsNothing(w.local) || (Current(w).Some? && HasFinalizer(Current(w).value))
  }

  /**
   In every run, with user edits, failed and lost writes, restarts and stale reads at any
   point: unless some step unpacked from a copy that was held by others alone, a catalog with
   content, a cache directory or an entry has an API object that carries the finalizer.
   */
  lemma NothingOutlivesFinalizer(w: World, url: string, now: Time, events: seq<Event>)
    requires ReachedBy(w, url, now, events) && NeverFillsHeld(Init(url, now), events)
    ensures w.versions != [] && FinalizerCovers(w)
  {
    RunGuarded(Init(url, now), events);
    GuardCovers(w);
  }

  /** The object that was read has not been replaced by another of the same name. */
  ghost predicate NotReplaced(w: World)
    requires w.versions != [] && !w.phase.Idle?
  {
    Current(w).Some? ==> Current(w).value.uid == w.phase.read.uid
  }

  /**
   The condition is exact, step by step: a step loses the cover exactly if it fills from a copy
   that is held by others alone. (With a new object of the same name in between, that object's
   finalizer may happen to cover what was filled for the old one.)
   */
  lemma CoverIsLostExactly(w: World, e: Event)
    requires WellFormed(w) && Guarded(w) && Enabled(w, e) && (FillsHeld(w, e) ==> NotReplaced(w))
    ensures Next(w, e).versions != []
    ensures FinalizerCovers(Next(w, e)) <==> !FillsHeld(w, e)
  {
    NextFits(w, e);
    if FillsHeld(w, e) {
      FillingLosesCover(w, e);
    } else {
      NextGuarded(w, e);
      GuardCovers(Next(w, e));
    }
  }

  /** The finalizer does not come back to an object that is held by others alone. */
  lemma HeldStaysBare(w: World)
    requires WellFormed(w) && !w.phase.Idle? && HeldByOthers(Some(w.phase.read)) && NotReplaced(w)
    ensures Current(w).Some? ==> !HasFinalizer(Current(w).value)
  {
    if Current(w).Some? && w.seen < Latest(w) {
      assert Older(w.versions[w.seen].value, w.versions[Latest(w)].value);
    }
  }

  lemma FillingLosesCover(w: World, e: Event)
    requires WellFormed(w) && Enabled(w, e) && FillsHeld(w, e) && NotReplaced(w)
    ensures Next(w, e).versions == w.versions && !FinalizerCovers(Next(w, e))
  {
    StepFits(w, e);
    HeldStaysBare(w);
  }

  lemma GuardCovers(w: World)
    requires PhaseFits(w) && Guarded(w)
    ensures FinalizerCovers(w)
  {
    if !HoldsNothing(w.local) {
      assert Anchored(w.versions, w.origin);
    }
  }

  /**
   In every run a reconcile changes nothing but status and finalizers of its working copy, so that
   the check for unexpected changes never stops it.
   */
  lemma NoUnexpectedFieldChange(w: World, url: string, now: Time, events: seq<Event>)
    requires ReachedBy(w, url, now, events) && HasWork(w.phase)
    ensures w.phase.work == w.phase.read.(status := w.phase.work.status, finalizers := w.phase.work.finalizers)
  {
    HistoryGrows(Init(url, now), events);
  }
}
