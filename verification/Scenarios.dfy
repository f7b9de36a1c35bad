/**
 Runs from the beginning: the one in which nothing goes wrong, and, for each property that does
 not hold of all runs, one that shows it, for every input of the kind.
 */
module Scenarios {
  import opened Prelude
  import opened Layers
  import opened Api
  import opened Conditions
  import opened StatusUpdates
  import opened ImageCache
  import opened ContentStore
  import opened Reconciling
  import opened Machine
  import opened Ownership
  import opened Consistency
  import opened Convergence
  import opened RoundsAsRuns

  /** A run from the beginning ends in `w`. */
  ghost predicate Reachable(w: World, url: string, now: Time) {
    Leads(Init(url, now), w)
  }

  lemma ReachableFits(w: World, url: string, now: Time)
    requires Reachable(w, url, now)
    ensures WellFormed(w)
  {
    var events :| CanRun(Init(url, now), events) && After(Init(url, now), events) == w;
    HistoryGrows(Init(url, now), events);
  }

  /** What a reconcile that unpacks and stores leaves. */
  lemma UnpackedRound(cat: Catalog, local: Local, url: string, o: Oracle)
    requires Decide(cat, local, url, o.startAt) == MustUnpack
        && UnpackCatalog(local.cache, cat.spec.image, o.answers).result.Ok? && o.walk.Ok?
    ensures var r, u := ReconcileOnce(Some(cat), local, url, o), UnpackCatalog(local.cache, cat.spec.image, o.answers);
      && r.local == Local(Some(StoredCatalog(cat.generation, u.result.value)), Some(o.walk.value), u.cache)
      && r.api.Some? && r.api.value == cat.(status := r.api.value.status)
  {
    UnpackedBody(cat, local, url, o);
  }

  lemma UnpackedBody(cat: Catalog, local: Local, url: string, o: Oracle)
    requires UnpackCatalog(local.cache, cat.spec.image, o.answers).result.Ok? && o.walk.Ok?
    ensures var p, u := UnpackBody(cat, local, url, o), UnpackCatalog(local.cache, cat.spec.image, o.answers);
      && p.local == Local(Some(StoredCatalog(cat.generation, u.result.value)), Some(o.walk.value), u.cache)
      && p.err.None? && p.work == cat.(status := p.work.status)
  {
  }

  // ---------------------------------------------------------------------------------------
  // Objects that are held by others alone.
  // ---------------------------------------------------------------------------------------

  /**
   An available object that is being deleted and is held by others alone is unpacked, stored and
   recorded again by the next reconcile that succeeds, and does not get the finalizer back.
   */
  lemma HeldByOthersIsRefilled(w: World, cat: Catalog, o: Oracle) returns (w': World)
    requires PhaseFits(w) && w.phase.Idle? && Current(w) == Some(cat) && HeldByOthers(Some(cat)) && w.local.stored.None?
    requires w.now <= o.startAt <= o.endAt && OracleFits(w.local, cat, o)
    requires UnpackCatalog(w.local.cache, cat.spec.image, o.answers).result.Ok? && o.walk.Ok?
    ensures Leads(w, w') && w'.phase.Idle? && w'.versions != [] && w'.url == w.url && w'.now <= o.endAt
    ensures w'.local.stored.Some? && w'.local.content == Some(o.walk.value) && w'.local.cache.Some?
    ensures Current(w').Some? && Current(w').value == cat.(status := Current(w').value.status) && !FinalizerCovers(w')
  {
    UnpackedRound(cat, w.local, w.url, o);
    UnpackResolves(w.local.cache, cat.spec.image, o.answers);
    w' := ReconcileIsRun(w, cat, o);
  }

  /** A new object with a finalizer of another controller, deleted before this one saw it. */
  lemma HeldByOthersHappens(url: string, now: Time, spec: Spec, other: Finalizer) returns (w: World)
    requires spec.availability == Available && other != DeleteServerCache
    ensures Reachable(w, url, now) && w.phase.Idle? && w.local == Local(None, None, None) && w.url == url
        && w.now == now
    ensures w.versions != [] && HeldByOthers(Current(w)) && Current(w).value.spec == spec
        && Current(w).value.finalizers == [other]
  {
    var w0 := Init(url, now);
    LeadsByStep(w0, Create(spec, [other]));
    var w1 := Next(w0, Create(spec, [other]));
    LeadsByStep(w1, RequestDelete);
    w := Next(w1, RequestDelete);
    LeadsOn(w0, w1, w);
  }

  /**
   From the beginning: for every available spec whose image can be unpacked there is a run after
   which entry, content and cache are there and the finalizer is not.
   */
  lemma FinalizerCanBeOutlived(url: string, now: Time, spec: Spec, other: Finalizer, o: Oracle) returns (w: World)
    requires spec.availability == Available && other != DeleteServerCache && now <= o.startAt <= o.endAt
    requires UnpackCatalog(None, spec.image, o.answers).result.Ok? && o.walk.Ok?
    requires var u := UnpackCatalog(None, spec.image, o.answers); WalkFits(u.cache, u.result.value.digest, o.walk)
    ensures Reachable(w, url, now) && w.phase.Idle? && w.versions != [] && !FinalizerCovers(w)
    ensures w.local.stored.Some? && w.local.content == Some(o.walk.value) && w.local.cache.Some?
    ensures Current(w).Some? && Current(w).value.deleting && Current(w).value.finalizers == [other]
  {
    var held := HeldByOthersHappens(url, now, spec, other);
    ReachableFits(held, url, now);
    UnpackedRound(Current(held).value, held.local, url, o);
    w := HeldByOthersIsRefilled(held, Current(held).value, o);
    LeadsOn(Init(url, now), held, w);
  }

  /** The object is gone, and every version the controller may still read says so. */
  ghost predicate Gone(w: World) {
    w.phase.Idle? && w.seen < |w.versions| && forall j :: w.seen <= j < |w.versions| ==> w.versions[j].None?
  }

  /** In every run after that, until an object of the same name is created, the content stays. */
  lemma {:induction false} OrphanStays(w: World, events: seq<Event>)
    requires Gone(w) && CanRun(w, events) && forall i :: 0 <= i < |events| ==> !events[i].Create?
    ensures Gone(After(w, events)) && After(w, events).local.content == w.local.content
    decreases |events|
  {
    if events != [] {
      OrphanStep(w, events[0]);
      OrphanStays(Next(w, events[0]), events[1..]);
    }
  }

  lemma OrphanStep(w: World, e: Event)
    requires Gone(w) && Enabled(w, e) && !e.Create?
    ensures Gone(Next(w, e)) && Next(w, e).local.content == w.local.content
  {
    assert Current(w).None?;
  }

  /** The last finalizer goes, and with it the object; the controller reads that. */
  lemma LastHolderLetsGo(w: World, url: string, now: Time) returns (w': World)
    requires Reachable(w, url, now) && w.phase.Idle? && w.versions != []
    requires Current(w).Some? && Current(w).value.deleting && !HasFinalizer(Current(w).value)
    ensures Reachable(w', url, now) && Gone(w') && w'.local == w.local
  {
    ReachableFits(w, url, now);
    var letGo := Edit(Current(w).value.spec, []);
    LeadsByStep(w, letGo);
    var w1 := Next(w, letGo);
    LeadsOn(Init(url, now), w, w1);
    LeadsByStep(w1, Get(Latest(w1)));
    w' := Next(w1, Get(Latest(w1)));
    LeadsOn(Init(url, now), w1, w');
  }

  /**
   And so it can be with the content of an object that was held by others: they let go, and it is
   served for good.
   */
  lemma ContentOutlivesObject(url: string, now: Time, spec: Spec, other: Finalizer, o: Oracle) returns (w: World)
    requires spec.availability == Available && other != DeleteServerCache && now <= o.startAt <= o.endAt
    requires UnpackCatalog(None, spec.image, o.answers).result.Ok? && o.walk.Ok?
    requires var u := UnpackCatalog(None, spec.image, o.answers); WalkFits(u.cache, u.result.value.digest, o.walk)
    ensures Reachable(w, url, now) && Gone(w) && w.local.content == Some(o.walk.value)
  {
    var w1 := FinalizerCanBeOutlived(url, now, spec, other, o);
    w := LastHolderLetsGo(w1, url, now);
  }

  // ---------------------------------------------------------------------------------------
  // Directories that do not hold what their digest stands for.
  // ---------------------------------------------------------------------------------------

  /** A reconcile in which everything goes well at time `at`. */
  function Smooth(at: Time, d: Digest, pulled: Image, blobs: Content): Oracle {
    Oracle(at, at, None, None,
           Answers(None, None, d, None, pulled, None, None, false, None, None, None, None, Ok([d]), map[], at, at),
           Ok(blobs), 0, Applied, Applied)
  }

  /** An available catalog by tag. */
  function TagSpec(name: string, tag: string): Spec {
    Spec(Some(ImageSource(Named(name, Some(tag), None), None)), 0, Available)
  }

  /** A new catalog, once the controller has put its finalizer on it. */
  lemma Prepared(url: string, now: Time, spec: Spec, d: Digest) returns (w: World, cat: Catalog)
    requires spec.availability == Available
    ensures Reachable(w, url, now) && WellFormed(w) && w.phase.Idle? && w.local == Local(None, None, None)
        && w.url == url && w.now <= now
    ensures Current(w) == Some(cat) && IsLive(cat) && HasFinalizer(cat) && cat.spec == spec
  {
    var w0 := Init(url, now);
    LeadsByStep(w0, Create(spec, []));
    var w1 := Next(w0, Create(spec, []));
    ReachableFits(w1, url, now);
    var created := Current(w1).value;
    var o := Smooth(now, d, d.manifest, []).(walk := Err("not reached"));
    assert Decide(created, w1.local, url, now) == AddFinalizer;
    w := ReconcileIsRun(w1, created, o);
    LeadsOn(w0, w1, w);
    ReachableFits(w, url, now);
    cat := Current(w).value;
  }

  /**
   Whatever is in the directory of the digest that a spec resolves to: the next reconcile serves
   it as that digest's content.
   */
  lemma DirectoryIsTrusted(w: World, cat: Catalog, d: Digest, o: Oracle) returns (w': World)
    requires PhaseFits(w) && w.phase.Idle? && Current(w) == Some(cat) && IsLive(cat) && HasFinalizer(cat)
        && w.local.stored.None?
    requires w.now <= o.startAt <= o.endAt && cat.spec.image.Some? && o.answers.contextErr.None?
    requires var r := ResolveReferences(cat.spec.image.value.ref, o.answers); r.Ok? && r.value.0.digest == d
    requires d in Dirs(w.local.cache) && o.walk.Ok? && multiset(o.walk.value) == TreeBlobs(Dirs(w.local.cache)[d].tree)
    ensures Leads(w, w') && w'.phase.Idle? && w'.local.cache == w.local.cache && w'.local.content == Some(o.walk.value)
    ensures w'.local.stored.Some? && w'.local.stored.value.result.digest == d
    ensures w'.local.stored.value.result.fs == Dirs(w.local.cache)[d].tree
  {
    UnpackedRound(cat, w.local, w.url, o);
    w' := ReconcileIsRun(w, cat, o);
  }

  /** With no layer unreadable, the layer loop gets through whatever can be unpacked. */
  lemma {:induction false} LoopGetsThrough(t: Tree, layers: seq<Layer>, i: nat, srcPath: string)
    requires i <= |layers| && ApplyLayers(t, layers[i..], Below(srcPath)).Some?
    ensures ApplyFrom(t, layers, i, srcPath, None) == (ApplyLayers(t, layers[i..], Below(srcPath)).value, true)
    decreases |layers| - i
  {
    if i < |layers| {
      assert layers[i..][0] == layers[i] && layers[i..][1..] == layers[i + 1..];
      LoopGetsThrough(ApplyLayer(t, layers[i], Below(srcPath)).value, layers, i + 1, srcPath);
    }
  }

  /**
   A tag that resolves to `a` and has moved to `b` by the time of the pull: the directory of `a`
   gets what `b` unpacks to.
   */
  lemma MovedTagFills(name: string, tag: string, a: Image, b: Image, at: Time, blobs: Content)
    requires Built(Digest(b)).Some?
    ensures var u := UnpackCatalog(None, TagSpec(name, tag).image, Smooth(at, Digest(a), b, blobs).answers);
      && u.result.Ok? && u.result.value.digest == Digest(a) && u.result.value.fs == Built(Digest(b)).value
      && u.cache == Some(map[Digest(a) := UnpackedDir(Built(Digest(b)).value, at)])
  {
    var answers := Smooth(at, Digest(a), b, blobs).answers;
    assert b.layers[0..] == b.layers;
    LoopGetsThrough(map[], b.layers, 0, b.configDir.value);
    assert UnpackImage(false, answers).error.None?;
    PullLeavesExactlyOne(None, CanonicalRef(name, None, Digest(a)), false, answers);
  }

  /** Idle and with no entry, the only directory being that of `d`, and `tree` in it. */
  ghost predicate Holding(w: World, cat: Catalog, spec: Spec, d: Digest, tree: Tree, now: Time) {
    && WellFormed(w) && w.phase.Idle? && Current(w) == Some(cat) && IsLive(cat) && HasFinalizer(cat) && cat.spec == spec
    && w.local.stored.None? && w.now <= now && w.local.cache == Some(map[d := UnpackedDir(tree, now)])
  }

  /** If that is not what the digest stands for, it is served all the same. */
  lemma HeldTreeIsServed(w: World, cat: Catalog, name: string, tag: string, a: Image, tree: Tree, now: Time,
      blobs: Content) returns (w': World)
    requires Holding(w, cat, TagSpec(name, tag), Digest(a), tree, now)
    requires Built(Digest(a)) != Some(tree) && multiset(blobs) == TreeBlobs(tree)
    ensures Leads(w, w') && w'.phase.Idle? && w'.local.content == Some(blobs)
    ensures w'.local.stored.Some? && w'.local.stored.value.result.digest == Digest(a)
    ensures w'.local.stored.value.result.fs == tree && !Complete(w'.local.cache)
  {
    w' := DirectoryIsTrusted(w, cat, Digest(a), Smooth(now, Digest(a), a, blobs));
    assert Digest(a) in Dirs(w'.local.cache);
  }

  /** After a restart there is no entry, and the rest is as it was. */
  lemma RestartKeeps(w: World, url: string, now: Time, cat: Catalog) returns (w': World)
    requires Reachable(w, url, now) && w.phase.Idle? && w.versions != [] && Current(w) == Some(cat)
    ensures Reachable(w', url, now) && WellFormed(w') && w'.phase.Idle? && Current(w') == Some(cat) && w'.now == w.now
    ensures w'.local == w.local.(stored := None)
  {
    ReachableFits(w, url, now);
    LeadsByStep(w, Restart);
    w' := Next(w, Restart);
    LeadsOn(Init(url, now), w, w');
    ReachableFits(w', url, now);
  }

  lemma MovedTagHolds(url: string, now: Time, name: string, tag: string, a: Image, b: Image, blobs: Content)
      returns (w: World, cat: Catalog)
    requires Built(Digest(b)).Some? && multiset(blobs) == TreeBlobs(Built(Digest(b)).value)
    ensures Reachable(w, url, now) && Holding(w, cat, TagSpec(name, tag), Digest(a), Built(Digest(b)).value, now)
  {
    var w1, read := Prepared(url, now, TagSpec(name, tag), Digest(a));
    var w2 := MovedTagRound(w1, read, name, tag, a, b, now, blobs);
    LeadsOn(Init(url, now), w1, w2);
    cat := Current(w2).value;
    w := RestartKeeps(w2, url, now, cat);
  }

  lemma MovedTagRound(w: World, cat: Catalog, name: string, tag: string, a: Image, b: Image, now: Time, blobs: Content)
      returns (w': World)
    requires WellFormed(w) && w.phase.Idle? && Current(w) == Some(cat) && IsLive(cat) && HasFinalizer(cat)
        && cat.spec == TagSpec(name, tag)
    requires w.local == Local(None, None, None) && w.now <= now
    requires Built(Digest(b)).Some? && multiset(blobs) == TreeBlobs(Built(Digest(b)).value)
    ensures Leads(w, w') && w'.phase.Idle? && w'.versions != [] && w'.now <= now
    ensures Current(w').Some? && Current(w').value == cat.(status := Current(w').value.status)
    ensures w'.local.cache == Some(map[Digest(a) := UnpackedDir(Built(Digest(b)).value, now)])
  {
    var o := Smooth(now, Digest(a), b, blobs);
    MovedTagFills(name, tag, a, b, now, blobs);
    UnpackedRound(cat, w.local, w.url, o);
    w' := ReconcileIsRun(w, cat, o);
  }

  /**
   For any two images that unpack differently: a tag that moves from one to the other between
   resolving and pulling leaves the second under the first one's digest, and after a restart it is
   found there and served again.
   */
  lemma MovedTagIsServed(url: string, now: Time, name: string, tag: string, a: Image, b: Image, blobs: Content)
      returns (w: World)
    requires Built(Digest(b)).Some? && Built(Digest(a)) != Built(Digest(b))
        && multiset(blobs) == TreeBlobs(Built(Digest(b)).value)
    ensures Reachable(w, url, now) && w.phase.Idle? && w.local.content == Some(blobs)
    ensures w.local.stored.Some? && w.local.stored.value.result.digest == Digest(a)
    ensures Some(w.local.stored.value.result.fs) == Built(Digest(b)) && !Complete(w.local.cache)
  {
    var w1, cat := MovedTagHolds(url, now, name, tag, a, b, blobs);
    w := HeldTreeIsServed(w1, cat, name, tag, a, Built(Digest(b)).value, now, blobs);
    LeadsOn(Init(url, now), w1, w);
  }

  lemma KilledUnpackHolds(url: string, now: Time, name: string, tag: string, a: Image, k: nat)
      returns (w: World, cat: Catalog)
    requires a.configDir.Some? && k <= |a.layers| && ApplyLayers(map[], a.layers[..k], Below(a.configDir.value)).Some?
    ensures Reachable(w, url, now)
    ensures Holding(w, cat, TagSpec(name, tag), Digest(a),
        ApplyLayers(map[], a.layers[..k], Below(a.configDir.value)).value, now)
  {
    var d, part := Digest(a), ApplyLayers(map[], a.layers[..k], Below(a.configDir.value)).value;
    var w1;
    w1, cat := Prepared(url, now, TagSpec(name, tag), d);
    KillIsPossible(now, name, tag, a, k);
    w := ReadAndKilled(w1, cat, Smooth(now, d, a, []).answers, Some(map[d := UnpackedDir(part, now)]));
    LeadsOn(Init(url, now), w1, w);
    ReachableFits(w, url, now);
  }

  lemma KillIsPossible(now: Time, name: string, tag: string, a: Image, k: nat)
    requires a.configDir.Some? && k <= |a.layers| && ApplyLayers(map[], a.layers[..k], Below(a.configDir.value)).Some?
    ensures var part := ApplyLayers(map[], a.layers[..k], Below(a.configDir.value)).value;
      KillCanLeave(None, TagSpec(name, tag).image, Smooth(now, Digest(a), a, []).answers,
                   Some(map[Digest(a) := UnpackedDir(part, now)]))
  {
    KilledAfterLayers(TagSpec(name, tag).image.value, Smooth(now, Digest(a), a, []).answers, k, now);
  }

  lemma ReadAndKilled(w: World, cat: Catalog, a: Answers, left: Cache) returns (w': World)
    requires WellFormed(w) && w.phase.Idle? && Current(w) == Some(cat) && w.local == Local(None, None, None)
    requires IsLive(cat) && HasFinalizer(cat) && KillCanLeave(None, cat.spec.image, a, left)
    ensures Leads(w, w') && w'.phase.Idle? && w'.versions == w.versions && w'.now == w.now
        && w'.local == Local(None, None, left)
  {
    LeadsByStep(w, Get(Latest(w)));
    var read := Next(w, Get(Latest(w)));
    w' := KillOf(read, cat, a, left);
    LeadsOn(w, read, w');
  }

  lemma KillOf(w: World, cat: Catalog, a: Answers, left: Cache) returns (w': World)
    requires w.phase == Deciding(cat) && w.versions != [] && w.seen < |w.versions| && w.local == Local(None, None, None)
    requires IsLive(cat) && HasFinalizer(cat) && KillCanLeave(None, cat.spec.image, a, left)
    ensures Leads(w, w') && w'.phase.Idle? && w'.versions == w.versions && w'.now == w.now
        && w'.local == Local(None, None, left)
  {
    var kill := KillInUnpack(a, left);
    assert Decides(w, MustUnpack);
    LeadsByStep(w, kill);
    w' := Next(w, kill);
  }

  /**
   For any image and any number of its layers: a process that is killed after applying these
   leaves a directory that is taken for the whole image by the next one, and served.
   */
  lemma KilledUnpackIsServed(url: string, now: Time, name: string, tag: string, a: Image, k: nat, blobs: Content)
      returns (w: World)
    requires a.configDir.Some? && k <= |a.layers| && ApplyLayers(map[], a.layers[..k], Below(a.configDir.value)).Some?
    requires var part := ApplyLayers(map[], a.layers[..k], Below(a.configDir.value)).value;
      Built(Digest(a)) != Some(part) && multiset(blobs) == TreeBlobs(part)
    ensures Reachable(w, url, now) && w.phase.Idle? && w.local.content == Some(blobs)
    ensures w.local.stored.Some? && w.local.stored.value.result.digest == Digest(a)
    ensures Some(w.local.stored.value.result.fs) == ApplyLayers(map[], a.layers[..k], Below(a.configDir.value))
        && !Complete(w.local.cache)
  {
    var part := ApplyLayers(map[], a.layers[..k], Below(a.configDir.value)).value;
    var w1, cat := KilledUnpackHolds(url, now, name, tag, a, k);
    w := HeldTreeIsServed(w1, cat, name, tag, a, part, now, blobs);
    LeadsOn(Init(url, now), w1, w);
  }

  // ---------------------------------------------------------------------------------------
  // A process that starts from an older list of objects.
  // ---------------------------------------------------------------------------------------

  lemma LeadsGrows(w: World, w': World)
    requires WellFormed(w) && Leads(w, w')
    ensures WellFormed(w') && w.versions <= w'.versions
  {
    var events :| CanRun(w, events) && After(w, events) == w';
    HistoryGrows(w, events);
  }

  /** A catalog with its finalizer that is made unavailable, and withdrawn. */
  lemma WithdrawnAgain(url: string, now: Time, spec: Spec, d: Digest) returns (w: World, k: nat)
    requires spec.availability == Available
    ensures Reachable(w, url, now) && WellFormed(w) && w.phase.Idle? && HoldsNothing(w.local)
    ensures k < |w.versions| && Unpackable(w.versions[k]) && w.versions[k].value.spec == spec
    ensures Current(w).Some? ==> !HasFinalizer(Current(w).value)
  {
    var w1, cat := Prepared(url, now, spec, d);
    k := Latest(w1);
    var edit := Edit(spec.(availability := Unavailable), cat.finalizers);
    LeadsByStep(w1, edit);
    var w2 := Next(w1, edit);
    LeadsOn(Init(url, now), w1, w2);
    ReachableFits(w2, url, now);
    var o := Smooth(now, d, d.manifest, []).(walk := Err("not reached"));
    w := WithdrawnRound(w2, Current(w2).value, o);
    LeadsOn(Init(url, now), w2, w);
    LeadsGrows(w2, w);
    assert w1.versions <= w2.versions;
  }

  lemma WithdrawnRound(w: World, cat: Catalog, o: Oracle) returns (w': World)
    requires WellFormed(w) && w.phase.Idle? && Current(w) == Some(cat) && cat.spec.availability == Unavailable
    requires w.now <= o.startAt <= o.endAt && o.walk.Err? && o.deleteFailure.None? && o.cleanupLeft.None?
    requires o.statusWrite == Applied && o.finalizerWrite == Applied
    ensures Leads(w, w') && w'.phase.Idle? && w'.versions != [] && HoldsNothing(w'.local)
    ensures Current(w').Some? ==> !HasFinalizer(Current(w').value)
  {
    assert ReconcileOnce(Some(cat), w.local, w.url, o).err.None?;
    UnavailableIsWithdrawn(cat, w.local, w.url, o);
    w' := ReconcileIsRun(w, cat, o);
  }

  /**
   That the controller's cache does not go back is needed: were it to start again from an older
   version than it has read, two ordinary steps would leave an unpack that no finalizer covers,
   although nothing is unpacked from a copy that is held by others.
   */
  lemma OlderListLosesCover(url: string, now: Time, name: string, tag: string, a: Image)
      returns (w: World, k: nat, events: seq<Event>)
    requires Built(Digest(a)).Some?
    ensures Reachable(w, url, now) && w.phase.Idle? && k < |w.versions|
    ensures var older := w.(seen := k);
      && CanRun(older, events) && NeverFillsHeld(older, events)
      && After(older, events).versions != [] && !FinalizerCovers(After(older, events))
  {
    w, k := WithdrawnAgain(url, now, TagSpec(name, tag), Digest(a));
    TagCanBeUnpacked(name, tag, a, now);
    var older := w.(seen := k);
    assert Current(older) == Current(w);
    events := OlderReadFills(older, k, Smooth(now, Digest(a), a, []).answers);
  }

  lemma TagCanBeUnpacked(name: string, tag: string, a: Image, now: Time)
    requires Built(Digest(a)).Some?
    ensures UnpackCatalog(None, TagSpec(name, tag).image, Smooth(now, Digest(a), a, []).answers).result.Ok?
  {
    MovedTagFills(name, tag, a, a, now, []);
  }

  lemma OlderReadFills(w: World, k: nat, a: Answers) returns (events: seq<Event>)
    requires w.phase.Idle? && HoldsNothing(w.local) && w.seen == k < |w.versions| && Unpackable(w.versions[k])
    requires UnpackCatalog(None, w.versions[k].value.spec.image, a).result.Ok?
    requires Current(w).Some? ==> !HasFinalizer(Current(w).value)
    ensures CanRun(w, events) && NeverFillsHeld(w, events) && After(w, events).versions != []
        && !FinalizerCovers(After(w, events))
  {
    var read := Next(w, Get(k));
    var unpack := UnpackImageStep(a);
    UnpackResolves(None, w.versions[k].value.spec.image, a);
    assert Decides(read, MustUnpack);
    RunOne(read, unpack);
    RunCons(w, Get(k), [unpack]);
    events := [Get(k)] + [unpack];
    assert events[1..] == [unpack] && [unpack][1..] == [];
    assert !FillsHeld(w, Get(k)) && !FillsHeld(read, unpack);
    assert NeverFillsHeld(Next(read, unpack), []);
  }

  // ---------------------------------------------------------------------------------------
  // When nothing goes wrong.
  // ---------------------------------------------------------------------------------------

  lemma CreatedIsConsistent(url: string, now: Time, spec: Spec) returns (w: World)
    ensures Reachable(w, url, now) && Consistent(w) && w.phase.Idle? && w.local == Local(None, None, None)
        && w.url == url && w.now == now && !w.swept
    ensures Current(w) == Some(Catalog(1, 1, [], false, spec, EMPTY_STATUS))
  {
    var w0, create := Init(url, now), Create(spec, []);
    LeadsByStep(w0, create);
    w := Next(w0, create);
    NextConsistent(w0, create);
  }

  lemma SmoothRounds(cat: Catalog, url: string, now: Time, name: string, tag: string, a: Image, blobs: Content)
    requires cat == Catalog(1, 1, [], false, TagSpec(name, tag), EMPTY_STATUS) && Built(Digest(a)).Some?
    ensures var none, o := Local(None, None, None), Smooth(now, Digest(a), a, blobs);
      var r := ReconcileOnce(Some(cat), none, url, o.(walk := Err("not reached")));
      && r.err.None? && r.local == none && r.api == Some(cat.(finalizers := [DeleteServerCache]))
      && ReconcileOnce(r.api, none, url, o).err.None?
  {
    MovedTagFills(name, tag, a, a, now, blobs);
    var none, o := Local(None, None, None), Smooth(now, Digest(a), a, blobs);
    assert Decide(cat, none, url, now) == AddFinalizer;
    assert [] + [DeleteServerCache] == [DeleteServerCache];
    var owned := cat.(finalizers := [DeleteServerCache]);
    assert Decide(owned, none, url, now) == MustUnpack;
    UnpackedBody(owned, none, url, o);
  }

  /**
   Every new catalog whose image can be unpacked gets, by a run of two reconciles, to where it is
   served.
   */
  lemma NewCatalogConverges(url: string, now: Time, name: string, tag: string, a: Image, blobs: Content)
      returns (w: World)
    requires Built(Digest(a)).Some? && multiset(blobs) == TreeBlobs(Built(Digest(a)).value)
    ensures Reachable(w, url, now) && w.phase.Idle? && w.versions != [] && Current(w).Some?
    ensures Agreement(Current(w).value, w.local, url)
    ensures multiset(w.local.content.value) == TreeBlobs(w.local.stored.value.result.fs)
  {
    var w1 := CreatedIsConsistent(url, now, TagSpec(name, tag));
    var cat, o := Current(w1).value, Smooth(now, Digest(a), a, blobs);
    SmoothRounds(cat, url, now, name, tag, a, blobs);
    MovedTagFills(name, tag, a, a, now, blobs);
    w := ConsistentRunsConverge(w1, cat, o.(walk := Err("not reached")), o);
    LeadsOn(Init(url, now), w1, w);
  }
}
