/** Over all runs: what is served, and why a reconcile may leave it alone. */
module Serving {
  import opened Prelude
  import opened Layers
  import opened Api
  import opened Conditions
  import opened StatusUpdates
  import opened ImageCache
  import opened ContentStore
  import opened Reconciling
  import opened Machine
  import opened Ownership
  import opened Consistency

  // ---------------------------------------------------------------------------------------
  // Content disappears only when it should.
  // ---------------------------------------------------------------------------------------

  /** The copy that was read is unavailable or being deleted. */
  ghost predicate ToBePurged(c: Catalog) { c.spec.availability == Unavailable || c.deleting }

  /** Deleting content, on the strength of a copy that says so. */
  ghost predicate Deletes(w: World, e: Event) {
    w.phase.Deciding? && e.DeleteContentStep? && ToBePurged(w.phase.read)
  }

  /** Storing all blobs of the unpacked directory. */
  ghost predicate Replaces(w: World, e: Event) {
    w.phase.Storing? && e.StoreContentStep? && e.walk.Ok? && WalkFits(w.local.cache, w.phase.result.digest, e.walk)
  }

  /**
   An event leaves the content alone, replaces it by a complete one, or deletes it from a copy
   that calls for it.
   */
  lemma ContentChanges(w: World, e: Event)
    requires Enabled(w, e)
    ensures var content := Next(w, e).local.content;
      || content == w.local.content
      || (Replaces(w, e) && content == Some(e.walk.value))
      || (Deletes(w, e) && content.None?)
  {
    if e.UnpackImageStep? {
      assert Next(w, e).local.content == w.local.content;
    }
  }

  /**
   Over any run: if content was there and is not there at the end, there is a step in between that
   took it away, and it did so from a copy that was unavailable or being deleted.
   */
  lemma {:induction false} ContentLostOnlyByPurge(w: World, events: seq<Event>)
      returns (before: seq<Event>, cause: Event)
    requires CanRun(w, events) && w.local.content.Some? && After(w, events).local.content.None?
    ensures before + [cause] <= events && CanRun(w, before)
    ensures var w' := After(w, before);
      Enabled(w', cause) && Deletes(w', cause) && w'.local.content.Some? && Next(w', cause).local.content.None?
    decreases |events|
  {
    ContentChanges(w, events[0]);
    if Next(w, events[0]).local.content.None? {
      before, cause := [], events[0];
    } else {
      var rest;
      rest, cause := ContentLostOnlyByPurge(Next(w, events[0]), events[1..]);
      before := [events[0]] + rest;
      RunCons(w, events[0], rest);
      assert before + [cause] == [events[0]] + (rest + [cause]);
      assert events == [events[0]] + events[1..];
    }
  }

  // ---------------------------------------------------------------------------------------
  // Skipping the unpack.
  // ---------------------------------------------------------------------------------------

  /**
   If the copy that was read says that it is served, an entry of its generation was made from the
   same spec of the same object, whatever objects of the same name there were before.
   */
  lemma EntryIsOfSameSpec(w: World)
    requires Consistent(w) && w.phase.Deciding? && w.local.stored.Some? && IsServing(w.phase.read.status)
    requires w.phase.read.generation == w.local.stored.value.observedGeneration
    ensures w.versions[w.origin].Some? && w.versions[w.origin].value.uid == w.phase.read.uid
    ensures w.versions[w.origin].value.spec == w.phase.read.spec
  {
    ReadServedSince(w);
    assert w.versions[w.seen].Some? && w.versions[w.seen].value == w.phase.read;
    assert w.versions[w.origin].value.uid == w.phase.read.uid;
    if w.origin < w.seen {
      assert Older(w.versions[w.origin].value, w.versions[w.seen].value);
    }
  }

  lemma MatchIsServing(s: Status, result: UnpackResult, url: string, generation: nat)
    requires Matches(s, result, url, generation)
    ensures IsServing(s)
  {
  }

  /** Whenever the poll check is reached, there is an image source. */
  lemma ConsistentNeverPanics(w: World, at: Time)
    requires Consistent(w) && w.phase.Deciding?
    ensures UnpackDecision(w.phase.read, w.local, w.url, at) != Panic
  {
    var read := w.phase.read;
    if w.local.stored.Some? && w.local.content.Some? && read.status == ExpectedStatus(read.status, w.local, w.url, at)
       && read.generation == w.local.stored.value.observedGeneration {
      var stored := w.local.stored.value;
      ExpectedIsCurrent(read.status, stored.result, w.url, stored.observedGeneration, at);
      MatchIsServing(read.status, stored.result, w.url, stored.observedGeneration);
      EntryIsOfSameSpec(w);
    }
  }

  /** In every run: the poll check never meets a catalog without an image source. */
  lemma NeverPanics(w: World, url: string, now: Time, events: seq<Event>)
    requires ReachedBy(w, url, now, events)
    ensures !Decides(w, Panic)
  {
    ReachableIsConsistent(w, url, now, events);
    if w.phase.Deciding? { ConsistentNeverPanics(w, w.now); }
  }

  /** What a full unpack of the read copy would make of content and status. */
  ghost function FullPath(w: World, a: Answers, blobs: Content): Progress
    requires w.phase.Deciding? && UnpackCatalog(w.local.cache, w.phase.read.spec.image, a).result.Ok?
  {
    var u := UnpackCatalog(w.local.cache, w.phase.read.spec.image, a);
    StoreStep(w.local.(cache := u.cache), w.phase.read, u.result.value, Ok(blobs), w.url, w.now)
  }

  /** Answers of the registry that make the spec resolve to the digest of the entry. */
  ghost predicate StillResolves(w: World, a: Answers)
    requires w.phase.Deciding? && w.local.stored.Some?
  {
    && UnpackCatalog(w.local.cache, w.phase.read.spec.image, a).result.Ok?
    && UnpackCatalog(w.local.cache, w.phase.read.spec.image, a).result.value.digest
        == w.local.stored.value.result.digest
  }

  /**
   As long as the reference resolves to the same digest, the entry's resolved reference is what
   Unpack would report again.
   */
  lemma ResolvedAgain(w: World, a: Answers)
    requires Consistent(w) && Decides(w, Skip) && w.local.stored.Some? && StillResolves(w, a)
    ensures UnpackCatalog(w.local.cache, w.phase.read.spec.image, a).result.value.resolved
        == w.local.stored.value.result.resolved
  {
    SkipMeansMatch(w);
    MatchIsServing(w.phase.read.status, w.local.stored.value.result, w.url, w.phase.read.generation);
    EntryIsOfSameSpec(w);
    UnpackIsOf(w.phase.read, w.local.cache, a);
  }

  /**
   Everything a full unpack and store would make of the copy that was read is there already, but
   for the order of blobs and the time of the unpack.
   */
  ghost predicate NothingToGain(w: World, a: Answers, blobs: Content)
    requires w.phase.Deciding? && UnpackCatalog(w.local.cache, w.phase.read.spec.image, a).result.Ok?
  {
    var full := FullPath(w, a, blobs);
    && w.local.content.Some? && full.local.content.Some?
    && multiset(full.local.content.value) == multiset(w.local.content.value)
    && full.work.(status := full.work.status.(lastUnpacked := None))
       == w.phase.read.(status := w.phase.read.status.(lastUnpacked := None))
  }

  /**
   In every run: whenever a reconcile skips the unpack, a full unpack and store would give the
   same content up to the order of the blobs, and the same status up to the time of the last
   unpack, if the reference still resolves to the same digest.
   */
  lemma SkipRefinesFullPath(w: World, url: string, now: Time, events: seq<Event>, a: Answers, blobs: Content)
    requires ReachedBy(w, url, now, events) && !w.torn && Decides(w, Skip)
    requires w.local.stored.Some? && StillResolves(w, a) && Undisturbed(w.local.cache, w.phase.read.spec.image, a)
    requires WalkFits(UnpackCatalog(w.local.cache, w.phase.read.spec.image, a).cache,
        w.local.stored.value.result.digest, Ok(blobs))
    ensures NothingToGain(w, a, blobs)
  {
    ReachableIsConsistent(w, url, now, events);
    ConsistentSkipRefines(w, a, blobs);
  }

  lemma ConsistentSkipRefines(w: World, a: Answers, blobs: Content)
    requires Consistent(w) && !w.torn && Decides(w, Skip)
    requires w.local.stored.Some? && StillResolves(w, a) && Undisturbed(w.local.cache, w.phase.read.spec.image, a)
    requires WalkFits(UnpackCatalog(w.local.cache, w.phase.read.spec.image, a).cache,
        w.local.stored.value.result.digest, Ok(blobs))
    ensures NothingToGain(w, a, blobs)
  {
    ResolvedAgain(w, a);
    SkipMeansMatch(w);
    var image := w.phase.read.spec.image;
    UnpackKeepsCacheComplete(w.local.cache, image, a);
    UnpackResultIsThere(w.local.cache, image, a);
    SameTree(w, UnpackCatalog(w.local.cache, image, a), blobs);
    UnpackOfMatchIsNoop(w.phase.read.status, w.local.stored.value.result,
                        UnpackCatalog(w.local.cache, image, a).result.value, w.url, w.phase.read.generation, w.now);
  }

  lemma SkipMeansMatch(w: World)
    requires Decides(w, Skip)
    ensures w.local.stored.Some? && w.local.content.Some?
    ensures w.phase.read.generation == w.local.stored.value.observedGeneration
    ensures Matches(w.phase.read.status, w.local.stored.value.result, w.url, w.phase.read.generation)
    ensures OnlyKnown(w.phase.read.status.conditions)
  {
    ExpectedIsCurrent(w.phase.read.status, w.local.stored.value.result, w.url, w.local.stored.value.observedGeneration,
      w.now);
  }

  lemma SameTree(w: World, u: Unpacked, blobs: Content)
    requires Consistent(w) && !w.torn && w.phase.Deciding? && w.local.stored.Some?
    requires u.result.Ok? && u.result.value.digest == w.local.stored.value.result.digest
    requires Built(u.result.value.digest) == Some(u.result.value.fs)
    requires u.result.value.digest in Dirs(u.cache) && Dirs(u.cache)[u.result.value.digest].tree == u.result.value.fs
    requires multiset(blobs) == TreeBlobs(Dirs(u.cache)[u.result.value.digest].tree)
    ensures w.local.content.Some? && multiset(w.local.content.value) == multiset(blobs)
  {
  }
}
