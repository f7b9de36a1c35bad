/**
 The unpack cache: for each catalog a directory, and in it a directory for each image digest
 that was unpacked. Registry, network and clock answers are parameters.
 */
module ImageCache {
  import opened Prelude
  import opened GoErrors
  import opened Paths
  import opened Layers
  import opened Filtering
  import opened Disk
  import opened Api

  datatype UnpackedDir = UnpackedDir(tree: Tree, modTime: Time)

  type CatalogDir = map<Digest, UnpackedDir>

  /** One catalog's part of the cache; None if its directory does not exist. */
  type Cache = Option<CatalogDir>

  /** What Unpack hands to the reconciler. `fs` is what is in the unpack directory at that time. */
  datatype UnpackResult = UnpackResult(digest: Digest, fs: Tree, resolved: CanonicalRef, unpackTime: Time,
    lastPoll: Time)

  /** How a recursive delete ends: the directory is gone, or an error leaves something there. */
  datatype Erasure = Erased | Remains(dir: UnpackedDir)

  /**
   deleteRecursive on an unpack directory. `io` is what an I/O error leaves; permissions alone
   never stop it.
   */
  function DeleteTree(dir: UnpackedDir, io: Option<UnpackedDir>): (r: Erasure)
    ensures io.None? ==> r == Erased
    ensures io.Some? ==> r == Remains(io.value)
  {
    OpenedIsRemovable(dir.tree);
    if io.Some? then Remains(io.value)
    else if Removable(OpenUp(dir.tree)) then Erased
    else Remains(dir)
  }

  /** deleteRecursive on a catalog's whole directory. */
  function DeleteAll(dirs: CatalogDir, io: Cache): (r: Cache)
    ensures r == io
  {
    assert forall d :: d in dirs ==> Removable(OpenUp(dirs[d].tree)) by {
      forall d | d in dirs ensures Removable(OpenUp(dirs[d].tree)) { OpenedIsRemovable(dirs[d].tree); }
    }
    if io.Some? then io
    else if forall d :: d in dirs ==> Removable(OpenUp(dirs[d].tree)) then None
    else Some(dirs)
  }

  /** Everything Unpack learns from outside. */
  datatype Answers = Answers(
    contextErr: Option<string>,           // source context
    manifestErr: Option<string>,          // resolving a tag
    tagDigest: Digest,                    // ... to this digest
    pullErr: Option<string>,              // copying the image
    pulled: Image,                        // ... which is this one
    openErr: Option<string>,              // reading the copied image or its config
    mkdirErr: Option<string>,             // creating the unpack directory
    mkdirMadeParent: bool,                // ... after its parent was created
    blobErr: Option<nat>,                 // the layer that cannot be read
    layerCleanup: Option<UnpackedDir>,    // what an I/O error leaves of the directory when a layer failed
    chmodErr: Option<string>,             // making the directory read-only
    cleanup: Option<UnpackedDir>,         // ... and when unpacking failed
    listing: Result<seq<Digest>, string>, // listing the catalog's directory
    stuck: CatalogDir,                    // what I/O errors leave of old images
    modTime: Time,                        // modification time of the new directory
    now: Time)

  // ---------------------------------------------------------------------------------------
  // The steps of Unpack.
  // ---------------------------------------------------------------------------------------

  /** docker.NewReference accepts a tag or a digest, but not both and not neither. */
  predicate Pullable(ref: ImageRef) {
    ref.Named? && (ref.tag.Some? <==> ref.digest.None?)
  }

  /** resolveReferences: the digest to unpack, and whether the spec itself pins it. */
  function ResolveReferences(ref: ImageRef, a: Answers): Result<(CanonicalRef, bool), GoError> {
    match ref
    case Unparsable(text) => Err(Terminal(Wrapped(ParsingReference, External(text))))
    case Named(name, tag, Some(digest)) => Ok((CanonicalRef(name, tag, digest), true))
    case Named(_, None, None) =>
      Err(Wrapped(ResolvingReference, Terminal(Plain(CreatingReference))))
    case Named(name, Some(tag), None) =>
      match a.manifestErr
      case Some(text) => Err(Wrapped(ResolvingReference, External(text)))
      case None => Ok((CanonicalRef(name, None, a.tagDigest), false))
  }

  function SuccessResult(ref: CanonicalRef, dir: UnpackedDir, unpackedAt: Time, now: Time): UnpackResult {
    UnpackResult(ref.digest, dir.tree, ref, Truncate(unpackedAt), Truncate(now))
  }

  /** The loop over the layers from the i-th on: the tree it ends with, and whether it got to the end. */
  function ApplyFrom(t: Tree, layers: seq<Layer>, i: nat, srcPath: string, blobErr: Option<nat>): (Tree, bool)
    requires i <= |layers|
    decreases |layers| - i
  {
    if i == |layers| then (t, true)
    else if blobErr == Some(i) then (t, false)
    else
      match ApplyLayer(t, layers[i], Below(srcPath))
      case None => (t, false)
      case Some(t') => ApplyFrom(t', layers, i + 1, srcPath, blobErr)
  }

  /** How unpackImage ends. `present` is what is at the unpack path then. */
  datatype ImageOutcome = ImageOutcome(error: Option<GoError>, present: Option<UnpackedDir>, madeParent: bool)

  function Failed(error: GoError, present: Option<UnpackedDir>, madeParent: bool): ImageOutcome {
    ImageOutcome(Some(error), present, madeParent)
  }

  /** wrapTerminal */
  function WrapTerminal(e: GoError, terminal: bool): GoError { if terminal then Terminal(e) else e }

  const LAYER_ERROR := Plain(ApplyingLayer)
  const CLEANUP_ERROR := Plain(MakingWritable)

  function UnpackImage(canonical: bool, a: Answers): ImageOutcome {
    if a.openErr.Some? then Failed(Wrapped(ReadingImage, External(a.openErr.value)), None, false)
    else if a.pulled.configDir.None? then
      Failed(WrapTerminal(Plain(MissingLabel), canonical), None, false)
    else if a.mkdirErr.Some? then
      Failed(Wrapped(CreatingUnpackDirectory, External(a.mkdirErr.value)), None, a.mkdirMadeParent)
    else
      var (tree, done) := ApplyFrom(map[], a.pulled.layers, 0, a.pulled.configDir.value, a.blobErr);
      if !done then
        match DeleteTree(UnpackedDir(tree, a.modTime), a.layerCleanup)
        case Erased => Failed(JoinAll(LAYER_ERROR, []), None, true)
        case Remains(dir) => Failed(JoinAll(LAYER_ERROR, [CLEANUP_ERROR]), Some(dir), true)
      else if a.chmodErr.Some? || Seal(tree).None? then
        Failed(Plain(MakingReadOnly), Some(UnpackedDir(tree, a.modTime)), true)
      else ImageOutcome(None, Some(UnpackedDir(Seal(tree).value, a.modTime)), true)
  }

  /** What is in a catalog's directory, if there is one. */
  function Dirs(cache: Cache): CatalogDir {
    if cache.Some? then cache.value else map[]
  }

  /** deleteRecursive on one of the digest directories, which may be gone already. */
  function DeleteImage(dirs: CatalogDir, d: Digest, stuck: CatalogDir): Erasure {
    if d in dirs then DeleteTree(dirs[d], if d in stuck then Some(stuck[d]) else None) else Erased
  }

  /** The loop of deleteOtherImages over a directory listing; false if a removal fails. */
  function EvictFrom(dirs: CatalogDir, listing: seq<Digest>, keep: Digest, stuck: CatalogDir): (CatalogDir, bool)
    decreases |listing|
  {
    if listing == [] then (dirs, true)
    else if listing[0] == keep then EvictFrom(dirs, listing[1..], keep, stuck)
    else
      match DeleteImage(dirs, listing[0], stuck)
      case Remains(dir) => (dirs[listing[0] := dir], false)
      case Erased => EvictFrom(dirs - {listing[0]}, listing[1..], keep, stuck)
  }

  datatype Unpacked = Unpacked(cache: Cache, result: Result<UnpackResult, GoError>)

  /** What is in a catalog's directory once unpackImage has ended. */
  function AfterImage(cache: Cache, d: Digest, image: ImageOutcome): Cache {
    if image.present.Some? then Some(Dirs(cache)[d := image.present.value])
    else if image.madeParent then Some(Dirs(cache))
    else cache
  }

  /** The recursive delete after a failure, and whether it went well; what is not there needs no delete. */
  function Discard(cache: Cache, d: Digest, io: Option<UnpackedDir>): (Cache, bool) {
    if d !in Dirs(cache) then (cache, true)
    else
      match DeleteTree(Dirs(cache)[d], io)
      case Erased => (Some(Dirs(cache) - {d}), true)
      case Remains(dir) => (Some(Dirs(cache)[d := dir]), false)
  }

  /** Unpack from the moment the image was pulled. */
  function UnpackPulled(cache: Cache, ref: CanonicalRef, canonical: bool, a: Answers): Unpacked {
    var image := UnpackImage(canonical, a);
    var after := AfterImage(cache, ref.digest, image);
    match image.error
    case Some(e) =>
      var (left, clean) := Discard(after, ref.digest, a.cleanup);
      Unpacked(left, Err(Wrapped(UnpackingImage, if clean then e else JoinAll(e, [CLEANUP_ERROR]))))
    case None =>
      match a.listing
      case Err(text) => Unpacked(after, Err(Wrapped(DeletingOldImages, External(text))))
      case Ok(listing) =>
        var (left, ok) := EvictFrom(Dirs(after), listing, ref.digest, a.stuck);
        if !ok then Unpacked(Some(left), Err(Plain(DeletingOldImages)))
        else Unpacked(Some(left), Ok(SuccessResult(ref, image.present.value, a.now, a.now)))
  }

  /** ContainersImageRegistry.Unpack for one catalog. */
  function UnpackCatalog(cache: Cache, image: Option<ImageSource>, a: Answers): Unpacked {
    if image.None? then Unpacked(cache, Err(Terminal(Plain(NilImageSource))))
    else if a.contextErr.Some? then Unpacked(cache, Err(External(a.contextErr.value)))
    else
      match ResolveReferences(image.value.ref, a)
      case Err(e) => Unpacked(cache, Err(e))
      case Ok((ref, canonical)) =>
        if ref.digest in Dirs(cache) then
          var dir := Dirs(cache)[ref.digest];
          Unpacked(cache, Ok(SuccessResult(ref, dir, dir.modTime, a.now)))
        else if !Pullable(image.value.ref) then
          Unpacked(cache, Err(Plain(CreatingSourceReference)))
        else if a.pullErr.Some? then Unpacked(cache, Err(Wrapped(CopyingImage, External(a.pullErr.value))))
        else UnpackPulled(cache, ref, canonical, a)
  }

  // ---------------------------------------------------------------------------------------
  // Which failures are terminal.
  // ---------------------------------------------------------------------------------------

  /** The label is missing from an image the spec pins by digest. */
  predicate PinnedWithoutLabel(cache: Cache, ref: ImageRef, a: Answers) {
    && ref.Named? && ref.digest.Some? && ref.tag.None? && ref.digest.value !in Dirs(cache)
    && a.pullErr.None? && a.openErr.None? && a.pulled.configDir.None?
  }

  predicate TerminalCause(cache: Cache, image: Option<ImageSource>, a: Answers) {
    || image.None?
    || (a.contextErr.None? &&
        var ref := image.value.ref;
        ref.Unparsable? || (ref.Named? && ref.tag.None? && ref.digest.None?) || PinnedWithoutLabel(cache, ref, a))
  }

  lemma UnpackImageTerminal(canonical: bool, a: Answers)
    ensures var e := UnpackImage(canonical, a).error;
      (e.Some? && IsTerminal(e.value)) <==> (canonical && a.openErr.None? && a.pulled.configDir.None?)
  {
    assert !IsTerminal(LAYER_ERROR) && !IsTerminal(CLEANUP_ERROR);
    assert forall s, t :: !IsTerminal(Wrapped(s, External(t))) by {
      assert forall t :: !IsTerminal(External(t));
    }
  }

  lemma UnpackPulledTerminal(cache: Cache, ref: CanonicalRef, canonical: bool, a: Answers)
    ensures var r := UnpackPulled(cache, ref, canonical, a).result;
      (r.Err? && IsTerminal(r.error)) <==> (canonical && a.openErr.None? && a.pulled.configDir.None?)
  {
    UnpackImageTerminal(canonical, a);
    var image := UnpackImage(canonical, a);
    if image.error.Some? {
      assert !IsTerminal(CLEANUP_ERROR);
      assert IsTerminal(JoinAll(image.error.value, [CLEANUP_ERROR])) == IsTerminal(image.error.value);
    } else {
      assert forall s, t :: !IsTerminal(Wrapped(s, External(t))) by {
        assert forall t :: !IsTerminal(External(t));
      }
    }
  }

  /**
   Unpack fails for good exactly for a missing image source, a reference that cannot be used, or a
   pinned image without the label.
   */
  lemma UnpackTerminalExact(cache: Cache, image: Option<ImageSource>, a: Answers)
    ensures var r := UnpackCatalog(cache, image, a).result;
      (r.Err? && IsTerminal(r.error)) <==> TerminalCause(cache, image, a)
  {
    if image.Some? && a.contextErr.None? {
      var ref := image.value.ref;
      var resolved := ResolveReferences(ref, a);
      if resolved.Ok? && resolved.value.0.digest !in Dirs(cache) && Pullable(ref) && a.pullErr.None? {
        UnpackPulledTerminal(cache, resolved.value.0, resolved.value.1, a);
      }
    }
  }

  // ---------------------------------------------------------------------------------------
  // What the cache holds.
  // ---------------------------------------------------------------------------------------

  /** The tree a complete unpack of an image leaves, if it can be unpacked at all. */
  function Built(d: Digest): Option<Tree> {
    if d.manifest.configDir.None? then None
    else
      match ApplyLayers(map[], d.manifest.layers, Below(d.manifest.configDir.value))
      case None => None
      case Some(t) => Seal(t)
  }

  /** Every digest directory holds all of its image. */
  ghost predicate Complete(cache: Cache) {
    forall d :: d in Dirs(cache) ==> Built(d) == Some(Dirs(cache)[d].tree)
  }

  ghost predicate AtMostOne(cache: Cache) {
    forall d, e :: d in Dirs(cache) && e in Dirs(cache) ==> d == e
  }

  /** A directory listing is accurate. */
  ghost predicate Lists(listing: Result<seq<Digest>, string>, dirs: CatalogDir) {
    listing.Ok? && forall d :: d in listing.value <==> d in dirs
  }

  /**
   The tag did not move between resolve and pull, every removal succeeds and the directory can be
   listed.
   */
  ghost predicate Undisturbed(cache: Cache, image: Option<ImageSource>, a: Answers) {
    && a.cleanup.None? && a.stuck == map[]
    && (image.Some? && ResolveReferences(image.value.ref, a).Ok? ==>
          var d := ResolveReferences(image.value.ref, a).value.0.digest;
          d !in Dirs(cache) ==>
            && a.pulled == d.manifest
            && Lists(a.listing, Dirs(cache)[d := UnpackedDir(map[], 0)]))
  }

  lemma {:induction false} ApplyFromIsApplyLayers(t: Tree, layers: seq<Layer>, i: nat, srcPath: string,
      blobErr: Option<nat>)
    requires i <= |layers| && ApplyFrom(t, layers, i, srcPath, blobErr).1
    ensures ApplyLayers(t, layers[i..], Below(srcPath)) == Some(ApplyFrom(t, layers, i, srcPath, blobErr).0)
    decreases |layers| - i
  {
    if i < |layers| {
      assert layers[i..][0] == layers[i] && layers[i..][1..] == layers[i + 1..];
      ApplyFromIsApplyLayers(ApplyLayer(t, layers[i], Below(srcPath)).value, layers, i + 1, srcPath, blobErr);
    }
  }

  /** An unpack that gets through leaves all of the image. */
  lemma UnpackImageBuilds(canonical: bool, a: Answers)
    requires UnpackImage(canonical, a).error.None?
    ensures Built(Digest(a.pulled)) == Some(UnpackImage(canonical, a).present.value.tree)
  {
    var layers := a.pulled.layers;
    ApplyFromIsApplyLayers(map[], layers, 0, a.pulled.configDir.value, a.blobErr);
    assert layers[0..] == layers;
  }

  lemma {:induction false} EvictKeepsOne(dirs: CatalogDir, listing: seq<Digest>, keep: Digest, d: Digest)
    ensures EvictFrom(dirs, listing, keep, map[]).1
    ensures d in EvictFrom(dirs, listing, keep, map[]).0 <==> d in dirs && (d in listing ==> d == keep)
    ensures d in EvictFrom(dirs, listing, keep, map[]).0 ==> EvictFrom(dirs, listing, keep, map[]).0[d] == dirs[d]
    decreases |listing|
  {
    if listing != [] {
      assert d in listing <==> d == listing[0] || d in listing[1..];
      EvictKeepsOne(if listing[0] == keep then dirs else dirs - {listing[0]}, listing[1..], keep, d);
    }
  }

  /** A successful pull leaves exactly the new directory, with all of the pulled image in it. */
  lemma PullLeavesExactlyOne(cache: Cache, ref: CanonicalRef, canonical: bool, a: Answers)
    requires a.stuck == map[]
    requires Lists(a.listing, Dirs(cache)[ref.digest := UnpackedDir(map[], 0)])
    requires UnpackImage(canonical, a).error.None?
    ensures var u := UnpackPulled(cache, ref, canonical, a);
      && u.result.Ok? && Built(Digest(a.pulled)) == Some(u.result.value.fs)
      && u.cache == Some(map[ref.digest := UnpackedDir(u.result.value.fs, a.modTime)])
  {
    UnpackImageBuilds(canonical, a);
    var dir := UnpackImage(canonical, a).present.value;
    var dirs := Dirs(cache)[ref.digest := dir];
    var left := EvictFrom(dirs, a.listing.value, ref.digest, a.stuck).0;
    forall d
      ensures d in left <==> d == ref.digest
      ensures d == ref.digest ==> left[d] == dir
    {
      EvictKeepsOne(dirs, a.listing.value, ref.digest, d);
      assert d in Dirs(cache)[ref.digest := UnpackedDir(map[], 0)] <==> d in dirs;
    }
    EvictKeepsOne(dirs, a.listing.value, ref.digest, ref.digest);
    assert left == map[ref.digest := dir];
  }

  /** Pulling by tag is sound exactly as long as what was pulled unpacks like what was resolved. */
  lemma PullIsCompleteWhenTagStands(cache: Cache, ref: CanonicalRef, canonical: bool, a: Answers)
    requires a.stuck == map[]
    requires Lists(a.listing, Dirs(cache)[ref.digest := UnpackedDir(map[], 0)])
    requires UnpackImage(canonical, a).error.None?
    ensures Complete(UnpackPulled(cache, ref, canonical, a).cache) <==> Built(ref.digest) == Built(Digest(a.pulled))
  {
    PullLeavesExactlyOne(cache, ref, canonical, a);
    assert ref.digest in Dirs(UnpackPulled(cache, ref, canonical, a).cache);
  }

  /** A failure while unpacking leaves no directory behind, and does not touch the others. */
  lemma FailedUnpackLeavesNothing(cache: Cache, ref: CanonicalRef, canonical: bool, a: Answers)
    requires ref.digest !in Dirs(cache) && a.cleanup.None? && UnpackImage(canonical, a).error.Some?
    ensures var u := UnpackPulled(cache, ref, canonical, a);
      u.result.Err? && Dirs(u.cache) == Dirs(cache)
  {
    var image := UnpackImage(canonical, a);
    if image.present.Some? {
      assert Dirs(cache)[ref.digest := image.present.value] - {ref.digest} == Dirs(cache);
    }
  }

  /**
   Unpack keeps the cache complete and at most one directory in it, and whatever it returns,
   from the cache or freshly pulled, is all of the image.
   */
  lemma UnpackKeepsCacheComplete(cache: Cache, image: Option<ImageSource>, a: Answers)
    requires Complete(cache) && AtMostOne(cache) && Undisturbed(cache, image, a)
    ensures var u := UnpackCatalog(cache, image, a);
      && Complete(u.cache) && AtMostOne(u.cache)
      && (u.result.Ok? ==> Built(u.result.value.digest) == Some(u.result.value.fs))
      && (u.result.Ok? ==> u.result.value.digest in Dirs(u.cache))
      && (u.result.Err? ==> Dirs(u.cache) == Dirs(cache))
  {
    if image.Some? && a.contextErr.None? && ResolveReferences(image.value.ref, a).Ok? {
      var (ref, canonical) := ResolveReferences(image.value.ref, a).value;
      if ref.digest !in Dirs(cache) && Pullable(image.value.ref) && a.pullErr.None? {
        if UnpackImage(canonical, a).error.None? {
          PullLeavesExactlyOne(cache, ref, canonical, a);
          assert Digest(a.pulled) == ref.digest;
        } else {
          FailedUnpackLeavesNothing(cache, ref, canonical, a);
        }
      }
    }
  }

  /** A pull that nothing disturbed. */
  ghost predicate Renews(cache: Cache, image: Option<ImageSource>, a: Answers) {
    && Undisturbed(cache, image, a) && UnpackCatalog(cache, image, a).result.Ok?
    && UnpackCatalog(cache, image, a).result.value.digest !in Dirs(cache)
  }

  /** Whatever was in the cache before, an undisturbed pull leaves a complete one. */
  lemma RenewalCompletes(cache: Cache, image: Option<ImageSource>, a: Answers)
    requires Renews(cache, image, a)
    ensures var u := UnpackCatalog(cache, image, a);
      Complete(u.cache) && AtMostOne(u.cache) && Built(u.result.value.digest) == Some(u.result.value.fs)
  {
    UnpackResolves(cache, image, a);
    var (ref, canonical) := ResolveReferences(image.value.ref, a).value;
    PullLeavesExactlyOne(cache, ref, canonical, a);
    assert Digest(a.pulled) == ref.digest;
  }

  // ---------------------------------------------------------------------------------------
  // What an unpacked directory is of its image.
  // ---------------------------------------------------------------------------------------

  /**
   Nothing in it can be written: directories are 0500, files 0400, and there is nothing but these
   and symbolic links.
   */
  ghost predicate ReadOnly(t: Tree) {
    forall q :: q in t ==>
      && !t[q].Special? && (t[q].Dir? ==> t[q].mode == 0x140) && (t[q].File? ==> t[q].mode == 0x100)
  }

  lemma BuiltIsReadOnly(d: Digest)
    ensures Built(d).Some? ==> ReadOnly(Built(d).value)
  {
  }

  /** The two trees hold the same, apart from modes. */
  ghost predicate SameContents(a: Tree, b: Tree) {
    a.Keys == b.Keys && forall q :: q in a ==>
      match a[q]
      case Dir(_) => b[q].Dir?
      case File(_, blobs) => b[q].File? && b[q].blobs == blobs
      case Symlink(target) => b[q] == Symlink(target)
      case Special(_) => b[q].Special?
  }

  /**
   For an image whose entries are well named and that can be unpacked as a whole: what an unpack
   leaves is the config directory that the label names, with all that is in it, and nothing else
   but the directories that lead there.
   */
  lemma BuiltIsConfigDirectory(image: Image)
    requires image.configDir.Some? && Built(Digest(image)).Some?
    requires var src := image.configDir.value; !DoubleSlash(src) && !StartsUp(Parse(TrimSlash(src)))
    requires WellNamedLayers(SourceWords(image.configDir.value), image.layers)
    requires ApplyLayers(map[], image.layers, Everything).Some?
    ensures var s, built := SourceWords(image.configDir.value), Built(Digest(image)).value;
      && SameContents(Subtree(ApplyLayers(map[], image.layers, Everything).value, s), Subtree(built, s))
      && forall q :: q in built ==> s <= q || (Above(q, s) && built[q].Dir?)
  {
    var src := image.configDir.value;
    FilteredUnpackByNames(src, image.layers);
    SealKeepsContents(ApplyLayers(map[], image.layers, Below(src)).value, SourceWords(src));
  }

  lemma SealKeepsContents(t: Tree, s: Path)
    requires Seal(t).Some?
    ensures SameContents(Subtree(t, s), Subtree(Seal(t).value, s)) && Seal(t).value.Keys == t.Keys
    ensures forall q :: q in t ==> (t[q].Dir? <==> Seal(t).value[q].Dir?)
  {
  }

  // ---------------------------------------------------------------------------------------
  // When Unpack succeeds.
  // ---------------------------------------------------------------------------------------

  /** The layer loop gets through exactly if no layer is unreadable and all of them apply. */
  lemma {:induction false} LoopSucceeds(t: Tree, layers: seq<Layer>, i: nat, srcPath: string, blobErr: Option<nat>)
    requires i <= |layers|
    ensures ApplyFrom(t, layers, i, srcPath, blobErr).1 <==>
      !(blobErr.Some? && i <= blobErr.value < |layers|) && ApplyLayers(t, layers[i..], Below(srcPath)).Some?
    decreases |layers| - i
  {
    if i < |layers| {
      assert layers[i..][0] == layers[i] && layers[i..][1..] == layers[i + 1..];
      if blobErr != Some(i) && ApplyLayer(t, layers[i], Below(srcPath)).Some? {
        LoopSucceeds(ApplyLayer(t, layers[i], Below(srcPath)).value, layers, i + 1, srcPath, blobErr);
      }
    }
  }

  /** What unpackImage needs of the pulled image and of the disk. */
  ghost predicate CanExtract(a: Answers) {
    && a.openErr.None? && a.mkdirErr.None? && a.chmodErr.None? && Built(Digest(a.pulled)).Some?
    && !(a.blobErr.Some? && a.blobErr.value < |a.pulled.layers|)
  }

  lemma ExtractSucceeds(canonical: bool, a: Answers)
    ensures UnpackImage(canonical, a).error.None? <==> CanExtract(a)
  {
    if a.pulled.configDir.Some? {
      var layers, src := a.pulled.layers, a.pulled.configDir.value;
      LoopSucceeds(map[], layers, 0, src, a.blobErr);
      assert layers[0..] == layers;
      if ApplyFrom(map[], layers, 0, src, a.blobErr).1 {
        ApplyFromIsApplyLayers(map[], layers, 0, src, a.blobErr);
      }
    }
  }

  /** Eviction gets through exactly if no removal of another image that is there hits an I/O error. */
  ghost predicate CanEvict(dirs: CatalogDir, listing: seq<Digest>, keep: Digest, stuck: CatalogDir) {
    forall d :: d in listing && d != keep && d in dirs ==> d !in stuck
  }

  lemma {:induction false} EvictSucceeds(dirs: CatalogDir, listing: seq<Digest>, keep: Digest, stuck: CatalogDir)
    ensures EvictFrom(dirs, listing, keep, stuck).1 <==> CanEvict(dirs, listing, keep, stuck)
    decreases |listing|
  {
    if listing != [] {
      var first, rest := listing[0], listing[1..];
      assert forall d :: d in listing <==> d == first || d in rest;
      if first == keep {
        EvictSucceeds(dirs, rest, keep, stuck);
      } else if DeleteImage(dirs, first, stuck).Erased? {
        EvictSucceeds(dirs - {first}, rest, keep, stuck);
      }
    }
  }

  /**
   Unpack succeeds exactly if the spec resolves and either the directory is there, or the image
   can be pulled and extracted, the catalog's directory listed and every other image in it removed.
   */
  lemma UnpackSucceedsExactly(cache: Cache, image: Option<ImageSource>, a: Answers)
    ensures UnpackCatalog(cache, image, a).result.Ok? <==>
      && image.Some? && a.contextErr.None? && ResolveReferences(image.value.ref, a).Ok?
      && var d := ResolveReferences(image.value.ref, a).value.0.digest;
         || d in Dirs(cache)
         || (&& Pullable(image.value.ref) && a.pullErr.None? && CanExtract(a)
             && a.listing.Ok? && CanEvict(Dirs(cache), a.listing.value, d, a.stuck))
  {
    if image.Some? && a.contextErr.None? && ResolveReferences(image.value.ref, a).Ok? {
      var (ref, canonical) := ResolveReferences(image.value.ref, a).value;
      ExtractSucceeds(canonical, a);
      if ref.digest !in Dirs(cache) && a.listing.Ok? && UnpackImage(canonical, a).error.None? {
        EvictSucceeds(Dirs(AfterImage(cache, ref.digest, UnpackImage(canonical, a))), a.listing.value, ref.digest,
          a.stuck);
      }
    }
  }

  // ---------------------------------------------------------------------------------------
  // What is there when the process is killed during an unpack.
  // ---------------------------------------------------------------------------------------

  /** The tree after all entries of the first k layers and the first m of the next. */
  function TreeAfter(image: Image, k: nat, m: nat): Option<Tree>
    requires image.configDir.Some? && k <= |image.layers| && (k < |image.layers| ==> m <= |image.layers[k]|)
  {
    var scope := Below(image.configDir.value);
    match ApplyLayers(map[], image.layers[..k], scope)
    case None => None
    case Some(t) => if k == |image.layers| then Some(t) else ApplyLayer(t, image.layers[k][..m], scope)
  }

  /** A tree on the way to the whole image. */
  ghost predicate IsOnTheWay(image: Image, t: Tree) {
    && image.configDir.Some?
    && exists k: nat, m: nat ::
         && k <= |image.layers| && (k < |image.layers| ==> m <= |image.layers[k]|)
         && TreeAfter(image, k, m) == Some(t)
  }

  /** `t` while permissions are taken away: some nodes are sealed, the others are not yet. */
  ghost predicate PartlySealed(t: Tree, now: Tree) {
    now.Keys == t.Keys && forall q :: q in t ==> now[q] == t[q] || now[q] == SealNode(t[q])
  }

  /** `t` while it is removed: some nodes are gone, and directories may be open already. */
  ghost predicate PartlyRemoved(t: Tree, now: Tree) {
    now.Keys <= t.Keys && forall q :: q in now ==> now[q] == t[q] || now[q] == OpenNode(t[q])
  }

  /**
   While the image is unpacked into the directory of `d`, and removed from it again after a
   failure; nothing else changes.
   */
  ghost predicate MidUnpack(cache: Cache, d: Digest, pulled: Image, left: Cache) {
    && left.Some? && left.value - {d} == Dirs(cache) - {d}
    && (d in left.value ==>
          exists t :: IsOnTheWay(pulled, t)
            && (PartlySealed(t, left.value[d].tree) || PartlyRemoved(t, left.value[d].tree)))
  }

  /**
   While other images are removed: the new one is all there, and of the others there is at most
   what was.
   */
  ghost predicate MidEviction(cache: Cache, d: Digest, pulled: Image, left: Cache) {
    && left.Some? && d in left.value && Built(Digest(pulled)) == Some(left.value[d].tree)
    && forall e :: e in left.value && e != d ==>
        e in Dirs(cache) && PartlyRemoved(Dirs(cache)[e].tree, left.value[e].tree)
  }

  /** What a kill at some point of Unpack can leave: what was there, or something in between. */
  ghost predicate KillCanLeave(cache: Cache, image: Option<ImageSource>, a: Answers, left: Cache) {
    || left == cache
    || (&& image.Some? && a.contextErr.None? && Pullable(image.value.ref) && a.pullErr.None? && a.openErr.None?
        && ResolveReferences(image.value.ref, a).Ok?
        && var d := ResolveReferences(image.value.ref, a).value.0.digest;
           && d !in Dirs(cache)
           && (MidUnpack(cache, d, a.pulled, left) || MidEviction(cache, d, a.pulled, left)))
  }

  /** After all entries of k layers, before any permission is taken away. */
  lemma KilledAfterLayers(image: ImageSource, a: Answers, k: nat, at: Time)
    requires a.contextErr.None? && Pullable(image.ref) && a.pullErr.None? && a.openErr.None?
        && ResolveReferences(image.ref, a).Ok?
    requires a.pulled.configDir.Some? && k <= |a.pulled.layers|
    requires ApplyLayers(map[], a.pulled.layers[..k], Below(a.pulled.configDir.value)).Some?
    ensures var t := ApplyLayers(map[], a.pulled.layers[..k], Below(a.pulled.configDir.value)).value;
      var d := ResolveReferences(image.ref, a).value.0.digest;
      KillCanLeave(None, Some(image), a, Some(map[d := UnpackedDir(t, at)]))
  {
    var t := ApplyLayers(map[], a.pulled.layers[..k], Below(a.pulled.configDir.value)).value;
    var d := ResolveReferences(image.ref, a).value.0.digest;
    if k < |a.pulled.layers| {
      assert a.pulled.layers[k][..0] == [];
      assert ApplyEntries(Unpacking(t, {}), [], Below(a.pulled.configDir.value)) == Some(Unpacking(t, {}));
    }
    assert TreeAfter(a.pulled, k, 0) == Some(t);
    assert IsOnTheWay(a.pulled, t) && PartlySealed(t, t);
    var left: CatalogDir := map[d := UnpackedDir(t, at)];
    assert left - {d} == Dirs(None) - {d};
    assert MidUnpack(None, d, a.pulled, Some(left));
  }

  /**
   Whatever the registry and the disk answer, a result that is Ok carries the reference the spec
   resolved to.
   */
  lemma UnpackResolves(cache: Cache, image: Option<ImageSource>, a: Answers)
    requires UnpackCatalog(cache, image, a).result.Ok?
    ensures image.Some? && a.contextErr.None? && ResolveReferences(image.value.ref, a).Ok?
    ensures var r := UnpackCatalog(cache, image, a).result.value;
      && r.resolved == ResolveReferences(image.value.ref, a).value.0 && r.digest == r.resolved.digest
      && Truncate(r.unpackTime) == r.unpackTime && r.lastPoll == Truncate(a.now)
      && r.unpackTime == Truncate(if r.digest in Dirs(cache) then Dirs(cache)[r.digest].modTime else a.now)
      && UnpackCatalog(cache, image, a).cache.Some?
  {
  }

  lemma {:induction false} EvictSparesKept(dirs: CatalogDir, listing: seq<Digest>, keep: Digest, stuck: CatalogDir)
    requires keep in dirs
    ensures var left := EvictFrom(dirs, listing, keep, stuck).0; keep in left && left[keep] == dirs[keep]
    decreases |listing|
  {
    if listing != [] {
      if listing[0] == keep {
        EvictSparesKept(dirs, listing[1..], keep, stuck);
      } else if DeleteImage(dirs, listing[0], stuck).Erased? {
        EvictSparesKept(dirs - {listing[0]}, listing[1..], keep, stuck);
      }
    }
  }

  /** What Unpack returns is what is in the cache then. */
  lemma UnpackResultIsThere(cache: Cache, image: Option<ImageSource>, a: Answers)
    requires UnpackCatalog(cache, image, a).result.Ok?
    ensures var u := UnpackCatalog(cache, image, a);
      var r := u.result.value;
      r.digest in Dirs(u.cache) && Dirs(u.cache)[r.digest].tree == r.fs
  {
    var (ref, canonical) := ResolveReferences(image.value.ref, a).value;
    if ref.digest !in Dirs(cache) {
      EvictSparesKept(Dirs(AfterImage(cache, ref.digest, UnpackImage(canonical, a))), a.listing.value, ref.digest,
        a.stuck);
    }
  }

  /** A cache hit returns what pulling the same image again would return. */
  lemma HitEqualsPull(cache: Cache, image: ImageSource, hit: Answers, again: Answers)
    requires Complete(cache) && hit.contextErr.None? && again.contextErr.None?
    requires ResolveReferences(image.ref, hit).Ok?
        && ResolveReferences(image.ref, again) == ResolveReferences(image.ref, hit)
    requires ResolveReferences(image.ref, hit).value.0.digest in Dirs(cache)
    requires Undisturbed(None, Some(image), again) && UnpackCatalog(None, Some(image), again).result.Ok?
    ensures var r := UnpackCatalog(cache, Some(image), hit).result;
      && r.Ok? && r.value.fs == UnpackCatalog(None, Some(image), again).result.value.fs
      && r.value.resolved == UnpackCatalog(None, Some(image), again).result.value.resolved
  {
    UnpackKeepsCacheComplete(None, Some(image), again);
    UnpackResolves(None, Some(image), again);
  }

  // ---------------------------------------------------------------------------------------
  // The registry itself, working on the directories in place.
  // ---------------------------------------------------------------------------------------

  /** Maps that agree apart from one key. */
  lemma OtherKeys<K, V>(m: map<K, V>, m': map<K, V>, k: K)
    requires m - {k} == m' - {k}
    ensures forall n :: n != k ==> (n in m <==> n in m') && (n in m ==> m[n] == m'[n])
  {
    forall n | n != k
      ensures (n in m <==> n in m') && (n in m ==> m[n] == m'[n])
    {
      assert n in m <==> n in m - {k};
      assert n in m' <==> n in m' - {k};
    }
  }

  lemma UpdateTwice<K, V>(m: map<K, V>, k: K, v: V, w: V)
    ensures m[k := v][k := w] == m[k := w]
  {
  }

  class ImageRegistry {
    var dirs: map<string, CatalogDir>

    constructor ()
      ensures dirs == map[]
    {
      dirs := map[];
    }

    function CacheOf(name: string): Cache
      reads this
    {
      if name in dirs then Some(dirs[name]) else None
    }

    /** Unpack, as the reconciler calls it for a catalog. */
    method Unpack(name: string, image: Option<ImageSource>, a: Answers) returns (r: Result<UnpackResult, GoError>)
      modifies this
      ensures CacheOf(name) == UnpackCatalog(old(CacheOf(name)), image, a).cache
      ensures r == UnpackCatalog(old(CacheOf(name)), image, a).result
      ensures dirs - {name} == old(dirs) - {name}
    {
      if image.None? {
        return Err(Terminal(Plain(NilImageSource)));
      }
      if a.contextErr.Some? {
        return Err(External(a.contextErr.value));
      }
      var resolved := ResolveReferences(image.value.ref, a);
      if resolved.Err? {
        return Err(resolved.error);
      }
      var (ref, canonical) := resolved.value;
      if name in dirs && ref.digest in dirs[name] {
        var dir := dirs[name][ref.digest];
        return Ok(SuccessResult(ref, dir, dir.modTime, a.now));
      }
      if !Pullable(image.value.ref) {
        return Err(Plain(CreatingSourceReference));
      }
      if a.pullErr.Some? {
        return Err(Wrapped(CopyingImage, External(a.pullErr.value)));
      }
      r := UnpackPulledImage(name, ref, canonical, a);
    }

    /** The rest of Unpack, once the image was pulled. */
    method UnpackPulledImage(name: string, ref: CanonicalRef, canonical: bool, a: Answers)
        returns (r: Result<UnpackResult, GoError>)
      requires ref.digest !in Dirs(CacheOf(name))
      modifies this
      ensures CacheOf(name) == UnpackPulled(old(CacheOf(name)), ref, canonical, a).cache
      ensures r == UnpackPulled(old(CacheOf(name)), ref, canonical, a).result
      ensures dirs - {name} == old(dirs) - {name}
    {
      var err := ExtractImage(name, ref.digest, canonical, a);
      if err.Some? {
        var clean := DiscardFailed(name, ref.digest, a.cleanup);
        return Err(Wrapped(UnpackingImage, if clean then err.value else JoinAll(err.value, [CLEANUP_ERROR])));
      }
      var dir := dirs[name][ref.digest];
      if a.listing.Err? {
        return Err(Wrapped(DeletingOldImages, External(a.listing.error)));
      }
      var ok := DeleteOtherImages(name, ref.digest, a.listing.value, a.stuck);
      if !ok {
        return Err(Plain(DeletingOldImages));
      }
      r := Ok(SuccessResult(ref, dir, a.now, a.now));
    }

    /** unpackImage: layer after layer into the digest's directory. */
    method ExtractImage(name: string, d: Digest, canonical: bool, a: Answers) returns (err: Option<GoError>)
      requires d !in Dirs(CacheOf(name))
      modifies this
      ensures err == UnpackImage(canonical, a).error
      ensures CacheOf(name) == AfterImage(old(CacheOf(name)), d, UnpackImage(canonical, a))
      ensures dirs - {name} == old(dirs) - {name}
    {
      if a.openErr.Some? {
        return Some(Wrapped(ReadingImage, External(a.openErr.value)));
      }
      if a.pulled.configDir.None? {
        return Some(WrapTerminal(Plain(MissingLabel), canonical));
      }
      var before := Dirs(CacheOf(name));
      if a.mkdirErr.Some? {
        if a.mkdirMadeParent {
          dirs := dirs[name := before];
        }
        return Some(Wrapped(CreatingUnpackDirectory, External(a.mkdirErr.value)));
      }
      var tree, done := ExtractLayers(name, d, a.pulled.configDir.value, a.pulled.layers, a);
      if !done {
        match DeleteTree(UnpackedDir(tree, a.modTime), a.layerCleanup) {
          case Erased =>
            dirs := dirs[name := before];
            return Some(JoinAll(LAYER_ERROR, []));
          case Remains(dir) =>
            dirs := dirs[name := before[d := dir]];
            return Some(JoinAll(LAYER_ERROR, [CLEANUP_ERROR]));
        }
      }
      if a.chmodErr.Some? || Seal(tree).None? {
        return Some(Plain(MakingReadOnly));
      }
      dirs := dirs[name := before[d := UnpackedDir(Seal(tree).value, a.modTime)]];
      err := None;
    }

    /** The loop of unpackImage: what is on disk grows layer by layer. */
    method ExtractLayers(name: string, d: Digest, srcPath: string, layers: seq<Layer>, a: Answers)
        returns (tree: Tree, done: bool)
      modifies this
      ensures (tree, done) == ApplyFrom(map[], layers, 0, srcPath, a.blobErr)
      ensures dirs == old(dirs)[name := old(Dirs(CacheOf(name)))[d := UnpackedDir(tree, a.modTime)]]
    {
      var before := Dirs(CacheOf(name));
      tree := map[];
      dirs := dirs[name := before[d := UnpackedDir(tree, a.modTime)]];
      for i := 0 to |layers|
        invariant dirs == old(dirs)[name := before[d := UnpackedDir(tree, a.modTime)]]
        invariant ApplyFrom(tree, layers, i, srcPath, a.blobErr) == ApplyFrom(map[], layers, 0, srcPath, a.blobErr)
      {
        var applied := if a.blobErr == Some(i) then None else ApplyLayer(tree, layers[i], Below(srcPath));
        if applied.None? {
          return tree, false;
        }
        UpdateTwice(old(dirs), name, before[d := UnpackedDir(tree, a.modTime)],
          before[d := UnpackedDir(applied.value, a.modTime)]);
        tree := applied.value;
        dirs := dirs[name := before[d := UnpackedDir(tree, a.modTime)]];
      }
      done := true;
    }

    /** The recursive delete of a directory whose unpack failed. */
    method DiscardFailed(name: string, d: Digest, io: Option<UnpackedDir>) returns (clean: bool)
      modifies this
      ensures clean <==> io.None? || d !in old(Dirs(CacheOf(name)))
      ensures clean ==> d !in Dirs(CacheOf(name))
      ensures (CacheOf(name), clean) == Discard(old(CacheOf(name)), d, io)
      ensures dirs - {name} == old(dirs) - {name}
    {
      if name in dirs && d in dirs[name] {
        match DeleteTree(dirs[name][d], io) {
          case Erased =>
            dirs := dirs[name := dirs[name] - {d}];
          case Remains(dir) =>
            dirs := dirs[name := dirs[name][d := dir]];
            return false;
        }
      }
      clean := true;
    }

    method DeleteOtherImages(name: string, keep: Digest, listing: seq<Digest>, stuck: CatalogDir) returns (ok: bool)
      requires name in dirs
      modifies this
      ensures name in dirs && (dirs[name], ok) == EvictFrom(old(dirs)[name], listing, keep, stuck)
      ensures dirs - {name} == old(dirs) - {name}
    {
      assert listing[0..] == listing;
      for i := 0 to |listing|
        invariant name in dirs && dirs - {name} == old(dirs) - {name}
        invariant EvictFrom(dirs[name], listing[i..], keep, stuck) == EvictFrom(old(dirs)[name], listing, keep, stuck)
      {
        var d := listing[i];
        assert listing[i..][0] == d && listing[i..][1..] == listing[i + 1..];
        if d == keep {
          continue;
        }
        match DeleteImage(dirs[name], d, stuck) {
          case Remains(dir) =>
            dirs := dirs[name := dirs[name][d := dir]];
            return false;
          case Erased =>
            dirs := dirs[name := dirs[name] - {d}];
        }
      }
      ok := true;
    }

    /** Cleanup: the catalog's whole directory goes; `io` is what an I/O error leaves of it. */
    method Cleanup(name: string, io: Cache) returns (err: Option<GoError>)
      modifies this
      ensures err.None? <==> io.None? || name !in old(dirs)
      ensures CacheOf(name) == if name in old(dirs) then DeleteAll(old(dirs)[name], io) else None
      ensures err.Some? ==> err.value == CLEANUP_FAILURE
      ensures dirs - {name} == old(dirs) - {name}
    {
      if name !in dirs {
        return None;
      }
      match DeleteAll(dirs[name], io) {
        case None =>
          dirs := dirs - {name};
          err := None;
        case Some(rest) =>
          dirs := dirs[name := rest];
          err := Some(CLEANUP_FAILURE);
      }
    }
  }

  const CLEANUP_FAILURE := Wrapped(DeletingCatalogCache, CLEANUP_ERROR)
}
