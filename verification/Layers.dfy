/**
 Images as stacks of layers, and what unpacking a stack leaves on disk: each tar entry is
 applied in order, whiteouts remove what lower layers put there, and the layer filter decides
 which entries are looked at (OCI Image Format Specification, "Image Layer Filesystem
 Changeset").
 */
module Layers {
  import opened Prelude
  import opened Paths

  /** A location inside the unpack directory, element by element. */
  type Path = seq<string>

  /** One catalog metadata blob, as the catalog parser cuts it out of a file. */
  type Blob = string

  datatype Node =
    | Dir(mode: Mode)
    | File(mode: Mode, blobs: seq<Blob>)
    | Symlink(target: string)
    | Special(mode: Mode)

  /** Everything below the unpack directory, which itself always exists. */
  type Tree = map<Path, Node>

  datatype TarBody =
    | TarDir
    | TarFile(blobs: seq<Blob>)
    | TarSymlink(target: string)
    | TarHardlink(link: string)
    | TarSpecial

  datatype TarEntry = TarEntry(name: string, mode: Mode, body: TarBody)

  type Layer = seq<TarEntry>

  /** What a manifest pins: the config directory label, if set, and the layers. */
  datatype Image = Image(configDir: Option<string>, layers: seq<Layer>)

  /** A digest stands for the manifest it was computed from; hashes do not collide. */
  datatype Digest = Digest(manifest: Image)

  const WHITEOUT := ".wh."
  const OPAQUE := ".wh..wh..opq"
  const MAX_LINKS: nat := 255

  /** `p` is a proper ancestor of `q`. */
  predicate Above(p: Path, q: Path) { p <= q && p != q }

  function PathOf(e: TarEntry): (p: Path) { Parse(TrimSlash(Clean(e.name))).words }

  function Parent(p: Path): Path
    requires p != []
  {
    p[..|p| - 1]
  }

  function Base(p: Path): string
    requires p != []
  {
    p[|p| - 1]
  }

  /** The tree so far, and the paths this layer has written. */
  datatype Unpacking = Unpacking(tree: Tree, written: set<Path>)

  /** Symbolic links on the way to a directory are followed inside the unpack directory. */
  function Follow(t: Tree, done: Path, rest: seq<string>, links: nat): Option<Path>
    decreases links, |rest|
  {
    if rest == [] then Some(done)
    else if rest[0] == "" || rest[0] == "." then Follow(t, done, rest[1..], links)
    else if rest[0] == ".." then Follow(t, if done == [] then [] else Parent(done), rest[1..], links)
    else
      var next := done + [rest[0]];
      if next in t && t[next].Symlink? then
        if links == 0 then None
        else
          var target := t[next].target;
          Follow(t, if "/" <= target then [] else done, Split(target) + rest[1..], links - 1)
      else Follow(t, next, rest[1..], links)
  }

  function RemoveTree(t: Tree, p: Path): Tree {
    map q | q in t && !(p <= q) :: t[q]
  }

  function Prefixes(p: Path): set<Path> {
    set k | 1 <= k <= |p| :: p[..k]
  }

  /** Missing directories on the way to `p` are created; anything else in the way is an error. */
  function MakeParents(t: Tree, p: Path): Option<Tree> {
    if exists q :: q in Prefixes(p) && q in t && !t[q].Dir? then None
    else Some(map q | q in t.Keys + Prefixes(p) :: if q in t then t[q] else Dir(0x1ED))
  }

  /** An opaque whiteout empties `dir` of everything this layer did not write. */
  function ClearOpaque(t: Tree, written: set<Path>, dir: Path): Tree {
    map q | q in t && (Above(dir, q) ==> forall k :: |dir| < k <= |q| ==> q[..k] in written) :: t[q]
  }

  /** The node an entry creates; the filter has made its mode writable for the owner. */
  function NodeOf(e: TarEntry): Node
    requires !e.body.TarHardlink?
  {
    var mode := e.mode | OWNER_ALL;
    match e.body
    case TarDir => Dir(mode)
    case TarFile(blobs) => File(mode, blobs)
    case TarSymlink(target) => Symlink(target)
    case TarSpecial => Special(mode)
  }

  function PutNode(u: Unpacking, dest: Path, node: Node): Unpacking {
    Unpacking(u.tree[dest := node], u.written + {dest})
  }

  function LinkTarget(e: TarEntry): Path
    requires e.body.TarHardlink?
  {
    Parse(TrimSlash(e.body.link)).words
  }

  /** The entry itself: replace what is there, except that directories merge. */
  function Write(u: Unpacking, dest: Path, e: TarEntry): Option<Unpacking> {
    var merges := dest in u.tree && u.tree[dest].Dir? && e.body.TarDir?;
    var room := if dest in u.tree && !merges then u.(tree := RemoveTree(u.tree, dest)) else u;
    if !e.body.TarHardlink? then Some(PutNode(room, dest, NodeOf(e)))
    else
      var from := LinkTarget(e);
      if from in room.tree && !room.tree[from].Dir? then Some(PutNode(room, dest, room.tree[from])) else None
  }

  predicate IsOpaque(p: Path) { p != [] && Base(p) == OPAQUE }

  predicate IsWhiteout(p: Path) { p != [] && Base(p) != OPAQUE && WHITEOUT <= Base(p) }

  function Victim(p: Path): Path
    requires IsWhiteout(p)
  {
    Parent(p) + [Base(p)[|WHITEOUT|..]]
  }

  /** What an entry does once the directory it goes to is known and exists. */
  function Place(u: Unpacking, p: Path, e: TarEntry): Option<Unpacking>
    requires p != []
  {
    if IsOpaque(p) then Some(u.(tree := ClearOpaque(u.tree, u.written, Parent(p))))
    else if IsWhiteout(p) then
      if Base(Victim(p)) in {"", ".", ".."} then None
      else Some(u.(tree := RemoveTree(u.tree, Victim(p))))
    else Write(u, p, e)
  }

  /** One tar entry that passed the filter, or None for an error. */
  function ApplyEntry(u: Unpacking, e: TarEntry): Option<Unpacking> {
    var p := PathOf(e);
    if p == [] || Base(p) == ".." then Some(u)  // resolves to the unpack directory itself
    else
      match Follow(u.tree, [], Parent(p), MAX_LINKS)
      case None => None
      case Some(dir) =>
        match MakeParents(u.tree, dir)
        case None => None
        case Some(t) => Place(u.(tree := t), dir + [Base(p)], e)
  }

  /** Which entries are applied: all of them, or those the filter for a source path keeps. */
  datatype Scope = Everything | Below(srcPath: string)

  function Judge(scope: Scope, e: TarEntry): Verdict {
    match scope
    case Everything => Keep
    case Below(srcPath) => LayerFilter(srcPath, Clean(e.name))
  }

  function ApplyEntries(u: Unpacking, entries: seq<TarEntry>, scope: Scope): Option<Unpacking>
    decreases |entries|
  {
    if entries == [] then Some(u)
    else
      match Judge(scope, entries[0])
      case Refuse => None
      case Drop => ApplyEntries(u, entries[1..], scope)
      case Keep =>
        match ApplyEntry(u, entries[0])
        case None => None
        case Some(u') => ApplyEntries(u', entries[1..], scope)
  }

  /** One layer, as `applyLayer` does it. */
  function ApplyLayer(t: Tree, layer: Layer, scope: Scope): Option<Tree> {
    match ApplyEntries(Unpacking(t, {}), layer, scope)
    case None => None
    case Some(u) => Some(u.tree)
  }

  function ApplyLayers(t: Tree, layers: seq<Layer>, scope: Scope): Option<Tree>
    decreases |layers|
  {
    if layers == [] then Some(t)
    else
      match ApplyLayer(t, layers[0], scope)
      case None => None
      case Some(t') => ApplyLayers(t', layers[1..], scope)
  }

  /** The part of a tree at or below `s`. */
  function Subtree(t: Tree, s: Path): Tree {
    map q | q in t && s <= q :: t[q]
  }

  /** Where an entry ends up, once links on the way are followed; None for an error. */
  function Destination(t: Tree, e: TarEntry): Option<Path>
    requires PathOf(e) != []
  {
    match Follow(t, [], Parent(PathOf(e)), MAX_LINKS)
    case None => None
    case Some(dir) => Some(dir + [Base(PathOf(e))])
  }

  // ---------------------------------------------------------------------------------------
  // What entries leave.
  // ---------------------------------------------------------------------------------------

  /** No header that the filter cannot compare gets past it. */
  lemma {:induction false} RefusalStopsUnpack(u: Unpacking, entries: seq<TarEntry>, scope: Scope, i: nat)
    requires i < |entries| && Judge(scope, entries[i]) == Refuse
    ensures ApplyEntries(u, entries, scope).None?
    decreases |entries|
  {
    if i > 0 {
      var next := if Judge(scope, entries[0]) == Keep then ApplyEntry(u, entries[0]) else Some(u);
      if next.Some? { RefusalStopsUnpack(next.value, entries[1..], scope, i - 1); }
    }
  }

  predicate Accessible(node: Node) {
    !node.Symlink? ==> CanRead(node.mode) && CanWrite(node.mode) && CanSearch(node.mode)
  }

  ghost predicate AllAccessible(t: Tree) { forall q :: q in t ==> Accessible(t[q]) }

  /** The filter gives the owner all rights and takes none of the header's away. */
  lemma NodeIsAccessible(e: TarEntry)
    requires !e.body.TarHardlink?
    ensures Accessible(NodeOf(e))
    ensures !e.body.TarSymlink? ==> NodeOf(e).mode & e.mode == e.mode && NodeOf(e).mode & 0xE3F == e.mode & 0xE3F
  {
    var m: Mode := e.mode;
    assert (m | 0x1C0) & 0x100 != 0 && (m | 0x1C0) & 0x080 != 0 && (m | 0x1C0) & 0x040 != 0;
    assert (m | 0x1C0) & m == m && (m | 0x1C0) & 0xE3F == m & 0xE3F;
  }

  /** So the next entry finds every file and directory open, whatever modes the layers ask for. */
  lemma {:induction false} UnpackingStaysAccessible(u: Unpacking, entries: seq<TarEntry>, scope: Scope)
    requires AllAccessible(u.tree) && ApplyEntries(u, entries, scope).Some?
    ensures AllAccessible(ApplyEntries(u, entries, scope).value.tree)
    decreases |entries|
  {
    if entries != [] {
      if Judge(scope, entries[0]) == Keep {
        EntryStaysAccessible(u, entries[0]);
        UnpackingStaysAccessible(ApplyEntry(u, entries[0]).value, entries[1..], scope);
      } else {
        UnpackingStaysAccessible(u, entries[1..], scope);
      }
    }
  }

  lemma EntryStaysAccessible(u: Unpacking, e: TarEntry)
    requires AllAccessible(u.tree) && ApplyEntry(u, e).Some?
    ensures AllAccessible(ApplyEntry(u, e).value.tree)
  {
    var p := PathOf(e);
    if p != [] && Base(p) != ".." {
      var dir := Follow(u.tree, [], Parent(p), MAX_LINKS).value;
      ParentsStayAccessible(u.tree, dir);
      PlaceStaysAccessible(u.(tree := MakeParents(u.tree, dir).value), dir + [Base(p)], e);
    }
  }

  lemma ParentsStayAccessible(t: Tree, dir: Path)
    requires AllAccessible(t) && MakeParents(t, dir).Some?
    ensures AllAccessible(MakeParents(t, dir).value)
  {
    assert Accessible(Dir(0x1ED));
  }

  lemma PlaceStaysAccessible(u: Unpacking, dest: Path, e: TarEntry)
    requires AllAccessible(u.tree) && dest != [] && Place(u, dest, e).Some?
    ensures AllAccessible(Place(u, dest, e).value.tree)
  {
    if !e.body.TarHardlink? { NodeIsAccessible(e); }
  }

  // ---------------------------------------------------------------------------------------
  // What the unpacked directory is used for.
  // ---------------------------------------------------------------------------------------

  /**
   setReadOnlyRecursive on an unpacked tree: it refuses anything but directories, files and
   symbolic links.
   */
  function Seal(t: Tree): Option<Tree> {
    if exists q :: q in t && t[q].Special? then None
    else Some(map q | q in t :: SealNode(t[q]))
  }

  function SealNode(node: Node): Node {
    match node
    case Dir(_) => Dir(OWNER_READ_SEARCH)
    case File(_, blobs) => File(OWNER_READ, blobs)
    case Symlink(target) => Symlink(target)
    case Special(mode) => Special(mode)
  }

  /** The walk of deleteRecursive on an unpacked tree. */
  function OpenUp(t: Tree): Tree { map q | q in t :: OpenNode(t[q]) }

  function OpenNode(node: Node): Node { if node.Dir? then Dir(OWNER_ALL) else node }

  /** Plain removal gets through: no directory with something in it is closed to its owner. */
  predicate Removable(t: Tree) {
    forall q :: q in t && t[q].Dir? && (exists r :: r in t && Above(q, r)) ==>
      CanRead(t[q].mode) && CanWrite(t[q].mode) && CanSearch(t[q].mode)
  }

  function BlobsOf(node: Node): multiset<Blob> {
    if node.File? then multiset(node.blobs) else multiset{}
  }

  ghost function AnyPath(t: Tree): Path {
    if t == map[] then [] else
      var p :| p in t;
      p
  }

  /** The metadata blobs in a tree, in no particular order. */
  ghost function TreeBlobs(t: Tree): multiset<Blob>
    decreases |t|
  {
    if t == map[] then multiset{}
    else BlobsOf(t[AnyPath(t)]) + TreeBlobs(t - {AnyPath(t)})
  }

  /**
   It does not matter in which order they are taken: the blobs of a tree are those of any node and
   those of the rest.
   */
  lemma {:induction false} TreeBlobsOfAny(t: Tree, p: Path)
    requires p in t
    ensures TreeBlobs(t) == BlobsOf(t[p]) + TreeBlobs(t - {p})
    decreases |t|
  {
    var q := AnyPath(t);
    if q != p {
      assert (t - {q})[p] == t[p] && (t - {p})[q] == t[q];
      assert |t - {q}| < |t| && |t - {p}| < |t|;
      TreeBlobsOfAny(t - {q}, p);
      TreeBlobsOfAny(t - {p}, q);
      assert t - {q} - {p} == t - {p} - {q};
      Exchange(BlobsOf(t[q]), BlobsOf(t[p]), TreeBlobs(t - {p} - {q}));
    }
  }

  lemma Exchange(a: multiset<Blob>, b: multiset<Blob>, c: multiset<Blob>)
    ensures a + (b + c) == b + (a + c)
  {
  }
}
