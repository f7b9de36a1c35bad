/**
 Reconciles of different catalogs share two directory trees and one map. Whatever way their
 system calls and map accesses are interleaved, each goes on and ends up as if it had been
 the only one.
 */
module Isolation {
  import opened Prelude
  import opened Paths
  import opened Layers
  import opened ContentStore
  import opened Reconciling

  datatype Shared = Shared(files: Files, entries: map<string, StoredCatalog>)

  /** One access to what is shared; the last three only look. */
  datatype SharedOp =
    | OnFiles(op: FileOp)
    | SetEntry(name: string, entry: StoredCatalog)
    | DropEntry(name: string)
    | GetEntry(name: string)
    | Stat(path: string)
    | ListTree(dir: string)

  /** What the caller learns from an access. */
  datatype Answer =
    | Done(ok: bool)
    | Found(entry: Option<StoredCatalog>)
    | Seen(node: Option<Entry>)
    | Listed(paths: set<string>)

  /** A call that fails changes nothing. */
  function Do(s: Shared, op: SharedOp): Shared {
    match op
    case OnFiles(call) => if Perform(s.files, call).Some? then s.(files := Perform(s.files, call).value) else s
    case SetEntry(name, entry) => s.(entries := s.entries[name := entry])
    case DropEntry(name) => s.(entries := s.entries - {name})
    case _ => s
  }

  function AnswerOf(s: Shared, op: SharedOp): Answer {
    match op
    case OnFiles(call) => Done(Perform(s.files, call).Some?)
    case SetEntry(_, _) => Done(true)
    case DropEntry(_) => Done(true)
    case GetEntry(name) => Found(if name in s.entries then Some(s.entries[name]) else None)
    case Stat(path) => Seen(if path in s.files then Some(s.files[path]) else None)
    case ListTree(dir) => Listed(set p | p in s.files && Inside(dir, p))
  }

  /** What a reconcile does next, given all the answers it got; None if it is through. */
  type Program = seq<Answer> -> Option<SharedOp>

  /** The shared state, and what each catalog's reconcile has heard so far. */
  datatype System = System(shared: Shared, heard: map<string, seq<Answer>>)

  function Heard(sys: System, name: string): seq<Answer> {
    if name in sys.heard then sys.heard[name] else []
  }

  /** One access of the reconcile of `name`. */
  function Turn(programs: map<string, Program>, sys: System, name: string): System {
    if name !in programs then sys
    else
      match programs[name](Heard(sys, name))
      case None => sys
      case Some(op) => System(Do(sys.shared, op), sys.heard[name := Heard(sys, name) + [AnswerOf(sys.shared, op)]])
  }

  /** An interleaving: whose turn it is, again and again. */
  function Interleave(programs: map<string, Program>, sys: System, turns: seq<string>): System
    decreases |turns|
  {
    if turns == [] then sys else Interleave(programs, Turn(programs, sys, turns[0]), turns[1..])
  }

  /** The turns of one catalog alone. */
  function TurnsOf(turns: seq<string>, name: string): seq<string> {
    if turns == [] then []
    else if turns[0] == name then [name] + TurnsOf(turns[1..], name)
    else TurnsOf(turns[1..], name)
  }

  /**
   Where things are: content store, unpack cache, and the temporary files of each catalog in the
   store's root.
   */
  datatype Layout = Layout(storeRoot: string, cacheRoot: string, temps: map<string, set<string>>) {

    /**
     The two roots are apart, names are path elements, and no temporary file is called like a
     catalog or like another catalog's.
     */
    ghost predicate Separate() {
      && !(storeRoot + "/" <= cacheRoot + "/") && !(cacheRoot + "/" <= storeRoot + "/")
      && (forall n :: n in temps ==> IsName(n))
      && (forall n, t :: n in temps && t in temps[n] ==> IsName(t) && t !in temps)
      && (forall n, m, t :: n in temps && m in temps && t in temps[n] && t in temps[m] ==> n == m)
    }

    ghost predicate InTree(name: string, p: string) {
      Inside(CatalogRoot(storeRoot, name), p) || Inside(CatalogRoot(cacheRoot, name), p)
    }

    ghost predicate IsTemp(name: string, p: string) {
      name in temps && exists t :: t in temps[name] && p == CatalogRoot(storeRoot, t)
    }

    /** The paths that belong to a catalog. */
    ghost predicate Owns(name: string, p: string) { InTree(name, p) || IsTemp(name, p) }

    /** An access for catalog `owner` that stays with it. */
    ghost predicate Confined(owner: string, op: SharedOp) {
      match op
      case SetEntry(name, _) => name == owner
      case DropEntry(name) => name == owner
      case GetEntry(name) => name == owner
      case Stat(path) => Owns(owner, path)
      case ListTree(dir) => InTree(owner, dir)
      case OnFiles(Rename(from, to)) => Owns(owner, from) && Owns(owner, to)
      case OnFiles(RemoveTree(p)) => InTree(owner, p)
      case OnFiles(call) => Owns(owner, call.path)
    }

    /** Whatever it hears, the reconcile of `owner` stays with its catalog. */
    ghost predicate Minds(owner: string, program: Program) {
      forall heard :: program(heard).Some? ==> Confined(owner, program(heard).value)
    }
  }

  /** Two states look the same to a catalog. */
  ghost predicate SameFor(l: Layout, name: string, s: Shared, s': Shared) {
    && (forall p | l.Owns(name, p) :: p in s.files <==> p in s'.files)
    && (forall p | l.Owns(name, p) && p in s.files :: s.files[p] == s'.files[p])
    && (name in s.entries <==> name in s'.entries)
    && (name in s.entries ==> s.entries[name] == s'.entries[name])
  }

  // ---------------------------------------------------------------------------------------
  // No path belongs to two catalogs.
  // ---------------------------------------------------------------------------------------

  lemma RootsApart(a: string, b: string, n: string, m: string, p: string)
    requires Inside(CatalogRoot(a, n), p) && Inside(CatalogRoot(b, m), p)
    ensures a + "/" <= b + "/" || b + "/" <= a + "/"
  {
    assert a + "/" <= p && b + "/" <= p;
    assert a + "/" == p[..|a| + 1] && b + "/" == p[..|b| + 1];
  }

  lemma InsideTrans(dir: string, p: string, q: string)
    requires Inside(dir, p) && Inside(p, q)
    ensures Inside(dir, q)
  {
  }

  lemma TreesApart(l: Layout, n: string, m: string, p: string)
    requires l.Separate() && IsName(n) && IsName(m) && l.InTree(n, p) && l.InTree(m, p)
    ensures n == m
  {
    if Inside(CatalogRoot(l.storeRoot, n), p) && Inside(CatalogRoot(l.storeRoot, m), p) {
      InsideIsOwn(l.storeRoot, n, m, p);
    } else if Inside(CatalogRoot(l.cacheRoot, n), p) && Inside(CatalogRoot(l.cacheRoot, m), p) {
      InsideIsOwn(l.cacheRoot, n, m, p);
    } else if Inside(CatalogRoot(l.storeRoot, n), p) {
      RootsApart(l.storeRoot, l.cacheRoot, n, m, p);
    } else {
      RootsApart(l.storeRoot, l.cacheRoot, m, n, p);
    }
  }

  /** A temporary file lies in no catalog's tree. */
  lemma TempsApart(l: Layout, n: string, m: string, p: string)
    requires l.Separate() && m in l.temps && l.IsTemp(n, p)
    ensures !l.InTree(m, p)
  {
    var t :| t in l.temps[n] && p == CatalogRoot(l.storeRoot, t);
    assert Inside(CatalogRoot(l.storeRoot, t), p);
    if Inside(CatalogRoot(l.storeRoot, m), p) {
      InsideIsOwn(l.storeRoot, t, m, p);
    }
    if Inside(CatalogRoot(l.cacheRoot, m), p) {
      RootsApart(l.storeRoot, l.cacheRoot, t, m, p);
    }
  }

  lemma OwnersApart(l: Layout, n: string, m: string, p: string)
    requires l.Separate() && n in l.temps && m in l.temps && l.Owns(n, p) && l.Owns(m, p)
    ensures n == m
  {
    if l.InTree(n, p) && l.InTree(m, p) {
      TreesApart(l, n, m, p);
    } else if l.IsTemp(n, p) && l.IsTemp(m, p) {
      var t :| t in l.temps[n] && p == CatalogRoot(l.storeRoot, t);
      var u :| u in l.temps[m] && p == CatalogRoot(l.storeRoot, u);
      assert t == p[|l.storeRoot| + 1..] == u;
    } else if l.IsTemp(n, p) {
      TempsApart(l, n, m, p);
    } else {
      TempsApart(l, m, n, p);
    }
  }

  // ---------------------------------------------------------------------------------------
  // Accesses of others are invisible; one's own depend on one's own state only.
  // ---------------------------------------------------------------------------------------

  /** A confined call avoids every path of another catalog. */
  lemma ConfinedAvoids(l: Layout, owner: string, call: FileOp, name: string, p: string)
    requires l.Separate() && owner in l.temps && name in l.temps && name != owner
    requires l.Confined(owner, OnFiles(call)) && l.Owns(name, p)
    ensures Avoids(call, p)
  {
    match call {
      case Rename(from, to) =>
        if from == p || to == p { OwnersApart(l, owner, name, p); }
      case RemoveTree(q) =>
        if Inside(q, p) {
          InTreeTrans(l, owner, q, p);
          OwnersApart(l, owner, name, p);
        }
      case _ =>
        if call.path == p { OwnersApart(l, owner, name, p); }
    }
  }

  lemma InTreeTrans(l: Layout, name: string, dir: string, p: string)
    requires l.InTree(name, dir) && Inside(dir, p)
    ensures l.InTree(name, p)
  {
    if Inside(CatalogRoot(l.storeRoot, name), dir) {
      InsideTrans(CatalogRoot(l.storeRoot, name), dir, p);
    } else {
      InsideTrans(CatalogRoot(l.cacheRoot, name), dir, p);
    }
  }

  lemma AvoidedStays(files: Files, call: FileOp, p: string)
    requires Perform(files, call).Some? && Avoids(call, p)
    ensures var files' := Perform(files, call).value;
        (p in files <==> p in files') && (p in files ==> files[p] == files'[p])
  {
  }

  lemma OthersAreInvisible(l: Layout, s: Shared, owner: string, op: SharedOp, name: string)
    requires l.Separate() && owner in l.temps && name in l.temps && name != owner && l.Confined(owner, op)
    ensures SameFor(l, name, s, Do(s, op))
  {
    if op.OnFiles? && Perform(s.files, op.op).Some? {
      forall p | l.Owns(name, p)
        ensures var files' := Do(s, op).files;
            (p in s.files <==> p in files') && (p in s.files ==> s.files[p] == files'[p])
      {
        ConfinedAvoids(l, owner, op.op, name, p);
        AvoidedStays(s.files, op.op, p);
      }
    }
  }

  /** A call on one path changes that path in the same way, if it is the same before, and no other. */
  lemma SinglePathAgrees(files: Files, files': Files, call: FileOp, p: string)
    requires !call.Rename? && !call.RemoveTree?
    requires (call.path in files <==> call.path in files')
        && (call.path in files ==> files[call.path] == files'[call.path])
    requires (p in files <==> p in files') && (p in files ==> files[p] == files'[p])
    requires Perform(files, call).Some? && Perform(files', call).Some?
    ensures var a, b := Perform(files, call).value, Perform(files', call).value;
        (p in a <==> p in b) && (p in a ==> a[p] == b[p])
  {
    if call.path != p {
      AvoidedStays(files, call, p);
      AvoidedStays(files', call, p);
    }
  }

  lemma RenameAgrees(files: Files, files': Files, from: string, to: string, p: string)
    requires forall q :: q in {from, to, p} ==> (q in files <==> q in files') && (q in files ==> files[q] == files'[q])
    requires Perform(files, Rename(from, to)).Some? && Perform(files', Rename(from, to)).Some?
    ensures var a, b := Perform(files, Rename(from, to)).value, Perform(files', Rename(from, to)).value;
      (p in a <==> p in b) && (p in a ==> a[p] == b[p])
  {
    assert from in {from, to, p} && to in {from, to, p} && p in {from, to, p};
  }

  /** One's own accesses have the same effect on what is one's own. */
  lemma OwnDependsOnOwn(l: Layout, s: Shared, s': Shared, owner: string, op: SharedOp)
    requires l.Confined(owner, op) && SameFor(l, owner, s, s')
    ensures SameFor(l, owner, Do(s, op), Do(s', op))
  {
    OwnAnswersAgree(l, s, s', owner, op);
    if op.OnFiles? && Perform(s.files, op.op).Some? {
      forall p | l.Owns(owner, p)
        ensures var a, b := Do(s, op).files, Do(s', op).files; (p in a <==> p in b) && (p in a ==> a[p] == b[p])
      {
        if op.op.Rename? {
          RenameAgrees(s.files, s'.files, op.op.from, op.op.to, p);
        } else if !op.op.RemoveTree? {
          assert l.Owns(owner, op.op.path);
          SinglePathAgrees(s.files, s'.files, op.op, p);
        }
      }
    }
  }

  /** And the same answer. */
  lemma OwnAnswersAgree(l: Layout, s: Shared, s': Shared, owner: string, op: SharedOp)
    requires l.Confined(owner, op) && SameFor(l, owner, s, s')
    ensures AnswerOf(s, op) == AnswerOf(s', op)
  {
    match op {
      case ListTree(dir) =>
        forall p | Inside(dir, p)
          ensures p in s.files <==> p in s'.files
        {
          InTreeTrans(l, owner, dir, p);
        }
      case OnFiles(Rename(from, to)) => assert l.Owns(owner, from) && l.Owns(owner, to);
      case OnFiles(RemoveTree(_)) =>
      case OnFiles(call) => assert l.Owns(owner, call.path);
      case _ =>
    }
  }

  lemma SameForTrans(l: Layout, name: string, a: Shared, b: Shared, c: Shared)
    requires SameFor(l, name, a, b) && SameFor(l, name, b, c)
    ensures SameFor(l, name, a, c)
  {
  }

  lemma SameForSymmetric(l: Layout, name: string, a: Shared, b: Shared)
    requires SameFor(l, name, a, b)
    ensures SameFor(l, name, b, a)
  {
  }

  /** Two systems look the same to a catalog, and its reconcile has heard the same in both. */
  ghost predicate SameSystem(l: Layout, name: string, a: System, b: System) {
    SameFor(l, name, a.shared, b.shared) && Heard(a, name) == Heard(b, name)
  }

  ghost predicate AllMind(l: Layout, programs: map<string, Program>) {
    forall n :: n in programs ==> n in l.temps && l.Minds(n, programs[n])
  }

  lemma OwnTurn(l: Layout, programs: map<string, Program>, a: System, b: System, name: string)
    requires AllMind(l, programs) && SameSystem(l, name, a, b)
    ensures SameSystem(l, name, Turn(programs, a, name), Turn(programs, b, name))
  {
    if name in programs && programs[name](Heard(a, name)).Some? {
      var op := programs[name](Heard(a, name)).value;
      assert l.Confined(name, op);
      OwnDependsOnOwn(l, a.shared, b.shared, name, op);
      OwnAnswersAgree(l, a.shared, b.shared, name, op);
    }
  }

  lemma OtherTurn(l: Layout, programs: map<string, Program>, a: System, other: string, name: string)
    requires l.Separate() && name in l.temps && AllMind(l, programs) && other != name
    ensures SameSystem(l, name, Turn(programs, a, other), a)
  {
    if other in programs && programs[other](Heard(a, other)).Some? {
      var op := programs[other](Heard(a, other)).value;
      assert l.Confined(other, op);
      OthersAreInvisible(l, a.shared, other, op, name);
      SameForSymmetric(l, name, a.shared, Do(a.shared, op));
    }
  }

  lemma {:induction false} InterleavingFrom(l: Layout, programs: map<string, Program>, a: System, b: System,
      turns: seq<string>, name: string)
    requires l.Separate() && name in l.temps && AllMind(l, programs) && SameSystem(l, name, a, b)
    ensures SameSystem(l, name, Interleave(programs, a, turns), Interleave(programs, b, TurnsOf(turns, name)))
    decreases |turns|
  {
    if turns != [] {
      var a' := Turn(programs, a, turns[0]);
      if turns[0] == name {
        OwnTurn(l, programs, a, b, name);
        InterleavingFrom(l, programs, a', Turn(programs, b, name), turns[1..], name);
        assert ([name] + TurnsOf(turns[1..], name))[1..] == TurnsOf(turns[1..], name);
      } else {
        OtherTurn(l, programs, a, turns[0], name);
        SameForTrans(l, name, a'.shared, a.shared, b.shared);
        InterleavingFrom(l, programs, a', b, turns[1..], name);
      }
    }
  }

  /**
   However the reconciles take turns, each hears the same answers to all its accesses, and so makes
   the same accesses, as if the others had no turns, and leaves the same files, entry and content.
   */
  lemma InterleavingIsInvisible(l: Layout, programs: map<string, Program>, sys: System, turns: seq<string>,
      name: string)
    requires l.Separate() && name in l.temps && AllMind(l, programs)
    ensures var all, alone := Interleave(programs, sys, turns), Interleave(programs, sys, TurnsOf(turns, name));
      && Heard(all, name) == Heard(alone, name)
      && SameFor(l, name, all.shared, alone.shared)
      && Served(all.shared.files, l.storeRoot, name) == Served(alone.shared.files, l.storeRoot, name)
  {
    InterleavingFrom(l, programs, sys, sys, turns, name);
    DataPathInside(l.storeRoot, name);
    assert l.Owns(name, DataPath(l.storeRoot, name));
  }

  // ---------------------------------------------------------------------------------------
  // The accesses of a reconcile stay with its catalog.
  // ---------------------------------------------------------------------------------------

  /** Store's calls, and Delete's and Cleanup's, are confined to their catalog. */
  lemma StoreIsConfined(l: Layout, name: string, suffix: string, blobs: seq<Blob>, i: nat)
    requires name in l.temps && name + suffix in l.temps[name]
    requires i < |StoreOps(l.storeRoot, name, suffix, blobs)|
    ensures l.Confined(name, OnFiles(StoreOps(l.storeRoot, name, suffix, blobs)[i]))
    ensures l.Confined(name, OnFiles(RemoveFile(TempPath(l.storeRoot, name, suffix))))
    ensures l.Confined(name, OnFiles(RemoveTree(CatalogRoot(l.storeRoot, name))))
    ensures l.Confined(name, OnFiles(RemoveTree(CatalogRoot(l.cacheRoot, name))))
    ensures l.Confined(name, Stat(DataPath(l.storeRoot, name)))
  {
    var dir := CatalogRoot(l.storeRoot, name);
    assert TempPath(l.storeRoot, name, suffix) == CatalogRoot(l.storeRoot, name + suffix);
    assert l.IsTemp(name, TempPath(l.storeRoot, name, suffix));
    DataPathInside(l.storeRoot, name);
    assert Inside(dir, dir + "/api") && Inside(dir, dir + "/api/v1");
  }

  /** unpackPath */
  function UnpackPath(root: string, name: string, digest: string): string { CatalogRoot(root, name) + "/" + digest }

  function PathAt(base: string, p: Path): string { if p == [] then base else base + "/" + Join(p) }

  /** A path that goes down only, one element after the other. */
  ghost predicate Downward(p: Path) {
    forall i :: 0 <= i < |p| ==> IsElement(p[i])
  }

  predicate IsElement(word: string) { word != "" && word != "." && word != ".." && NoSlash(word) }

  /** Wherever links point, following them inside the unpack directory gives a path that goes down only. */
  lemma {:induction false} FollowIsDownward(t: Tree, done: Path, rest: seq<string>, links: nat)
    requires Downward(done) && forall i :: 0 <= i < |rest| ==> NoSlash(rest[i])
    ensures Follow(t, done, rest, links).Some? ==> Downward(Follow(t, done, rest, links).value)
    decreases links, |rest|
  {
    if rest == [] {
    } else if rest[0] == "" || rest[0] == "." {
      FollowIsDownward(t, done, rest[1..], links);
    } else if rest[0] == ".." {
      FollowIsDownward(t, if done == [] then [] else Parent(done), rest[1..], links);
    } else {
      var next := done + [rest[0]];
      if next in t && t[next].Symlink? {
        if links > 0 {
          var target := t[next].target;
          FollowIsDownward(t, if "/" <= target then [] else done, Split(target) + rest[1..], links - 1);
        }
      } else {
        FollowIsDownward(t, next, rest[1..], links);
      }
    }
  }

  /** Where an entry ends up, whatever its name and whatever links are there. */
  lemma DestinationIsDownward(t: Tree, e: TarEntry)
    requires PathOf(e) != [] && Base(PathOf(e)) != ".." && Destination(t, e).Some?
    ensures Downward(Destination(t, e).value)
  {
    ParseIsNormal(TrimSlash(Clean(e.name)));
    FollowIsDownward(t, [], Parent(PathOf(e)), MAX_LINKS);
  }

  ghost predicate AllDownward(t: Tree) { forall q :: q in t ==> Downward(q) }

  lemma ParentsKeepDownward(t: Tree, dir: Path)
    requires AllDownward(t) && Downward(dir) && MakeParents(t, dir).Some?
    ensures AllDownward(MakeParents(t, dir).value)
  {
    forall q | q in Prefixes(dir)
      ensures Downward(q)
    {
      var k :| 1 <= k <= |dir| && q == dir[..k];
    }
  }

  lemma PlaceKeepsDownward(u: Unpacking, dest: Path, e: TarEntry)
    requires AllDownward(u.tree) && dest != [] && Downward(dest) && Place(u, dest, e).Some?
    ensures AllDownward(Place(u, dest, e).value.tree)
  {
  }

  lemma EntryKeepsDownward(u: Unpacking, e: TarEntry)
    requires AllDownward(u.tree) && ApplyEntry(u, e).Some?
    ensures AllDownward(ApplyEntry(u, e).value.tree)
  {
    var p := PathOf(e);
    if p != [] && Base(p) != ".." {
      DestinationIsDownward(u.tree, e);
      var dest := Destination(u.tree, e).value;
      var dir := Parent(dest);
      assert dir == Follow(u.tree, [], Parent(p), MAX_LINKS).value && Downward(dir);
      ParentsKeepDownward(u.tree, dir);
      PlaceKeepsDownward(u.(tree := MakeParents(u.tree, dir).value), dest, e);
    }
  }

  /** Whatever is unpacked so far, from whatever layers, lies below the unpack directory. */
  lemma {:induction false} UnpackingStaysDownward(u: Unpacking, entries: seq<TarEntry>, scope: Scope)
    requires AllDownward(u.tree) && ApplyEntries(u, entries, scope).Some?
    ensures AllDownward(ApplyEntries(u, entries, scope).value.tree)
    decreases |entries|
  {
    if entries != [] {
      if Judge(scope, entries[0]) == Keep {
        EntryKeepsDownward(u, entries[0]);
        UnpackingStaysDownward(ApplyEntry(u, entries[0]).value, entries[1..], scope);
      } else {
        UnpackingStaysDownward(u, entries[1..], scope);
      }
    }
  }

  /**
   The places that applying an entry which goes to `dest` can touch: directories on the way, what
   it hides or replaces, itself.
   */
  ghost predicate IsTouched(u: Unpacking, dest: Path, p: Path)
    requires dest != []
  {
    || (p < dest && p != [])
    || (if IsOpaque(dest) then p in u.tree && Above(Parent(dest), p)
        else if IsWhiteout(dest) then p == Victim(dest) && IsElement(Base(Victim(dest)))
        else p == dest)
  }

  lemma TouchedIsDownward(u: Unpacking, e: TarEntry, p: Path)
    requires AllDownward(u.tree) && PathOf(e) != [] && Base(PathOf(e)) != ".." && Destination(u.tree, e).Some?
    requires IsTouched(u, Destination(u.tree, e).value, p)
    ensures Downward(p)
  {
    DestinationIsDownward(u.tree, e);
    var dest := Destination(u.tree, e).value;
    assert p < dest ==> forall i :: 0 <= i < |p| ==> p[i] == dest[i];
  }

  /** The same at `q` in both trees. */
  ghost predicate Unmoved(a: Tree, b: Tree, q: Path) {
    (q in a <==> q in b) && (q in a ==> a[q] == b[q])
  }

  /** What applying an entry changes is one of these places, or below one. */
  lemma ChangedIsTouched(u: Unpacking, e: TarEntry, q: Path)
    requires PathOf(e) != [] && Base(PathOf(e)) != ".." && ApplyEntry(u, e).Some?
    requires !Unmoved(u.tree, ApplyEntry(u, e).value.tree, q)
    ensures exists p :: IsTouched(u, Destination(u.tree, e).value, p) && p <= q
  {
    var dest := Destination(u.tree, e).value;
    DestinationIsDownward(u.tree, e);
    var dir := Parent(dest);
    assert dir == Follow(u.tree, [], Parent(PathOf(e)), MAX_LINKS).value;
    var ready := u.(tree := MakeParents(u.tree, dir).value);
    if !Unmoved(u.tree, ready.tree, q) {
      MadeIsOnTheWay(u.tree, dest, q);
      assert IsTouched(u, dest, q) && q <= q;
    } else {
      var p := PlacedIsTouched(u, ready, dest, e, q);
    }
  }

  lemma MadeIsOnTheWay(t: Tree, dest: Path, q: Path)
    requires dest != [] && MakeParents(t, Parent(dest)).Some? && !Unmoved(t, MakeParents(t, Parent(dest)).value, q)
    ensures q < dest && q != []
  {
    assert q in Prefixes(Parent(dest));
    var k :| 1 <= k <= |Parent(dest)| && q == Parent(dest)[..k];
    assert q == dest[..k];
  }

  lemma PlacedIsTouched(u: Unpacking, ready: Unpacking, dest: Path, e: TarEntry, q: Path) returns (p: Path)
    requires dest != [] && Downward(dest) && Place(ready, dest, e).Some? && Unmoved(u.tree, ready.tree, q)
    requires !Unmoved(ready.tree, Place(ready, dest, e).value.tree, q)
    ensures IsTouched(u, dest, p) && p <= q
  {
    if IsOpaque(dest) {
      p := q;
    } else if IsWhiteout(dest) {
      p := Victim(dest);
      assert forall c :: c in Base(p) ==> c in Base(dest);
    } else {
      p := dest;
    }
  }

  /**
   What an unpack can touch below its directory: places of an entry at any point, or anything that
   is there already.
   */
  ghost predicate IsUnpacked(u: Unpacking, p: Path) {
    || p == [] || p in u.tree
    || exists e :: PathOf(e) != [] && Base(PathOf(e)) != ".." && Destination(u.tree, e).Some?
        && IsTouched(u, Destination(u.tree, e).value, p)
  }

  /**
   All calls of an unpack: on the catalog's directory, in its own directory below that, and on
   those of other images.
   */
  ghost predicate IsUnpackCall(root: string, name: string, digest: string, u: Unpacking, call: FileOp) {
    && !call.Rename?
    && (|| call == MakeDir(CatalogRoot(root, name))
        || (exists p :: IsUnpacked(u, p) && call.path == PathAt(UnpackPath(root, name, digest), p))
        || (exists other :: IsElement(other) && call == RemoveTree(UnpackPath(root, name, other))))
  }

  /**
   At any point of an unpack, whatever the layers contain: each call is made for a path that goes
   down only from the catalog's directory in the cache, and so stays with the catalog.
   */
  lemma UnpackIsConfined(l: Layout, name: string, digest: string, u: Unpacking, call: FileOp) returns (p: Path)
    requires IsElement(digest) && AllDownward(u.tree) && IsUnpackCall(l.cacheRoot, name, digest, u, call)
    ensures Downward(p) && !call.Rename? && call.path == PathAt(CatalogRoot(l.cacheRoot, name), p)
    ensures l.Confined(name, OnFiles(call)) && l.Confined(name, Stat(call.path))
        && l.Confined(name, ListTree(call.path))
  {
    var root, base := CatalogRoot(l.cacheRoot, name), UnpackPath(l.cacheRoot, name, digest);
    if call == MakeDir(root) {
      p := [];
    } else if exists q :: IsUnpacked(u, q) && call.path == PathAt(base, q) {
      var q :| IsUnpacked(u, q) && call.path == PathAt(base, q);
      UnpackedIsDownward(u, q);
      p := [digest] + q;
      PathsNest(root, digest, q);
    } else {
      var other :| IsElement(other) && call == RemoveTree(UnpackPath(l.cacheRoot, name, other));
      p := [other];
    }
    BelowIsConfined(l, name, call, p);
  }

  lemma BelowIsConfined(l: Layout, name: string, call: FileOp, p: Path)
    requires !call.Rename? && call.path == PathAt(CatalogRoot(l.cacheRoot, name), p)
    ensures l.Confined(name, OnFiles(call)) && l.Confined(name, Stat(call.path))
        && l.Confined(name, ListTree(call.path))
  {
    assert Inside(CatalogRoot(l.cacheRoot, name), call.path);
  }

  lemma UnpackedIsDownward(u: Unpacking, p: Path)
    requires AllDownward(u.tree) && IsUnpacked(u, p)
    ensures Downward(p)
  {
    if p != [] && p !in u.tree {
      var e :| PathOf(e) != [] && Base(PathOf(e)) != ".." && Destination(u.tree, e).Some?
          && IsTouched(u, Destination(u.tree, e).value, p);
      TouchedIsDownward(u, e, p);
    }
  }

  lemma PathsNest(root: string, word: string, p: Path)
    ensures PathAt(root + "/" + word, p) == PathAt(root, [word] + p)
  {
    if p != [] {
      assert ([word] + p)[1..] == p;
      assert root + "/" + word + "/" + Join(p) == root + "/" + (word + "/" + Join(p));
    } else {
      assert [word] + p == [word];
    }
  }

  // ---------------------------------------------------------------------------------------
  // Programs.
  // ---------------------------------------------------------------------------------------

  /** How many of n accesses a program makes that stops at the first that fails, as far as it has heard. */
  function StopsAfter(heard: seq<Answer>, n: nat): (k: nat)
    ensures k <= n
  {
    if heard == [] || n == 0 then n
    else if heard[0] == Done(false) then 1
    else 1 + StopsAfter(heard[1..], n - 1)
  }

  /**
   One access after the other, up to the first that fails, and then what is to be done after
   success or failure.
   */
  function InOrder(ops: seq<SharedOp>, ok: seq<SharedOp>, failed: seq<SharedOp>): Program {
    (heard: seq<Answer>) =>
      var k := StopsAfter(heard, |ops|);
      if |heard| < k then Some(ops[|heard|])
      else
        var end := if Done(false) in heard[..k] then failed else ok;
        if |heard| - k < |end| then Some(end[|heard| - k]) else None
  }

  ghost predicate AllConfined(l: Layout, owner: string, ops: seq<SharedOp>) {
    forall i :: 0 <= i < |ops| ==> l.Confined(owner, ops[i])
  }

  lemma InOrderMinds(l: Layout, owner: string, ops: seq<SharedOp>, ok: seq<SharedOp>, failed: seq<SharedOp>)
    requires AllConfined(l, owner, ops) && AllConfined(l, owner, ok) && AllConfined(l, owner, failed)
    ensures l.Minds(owner, InOrder(ops, ok, failed))
  {
  }

  function Calls(calls: seq<FileOp>): (ops: seq<SharedOp>)
    ensures |ops| == |calls| && forall i :: 0 <= i < |ops| ==> ops[i] == OnFiles(calls[i])
  {
    seq(|calls|, i requires 0 <= i < |calls| => OnFiles(calls[i]))
  }

  /** The deferred removal of the temporary file. */
  function RemoveTemp(root: string, name: string, suffix: string): SharedOp {
    OnFiles(RemoveFile(TempPath(root, name, suffix)))
  }

  /** Store: its calls, and the deferred removal of the temporary file. */
  function StoreProgram(root: string, name: string, suffix: string, blobs: seq<Blob>): Program {
    var last := RemoveTemp(root, name, suffix);
    InOrder(Calls(StoreOps(root, name, suffix, blobs)), [last], [last])
  }

  lemma StoreCallsConfined(l: Layout, name: string, suffix: string, blobs: seq<Blob>)
    requires name in l.temps && name + suffix in l.temps[name]
    ensures AllConfined(l, name, Calls(StoreOps(l.storeRoot, name, suffix, blobs)))
    ensures l.Confined(name, RemoveTemp(l.storeRoot, name, suffix))
        && l.Confined(name, Stat(DataPath(l.storeRoot, name)))
  {
    var ops := StoreOps(l.storeRoot, name, suffix, blobs);
    forall i | 0 <= i < |ops|
      ensures l.Confined(name, OnFiles(ops[i]))
    {
      StoreIsConfined(l, name, suffix, blobs, i);
    }
    StoreIsConfined(l, name, suffix, blobs, 0);
  }

  lemma StoreMinds(l: Layout, name: string, suffix: string, blobs: seq<Blob>)
    requires name in l.temps && name + suffix in l.temps[name]
    ensures l.Minds(name, StoreProgram(l.storeRoot, name, suffix, blobs))
  {
    StoreCallsConfined(l, name, suffix, blobs);
    var last := RemoveTemp(l.storeRoot, name, suffix);
    InOrderMinds(l, name, Calls(StoreOps(l.storeRoot, name, suffix, blobs)), [last], [last]);
  }

  /**
   A reconcile that unpacks: look at entry and content, unpack, store; then note the entry, or
   after an error forget it.
   */
  function UnpackProgram(l: Layout, name: string, suffix: string, unpack: seq<FileOp>, blobs: seq<Blob>,
      entry: StoredCatalog): Program {
    var last := RemoveTemp(l.storeRoot, name, suffix);
    InOrder(Looks(l, name) + Calls(unpack) + Calls(StoreOps(l.storeRoot, name, suffix, blobs)),
            [last, SetEntry(name, entry)], [last, DropEntry(name)])
  }

  function Looks(l: Layout, name: string): seq<SharedOp> { [GetEntry(name), Stat(DataPath(l.storeRoot, name))] }

  /** A call of an unpack at some point of it. */
  ghost predicate IsCallOfUnpack(root: string, name: string, digest: string, call: FileOp) {
    exists u: Unpacking :: AllDownward(u.tree) && IsUnpackCall(root, name, digest, u, call)
  }

  lemma CallIsConfined(l: Layout, name: string, digest: string, call: FileOp)
    requires IsElement(digest) && IsCallOfUnpack(l.cacheRoot, name, digest, call)
    ensures l.Confined(name, OnFiles(call))
  {
    var u: Unpacking :| AllDownward(u.tree) && IsUnpackCall(l.cacheRoot, name, digest, u, call);
    var p := UnpackIsConfined(l, name, digest, u, call);
  }

  /** Whatever the layers make the unpack do, the reconcile stays with its catalog. */
  lemma UnpackMinds(l: Layout, name: string, digest: string, suffix: string, unpack: seq<FileOp>, blobs: seq<Blob>,
      entry: StoredCatalog)
    requires name in l.temps && name + suffix in l.temps[name] && IsElement(digest)
    requires forall i :: 0 <= i < |unpack| ==> IsCallOfUnpack(l.cacheRoot, name, digest, unpack[i])
    ensures l.Minds(name, UnpackProgram(l, name, suffix, unpack, blobs, entry))
  {
    forall i | 0 <= i < |unpack|
      ensures l.Confined(name, OnFiles(unpack[i]))
    {
      CallIsConfined(l, name, digest, unpack[i]);
    }
    StoreCallsConfined(l, name, suffix, blobs);
    var stored, last := Calls(StoreOps(l.storeRoot, name, suffix, blobs)), RemoveTemp(l.storeRoot, name, suffix);
    ConfinedTogether(l, name, Looks(l, name), Calls(unpack));
    ConfinedTogether(l, name, Looks(l, name) + Calls(unpack), stored);
    InOrderMinds(l, name, Looks(l, name) + Calls(unpack) + stored, [last, SetEntry(name, entry)],
      [last, DropEntry(name)]);
  }

  lemma ConfinedTogether(l: Layout, owner: string, a: seq<SharedOp>, b: seq<SharedOp>)
    requires AllConfined(l, owner, a) && AllConfined(l, owner, b)
    ensures AllConfined(l, owner, a + b)
  {
  }

  /** A reconcile that purges: content, cache, and the entry in any case. */
  function PurgeProgram(l: Layout, name: string): Program {
    InOrder(Calls([RemoveTree(CatalogRoot(l.storeRoot, name)), RemoveTree(CatalogRoot(l.cacheRoot, name))]),
            [DropEntry(name)], [DropEntry(name)])
  }

  lemma PurgeMinds(l: Layout, name: string)
    requires name in l.temps
    ensures l.Minds(name, PurgeProgram(l, name))
  {
  }

  // ---------------------------------------------------------------------------------------
  // Stores side by side.
  // ---------------------------------------------------------------------------------------

  function Attempt(files: Files, call: FileOp): Files {
    if Perform(files, call).Some? then Perform(files, call).value else files
  }

  ghost predicate AllDone(heard: seq<Answer>) { forall i :: 0 <= i < |heard| ==> heard[i] == Done(true) }

  lemma {:induction false} DoneGoesOn(heard: seq<Answer>, n: nat)
    requires AllDone(heard)
    ensures StopsAfter(heard, n) == n
  {
    if heard != [] && n > 0 { DoneGoesOn(heard[1..], n - 1); }
  }

  lemma {:induction false} FailureStops(heard: seq<Answer>, n: nat)
    requires AllDone(heard) && |heard| < n
    ensures StopsAfter(heard + [Done(false)], n) == |heard| + 1
  {
    if heard == [] {
      assert heard + [Done(false)] == [Done(false)];
    } else {
      assert (heard + [Done(false)])[1..] == heard[1..] + [Done(false)];
      FailureStops(heard[1..], n - 1);
    }
  }

  /** A program that is through, with its last access made or not, does nothing more. */
  lemma {:induction false} SoloRests(programs: map<string, Program>, sys: System, turns: seq<string>, name: string)
    requires name in programs && (forall i :: 0 <= i < |turns| ==> turns[i] == name)
        && programs[name](Heard(sys, name)).None?
    ensures Interleave(programs, sys, turns) == sys
    decreases |turns|
  {
    if turns != [] { SoloRests(programs, sys, turns[1..], name); }
  }

  /** `programs[name]` makes the calls in order, and then the last one. */
  ghost predicate Makes(programs: map<string, Program>, name: string, calls: seq<FileOp>, last: FileOp) {
    name in programs
      && forall heard :: programs[name](heard) == InOrder(Calls(calls), [OnFiles(last)], [OnFiles(last)])(heard)
  }

  /** From the last access on. */
  lemma SoloEnds(programs: map<string, Program>, sys: System, turns: seq<string>, name: string, calls: seq<FileOp>,
      last: FileOp)
    requires Makes(programs, name, calls, last) && (forall i :: 0 <= i < |turns| ==> turns[i] == name) && turns != []
    requires StopsAfter(Heard(sys, name), |calls|) == |Heard(sys, name)|
    requires StopsAfter(Heard(sys, name) + [Done(Perform(sys.shared.files, last).Some?)], |calls|) == |Heard(sys, name)|
    ensures Interleave(programs, sys, turns).shared.files == Attempt(sys.shared.files, last)
  {
    var after := Turn(programs, sys, name);
    assert Heard(after, name) == Heard(sys, name) + [Done(Perform(sys.shared.files, last).Some?)];
    SoloRests(programs, after, turns[1..], name);
  }

  /**
   Alone, and with turns enough, it has the effect of the calls up to the first that fails, and of
   the last.
   */
  lemma {:induction false} SoloRuns(programs: map<string, Program>, sys: System, turns: seq<string>, name: string,
                                    calls: seq<FileOp>, last: FileOp)
    requires Makes(programs, name, calls, last) && AllDone(Heard(sys, name)) && |Heard(sys, name)| <= |calls|
    requires (forall i :: 0 <= i < |turns| ==> turns[i] == name) && |turns| > |calls| - |Heard(sys, name)|
    ensures Interleave(programs, sys, turns).shared.files
        == Attempt(Run(sys.shared.files, calls[|Heard(sys, name)|..], None).0, last)
    decreases |turns|
  {
    var i := |Heard(sys, name)|;
    if i == |calls| {
      assert calls[i..] == [];
      SoloThrough(programs, sys, turns, name, calls, last);
    } else {
      assert calls[i..][0] == calls[i] && calls[i..][1..] == calls[i + 1..];
      if Perform(sys.shared.files, calls[i]).Some? {
        var after := SoloTurn(programs, sys, name, calls, last);
        SoloRuns(programs, after, turns[1..], name, calls, last);
      } else {
        SoloFails(programs, sys, turns, name, calls, last);
      }
    }
  }

  lemma SoloThrough(programs: map<string, Program>, sys: System, turns: seq<string>, name: string, calls: seq<FileOp>,
      last: FileOp)
    requires Makes(programs, name, calls, last) && AllDone(Heard(sys, name)) && |Heard(sys, name)| == |calls|
    requires (forall i :: 0 <= i < |turns| ==> turns[i] == name) && turns != []
    ensures Interleave(programs, sys, turns).shared.files == Attempt(sys.shared.files, last)
  {
    DoneGoesOn(Heard(sys, name), |calls|);
    StaysThrough(Heard(sys, name), |calls|, Done(Perform(sys.shared.files, last).Some?));
    SoloEnds(programs, sys, turns, name, calls, last);
  }

  lemma SoloFails(programs: map<string, Program>, sys: System, turns: seq<string>, name: string, calls: seq<FileOp>,
      last: FileOp)
    requires Makes(programs, name, calls, last) && AllDone(Heard(sys, name)) && |Heard(sys, name)| < |calls|
    requires Perform(sys.shared.files, calls[|Heard(sys, name)|]).None?
    requires (forall i :: 0 <= i < |turns| ==> turns[i] == name) && |turns| > 1
    ensures Interleave(programs, sys, turns).shared.files == Attempt(sys.shared.files, last)
  {
    var heard := Heard(sys, name);
    var after := SoloTurn(programs, sys, name, calls, last);
    FailureStops(heard, |calls|);
    StaysStopped(heard, |calls|, Done(Perform(sys.shared.files, last).Some?));
    SoloEnds(programs, after, turns[1..], name, calls, last);
  }

  /** One turn, while everything has gone well. */
  lemma SoloTurn(programs: map<string, Program>, sys: System, name: string, calls: seq<FileOp>, last: FileOp)
    returns (after: System)
    requires Makes(programs, name, calls, last) && AllDone(Heard(sys, name)) && |Heard(sys, name)| < |calls|
    ensures var call := calls[|Heard(sys, name)|];
      && after == Turn(programs, sys, name) && after.shared.files == Attempt(sys.shared.files, call)
      && Heard(after, name) == Heard(sys, name) + [Done(Perform(sys.shared.files, call).Some?)]
  {
    DoneGoesOn(Heard(sys, name), |calls|);
    after := Turn(programs, sys, name);
  }

  lemma {:induction false} StaysThrough(heard: seq<Answer>, n: nat, a: Answer)
    requires AllDone(heard) && |heard| == n
    ensures StopsAfter(heard + [a], n) == n
  {
    if n > 0 {
      assert (heard + [a])[1..] == heard[1..] + [a];
      StaysThrough(heard[1..], n - 1, a);
    }
  }

  lemma {:induction false} StaysStopped(heard: seq<Answer>, n: nat, a: Answer)
    requires AllDone(heard) && |heard| < n
    ensures StopsAfter(heard + [Done(false)] + [a], n) == |heard| + 1
  {
    if heard != [] {
      assert (heard + [Done(false)] + [a])[1..] == heard[1..] + [Done(false)] + [a];
      StaysStopped(heard[1..], n - 1, a);
    }
  }

  datatype StoreJob = StoreJob(suffix: string, blobs: seq<Blob>)

  /** Each catalog's program is a store, with a temporary file that is its own and new. */
  ghost predicate AllStore(l: Layout, programs: map<string, Program>, jobs: map<string, StoreJob>, files: Files) {
    programs.Keys == jobs.Keys && forall n :: n in jobs ==>
      && n in l.temps && NoSlash(jobs[n].suffix) && n + jobs[n].suffix in l.temps[n]
      && TempPath(l.storeRoot, n, jobs[n].suffix) !in files
      && programs[n] == StoreProgram(l.storeRoot, n, jobs[n].suffix, jobs[n].blobs)
  }

  lemma {:induction false} TurnsOfAreOwn(turns: seq<string>, name: string)
    ensures forall i :: 0 <= i < |TurnsOf(turns, name)| ==> TurnsOf(turns, name)[i] == name
  {
    if turns != [] { TurnsOfAreOwn(turns[1..], name); }
  }

  /**
   Stores of different catalogs side by side, in any interleaving: a catalog whose store has had
   its turns is served all of its new blobs if its own calls succeed when made alone, and what it
   was served before if not.
   */
  lemma StoresDoNotInterfere(l: Layout, programs: map<string, Program>, jobs: map<string, StoreJob>, shared: Shared,
                             turns: seq<string>, name: string)
    requires l.Separate() && AllStore(l, programs, jobs, shared.files) && name in jobs
    requires |TurnsOf(turns, name)| > |StoreOps(l.storeRoot, name, jobs[name].suffix, jobs[name].blobs)|
    ensures var alone := Run(shared.files, StoreOps(l.storeRoot, name, jobs[name].suffix, jobs[name].blobs), None);
      Served(Interleave(programs, System(shared, map[]), turns).shared.files, l.storeRoot, name) ==
      if alone.1 then Some(jobs[name].blobs) else Served(shared.files, l.storeRoot, name)
  {
    AllStoresMind(l, programs, jobs, shared.files);
    InterleavingIsInvisible(l, programs, System(shared, map[]), turns, name);
    SoloStore(l, programs, jobs[name], shared, TurnsOf(turns, name), name);
    TurnsOfAreOwn(turns, name);
  }

  lemma AllStoresMind(l: Layout, programs: map<string, Program>, jobs: map<string, StoreJob>, files: Files)
    requires AllStore(l, programs, jobs, files)
    ensures AllMind(l, programs)
  {
    forall n | n in programs
      ensures n in l.temps && l.Minds(n, programs[n])
    {
      assert n in jobs;
      StoreMinds(l, n, jobs[n].suffix, jobs[n].blobs);
    }
  }

  lemma SoloStore(l: Layout, programs: map<string, Program>, job: StoreJob, shared: Shared, turns: seq<string>,
      name: string)
    requires l.Separate() && name in l.temps && NoSlash(job.suffix)
        && TempPath(l.storeRoot, name, job.suffix) !in shared.files
    requires name in programs && programs[name] == StoreProgram(l.storeRoot, name, job.suffix, job.blobs)
    requires |turns| > |StoreOps(l.storeRoot, name, job.suffix, job.blobs)|
    ensures var alone := Run(shared.files, StoreOps(l.storeRoot, name, job.suffix, job.blobs), None);
      (forall i :: 0 <= i < |turns| ==> turns[i] == name) ==>
      Served(Interleave(programs, System(shared, map[]), turns).shared.files, l.storeRoot, name) ==
      if alone.1 then Some(job.blobs) else Served(shared.files, l.storeRoot, name)
  {
    if forall i :: 0 <= i < |turns| ==> turns[i] == name {
      var ops, temp := StoreOps(l.storeRoot, name, job.suffix, job.blobs), TempPath(l.storeRoot, name, job.suffix);
      assert ops[0..] == ops && ops[..|ops|] == ops;
      SoloRuns(programs, System(shared, map[]), turns, name, ops, RemoveFile(temp));
      StoreIsAtomic(shared.files, l.storeRoot, name, job.suffix, job.blobs, |ops|, name);
      TempIsNoData(l.storeRoot, name, job.suffix, name);
    }
  }
}
