/**
 What the layer filter does to an unpack: compared with unpacking everything and keeping the
 config directory, and entry by entry where the two differ.
 */
module Filtering {
  import opened Prelude
  import opened Paths
  import opened Layers

  // ---------------------------------------------------------------------------------------
  // Filtering before unpacking is the same as unpacking everything and keeping the subtree.
  // ---------------------------------------------------------------------------------------

  function SourceWords(srcPath: string): Path { Parse(TrimSlash(srcPath)).words }

  /** An entry that is placed outside `s` and takes `s` or a directory above it away. */
  ghost predicate Hides(t: Tree, s: Path, dest: Path, e: TarEntry)
    requires dest != []
  {
    if IsOpaque(dest) then Above(Parent(dest), s)
    else if IsWhiteout(dest) then Victim(dest) <= s
    else Above(dest, s) && dest in t && !(t[dest].Dir? && e.body.TarDir?)
  }

  /** Nowhere on its way does a path leave the line from the unpack directory through `s`. */
  ghost predicate KeepsTo(t: Tree, s: Path, done: Path, rest: seq<string>, links: nat)
    decreases links, |rest|
  {
    if rest == [] then true
    else if rest[0] == "" || rest[0] == "." then KeepsTo(t, s, done, rest[1..], links)
    else if rest[0] == ".." then KeepsTo(t, s, if done == [] then [] else Parent(done), rest[1..], links)
    else
      var next := done + [rest[0]];
      && (next <= s || s <= next)
      && if next in t && t[next].Symlink? then
           links == 0
             || KeepsTo(t, s, if "/" <= t[next].target then [] else done, Split(t[next].target) + rest[1..], links - 1)
         else KeepsTo(t, s, next, rest[1..], links)
  }

  /**
   An entry for which it makes no difference whether the part of the tree outside `s` is there.
   One that is named below `s` gets to a place below `s` on a way that touches nothing else, and
   is no hard link to elsewhere; one that is named outside `s` ends up outside `s`, wherever
   links lead it, and neither hides `s` nor puts anything but a directory above it.
   */
  ghost predicate Harmless(t: Tree, s: Path, e: TarEntry) {
    var p := PathOf(e);
    p != [] ==>
      && p[0] != ".."
      && (Destination(t, e).Some? ==>
            var dest := Destination(t, e).value;
            && !Hides(t, s, dest, e)
            && (IsOpaque(dest) || IsWhiteout(dest) || (Above(dest, s) ==> e.body.TarDir?))
            && (s <= p ==>
                KeepsTo(t, s, [], Parent(p), MAX_LINKS) && s <= dest && (e.body.TarHardlink? ==> s <= LinkTarget(e)))
            && (!(s <= p) ==> !(s <= dest)))
  }

  /** Every entry is harmless when it is reached. */
  ghost predicate AllHarmless(u: Unpacking, s: Path, entries: seq<TarEntry>)
    decreases |entries|
  {
    entries != [] ==>
      && Harmless(u.tree, s, entries[0])
      && (ApplyEntry(u, entries[0]).Some? ==> AllHarmless(ApplyEntry(u, entries[0]).value, s, entries[1..]))
  }

  ghost predicate HarmlessLayers(t: Tree, s: Path, layers: seq<Layer>)
    decreases |layers|
  {
    layers != [] ==>
      && AllHarmless(Unpacking(t, {}), s, layers[0])
      && (ApplyLayer(t, layers[0], Everything).Some? ==>
            HarmlessLayers(ApplyLayer(t, layers[0], Everything).value, s, layers[1..]))
  }

  /** `full` saw every entry, `kept` only those below `s`. */
  ghost predicate Agree(full: Unpacking, kept: Unpacking, s: Path) {
    && (forall q | s <= q :: q in full.tree <==> q in kept.tree)
    && (forall q | s <= q && q in full.tree :: full.tree[q] == kept.tree[q])
    && (forall q | s <= q :: q in full.written <==> q in kept.written)
    && (forall q :: q in kept.tree ==> s <= q || (Above(q, s) && kept.tree[q].Dir?))
    && (forall q :: q in full.tree && Above(q, s) ==> full.tree[q].Dir?)
  }

  /** A path that keeps to `s` leads to the same place in both trees. */
  lemma {:induction false} FollowAgrees(full: Unpacking, kept: Unpacking, s: Path, done: Path, rest: seq<string>,
      links: nat)
    requires Agree(full, kept, s) && KeepsTo(full.tree, s, done, rest, links)
    ensures Follow(kept.tree, done, rest, links) == Follow(full.tree, done, rest, links)
    decreases links, |rest|
  {
    if rest == [] {
    } else if rest[0] == "" || rest[0] == "." {
      FollowAgrees(full, kept, s, done, rest[1..], links);
    } else if rest[0] == ".." {
      FollowAgrees(full, kept, s, if done == [] then [] else Parent(done), rest[1..], links);
    } else {
      var next := done + [rest[0]];
      if s <= next && next in full.tree && full.tree[next].Symlink? {
        if links > 0 {
          var target := full.tree[next].target;
          FollowAgrees(full, kept, s, if "/" <= target then [] else done, Split(target) + rest[1..], links - 1);
        }
      } else {
        assert !(s <= next) ==> Above(next, s);
        FollowAgrees(full, kept, s, next, rest[1..], links);
      }
    }
  }

  lemma PathOfIsPlain(e: TarEntry)
    requires var p := PathOf(e); p != [] ==> p[0] != ".."
    ensures !StartsUp(Parse(TrimSlash(Clean(e.name)))) && (PathOf(e) != [] ==> Base(PathOf(e)) != "..")
  {
    ParseIsNormal(TrimSlash(Clean(e.name)));
  }

  /** Two prefixes of one path are comparable. */
  lemma Comparable(a: Path, b: Path, q: Path)
    requires a <= q && b <= q
    ensures a <= b || b <= a
  {
    assert a == q[..|a|] && b == q[..|b|];
  }

  /** Creating parents for an entry outside `s` changes nothing below `s`. */
  lemma ParentsOutside(full: Unpacking, kept: Unpacking, s: Path, dir: Path)
    requires Agree(full, kept, s) && !(s <= dir)
    requires MakeParents(full.tree, dir).Some?
    ensures Agree(full.(tree := MakeParents(full.tree, dir).value), kept, s)
  {
    forall q | q in Prefixes(dir)
      ensures !(s <= q)
    {
      var k :| 1 <= k <= |dir| && q == dir[..k];
    }
  }

  /** Creating parents for an entry below `s` does the same below `s` in both trees. */
  lemma ParentsInside(full: Unpacking, kept: Unpacking, s: Path, dir: Path)
    requires Agree(full, kept, s) && (s <= dir || Above(dir, s))
    requires MakeParents(full.tree, dir).Some?
    ensures MakeParents(kept.tree, dir).Some?
    ensures Agree(full.(tree := MakeParents(full.tree, dir).value), kept.(tree := MakeParents(kept.tree, dir).value), s)
  {
    forall q | q in Prefixes(dir)
      ensures s <= q || Above(q, s)
      ensures q in kept.tree ==> kept.tree[q].Dir?
    {
      var k :| 1 <= k <= |dir| && q == dir[..k];
      if s <= dir { Comparable(s, q, dir); }
    }
  }

  /** What an entry that is placed outside `s` and does not hide it leaves below `s`. */
  lemma PlaceSpares(u: Unpacking, s: Path, dest: Path, e: TarEntry, q: Path)
    requires dest != [] && !(s <= dest) && !Hides(u.tree, s, dest, e) && Place(u, dest, e).Some? && s <= q
    ensures var after := Place(u, dest, e).value;
      && (q in after.tree <==> q in u.tree) && (q in u.tree ==> after.tree[q] == u.tree[q])
      && (q in after.written <==> q in u.written)
  {
    if IsOpaque(dest) {
      if Above(Parent(dest), q) { Comparable(s, Parent(dest), q); }
    } else if IsWhiteout(dest) {
      if Victim(dest) <= q { Comparable(s, Victim(dest), q); }
    } else if dest <= q {
      Comparable(s, dest, q);
    }
  }

  /** Above `s`, an entry that puts nothing but a directory there leaves nothing but directories. */
  lemma PlaceKeepsWay(u: Unpacking, s: Path, dest: Path, e: TarEntry, q: Path)
    requires dest != [] && Place(u, dest, e).Some? && Above(q, s)
    requires IsOpaque(dest) || IsWhiteout(dest) || (Above(dest, s) ==> e.body.TarDir?)
    requires q in u.tree ==> u.tree[q].Dir?
    ensures var after := Place(u, dest, e).value; q in after.tree ==> after.tree[q].Dir?
  {
  }

  lemma PlaceOutside(full: Unpacking, kept: Unpacking, s: Path, dest: Path, e: TarEntry)
    requires Agree(full, kept, s) && dest != [] && !(s <= dest) && !Hides(full.tree, s, dest, e)
    requires IsOpaque(dest) || IsWhiteout(dest) || (Above(dest, s) ==> e.body.TarDir?)
    requires Place(full, dest, e).Some?
    ensures Agree(Place(full, dest, e).value, kept, s)
  {
    var after := Place(full, dest, e).value;
    forall q | s <= q
      ensures q in after.tree <==> q in kept.tree
      ensures q in after.tree ==> after.tree[q] == kept.tree[q]
      ensures q in after.written <==> q in kept.written
    {
      PlaceSpares(full, s, dest, e, q);
    }
    forall q | q in after.tree && Above(q, s)
      ensures after.tree[q].Dir?
    {
      PlaceKeepsWay(full, s, dest, e, q);
    }
  }

  lemma PlaceInside(full: Unpacking, kept: Unpacking, s: Path, dest: Path, e: TarEntry)
    requires Agree(full, kept, s) && dest != [] && s <= dest && !Hides(full.tree, s, dest, e)
    requires e.body.TarHardlink? ==> s <= LinkTarget(e)
    requires Place(full, dest, e).Some?
    ensures Place(kept, dest, e).Some?
    ensures Agree(Place(full, dest, e).value, Place(kept, dest, e).value, s)
  {
    if IsOpaque(dest) {
      OpaqueInside(full, kept, s, Parent(dest));
    } else if IsWhiteout(dest) {
      RemoveInside(full, kept, s, Victim(dest));
    } else {
      WriteInside(full, kept, s, dest, e);
    }
  }

  lemma WriteInside(full: Unpacking, kept: Unpacking, s: Path, p: Path, e: TarEntry)
    requires Agree(full, kept, s) && s <= p && (e.body.TarHardlink? ==> s <= LinkTarget(e))
    requires Write(full, p, e).Some?
    ensures Write(kept, p, e).Some?
    ensures Agree(Write(full, p, e).value, Write(kept, p, e).value, s)
  {
    RemoveInside(full, kept, s, p);
    FillInside(full, kept, s, p, e);
    FillInside(full.(tree := RemoveTree(full.tree, p)), kept.(tree := RemoveTree(kept.tree, p)), s, p, e);
  }

  /** What an entry puts in place, once there is room for it. */
  function Filling(t: Tree, e: TarEntry): Option<Node> {
    if !e.body.TarHardlink? then Some(NodeOf(e))
    else if LinkTarget(e) in t && !t[LinkTarget(e)].Dir? then Some(t[LinkTarget(e)])
    else None
  }

  lemma FillInside(full: Unpacking, kept: Unpacking, s: Path, p: Path, e: TarEntry)
    requires Agree(full, kept, s) && s <= p && (e.body.TarHardlink? ==> s <= LinkTarget(e))
    ensures Filling(full.tree, e) == Filling(kept.tree, e)
    ensures Filling(full.tree, e).Some? ==>
      Agree(PutNode(full, p, Filling(full.tree, e).value), PutNode(kept, p, Filling(full.tree, e).value), s)
  {
    if Filling(full.tree, e).Some? {
      PutInside(full, kept, s, p, Filling(full.tree, e).value);
    }
  }

  lemma PutInside(full: Unpacking, kept: Unpacking, s: Path, p: Path, node: Node)
    requires Agree(full, kept, s) && s <= p
    ensures Agree(PutNode(full, p, node), PutNode(kept, p, node), s)
  {
  }

  lemma RemoveInside(full: Unpacking, kept: Unpacking, s: Path, p: Path)
    requires Agree(full, kept, s)
    ensures Agree(full.(tree := RemoveTree(full.tree, p)), kept.(tree := RemoveTree(kept.tree, p)), s)
  {
  }

  lemma OpaqueInside(full: Unpacking, kept: Unpacking, s: Path, dir: Path)
    requires Agree(full, kept, s) && !Above(dir, s)
    ensures Agree(full.(tree := ClearOpaque(full.tree, full.written, dir)),
                  kept.(tree := ClearOpaque(kept.tree, kept.written, dir)), s)
  {
    forall q | s <= q && q in full.tree
      ensures q in ClearOpaque(full.tree, full.written, dir) <==> q in ClearOpaque(kept.tree, kept.written, dir)
    {
      if Above(dir, q) {
        Comparable(s, dir, q);
        forall k | |dir| < k <= |q|
          ensures q[..k] in full.written <==> q[..k] in kept.written
        {
          assert s <= q[..k];
        }
      }
    }
  }

  lemma StepOutside(full: Unpacking, kept: Unpacking, s: Path, e: TarEntry)
    requires Agree(full, kept, s) && Harmless(full.tree, s, e) && !(s <= PathOf(e))
    requires ApplyEntry(full, e).Some?
    ensures Agree(ApplyEntry(full, e).value, kept, s)
  {
    var p := PathOf(e);
    if p != [] {
      PathOfIsPlain(e);
      var dest := Destination(full.tree, e).value;
      var dir := Parent(dest);
      assert dir == Follow(full.tree, [], Parent(p), MAX_LINKS).value;
      ParentsOutside(full, kept, s, dir);
      var ready := full.(tree := MakeParents(full.tree, dir).value);
      ParentsKeepDest(full.tree, dest);
      PlaceOutside(ready, kept, s, dest, e);
    }
  }

  /** Creating the parents of a place does not change what is there. */
  lemma ParentsKeepDest(t: Tree, dest: Path)
    requires dest != [] && MakeParents(t, Parent(dest)).Some?
    ensures var t' := MakeParents(t, Parent(dest)).value;
        (dest in t' <==> dest in t) && (dest in t ==> t'[dest] == t[dest])
  {
    forall q | q in Prefixes(Parent(dest))
      ensures q != dest
    {
      var k :| 1 <= k <= |Parent(dest)| && q == Parent(dest)[..k];
      assert |q| < |dest|;
    }
  }

  lemma StepInside(full: Unpacking, kept: Unpacking, s: Path, e: TarEntry)
    requires Agree(full, kept, s) && Harmless(full.tree, s, e) && s <= PathOf(e)
    requires ApplyEntry(full, e).Some?
    ensures ApplyEntry(kept, e).Some?
    ensures Agree(ApplyEntry(full, e).value, ApplyEntry(kept, e).value, s)
  {
    var p := PathOf(e);
    if p != [] {
      PathOfIsPlain(e);
      FollowAgrees(full, kept, s, [], Parent(p), MAX_LINKS);
      var dest := Destination(full.tree, e).value;
      var dir := Parent(dest);
      assert dir == Follow(full.tree, [], Parent(p), MAX_LINKS).value && dir + [Base(p)] == dest;
      PlacedInside(full, kept, s, dest, e);
    }
  }

  lemma PlacedInside(full: Unpacking, kept: Unpacking, s: Path, dest: Path, e: TarEntry)
    requires Agree(full, kept, s) && dest != [] && s <= dest && !Hides(full.tree, s, dest, e)
    requires e.body.TarHardlink? ==> s <= LinkTarget(e)
    requires MakeParents(full.tree, Parent(dest)).Some?
    requires Place(full.(tree := MakeParents(full.tree, Parent(dest)).value), dest, e).Some?
    ensures MakeParents(kept.tree, Parent(dest)).Some?
    ensures Place(kept.(tree := MakeParents(kept.tree, Parent(dest)).value), dest, e).Some?
    ensures Agree(Place(full.(tree := MakeParents(full.tree, Parent(dest)).value), dest, e).value,
                  Place(kept.(tree := MakeParents(kept.tree, Parent(dest)).value), dest, e).value, s)
  {
    assert s <= Parent(dest) || Above(Parent(dest), s);
    ParentsInside(full, kept, s, Parent(dest));
    ParentsKeepDest(full.tree, dest);
    PlaceInside(full.(tree := MakeParents(full.tree, Parent(dest)).value),
                kept.(tree := MakeParents(kept.tree, Parent(dest)).value), s, dest, e);
  }

  /** For a source path that does not go up, the filter is the component-wise prefix test. */
  lemma JudgeIsPrefix(srcPath: string, e: TarEntry)
    requires !DoubleSlash(srcPath) && !StartsUp(Parse(TrimSlash(srcPath)))
    requires var p := PathOf(e); p != [] ==> p[0] != ".."
    ensures Judge(Below(srcPath), e) == if SourceWords(srcPath) <= PathOf(e) then Keep else Drop
  {
    PathOfIsPlain(e);
    CleanHasOneSlash(e.name);
    FilterKeepsSubtree(srcPath, Clean(e.name));
  }

  lemma CleanHasOneSlash(name: string)
    ensures !DoubleSlash(Clean(name))
  {
    ParseIsNormal(name);
    var p, c := Parse(name), Clean(name);
    if p.words != [] {
      assert p.words[0][0] in p.words[0];
      assert c[if p.rooted then 1 else 0] == Join(p.words)[0] == p.words[0][0] != '/';
    }
  }

  lemma {:induction false} FilterEntries(full: Unpacking, kept: Unpacking, srcPath: string, entries: seq<TarEntry>)
    requires !DoubleSlash(srcPath) && !StartsUp(Parse(TrimSlash(srcPath)))
    requires Agree(full, kept, SourceWords(srcPath)) && AllHarmless(full, SourceWords(srcPath), entries)
    requires ApplyEntries(full, entries, Everything).Some?
    ensures ApplyEntries(kept, entries, Below(srcPath)).Some?
    ensures Agree(ApplyEntries(full, entries, Everything).value,
                  ApplyEntries(kept, entries, Below(srcPath)).value, SourceWords(srcPath))
    decreases |entries|
  {
    if entries != [] {
      var e := entries[0];
      JudgeIsPrefix(srcPath, e);
      var full' := ApplyEntry(full, e).value;
      if SourceWords(srcPath) <= PathOf(e) {
        StepInside(full, kept, SourceWords(srcPath), e);
        FilterEntries(full', ApplyEntry(kept, e).value, srcPath, entries[1..]);
      } else {
        StepOutside(full, kept, SourceWords(srcPath), e);
        FilterEntries(full', kept, srcPath, entries[1..]);
      }
    }
  }

  lemma {:induction false} FilterLayers(full: Tree, kept: Tree, srcPath: string, layers: seq<Layer>)
    requires !DoubleSlash(srcPath) && !StartsUp(Parse(TrimSlash(srcPath)))
    requires Agree(Unpacking(full, {}), Unpacking(kept, {}), SourceWords(srcPath))
    requires HarmlessLayers(full, SourceWords(srcPath), layers)
    requires ApplyLayers(full, layers, Everything).Some?
    ensures ApplyLayers(kept, layers, Below(srcPath)).Some?
    ensures Agree(Unpacking(ApplyLayers(full, layers, Everything).value, {}),
                  Unpacking(ApplyLayers(kept, layers, Below(srcPath)).value, {}), SourceWords(srcPath))
    decreases |layers|
  {
    if layers != [] {
      FilterEntries(Unpacking(full, {}), Unpacking(kept, {}), srcPath, layers[0]);
      FilterLayers(ApplyLayer(full, layers[0], Everything).value,
                   ApplyLayer(kept, layers[0], Below(srcPath)).value, srcPath, layers[1..]);
    }
  }

  /**
   Whenever all layers can be unpacked, the filtered unpack succeeds too, holds exactly the
   config directory's subtree of the full one, and beside it nothing but plain directories
   that lead there.
   */
  lemma FilteredUnpackIsSubtree(srcPath: string, layers: seq<Layer>)
    requires !DoubleSlash(srcPath) && !StartsUp(Parse(TrimSlash(srcPath)))
    requires HarmlessLayers(map[], SourceWords(srcPath), layers)
    requires ApplyLayers(map[], layers, Everything).Some?
    ensures ApplyLayers(map[], layers, Below(srcPath)).Some?
    ensures var s := SourceWords(srcPath);
            var full := ApplyLayers(map[], layers, Everything).value;
            var kept := ApplyLayers(map[], layers, Below(srcPath)).value;
            && Subtree(kept, s) == Subtree(full, s)
            && forall q :: q in kept ==> s <= q || (Above(q, s) && kept[q].Dir?)
  {
    FilterLayers(map[], map[], srcPath, layers);
    AgreeIsSubtree(ApplyLayers(map[], layers, Everything).value,
                   ApplyLayers(map[], layers, Below(srcPath)).value, SourceWords(srcPath));
  }

  lemma AgreeIsSubtree(full: Tree, kept: Tree, s: Path)
    requires Agree(Unpacking(full, {}), Unpacking(kept, {}), s)
    ensures Subtree(kept, s) == Subtree(full, s)
    ensures forall q :: q in kept ==> s <= q || (Above(q, s) && kept[q].Dir?)
  {
  }

  // ---------------------------------------------------------------------------------------
  // The same from the names and kinds of the entries alone.
  // ---------------------------------------------------------------------------------------

  predicate IsLink(e: TarEntry) { e.body.TarSymlink? || e.body.TarHardlink? }

  /** The names under which the layers have links. */
  function LinkPaths(layers: seq<Layer>): set<Path> {
    set i, j | 0 <= i < |layers| && 0 <= j < |layers[i]| && IsLink(layers[i][j]) :: PathOf(layers[i][j])
  }

  /**
   An entry whose name does not go up, is not below the name of a link, and neither whites out
   `s` or a directory above it nor puts anything but a directory there; a hard link below `s`
   is to something below `s`.
   */
  predicate WellNamed(s: Path, links: set<Path>, e: TarEntry) {
    var p := PathOf(e);
    p != [] ==>
      && p[0] != ".." && (forall q :: q in links ==> !Above(q, p)) && (IsLink(e) ==> p in links)
      && (e.body.TarHardlink? && s <= p ==> s <= LinkTarget(e))
      && if IsOpaque(p) then !Above(Parent(p), s)
         else if IsWhiteout(p) then !(Victim(p) <= s)
         else Above(p, s) ==> e.body.TarDir?
  }

  predicate AllWellNamed(s: Path, links: set<Path>, entries: seq<TarEntry>) {
    forall i :: 0 <= i < |entries| ==> WellNamed(s, links, entries[i])
  }

  predicate WellNamedLayers(s: Path, layers: seq<Layer>) {
    forall i :: 0 <= i < |layers| ==> AllWellNamed(s, LinkPaths(layers), layers[i])
  }

  /** Symbolic links only where links are named, and nothing but directories above `s`. */
  ghost predicate Tidy(t: Tree, s: Path, links: set<Path>) {
    && (forall q :: q in t && t[q].Symlink? ==> q in links)
    && (forall q :: q in t && Above(q, s) ==> t[q].Dir?)
  }

  ghost predicate PlainWords(p: Path) {
    forall i :: 0 <= i < |p| ==> p[i] != "" && p[i] != "." && p[i] != ".."
  }

  /** No symbolic link on the way from `done` on along `rest`. */
  ghost predicate NoLinks(t: Tree, done: Path, rest: Path) {
    forall k :: 0 < k <= |rest| && done + rest[..k] in t ==> !t[done + rest[..k]].Symlink?
  }

  lemma NoLinksLater(t: Tree, done: Path, rest: Path)
    requires rest != [] && NoLinks(t, done, rest)
    ensures done + [rest[0]] in t ==> !t[done + [rest[0]]].Symlink?
    ensures NoLinks(t, done + [rest[0]], rest[1..]) && done + [rest[0]] + rest[1..] == done + rest
  {
    assert rest[..1] == [rest[0]];
    forall k | 0 < k <= |rest[1..]|
      ensures done + [rest[0]] + rest[1..][..k] == done + rest[..k + 1]
    {
    }
  }

  /** Off the symbolic links, a path leads where it says. */
  lemma {:induction false} FollowPlain(t: Tree, done: Path, rest: Path, links: nat)
    requires PlainWords(rest) && NoLinks(t, done, rest)
    ensures Follow(t, done, rest, links) == Some(done + rest)
    decreases |rest|
  {
    if rest == [] {
      assert done + rest == done;
    } else {
      NoLinksLater(t, done, rest);
      FollowPlain(t, done + [rest[0]], rest[1..], links);
    }
  }

  /** And it keeps to `s` if it lies on the line through `s`. */
  lemma {:induction false} PlainKeepsTo(t: Tree, s: Path, done: Path, rest: Path, links: nat)
    requires PlainWords(rest) && NoLinks(t, done, rest) && (s <= done + rest || done + rest <= s)
    ensures KeepsTo(t, s, done, rest, links)
    decreases |rest|
  {
    if rest != [] {
      NoLinksLater(t, done, rest);
      var next := done + [rest[0]];
      assert next <= next + rest[1..];
      if s <= done + rest { Comparable(s, next, done + rest); }
      PlainKeepsTo(t, s, next, rest[1..], links);
    }
  }

  lemma NameIsPlain(e: TarEntry)
    requires PathOf(e) != [] && PathOf(e)[0] != ".."
    ensures PlainWords(PathOf(e)) && PlainWords(Parent(PathOf(e)))
  {
    ParseIsNormal(TrimSlash(Clean(e.name)));
  }

  lemma WayIsPlain(t: Tree, s: Path, links: set<Path>, e: TarEntry)
    requires Tidy(t, s, links) && WellNamed(s, links, e) && PathOf(e) != []
    ensures PlainWords(Parent(PathOf(e))) && NoLinks(t, [], Parent(PathOf(e))) && Base(PathOf(e)) != ".."
    ensures Destination(t, e) == Some(PathOf(e))
  {
    var p := PathOf(e);
    NameIsPlain(e);
    WayHasNoLinks(t, s, links, p);
    FollowPlain(t, [], Parent(p), MAX_LINKS);
    assert [] + Parent(p) == Parent(p) && Parent(p) + [Base(p)] == p;
  }

  lemma WayHasNoLinks(t: Tree, s: Path, links: set<Path>, p: Path)
    requires Tidy(t, s, links) && p != [] && forall q :: q in links ==> !Above(q, p)
    ensures NoLinks(t, [], Parent(p))
  {
    forall k | 0 < k <= |Parent(p)| && [] + Parent(p)[..k] in t
      ensures !t[[] + Parent(p)[..k]].Symlink?
    {
      assert [] + Parent(p)[..k] == p[..k] && Above(p[..k], p);
    }
  }

  lemma WellNamedIsHarmless(t: Tree, s: Path, links: set<Path>, e: TarEntry)
    requires Tidy(t, s, links) && WellNamed(s, links, e)
    ensures Harmless(t, s, e)
  {
    var p := PathOf(e);
    if p != [] {
      WayIsPlain(t, s, links, e);
      if s <= p {
        assert [] + Parent(p) == Parent(p) && (s <= Parent(p) || Parent(p) <= s);
        PlainKeepsTo(t, s, [], Parent(p), MAX_LINKS);
      }
    }
  }

  lemma PlaceKeepsTidy(u: Unpacking, s: Path, links: set<Path>, p: Path, e: TarEntry)
    requires Tidy(u.tree, s, links) && p != [] && Place(u, p, e).Some? && (IsLink(e) ==> p in links)
    requires IsOpaque(p) || IsWhiteout(p) || (Above(p, s) ==> e.body.TarDir?)
    ensures Tidy(Place(u, p, e).value.tree, s, links)
  {
  }

  lemma EntryKeepsTidy(u: Unpacking, s: Path, links: set<Path>, e: TarEntry)
    requires Tidy(u.tree, s, links) && WellNamed(s, links, e) && ApplyEntry(u, e).Some?
    ensures Tidy(ApplyEntry(u, e).value.tree, s, links)
  {
    var p := PathOf(e);
    if p != [] {
      WayIsPlain(u.tree, s, links, e);
      assert Follow(u.tree, [], Parent(p), MAX_LINKS) == Some(Parent(p)) by {
        FollowPlain(u.tree, [], Parent(p), MAX_LINKS);
        assert [] + Parent(p) == Parent(p);
      }
      assert Parent(p) + [Base(p)] == p;
      PlaceKeepsTidy(u.(tree := MakeParents(u.tree, Parent(p)).value), s, links, p, e);
    }
  }

  lemma {:induction false} WellNamedEntries(u: Unpacking, s: Path, links: set<Path>, entries: seq<TarEntry>)
    requires Tidy(u.tree, s, links) && AllWellNamed(s, links, entries)
    ensures AllHarmless(u, s, entries)
    ensures ApplyEntries(u, entries, Everything).Some? ==>
        Tidy(ApplyEntries(u, entries, Everything).value.tree, s, links)
    decreases |entries|
  {
    if entries != [] {
      assert WellNamed(s, links, entries[0]);
      WellNamedIsHarmless(u.tree, s, links, entries[0]);
      if ApplyEntry(u, entries[0]).Some? {
        EntryKeepsTidy(u, s, links, entries[0]);
        WellNamedEntries(ApplyEntry(u, entries[0]).value, s, links, entries[1..]);
      }
    }
  }

  lemma {:induction false} WellNamedFrom(t: Tree, s: Path, links: set<Path>, layers: seq<Layer>)
    requires Tidy(t, s, links) && forall i :: 0 <= i < |layers| ==> AllWellNamed(s, links, layers[i])
    ensures HarmlessLayers(t, s, layers)
    decreases |layers|
  {
    if layers != [] {
      WellNamedEntries(Unpacking(t, {}), s, links, layers[0]);
      if ApplyLayer(t, layers[0], Everything).Some? {
        WellNamedFrom(ApplyLayer(t, layers[0], Everything).value, s, links, layers[1..]);
      }
    }
  }

  /**
   For layers whose entries are well named, the filtered unpack holds exactly the config directory
   of the full one.
   */
  lemma FilteredUnpackByNames(srcPath: string, layers: seq<Layer>)
    requires !DoubleSlash(srcPath) && !StartsUp(Parse(TrimSlash(srcPath)))
    requires WellNamedLayers(SourceWords(srcPath), layers) && ApplyLayers(map[], layers, Everything).Some?
    ensures ApplyLayers(map[], layers, Below(srcPath)).Some?
    ensures var s := SourceWords(srcPath);
            var full := ApplyLayers(map[], layers, Everything).value;
            var kept := ApplyLayers(map[], layers, Below(srcPath)).value;
            && Subtree(kept, s) == Subtree(full, s)
            && forall q :: q in kept ==> s <= q || (Above(q, s) && kept[q].Dir?)
  {
    WellNamedFrom(map[], SourceWords(srcPath), LinkPaths(layers), layers);
    FilteredUnpackIsSubtree(srcPath, layers);
  }

  // ---------------------------------------------------------------------------------------
  // What an entry that the filter drops would have done.
  // ---------------------------------------------------------------------------------------

  /**
   What is left below `s` when an entry hides it: nothing, or after an opaque whiteout what this
   layer has written.
   */
  function LeftBelow(u: Unpacking, s: Path, dest: Path): Tree
    requires dest != []
  {
    if IsOpaque(dest) then Subtree(ClearOpaque(u.tree, u.written, Parent(dest)), s) else map[]
  }

  /**
   At any point of any layer: an entry that the filter drops and that ends up outside the config
   directory, wherever links lead it, changes the config directory of the full unpack exactly as
   `Hides` says, while the filtered unpack passes it over.
   */
  lemma DroppedEntryExact(u: Unpacking, srcPath: string, e: TarEntry)
    requires !DoubleSlash(srcPath) && !StartsUp(Parse(TrimSlash(srcPath)))
    requires PathOf(e) != [] && PathOf(e)[0] != ".." && !(SourceWords(srcPath) <= PathOf(e))
    requires Destination(u.tree, e).Some? && !(SourceWords(srcPath) <= Destination(u.tree, e).value)
    requires ApplyEntry(u, e).Some?
    ensures Judge(Below(srcPath), e) == Drop
    ensures var s, dest := SourceWords(srcPath), Destination(u.tree, e).value;
      Subtree(ApplyEntry(u, e).value.tree, s) == if Hides(u.tree, s, dest, e) then LeftBelow(u, s, dest)
        else Subtree(u.tree, s)
  {
    var s, dest := SourceWords(srcPath), Destination(u.tree, e).value;
    JudgeIsPrefix(srcPath, e);
    PathOfIsPlain(e);
    assert Parent(dest) == Follow(u.tree, [], Parent(PathOf(e)), MAX_LINKS).value;
    var ready := u.(tree := MakeParents(u.tree, Parent(dest)).value);
    ParentsKeepDest(u.tree, dest);
    ParentsSpare(u.tree, s, dest);
    if Hides(u.tree, s, dest, e) {
      HiddenAfter(ready, s, dest, e);
      SpareSame(u, ready, s, dest);
    } else {
      SparedAfter(ready, s, dest, e);
    }
  }

  lemma ParentsSpare(t: Tree, s: Path, dest: Path)
    requires dest != [] && !(s <= dest) && MakeParents(t, Parent(dest)).Some?
    ensures Subtree(MakeParents(t, Parent(dest)).value, s) == Subtree(t, s)
  {
    forall q | q in Prefixes(Parent(dest))
      ensures !(s <= q)
    {
      var k :| 1 <= k <= |Parent(dest)| && q == Parent(dest)[..k];
      assert q == dest[..k];
    }
  }

  lemma SpareSame(u: Unpacking, u': Unpacking, s: Path, dest: Path)
    requires dest != [] && Subtree(u.tree, s) == Subtree(u'.tree, s) && u.written == u'.written
    ensures LeftBelow(u, s, dest) == LeftBelow(u', s, dest)
  {
    if IsOpaque(dest) {
      var a, b := ClearOpaque(u.tree, u.written, Parent(dest)), ClearOpaque(u'.tree, u'.written, Parent(dest));
      forall q | s <= q
        ensures q in a <==> q in b
        ensures q in a ==> a[q] == b[q]
      {
        assert q in u.tree <==> q in Subtree(u.tree, s);
        assert q in u'.tree <==> q in Subtree(u'.tree, s);
        assert q in u.tree ==> u.tree[q] == Subtree(u.tree, s)[q] == u'.tree[q];
      }
    }
  }

  lemma HiddenAfter(u: Unpacking, s: Path, dest: Path, e: TarEntry)
    requires dest != [] && !(s <= dest) && Hides(u.tree, s, dest, e) && Place(u, dest, e).Some?
    ensures Subtree(Place(u, dest, e).value.tree, s) == LeftBelow(u, s, dest)
  {
  }

  lemma SparedAfter(u: Unpacking, s: Path, dest: Path, e: TarEntry)
    requires dest != [] && !(s <= dest) && !Hides(u.tree, s, dest, e) && Place(u, dest, e).Some?
    ensures Subtree(Place(u, dest, e).value.tree, s) == Subtree(u.tree, s)
  {
    forall q | s <= q
      ensures var after := Place(u, dest, e).value;
          (q in after.tree <==> q in u.tree) && (q in u.tree ==> after.tree[q] == u.tree[q])
    {
      PlaceSpares(u, s, dest, e, q);
    }
  }

  /** All of `q` below `dir` was written by this layer. */
  ghost predicate WrittenBelow(u: Unpacking, dir: Path, q: Path) {
    forall k :: |dir| < k <= |q| ==> q[..k] in u.written
  }

  /**
   What an entry has done where it is placed: cleared the directory of what this layer did not
   write, taken its victim away, or put itself there, noted as written; the rest is as it was.
   */
  ghost predicate HasTakenEffect(u: Unpacking, after: Unpacking, dest: Path, e: TarEntry)
    requires dest != []
  {
    if IsOpaque(dest) then
      && after.written == u.written
      && forall q :: q in after.tree <==> q in u.tree && (Above(Parent(dest), q) ==> WrittenBelow(u, Parent(dest), q))
    else if IsWhiteout(dest) then
      after.written == u.written && forall q :: q in after.tree <==> q in u.tree && !(Victim(dest) <= q)
    else
      && dest in after.tree && after.written == u.written + {dest}
          && (!e.body.TarHardlink? ==> after.tree[dest] == NodeOf(e))
      && (dest in u.tree && u.tree[dest].Dir? && e.body.TarDir? ==> forall q :: q in after.tree <==> q in u.tree)
      && (!(dest in u.tree && u.tree[dest].Dir? && e.body.TarDir?) ==>
            forall q :: q in after.tree <==> q == dest || (q in u.tree && (dest in u.tree ==> !(dest <= q))))
  }

  /**
   The other case: an entry that the filter drops by its name, and that a link leads into the
   config directory. It takes effect there in the full unpack; the filtered unpack passes it over.
   */
  lemma DroppedEntryInside(u: Unpacking, srcPath: string, e: TarEntry)
    requires !DoubleSlash(srcPath) && !StartsUp(Parse(TrimSlash(srcPath)))
    requires PathOf(e) != [] && PathOf(e)[0] != ".." && !(SourceWords(srcPath) <= PathOf(e))
    requires Destination(u.tree, e).Some? && SourceWords(srcPath) <= Destination(u.tree, e).value
    requires ApplyEntry(u, e).Some?
    ensures Judge(Below(srcPath), e) == Drop
    ensures var dest := Destination(u.tree, e).value;
      && MakeParents(u.tree, Parent(dest)).Some?
      && HasTakenEffect(u.(tree := MakeParents(u.tree, Parent(dest)).value), ApplyEntry(u, e).value, dest, e)
  {
    var dest := Destination(u.tree, e).value;
    JudgeIsPrefix(srcPath, e);
    PathOfIsPlain(e);
    assert Parent(dest) == Follow(u.tree, [], Parent(PathOf(e)), MAX_LINKS).value;
    PlaceTakesEffect(u.(tree := MakeParents(u.tree, Parent(dest)).value), dest, e);
  }

  lemma PlaceTakesEffect(u: Unpacking, dest: Path, e: TarEntry)
    requires dest != [] && Place(u, dest, e).Some?
    ensures HasTakenEffect(u, Place(u, dest, e).value, dest, e)
  {
  }

  /** A name whose elements are plain is the path of its entry. */
  lemma PathOfName(words: Path, mode: Mode, body: TarBody)
    requires words != [] && CleanPath(false, words).Normal()
    ensures PathOf(TarEntry(Join(words), mode, body)) == words
  {
    ParseRender(CleanPath(false, words));
    assert Render(CleanPath(false, words)) == Join(words);
    assert words[0][0] in words[0];
    assert Join(words)[0] == words[0][0] != '/';
  }

  /** A symbolic link to the config directory, and a file by way of it. */
  function LinkThenFile(s: Path, link: string, file: string, mode: Mode, blobs: seq<Blob>): Layer {
    [TarEntry(Join([link]), mode, TarSymlink("/" + Join(s))), TarEntry(Join([link, file]), mode, TarFile(blobs))]
  }

  predicate IsPlainName(word: string) {
    NoSlash(word) && word !in {"", ".", "..", OPAQUE} && !(WHITEOUT <= word)
  }

  /** The two entries on an empty tree: the file ends up in the config directory. */
  lemma LinkedFileArrives(s: Path, link: string, file: string, mode: Mode, blobs: seq<Blob>)
    requires s != [] && PlainWords(s) && (forall i :: 0 <= i < |s| ==> NoSlash(s[i]))
    requires IsPlainName(link) && IsPlainName(file) && link != s[0]
    ensures var u := ApplyEntries(Unpacking(map[], {}), LinkThenFile(s, link, file, mode, blobs), Everything);
      u.Some? && s + [file] in u.value.tree && u.value.tree[s + [file]] == File(mode | OWNER_ALL, blobs)
  {
    var both := LinkThenFile(s, link, file, mode, blobs);
    PathOfName([link], mode, both[0].body);
    PathOfName([link, file], mode, both[1].body);
    var target := "/" + Join(s);
    var u1 := Unpacking(map[[link] := Symlink(target)], {[link]});
    FirstLink(link, target, both[0]);
    TargetSplits(s);
    SecondFollows(u1.tree, s, link, target);
    FileGoesTo(u1, s, link, file, both[1]);
    TwoEntries(Unpacking(map[], {}), u1, both);
  }

  lemma FileGoesTo(u: Unpacking, s: Path, link: string, file: string, e: TarEntry)
    requires s != [] && link != s[0] && u.tree.Keys == {[link]} && IsPlainName(file)
    requires PathOf(e) == [link, file] && e.body.TarFile? && Follow(u.tree, [], [link], MAX_LINKS) == Some(s)
    ensures ApplyEntry(u, e).Some? && s + [file] in ApplyEntry(u, e).value.tree
    ensures ApplyEntry(u, e).value.tree[s + [file]] == NodeOf(e)
  {
    assert Parent([link, file]) == [link] && Base([link, file]) == file;
    NothingInTheWay(u.tree, s, link);
    var ready := u.(tree := MakeParents(u.tree, s).value);
    assert Base(s + [file]) == file;
    assert ApplyEntry(u, e) == Place(ready, s + [file], e) == Write(ready, s + [file], e);
  }

  lemma FirstLink(link: string, target: string, e: TarEntry)
    requires PathOf(e) == [link] && IsPlainName(link) && e.body == TarSymlink(target)
    ensures ApplyEntry(Unpacking(map[], {}), e) == Some(Unpacking(map[[link] := Symlink(target)], {[link]}))
  {
    var empty: Tree := map[];
    assert Parent([link]) == [] && Base([link]) == link && Follow(empty, [], [], MAX_LINKS) == Some([]);
    assert Prefixes([]) == {};
    assert MakeParents(empty, []).value == empty;
    var u := Unpacking(empty, {});
    assert [] + [link] == [link];
    assert ApplyEntry(u, e) == Place(u, [link], e) == Write(u, [link], e);
    assert u.written + {[link]} == {[link]};
  }

  lemma TargetSplits(s: Path)
    requires s != [] && forall i :: 0 <= i < |s| ==> NoSlash(s[i])
    ensures Split("/" + Join(s)) == [""] + s
  {
    SlashSplits(Join(s));
    SplitJoin(s);
  }

  lemma SlashSplits(rest: string)
    ensures Split("/" + rest) == [""] + Split(rest)
  {
    assert ("/" + rest)[1..] == rest;
  }

  /** By way of a link at the top to `s`, one gets to `s`. */
  lemma SecondFollows(t: Tree, s: Path, link: string, target: string)
    requires s != [] && PlainWords(s) && link != s[0] && PlainWords([link])
    requires t.Keys == {[link]} && t[[link]] == Symlink(target) && Split(target) == [""] + s && "/" <= target
    ensures Follow(t, [], [link], MAX_LINKS) == Some(s)
  {
    var rest := Split(target) + [link][1..];
    assert rest == [""] + s && rest[1..] == s && [] + [link] == [link] && [link][0] == link;
    forall k | 0 < k <= |s|
      ensures [] + s[..k] !in t
    {
      assert ([] + s[..k])[0] == s[0];
    }
    FollowPlain(t, [], s, MAX_LINKS - 1);
    assert [] + s == s;
  }

  lemma NothingInTheWay(t: Tree, s: Path, link: string)
    requires s != [] && link != s[0] && t.Keys == {[link]}
    ensures MakeParents(t, s).Some?
  {
    forall q | q in Prefixes(s)
      ensures q !in t
    {
      var k :| 1 <= k <= |s| && q == s[..k];
      assert q[0] == s[0];
    }
  }

  lemma TwoEntries(u: Unpacking, u1: Unpacking, both: seq<TarEntry>)
    requires |both| == 2 && ApplyEntry(u, both[0]) == Some(u1)
    ensures ApplyEntries(u, both, Everything) == ApplyEntry(u1, both[1])
  {
    assert both[1..] == [both[1]] && [both[1]][1..] == [];
    assert forall v :: ApplyEntries(v, [], Everything) == Some(v);
  }

  /**
   For every source path that is not the root, a layer of two entries shows it: the full unpack
   has a file in the config directory that the filtered unpack does not have.
   */
  lemma LinkedFileIsMissed(srcPath: string, link: string, file: string, mode: Mode, blobs: seq<Blob>)
    requires !DoubleSlash(srcPath) && !StartsUp(Parse(TrimSlash(srcPath))) && SourceWords(srcPath) != []
    requires IsPlainName(link) && IsPlainName(file) && link != SourceWords(srcPath)[0]
    ensures var s, layer := SourceWords(srcPath), LinkThenFile(SourceWords(srcPath), link, file, mode, blobs);
      && ApplyLayer(map[], layer, Everything).Some?
      && Subtree(ApplyLayer(map[], layer, Everything).value, s) != map[]
      && ApplyLayer(map[], layer, Below(srcPath)) == Some(map[])
  {
    var s := SourceWords(srcPath);
    ParseIsNormal(TrimSlash(srcPath));
    assert PlainWords(s);
    LinkedFileArrives(s, link, file, mode, blobs);
    var layer := LinkThenFile(s, link, file, mode, blobs);
    assert s + [file] in Subtree(ApplyLayer(map[], layer, Everything).value, s);
    LinkedFileIsDropped(srcPath, link, file, mode, blobs);
  }

  lemma LinkedFileIsDropped(srcPath: string, link: string, file: string, mode: Mode, blobs: seq<Blob>)
    requires !DoubleSlash(srcPath) && !StartsUp(Parse(TrimSlash(srcPath))) && SourceWords(srcPath) != []
    requires IsPlainName(link) && IsPlainName(file) && link != SourceWords(srcPath)[0]
    ensures ApplyLayer(map[], LinkThenFile(SourceWords(srcPath), link, file, mode, blobs), Below(srcPath))
        == Some(map[])
  {
    var layer := LinkThenFile(SourceWords(srcPath), link, file, mode, blobs);
    PathOfName([link], mode, layer[0].body);
    PathOfName([link, file], mode, layer[1].body);
    JudgeIsPrefix(srcPath, layer[0]);
    JudgeIsPrefix(srcPath, layer[1]);
    DroppedTwice(Unpacking(map[], {}), layer, Below(srcPath));
  }

  lemma DroppedTwice(u: Unpacking, both: seq<TarEntry>, scope: Scope)
    requires |both| == 2 && Judge(scope, both[0]) == Drop && Judge(scope, both[1]) == Drop
    ensures ApplyEntries(u, both, scope) == Some(u)
  {
    assert both[1..] == [both[1]] && [both[1]][1..] == [];
    assert ApplyEntries(u, [], scope) == Some(u);
  }

  // ---------------------------------------------------------------------------------------
  // Links.
  // ---------------------------------------------------------------------------------------

  /** A relative link leads on from the directory it is in, an absolute one from the unpack directory. */
  lemma LinkLeads(t: Tree, done: Path, link: string, words: Path, rooted: bool, links: nat)
    requires PlainElements([link]) && PlainElements(words) && words != [] && links > 0
    requires done + [link] in t && t[done + [link]] == Symlink((if rooted then "/" else "") + Join(words))
    requires NoLinks(t, if rooted then [] else done, words)
    ensures Follow(t, done, [link], links) == Some(if rooted then words else done + words)
  {
    var target := (if rooted then "/" else "") + Join(words);
    SplitJoin(words);
    SlashSplits(Join(words));
    PlainReadsBack(words);
    assert "" + Join(words) == Join(words);
    assert "/" <= target <==> LeadingSlash(target);
    assert [link][0] == link && [link][1..] == [];
    var base := if rooted then [] else done;
    assert Split(target) + [] == if rooted then [""] + words else words;
    assert ([""] + words)[1..] == words;
    FollowPlain(t, base, words, links - 1);
    assert [] + words == words;
  }

  /** Going up stops at the unpack directory. */
  lemma UpLeads(t: Tree, done: Path, links: nat)
    ensures Follow(t, done, [".."], links) == Some(if done == [] then [] else done[..|done| - 1])
  {
    assert [".."][0] == ".." && [".."][1..] == [];
  }

  /** An entry's path is its name, with a leading "/" or "./" or without. */
  lemma PathOfPlainName(words: Path, mode: Mode, body: TarBody)
    requires PlainElements(words)
    ensures PathOf(TarEntry(Join(words), mode, body)) == words
    ensures PathOf(TarEntry("/" + Join(words), mode, body)) == words
    ensures PathOf(TarEntry("./" + Join(words), mode, body)) == words
  {
    PlainReadsBack(words);
    RenderedPath(CleanPath(false, words));
    RenderedPath(CleanPath(true, words));
  }

  lemma RenderedPath(p: CleanPath)
    requires PlainElements(p.words)
    ensures Parse(TrimSlash(Render(p))).words == p.words
  {
    PlainReadsBack(p.words);
    ParseRender(p);
    assert ("/" + Join(p.words))[1..] == Join(p.words);
  }

  /** And the config directory's path is the label, in the same way. */
  lemma SourceOfPlainLabel(words: Path)
    requires PlainElements(words)
    ensures SourceWords(Join(words)) == words && SourceWords("/" + Join(words)) == words
  {
    PlainReadsBack(words);
    assert ("/" + Join(words))[1..] == Join(words);
  }

  /** A link to itself leads nowhere. */
  lemma {:induction false} SelfLinkFails(t: Tree, done: Path, link: string, links: nat)
    requires PlainElements([link]) && done + [link] in t && t[done + [link]] == Symlink(link)
    ensures Follow(t, done, [link], links).None?
    decreases links
  {
    assert [link][0] == link && link[0] in link && !("/" <= link);
    if links > 0 {
      SplitWord(link);
      assert Split(link) + [link][1..] == [link];
      SelfLinkFails(t, done, link, links - 1);
    }
  }

  // ---------------------------------------------------------------------------------------
  // Entries by name.
  // ---------------------------------------------------------------------------------------

  /** With no links and nothing but directories on the way, an entry is placed where its name says. */
  lemma PlacedByName(u: Unpacking, dir: Path, name: string, e: TarEntry)
    requires PlainElements(dir) && PathOf(e) == dir + [name] && name != ".."
    requires NoLinks(u.tree, [], dir) && MakeParents(u.tree, dir).Some?
    ensures ApplyEntry(u, e) == Place(u.(tree := MakeParents(u.tree, dir).value), dir + [name], e)
  {
    assert Parent(dir + [name]) == dir && Base(dir + [name]) == name;
    FollowPlain(u.tree, [], dir, MAX_LINKS);
    assert [] + dir == dir;
  }

  /** An entry called ".wh.x" takes away the x beside it, with all that is in it, and nothing else. */
  lemma WhiteoutByName(u: Unpacking, dir: Path, name: string, e: TarEntry, q: Path)
    requires PlainElements(dir) && PlainElements([name]) && PathOf(e) == dir + [".wh." + name]
    requires ".wh." + name != ".wh..wh..opq"
    requires NoLinks(u.tree, [], dir) && MakeParents(u.tree, dir).Some?
    ensures ApplyEntry(u, e).Some?
    ensures var t := MakeParents(u.tree, dir).value;
      var after := ApplyEntry(u, e).value.tree;
      && (q in after <==> q in t && !(dir + [name] <= q)) && (q in after ==> after[q] == t[q])
  {
    var p := dir + [".wh." + name];
    assert [name][0] == name;
    assert (".wh." + name)[4..] == name && p[|dir|] == ".wh." + name;
    PlacedByName(u, dir, ".wh." + name, e);
    assert Parent(p) == dir && Base(p) == ".wh." + name;
    assert Victim(p) == dir + [name] && Base(Victim(p)) == name;
  }

  /**
   An entry called ".wh..wh..opq" takes away all that is in its directory and was not written by
   this layer.
   */
  lemma OpaqueByName(u: Unpacking, dir: Path, e: TarEntry, q: Path)
    requires PlainElements(dir) && PathOf(e) == dir + [".wh..wh..opq"]
    requires NoLinks(u.tree, [], dir) && MakeParents(u.tree, dir).Some?
    ensures ApplyEntry(u, e).Some?
    ensures var t := MakeParents(u.tree, dir).value;
      var after := ApplyEntry(u, e).value.tree;
      && (q in after <==> q in t && (Above(dir, q) ==> WrittenBelow(u, dir, q))) && (q in after ==> after[q] == t[q])
  {
    var p := dir + [".wh..wh..opq"];
    PlacedByName(u, dir, ".wh..wh..opq", e);
    assert Parent(p) == dir && Base(p) == ".wh..wh..opq";
  }

  /** A hard link puts in place what its target is, and fails exactly if that is a directory or not there. */
  lemma HardlinkExact(u: Unpacking, dest: Path, e: TarEntry, target: Path)
    requires dest != [] && !IsOpaque(dest) && !IsWhiteout(dest) && dest !in u.tree
    requires e.body.TarHardlink? && PlainElements(target) && e.body.link in {Join(target), "/" + Join(target)}
    ensures Place(u, dest, e).Some? <==> target in u.tree && !u.tree[target].Dir?
    ensures Place(u, dest, e).Some? ==> Place(u, dest, e).value.tree == u.tree[dest := u.tree[target]]
  {
    SourceOfPlainLabel(target);
  }
}
