/**
 The two views of an unpacked directory: nested nodes, as the system calls meet them, and a map
 from paths to nodes, as layers are applied to it. Sealing, opening and removing mean the same
 in both.
 */
module Disk {
  import opened Prelude
  import opened Layers
  import opened Removal

  function Child(entries: seq<FsEntry>, name: string): Option<FsNode> {
    if entries == [] then None
    else if entries[0].name == name then Some(entries[0].node)
    else Child(entries[1..], name)
  }

  /** What is at a path below `node`. */
  function NodeAt(node: FsNode, p: Path): Option<FsNode>
    decreases |p|
  {
    if p == [] then Some(node)
    else if !node.Folder? then None
    else
      match Child(node.entries, p[0])
      case None => None
      case Some(child) => NodeAt(child, p[1..])
  }

  /** A node by itself, without what is in it. */
  function Flat(node: FsNode): Node {
    match node
    case Folder(mode, _) => Dir(mode)
    case Regular(mode, data) => File(mode, data)
    case Link(target) => Symlink(target)
    case Other(mode) => Special(mode)
  }

  /** The nested directory `node` holds exactly the tree `t`. */
  ghost predicate Depicts(node: FsNode, t: Tree) {
    && node.Folder?
    && (forall p :: p in t ==> p != [])
    && (forall p | p != [] :: NodeAt(node, p).Some? <==> p in t)
    && (forall p | p != [] && NodeAt(node, p).Some? :: Flat(NodeAt(node, p).value) == t[p])
  }

  ghost predicate DistinctNames(entries: seq<FsEntry>) {
    forall i, j :: 0 <= i < j < |entries| ==> entries[i].name != entries[j].name
  }

  /** No directory holds two entries of one name. */
  ghost predicate NoClash(node: FsNode) {
    forall n :: n in Nodes(node) && n.Folder? ==> DistinctNames(n.entries)
  }

  // ---------------------------------------------------------------------------------------
  // Nodes and paths.
  // ---------------------------------------------------------------------------------------

  lemma {:induction false} ChildIsNode(entries: seq<FsEntry>, name: string)
    requires Child(entries, name).Some?
    ensures Nodes(Child(entries, name).value) <= NodesOf(entries)
  {
    if entries[0].name != name {
      ChildIsNode(entries[1..], name);
    }
  }

  lemma {:induction false} PathLeadsToNode(node: FsNode, p: Path)
    requires NodeAt(node, p).Some?
    ensures NodeAt(node, p).value in Nodes(node)
    decreases |p|
  {
    if p != [] {
      ChildIsNode(node.entries, p[0]);
      PathLeadsToNode(Child(node.entries, p[0]).value, p[1..]);
    }
  }

  lemma {:induction false} ChildByIndex(entries: seq<FsEntry>, k: nat)
    requires k < |entries| && DistinctNames(entries)
    ensures Child(entries, entries[k].name) == Some(entries[k].node)
  {
    if k > 0 {
      assert entries[0].name != entries[k].name;
      ChildByIndex(entries[1..], k - 1);
    }
  }

  lemma {:induction false} EntryOfNode(entries: seq<FsEntry>, n: FsNode) returns (k: nat)
    requires n in NodesOf(entries)
    ensures k < |entries| && n in Nodes(entries[k].node) && Nodes(entries[k].node) <= NodesOf(entries)
  {
    if n in Nodes(entries[0].node) {
      k := 0;
    } else {
      k := EntryOfNode(entries[1..], n);
      k := k + 1;
    }
  }

  /** Every node has a path. */
  lemma {:induction false} NodeHasPath(node: FsNode, n: FsNode) returns (p: Path)
    requires NoClash(node) && n in Nodes(node)
    ensures NodeAt(node, p) == Some(n)
    decreases node
  {
    if n == node {
      p := [];
    } else {
      assert node in Nodes(node);
      var k := EntryOfNode(node.entries, n);
      ChildByIndex(node.entries, k);
      var child := node.entries[k].node;
      assert child < node by { assert node.entries[k] < node; }
      var rest := NodeHasPath(child, n);
      p := [node.entries[k].name] + rest;
      assert p[1..] == rest;
    }
  }

  // ---------------------------------------------------------------------------------------
  // Sealing.
  // ---------------------------------------------------------------------------------------

  lemma {:induction false} SealedChild(parent: Mode, entries: seq<FsEntry>, name: string)
    requires CanSearch(parent) && MakeEachReadOnly(parent, entries).Some?
    ensures var sealed := MakeEachReadOnly(parent, entries).value;
      && (Child(sealed, name).Some? <==> Child(entries, name).Some?)
      && (Child(entries, name).Some? ==> MakeReadOnly(parent, Child(entries, name).value) == Child(sealed, name))
  {
    if entries != [] {
      var first := entries[0].(node := MakeReadOnly(parent, entries[0].node).value);
      var rest := MakeEachReadOnly(parent, entries[1..]).value;
      assert ([first] + rest)[1..] == rest;
      if entries[0].name != name {
        SealedChild(parent, entries[1..], name);
      }
    }
  }

  lemma {:induction false} SealedAt(parent: Mode, node: FsNode, p: Path)
    requires CanSearch(parent) && MakeReadOnly(parent, node).Some?
    ensures var sealed := MakeReadOnly(parent, node).value;
      && (NodeAt(sealed, p).Some? <==> NodeAt(node, p).Some?)
      && (NodeAt(node, p).Some? ==> Flat(NodeAt(sealed, p).value) == SealNode(Flat(NodeAt(node, p).value)))
    decreases |p|
  {
    if p != [] && node.Folder? {
      SealedChild(OWNER_READ_SEARCH, node.entries, p[0]);
      if Child(node.entries, p[0]).Some? {
        SealedAt(OWNER_READ_SEARCH, Child(node.entries, p[0]).value, p[1..]);
      }
    }
  }

  /** setReadOnlyRecursive on the nested directory is sealing the tree it holds. */
  lemma SealIsMakeReadOnly(parent: Mode, node: FsNode, t: Tree)
    requires CanSearch(parent) && Depicts(node, t) && NoClash(node)
    ensures MakeReadOnly(parent, node).Some? <==> Seal(t).Some?
    ensures MakeReadOnly(parent, node).Some? ==> Depicts(MakeReadOnly(parent, node).value, Seal(t).value)
  {
    MakeReadOnlySeals(parent, node);
    if HasOther(Nodes(node)) {
      var n :| n in Nodes(node) && n.Other?;
      var p := NodeHasPath(node, n);
      assert p in t && t[p].Special?;
    }
    if Seal(t).None? {
      var q :| q in t && t[q].Special?;
      PathLeadsToNode(node, q);
    }
    if MakeReadOnly(parent, node).Some? {
      forall p | p != []
        ensures NodeAt(MakeReadOnly(parent, node).value, p).Some? <==> p in t
        ensures p in t ==> Flat(NodeAt(MakeReadOnly(parent, node).value, p).value) == SealNode(t[p])
      {
        SealedAt(parent, node, p);
      }
    }
  }

  // ---------------------------------------------------------------------------------------
  // Removal.
  // ---------------------------------------------------------------------------------------

  lemma {:induction false} OpenedChild(parent: Mode, entries: seq<FsEntry>, name: string)
    requires CanSearch(parent) && MakeEachWritable(parent, entries).Some?
    ensures var widened := MakeEachWritable(parent, entries).value;
      && (Child(widened, name).Some? <==> Child(entries, name).Some?)
      && (Child(entries, name).Some? ==> MakeWritable(parent, Child(entries, name).value) == Child(widened, name))
  {
    if entries != [] {
      var first := entries[0].(node := MakeWritable(parent, entries[0].node).value);
      var rest := MakeEachWritable(parent, entries[1..]).value;
      assert ([first] + rest)[1..] == rest;
      if entries[0].name != name {
        OpenedChild(parent, entries[1..], name);
      }
    }
  }

  lemma {:induction false} OpenedAt(parent: Mode, node: FsNode, p: Path)
    requires CanSearch(parent) && MakeWritable(parent, node).Some?
    ensures var widened := MakeWritable(parent, node).value;
      && (NodeAt(widened, p).Some? <==> NodeAt(node, p).Some?)
      && (NodeAt(node, p).Some? ==> Flat(NodeAt(widened, p).value) == OpenNode(Flat(NodeAt(node, p).value)))
    decreases |p|
  {
    if p != [] && node.Folder? {
      OpenedChild(OWNER_ALL, node.entries, p[0]);
      if Child(node.entries, p[0]).Some? {
        OpenedAt(OWNER_ALL, Child(node.entries, p[0]).value, p[1..]);
      }
    }
  }

  /** The walk of deleteRecursive over the nested directory opens the tree it holds. */
  lemma OpenUpIsMakeWritable(parent: Mode, node: FsNode, t: Tree)
    requires CanSearch(parent) && Depicts(node, t)
    ensures MakeWritable(parent, node).Some? && Depicts(MakeWritable(parent, node).value, OpenUp(t))
  {
    MakeWritableOpens(parent, node);
    forall p | p != []
      ensures NodeAt(MakeWritable(parent, node).value, p).Some? <==> p in t
      ensures p in t ==> Flat(NodeAt(MakeWritable(parent, node).value, p).value) == OpenNode(t[p])
    {
      OpenedAt(parent, node, p);
    }
  }

  lemma {:induction false} PathsJoin(node: FsNode, p: Path, q: Path)
    requires NodeAt(node, p).Some?
    ensures NodeAt(node, p + q) == NodeAt(NodeAt(node, p).value, q)
    decreases |p|
  {
    if p == [] {
      assert p + q == q;
    } else {
      assert (p + q)[0] == p[0] && (p + q)[1..] == p[1..] + q;
      PathsJoin(Child(node.entries, p[0]).value, p[1..], q);
    }
  }

  /** A directory has entries exactly if the tree has paths below it. */
  lemma EntriesArePathsBelow(node: FsNode, t: Tree, p: Path)
    requires Depicts(node, t) && NodeAt(node, p).Some? && NodeAt(node, p).value.Folder?
    ensures NodeAt(node, p).value.entries != [] <==> exists r :: r in t && Above(p, r)
  {
    var folder := NodeAt(node, p).value;
    if folder.entries != [] {
      var r := p + [folder.entries[0].name];
      PathsJoin(node, p, [folder.entries[0].name]);
      assert Child(folder.entries, folder.entries[0].name) == Some(folder.entries[0].node);
      assert r in t && Above(p, r);
    }
    if exists r :: r in t && Above(p, r) {
      var r :| r in t && Above(p, r);
      assert p + r[|p|..] == r;
      PathsJoin(node, p, r[|p|..]);
    }
  }

  /**
   os.RemoveAll of a nested directory that is itself open gets through exactly if the tree in it
   is removable.
   */
  lemma RemoveAllIsRemovable(parent: Mode, node: FsNode, t: Tree)
    requires CanWrite(parent) && CanSearch(parent) && Depicts(node, t) && NoClash(node) && Full(node.mode)
    ensures RemoveAll(parent, node).None? <==> Removable(t) && (t != map[] ==> CanRead(parent))
  {
    RemoveAllExact(parent, node);
    EntriesArePathsBelow(node, t, []);
    assert IsFilled(node) <==> t != map[] by {
      if t != map[] {
        var r :| r in t;
        assert Above([], r);
      }
    }
    if Removable(t) {
      forall n | n in Nodes(node) && n.Folder? && n.entries != []
        ensures Full(n.mode)
      {
        var p := NodeHasPath(node, n);
        EntriesArePathsBelow(node, t, p);
        if p != [] { assert t[p] == Flat(n); }
      }
    }
    if Open(Nodes(node)) {
      forall q | q in t && t[q].Dir? && (exists r :: r in t && Above(q, r))
        ensures Full(t[q].mode)
      {
        PathLeadsToNode(node, q);
        EntriesArePathsBelow(node, t, q);
      }
    }
  }

  /** Opened up, every tree is removable. */
  lemma OpenedIsRemovable(t: Tree)
    ensures Removable(OpenUp(t))
  {
  }
}
