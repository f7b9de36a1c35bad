/**
 Removing directory trees under Unix permissions: `os.RemoveAll`, the recursive delete that
 first makes directories writable, and the pass that makes an unpacked catalog read-only.
 Every file belongs to the process, which has no special privileges.
 */
module Removal {
  import opened Prelude

  datatype FsNode =
    | Regular(mode: Mode, data: seq<string>)
    | Link(target: string)
    | Other(mode: Mode)
    | Folder(mode: Mode, entries: seq<FsEntry>)

  datatype FsEntry = FsEntry(name: string, node: FsNode)

  /** A directory with something in it. */
  predicate IsFilled(node: FsNode) { node.Folder? && node.entries != [] }

  predicate Full(m: Mode) { CanRead(m) && CanWrite(m) && CanSearch(m) }

  /**
   os.RemoveAll: what is left of `node`, which sits in a directory with mode `parent`. Files and
   empty directories are removed directly; for anything else the parent is opened for reading.
   */
  function RemoveAll(parent: Mode, node: FsNode): Option<FsNode>
    decreases node, 0
  {
    if !CanSearch(parent) then Some(node)
    else if !IsFilled(node) then if CanWrite(parent) then None else Some(node)
    else if !CanRead(parent) then Some(node)
    else
      var left := if CanRead(node.mode) then RemoveEach(node.mode, node.entries) else node.entries;
      if left == [] && CanWrite(parent) then None else Some(node.(entries := left))
  }

  /** The entries that could not be removed; one that fails does not stop the rest. */
  function RemoveEach(parent: Mode, entries: seq<FsEntry>): seq<FsEntry>
    decreases entries, 1
  {
    if entries == [] then []
    else
      var rest := RemoveEach(parent, entries[1..]);
      match RemoveAll(parent, entries[0].node)
      case None => rest
      case Some(left) => [entries[0].(node := left)] + rest
  }

  /**
   The walk of deleteRecursive: each directory is made writable before it is listed, and
   symbolic links are not followed. None is an error.
   */
  function MakeWritable(parent: Mode, node: FsNode): Option<FsNode>
    decreases node, 0
  {
    if !CanSearch(parent) then None
    else if !node.Folder? then Some(node)
    else
      var mode := OWNER_ALL;
      if !CanRead(mode) then None
      else
        match MakeEachWritable(mode, node.entries)
        case None => None
        case Some(entries) => Some(Folder(mode, entries))
  }

  function MakeEachWritable(parent: Mode, entries: seq<FsEntry>): Option<seq<FsEntry>>
    decreases entries, 1
  {
    if entries == [] then Some([])
    else
      match MakeWritable(parent, entries[0].node)
      case None => None
      case Some(node) =>
        match MakeEachWritable(parent, entries[1..])
        case None => None
        case Some(rest) => Some([entries[0].(node := node)] + rest)
  }

  /** deleteRecursive: Ok, or an error. A root that is not there is no error. */
  function DeleteRecursive(parent: Mode, root: Option<FsNode>): Result<(), string> {
    if root.None? then Ok(())
    else
      match MakeWritable(parent, root.value)
      case None => Err("error making catalog cache writable for deletion")
      case Some(node) => if RemoveAll(parent, node).None? then Ok(()) else Err("directory not empty")
  }

  /** setReadOnlyRecursive: a node that is no directory, regular file or symbolic link is refused. */
  function MakeReadOnly(parent: Mode, node: FsNode): Option<FsNode>
    decreases node, 0
  {
    if !CanSearch(parent) then None
    else
      match node
      case Regular(_, data) => Some(Regular(OWNER_READ, data))
      case Link(_) => Some(node)
      case Other(_) => None
      case Folder(_, entries) =>
        var mode := OWNER_READ_SEARCH;
        if !CanRead(mode) then None
        else
          match MakeEachReadOnly(mode, entries)
          case None => None
          case Some(entries') => Some(Folder(mode, entries'))
  }

  function MakeEachReadOnly(parent: Mode, entries: seq<FsEntry>): Option<seq<FsEntry>>
    decreases entries, 1
  {
    if entries == [] then Some([])
    else
      match MakeReadOnly(parent, entries[0].node)
      case None => None
      case Some(node) =>
        match MakeEachReadOnly(parent, entries[1..])
        case None => None
        case Some(rest) => Some([entries[0].(node := node)] + rest)
  }

  // ---------------------------------------------------------------------------------------
  // Reference definitions: the nodes of a tree, and trees that differ in modes only.
  // ---------------------------------------------------------------------------------------

  /** Every node at or below `node`, not looking through symbolic links. */
  ghost function Nodes(node: FsNode): set<FsNode>
    decreases node, 0
  {
    {node} + (if node.Folder? then NodesOf(node.entries) else {})
  }

  ghost function NodesOf(entries: seq<FsEntry>): set<FsNode>
    decreases entries, 1
  {
    if entries == [] then {} else Nodes(entries[0].node) + NodesOf(entries[1..])
  }

  ghost predicate FoldersHave(nodes: set<FsNode>, mode: Mode) {
    forall n :: n in nodes && n.Folder? ==> n.mode == mode
  }

  /** No directory with something in it is closed to its owner. */
  ghost predicate Open(nodes: set<FsNode>) {
    forall n :: n in nodes && n.Folder? && n.entries != [] ==> Full(n.mode)
  }

  /** Same names, same structure, and everything but directory modes the same. */
  ghost predicate OnlyFoldersChanged(before: FsNode, after: FsNode)
    decreases before, 0
  {
    if before.Folder? then after.Folder? && EntriesMatch(before.entries, after.entries) else after == before
  }

  ghost predicate EntriesMatch(before: seq<FsEntry>, after: seq<FsEntry>)
    decreases before, 1
  {
    if before == [] then after == []
    else
      && after != [] && before[0].name == after[0].name
      && OnlyFoldersChanged(before[0].node, after[0].node) && EntriesMatch(before[1..], after[1..])
  }

  /** Same names, same structure, same file contents and link targets; modes may differ. */
  ghost predicate SameShape(before: FsNode, after: FsNode)
    decreases before, 0
  {
    match before
    case Folder(_, entries) => after.Folder? && SameShapes(entries, after.entries)
    case Regular(_, data) => after.Regular? && after.data == data
    case Link(_) => after == before
    case Other(_) => after.Other?
  }

  ghost predicate SameShapes(before: seq<FsEntry>, after: seq<FsEntry>)
    decreases before, 1
  {
    if before == [] then after == []
    else
      && after != [] && before[0].name == after[0].name
      && SameShape(before[0].node, after[0].node) && SameShapes(before[1..], after[1..])
  }

  /**
   Removal gets through exactly the trees in which no directory with entries is closed, from a
   parent that can be read if there is anything to look into.
   */
  lemma {:induction false} RemoveAllExact(parent: Mode, node: FsNode)
    requires CanWrite(parent) && CanSearch(parent)
    ensures RemoveAll(parent, node).None? <==> Open(Nodes(node)) && (IsFilled(node) ==> CanRead(parent))
    decreases node, 0
  {
    if IsFilled(node) && CanRead(parent) {
      assert node in Nodes(node);
      if Full(node.mode) {
        RemoveEachExact(node.mode, node.entries);
        assert Nodes(node) == {node} + NodesOf(node.entries);
      } else if CanRead(node.mode) {
        NothingLeaves(node.mode, node.entries);
      }
    }
  }

  lemma {:induction false} RemoveEachExact(parent: Mode, entries: seq<FsEntry>)
    requires Full(parent)
    ensures RemoveEach(parent, entries) == [] <==> Open(NodesOf(entries))
    decreases entries, 1
  {
    if entries != [] {
      RemoveAllExact(parent, entries[0].node);
      RemoveEachExact(parent, entries[1..]);
    }
  }

  ghost predicate HasEntry(entries: seq<FsEntry>, name: string) {
    exists k :: 0 <= k < |entries| && entries[k].name == name
  }

  ghost predicate HasClosedEntry(entries: seq<FsEntry>, name: string) {
    exists k :: 0 <= k < |entries| && entries[k].name == name && !Open(Nodes(entries[k].node))
  }

  /**
   One entry that cannot be removed does not keep the others: left are exactly those that are
   closed somewhere.
   */
  lemma {:induction false} LeftAreClosed(parent: Mode, entries: seq<FsEntry>, name: string)
    requires Full(parent)
    ensures HasEntry(RemoveEach(parent, entries), name) <==> HasClosedEntry(entries, name)
    decreases |entries|
  {
    if entries != [] {
      RemoveAllExact(parent, entries[0].node);
      LeftAreClosed(parent, entries[1..], name);
      var rest := RemoveEach(parent, entries[1..]);
      ClosedSplit(entries, name);
      if !Open(Nodes(entries[0].node)) {
        var left := RemoveAll(parent, entries[0].node).value;
        EntrySplit([entries[0].(node := left)] + rest, name);
        assert ([entries[0].(node := left)] + rest)[1..] == rest;
      }
    }
  }

  lemma EntrySplit(entries: seq<FsEntry>, name: string)
    requires entries != []
    ensures HasEntry(entries, name) <==> entries[0].name == name || HasEntry(entries[1..], name)
  {
    if HasEntry(entries[1..], name) {
      var k :| 0 <= k < |entries[1..]| && entries[1..][k].name == name;
      assert entries[k + 1].name == name;
    }
    if HasEntry(entries, name) && entries[0].name != name {
      var k :| 0 <= k < |entries| && entries[k].name == name;
      assert entries[1..][k - 1].name == name;
    }
  }

  lemma ClosedSplit(entries: seq<FsEntry>, name: string)
    requires entries != []
    ensures HasClosedEntry(entries, name) <==>
      (entries[0].name == name && !Open(Nodes(entries[0].node))) || HasClosedEntry(entries[1..], name)
  {
    if HasClosedEntry(entries[1..], name) {
      var k :| 0 <= k < |entries[1..]| && entries[1..][k].name == name && !Open(Nodes(entries[1..][k].node));
      assert entries[k + 1].name == name;
    }
    if HasClosedEntry(entries, name) && !(entries[0].name == name && !Open(Nodes(entries[0].node))) {
      var k :| 0 <= k < |entries| && entries[k].name == name && !Open(Nodes(entries[k].node));
      assert entries[1..][k - 1].name == name;
    }
  }

  /** From a directory that is not writable or not searchable no entry disappears. */
  lemma {:induction false} NothingLeaves(parent: Mode, entries: seq<FsEntry>)
    requires !CanWrite(parent) || !CanSearch(parent)
    ensures |RemoveEach(parent, entries)| == |entries|
  {
    if entries != [] {
      NothingLeaves(parent, entries[1..]);
    }
  }

  /** The walk opens every directory, changes nothing else, and never fails. */
  lemma {:induction false} MakeWritableOpens(parent: Mode, node: FsNode)
    requires CanSearch(parent)
    ensures MakeWritable(parent, node).Some?
    ensures FoldersHave(Nodes(MakeWritable(parent, node).value), OWNER_ALL)
    ensures OnlyFoldersChanged(node, MakeWritable(parent, node).value)
    decreases node, 0
  {
    if node.Folder? {
      MakeEachWritableOpens(OWNER_ALL, node.entries);
    }
  }

  lemma {:induction false} MakeEachWritableOpens(parent: Mode, entries: seq<FsEntry>)
    requires CanSearch(parent)
    ensures MakeEachWritable(parent, entries).Some?
    ensures FoldersHave(NodesOf(MakeEachWritable(parent, entries).value), OWNER_ALL)
    ensures EntriesMatch(entries, MakeEachWritable(parent, entries).value)
    decreases entries, 1
  {
    if entries != [] {
      MakeWritableOpens(parent, entries[0].node);
      MakeEachWritableOpens(parent, entries[1..]);
      var first := entries[0].(node := MakeWritable(parent, entries[0].node).value);
      var rest := MakeEachWritable(parent, entries[1..]).value;
      assert ([first] + rest)[1..] == rest;
    }
  }

  /**
   Whatever the modes in a tree are, deleteRecursive gets rid of it; only the parent has to be
   readable, if the tree is not empty.
   */
  lemma DeleteRecursiveSucceeds(parent: Mode, root: Option<FsNode>)
    requires CanWrite(parent) && CanSearch(parent)
    ensures DeleteRecursive(parent, root) == Ok(()) <==> (root.Some? && IsFilled(root.value) ==> CanRead(parent))
  {
    if root.Some? {
      MakeWritableOpens(parent, root.value);
      RemoveAllExact(parent, MakeWritable(parent, root.value).value);
    }
  }

  /** Every directory is 0500 and every regular file 0400. */
  ghost predicate Sealed(nodes: set<FsNode>) {
    FoldersHave(nodes, OWNER_READ_SEARCH) && forall n :: n in nodes && n.Regular? ==> n.mode == OWNER_READ
  }

  ghost predicate HasOther(nodes: set<FsNode>) {
    exists n :: n in nodes && n.Other?
  }

  /** Sealing succeeds exactly when there is nothing but directories, files and symbolic links. */
  lemma {:induction false} MakeReadOnlySeals(parent: Mode, node: FsNode)
    requires CanSearch(parent)
    ensures MakeReadOnly(parent, node).None? <==> HasOther(Nodes(node))
    ensures MakeReadOnly(parent, node).Some? ==>
      var sealed := MakeReadOnly(parent, node).value;
      Sealed(Nodes(sealed)) && SameShape(node, sealed)
    decreases node, 0
  {
    if node.Folder? {
      MakeEachReadOnlySeals(OWNER_READ_SEARCH, node.entries);
      assert Nodes(node) == {node} + NodesOf(node.entries);
    } else {
      assert Nodes(node) == {node} && node in Nodes(node);
    }
  }

  lemma {:induction false} MakeEachReadOnlySeals(parent: Mode, entries: seq<FsEntry>)
    requires CanSearch(parent)
    ensures MakeEachReadOnly(parent, entries).None? <==> HasOther(NodesOf(entries))
    ensures MakeEachReadOnly(parent, entries).Some? ==>
      var sealed := MakeEachReadOnly(parent, entries).value;
      Sealed(NodesOf(sealed)) && SameShapes(entries, sealed)
    decreases entries, 1
  {
    if entries != [] {
      MakeReadOnlySeals(parent, entries[0].node);
      MakeEachReadOnlySeals(parent, entries[1..]);
      assert NodesOf(entries) == Nodes(entries[0].node) + NodesOf(entries[1..]);
      if MakeEachReadOnly(parent, entries).Some? {
        var first := entries[0].(node := MakeReadOnly(parent, entries[0].node).value);
        var rest := MakeEachReadOnly(parent, entries[1..]).value;
        assert ([first] + rest)[1..] == rest;
      }
    }
  }

  /**
   A catalog that was unpacked and sealed: deleteRecursive removes it, if it can read the parent,
   while plain os.RemoveAll gets through only if the sealed directory is empty.
   */
  lemma SealedNeedsDeleteRecursive(parent: Mode, node: FsNode)
    requires CanWrite(parent) && CanSearch(parent)
    requires node.Folder? && MakeReadOnly(parent, node).Some?
    ensures DeleteRecursive(parent, MakeReadOnly(parent, node)) == Ok(()) <==> node.entries == [] || CanRead(parent)
    ensures RemoveAll(parent, MakeReadOnly(parent, node).value).None? <==> node.entries == []
  {
    var sealed := MakeReadOnly(parent, node);
    DeleteRecursiveSucceeds(parent, sealed);
    MakeReadOnlySeals(parent, node);
    RemoveAllExact(parent, sealed.value);
    assert sealed.value in Nodes(sealed.value);
    if node.entries == [] {
      assert Nodes(sealed.value) == {sealed.value};
    }
  }
}
