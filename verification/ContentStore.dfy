/**
 The content store: files under a root directory, reached by path strings. A catalog's content
 is written to a temporary file and then renamed into place.
 */
module ContentStore {
  import opened Prelude
  import opened Paths
  import opened Layers

  /** What is served for a catalog, blob after blob. */
  type Content = seq<Blob>

  datatype Entry = Directory | RegularFile(data: Content) | SymbolicLink(target: string)

  type Files = map<string, Entry>

  /** The system calls of Store, Delete and the unpack cache. */
  datatype FileOp =
    | MakeDir(path: string)
    | CreateTemp(path: string)
    | Append(path: string, blob: Blob)
    | WriteFile(path: string, data: Content)
    | MakeLink(path: string, target: string)
    | Chmod(path: string)
    | Rename(from: string, to: string)
    | RemoveFile(path: string)
    | RemoveTree(path: string)

  predicate IsFile(files: Files, p: string) { p in files && files[p].RegularFile? }

  /** `p` is the directory `dir` or lies in it. */
  predicate Inside(dir: string, p: string) { p == dir || dir + "/" <= p }

  /** One call, or None for its error. */
  function Perform(files: Files, op: FileOp): Option<Files> {
    match op
    case MakeDir(p) => if p in files && !files[p].Directory? then None else Some(files[p := Directory])
    case CreateTemp(p) => if p in files then None else Some(files[p := RegularFile([])])
    case Append(p, blob) => if IsFile(files, p) then Some(files[p := RegularFile(files[p].data + [blob])]) else None
    case WriteFile(p, data) => if p in files && files[p].Directory? then None else Some(files[p := RegularFile(data)])
    case MakeLink(p, target) => if p in files then None else Some(files[p := SymbolicLink(target)])
    case Chmod(p) => if p in files then Some(files) else None
    case Rename(from, to) =>
      if IsFile(files, from) && from != to && (to in files ==> IsFile(files, to))
      then Some((files - {from})[to := files[from]]) else None
    case RemoveFile(p) => if IsFile(files, p) then Some(files - {p}) else None
    case RemoveTree(p) => Some(map q | q in files && !Inside(p, q) :: files[q])
  }

  /** Calls in a row up to the first that fails, by itself or because of an I/O error at position `fault`. */
  function Run(files: Files, ops: seq<FileOp>, fault: Option<nat>): (Files, bool)
    decreases |ops|
  {
    if ops == [] then (files, true)
    else if fault == Some(0) then (files, false)
    else
      match Perform(files, ops[0])
      case None => (files, false)
      case Some(files') => Run(files', ops[1..], if fault.Some? then Some(fault.value - 1) else None)
  }

  function CatalogRoot(root: string, name: string): string { root + "/" + name }

  function DataPath(root: string, name: string): string { CatalogRoot(root, name) + "/api/v1/all" }

  /** os.CreateTemp puts a random suffix after the catalog's name. */
  function TempPath(root: string, name: string, suffix: string): string { CatalogRoot(root, name) + suffix }

  function Appends(temp: string, blobs: seq<Blob>): (ops: seq<FileOp>)
    ensures |ops| == |blobs| && forall i :: 0 <= i < |ops| ==> ops[i] == Append(temp, blobs[i])
  {
    seq(|blobs|, i requires 0 <= i < |blobs| => Append(temp, blobs[i]))
  }

  /** Everything Store does when nothing fails, for the blobs in the order the walk delivers them. */
  function StoreOps(root: string, name: string, suffix: string, blobs: seq<Blob>): seq<FileOp> {
    var dir, temp := CatalogRoot(root, name), TempPath(root, name, suffix);
    [MakeDir(dir), MakeDir(dir + "/api"), MakeDir(dir + "/api/v1"), CreateTemp(temp)]
    + Appends(temp, blobs) + [Rename(temp, DataPath(root, name))]
  }

  /** What a client is served for a catalog; ContentExists is whether there is anything. */
  function Served(files: Files, root: string, name: string): Option<Content> {
    var p := DataPath(root, name);
    if IsFile(files, p) then Some(files[p].data) else None
  }

  /** A name that is one path element, as API object names are. */
  predicate IsName(name: string) { NoSlash(name) && name != "" }

  // ---------------------------------------------------------------------------------------
  // Paths of different catalogs do not meet.
  // ---------------------------------------------------------------------------------------

  lemma InsideIsOwn(root: string, n: string, m: string, p: string)
    requires IsName(n) && IsName(m)
    requires Inside(CatalogRoot(root, n), p) && Inside(CatalogRoot(root, m), p)
    ensures n == m
  {
    var rest := p[|root| + 1..];
    assert p == root + "/" + rest;
    assert rest == n || n + "/" <= rest;
    assert rest == m || m + "/" <= rest;
    FirstElement(n, rest);
    FirstElement(m, rest);
  }

  /** The first element of a path is determined by the path. */
  lemma FirstElement(n: string, rest: string)
    requires IsName(n) && (rest == n || n + "/" <= rest)
    ensures Split(rest)[0] == n
  {
    if rest == n {
      SplitWord(n);
    } else {
      var tail := rest[|n| + 1..];
      assert rest == n + "/" + tail;
      SplitFirst(n, tail);
    }
  }

  lemma DataPathInside(root: string, name: string)
    ensures Inside(CatalogRoot(root, name), DataPath(root, name))
    ensures CatalogRoot(root, name) != DataPath(root, name)
  {
    assert DataPath(root, name) == CatalogRoot(root, name) + "/" + "api/v1/all";
  }

  /** A temporary file is an element of the root directory, so it is no catalog's content. */
  lemma TempIsNoData(root: string, name: string, suffix: string, other: string)
    requires IsName(name) && IsName(other) && NoSlash(suffix)
    ensures TempPath(root, name, suffix) != DataPath(root, other)
  {
    var temp, data, i := TempPath(root, name, suffix), DataPath(root, other), |root| + 1 + |other|;
    assert data[i] == '/';
    assert forall j :: |root| < j < |temp| ==> temp[j] == (name + suffix)[j - |root| - 1];
    assert i < |temp| ==> temp[i] in name + suffix;
  }

  // ---------------------------------------------------------------------------------------
  // Readers see the old content or the new, whatever happens.
  // ---------------------------------------------------------------------------------------

  /** A call that leaves a path alone. */
  predicate Avoids(op: FileOp, p: string) {
    match op
    case Rename(from, to) => from != p && to != p
    case RemoveTree(q) => !Inside(q, p)
    case _ => op.path != p
  }

  lemma {:induction false} RunAvoids(files: Files, ops: seq<FileOp>, fault: Option<nat>, p: string)
    requires forall i :: 0 <= i < |ops| ==> Avoids(ops[i], p)
    ensures var files' := Run(files, ops, fault).0;
        (p in files' <==> p in files) && (p in files ==> files'[p] == files[p])
    decreases |ops|
  {
    if ops != [] && fault != Some(0) && Perform(files, ops[0]).Some? {
      assert Avoids(ops[0], p);
      RunAvoids(Perform(files, ops[0]).value, ops[1..], if fault.Some? then Some(fault.value - 1) else None, p);
    }
  }

  lemma {:induction false} RunSplit(files: Files, a: seq<FileOp>, b: seq<FileOp>)
    ensures var (mid, ok) := Run(files, a, None);
      Run(files, a + b, None) == if ok then Run(mid, b, None) else (mid, false)
    decreases |a|
  {
    if a == [] {
      assert a + b == b;
    } else {
      assert (a + b)[0] == a[0] && (a + b)[1..] == a[1..] + b;
      if Perform(files, a[0]).Some? {
        RunSplit(Perform(files, a[0]).value, a[1..], b);
      }
    }
  }

  /** An I/O error at position k means that exactly the calls before it took effect. */
  lemma {:induction false} FaultIsPrefix(files: Files, ops: seq<FileOp>, k: nat)
    requires k < |ops|
    ensures Run(files, ops, Some(k)) == (Run(files, ops[..k], None).0, false)
    decreases |ops|
  {
    if k > 0 {
      assert ops[..k][0] == ops[0] && ops[..k][1..] == ops[1..][..k - 1];
      if Perform(files, ops[0]).Some? {
        FaultIsPrefix(Perform(files, ops[0]).value, ops[1..], k - 1);
      }
    }
  }

  lemma {:induction false} AppendsFill(files: Files, temp: string, blobs: seq<Blob>)
    requires IsFile(files, temp)
    ensures Run(files, Appends(temp, blobs), None) == (files[temp := RegularFile(files[temp].data + blobs)], true)
    decreases |blobs|
  {
    if blobs == [] {
      assert files[temp].data + blobs == files[temp].data;
      assert files[temp := files[temp]] == files;
    } else {
      var files' := files[temp := RegularFile(files[temp].data + [blobs[0]])];
      assert Appends(temp, blobs)[1..] == Appends(temp, blobs[1..]);
      AppendsFill(files', temp, blobs[1..]);
      assert files'[temp].data + blobs[1..] == files[temp].data + blobs;
      assert files'[temp := RegularFile(files[temp].data + blobs)]
          == files[temp := RegularFile(files[temp].data + blobs)];
    }
  }

  /** All of Store's calls but the last leave every catalog's content alone. */
  lemma PreparationAvoidsData(root: string, name: string, suffix: string, blobs: seq<Blob>, other: string)
    requires IsName(name) && IsName(other) && NoSlash(suffix)
    ensures var ops := StoreOps(root, name, suffix, blobs);
      forall i :: 0 <= i < |ops| - 1 ==> Avoids(ops[i], DataPath(root, other))
  {
    TempIsNoData(root, name, suffix, other);
    var dir, data := CatalogRoot(root, name), DataPath(root, other);
    DataPathInside(root, other);
    forall p | p in [dir, dir + "/api", dir + "/api/v1"]
      ensures p != data
    {
      assert Inside(dir, p) && |p| <= |dir| + 7;
      if p == data {
        InsideIsOwn(root, name, other, p);
      }
    }
    var dirs := [dir, dir + "/api", dir + "/api/v1"];
    assert dirs[0] in dirs && dirs[1] in dirs && dirs[2] in dirs;
  }

  /**
   After any number of Store's calls, whether the process is killed there, an I/O error ends
   it or a reader looks, every catalog is served what it was served before, except that once
   the last call is through the catalog being stored is served all the new blobs.
   */
  lemma StoreIsAtomic(files: Files, root: string, name: string, suffix: string, blobs: seq<Blob>, k: nat, other: string)
    requires IsName(name) && IsName(other) && NoSlash(suffix) && TempPath(root, name, suffix) !in files
    requires k <= |StoreOps(root, name, suffix, blobs)|
    ensures var ops := StoreOps(root, name, suffix, blobs);
      var (after, ok) := Run(files, ops[..k], None);
      Served(after, root, other) ==
        if other == name && k == |ops| && ok then Some(blobs) else Served(files, root, other)
  {
    var ops := StoreOps(root, name, suffix, blobs);
    var last := |ops| - 1;
    PreparationAvoidsData(root, name, suffix, blobs, other);
    if k <= last {
      RunAvoids(files, ops[..k], None, DataPath(root, other));
    } else {
      RunAvoids(files, ops[..last], None, DataPath(root, other));
      assert ops[..k] == ops == ops[..last] + [ops[last]];
      RunSplit(files, ops[..last], [ops[last]]);
      PreparationFills(files, root, name, suffix, blobs);
      var (mid, ready) := Run(files, ops[..last], None);
      if ready {
        assert [ops[last]][1..] == [];
        TempIsNoData(root, name, suffix, other);
        if other != name {
          DataPathInside(root, name);
          DataPathInside(root, other);
          if DataPath(root, name) == DataPath(root, other) {
            InsideIsOwn(root, name, other, DataPath(root, name));
          }
        }
      }
    }
  }

  /** If everything before the rename succeeds, the temporary file holds exactly the blobs. */
  lemma PreparationFills(files: Files, root: string, name: string, suffix: string, blobs: seq<Blob>)
    requires TempPath(root, name, suffix) !in files
    ensures var ops := StoreOps(root, name, suffix, blobs);
      var (mid, ready) := Run(files, ops[..|ops| - 1], None);
      ready ==> IsFile(mid, TempPath(root, name, suffix)) && mid[TempPath(root, name, suffix)].data == blobs
  {
    var ops, temp := StoreOps(root, name, suffix, blobs), TempPath(root, name, suffix);
    var head := ops[..4];
    assert ops[..|ops| - 1] == head + Appends(temp, blobs);
    RunSplit(files, head, Appends(temp, blobs));
    var (start, created) := Run(files, head, None);
    if created {
      HeadCreates(files, root, name, suffix, blobs);
      AppendsFill(start, temp, blobs);
      assert [] + blobs == blobs;
    }
  }

  lemma HeadCreates(files: Files, root: string, name: string, suffix: string, blobs: seq<Blob>)
    requires Run(files, StoreOps(root, name, suffix, blobs)[..4], None).1
    ensures var temp := TempPath(root, name, suffix);
      var start := Run(files, StoreOps(root, name, suffix, blobs)[..4], None).0;
      IsFile(start, temp) && start[temp].data == []
  {
    var ops := StoreOps(root, name, suffix, blobs);
    assert ops[..4] == ops[..3] + [ops[3]];
    RunSplit(files, ops[..3], [ops[3]]);
    assert [ops[3]][1..] == [];
  }

  // ---------------------------------------------------------------------------------------
  // The store itself.
  // ---------------------------------------------------------------------------------------

  /**
   What Store learns from outside: the temporary file's suffix, where an I/O or parse error hits,
   and whether the temporary file can be removed afterwards.
   */
  datatype StoreAnswer = StoreAnswer(suffix: string, fault: Option<nat>, tempStays: bool)

  /** All of Store: its calls, and the deferred removal of the temporary file. */
  function StoreFiles(files: Files, root: string, name: string, blobs: seq<Blob>, a: StoreAnswer): (Files, bool) {
    var (after, ok) := Run(files, StoreOps(root, name, a.suffix, blobs), a.fault);
    var temp := TempPath(root, name, a.suffix);
    (if a.tempStays then after else after - {temp}, ok)
  }

  /** Delete: everything below the catalog's directory, or on an error all of it but `kept`. */
  function DeleteFiles(files: Files, root: string, name: string, kept: Option<set<string>>): (Files, bool) {
    match kept
    case None => (Perform(files, RemoveTree(CatalogRoot(root, name))).value, true)
    case Some(ps) => (map q | q in files && (!Inside(CatalogRoot(root, name), q) || q in ps) :: files[q], false)
  }

  lemma {:induction false} LateFault(files: Files, ops: seq<FileOp>, k: nat)
    requires k >= |ops|
    ensures Run(files, ops, Some(k)) == Run(files, ops, None)
    decreases |ops|
  {
    if ops != [] && Perform(files, ops[0]).Some? {
      LateFault(Perform(files, ops[0]).value, ops[1..], k - 1);
    }
  }

  /**
   Store serves all the new blobs or changes nothing that is served, and leaves no temporary file
   unless that cannot be removed.
   */
  lemma StoreServes(files: Files, root: string, name: string, blobs: seq<Blob>, a: StoreAnswer, other: string)
    requires IsName(name) && IsName(other) && NoSlash(a.suffix) && TempPath(root, name, a.suffix) !in files
    ensures var (after, ok) := StoreFiles(files, root, name, blobs, a);
      && Served(after, root, other) == (if other == name && ok then Some(blobs) else Served(files, root, other))
      && (!a.tempStays ==> TempPath(root, name, a.suffix) !in after)
  {
    var ops := StoreOps(root, name, a.suffix, blobs);
    TempIsNoData(root, name, a.suffix, other);
    assert ops[..|ops|] == ops;
    StoreIsAtomic(files, root, name, a.suffix, blobs, |ops|, other);
    if a.fault.Some? {
      if a.fault.value < |ops| {
        FaultIsPrefix(files, ops, a.fault.value);
        StoreIsAtomic(files, root, name, a.suffix, blobs, a.fault.value, other);
      } else {
        LateFault(files, ops, a.fault.value);
      }
    }
  }

  /**
   Delete ends the catalog's content; one that fails may or may not have, and neither touches
   another catalog's.
   */
  lemma DeleteServes(files: Files, root: string, name: string, kept: Option<set<string>>, other: string)
    requires IsName(name) && IsName(other)
    ensures var (after, ok) := DeleteFiles(files, root, name, kept);
      && (ok <==> kept.None?)
      && (ok ==> Served(after, root, name) == None)
      && Served(after, root, name) in {None, Served(files, root, name)}
      && (other != name ==> Served(after, root, other) == Served(files, root, other))
  {
    DataPathInside(root, name);
    DataPathInside(root, other);
    if other != name && Inside(CatalogRoot(root, name), DataPath(root, other)) {
      InsideIsOwn(root, name, other, DataPath(root, other));
    }
  }

  /** url.JoinPath of one path element: exactly one slash in between. */
  function UrlOf(rootUrl: string, name: string): string {
    if rootUrl != "" && rootUrl[|rootUrl| - 1] == '/' then rootUrl + name else rootUrl + "/" + name
  }

  /**
   The URL of a catalog starts with the root's and ends with an element that is its name; so
   different catalogs have different URLs.
   */
  lemma UrlsApart(rootUrl: string, n: string, m: string)
    requires IsName(n) && IsName(m)
    ensures rootUrl <= UrlOf(rootUrl, n)
    ensures var words := Split(UrlOf(rootUrl, n)); |words| > 1 && words[|words| - 1] == n
    ensures UrlOf(rootUrl, n) == UrlOf(rootUrl, m) <==> n == m
  {
    LastElement(rootUrl, n);
    LastElement(rootUrl, m);
  }

  /** A slash at the end of the root makes no difference. */
  lemma UrlSlash(rootUrl: string, n: string)
    requires rootUrl == "" || rootUrl[|rootUrl| - 1] != '/'
    ensures UrlOf(rootUrl + "/", n) == UrlOf(rootUrl, n)
  {
  }

  lemma LastElement(rootUrl: string, n: string)
    requires IsName(n)
    ensures var words := Split(UrlOf(rootUrl, n)); |words| > 1 && words[|words| - 1] == n
  {
    if rootUrl != "" && rootUrl[|rootUrl| - 1] == '/' {
      var shorter := rootUrl[..|rootUrl| - 1];
      assert rootUrl + n == shorter + "/" + n;
      SplitLast(shorter, n);
    } else {
      SplitLast(rootUrl, n);
    }
  }

  /** Where content and temporary file of a catalog are, element by element. */
  lemma PathsOfCatalog(root: string, name: string, suffix: string)
    requires IsName(name) && NoSlash(suffix)
    ensures Split(DataPath(root, name)) == Split(root) + [name, "api", "v1", "all"]
    ensures Split(TempPath(root, name, suffix)) == Split(root) + [name + suffix]
  {
    SplitLast(root, name);
    SplitLast(CatalogRoot(root, name), "api");
    SplitLast(CatalogRoot(root, name) + "/" + "api", "v1");
    SplitLast(CatalogRoot(root, name) + "/" + "api" + "/" + "v1", "all");
    assert DataPath(root, name) == CatalogRoot(root, name) + "/" + "api" + "/" + "v1" + "/" + "all";
    SplitLast(root, name + suffix);
    assert TempPath(root, name, suffix) == root + "/" + (name + suffix);
  }

  function DirsOf(root: string, name: string): seq<string> {
    var dir := CatalogRoot(root, name);
    [dir, dir + "/api", dir + "/api/v1"]
  }

  /**
   Nothing is in the way of a store: no file where a directory has to be, no directory where the
   content has to be.
   */
  ghost predicate HasRoom(files: Files, root: string, name: string) {
    && (forall i :: 0 <= i < 3 && DirsOf(root, name)[i] in files ==> files[DirsOf(root, name)[i]].Directory?)
    && (DataPath(root, name) in files ==> IsFile(files, DataPath(root, name)))
  }

  /** Temporary file, directories and content are different places. */
  lemma StorePathsApart(root: string, name: string, suffix: string)
    requires IsName(name) && NoSlash(suffix) && suffix != ""
    ensures var dirs := DirsOf(root, name);
      && TempPath(root, name, suffix) !in dirs && DataPath(root, name) !in dirs
      && TempPath(root, name, suffix) != DataPath(root, name)
  {
    TempIsNoData(root, name, suffix, name);
    var dir, temp := CatalogRoot(root, name), TempPath(root, name, suffix);
    assert temp[|dir|] == suffix[0] && suffix[0] in suffix;
    assert (dir + "/api")[|dir|] == '/' && (dir + "/api/v1")[|dir|] == '/';
    assert |DataPath(root, name)| == |dir| + 11;
  }

  function WithDirs(files: Files, dirs: seq<string>): Files
    requires |dirs| == 3
  {
    files[dirs[0] := Directory][dirs[1] := Directory][dirs[2] := Directory]
  }

  lemma HeadSucceeds(files: Files, dirs: seq<string>, temp: string)
    requires |dirs| == 3 && temp !in dirs && temp !in files
    requires forall i :: 0 <= i < 3 && dirs[i] in files ==> files[dirs[i]].Directory?
    ensures Run(files, [MakeDir(dirs[0]), MakeDir(dirs[1]), MakeDir(dirs[2]), CreateTemp(temp)], None) ==
            (WithDirs(files, dirs)[temp := RegularFile([])], true)
  {
    var ops := [MakeDir(dirs[0]), MakeDir(dirs[1]), MakeDir(dirs[2]), CreateTemp(temp)];
    var f1 := files[dirs[0] := Directory];
    var f2 := f1[dirs[1] := Directory];
    var f3 := f2[dirs[2] := Directory];
    assert ops[1..] == [MakeDir(dirs[1]), MakeDir(dirs[2]), CreateTemp(temp)];
    assert ops[1..][1..] == [MakeDir(dirs[2]), CreateTemp(temp)];
    assert ops[1..][1..][1..] == [CreateTemp(temp)] && [CreateTemp(temp)][1..] == [];
    assert Run(f3, [CreateTemp(temp)], None) == (f3[temp := RegularFile([])], true);
    assert Run(f2, ops[1..][1..], None) == Run(f3, [CreateTemp(temp)], None);
    assert Run(f1, ops[1..], None) == Run(f2, ops[1..][1..], None);
  }

  lemma TailSucceeds(files: Files, temp: string, data: string, blobs: seq<Blob>)
    requires temp in files && files[temp] == RegularFile([]) && temp != data && (data in files ==> IsFile(files, data))
    ensures Run(files, Appends(temp, blobs) + [Rename(temp, data)], None) ==
            ((files - {temp})[data := RegularFile(blobs)], true)
  {
    AppendsFill(files, temp, blobs);
    assert [] + blobs == blobs;
    RunSplit(files, Appends(temp, blobs), [Rename(temp, data)]);
    var filled := files[temp := RegularFile(blobs)];
    assert [Rename(temp, data)][1..] == [];
    assert filled - {temp} == files - {temp};
  }

  /**
   With nothing in the way and no I/O error a store succeeds, and leaves content and directories
   but no temporary file.
   */
  lemma StoreSucceeds(files: Files, root: string, name: string, suffix: string, blobs: seq<Blob>)
    requires IsName(name) && NoSlash(suffix) && suffix != "" && TempPath(root, name, suffix) !in files
    requires HasRoom(files, root, name)
    ensures Run(files, StoreOps(root, name, suffix, blobs), None) ==
            (WithDirs(files, DirsOf(root, name))[DataPath(root, name) := RegularFile(blobs)], true)
  {
    var dirs, temp, data := DirsOf(root, name), TempPath(root, name, suffix), DataPath(root, name);
    StorePathsApart(root, name, suffix);
    var head := [MakeDir(dirs[0]), MakeDir(dirs[1]), MakeDir(dirs[2]), CreateTemp(temp)];
    var tail := Appends(temp, blobs) + [Rename(temp, data)];
    assert StoreOps(root, name, suffix, blobs) == head + tail;
    HeadSucceeds(files, dirs, temp);
    RunSplit(files, head, tail);
    var start := WithDirs(files, dirs)[temp := RegularFile([])];
    TailSucceeds(start, temp, data, blobs);
    assert start - {temp} == WithDirs(files, dirs);
  }

  function Shift(fault: Option<nat>, i: nat): Option<nat> {
    if fault.Some? && fault.value >= i then Some(fault.value - i) else None
  }

  lemma RunStep(files: Files, ops: seq<FileOp>, i: nat, fault: Option<nat>)
    requires i < |ops|
    ensures Run(files, ops[i..], Shift(fault, i)) ==
      if fault == Some(i) || Perform(files, ops[i]).None? then (files, false)
      else Run(Perform(files, ops[i]).value, ops[i + 1..], Shift(fault, i + 1))
  {
    assert ops[i..][0] == ops[i] && ops[i..][1..] == ops[i + 1..];
  }

  class LocalDir {
    const root: string
    const rootUrl: string
    var files: Files

    constructor (root: string, rootUrl: string)
      ensures this.root == root && this.rootUrl == rootUrl && files == map[]
    {
      this.root := root;
      this.rootUrl := rootUrl;
      files := map[];
    }

    /** RootURL.JoinPath(name) */
    function BaseUrl(name: string): string { UrlOf(rootUrl, name) }

    function ContentOf(name: string): Option<Content>
      reads this
    {
      Served(files, root, name)
    }

    predicate ContentExists(name: string)
      reads this
    {
      IsFile(files, DataPath(root, name))
    }

    /** One system call, which fails by itself or because of an I/O error. */
    method Call(op: FileOp, i: nat, fault: Option<nat>) returns (ok: bool)
      modifies this
      ensures ok <==> fault != Some(i) && Perform(old(files), op).Some?
      ensures files == if ok then Perform(old(files), op).value else old(files)
    {
      var result := Perform(files, op);
      ok := fault != Some(i) && result.Some?;
      if ok {
        files := result.value;
      }
    }

    /**
     Directories, temporary file, one write for each blob, rename; the temporary file is removed
     in any case.
     */
    method Store(name: string, blobs: seq<Blob>, a: StoreAnswer) returns (ok: bool)
      requires IsName(name) && NoSlash(a.suffix) && TempPath(root, name, a.suffix) !in files
      modifies this
      ensures (files, ok) == StoreFiles(old(files), root, name, blobs, a)
      ensures ContentOf(name) == if ok then Some(blobs) else old(ContentOf(name))
      ensures forall n :: IsName(n) && n != name ==> ContentOf(n) == old(ContentOf(n))
    {
      var temp := TempPath(root, name, a.suffix);
      ok := WriteAndRename(name, temp, blobs, a);
      if !a.tempStays {
        files := files - {temp};
      }
      forall n | IsName(n)
        ensures ContentOf(n) == if n == name && ok then Some(blobs) else old(ContentOf(n))
      {
        StoreServes(old(files), root, name, blobs, a, n);
      }
    }

    /** os.MkdirAll: the three directories, one after the other. */
    method MakeDirs(name: string, blobs: seq<Blob>, a: StoreAnswer) returns (ok: bool)
      modifies this
      ensures var ops := StoreOps(root, name, a.suffix, blobs);
        if ok then Run(files, ops[3..], Shift(a.fault, 3)) == Run(old(files), ops, a.fault)
        else (files, false) == Run(old(files), ops, a.fault)
    {
      ghost var ops := StoreOps(root, name, a.suffix, blobs);
      assert ops[0..] == ops;
      var dir := CatalogRoot(root, name);
      var dirs := [dir, dir + "/api", dir + "/api/v1"];
      for i := 0 to 3
        invariant Run(files, ops[i..], Shift(a.fault, i)) == Run(old(files), ops, a.fault)
      {
        RunStep(files, ops, i, a.fault);
        ok := Call(MakeDir(dirs[i]), i, a.fault);
        if !ok {
          return;
        }
      }
      ok := true;
    }

    method WriteAndRename(name: string, temp: string, blobs: seq<Blob>, a: StoreAnswer) returns (ok: bool)
      requires temp == TempPath(root, name, a.suffix)
      modifies this
      ensures (files, ok) == Run(old(files), StoreOps(root, name, a.suffix, blobs), a.fault)
    {
      ghost var ops := StoreOps(root, name, a.suffix, blobs);
      ok := MakeDirs(name, blobs, a);
      if !ok {
        return;
      }
      RunStep(files, ops, 3, a.fault);
      ok := Call(CreateTemp(temp), 3, a.fault);
      if !ok {
        return;
      }
      for i := 0 to |blobs|
        invariant Run(files, ops[i + 4..], Shift(a.fault, i + 4)) == Run(old(files), ops, a.fault)
      {
        RunStep(files, ops, i + 4, a.fault);
        ok := Call(Append(temp, blobs[i]), i + 4, a.fault);
        if !ok {
          return;
        }
      }
      RunStep(files, ops, |blobs| + 4, a.fault);
      ok := Call(Rename(temp, DataPath(root, name)), |blobs| + 4, a.fault);
    }

    /** Delete; `kept` are the paths an error leaves, if there is one. */
    method Delete(name: string, kept: Option<set<string>>) returns (ok: bool)
      requires IsName(name)
      modifies this
      ensures (files, ok) == DeleteFiles(old(files), root, name, kept)
      ensures ok <==> kept.None?
      ensures ok ==> ContentOf(name) == None
      ensures ContentOf(name) in {None, old(ContentOf(name))}
      ensures forall n :: IsName(n) && n != name ==> ContentOf(n) == old(ContentOf(n))
    {
      var dir := CatalogRoot(root, name);
      match kept {
        case None => files := Perform(files, RemoveTree(dir)).value;
        case Some(ps) => files := map q | q in files && (!Inside(dir, q) || q in ps) :: files[q];
      }
      ok := kept.None?;
      forall n | IsName(n)
        ensures n != name ==> ContentOf(n) == old(ContentOf(n))
        ensures ok ==> ContentOf(name) == None
        ensures ContentOf(name) in {None, old(ContentOf(name))}
      {
        DeleteServes(old(files), root, name, kept, n);
      }
      DeleteServes(old(files), root, name, kept, name);
    }
  }
}
