/** The collector that trims the unpack cache to the catalogs that exist. */
module GarbageCollection {
  import opened Prelude
  import opened Removal

  /** The unpack cache directory's entries, one a catalog. */
  type Entries = map<string, FsNode>

  /** Entries that stay: directories named after a listed catalog. */
  predicate Wanted(entries: Entries, expected: set<string>, name: string) {
    name in entries && entries[name].Folder? && name in expected
  }

  /** What os.RemoveAll leaves of an entry; `faults` are the leftovers of I/O errors. */
  function Leftover(mode: Mode, entries: Entries, faults: Entries, name: string): Option<FsNode> {
    if name in faults then Some(faults[name])
    else if name in entries then RemoveAll(mode, entries[name])
    else None
  }

  datatype Swept = Swept(entries: Entries, removed: seq<string>, ok: bool)

  /** The pass over the directory listing, up to the first removal that fails. */
  function SweepFrom(mode: Mode, entries: Entries, expected: set<string>, listing: seq<string>, faults: Entries): Swept
    decreases |listing|
  {
    if listing == [] then Swept(entries, [], true)
    else if Wanted(entries, expected, listing[0]) then SweepFrom(mode, entries, expected, listing[1..], faults)
    else
      match Leftover(mode, entries, faults, listing[0])
      case Some(left) => Swept(entries[listing[0] := left], [], false)
      case None =>
        Prepend([listing[0]], SweepFrom(mode, entries - {listing[0]}, expected, listing[1..], faults))
  }

  function Prepend(names: seq<string>, swept: Swept): Swept {
    swept.(removed := names + swept.removed)
  }

  lemma PrependTwice(a: seq<string>, b: seq<string>, swept: Swept)
    ensures Prepend(a, Prepend(b, swept)) == Prepend(a + b, swept)
  {
    assert a + (b + swept.removed) == a + b + swept.removed;
  }

  function RangeOf(names: seq<string>): set<string> {
    set n | n in names
  }

  /** The unpack cache directory, under its own mode. */
  class CacheDirectory {
    const mode: Mode
    var entries: Entries

    constructor (mode: Mode, entries: Entries)
      ensures this.mode == mode && this.entries == entries
    {
      this.mode := mode;
      this.entries := entries;
    }

    /**
     One collection run. `catalogs` is the API server's answer and `listing` the directory's,
     either of which may be an error; `faults` says where a removal hits an I/O error and what
     it leaves there.
     */
    method RunGarbageCollection(catalogs: Result<seq<string>, string>, listing: Result<seq<string>, string>,
        faults: Entries)
      returns (removed: Result<seq<string>, string>)
      modifies this
      ensures catalogs.Err? || listing.Err? ==> removed.Err? && entries == old(entries)
      ensures catalogs.Ok? && listing.Ok? ==>
        var swept := SweepFrom(mode, old(entries), RangeOf(catalogs.value), listing.value, faults);
        && entries == swept.entries
        && (removed.Ok? <==> swept.ok)
        && (removed.Ok? ==> removed.value == swept.removed)
      ensures catalogs.Ok? && listing.Ok? && Distinct(listing.value) && AllThere(listing.value, old(entries)) ==>
        && (forall n :: n in catalogs.value && n in old(entries) && old(entries)[n].Folder? ==>
              n in entries && entries[n] == old(entries)[n])
        && (removed.Ok? ==> forall n :: n in listing.value ==>
              if n in catalogs.value && old(entries)[n].Folder? then n in entries && n !in removed.value
              else n !in entries && n in removed.value)
        && (removed.Ok? ==> forall n :: n in removed.value ==> n in listing.value)
    {
      if catalogs.Err? {
        return Err("error listing clustercatalogs: " + catalogs.error);
      }
      var expected := NameSet(catalogs.value);
      if listing.Err? {
        return Err("error reading cache directory: " + listing.error);
      }
      if Distinct(listing.value) && AllThere(listing.value, entries) {
        CollectionByNames(mode, entries, catalogs.value, listing.value, faults);
      }
      var ok, names := Sweep(expected, listing.value, faults);
      removed := if ok then Ok(names) else Err("error removing cache directory entry");
    }

    /** The loop over the directory listing. */
    method Sweep(expected: set<string>, listing: seq<string>, faults: Entries) returns (ok: bool, names: seq<string>)
      modifies this
      ensures var swept := SweepFrom(mode, old(entries), expected, listing, faults);
        entries == swept.entries && ok == swept.ok && (ok ==> names == swept.removed)
    {
      names := [];
      ghost var whole := SweepFrom(mode, entries, expected, listing, faults);
      assert listing[0..] == listing;
      for i := 0 to |listing|
        invariant whole == Prepend(names, SweepFrom(mode, entries, expected, listing[i..], faults))
      {
        var name := listing[i];
        assert listing[i..][0] == name && listing[i..][1..] == listing[i + 1..];
        if Wanted(entries, expected, name) {
          continue;
        }
        var left := Leftover(mode, entries, faults, name);
        if left.Some? {
          entries := entries[name := left.value];
          return false, names;
        }
        entries := entries - {name};
        PrependTwice(names, [name], SweepFrom(mode, entries, expected, listing[i + 1..], faults));
        names := names + [name];
      }
      ok := true;
    }
  }

  method NameSet(names: seq<string>) returns (found: set<string>)
    ensures found == RangeOf(names)
  {
    found := {};
    for i := 0 to |names|
      invariant found == set j | 0 <= j < i :: names[j]
    {
      found := found + {names[i]};
    }
  }

  /** The names that are not wanted, in directory order. */
  function Stale(entries: Entries, expected: set<string>, listing: seq<string>): seq<string> {
    if listing == [] then []
    else if Wanted(entries, expected, listing[0]) then Stale(entries, expected, listing[1..])
    else [listing[0]] + Stale(entries, expected, listing[1..])
  }

  lemma {:induction false} StaleSame(entries: Entries, entries': Entries, expected: set<string>, listing: seq<string>)
    requires forall j :: 0 <= j < |listing| ==>
        (Wanted(entries, expected, listing[j]) <==> Wanted(entries', expected, listing[j]))
    ensures Stale(entries, expected, listing) == Stale(entries', expected, listing)
  {
    if listing != [] {
      StaleSame(entries, entries', expected, listing[1..]);
    }
  }

  /** Where in the listing the stale names stand, from position `i` on. */
  function StaleAt(entries: Entries, expected: set<string>, listing: seq<string>, i: nat): seq<nat>
    requires i <= |listing|
    decreases |listing| - i
  {
    if i == |listing| then []
    else if Wanted(entries, expected, listing[i]) then StaleAt(entries, expected, listing, i + 1)
    else [i] + StaleAt(entries, expected, listing, i + 1)
  }

  /** A position is there exactly if its name is not wanted. */
  lemma {:induction false} StaleAtExact(entries: Entries, expected: set<string>, listing: seq<string>, i: nat, j: nat)
    requires i <= |listing|
    ensures j in StaleAt(entries, expected, listing, i) <==>
        i <= j < |listing| && !Wanted(entries, expected, listing[j])
    decreases |listing| - i
  {
    if i < |listing| {
      StaleAtExact(entries, expected, listing, i + 1, j);
    }
  }

  ghost predicate Ascending(at: seq<nat>, from: nat) {
    && (forall k :: 0 <= k < |at| ==> from <= at[k])
    && (forall k, l :: 0 <= k < l < |at| ==> at[k] < at[l])
  }

  lemma AscendingFrom(at: seq<nat>, i: nat)
    requires Ascending(at, i + 1)
    ensures Ascending(at, i) && Ascending([i] + at, i)
  {
    forall k | 0 <= k < |at| ensures i <= at[k] { }
  }

  lemma {:induction false} StaleAtIncreases(entries: Entries, expected: set<string>, listing: seq<string>, i: nat)
    requires i <= |listing|
    ensures Ascending(StaleAt(entries, expected, listing, i), i)
    decreases |listing| - i
  {
    if i < |listing| {
      StaleAtIncreases(entries, expected, listing, i + 1);
      AscendingFrom(StaleAt(entries, expected, listing, i + 1), i);
    }
  }

  /** The stale names come in directory order. */
  lemma {:induction false} StaleInOrder(entries: Entries, expected: set<string>, listing: seq<string>, i: nat)
    requires i <= |listing|
    ensures var at := StaleAt(entries, expected, listing, i);
      && |at| == |Stale(entries, expected, listing[i..])|
      && (forall k :: 0 <= k < |at| ==>
          at[k] < |listing| && Stale(entries, expected, listing[i..])[k] == listing[at[k]])
    decreases |listing| - i
  {
    if i < |listing| {
      assert listing[i..][0] == listing[i] && listing[i..][1..] == listing[i + 1..];
      StaleInOrder(entries, expected, listing, i + 1);
    }
  }

  predicate AllThere(listing: seq<string>, entries: Entries) {
    forall n :: n in listing ==> n in entries
  }

  predicate Distinct(names: seq<string>) {
    forall i, j :: 0 <= i < j < |names| ==> names[i] != names[j]
  }

  /** Nothing stands in the way of the entries that have to go. */
  ghost predicate AllRemovable(mode: Mode, entries: Entries, expected: set<string>, listing: seq<string>,
      faults: Entries) {
    forall j :: 0 <= j < |listing| && !Wanted(entries, expected, listing[j]) ==>
      Leftover(mode, entries, faults, listing[j]).None?
  }

  /** A run succeeds exactly when every stale entry can be removed, and then reports just those. */
  lemma {:induction false} SweepSucceeds(mode: Mode, entries: Entries, expected: set<string>, listing: seq<string>,
      faults: Entries)
    requires Distinct(listing)
    ensures var swept := SweepFrom(mode, entries, expected, listing, faults);
      && (swept.ok <==> AllRemovable(mode, entries, expected, listing, faults))
      && (swept.ok ==> swept.removed == Stale(entries, expected, listing))
    decreases |listing|
  {
    if listing != [] {
      var name, rest := listing[0], listing[1..];
      assert forall j :: 0 <= j < |rest| ==> rest[j] == listing[j + 1];
      if Wanted(entries, expected, name) {
        SweepSucceeds(mode, entries, expected, rest, faults);
      } else if Leftover(mode, entries, faults, name).None? {
        var fewer := entries - {name};
        StaleSame(entries, fewer, expected, rest);
        SweepSucceeds(mode, fewer, expected, rest, faults);
        assert forall j :: 0 <= j < |rest| ==>
            Leftover(mode, fewer, faults, rest[j]) == Leftover(mode, entries, faults, rest[j]);
      }
    }
  }

  /**
   What a successful run reports: the names at strictly ascending positions of the listing, and
   the positions are exactly those of names that are not wanted.
   */
  lemma SweepReportsExactly(mode: Mode, entries: Entries, expected: set<string>, listing: seq<string>, faults: Entries)
    returns (at: seq<nat>)
    requires Distinct(listing) && SweepFrom(mode, entries, expected, listing, faults).ok
    ensures var removed := SweepFrom(mode, entries, expected, listing, faults).removed;
      && |at| == |removed| && Ascending(at, 0)
      && (forall k :: 0 <= k < |at| ==> at[k] < |listing| && removed[k] == listing[at[k]])
      && (forall j: nat :: j in at <==> j < |listing| && !Wanted(entries, expected, listing[j]))
  {
    SweepSucceeds(mode, entries, expected, listing, faults);
    at := StaleAt(entries, expected, listing, 0);
    assert listing[0..] == listing;
    StaleInOrder(entries, expected, listing, 0);
    StaleAtIncreases(entries, expected, listing, 0);
    forall j: nat
      ensures j in at <==> j < |listing| && !Wanted(entries, expected, listing[j])
    {
      StaleAtExact(entries, expected, listing, 0, j);
    }
  }

  /**
   However a run ends, no wanted entry is touched and nothing new appears; a stale entry stays
   only after a failure.
   */
  lemma {:induction false} SweepSpares(mode: Mode, entries: Entries, expected: set<string>, listing: seq<string>,
      faults: Entries, n: string)
    requires forall j :: 0 <= j < |listing| ==> listing[j] in entries
    requires Distinct(listing)
    ensures var swept := SweepFrom(mode, entries, expected, listing, faults);
      && (n in swept.entries ==> n in entries)
      && (Wanted(entries, expected, n) || (n in entries && n !in listing) ==>
          n in swept.entries && swept.entries[n] == entries[n])
      && (swept.ok && n in listing && !Wanted(entries, expected, n) ==> n !in swept.entries)
    decreases |listing|
  {
    if listing != [] {
      var name, rest := listing[0], listing[1..];
      assert n in listing <==> n == name || n in rest;
      if Wanted(entries, expected, name) {
        SweepSpares(mode, entries, expected, rest, faults, n);
      } else if Leftover(mode, entries, faults, name).None? {
        assert forall j :: 0 <= j < |rest| ==> rest[j] == listing[j + 1] != name;
        SweepSpares(mode, entries - {name}, expected, rest, faults, n);
      }
    }
  }

  lemma {:induction false} StaleMembers(entries: Entries, expected: set<string>, listing: seq<string>, n: string)
    ensures n in Stale(entries, expected, listing) <==> n in listing && !Wanted(entries, expected, n)
  {
    if listing != [] {
      StaleMembers(entries, expected, listing[1..], n);
      assert n in listing <==> n == listing[0] || n in listing[1..];
    }
  }

  /**
   By names: a directory that is called like a listed catalog stays as it is, however the run ends;
   a run that succeeds removes and reports every other entry of the listing, and nothing else.
   */
  lemma CollectionByNames(mode: Mode, entries: Entries, catalogs: seq<string>, listing: seq<string>, faults: Entries)
    requires Distinct(listing) && AllThere(listing, entries)
    ensures var swept := SweepFrom(mode, entries, RangeOf(catalogs), listing, faults);
      && (forall n :: n in catalogs && n in entries && entries[n].Folder? ==>
            n in swept.entries && swept.entries[n] == entries[n])
      && (swept.ok ==> forall n :: n in listing ==>
            if n in catalogs && entries[n].Folder? then n in swept.entries && n !in swept.removed
            else n !in swept.entries && n in swept.removed)
      && (swept.ok ==> forall n :: n in swept.removed ==> n in listing)
  {
    SweepSucceeds(mode, entries, RangeOf(catalogs), listing, faults);
    forall n
      ensures n in RangeOf(catalogs) <==> n in catalogs
    {
    }
    forall n
      ensures var swept := SweepFrom(mode, entries, RangeOf(catalogs), listing, faults);
        && (Wanted(entries, RangeOf(catalogs), n) ==> n in swept.entries && swept.entries[n] == entries[n])
        && (swept.ok && n in listing && !Wanted(entries, RangeOf(catalogs), n) ==> n !in swept.entries)
    {
      SweepSpares(mode, entries, RangeOf(catalogs), listing, faults, n);
    }
    forall n
      ensures n in Stale(entries, RangeOf(catalogs), listing) <==>
          n in listing && !Wanted(entries, RangeOf(catalogs), n)
    {
      StaleMembers(entries, RangeOf(catalogs), listing, n);
    }
  }

  /** When the listing names every entry, a successful run leaves exactly the wanted entries. */
  lemma CollectionIsExact(mode: Mode, entries: Entries, expected: set<string>, listing: seq<string>, faults: Entries)
    requires Distinct(listing) && RangeOf(listing) == entries.Keys
    requires AllRemovable(mode, entries, expected, listing, faults)
    ensures SweepFrom(mode, entries, expected, listing, faults).ok
    ensures SweepFrom(mode, entries, expected, listing, faults).entries ==
            map n | n in entries && Wanted(entries, expected, n) :: entries[n]
  {
    SweepSucceeds(mode, entries, expected, listing, faults);
    assert forall j :: 0 <= j < |listing| ==> listing[j] in RangeOf(listing);
    var left := SweepFrom(mode, entries, expected, listing, faults).entries;
    forall n
      ensures n in left <==> n in entries && Wanted(entries, expected, n)
      ensures n in left ==> left[n] == entries[n]
    {
      SweepSpares(mode, entries, expected, listing, faults, n);
      assert n in entries <==> n in RangeOf(listing);
    }
  }

  /**
   The collector removes entries with os.RemoveAll. A catalog directory that still holds a
   sealed unpack with anything in it cannot be removed that way, so a run that meets one fails.
   */
  lemma SealedCatalogStopsCollection(mode: Mode, entries: Entries, expected: set<string>, listing: seq<string>,
      faults: Entries,
                                     name: string, unpacked: FsNode, k: nat)
    requires CanWrite(mode) && CanSearch(mode) && Distinct(listing)
    requires name in entries && name in listing && name !in expected
    requires entries[name].Folder? && k < |entries[name].entries|
    requires unpacked.Folder? && unpacked.entries != []
    requires MakeReadOnly(entries[name].mode, unpacked) == Some(entries[name].entries[k].node)
    ensures !SweepFrom(mode, entries, expected, listing, faults).ok
  {
    SealedStays(mode, entries, faults, name, unpacked, k);
    SweepSucceeds(mode, entries, expected, listing, faults);
  }

  lemma SealedStays(mode: Mode, entries: Entries, faults: Entries, name: string, unpacked: FsNode, k: nat)
    requires CanWrite(mode) && CanSearch(mode)
    requires name in entries && entries[name].Folder? && k < |entries[name].entries|
    requires unpacked.Folder? && unpacked.entries != []
    requires MakeReadOnly(entries[name].mode, unpacked) == Some(entries[name].entries[k].node)
    ensures Leftover(mode, entries, faults, name).Some?
  {
    var sealed := entries[name].entries[k].node;
    MakeReadOnlySeals(entries[name].mode, unpacked);
    RemoveAllExact(mode, entries[name]);
    EntryIsNode(entries[name].entries, k);
    assert sealed in Nodes(entries[name]) && sealed in Nodes(sealed);
  }

  lemma {:induction false} EntryIsNode(entries: seq<FsEntry>, k: nat)
    requires k < |entries|
    ensures entries[k].node in NodesOf(entries)
  {
    if k == 0 {
      assert entries[0].node in Nodes(entries[0].node);
    } else {
      EntryIsNode(entries[1..], k - 1);
    }
  }
}
