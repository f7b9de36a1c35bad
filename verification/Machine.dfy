/**
 Everything that can happen to one catalog, step by step: users and the API server, the
 controller's reconciles, the garbage collector, failures and restarts. The API server is the
 history of the object's versions; a version's number is its resource version. The controller
 reads from a cache that may lag behind but does not go back.
 */
module Machine {
  import opened Prelude
  import opened GoErrors
  import opened Api
  import opened Conditions
  import opened StatusUpdates
  import opened ImageCache
  import opened ContentStore
  import opened Reconciling

  /**
   How far the reconcile that is under way has come. `read` is the copy it started from, `work`
   the one it changes.
   */
  datatype Phase =
    | Idle
    | Deciding(read: Catalog)
    | Purging(read: Catalog, work: Catalog)                             // content deleted, cache to be cleaned up
    | Storing(read: Catalog, result: UnpackResult)                      // unpacked, content to be stored
    | Recording(read: Catalog, work: Catalog, result: UnpackResult)     // stored, entry to be made
    | Returned(read: Catalog, work: Catalog, err: Option<GoError>)      // `reconcile` has returned
    | WritingStatus(read: Catalog, work: Catalog, err: Option<GoError>)
    | WritingFinalizers(read: Catalog, work: Catalog, err: Option<GoError>, at: nat)

  datatype World = World(
    versions: seq<Option<Catalog>>, // None where the object does not exist
    seen: nat,                      // the version the controller read last
    local: Local,
    phase: Phase,
    now: Time,
    url: string,
    unlisted: bool,                 // the collector's list was made when the object did not exist
    origin: nat,                    // the version whose unpack last touched the disk
    swept: bool,                    // the collector failed half way through the unpack that is being stored, or was
    torn: bool)                     // the cache may be incomplete

  datatype Event =
    // users, other controllers, the API server
    | Create(spec: Spec, finalizers: seq<Finalizer>)
    | Edit(spec: Spec, finalizers: seq<Finalizer>)
    | RequestDelete
    | SetForeignCondition(condition: Condition)
    // the environment
    | Tick(to: Time)
    | Restart
    | KillInUnpack(answers: Answers, left: Cache)
    | CollectorLists
    | CollectorSweeps(left: Cache)
    // the controller
    | Get(version: nat)
    | Finish
    | DeleteContentStep(failure: Option<bool>)
    | CleanupCacheStep(left: Cache)
    | UnpackImageStep(answers: Answers)
    | StoreContentStep(walk: Result<Content, string>)
    | RecordEntry
    | SettleEntry
    | WriteStatusStep(answer: WriteAnswer)
    | WriteFinalizersStep(answer: WriteAnswer)

  ghost function Latest(w: World): nat
    requires w.versions != []
  {
    |w.versions| - 1
  }

  ghost function Current(w: World): Option<Catalog>
    requires w.versions != []
  {
    w.versions[|w.versions| - 1]
  }

  ghost function Init(url: string, now: Time): World {
    World([None], 0, Local(None, None, None), Idle, now, url, false, 0, false, false)
  }

  ghost predicate Decides(w: World, d: Decision) {
    w.phase.Deciding? && Decide(w.phase.read, w.local, w.url, w.now) == d
  }

  /**
   Users may change everything but the status; they do not take the controller's finalizer away,
   and the API server lets nobody add finalizers to an object that is being deleted.
   */
  ghost predicate MayEdit(c: Catalog, finalizers: seq<Finalizer>) {
    && (HasFinalizer(c) ==> DeleteServerCache in finalizers)
    && (c.deleting ==> forall f :: f in finalizers ==> f in c.finalizers)
  }

  /** Where an event can happen at all. */
  ghost predicate Fits(w: World, e: Event) {
    && w.versions != [] && w.seen < |w.versions|
    && match e
       case Create(_, _) => Current(w).None?
       case Edit(_, _) => Current(w).Some?
       case RequestDelete => Current(w).Some?
       case SetForeignCondition(_) => Current(w).Some?
       case Tick(_) => true
       case Restart => true
       case KillInUnpack(_, _) => w.phase.Deciding?
       case CollectorLists => true
       case CollectorSweeps(_) => true
       case Get(version) => w.phase.Idle? && version < |w.versions|
       case Finish => w.phase.Deciding?
       case DeleteContentStep(_) => w.phase.Deciding?
       case CleanupCacheStep(_) => w.phase.Purging?
       case UnpackImageStep(_) => w.phase.Deciding?
       case StoreContentStep(_) => w.phase.Storing?
       case RecordEntry => w.phase.Recording?
       case SettleEntry => w.phase.Returned?
       case WriteStatusStep(_) => w.phase.WritingStatus?
       case WriteFinalizersStep(_) => w.phase.WritingFinalizers?
  }

  ghost predicate Enabled(w: World, e: Event) {
    && Fits(w, e)
    && match e
       case Edit(_, finalizers) => MayEdit(Current(w).value, finalizers)
       case RequestDelete => !Current(w).value.deleting
       case SetForeignCondition(c) => !IsKnown(c)
       case Tick(to) => w.now <= to
       case KillInUnpack(a, left) => Decides(w, MustUnpack)
           && KillCanLeave(w.local.cache, w.phase.read.spec.image, a, left)
       case CollectorSweeps(_) => w.unlisted
       case Get(version) => w.seen <= version
       case Finish => Decides(w, AddFinalizer) || Decides(w, Skip)
       case DeleteContentStep(_) => Decides(w, Purge)
       case UnpackImageStep(_) => Decides(w, MustUnpack)
       case StoreContentStep(walk) => WalkFits(w.local.cache, w.phase.result.digest, walk)
       case _ => true
  }

  ghost function Append(w: World, v: Option<Catalog>): World { w.(versions := w.versions + [v]) }

  /** A new spec is a new generation. */
  ghost function Edited(c: Catalog, spec: Spec, finalizers: seq<Finalizer>): Option<Catalog> {
    WithFinalizers(c.(spec := spec, generation := if spec == c.spec then c.generation else c.generation + 1),
      finalizers)
  }

  /** Deletion only marks an object that has finalizers. */
  ghost function Marked(c: Catalog): Option<Catalog> {
    if c.finalizers == [] then None else Some(c.(deleting := true, generation := c.generation + 1))
  }

  /** From a step of `reconcile` to what follows it. */
  ghost function Proceed(w: World, p: Progress, success: Phase): World
    requires !w.phase.Idle?
  {
    w.(local := p.local, phase := if p.err.Some? then Returned(w.phase.read, p.work, p.err) else success)
  }

  /** The copy that was read is the latest version, so a guarded write goes through. */
  ghost predicate UpToDate(w: World, at: nat) { at + 1 == |w.versions| && w.versions[at].Some? }

  ghost predicate IsUserEvent(e: Event) { e.Create? || e.Edit? || e.RequestDelete? || e.SetForeignCondition? }

  ghost predicate IsEnvironment(e: Event) {
    e.Tick? || e.Restart? || e.KillInUnpack? || e.CollectorLists? || e.CollectorSweeps?
  }

  ghost predicate IsWrite(e: Event) { e.WriteStatusStep? || e.WriteFinalizersStep? }

  /** The version a user event makes. */
  ghost function UserVersion(w: World, e: Event): Option<Catalog>
    requires Fits(w, e) && IsUserEvent(e)
  {
    match e
    case Create(spec, finalizers) => Some(Catalog(|w.versions|, 1, finalizers, false, spec, EMPTY_STATUS))
    case Edit(spec, finalizers) => Edited(Current(w).value, spec, finalizers)
    case RequestDelete => Marked(Current(w).value)
    case SetForeignCondition(c) => Some(WithStatus(Current(w).value, Put(Current(w).value.status, c, w.now)))
  }

  ghost function EnvironmentStep(w: World, e: Event): World
    requires Fits(w, e) && IsEnvironment(e)
  {
    match e
    case Tick(to) => w.(now := to)
    case Restart => w.(local := w.local.(stored := None), phase := Idle)
    case KillInUnpack(_, left) =>
      w.(local := w.local.(cache := left, stored := None), phase := Idle, origin := w.seen,
         torn := w.torn || left != w.local.cache)
    case CollectorLists => w.(unlisted := Current(w).None?)
    case CollectorSweeps(left) =>
      if w.local.cache.Some? && left.Some?
      then w.(local := w.local.(cache := left), swept := w.swept || w.phase.Storing?, torn := true)
      else w.(local := w.local.(cache := None))
  }

  /**
   Whether the cache may be incomplete after an unpack: not after an undisturbed pull, and
   otherwise if it was or something disturbed it.
   */
  ghost function TornBy(w: World, a: Answers): bool
    requires w.phase.Deciding?
  {
    var image := w.phase.read.spec.image;
    !Renews(w.local.cache, image, a) && (w.torn || !Undisturbed(w.local.cache, image, a))
  }

  ghost function AfterUnpack(w: World, u: Unpacked, torn: bool): World
    requires w.phase.Deciding?
  {
    var p := UnpackProgress(w.local, w.phase.read, u, w.now);
    Proceed(w, p, if u.result.Ok? then Storing(w.phase.read, u.result.value) else Idle)
      .(origin := w.seen, swept := false, torn := torn)
  }

  ghost function AfterGet(w: World, version: nat): World
    requires version < |w.versions|
  {
    w.(seen := version, phase := if w.versions[version].Some? then Deciding(w.versions[version].value) else Idle)
  }

  /** `reconcile` returns at once: after adding the finalizer, or because there is nothing to do. */
  ghost function AfterFinish(w: World): World
    requires w.phase.Deciding?
  {
    var read := w.phase.read;
    var work := if HasFinalizer(read) || read.deleting then read
                else read.(finalizers := read.finalizers + [DeleteServerCache]);
    w.(phase := Returned(read, work, None))
  }

  ghost function AfterDelete(w: World, failure: Option<bool>): World
    requires w.phase.Deciding?
  {
    var p := DeleteContent(w.local, w.phase.read, failure, w.now);
    Proceed(w, p, Purging(w.phase.read, p.work))
  }

  ghost function AfterCleanup(w: World, left: Cache): World
    requires w.phase.Purging?
  {
    var p := CleanupCache(w.local, w.phase.work, left, w.now);
    Proceed(w, p, Returned(w.phase.read, p.work, None)).(swept := w.swept && p.err.Some?, torn := p.err.Some?)
  }

  ghost function AfterStore(w: World, walk: Result<Content, string>): World
    requires w.phase.Storing?
  {
    var p := StoreStep(w.local, w.phase.read, w.phase.result, walk, w.url, w.now);
    Proceed(w, p, Recording(w.phase.read, p.work, w.phase.result))
  }

  ghost function AfterRecord(w: World): World
    requires w.phase.Recording?
  {
    w.(local := RecordStep(w.local, w.phase.work, w.phase.result), phase := Returned(w.phase.read, w.phase.work, None))
  }

  ghost function AfterSettle(w: World): World
    requires w.phase.Returned?
  {
    w.(local := Settle(w.local, w.phase.err), phase := WritingStatus(w.phase.read, w.phase.work, w.phase.err))
  }

  /** The steps of a reconcile up to its writes. */
  ghost function ControllerStep(w: World, e: Event): World
    requires Fits(w, e) && !IsUserEvent(e) && !IsEnvironment(e) && !IsWrite(e)
  {
    match e
    case Get(version) => AfterGet(w, version)
    case Finish => AfterFinish(w)
    case DeleteContentStep(failure) => AfterDelete(w, failure)
    case CleanupCacheStep(left) => AfterCleanup(w, left)
    case UnpackImageStep(a) =>
      AfterUnpack(w, UnpackCatalog(w.local.cache, w.phase.read.spec.image, a), TornBy(w, a))
    case StoreContentStep(walk) => AfterStore(w, walk)
    case RecordEntry => AfterRecord(w)
    case SettleEntry => AfterSettle(w)
  }

  /**
   The version a write makes, if it goes through: it must change something, not be refused, and
   start from the latest version.
   */
  ghost function Written(w: World, e: Event): Option<Option<Catalog>>
    requires Fits(w, e) && IsWrite(e)
  {
    match e
    case WriteStatusStep(answer) =>
      if w.phase.work.status != w.phase.read.status && answer != Refused && UpToDate(w, w.seen)
      then Some(Some(WithStatus(w.versions[w.seen].value, w.phase.work.status))) else None
    case WriteFinalizersStep(answer) =>
      if w.phase.work.finalizers != w.phase.read.finalizers && answer != Refused && UpToDate(w, w.phase.at)
      then Some(WithFinalizers(w.versions[w.phase.at].value, w.phase.work.finalizers)) else None
  }

  /** After the status write the finalizer write starts from the new version, if the client knows of it. */
  ghost function AfterWrite(w: World, e: Event): Phase
    requires Fits(w, e) && IsWrite(e)
  {
    match e
    case WriteStatusStep(answer) =>
      WritingFinalizers(w.phase.read, w.phase.work, w.phase.err,
                        if Written(w, e).Some? && answer == Applied then |w.versions| else w.seen)
    case WriteFinalizersStep(_) => Idle
  }

  ghost function WriteStep(w: World, e: Event): World
    requires Fits(w, e) && IsWrite(e)
  {
    var w' := w.(phase := AfterWrite(w, e));
    if Written(w, e).Some? then Append(w', Written(w, e).value) else w'
  }

  ghost function Next(w: World, e: Event): World
    requires Fits(w, e)
  {
    if IsUserEvent(e) then Append(w, UserVersion(w, e))
    else if IsEnvironment(e) then EnvironmentStep(w, e)
    else if IsWrite(e) then WriteStep(w, e)
    else ControllerStep(w, e)
  }

  /** A run: each event is enabled when it happens. */
  ghost predicate CanRun(w: World, events: seq<Event>)
    decreases |events|
  {
    events == [] || (Enabled(w, events[0]) && CanRun(Next(w, events[0]), events[1..]))
  }

  ghost function After(w: World, events: seq<Event>): World
    requires CanRun(w, events)
    decreases |events|
  {
    if events == [] then w else After(Next(w, events[0]), events[1..])
  }

  lemma RunCons(w: World, e: Event, events: seq<Event>)
    requires Enabled(w, e) && CanRun(Next(w, e), events)
    ensures CanRun(w, [e] + events) && After(w, [e] + events) == After(Next(w, e), events)
  {
    assert ([e] + events)[1..] == events;
  }

  lemma RunOne(w: World, e: Event)
    requires Enabled(w, e)
    ensures CanRun(w, [e]) && After(w, [e]) == Next(w, e)
  {
    assert [e][1..] == [];
  }

  ghost predicate ReachedBy(w: World, url: string, now: Time, events: seq<Event>) {
    CanRun(Init(url, now), events) && w == After(Init(url, now), events)
  }
}
