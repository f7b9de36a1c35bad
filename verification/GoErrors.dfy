/**
 Go error values as trees: what `fmt.Errorf`, `errors.Join` and
 `reconcile.TerminalError` build, and what `errors.Is` finds in them.
 */
module GoErrors {

  /** What was being done when an error came up: the fixed part of an error text. */
  datatype Doing =
    // unpacking an image
    | NilImageSource | ParsingReference | ResolvingReference | CreatingReference | CreatingSourceReference
    | CopyingImage | ReadingImage | MissingLabel | CreatingUnpackDirectory | ApplyingLayer | MakingReadOnly
    | UnpackingImage | DeletingOldImages | MakingWritable | DeletingCatalogCache
    // reconciling a catalog
    | DeletingContent | Finalizing | SourcingContent | StoringContent | UpdatingStatus | UpdatingFinalizers

  datatype GoError =
    | External(text: string)                 // from outside
    | Plain(doing: Doing)                    // errors.New
    | Wrapped(doing: Doing, inner: GoError)  // fmt.Errorf("...: %w", inner)
    | Quoted(doing: Doing, inner: GoError)   // fmt.Errorf("...: %v", inner): only the text of `inner` survives
    | Joined(errs: seq<GoError>)             // errors.Join, or an aggregate
    | Terminal(inner: GoError)               // reconcile.TerminalError(inner)

  /** errors.Is(e, reconcile.TerminalError(nil)) */
  predicate IsTerminal(e: GoError) {
    match e
    case External(_) => false
    case Plain(_) => false
    case Wrapped(_, inner) => IsTerminal(inner)
    case Quoted(_, _) => false
    case Joined(errs) => exists i :: 0 <= i < |errs| && IsTerminal(errs[i])
    case Terminal(_) => true
  }

  /** `e` with the errors that came up while cleaning up after it. */
  function JoinAll(e: GoError, more: seq<GoError>): (r: GoError)
    ensures (forall i :: 0 <= i < |more| ==> !IsTerminal(more[i])) ==> IsTerminal(r) == IsTerminal(e)
  {
    var errs := [e] + more;
    assert forall i :: 0 < i < |errs| ==> errs[i] == more[i - 1];
    assert errs[0] == e;
    Joined(errs)
  }

  /** %w and Join let a terminal error be found, %v hides it. */
  lemma HowTerminalTravels(doing: Doing, e: GoError, errs: seq<GoError>)
    ensures IsTerminal(Wrapped(doing, e)) <==> IsTerminal(e)
    ensures !IsTerminal(Quoted(doing, e)) && IsTerminal(Terminal(e))
    ensures IsTerminal(Joined(errs)) <==> exists i :: 0 <= i < |errs| && IsTerminal(errs[i])
  {
  }
}
