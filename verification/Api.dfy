/** The ClusterCatalog API object. */
module Api {
  import opened Prelude
  import opened GoErrors
  import opened Layers

  /** This controller's finalizer, olm.operatorframework.io/delete-server-cache, and those of others. */
  datatype Finalizer = DeleteServerCache | OtherFinalizer(name: string)

  datatype ConditionType = TypeServing | TypeProgressing | OtherType(name: string)

  datatype Reason =
    | ReasonAvailable | ReasonUnavailable | ReasonUserSpecifiedUnavailable
    | ReasonSucceeded | ReasonRetrying | ReasonBlocked
    | OtherReason(text: string)

  /** The fixed messages, and the text of an error. */
  datatype Message =
    | UnpackedMessage
    | ServingMessage
    | UnavailableMessage
    | NoMessage
    | ErrorText(err: GoError)
    | OtherMessage(text: string)

  /**
   An image reference as the reference parser sees it: not a reference, or a name with a tag, a
   digest, both or neither.
   */
  datatype ImageRef =
    | Unparsable(text: string)
    | Named(name: string, tag: Option<string>, digest: Option<Digest>)

  /** A reference that pins a digest. */
  datatype CanonicalRef = CanonicalRef(name: string, tag: Option<string>, digest: Digest)

  datatype ImageSource = ImageSource(ref: ImageRef, pollIntervalMinutes: Option<int>)

  datatype Availability = Available | Unavailable

  datatype Spec = Spec(image: Option<ImageSource>, priority: int, availability: Availability)

  datatype Truth = True | False | Unknown

  datatype Condition = Condition(
    kind: ConditionType, status: Truth, reason: Reason, message: Message, observedGeneration: nat, lastTransition: Time)

  datatype Status = Status(
    conditions: seq<Condition>, resolved: Option<CanonicalRef>, url: Option<string>, lastUnpacked: Option<Time>)

  const EMPTY_STATUS := Status([], None, None, None)

  datatype Catalog = Catalog(
    uid: nat, generation: nat, finalizers: seq<Finalizer>, deleting: bool, spec: Spec, status: Status)

  predicate HasFinalizer(c: Catalog) { DeleteServerCache in c.finalizers }

  /** controllerutil.RemoveFinalizer */
  function Without(finalizers: seq<Finalizer>, f: Finalizer): (r: seq<Finalizer>)
    ensures f !in r
    ensures forall g :: g != f ==> (g in r <==> g in finalizers)
    ensures f !in finalizers ==> r == finalizers
    ensures forall g :: g != f ==> multiset(r)[g] == multiset(finalizers)[g]
  {
    assert finalizers != [] ==> finalizers == [finalizers[0]] + finalizers[1..];
    if finalizers == [] then []
    else if finalizers[0] == f then Without(finalizers[1..], f)
    else [finalizers[0]] + Without(finalizers[1..], f)
  }

  // What the API server keeps of a status: times lose their fraction of a second.

  function PersistCondition(c: Condition): Condition { c.(lastTransition := Truncate(c.lastTransition)) }

  function PersistConditions(cs: seq<Condition>): (r: seq<Condition>)
    ensures |r| == |cs| && forall i :: 0 <= i < |r| ==> r[i] == PersistCondition(cs[i])
  {
    seq(|cs|, i requires 0 <= i < |cs| => PersistCondition(cs[i]))
  }

  function Persist(s: Status): Status {
    s.(conditions := PersistConditions(s.conditions),
       lastUnpacked := if s.lastUnpacked.Some? then Some(Truncate(s.lastUnpacked.value)) else None)
  }
}
