/** How the reconciler changes a catalog's status. */
module StatusUpdates {
  import opened Prelude
  import opened GoErrors
  import opened Api
  import opened Conditions
  import opened ImageCache

  function ProgressingCondition(generation: nat, err: Option<GoError>): Condition {
    match err
    case None =>
      Condition(TypeProgressing, True, ReasonSucceeded, UnpackedMessage, generation, 0)
    case Some(e) =>
      if IsTerminal(e) then Condition(TypeProgressing, False, ReasonBlocked, ErrorText(e), generation, 0)
      else Condition(TypeProgressing, True, ReasonRetrying, ErrorText(e), generation, 0)
  }

  function ServingCondition(generation: nat): Condition {
    Condition(TypeServing, True, ReasonAvailable, ServingMessage, generation, 0)
  }

  function NotServingCondition(generation: nat): Condition {
    Condition(TypeServing, False, ReasonUnavailable, NoMessage, generation, 0)
  }

  function UserUnavailableProgressing(generation: nat): Condition {
    Condition(TypeProgressing, True, ReasonSucceeded, UnavailableMessage, generation, 0)
  }

  function UserUnavailableServing(generation: nat): Condition {
    Condition(TypeServing, False, ReasonUserSpecifiedUnavailable, UnavailableMessage, generation, 0)
  }

  function Put(s: Status, c: Condition, now: Time): Status {
    s.(conditions := SetCondition(s.conditions, c, now))
  }

  /** updateStatusProgressing */
  function UpdateProgressing(s: Status, generation: nat, err: Option<GoError>, now: Time): Status {
    Put(s, ProgressingCondition(generation, err), now)
  }

  /** updateStatusServing */
  function UpdateServing(s: Status, result: UnpackResult, url: string, generation: nat, now: Time): Status {
    Put(s.(resolved := Some(result.resolved), url := Some(url), lastUnpacked := Some(result.unpackTime)),
        ServingCondition(generation), now)
  }

  /** updateStatusNotServing */
  function UpdateNotServing(s: Status, generation: nat, now: Time): Status {
    Put(s.(resolved := None, url := None, lastUnpacked := None), NotServingCondition(generation), now)
  }

  /** updateStatusProgressingUserSpecifiedUnavailable */
  function UpdateUserUnavailable(s: Status, generation: nat, now: Time): Status {
    Put(Put(s, UserUnavailableProgressing(generation), now), UserUnavailableServing(generation), now)
  }

  /** clearUnknownConditions */
  function ClearUnknown(s: Status): Status {
    s.(conditions := Known(s.conditions))
  }

  // ---------------------------------------------------------------------------------------
  // Statuses that make sense.
  // ---------------------------------------------------------------------------------------

  predicate IsServing(s: Status) {
    Lookup(s.conditions, TypeServing).Some? && Lookup(s.conditions, TypeServing).value.status == True
  }

  ghost predicate GenerationsUpTo(cs: seq<Condition>, generation: nat) {
    forall c :: c in cs && IsKnown(c) ==> c.observedGeneration <= generation
  }

  /**
   Serving exactly when the three fields that describe what is served are set, and none of them
   otherwise.
   */
  ghost predicate Coherent(s: Status, generation: nat) {
    && (IsServing(s) ==> s.resolved.Some? && s.url.Some? && s.lastUnpacked.Some?)
    && (!IsServing(s) ==> s.resolved.None? && s.url.None? && s.lastUnpacked.None?)
    && UniqueKinds(s.conditions)
    && GenerationsUpTo(s.conditions, generation)
  }

  lemma {:induction false} SetKeepsGenerations(cs: seq<Condition>, c: Condition, now: Time, generation: nat)
    requires GenerationsUpTo(cs, generation) && (IsKnown(c) ==> c.observedGeneration <= generation)
    ensures GenerationsUpTo(SetCondition(cs, c, now), generation)
  {
    if cs != [] {
      assert GenerationsUpTo(cs[1..], generation);
      SetKeepsGenerations(cs[1..], c, now, generation);
    }
  }

  lemma PutKeepsRest(s: Status, c: Condition, now: Time, generation: nat)
    requires UniqueKinds(s.conditions) && GenerationsUpTo(s.conditions, generation)
        && (IsKnown(c) ==> c.observedGeneration <= generation)
    ensures UniqueKinds(Put(s, c, now).conditions) && GenerationsUpTo(Put(s, c, now).conditions, generation)
    ensures IsServing(Put(s, c, now)) == if c.kind == TypeServing then c.status == True else IsServing(s)
  {
    SetKeepsUnique(s.conditions, c, now);
    SetKeepsGenerations(s.conditions, c, now, generation);
    LookupSet(s.conditions, c, now, TypeServing);
  }

  lemma PutServing(s: Status, c: Condition, now: Time)
    ensures IsServing(Put(s, c, now)) <==> if c.kind == TypeServing then c.status == True else IsServing(s)
  {
    LookupSet(s.conditions, c, now, TypeServing);
  }

  lemma PersistServing(s: Status)
    ensures IsServing(Persist(s)) <==> IsServing(s)
  {
    PersistSays(s.conditions, TypeServing);
  }

  /** After setting a condition the status says it, and nothing else about the other types than before. */
  lemma PutShows(s: Status, c: Condition, now: Time)
    ensures Says(Put(s, c, now).conditions, c)
    ensures forall kind :: kind != c.kind ==> Lookup(Put(s, c, now).conditions, kind) == Lookup(s.conditions, kind)
  {
    SetSays(s.conditions, c, now);
    forall kind | kind != c.kind
      ensures Lookup(Put(s, c, now).conditions, kind) == Lookup(s.conditions, kind)
    {
      LookupSet(s.conditions, c, now, kind);
    }
  }

  lemma ProgressingKeepsCoherent(s: Status, generation: nat, err: Option<GoError>, now: Time)
    ensures Coherent(s, generation) ==> Coherent(UpdateProgressing(s, generation, err, now), generation)
  {
    if Coherent(s, generation) { PutKeepsRest(s, ProgressingCondition(generation, err), now, generation); }
  }

  lemma ServingKeepsCoherent(s: Status, generation: nat, result: UnpackResult, url: string, now: Time)
    ensures IsServing(UpdateServing(s, result, url, generation, now))
    ensures Coherent(s, generation) ==> Coherent(UpdateServing(s, result, url, generation, now), generation)
  {
    var filled := s.(resolved := Some(result.resolved), url := Some(url), lastUnpacked := Some(result.unpackTime));
    LookupSet(filled.conditions, ServingCondition(generation), now, TypeServing);
    if Coherent(s, generation) { PutKeepsRest(filled, ServingCondition(generation), now, generation); }
  }

  lemma NotServingKeepsCoherent(s: Status, generation: nat, now: Time)
    ensures !IsServing(UpdateNotServing(s, generation, now))
    ensures Coherent(s, generation) ==> Coherent(UpdateNotServing(s, generation, now), generation)
  {
    var emptied := s.(resolved := None, url := None, lastUnpacked := None);
    LookupSet(emptied.conditions, NotServingCondition(generation), now, TypeServing);
    if Coherent(s, generation) { PutKeepsRest(emptied, NotServingCondition(generation), now, generation); }
  }

  lemma UnavailableKeepsCoherent(s: Status, generation: nat, now: Time)
    ensures !IsServing(UpdateUserUnavailable(s, generation, now))
    ensures Coherent(s, generation) && !IsServing(s) ==> Coherent(UpdateUserUnavailable(s, generation, now), generation)
  {
    var first := Put(s, UserUnavailableProgressing(generation), now);
    LookupSet(first.conditions, UserUnavailableServing(generation), now, TypeServing);
    if Coherent(s, generation) && !IsServing(s) {
      PutKeepsRest(s, UserUnavailableProgressing(generation), now, generation);
      PutKeepsRest(first, UserUnavailableServing(generation), now, generation);
    }
  }

  /** No update breaks coherence; marking a catalog unavailable needs one that is not serving. */
  lemma UpdatesKeepCoherent(s: Status, generation: nat, err: Option<GoError>, result: UnpackResult, url: string,
      now: Time)
    requires Coherent(s, generation)
    ensures Coherent(UpdateProgressing(s, generation, err, now), generation)
    ensures Coherent(UpdateServing(s, result, url, generation, now), generation)
    ensures Coherent(UpdateNotServing(s, generation, now), generation)
        && !IsServing(UpdateNotServing(s, generation, now))
    ensures !IsServing(s) ==> Coherent(UpdateUserUnavailable(s, generation, now), generation)
  {
    ProgressingKeepsCoherent(s, generation, err, now);
    ServingKeepsCoherent(s, generation, result, url, now);
    NotServingKeepsCoherent(s, generation, now);
    UnavailableKeepsCoherent(s, generation, now);
  }

  lemma PersistKeepsCoherent(s: Status, generation: nat)
    requires Coherent(s, generation)
    ensures Coherent(Persist(s), generation)
  {
    PersistSays(s.conditions, TypeServing);
    var cs := PersistConditions(s.conditions);
    forall c | c in cs && IsKnown(c)
      ensures c.observedGeneration <= generation
    {
      var i :| 0 <= i < |cs| && cs[i] == c;
      assert s.conditions[i] in s.conditions;
    }
  }

  /** What a reader of the status finds under a condition type. */
  ghost predicate Shows(s: Status, kind: ConditionType, status: Truth, reason: Reason, message: Message,
      generation: nat) {
    && Lookup(s.conditions, kind).Some?
    && var c := Lookup(s.conditions, kind).value;
       c.status == status && c.reason == reason && c.message == message && c.observedGeneration == generation
  }

  /** After a success: progressing, Succeeded. */
  lemma SuccessShows(s: Status, generation: nat, now: Time)
    ensures Shows(UpdateProgressing(s, generation, None, now), TypeProgressing, True, ReasonSucceeded, UnpackedMessage,
        generation)
  {
    LookupSet(s.conditions, ProgressingCondition(generation, None), now, TypeProgressing);
  }

  lemma ServingShows(s: Status, result: UnpackResult, url: string, generation: nat, now: Time)
    ensures var s' := UpdateServing(s, result, url, generation, now);
      && Shows(s', TypeServing, True, ReasonAvailable, ServingMessage, generation)
      && s'.resolved == Some(result.resolved) && s'.url == Some(url) && s'.lastUnpacked == Some(result.unpackTime)
  {
    LookupSet(s.conditions, ServingCondition(generation), now, TypeServing);
  }

  lemma NotServingShows(s: Status, generation: nat, now: Time)
    ensures var s' := UpdateNotServing(s, generation, now);
      && Shows(s', TypeServing, False, ReasonUnavailable, NoMessage, generation)
      && s'.resolved.None? && s'.url.None? && s'.lastUnpacked.None?
  {
    LookupSet(s.conditions, NotServingCondition(generation), now, TypeServing);
  }

  /** Unavailable by the user's wish: progressing is True and Succeeded, serving False. */
  lemma UserUnavailableShows(s: Status, generation: nat, now: Time)
    ensures var s' := UpdateUserUnavailable(s, generation, now);
      && Shows(s', TypeProgressing, True, ReasonSucceeded, UnavailableMessage, generation)
      && Shows(s', TypeServing, False, ReasonUserSpecifiedUnavailable, UnavailableMessage, generation)
  {
    var first := SetCondition(s.conditions, UserUnavailableProgressing(generation), now);
    LookupSet(s.conditions, UserUnavailableProgressing(generation), now, TypeProgressing);
    LookupSet(first, UserUnavailableServing(generation), now, TypeProgressing);
    LookupSet(first, UserUnavailableServing(generation), now, TypeServing);
  }

  /** The reason that goes with an error. */
  function ReasonFor(e: GoError): Reason { if IsTerminal(e) then ReasonBlocked else ReasonRetrying }

  ghost predicate Reports(s: Status, e: GoError) {
    && Lookup(s.conditions, TypeProgressing).Some?
    && var c := Lookup(s.conditions, TypeProgressing).value;
       c.reason == ReasonFor(e) && c.status == if IsTerminal(e) then False else True
  }

  /** A failure is reported as Blocked exactly when retrying cannot help, with its text. */
  lemma ProgressingReports(s: Status, generation: nat, e: GoError, now: Time)
    ensures Reports(UpdateProgressing(s, generation, Some(e), now), e)
    ensures Shows(UpdateProgressing(s, generation, Some(e), now), TypeProgressing,
                  if IsTerminal(e) then False else True, ReasonFor(e), ErrorText(e), generation)
  {
    LookupSet(s.conditions, ProgressingCondition(generation, Some(e)), now, TypeProgressing);
  }

  // ---------------------------------------------------------------------------------------
  // Statuses that match an unpack.
  // ---------------------------------------------------------------------------------------

  /** Serving and Progressing and the three fields are as `result` would set them. */
  ghost predicate Matches(s: Status, result: UnpackResult, url: string, generation: nat) {
    && s.resolved == Some(result.resolved) && s.url == Some(url) && s.lastUnpacked == Some(result.unpackTime)
    && Says(s.conditions, ServingCondition(generation))
    && Says(s.conditions, ProgressingCondition(generation, None))
  }

  /**
   A status that matches is one in which a reader finds Serving True, Available, and Progressing
   True, Succeeded.
   */
  lemma MatchShows(s: Status, result: UnpackResult, url: string, generation: nat)
    ensures Matches(s, result, url, generation) <==>
      && s.resolved == Some(result.resolved) && s.url == Some(url) && s.lastUnpacked == Some(result.unpackTime)
      && Shows(s, TypeServing, True, ReasonAvailable, ServingMessage, generation)
      && Shows(s, TypeProgressing, True, ReasonSucceeded, UnpackedMessage, generation)
  {
    LookupKind(s.conditions, TypeServing);
    LookupKind(s.conditions, TypeProgressing);
  }

  lemma {:induction false} LookupKind(cs: seq<Condition>, kind: ConditionType)
    ensures Lookup(cs, kind).Some? ==> Lookup(cs, kind).value.kind == kind
  {
    if cs != [] { LookupKind(cs[1..], kind); }
  }

  /**
   What getCurrentState expects is what is there exactly if the status matches and has no other
   conditions.
   */
  lemma ExpectedIsCurrent(s: Status, result: UnpackResult, url: string, generation: nat, now: Time)
    ensures UpdateProgressing(UpdateServing(ClearUnknown(s), result, url, generation, now), generation, None, now) == s
            <==> Matches(s, result, url, generation) && OnlyKnown(s.conditions)
  {
    var cs, known := s.conditions, Known(s.conditions);
    var serving, progressing := ServingCondition(generation), ProgressingCondition(generation, None);
    var first := SetCondition(known, serving, now);
    var second := SetCondition(first, progressing, now);
    KnownIsNoop(cs);
    SetSays(known, serving, now);
    SetSays(first, progressing, now);
    SetKeepsOnlyKnown(known, serving, now);
    SetKeepsOnlyKnown(first, progressing, now);
    SetIsNoop(known, serving, now);
    SetIsNoop(first, progressing, now);
    assert OnlyKnown(second);
    if OnlyKnown(cs) && Matches(s, result, url, generation) {
      assert second == cs;
    }
    if second == cs {
      assert Says(second, serving) && Says(second, progressing);
    }
  }

  /** A full unpack makes the status match, and neither adds nor removes other conditions. */
  lemma UnpackMakesMatch(s: Status, result: UnpackResult, url: string, generation: nat, now: Time)
    ensures var s' := UpdateServing(UpdateProgressing(s, generation, None, now), result, url, generation, now);
      && Matches(s', result, url, generation)
      && (OnlyKnown(s'.conditions) <==> OnlyKnown(s.conditions))
  {
    var serving, progressing := ServingCondition(generation), ProgressingCondition(generation, None);
    var first := SetCondition(s.conditions, progressing, now);
    SetSays(s.conditions, progressing, now);
    SetSays(first, serving, now);
    SetKeepsOnlyKnown(s.conditions, progressing, now);
    SetKeepsOnlyKnown(first, serving, now);
  }

  /** A full unpack of what the status already describes changes at most the time of the last unpack. */
  lemma UnpackOfMatchIsNoop(s: Status, was: UnpackResult, result: UnpackResult, url: string, generation: nat, now: Time)
    requires Matches(s, was, url, generation) && result.resolved == was.resolved
    ensures UpdateServing(UpdateProgressing(s, generation, None, now), result, url, generation, now)
            == s.(lastUnpacked := Some(result.unpackTime))
  {
    SetIsNoop(s.conditions, ProgressingCondition(generation, None), now);
    SetIsNoop(s.conditions, ServingCondition(generation), now);
  }

  /** The match survives being stored by the API server exactly because the unpack time is whole seconds. */
  lemma PersistKeepsMatch(s: Status, result: UnpackResult, url: string, generation: nat)
    requires Matches(s, result, url, generation)
    ensures Matches(Persist(s), result, url, generation) <==> Truncate(result.unpackTime) == result.unpackTime
    ensures OnlyKnown(Persist(s).conditions) <==> OnlyKnown(s.conditions)
  {
    PersistSays(s.conditions, TypeServing);
    PersistSays(s.conditions, TypeProgressing);
    var cs := PersistConditions(s.conditions);
    assert forall i :: 0 <= i < |cs| ==> (IsKnown(cs[i]) <==> IsKnown(s.conditions[i]));
  }
}
