/** Status conditions: `meta.SetStatusCondition` and the laws it obeys. */
module Conditions {
  import opened Prelude
  import opened Api

  /** An existing condition brought in line with `c`; its transition time moves only with its status. */
  function Merge(was: Condition, c: Condition, now: Time): Condition {
    c.(lastTransition := if was.status == c.status then was.lastTransition else now)
  }

  /** meta.SetStatusCondition: in place by type, or at the end. */
  function SetCondition(cs: seq<Condition>, c: Condition, now: Time): seq<Condition> {
    if cs == [] then [c.(lastTransition := now)]
    else if cs[0].kind == c.kind then [Merge(cs[0], c, now)] + cs[1..]
    else [cs[0]] + SetCondition(cs[1..], c, now)
  }

  /** meta.FindStatusCondition */
  function Lookup(cs: seq<Condition>, kind: ConditionType): Option<Condition> {
    if cs == [] then None
    else if cs[0].kind == kind then Some(cs[0])
    else Lookup(cs[1..], kind)
  }

  predicate IsKnown(c: Condition) { c.kind == TypeServing || c.kind == TypeProgressing }

  /** slices.DeleteFunc with the types that are not known. */
  function Known(cs: seq<Condition>): (r: seq<Condition>) {
    if cs == [] then []
    else if IsKnown(cs[0]) then [cs[0]] + Known(cs[1..])
    else Known(cs[1..])
  }

  ghost predicate OnlyKnown(cs: seq<Condition>) {
    forall i :: 0 <= i < |cs| ==> IsKnown(cs[i])
  }

  ghost predicate UniqueKinds(cs: seq<Condition>) {
    forall i, j :: 0 <= i < j < |cs| ==> cs[i].kind != cs[j].kind
  }

  ghost predicate HasKind(cs: seq<Condition>, kind: ConditionType) {
    exists i :: 0 <= i < |cs| && cs[i].kind == kind
  }

  /** Everything but the transition time agrees. */
  predicate SameClaim(a: Condition, b: Condition) {
    a.(lastTransition := b.lastTransition) == b
  }

  /** The list already says what `c` says. */
  predicate Says(cs: seq<Condition>, c: Condition) {
    Lookup(cs, c.kind).Some? && SameClaim(Lookup(cs, c.kind).value, c)
  }

  /** Every other type reads as before; the one set reads as `c`, since when it has had that status value. */
  lemma {:induction false} LookupSet(cs: seq<Condition>, c: Condition, now: Time, kind: ConditionType)
    ensures var was := Lookup(cs, kind);
      Lookup(SetCondition(cs, c, now), kind) ==
      if kind != c.kind then was
      else Some(c.(lastTransition := if was.Some?
          && was.value.status == c.status then was.value.lastTransition else now))
  {
    if cs != [] && cs[0].kind != c.kind {
      LookupSet(cs[1..], c, now, kind);
      assert SetCondition(cs, c, now)[1..] == SetCondition(cs[1..], c, now);
    }
  }

  /** Setting a condition does nothing exactly when the list says it already. */
  lemma {:induction false} SetIsNoop(cs: seq<Condition>, c: Condition, now: Time)
    ensures SetCondition(cs, c, now) == cs <==> Says(cs, c)
  {
    if cs != [] {
      if cs[0].kind == c.kind {
        assert SetCondition(cs, c, now)[0] == Merge(cs[0], c, now);
        assert SetCondition(cs, c, now)[1..] == cs[1..];
      } else {
        SetIsNoop(cs[1..], c, now);
        assert SetCondition(cs, c, now)[1..] == SetCondition(cs[1..], c, now);
      }
    }
  }

  /** After setting a condition the list says it, and says what it said of the other types. */
  lemma SetSays(cs: seq<Condition>, c: Condition, now: Time)
    ensures Says(SetCondition(cs, c, now), c)
    ensures forall d: Condition :: d.kind != c.kind ==> (Says(SetCondition(cs, c, now), d) <==> Says(cs, d))
  {
    LookupSet(cs, c, now, c.kind);
    forall d: Condition | d.kind != c.kind
      ensures Says(SetCondition(cs, c, now), d) <==> Says(cs, d)
    {
      LookupSet(cs, c, now, d.kind);
    }
  }

  lemma {:induction false} SetKeepsKinds(cs: seq<Condition>, c: Condition, now: Time, kind: ConditionType)
    ensures HasKind(SetCondition(cs, c, now), kind) <==> kind == c.kind || HasKind(cs, kind)
  {
    KindsByLookup(cs, kind);
    KindsByLookup(SetCondition(cs, c, now), kind);
    LookupSet(cs, c, now, kind);
  }

  lemma {:induction false} KindsByLookup(cs: seq<Condition>, kind: ConditionType)
    ensures Lookup(cs, kind).Some? <==> HasKind(cs, kind)
  {
    if cs != [] {
      KindsByLookup(cs[1..], kind);
      if cs[0].kind != kind && Lookup(cs, kind).Some? {
        var i :| 0 <= i < |cs[1..]| && cs[1..][i].kind == kind;
        assert cs[i + 1].kind == kind;
      }
      if i :| 0 <= i < |cs| && cs[i].kind == kind {
        assert i > 0 ==> cs[1..][i - 1].kind == kind;
      }
    }
  }

  lemma {:induction false} SetKeepsUnique(cs: seq<Condition>, c: Condition, now: Time)
    requires UniqueKinds(cs)
    ensures UniqueKinds(SetCondition(cs, c, now))
  {
    if cs != [] {
      if cs[0].kind == c.kind {
      } else {
        var rest := SetCondition(cs[1..], c, now);
        SetKeepsUnique(cs[1..], c, now);
        SetKeepsKinds(cs[1..], c, now, cs[0].kind);
        assert !HasKind(cs[1..], cs[0].kind);
        assert !HasKind(rest, cs[0].kind);
      }
    }
  }

  lemma {:induction false} KnownIsNoop(cs: seq<Condition>)
    ensures OnlyKnown(Known(cs)) && |Known(cs)| <= |cs|
    ensures Known(cs) == cs <==> OnlyKnown(cs)
  {
    if cs != [] {
      KnownIsNoop(cs[1..]);
      assert Known(cs) == cs ==> IsKnown(cs[0]);
    }
  }

  lemma {:induction false} SetKeepsOnlyKnown(cs: seq<Condition>, c: Condition, now: Time)
    requires IsKnown(c)
    ensures OnlyKnown(SetCondition(cs, c, now)) <==> OnlyKnown(cs)
  {
    if cs != [] && cs[0].kind != c.kind {
      SetKeepsOnlyKnown(cs[1..], c, now);
      var set1 := SetCondition(cs, c, now);
      assert set1[0] == cs[0] && set1[1..] == SetCondition(cs[1..], c, now);
      assert OnlyKnown(set1) <==> IsKnown(cs[0]) && OnlyKnown(set1[1..]) by { OnlyKnownSplit(set1); }
      OnlyKnownSplit(cs);
    } else if cs != [] {
      OnlyKnownSplit(cs);
      OnlyKnownSplit(SetCondition(cs, c, now));
      assert SetCondition(cs, c, now)[1..] == cs[1..];
    }
  }

  lemma OnlyKnownSplit(cs: seq<Condition>)
    requires cs != []
    ensures OnlyKnown(cs) <==> IsKnown(cs[0]) && OnlyKnown(cs[1..])
  {
    assert forall i :: 0 < i < |cs| ==> cs[i] == cs[1..][i - 1];
  }

  /** Storing the list in the API server changes nothing that is said. */
  lemma {:induction false} PersistSays(cs: seq<Condition>, kind: ConditionType)
    ensures Lookup(PersistConditions(cs), kind) ==
            if Lookup(cs, kind).None? then None else Some(PersistCondition(Lookup(cs, kind).value))
  {
    if cs != [] {
      PersistSays(cs[1..], kind);
      assert PersistConditions(cs)[1..] == PersistConditions(cs[1..]);
    }
  }

  /** Setting a condition and setting it back, without a change of status, leaves no trace. */
  lemma {:induction false} SetBack(cs: seq<Condition>, a: Condition, b: Condition, t: Time, t': Time)
    requires a.kind == b.kind && a.status == b.status && Says(cs, b)
    ensures SetCondition(SetCondition(cs, a, t), b, t') == cs
  {
    if cs[0].kind == a.kind {
      assert SetCondition(cs, a, t) == [Merge(cs[0], a, t)] + cs[1..];
      assert ([Merge(cs[0], a, t)] + cs[1..])[1..] == cs[1..];
    } else {
      SetBack(cs[1..], a, b, t, t');
      assert SetCondition(cs, a, t)[1..] == SetCondition(cs[1..], a, t);
    }
  }

  function KindsOf(cs: seq<Condition>): seq<ConditionType> {
    if cs == [] then [] else [cs[0].kind] + KindsOf(cs[1..])
  }

  /** The types keep their places; a new one goes to the end. */
  lemma {:induction false} SetKeepsOrder(cs: seq<Condition>, c: Condition, now: Time)
    ensures KindsOf(SetCondition(cs, c, now)) == if HasKind(cs, c.kind) then KindsOf(cs) else KindsOf(cs) + [c.kind]
  {
    KindsByLookup(cs, c.kind);
    if cs != [] && cs[0].kind != c.kind {
      SetKeepsOrder(cs[1..], c, now);
      KindsByLookup(cs[1..], c.kind);
      assert SetCondition(cs, c, now)[1..] == SetCondition(cs[1..], c, now);
    }
  }

  /** Clearing keeps every condition of a known type and no other. */
  lemma {:induction false} KnownExact(cs: seq<Condition>, c: Condition)
    ensures multiset(Known(cs))[c] == if IsKnown(c) then multiset(cs)[c] else 0
  {
    if cs != [] {
      KnownExact(cs[1..], c);
      assert cs == [cs[0]] + cs[1..];
    }
  }

  /** What the API server keeps says the same, in whole seconds; keeping it again changes nothing. */
  lemma PersistExact(cs: seq<Condition>, i: nat)
    requires i < |cs|
    ensures var kept := PersistConditions(cs);
      && |kept| == |cs| && SameClaim(kept[i], cs[i]) && kept[i].lastTransition % SECOND == 0
      && kept[i].lastTransition <= cs[i].lastTransition < kept[i].lastTransition + SECOND
      && PersistConditions(kept)[i] == kept[i]
  {
  }
}
