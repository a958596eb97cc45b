/**
 * Kubernetes set-condition semantics (`meta.FindStatusCondition` and
 * `meta.SetStatusCondition` of the API machinery), which the phase
 * synchroniser uses to upsert the readiness condition. Conditions are
 * keyed by type; changing a condition's status stamps a new transition
 * time, changing only its reason or message does not.
 */
module MetaConditions {
  import opened Wrappers
  import opened ApiV1

  /** The index of the first condition of type `t`, if there is one. */
  function FirstIndexOfType(cs: seq<Condition>, t: string): (r: Option<nat>)
    ensures r.Some? ==> r.value < |cs| && cs[r.value].conditionType == t
    ensures r.Some? ==> forall j :: 0 <= j < r.value ==> cs[j].conditionType != t
    ensures r.None? ==> forall j :: 0 <= j < |cs| ==> cs[j].conditionType != t
  {
    if cs == [] then None
    else if cs[0].conditionType == t then Some(0)
    else match FirstIndexOfType(cs[1..], t)
      case None => None
      case Some(i) => Some(i + 1)
  }

  /** Two conditions agree on everything set-condition copies from the new one. */
  predicate SameContent(a: Condition, c: Condition) {
    && a.conditionType == c.conditionType
    && a.status == c.status
    && a.reason == c.reason
    && a.message == c.message
    && a.observedGeneration == c.observedGeneration
  }

  /** The transition time set-condition stamps: the new condition's own, or `now` if it has none. */
  function StampTime(c: Condition, now: Time): Time {
    if c.lastTransitionTime == ZeroTime then now else c.lastTransitionTime
  }

  /** Upsert `c` into `cs`: the specification of `SetStatusCondition`. */
  function SetCondition(cs: seq<Condition>, c: Condition, now: Time): seq<Condition> {
    match FirstIndexOfType(cs, c.conditionType)
    case None => cs + [c.(lastTransitionTime := StampTime(c, now))]
    case Some(i) =>
      var e := cs[i];
      var timed := if e.status != c.status then e.(status := c.status, lastTransitionTime := StampTime(c, now)) else e;
      cs[i := timed.(reason := c.reason, message := c.message, observedGeneration := c.observedGeneration)]
  }

  /** `meta.FindStatusCondition`: scan for the first condition of the given type. */
  method FindStatusCondition(conditions: seq<Condition>, conditionType: string) returns (r: Option<nat>)
    ensures r == FirstIndexOfType(conditions, conditionType)
  {
    var i := 0;
    while i < |conditions|
      invariant 0 <= i <= |conditions|
      invariant forall j :: 0 <= j < i ==> conditions[j].conditionType != conditionType
    {
      if conditions[i].conditionType == conditionType {
        FirstIndexIsUnique(conditions, conditionType, i);
        return Some(i);
      }
      i := i + 1;
    }
    return None;
  }

  /**
   * `meta.SetStatusCondition`: the slice it edits through a pointer is
   * passed in and handed back; `changed` reports whether anything differs.
   */
  method SetStatusCondition(conditions: seq<Condition>, newCondition: Condition, now: Time)
    returns (updated: seq<Condition>, changed: bool)
    ensures updated == SetCondition(conditions, newCondition, now)
    ensures changed <==> updated != conditions
  {
    var found := FindStatusCondition(conditions, newCondition.conditionType);
    match found {
      case None =>
        var added := newCondition;
        if added.lastTransitionTime == ZeroTime {
          added := added.(lastTransitionTime := now);
        }
        updated := conditions + [added];
        assert |updated| != |conditions|;
        changed := true;
      case Some(i) =>
        var existing := conditions[i];
        changed := false;
        if existing.status != newCondition.status {
          existing := existing.(status := newCondition.status);
          if newCondition.lastTransitionTime != ZeroTime {
            existing := existing.(lastTransitionTime := newCondition.lastTransitionTime);
          } else {
            existing := existing.(lastTransitionTime := now);
          }
          changed := true;
        }
        if existing.reason != newCondition.reason {
          existing := existing.(reason := newCondition.reason);
          changed := true;
        }
        if existing.message != newCondition.message {
          existing := existing.(message := newCondition.message);
          changed := true;
        }
        if existing.observedGeneration != newCondition.observedGeneration {
          existing := existing.(observedGeneration := newCondition.observedGeneration);
          changed := true;
        }
        assert changed <==> existing != conditions[i];
        updated := conditions[i := existing];
        assert updated[i] == existing;
    }
  }

  /** The first index of a type is determined by where it occurs first. */
  lemma FirstIndexIsUnique(cs: seq<Condition>, t: string, i: nat)
    requires i < |cs| && cs[i].conditionType == t
    requires forall j :: 0 <= j < i ==> cs[j].conditionType != t
    ensures FirstIndexOfType(cs, t) == Some(i)
  {
  }

  /** How many conditions of type `t` the list holds. */
  function CountOfType(cs: seq<Condition>, t: string): nat {
    if cs == [] then 0
    else (if cs[0].conditionType == t then 1 else 0) + CountOfType(cs[1..], t)
  }

  /** The conditions not of type `t`, in their order. */
  function WithoutType(cs: seq<Condition>, t: string): seq<Condition> {
    if cs == [] then []
    else (if cs[0].conditionType == t then [] else [cs[0]]) + WithoutType(cs[1..], t)
  }

  /** No two conditions share a type. */
  predicate DistinctTypes(cs: seq<Condition>) {
    forall i, j :: 0 <= i < j < |cs| ==> cs[i].conditionType != cs[j].conditionType
  }

  lemma {:induction false} CountOfTypeAppend(cs: seq<Condition>, x: Condition, t: string)
    ensures CountOfType(cs + [x], t) == CountOfType(cs, t) + (if x.conditionType == t then 1 else 0)
  {
    if cs != [] {
      assert (cs + [x])[1..] == cs[1..] + [x];
      CountOfTypeAppend(cs[1..], x, t);
    }
  }

  lemma {:induction false} CountOfTypeUpdate(cs: seq<Condition>, i: nat, x: Condition, t: string)
    requires i < |cs| && x.conditionType == cs[i].conditionType
    ensures CountOfType(cs[i := x], t) == CountOfType(cs, t)
  {
    if i > 0 {
      assert cs[i := x][1..] == cs[1..][i - 1 := x];
      CountOfTypeUpdate(cs[1..], i - 1, x, t);
    }
  }

  lemma {:induction false} CountOfTypeAbsent(cs: seq<Condition>, t: string)
    requires forall j :: 0 <= j < |cs| ==> cs[j].conditionType != t
    ensures CountOfType(cs, t) == 0
  {
    if cs != [] {
      CountOfTypeAbsent(cs[1..], t);
    }
  }

  lemma {:induction false} CountOfTypePresent(cs: seq<Condition>, t: string, i: nat)
    requires i < |cs| && cs[i].conditionType == t
    ensures CountOfType(cs, t) >= 1
  {
    if i > 0 {
      CountOfTypePresent(cs[1..], t, i - 1);
    }
  }

  /** Two distinct positions of type `t` mean at least two conditions of that type. */
  lemma {:induction false} CountOfTypeTwo(cs: seq<Condition>, t: string, i: nat, j: nat)
    requires i < j < |cs| && cs[i].conditionType == t && cs[j].conditionType == t
    ensures CountOfType(cs, t) >= 2
  {
    if i > 0 {
      CountOfTypeTwo(cs[1..], t, i - 1, j - 1);
    } else {
      CountOfTypePresent(cs[1..], t, j - 1);
    }
  }

  lemma {:induction false} WithoutTypeAppend(cs: seq<Condition>, x: Condition, t: string)
    requires x.conditionType == t
    ensures WithoutType(cs + [x], t) == WithoutType(cs, t)
  {
    if cs != [] {
      assert (cs + [x])[1..] == cs[1..] + [x];
      WithoutTypeAppend(cs[1..], x, t);
    }
  }

  lemma {:induction false} WithoutTypeUpdate(cs: seq<Condition>, i: nat, x: Condition, t: string)
    requires i < |cs| && x.conditionType == t && cs[i].conditionType == t
    ensures WithoutType(cs[i := x], t) == WithoutType(cs, t)
  {
    if i > 0 {
      assert cs[i := x][1..] == cs[1..][i - 1 := x];
      WithoutTypeUpdate(cs[1..], i - 1, x, t);
    }
  }

  /** Set-condition never adds a second condition of the same type. */
  lemma SetConditionKeepsOneOfType(cs: seq<Condition>, c: Condition, now: Time)
    requires CountOfType(cs, c.conditionType) <= 1
    ensures CountOfType(SetCondition(cs, c, now), c.conditionType) == 1
  {
    var t := c.conditionType;
    match FirstIndexOfType(cs, t)
    case None =>
      CountOfTypeAbsent(cs, t);
      CountOfTypeAppend(cs, c.(lastTransitionTime := StampTime(c, now)), t);
    case Some(i) =>
      CountOfTypePresent(cs, t, i);
      var r := SetCondition(cs, c, now);
      CountOfTypeUpdate(cs, i, r[i], t);
      assert r == cs[i := r[i]];
  }

  /** The first condition of the new one's type carries the new content. */
  lemma SetConditionFirstMatches(cs: seq<Condition>, c: Condition, now: Time)
    ensures var r := SetCondition(cs, c, now);
      var i := FirstIndexOfType(r, c.conditionType);
      i.Some? && SameContent(r[i.value], c)
  {
    var t := c.conditionType;
    var r := SetCondition(cs, c, now);
    match FirstIndexOfType(cs, t)
    case None =>
      FirstIndexIsUnique(r, t, |cs|);
    case Some(i) =>
      FirstIndexIsUnique(r, t, i);
  }

  /** Conditions of every other type are kept, in order. */
  lemma SetConditionKeepsOtherTypes(cs: seq<Condition>, c: Condition, now: Time)
    ensures WithoutType(SetCondition(cs, c, now), c.conditionType) == WithoutType(cs, c.conditionType)
  {
    var t := c.conditionType;
    match FirstIndexOfType(cs, t)
    case None =>
      WithoutTypeAppend(cs, c.(lastTransitionTime := StampTime(c, now)), t);
    case Some(i) =>
      var r := SetCondition(cs, c, now);
      WithoutTypeUpdate(cs, i, r[i], t);
      assert r == cs[i := r[i]];
  }

  /** A list without duplicate types stays without duplicate types. */
  lemma SetConditionPreservesDistinctTypes(cs: seq<Condition>, c: Condition, now: Time)
    requires DistinctTypes(cs)
    ensures DistinctTypes(SetCondition(cs, c, now))
  {
    var r := SetCondition(cs, c, now);
    match FirstIndexOfType(cs, c.conditionType)
    case None =>
      assert forall j :: 0 <= j < |cs| ==> r[j] == cs[j];
    case Some(i) =>
      assert forall j :: 0 <= j < |cs| ==> r[j].conditionType == cs[j].conditionType;
  }

  /**
   * The transition time of an existing condition moves only when its
   * status changes, and then to the stamp; an appended condition gets the stamp.
   */
  lemma SetConditionTransitionTime(cs: seq<Condition>, c: Condition, now: Time)
    ensures var r := SetCondition(cs, c, now);
      && |cs| <= |r| <= |cs| + 1
      && (forall j :: 0 <= j < |cs| && r[j].lastTransitionTime != cs[j].lastTransitionTime ==>
            r[j].status != cs[j].status)
      && (forall j :: 0 <= j < |cs| && r[j].status != cs[j].status ==>
            r[j].lastTransitionTime == StampTime(c, now))
      && (|r| == |cs| + 1 ==> r[|cs|] == c.(lastTransitionTime := StampTime(c, now)))
  {
  }

  /** Nothing changes exactly when the first condition of the type already has the content. */
  lemma SetConditionUnchangedIff(cs: seq<Condition>, c: Condition, now: Time)
    ensures SetCondition(cs, c, now) == cs <==>
      (FirstIndexOfType(cs, c.conditionType).Some? &&
       SameContent(cs[FirstIndexOfType(cs, c.conditionType).value], c))
  {
    var r := SetCondition(cs, c, now);
    match FirstIndexOfType(cs, c.conditionType)
    case None =>
      assert |r| != |cs|;
    case Some(i) =>
      if r == cs {
        assert r[i] == cs[i];
      }
      if SameContent(cs[i], c) {
        assert r[i] == cs[i];
      }
  }

  /** Setting the same condition twice changes nothing the second time, whatever the clock says. */
  lemma SetConditionIdempotent(cs: seq<Condition>, c: Condition, now1: Time, now2: Time)
    ensures SetCondition(SetCondition(cs, c, now1), c, now2) == SetCondition(cs, c, now1)
  {
    var r := SetCondition(cs, c, now1);
    SetConditionFirstMatches(cs, c, now1);
    SetConditionUnchangedIff(r, c, now2);
  }
}
