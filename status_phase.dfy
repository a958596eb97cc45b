/**
 * The phase synchroniser: record a phase and its reason on a Cluster,
 * derive the readiness condition from the phase, upsert it, and send a
 * status patch only when the object differs from the snapshot it is
 * diffed against.
 */
module StatusPhase {
  import opened Wrappers
  import opened ApiV1
  import opened MetaConditions
  import opened Store

  /** The readiness condition a phase stands for: ready exactly when the phase is healthy. */
  function ReadyCondition(phase: string): (c: Condition)
    ensures c.conditionType == ConditionClusterReady
    ensures c.status == ConditionTrue <==> phase == PhaseHealthy
    ensures c.status == ConditionFalse <==> phase != PhaseHealthy
    ensures c.reason == (if phase == PhaseHealthy then ClusterReadyReason else ClusterIsNotReadyReason)
    ensures c.message == (if phase == PhaseHealthy then "Cluster is Ready" else "Cluster Is Not Ready")
    ensures c.lastTransitionTime == ZeroTime && c.observedGeneration == 0
  {
    if phase == PhaseHealthy then
      Condition(ConditionClusterReady, ConditionTrue, 0, ZeroTime, ClusterReadyReason, "Cluster is Ready")
    else
      Condition(ConditionClusterReady, ConditionFalse, 0, ZeroTime, ClusterIsNotReadyReason, "Cluster Is Not Ready")
  }

  /** The condition list, reading a nil list as empty. */
  function ConditionsOf(s: ClusterState): seq<Condition> {
    if s.conditions.Some? then s.conditions.value else []
  }

  /** The value a Cluster holds after registering `phase` and `reason` at time `now`. */
  function Register(s: ClusterState, phase: string, reason: string, now: Time): (r: ClusterState)
    ensures r.phase == phase && r.phaseReason == reason
    ensures r.conditions.Some?
    ensures r.rest == s.rest && r.pluginStatus == s.pluginStatus
  {
    s.(phase := phase, phaseReason := reason,
       conditions := Some(SetCondition(ConditionsOf(s), ReadyCondition(phase), now)))
  }

  /**
   * The requests a registration sends: none without a difference; else a
   * patch from `base` to `target`, then, if the patch succeeded, a read-back.
   */
  function RegisterRequests(diff: bool, base: ClusterState, target: ClusterState, patchReply: Option<Error>): seq<Event> {
    if !diff then []
    else if patchReply.Some? then [StatusPatch(base, target)]
    else [StatusPatch(base, target), GetCluster(target.rest.namespace, target.rest.name)]
  }

  /** `RegisterPhaseWithOrigCluster`: diff against the caller's snapshot `origCluster`. */
  method RegisterPhaseWithOrigCluster(
    store: StatusClient, modifiedCluster: Cluster, origCluster: Cluster,
    phase: string, reason: string, now: Time,
    patchReply: Option<Error>, getReply: Option<Error>)
    returns (err: Option<Error>)
    modifies modifiedCluster, store
    ensures modifiedCluster.Snapshot() == Register(old(modifiedCluster.Snapshot()), phase, reason, now)
    ensures var diff := modifiedCluster.Snapshot() != origCluster.Snapshot();
      store.log == old(store.log) + RegisterRequests(diff, origCluster.Snapshot(), modifiedCluster.Snapshot(), patchReply)
    ensures err == if modifiedCluster.Snapshot() != origCluster.Snapshot() then patchReply else None
  {
    if modifiedCluster.conditions.None? {
      modifiedCluster.conditions := Some([]);
    }

    modifiedCluster.phase := phase;
    modifiedCluster.phaseReason := reason;

    var condition := ReadyCondition(modifiedCluster.phase);

    var updated, changed := SetStatusCondition(modifiedCluster.conditions.value, condition, now);
    modifiedCluster.conditions := Some(updated);

    if modifiedCluster.Snapshot() != origCluster.Snapshot() {
      err := store.PatchStatus(modifiedCluster.Snapshot(), origCluster.Snapshot(), patchReply);
      if err.Some? {
        return;
      }
      // The read-back only feeds a log line: its error is not returned.
      var getErr := store.Get(modifiedCluster.rest.namespace, modifiedCluster.rest.name, getReply);
    }
    err := None;
  }

  /** `RegisterPhase`: diff against a deep copy taken on entry. */
  method RegisterPhase(
    store: StatusClient, cluster: Cluster,
    phase: string, reason: string, now: Time,
    patchReply: Option<Error>, getReply: Option<Error>)
    returns (err: Option<Error>)
    modifies cluster, store
    ensures cluster.Snapshot() == Register(old(cluster.Snapshot()), phase, reason, now)
    ensures var diff := cluster.Snapshot() != old(cluster.Snapshot());
      store.log == old(store.log) + RegisterRequests(diff, old(cluster.Snapshot()), cluster.Snapshot(), patchReply)
    ensures err == if cluster.Snapshot() != old(cluster.Snapshot()) then patchReply else None
  {
    var existingCluster := cluster.DeepCopy();
    err := RegisterPhaseWithOrigCluster(store, cluster, existingCluster, phase, reason, now, patchReply, getReply);
  }

  /**
   * Two successive registrations of the same phase and reason: the second
   * sends nothing to the store and returns no error, whatever the replies.
   */
  method RegisterPhaseTwice(
    store: StatusClient, cluster: Cluster,
    phase: string, reason: string, now1: Time, now2: Time,
    patchReply1: Option<Error>, getReply1: Option<Error>,
    patchReply2: Option<Error>, getReply2: Option<Error>)
    returns (err1: Option<Error>, err2: Option<Error>, ghost logAfterFirst: seq<Event>)
    modifies cluster, store
    ensures var s0 := old(cluster.Snapshot());
      var s1 := Register(s0, phase, reason, now1);
      logAfterFirst == old(store.log) + RegisterRequests(s1 != s0, s0, s1, patchReply1)
    ensures cluster.Snapshot() == Register(old(cluster.Snapshot()), phase, reason, now1)
    ensures store.log == logAfterFirst
    ensures err2 == None
  {
    err1 := RegisterPhase(store, cluster, phase, reason, now1, patchReply1, getReply1);
    logAfterFirst := store.log;
    ghost var s1 := cluster.Snapshot();
    RegisterIdempotent(old(cluster.Snapshot()), phase, reason, now1, now2);
    err2 := RegisterPhase(store, cluster, phase, reason, now2, patchReply2, getReply2);
  }

  /** Registering twice with the same phase and reason equals registering once. */
  lemma RegisterIdempotent(s: ClusterState, phase: string, reason: string, now1: Time, now2: Time)
    ensures Register(Register(s, phase, reason, now1), phase, reason, now2) == Register(s, phase, reason, now1)
  {
    SetConditionIdempotent(ConditionsOf(s), ReadyCondition(phase), now1, now2);
  }

  /** Whether the value already records `phase` and `reason` with an up-to-date readiness condition. */
  predicate AlreadyRegistered(s: ClusterState, phase: string, reason: string) {
    && s.phase == phase
    && s.phaseReason == reason
    && s.conditions.Some?
    && var i := FirstIndexOfType(s.conditions.value, ConditionClusterReady);
       i.Some? && SameContent(s.conditions.value[i.value], ReadyCondition(phase))
  }

  /** Registering changes nothing exactly when it was already registered: then no patch is sent. */
  lemma RegisterUnchangedIff(s: ClusterState, phase: string, reason: string, now: Time)
    ensures Register(s, phase, reason, now) == s <==> AlreadyRegistered(s, phase, reason)
  {
    SetConditionUnchangedIff(ConditionsOf(s), ReadyCondition(phase), now);
    if s.conditions.None? {
      assert Register(s, phase, reason, now).conditions != s.conditions;
    }
  }

  /**
   * With at most one readiness condition before, there is exactly one
   * after, and it carries the content derived from the phase.
   */
  lemma RegisterKeepsOneReadyCondition(s: ClusterState, phase: string, reason: string, now: Time)
    requires CountOfType(ConditionsOf(s), ConditionClusterReady) <= 1
    ensures var cs := Register(s, phase, reason, now).conditions.value;
      && CountOfType(cs, ConditionClusterReady) == 1
      && forall j :: 0 <= j < |cs| && cs[j].conditionType == ConditionClusterReady ==>
           SameContent(cs[j], ReadyCondition(phase))
  {
    var c := ReadyCondition(phase);
    var cs := Register(s, phase, reason, now).conditions.value;
    SetConditionKeepsOneOfType(ConditionsOf(s), c, now);
    SetConditionFirstMatches(ConditionsOf(s), c, now);
    var i := FirstIndexOfType(cs, ConditionClusterReady).value;
    forall j | 0 <= j < |cs| && cs[j].conditionType == ConditionClusterReady
      ensures SameContent(cs[j], c)
    {
      if j != i {
        assert i < j;
        CountOfTypeTwo(cs, ConditionClusterReady, i, j);
      }
    }
  }

  /** Conditions of other types are left as they were, in order. */
  lemma RegisterKeepsOtherConditions(s: ClusterState, phase: string, reason: string, now: Time)
    ensures WithoutType(Register(s, phase, reason, now).conditions.value, ConditionClusterReady)
         == WithoutType(ConditionsOf(s), ConditionClusterReady)
  {
    SetConditionKeepsOtherTypes(ConditionsOf(s), ReadyCondition(phase), now);
  }

  /** One condition per type before means one condition per type after. */
  lemma RegisterPreservesDistinctTypes(s: ClusterState, phase: string, reason: string, now: Time)
    requires DistinctTypes(ConditionsOf(s))
    ensures DistinctTypes(Register(s, phase, reason, now).conditions.value)
  {
    SetConditionPreservesDistinctTypes(ConditionsOf(s), ReadyCondition(phase), now);
  }

  /**
   * An existing condition's transition time moves only when its status
   * changes, and then to `now`; an appended readiness condition gets `now`.
   */
  lemma RegisterTransitionTime(s: ClusterState, phase: string, reason: string, now: Time)
    ensures var old_ := ConditionsOf(s);
      var cs := Register(s, phase, reason, now).conditions.value;
      && |old_| <= |cs| <= |old_| + 1
      && (forall j :: 0 <= j < |old_| && cs[j].lastTransitionTime != old_[j].lastTransitionTime ==>
            cs[j].status != old_[j].status && cs[j].lastTransitionTime == now)
      && (|cs| == |old_| + 1 ==>
            SameContent(cs[|old_|], ReadyCondition(phase)) && cs[|old_|].lastTransitionTime == now)
  {
    SetConditionTransitionTime(ConditionsOf(s), ReadyCondition(phase), now);
  }

  /**
   * Edits already made to the object and absent from the snapshot survive
   * the registration, so the patch against that snapshot carries them.
   */
  lemma RegisterKeepsEarlierEdits(modified: ClusterState, orig: ClusterState, phase: string, reason: string, now: Time)
    requires modified.pluginStatus != orig.pluginStatus || modified.rest != orig.rest
    ensures var r := Register(modified, phase, reason, now);
      r != orig && r.pluginStatus == modified.pluginStatus && r.rest == modified.rest
  {
  }
}
