/**
 * One reconcile pass on a concrete cluster: register the healthy phase,
 * then merge the status a backup plugin reports. Also the same plugin
 * step with the hook as written, which leaves the report out.
 */
module ReconcileScenarios {
  import opened Wrappers
  import opened ApiV1
  import opened Store
  import opened MetaConditions
  import opened StatusPhase
  import opened ControllerPlugins

  /** A cluster in phase "Unknown" with no conditions and one pre-declared plugin. */
  function InitialCluster(): ClusterState {
    ClusterState(Rest("default", "cluster-example", ""), "Unknown", "", Some([]),
                 Some([PluginStatusEntry("barman", "")]))
  }

  /**
   * A nil plugin status list and an empty one are different values, so an
   * otherwise registered cluster whose snapshot has the nil list differs
   * from that snapshot and a registration against it sends a patch.
   */
  lemma NilAndEmptyPluginStatusDiffer(now: Time)
    ensures var registered := HealthyCluster(now).(pluginStatus := Some([]));
      var orig := registered.(pluginStatus := None);
      Register(registered, PhaseHealthy, "AllPodsReady", now) == registered &&
      Register(registered, PhaseHealthy, "AllPodsReady", now) != orig
  {
    var registered := HealthyCluster(now).(pluginStatus := Some([]));
    RegisterUnchangedIff(registered, PhaseHealthy, "AllPodsReady", now);
    assert FirstIndexOfType(registered.conditions.value, ConditionClusterReady) == Some(0);
  }

  /** A plugin client whose status query reports "backup-ok" for "barman". */
  function BarmanPlugin(): PluginClient {
    PluginClient(
      (c: ClusterState, o: ObjectRef) => ReconcilerHookResult(false, None),
      (c: ClusterState, o: ObjectRef) => ReconcilerHookResult(false, None),
      (c: ClusterState) => Result<map<string, string>, Error>.Ok(map["barman" := "backup-ok"]))
  }

  /** The cluster after registering the healthy phase at `now`. */
  function HealthyCluster(now: Time): ClusterState {
    InitialCluster().(
      phase := PhaseHealthy,
      phaseReason := "AllPodsReady",
      conditions := Some([Condition(ConditionClusterReady, ConditionTrue, 0, now, ClusterReadyReason, "Cluster is Ready")]))
  }

  /** Registering the healthy phase on the initial cluster appends the ready condition stamped `now`. */
  lemma RegisterInitialHealthy(now: Time)
    ensures Register(InitialCluster(), PhaseHealthy, "AllPodsReady", now) == HealthyCluster(now)
  {
    var c := ReadyCondition(PhaseHealthy);
    assert FirstIndexOfType([], c.conditionType) == None;
    assert SetCondition([], c, now) == [c.(lastTransitionTime := now)];
  }

  /**
   * With every store request succeeding: one patch to the healthy phase
   * and its read-back, then one patch filling in the plugin's status, and
   * a five-second requeue.
   */
  method EndToEndPass(now: Time) returns (log: seq<Event>, result: ReconcileResult, err: Option<Error>)
    ensures log == [
      StatusPatch(InitialCluster(), HealthyCluster(now)),
      GetCluster("default", "cluster-example"),
      StatusPatch(HealthyCluster(now),
                  HealthyCluster(now).(pluginStatus := Some([PluginStatusEntry("barman", "backup-ok")])))]
    ensures result.requeueAfter == 5 * Second && err == None
  {
    var store := new StatusClient();
    var cluster := new Cluster.FromState(InitialCluster());
    var phaseErr := RegisterPhase(store, cluster, PhaseHealthy, "AllPodsReady", now, None, None);
    RegisterInitialHealthy(now);
    var ctx := SetPluginClientInContext(Context(map[]), BarmanPlugin());
    result, err := SetStatusPluginHookInPlace(ctx, store, cluster, None);
    assert MergePluginStatuses([PluginStatusEntry("barman", "")], map["barman" := "backup-ok"]) == [PluginStatusEntry("barman", "backup-ok")];
    assert cluster.Snapshot() == HealthyCluster(now).(pluginStatus := Some([PluginStatusEntry("barman", "backup-ok")]));
    log := store.log;
  }

  /**
   * The plugin step with the hook as written, on the healthy cluster: the
   * patch it sends has equal base and target, and the target still holds
   * the empty payload.
   */
  method AsWrittenPluginStep(now: Time) returns (patch: Event, result: ReconcileResult)
    ensures patch.StatusPatch? && patch.base == patch.target
    ensures patch.target.pluginStatus == Some([PluginStatusEntry("barman", "")])
    ensures result.requeueAfter == 5 * Second
  {
    var store := new StatusClient();
    var cluster := new Cluster.FromState(HealthyCluster(now));
    var ctx := SetPluginClientInContext(Context(map[]), BarmanPlugin());
    var err;
    ghost var copies;
    result, err, copies := SetStatusPluginHook(ctx, store, cluster, None);
    patch := store.log[0];
  }

  /** What the plugin reported is lost: the intended merge differs from the list the hook patches. */
  lemma PluginStatusCopyLosesReport()
    ensures var entries := [PluginStatusEntry("barman", "")];
      MergePluginStatuses(entries, map["barman" := "backup-ok"]) != entries
  {
  }
}
