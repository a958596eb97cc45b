/**
 * Plugin participation in reconciliation: carrying the plugin client in
 * the per-pass context, the pre- and post-reconcile hooks that delegate to
 * it, and the hook that merges plugin-reported status into the Cluster.
 */
module ControllerPlugins {
  import opened Wrappers
  import opened ApiV1
  import opened Store

  /** What a hook returns; its contents belong to the plugin client. */
  datatype ReconcilerHookResult = ReconcilerHookResult(stopRequested: bool, err: Option<Error>)

  /** The sub-object a hook is called about. */
  datatype ObjectRef = ObjectRef(kind: string, namespace: string, name: string)

  /**
   * A plugin client, given by its answers: the pre- and post-reconcile
   * hooks, and the status query, which maps plugin names to payloads.
   */
  datatype PluginClient = PluginClient(
    preReconcile: (ClusterState, ObjectRef) -> ReconcilerHookResult,
    postReconcile: (ClusterState, ObjectRef) -> ReconcilerHookResult,
    setClusterStatus: ClusterState -> Result<map<string, string>, Error>)

  /** Context keys: the plugin client's and any other. */
  datatype ContextKey = PluginClientKey | OtherKey(name: string)

  /** Values a context holds: a plugin client, or something unrelated. */
  datatype ContextValue = PluginClientValue(client: PluginClient) | OtherValue(payload: string)

  /** An execution context: an immutable key/value store. */
  datatype Context = Context(values: map<ContextKey, ContextValue>)

  /** The reconciliation result handed back to the scheduler; durations are in nanoseconds. */
  datatype ReconcileResult = ReconcileResult(requeue: bool, requeueAfter: nat)

  const NoRequeue: ReconcileResult := ReconcileResult(false, 0)
  const Second: nat := 1_000_000_000
  /** The delay after which a pass that merged plugin status is re-run. */
  const PluginStatusRequeueAfter: nat := 5 * Second

  /** `getPluginClientFromContext`; `None` is the failing type assertion, a panic. */
  function GetPluginClientFromContext(ctx: Context): (r: Option<PluginClient>)
    ensures r.Some? <==> PluginClientKey in ctx.values && ctx.values[PluginClientKey].PluginClientValue?
    ensures r.Some? ==> ctx.values[PluginClientKey] == PluginClientValue(r.value)
  {
    if PluginClientKey in ctx.values && ctx.values[PluginClientKey].PluginClientValue? then
      Some(ctx.values[PluginClientKey].client)
    else
      None
  }

  /** Whether the context carries a plugin client. */
  predicate HasPluginClient(ctx: Context) {
    GetPluginClientFromContext(ctx).Some?
  }

  /** `setPluginClientInContext`: a derived context whose plugin client is `client`. */
  function SetPluginClientInContext(ctx: Context, client: PluginClient): (r: Context)
    ensures GetPluginClientFromContext(r) == Some(client)
    ensures forall k :: k != PluginClientKey ==> (k in r.values <==> k in ctx.values)
    ensures forall k :: k != PluginClientKey && k in ctx.values ==> r.values[k] == ctx.values[k]
  {
    Context(ctx.values[PluginClientKey := PluginClientValue(client)])
  }

  /** `preReconcilePluginHooks`: ask the context's plugin client; `None` is the panic of a missing client. */
  function PreReconcilePluginHooks(ctx: Context, cluster: ClusterState, obj: ObjectRef): (r: Option<ReconcilerHookResult>)
    ensures r.Some? <==> HasPluginClient(ctx)
    ensures r.Some? ==> r.value == GetPluginClientFromContext(ctx).value.preReconcile(cluster, obj)
  {
    match GetPluginClientFromContext(ctx)
    case None => None
    case Some(pluginClient) => Some(pluginClient.preReconcile(cluster, obj))
  }

  /** `postReconcilePluginHooks`: ask the context's plugin client; `None` is the panic of a missing client. */
  function PostReconcilePluginHooks(ctx: Context, cluster: ClusterState, obj: ObjectRef): (r: Option<ReconcilerHookResult>)
    ensures r.Some? <==> HasPluginClient(ctx)
    ensures r.Some? ==> r.value == GetPluginClientFromContext(ctx).value.postReconcile(cluster, obj)
  {
    match GetPluginClientFromContext(ctx)
    case None => None
    case Some(pluginClient) => Some(pluginClient.postReconcile(cluster, obj))
  }

  /** The hooks of a context built by `SetPluginClientInContext` answer with that client's hooks. */
  lemma HooksUseAttachedClient(ctx: Context, client: PluginClient, cluster: ClusterState, obj: ObjectRef)
    ensures PreReconcilePluginHooks(SetPluginClientInContext(ctx, client), cluster, obj)
         == Some(client.preReconcile(cluster, obj))
    ensures PostReconcilePluginHooks(SetPluginClientInContext(ctx, client), cluster, obj)
         == Some(client.postReconcile(cluster, obj))
  {
  }

  /** One entry with the payload the plugins reported under its name, if any. */
  function MergeEntry(e: PluginStatusEntry, statuses: map<string, string>): PluginStatusEntry {
    if e.name in statuses then e.(status := statuses[e.name]) else e
  }

  /** The intended plugin status merge: every entry with its reported payload. */
  function MergePluginStatuses(entries: seq<PluginStatusEntry>, statuses: map<string, string>): seq<PluginStatusEntry> {
    if entries == [] then []
    else [MergeEntry(entries[0], statuses)] + MergePluginStatuses(entries[1..], statuses)
  }

  /** The merge applied to a possibly nil list: ranging over a nil list does nothing. */
  function MergeOptionalPluginStatuses(entries: Option<seq<PluginStatusEntry>>, statuses: map<string, string>): Option<seq<PluginStatusEntry>> {
    if entries.None? then None else Some(MergePluginStatuses(entries.value, statuses))
  }

  /** The entries of a possibly nil list. */
  function EntriesOf(entries: Option<seq<PluginStatusEntry>>): seq<PluginStatusEntry> {
    if entries.Some? then entries.value else []
  }

  lemma {:induction false} MergePluginStatusesAt(entries: seq<PluginStatusEntry>, statuses: map<string, string>)
    ensures |MergePluginStatuses(entries, statuses)| == |entries|
    ensures forall i :: 0 <= i < |entries| ==>
      MergePluginStatuses(entries, statuses)[i] == MergeEntry(entries[i], statuses)
  {
    if entries != [] {
      MergePluginStatusesAt(entries[1..], statuses);
    }
  }

  /**
   * The merge adds and removes no entry and renames none; an entry named
   * in the report takes the reported payload, any other is left as it was;
   * reported names with no entry are ignored.
   */
  lemma {:induction false} MergePluginStatusesContainment(entries: seq<PluginStatusEntry>, statuses: map<string, string>)
    ensures var r := MergePluginStatuses(entries, statuses);
      && |r| == |entries|
      && (forall i :: 0 <= i < |entries| ==> r[i].name == entries[i].name)
      && (forall i :: 0 <= i < |entries| && entries[i].name in statuses ==> r[i].status == statuses[entries[i].name])
      && (forall i :: 0 <= i < |entries| && entries[i].name !in statuses ==> r[i] == entries[i])
  {
    MergePluginStatusesAt(entries, statuses);
  }

  /** The example of entries {A, B} and the report {A: x, C: y}. */
  lemma MergePluginStatusesExample()
    ensures MergePluginStatuses([PluginStatusEntry("A", ""), PluginStatusEntry("B", "b")], map["A" := "x", "C" := "y"])
         == [PluginStatusEntry("A", "x"), PluginStatusEntry("B", "b")]
  {
  }

  /**
   * `setStatusPluginHook` as written. The loop assigns the payload to the
   * range variable, a copy of each entry; `copies` records those copies.
   * The Cluster is not changed, so the patch is sent with equal base and target.
   */
  method SetStatusPluginHook(ctx: Context, store: StatusClient, cluster: Cluster, patchReply: Option<Error>)
    returns (result: ReconcileResult, err: Option<Error>, ghost copies: seq<PluginStatusEntry>)
    requires HasPluginClient(ctx)
    modifies store
    ensures cluster.Snapshot() == old(cluster.Snapshot())
    ensures var answer := GetPluginClientFromContext(ctx).value.setClusterStatus(cluster.Snapshot());
      if answer.Err? then
        result == NoRequeue && err == Some(answer.error) && store.log == old(store.log)
      else if |answer.value| == 0 then
        result == NoRequeue && err == None && store.log == old(store.log)
      else
        && result == ReconcileResult(false, PluginStatusRequeueAfter)
        && err == patchReply
        && store.log == old(store.log) + [StatusPatch(cluster.Snapshot(), cluster.Snapshot())]
        && copies == MergePluginStatuses(EntriesOf(cluster.pluginStatus), answer.value)
  {
    var origCluster := cluster.DeepCopy();
    var pluginClient := GetPluginClientFromContext(ctx).value;
    var answer := pluginClient.setClusterStatus(cluster.Snapshot());
    copies := [];
    if answer.Err? {
      return NoRequeue, Some(answer.error), copies;
    }
    var statuses := answer.value;
    if |statuses| == 0 {
      return NoRequeue, None, copies;
    }
    var entries := EntriesOf(cluster.pluginStatus);
    var i := 0;
    while i < |entries|
      invariant 0 <= i <= |entries|
      invariant |copies| == i
      invariant forall j :: 0 <= j < i ==> copies[j] == MergeEntry(entries[j], statuses)
    {
      var status := entries[i];
      if status.name in statuses {
        status := status.(status := statuses[status.name]);
      }
      copies := copies + [status];
      i := i + 1;
    }
    MergePluginStatusesAt(entries, statuses);
    result := ReconcileResult(false, PluginStatusRequeueAfter);
    err := store.PatchStatus(cluster.Snapshot(), origCluster.Snapshot(), patchReply);
  }

  /**
   * `setStatusPluginHook` with the payload written into the Cluster's own
   * entries, by index, before the patch.
   */
  method SetStatusPluginHookInPlace(ctx: Context, store: StatusClient, cluster: Cluster, patchReply: Option<Error>)
    returns (result: ReconcileResult, err: Option<Error>)
    requires HasPluginClient(ctx)
    modifies store, cluster
    ensures var answer := GetPluginClientFromContext(ctx).value.setClusterStatus(old(cluster.Snapshot()));
      if answer.Err? then
        && result == NoRequeue && err == Some(answer.error) && store.log == old(store.log)
        && cluster.Snapshot() == old(cluster.Snapshot())
      else if |answer.value| == 0 then
        && result == NoRequeue && err == None && store.log == old(store.log)
        && cluster.Snapshot() == old(cluster.Snapshot())
      else
        && cluster.Snapshot() == old(cluster.Snapshot()).(
             pluginStatus := MergeOptionalPluginStatuses(old(cluster.pluginStatus), answer.value))
        && result == ReconcileResult(false, PluginStatusRequeueAfter)
        && err == patchReply
        && store.log == old(store.log) + [StatusPatch(old(cluster.Snapshot()), cluster.Snapshot())]
  {
    var origCluster := cluster.DeepCopy();
    var pluginClient := GetPluginClientFromContext(ctx).value;
    var answer := pluginClient.setClusterStatus(cluster.Snapshot());
    if answer.Err? {
      return NoRequeue, Some(answer.error);
    }
    var statuses := answer.value;
    if |statuses| == 0 {
      return NoRequeue, None;
    }
    if cluster.pluginStatus.Some? {
      ghost var before := cluster.pluginStatus.value;
      var i := 0;
      while i < |cluster.pluginStatus.value|
        invariant cluster.pluginStatus.Some?
        invariant 0 <= i <= |cluster.pluginStatus.value| == |before|
        invariant forall j :: 0 <= j < i ==> cluster.pluginStatus.value[j] == MergeEntry(before[j], statuses)
        invariant forall j :: i <= j < |before| ==> cluster.pluginStatus.value[j] == before[j]
        invariant cluster.Snapshot() == old(cluster.Snapshot()).(pluginStatus := cluster.pluginStatus)
        invariant origCluster.Snapshot() == old(cluster.Snapshot())
        invariant store.log == old(store.log)
      {
        var entry := cluster.pluginStatus.value[i];
        if entry.name in statuses {
          cluster.pluginStatus := Some(cluster.pluginStatus.value[i := entry.(status := statuses[entry.name])]);
        }
        i := i + 1;
      }
      MergePluginStatusesAt(before, statuses);
      assert cluster.pluginStatus.value == MergePluginStatuses(before, statuses);
    }
    result := ReconcileResult(false, PluginStatusRequeueAfter);
    err := store.PatchStatus(cluster.Snapshot(), origCluster.Snapshot(), patchReply);
  }
}
