# Cluster status synchronisation and plugin status hooks

A Dafny model of two parts of the CloudNativePG operator's status handling.

- **The phase synchroniser** (`pkg/resources/status/phase.go`). It records a
  phase and its reason on a `Cluster`. It derives the single `Ready`
  condition from the phase and upserts that condition with the Kubernetes
  set-condition rules. It sends a status merge patch only when the object
  differs from its snapshot.
- **The plugin hooks** (`internal/controller/plugins.go`). The plugin client
  is carried in the execution context. The pre- and post-reconcile hooks
  delegate to it. The status hook asks the plugins for a name→payload map,
  walks the cluster's plugin status entries, patches, and asks for a
  5-second requeue.

Layout, one module per file:

- `wrappers.dfy` (`Wrappers`): `Option`, `Result`, `Error`.
- `api_v1.dfy` (`ApiV1`): the condition and plugin-status records, the
  readiness constants, and the `Cluster` class. The class holds the phase,
  the reason, the condition list, the plugin status list, and one opaque
  `Rest` value for everything else, identity included. Both lists are
  `Option`s: `None` is a nil slice, which deep equality tells apart from an
  empty one. `Snapshot()` is the
  object's value, so `Snapshot() != other.Snapshot()` is `reflect.DeepEqual`
  failing.
- `meta_conditions.dfy` (`MetaConditions`): `FindStatusCondition` and
  `SetStatusCondition` of the Kubernetes API machinery. Their code is not
  part of this model. They are written after the library's behaviour:
  - the first condition of the type is updated;
  - a status change stamps the transition time;
  - reason, message and observed generation are copied;
  - a missing type is appended, stamped with the new condition's own time,
    or `now` when that time is zero.
- `store.dfy` (`Store`): the remote store as a log of the requests sent to
  it. Each method takes the store's reply as a parameter, so every property
  holds for every success/failure outcome.
- `status_phase.dfy` (`StatusPhase`): `phase.go`. `Register` is the function
  on values that the methods are proved against.
- `controller_plugins.dfy` (`ControllerPlugins`): `plugins.go`.
- `reconcile_scenarios.dfy` (`ReconcileScenarios`): a concrete pass.
  Register the healthy phase, then merge a backup plugin's report with the
  corrected in-place hook (the intended half of the finding below). It also
  runs the as-written plugin hook on the same cluster, which loses the
  report.

Time is an integer, with 0 for Go's zero `time.Time`. The clock reading the
set-condition code takes is the parameter `now`. The requeue delay is
`5 * Second`, in nanoseconds, as in a Go `time.Duration`.

The constants come from `api/v1`, which is not part of this model. They are
written with the values that package gives them:

| constant | value |
|---|---|
| condition type | `Ready` |
| reasons | `ClusterIsReady`, `ClusterIsNotReady` |
| healthy phase | `Cluster in healthy state` |

Behaviour of `setStatusPluginHook` that a caller might not expect, which
the model keeps as the code has it:

- The 5-second requeue is returned together with the patch error, also
  when the patch fails; a caller might expect no requeue on failure.
- The hook patches whenever the report is non-empty. It does not check
  for a difference first.
- Its loop writes to copies of the entries (see Findings).

## Model

| member | source | states |
|---|---|---|
| `ApiV1.Cluster.DeepCopy` | pkg/resources/status/phase.go:41 | the copy is a fresh object holding the same value |
| `Store.StatusClient.PatchStatus` | pkg/resources/status/phase.go:84 | a status patch from the snapshot to the object is recorded and the store's reply is returned |
| `Store.StatusClient.Get` | pkg/resources/status/phase.go:92 | a read addressed by namespace and name is recorded and the reply is returned |
| `MetaConditions.FirstIndexOfType` | pkg/resources/status/phase.go:89 | the result is the first position of the type, or none when no condition has it |
| `MetaConditions.FindStatusCondition` | pkg/resources/status/phase.go:89 | the scan returns the index of the first condition of the requested type, or none (Go returns a pointer to that element) |
| `MetaConditions.SetStatusCondition` | pkg/resources/status/phase.go:80 | the updated list is the set-condition upsert; `changed` holds exactly when the list differs |
| `MetaConditions.SetConditionKeepsOneOfType` | pkg/resources/status/phase.go:80 | at most one condition of the type before means exactly one after |
| `MetaConditions.SetConditionFirstMatches` | pkg/resources/status/phase.go:80 | after the upsert, the first condition of the type has the new status, reason, message and generation |
| `MetaConditions.SetConditionKeepsOtherTypes` | pkg/resources/status/phase.go:80 | conditions of every other type are unchanged and in the same order |
| `MetaConditions.SetConditionPreservesDistinctTypes` | pkg/resources/status/phase.go:80 | a list with one condition per type keeps one condition per type |
| `MetaConditions.SetConditionTransitionTime` | pkg/resources/status/phase.go:80 | an existing transition time changes only with the status and then to the stamp; an appended condition gets the stamp; the list grows by at most one |
| `MetaConditions.SetConditionUnchangedIff` | pkg/resources/status/phase.go:80 | the list is unchanged exactly when the first condition of the type already has the new content |
| `MetaConditions.SetConditionIdempotent` | pkg/resources/status/phase.go:80 | a second identical upsert changes nothing, whatever the clock reads |
| `StatusPhase.ReadyCondition` | pkg/resources/status/phase.go:64-78 | the condition is of type Ready; it is True with reason ClusterIsReady and "Cluster is Ready" exactly when the phase is healthy; otherwise it is False with ClusterIsNotReady and "Cluster Is Not Ready" |
| `StatusPhase.Register` | pkg/resources/status/phase.go:57-80 | phase and reason are the requested ones; the condition list is non-nil; identity, every other field and the plugin statuses are untouched |
| `StatusPhase.RegisterPhaseWithOrigCluster` | pkg/resources/status/phase.go:47-102 | the object becomes `Register` of its old value; a patch based on `origCluster` is sent exactly when the object differs from `origCluster`, followed by a read-back when the patch succeeds; the patch error is returned unchanged; a failed read-back and the no-difference path return nil |
| `StatusPhase.RegisterPhase` | pkg/resources/status/phase.go:34-43 | as above, diffed against a deep copy taken on entry: a patch is sent exactly when the registration changed the object |
| `StatusPhase.RegisterPhaseTwice` | pkg/resources/status/phase.go:41-84 | the first registration sends exactly the requests `RegisterPhase` sends and leaves the object registered; the second, with the same phase and reason, sends nothing and returns nil |
| `StatusPhase.RegisterIdempotent` | pkg/resources/status/phase.go:57-83 | registering twice with the same phase and reason gives the value of registering once |
| `StatusPhase.RegisterUnchangedIff` | pkg/resources/status/phase.go:57-83 | registering leaves the value unchanged, so no patch is sent, exactly when the phase, the reason and the first Ready condition already match and the list is non-nil |
| `StatusPhase.RegisterKeepsOneReadyCondition` | pkg/resources/status/phase.go:57-80 | at most one Ready condition before means exactly one after, and it has the content derived from the phase |
| `StatusPhase.RegisterKeepsOtherConditions` | pkg/resources/status/phase.go:80 | conditions of other types are unchanged and in the same order |
| `StatusPhase.RegisterPreservesDistinctTypes` | pkg/resources/status/phase.go:80 | one condition per type before means one condition per type after |
| `StatusPhase.RegisterTransitionTime` | pkg/resources/status/phase.go:80 | an existing condition's transition time moves only when its status changes, and then to `now`; an appended Ready condition is stamped `now` |
| `StatusPhase.RegisterKeepsEarlierEdits` | pkg/resources/status/phase.go:47-84 | edits already in the modified object and absent from the snapshot survive, so the object differs from the snapshot and the patch carries them |
| `ControllerPlugins.GetPluginClientFromContext` | internal/controller/plugins.go:77-80 | a client is returned exactly when the context holds one under the plugin client key; otherwise the retrieval fails (the panic) |
| `ControllerPlugins.SetPluginClientInContext` | internal/controller/plugins.go:72-75 | getting from the derived context returns the stored client; every other key keeps its value |
| `ControllerPlugins.PreReconcilePluginHooks` | internal/controller/plugins.go:31-39 | the result is the context client's pre-reconcile answer for the same cluster and object; with no client the call fails |
| `ControllerPlugins.PostReconcilePluginHooks` | internal/controller/plugins.go:41-49 | the result is the context client's post-reconcile answer for the same cluster and object; with no client the call fails |
| `ControllerPlugins.HooksUseAttachedClient` | internal/controller/plugins.go:31-49 | after the client is stored in the context, both hooks return that client's answers verbatim |
| `ControllerPlugins.MergePluginStatusesContainment` | internal/controller/plugins.go:61-67 | the intended merge keeps every entry and name; a named entry takes the reported payload; others are unchanged; unknown names are ignored |
| `ControllerPlugins.MergePluginStatusesExample` | internal/controller/plugins.go:61-67 | with entries A, B and the report {A: x, C: y}, only A changes, to x, and no C entry appears |
| `ControllerPlugins.SetStatusPluginHook` | internal/controller/plugins.go:51-70 | as written: a query error gives a zero result, that error and no patch; an empty report gives a zero result, nil and no patch; otherwise exactly one patch based on the entry snapshot, a 5-second requeue and the patch's error; the cluster is unchanged and the loop's copies are the intended merge |
| `ControllerPlugins.SetStatusPluginHookInPlace` | internal/controller/plugins.go:51-70 | same branches, with the report written into the entries: after a non-empty report the plugin statuses are the merge (a nil list stays nil), nothing else changes, and the patch goes from the entry snapshot to the merged object |
| `ReconcileScenarios.RegisterInitialHealthy` | pkg/resources/status/phase.go:57-80 | registering the healthy phase on a cluster with no conditions yields one True Ready condition stamped `now` |
| `ReconcileScenarios.EndToEndPass` | internal/controller/plugins.go:51-70 | with the corrected in-place hook, not the code as written: a pass sends a patch to the healthy phase, its read-back, then a patch filling in "backup-ok" for barman, and requeues after 5 seconds |
| `ReconcileScenarios.NilAndEmptyPluginStatusDiffer` | pkg/resources/status/phase.go:83-84 | an already registered cluster with an empty plugin status list differs from a snapshot with a nil list, so a registration against that snapshot sends a patch |
| `ReconcileScenarios.AsWrittenPluginStep` | internal/controller/plugins.go:61-69 | the as-written hook's patch has equal base and target, and barman's payload stays empty |
| `ReconcileScenarios.PluginStatusCopyLosesReport` | internal/controller/plugins.go:61-67 | the intended merge of the barman report differs from the unchanged list the as-written hook sends |

## Left out

- The Kubernetes client is reduced to a request log. This covers the JSON
  merge-patch computed by `client.MergeFrom`, and the refresh of the patched
  object from the server's reply.
- Logging (`phase.go` lines 55, 81, 85-96) has no effect on behaviour. The
  `changed` flag computed at line 80 is only logged.
- The object returned by the read-back at `phase.go:92` is used only for a
  log line, so it is not modelled.
- The plugin client's internals and transport are left out. A client is
  given by its answers: two hook functions and the status query.
- The context is not passed to the plugin client. A client stored inside a
  context value cannot take that context as an argument in a Dafny datatype.
  Cancellation and deadlines are out of scope.
- A nil client stored in the context is not modelled. The model's clients
  are never nil.
- `ControllerPlugins.SetStatusPluginHook`: requires a plugin client in the
  context. The source panics without one, before any store request. The
  hook functions model that panic as `None` instead.
- The plugin is assumed not to mutate the cluster it is shown. It sees the
  cluster's value.
- Plugin status entry fields other than name and status are not modelled.
  No code here writes them.
- Concurrency, optimistic-concurrency conflicts and wall-clock time are left
  out. Conflicts reach the model only as a patch error reply. The clock is
  the `now` parameter.

## Findings

| source | as written | input that shows it | evidently intended | confidence | as-written member | corrected member |
|---|---|---|---|---|---|---|
| internal/controller/plugins.go:61-67 | `for _, status := range cluster.Status.PluginStatus` binds a copy of each entry, and `status.Status = val` updates only that copy. The patch then carries no plugin status, and base and target are equal. | a cluster with plugin status `[{barman, ""}]` and the report `{barman: backup-ok}` | each entry named in the report takes the reported payload in the cluster before the patch | not executed; rests on `PluginStatus` being a slice of values in `api/v1`, which is not part of this model | `ControllerPlugins.SetStatusPluginHook`, `ReconcileScenarios.AsWrittenPluginStep`, `ReconcileScenarios.PluginStatusCopyLosesReport` | `ControllerPlugins.SetStatusPluginHookInPlace`, with `ControllerPlugins.MergePluginStatusesContainment` |
