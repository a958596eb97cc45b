/**
 * The parts of the Cluster resource that the status code reads and writes:
 * phase, phase reason, the condition list and the plugin status list.
 * Everything else of the object (identity, spec, the other status fields)
 * is folded into one opaque `Rest` value, so that whole-object equality
 * is still whole-object equality.
 */
module ApiV1 {
  import opened Wrappers

  /** Timestamps; 0 stands for Go's zero `time.Time`. */
  type Time = int
  const ZeroTime: Time := 0

  /** Condition type and reasons used for cluster readiness. */
  const ConditionClusterReady: string := "Ready"
  const ClusterReadyReason: string := "ClusterIsReady"
  const ClusterIsNotReadyReason: string := "ClusterIsNotReady"

  /** The phase that means the cluster is healthy. */
  const PhaseHealthy: string := "Cluster in healthy state"

  datatype ConditionStatus = ConditionTrue | ConditionFalse | ConditionUnknown

  /** A status condition, as in the Kubernetes API machinery. */
  datatype Condition = Condition(
    conditionType: string,
    status: ConditionStatus,
    observedGeneration: int,
    lastTransitionTime: Time,
    reason: string,
    message: string)

  /** One pre-declared plugin and the status payload it last reported. */
  datatype PluginStatusEntry = PluginStatusEntry(name: string, status: string)

  /** Identity and every field of the Cluster that this model does not look into. */
  datatype Rest = Rest(namespace: string, name: string, other: string)

  /**
   * The value of a Cluster object. `None` in `conditions` or
   * `pluginStatus` is a nil slice, which deep equality tells apart from an
   * empty one.
   */
  datatype ClusterState = ClusterState(
    rest: Rest,
    phase: string,
    phaseReason: string,
    conditions: Option<seq<Condition>>,
    pluginStatus: Option<seq<PluginStatusEntry>>)

  /** A Cluster object held by pointer and updated in place. */
  class Cluster {
    var rest: Rest
    var phase: string
    var phaseReason: string
    var conditions: Option<seq<Condition>>
    var pluginStatus: Option<seq<PluginStatusEntry>>

    constructor FromState(s: ClusterState)
      ensures Snapshot() == s
    {
      rest := s.rest;
      phase := s.phase;
      phaseReason := s.phaseReason;
      conditions := s.conditions;
      pluginStatus := s.pluginStatus;
    }

    /** The object's current value. */
    function Snapshot(): ClusterState
      reads this
    {
      ClusterState(rest, phase, phaseReason, conditions, pluginStatus)
    }

    /** A fresh object holding the same value. */
    method DeepCopy() returns (c: Cluster)
      ensures fresh(c) && c.Snapshot() == Snapshot()
    {
      c := new Cluster.FromState(Snapshot());
    }
  }
}
