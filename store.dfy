/**
 * The remote object store, reduced to the requests sent to it. A store
 * reply (success or an error) is supplied by the caller, so every
 * property holds for every possible reply.
 */
module Store {
  import opened Wrappers
  import opened ApiV1

  /** A request sent to the store. */
  datatype Event =
    | StatusPatch(base: ClusterState, target: ClusterState)
    | GetCluster(namespace: string, name: string)

  /** A client of the store, recording every request it sends, in order. */
  class StatusClient {
    var log: seq<Event>

    constructor ()
      ensures log == []
    {
      log := [];
    }

    /** A merge patch of the status sub-resource from `base` to `target`. */
    method PatchStatus(target: ClusterState, base: ClusterState, reply: Option<Error>)
      returns (err: Option<Error>)
      modifies this
      ensures log == old(log) + [StatusPatch(base, target)]
      ensures err == reply
    {
      log := log + [StatusPatch(base, target)];
      err := reply;
    }

    /** A read of the object with the given namespace and name. */
    method Get(namespace: string, name: string, reply: Option<Error>)
      returns (err: Option<Error>)
      modifies this
      ensures log == old(log) + [GetCluster(namespace, name)]
      ensures err == reply
    {
      log := log + [GetCluster(namespace, name)];
      err := reply;
    }
  }
}
