/** Service grants, as an authorization policy resolves them. */
module Policy {
  import opened Prelude

  /** Durations are nanoseconds. */
  datatype Workload = Workload(
    kind: string, namespace: string, name: string,
    replicas: int, readyTimeout: int, idleTimeout: int)

  datatype Service = Service(name: string, target: string, localPort: nat, workload: Option<Workload>)

  /** What a scaler backend is told to scale. */
  datatype Target = Target(kind: string, namespace: string, name: string)

  function TargetOf(w: Workload): Target {
    Target(w.kind, w.namespace, w.name)
  }
}
