/** The atomic actions of the health monitor (backend.go:205-266), and the trail they leave. */
module Trails {
  datatype BackendState = Starting | DownloadingModel | Booting | Ready | Unhealthy | Restarting | Crashed

  datatype Act =
    | ReportHealth(healthy: bool)
    | MarkGate(healthy: bool)
    | SetFlag(healthy: bool)
    | SetHealth(healthy: bool)
    | SetState(state: BackendState)
    | Notify
    | SetFails(n: nat)
    | Kill

  /** What the monitor's operations have done so far: each of them notes its own action. */
  class Trail {
    ghost var acts: seq<Act>

    constructor ()
      ensures acts == []
    {
      acts := [];
    }

    ghost method Note(a: Act)
      modifies this
      ensures acts == old(acts) + [a]
    {
      acts := acts + [a];
    }
  }
}
