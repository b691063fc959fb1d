/** routerGate (gate.go), and the cells, the channel and the client the health monitor works with (backend.go). Each
    operation of the monitor's notes its action in a trail that all of them share. */
module Gates {
  import opened Trails

  /** A router connection; closing it again does nothing more. */
  class RouterConn {
    var isOpen: bool

    constructor ()
      ensures isOpen
    {
      isOpen := true;
    }

    method Close()
      modifies this
      ensures !isOpen
    {
      isOpen := false;
    }
  }

  class RouterGate {
    var healthy: bool
    var conns: map<int, RouterConn>
    /** The connection loops in the condition's wait set. */
    var waiting: set<int>
    ghost const trail: Trail

    constructor (ghost trail: Trail)
      ensures healthy && conns == map[] && waiting == {} && this.trail == trail
    {
      healthy, conns, waiting := true, map[], {};
      this.trail := trail;
    }

    /** The body of waitHealthy's loop, under the lock: a loop passes, or joins the wait set. */
    method PassOrWait(connIdx: int) returns (passed: bool)
      modifies this
      ensures passed == healthy == old(healthy) && conns == old(conns)
      ensures waiting == if passed then old(waiting) - {connIdx} else old(waiting) + {connIdx}
    {
      passed := healthy;
      waiting := if passed then waiting - {connIdx} else waiting + {connIdx};
    }

    method SetConn(connIdx: int, conn: RouterConn)
      modifies this
      ensures conns == old(conns)[connIdx := conn] && healthy == old(healthy) && waiting == old(waiting)
    {
      conns := conns[connIdx := conn];
    }

    method ClearConn(connIdx: int)
      modifies this
      ensures conns == old(conns) - {connIdx} && healthy == old(healthy) && waiting == old(waiting)
    {
      conns := conns - {connIdx};
    }

    /** Closes every registered connection and no other; the registrations stay. */
    method MarkUnhealthy()
      modifies this, conns.Values, trail
      ensures !healthy && conns == old(conns) && waiting == old(waiting)
      ensures forall i :: i in conns ==> !conns[i].isOpen
      ensures trail.acts == old(trail.acts) + [MarkGate(false)]
    {
      healthy := false;
      trail.Note(MarkGate(false));
      var rest := conns.Values;
      while rest != {}
        invariant rest <= conns.Values && !healthy && conns == old(conns) && waiting == old(waiting)
        invariant trail.acts == old(trail.acts) + [MarkGate(false)]
        invariant forall c :: c in conns.Values && c !in rest ==> !c.isOpen
        decreases rest
      {
        var c :| c in rest;
        c.Close();
        rest := rest - {c};
      }
    }

    /** Marks the gate, and then wakes every loop that waits. */
    method MarkHealthy()
      modifies this, trail
      ensures healthy && conns == old(conns) && waiting == {}
      ensures trail.acts == old(trail.acts) + [MarkGate(true)]
    {
      healthy := true;
      trail.Note(MarkGate(true));
      Broadcast();
    }

    method Broadcast()
      modifies this
      ensures waiting == {} && healthy == old(healthy) && conns == old(conns)
    {
      waiting := {};
    }
  }

  class SharedHealth {
    var v: int
    ghost const trail: Trail

    constructor (ghost trail: Trail)
      ensures Get() && this.trail == trail
    {
      v := 0;
      this.trail := trail;
    }

    method Set(healthy: bool)
      modifies this, trail
      ensures Get() == healthy && trail.acts == old(trail.acts) + [SetHealth(healthy)]
    {
      v := if healthy then 0 else 1;
      trail.Note(SetHealth(healthy));
    }

    predicate Get()
      reads this
    {
      v == 0
    }
  }

  class SharedBackendState {
    var v: BackendState
    ghost const trail: Trail

    constructor (initial: BackendState, ghost trail: Trail)
      ensures v == initial && this.trail == trail
    {
      v := initial;
      this.trail := trail;
    }

    method Set(state: BackendState)
      modifies this, trail
      ensures v == state && trail.acts == old(trail.acts) + [SetState(state)]
    {
      v := state;
      trail.Note(SetState(state));
    }
  }

  /** A channel of capacity one: a send that finds it full is dropped. */
  class NotifyChannel {
    var pending: nat
    ghost const trail: Trail

    ghost predicate Valid() reads this { pending <= 1 }

    constructor (ghost trail: Trail)
      ensures Valid() && pending == 0 && this.trail == trail
    {
      pending := 0;
      this.trail := trail;
    }

    method NotifyBackendState()
      requires Valid()
      modifies this, trail
      ensures Valid() && pending == 1
      ensures trail.acts == old(trail.acts) + [Notify]
    {
      if pending < 1 {
        pending := pending + 1;
      }
      trail.Note(Notify);
    }

    method Receive() returns (woken: bool)
      requires Valid()
      modifies this
      ensures Valid() && pending == 0 && woken == (old(pending) == 1)
    {
      woken := pending == 1;
      pending := 0;
    }
  }

  /** The management API, as far as the monitor calls it; whether the call succeeds makes no difference to it. */
  class ApiClient {
    ghost const trail: Trail

    constructor (ghost trail: Trail)
      ensures this.trail == trail
    {
      this.trail := trail;
    }

    method ReportHealth(healthy: bool)
      modifies trail
      ensures trail.acts == old(trail.acts) + [Act.ReportHealth(healthy)]
    {
      trail.Note(Act.ReportHealth(healthy));
    }
  }
}
