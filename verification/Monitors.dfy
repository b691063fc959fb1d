/** monitorBackendHealth (backend.go): the debounced health state machine, as the list of atomic actions each round of
    its loop performs, and closed forms of its state over every history of probe results. */
module Monitors {
  import opened Trails
  import opened Gates
  import opened Supervisors

  /** The monitor's two variables, and the three cells that only it writes once it runs. */
  datatype View = View(fails: nat, flag: bool, gate: bool, health: bool, state: BackendState)

  const THRESHOLD: nat := 3

  function Do(v: View, a: Act): View {
    match a
    case MarkGate(h) => v.(gate := h)
    case SetFlag(h) => v.(flag := h)
    case SetHealth(h) => v.(health := h)
    case SetState(s) => v.(state := s)
    case SetFails(n) => v.(fails := n)
    case _ => v
  }

  function DoAll(v: View, acts: seq<Act>): View {
    if acts == [] then v else Do(DoAll(v, acts[..|acts| - 1]), acts[|acts| - 1])
  }

  function Recover(): seq<Act> { [ReportHealth(true), MarkGate(true), SetFlag(true), SetHealth(true)] }

  function Cut(): seq<Act> {
    [ReportHealth(false), MarkGate(false), SetFlag(false), SetHealth(false), SetState(Unhealthy), Notify]
  }

  function Restart(): seq<Act> { [Kill, SetFails(0), SetState(Restarting), Notify] }

  /** What one round does after a probe. */
  function Round(v: View, ok: bool, supervised: bool): seq<Act> {
    if ok then
      [SetFails(0)] + (if v.state != Ready then [SetState(Ready), Notify] else []) + (if !v.flag then Recover() else [])
    else
      [SetFails(v.fails + 1)]
      + (if v.flag && v.fails + 1 >= THRESHOLD then Cut() else [])
      + (if supervised && v.fails + 1 == THRESHOLD then Restart() else [])
  }

  // ----- The monitor as it runs -----

  class HealthMonitor {
    var consecutiveFails: nat
    var healthy: bool
    const gate: RouterGate
    const health: SharedHealth
    const state: SharedBackendState
    const notify: NotifyChannel
    const api: ApiClient
    const vllm: VllmSupervisor?
    ghost const trail: Trail

    /** Everything the monitor works with notes its actions in the one trail. */
    ghost predicate Valid()
      reads notify
    {
      && notify.Valid()
      && gate.trail == health.trail == state.trail == notify.trail == api.trail == trail
      && (vllm != null ==> vllm.trail == trail)
    }

    ghost function Now(): View
      reads this, gate, health, state
    {
      View(consecutiveFails, healthy, gate.healthy, health.Get(), state.v)
    }

    ghost function Repr(): set<object>
      reads this, gate
    {
      {this, gate, health, state, notify, trail} + gate.conns.Values + (if vllm == null then {} else {vllm})
    }

    predicate Supervised() { vllm != null }

    constructor (
        gate: RouterGate, health: SharedHealth, state: SharedBackendState, notify: NotifyChannel, api: ApiClient,
        vllm: VllmSupervisor?, ghost trail: Trail)
      requires gate.healthy && health.Get() && notify.Valid()
      requires gate.trail == health.trail == state.trail == notify.trail == api.trail == trail
      requires vllm != null ==> vllm.trail == trail
      ensures Valid() && Now() == View(0, true, true, true, state.v)
      ensures this.gate == gate && this.health == health && this.state == state && this.notify == notify
      ensures this.api == api && this.vllm == vllm && this.trail == trail
    {
      consecutiveFails, healthy := 0, true;
      this.gate, this.health, this.state, this.notify := gate, health, state, notify;
      this.api, this.vllm, this.trail := api, vllm, trail;
    }

    method SetFails(n: nat)
      modifies this, trail
      ensures consecutiveFails == n && healthy == old(healthy) && trail.acts == old(trail.acts) + [Act.SetFails(n)]
    {
      consecutiveFails := n;
      trail.Note(Act.SetFails(n));
    }

    method SetFlag(h: bool)
      modifies this, trail
      ensures healthy == h && consecutiveFails == old(consecutiveFails)
      ensures trail.acts == old(trail.acts) + [Act.SetFlag(h)]
    {
      healthy := h;
      trail.Note(Act.SetFlag(h));
    }

    /** One round of the loop: the actions of the round are what its operations note, in the order they are performed.
        */
    method Tick(ok: bool)
      requires Valid()
      modifies Repr()
      ensures Valid() && gate.conns == old(gate.conns)
      ensures trail.acts == old(trail.acts) + Round(old(Now()), ok, Supervised())
      ensures Now() == After(old(Now()), ok, Supervised())
    {
      if ok {
        ProbeSucceeded();
      } else {
        ProbeFailed();
      }
    }

    method ProbeSucceeded()
      requires Valid()
      modifies this, gate, health, state, notify, trail
      ensures Valid() && gate.conns == old(gate.conns)
      ensures trail.acts == old(trail.acts) + Round(old(Now()), true, Supervised())
      ensures Now() == After(old(Now()), true, Supervised())
    {
      hide After;
      AfterIs(Now(), true, Supervised());
      SetFails(0);
      if state.v != Ready {
        state.Set(Ready);
        notify.NotifyBackendState();
      }
      if !healthy {
        Recovered();
      }
    }

    method Recovered()
      requires Valid()
      modifies this, gate, health, trail
      ensures gate.conns == old(gate.conns) && trail.acts == old(trail.acts) + Recover()
      ensures Now() == old(Now()).(gate := true, flag := true, health := true)
    {
      api.ReportHealth(true);
      gate.MarkHealthy();
      SetFlag(true);
      health.Set(true);
    }

    method ProbeFailed()
      requires Valid()
      modifies Repr()
      ensures Valid() && gate.conns == old(gate.conns)
      ensures trail.acts == old(trail.acts) + Round(old(Now()), false, Supervised())
      ensures Now() == After(old(Now()), false, Supervised())
    {
      hide After, Cut, Restart;
      AfterIs(Now(), false, Supervised());
      SetFails(consecutiveFails + 1);
      if healthy && consecutiveFails >= THRESHOLD {
        CutRouter();
      }
      if vllm != null && consecutiveFails == THRESHOLD {
        RestartBackend();
      }
    }

    method CutRouter()
      requires Valid()
      modifies this, gate, gate.conns.Values, health, state, notify, trail
      ensures Valid() && gate.conns == old(gate.conns) && trail.acts == old(trail.acts) + Cut()
      ensures Now() == old(Now()).(gate := false, flag := false, health := false, state := Unhealthy)
    {
      api.ReportHealth(false);
      gate.MarkUnhealthy();
      SetFlag(false);
      health.Set(false);
      state.Set(Unhealthy);
      notify.NotifyBackendState();
    }

    method RestartBackend()
      requires Valid() && vllm != null
      modifies this, vllm, state, notify, trail
      ensures Valid() && trail.acts == old(trail.acts) + Restart()
      ensures Now() == old(Now()).(fails := 0, state := Restarting)
      ensures vllm.View() == NoteKill(old(vllm.View()), old(vllm.cmd != null && vllm.cmd.hasProcess))
    {
      var _ := vllm.Kill();
      SetFails(0);
      state.Set(Restarting);
      notify.NotifyBackendState();
    }

    /** The loop, for any number of rounds. */
    method Monitor(probes: seq<bool>)
      requires Valid()
      modifies Repr()
      ensures Valid()
      ensures Now() == Final(old(Now()), probes, Supervised())
      ensures trail.acts == old(trail.acts) + History(old(Now()), probes, Supervised())
    {
      hide Round, After, Final, History;
      NoRounds(Now(), Supervised());
      for k := 0 to |probes|
        invariant Valid() && gate.conns == old(gate.conns)
        invariant Now() == Final(old(Now()), probes[..k], Supervised())
        invariant trail.acts == old(trail.acts) + History(old(Now()), probes[..k], Supervised())
      {
        NextRound(old(Now()), probes[..k], probes[k], Supervised());
        assert probes[..k] + [probes[k]] == probes[..k + 1];
        Tick(probes[k]);
      }
      assert probes[..|probes|] == probes;
    }
  }

  /** The view after one round. */
  function After(v: View, ok: bool, supervised: bool): View { DoAll(v, Round(v, ok, supervised)) }

  function Final(v: View, probes: seq<bool>, supervised: bool): View {
    if probes == [] then v else After(Final(v, probes[..|probes| - 1], supervised), probes[|probes| - 1], supervised)
  }

  /** Every action of every round, in order. */
  function History(v: View, probes: seq<bool>, supervised: bool): seq<Act> {
    if probes == [] then []
    else
      var n := |probes| - 1;
      History(v, probes[..n], supervised) + Round(Final(v, probes[..n], supervised), probes[n], supervised)
  }

  lemma NoRounds(v: View, supervised: bool)
    ensures Final(v, [], supervised) == v && History(v, [], supervised) == []
  {
  }

  lemma NextRound(v: View, probes: seq<bool>, ok: bool, supervised: bool)
    ensures Final(v, probes + [ok], supervised) == After(Final(v, probes, supervised), ok, supervised)
    ensures History(v, probes + [ok], supervised)
         == History(v, probes, supervised) + Round(Final(v, probes, supervised), ok, supervised)
  {
    assert (probes + [ok])[..|probes|] == probes;
  }

  lemma {:induction false} DoAllConcat(v: View, a: seq<Act>, b: seq<Act>)
    ensures DoAll(v, a + b) == DoAll(DoAll(v, a), b)
  {
    if b == [] {
      assert a + b == a;
    } else {
      assert (a + b)[..|a + b| - 1] == a + b[..|b| - 1];
      DoAllConcat(v, a, b[..|b| - 1]);
    }
  }

  lemma DoTwo(v: View, a: Act, b: Act)
    ensures DoAll(v, [a, b]) == Do(Do(v, a), b)
  {
    assert [a, b] == [a] + [b];
    DoAllConcat(v, [a], [b]);
    DoOne(v, a);
    DoOne(Do(v, a), b);
  }

  lemma DoOne(v: View, a: Act)
    ensures DoAll(v, [a]) == Do(v, a)
  {
    assert [a][..0] == [];
  }

  lemma DoFour(v: View, a: Act, b: Act, c: Act, d: Act)
    ensures DoAll(v, [a, b, c, d]) == Do(Do(Do(Do(v, a), b), c), d)
  {
    hide DoAll;
    assert [a, b, c, d] == [a, b] + [c, d];
    DoAllConcat(v, [a, b], [c, d]);
    DoTwo(v, a, b);
    DoTwo(Do(Do(v, a), b), c, d);
  }

  lemma CutDoes(v: View)
    ensures DoAll(v, Cut()) == v.(gate := false, flag := false, health := false, state := Unhealthy)
  {
    hide DoAll;
    var c := Cut();
    assert c == [c[0], c[1], c[2], c[3]] + [c[4], c[5]];
    DoAllConcat(v, [c[0], c[1], c[2], c[3]], [c[4], c[5]]);
    DoFour(v, c[0], c[1], c[2], c[3]);
    DoTwo(v.(gate := false, flag := false, health := false), c[4], c[5]);
  }

  /** What a round amounts to. */
  lemma AfterIs(v: View, ok: bool, supervised: bool)
    ensures After(v, ok, supervised)
         == if ok then View(0, true, v.gate || !v.flag, v.health || !v.flag, Ready)
            else
              var cut := v.flag && v.fails + 1 >= THRESHOLD;
              var kill := supervised && v.fails + 1 == THRESHOLD;
              View(if kill then 0 else v.fails + 1, v.flag && !cut, v.gate && !cut, v.health && !cut,
                   if kill then Restarting else if cut then Unhealthy else v.state)
  {
    if ok {
      OkDoes(v);
    } else {
      FailDoes(v, supervised);
    }
  }

  lemma NothingDone(v: View)
    ensures DoAll(v, []) == v
  {
  }

  lemma OkDoes(v: View)
    ensures After(v, true, false) == After(v, true, true)
         == View(0, true, v.gate || !v.flag, v.health || !v.flag, Ready)
  {
    hide DoAll;
    var a := [SetFails(0)];
    var b := if v.state != Ready then [SetState(Ready), Notify] else [];
    var c := if !v.flag then Recover() else [];
    DoAllConcat(v, a + b, c);
    DoAllConcat(v, a, b);
    DoOne(v, SetFails(0));
    var v1 := v.(fails := 0);
    DoTwo(v1, SetState(Ready), Notify);
    NothingDone(v1);
    var v2 := v1.(state := Ready);
    DoFour(v2, ReportHealth(true), MarkGate(true), SetFlag(true), SetHealth(true));
    NothingDone(v2);
  }

  lemma FailDoes(v: View, supervised: bool)
    ensures After(v, false, supervised)
         == var cut := v.flag && v.fails + 1 >= THRESHOLD;
            var kill := supervised && v.fails + 1 == THRESHOLD;
            View(if kill then 0 else v.fails + 1, v.flag && !cut, v.gate && !cut, v.health && !cut,
                 if kill then Restarting else if cut then Unhealthy else v.state)
  {
    hide DoAll;
    var f := v.fails + 1;
    var a := [SetFails(f)];
    var b := if v.flag && f >= THRESHOLD then Cut() else [];
    var c := if supervised && f == THRESHOLD then Restart() else [];
    DoAllConcat(v, a + b, c);
    DoAllConcat(v, a, b);
    DoOne(v, SetFails(f));
    var v1 := v.(fails := f);
    CutDoes(v1);
    NothingDone(v1);
    var v2 := DoAll(v1, b);
    DoFour(v2, Kill, SetFails(0), SetState(Restarting), Notify);
    NothingDone(v2);
  }
}
