/** What can be open during an outage, and what cannot (gate.go:44-70, connection.go:44-53, 83-84). */
module OutageRuns {
  import opened Trails
  import opened Monitors
  import opened GateRuns

  /** t is in the outage that s is in: the gate has not been marked healthy since. */
  predicate SameOutage(s: State, t: State) { !s.view.gate && !t.view.gate && t.cuts == s.cuts }

  /** Loop i is past the gate and still dialling, or has an open connection that markUnhealthy did not capture. */
  predicate AtRisk(s: State, i: nat) {
    && i < |s.loops|
    && (s.loops[i].phase == Dialing
        || (s.loops[i].HasConn() && s.loops[i].conn in s.isOpen && s.loops[i].conn !in s.closing))
  }

  // ----- An outage, step by step -----

  lemma StepCuts(s: State, a: Action, supervised: bool)
    ensures Step(s, a, supervised).cuts >= s.cuts
    ensures !Step(s, a, supervised).view.gate && Step(s, a, supervised).cuts == s.cuts ==> !s.view.gate
  {
    hide Round, Wake;
  }

  lemma {:induction false} CutsGrow(
      n: nat, initial: BackendState, supervised: bool, acts: seq<Action>, more: seq<Action>)
    ensures Run(n, initial, supervised, acts + more).cuts >= Run(n, initial, supervised, acts).cuts
  {
    hide Run, Step;
    if more == [] {
      assert acts + more == acts;
    } else {
      var k := |more| - 1;
      CutsGrow(n, initial, supervised, acts, more[..k]);
      assert acts + more == acts + more[..k] + [more[k]];
      RunNext(n, initial, supervised, acts + more[..k], more[k]);
      StepCuts(Run(n, initial, supervised, acts + more[..k]), more[k], supervised);
    }
  }

  /** A run that ends in the same outage was in it all along. */
  lemma OutageBefore(n: nat, initial: BackendState, supervised: bool, acts: seq<Action>, more: seq<Action>, a: Action)
    requires SameOutage(Run(n, initial, supervised, acts), Run(n, initial, supervised, acts + (more + [a])))
    ensures SameOutage(Run(n, initial, supervised, acts), Run(n, initial, supervised, acts + more))
    ensures Run(n, initial, supervised, acts + (more + [a]))
        == Step(Run(n, initial, supervised, acts + more), a, supervised)
  {
    hide Run, Step;
    CutsGrow(n, initial, supervised, acts, more);
    assert acts + (more + [a]) == acts + more + [a];
    RunNext(n, initial, supervised, acts + more, a);
    StepCuts(Run(n, initial, supervised, acts + more), a, supervised);
  }

  /** During an outage the set of loops past the gate only shrinks: no loop passes waitHealthy, and those that are past
      it are the ones that passed before the cut. */
  lemma {:induction false} PastGateShrinks(
      n: nat, initial: BackendState, supervised: bool, acts: seq<Action>, more: seq<Action>, i: nat)
    requires i < n
    requires SameOutage(Run(n, initial, supervised, acts), Run(n, initial, supervised, acts + more))
    ensures var s, t := Run(n, initial, supervised, acts), Run(n, initial, supervised, acts + more);
            && i < |s.loops| && i < |t.loops|
            && (t.loops[i].PastGate() ==>
                  s.loops[i].PastGate() && t.loops[i].passed == s.loops[i].passed && s.loops[i].passed < s.cuts)
  {
    hide Run, Step, MapExact, OpenAccounted, OnCourse;
    LoopsStay(n, initial, supervised, acts);
    LoopsStay(n, initial, supervised, acts + more);
    if more == [] {
      assert acts + more == acts;
      RunInv(n, initial, supervised, acts);
      assert LoopTimes(Run(n, initial, supervised, acts), Run(n, initial, supervised, acts).loops[i]);
    } else {
      var k := |more| - 1;
      assert more == more[..k] + [more[k]];
      OutageBefore(n, initial, supervised, acts, more[..k], more[k]);
      PastGateShrinks(n, initial, supervised, acts, more[..k], i);
      StepPasses(Run(n, initial, supervised, acts + more[..k]), more[k], supervised, i);
    }
  }

  /** A loop whose dial fails during an outage has to wait for the gate again before it dials another time. */
  lemma FailedDialWaits(
      n: nat, initial: BackendState, supervised: bool, acts: seq<Action>, more: seq<Action>, i: nat)
    requires i < n && i < |Run(n, initial, supervised, acts).loops|
    requires Run(n, initial, supervised, acts).loops[i].phase == Dialing
    requires SameOutage(Run(n, initial, supervised, acts), Run(n, initial, supervised, acts + [Dial(i, false)] + more))
    ensures var t := Run(n, initial, supervised, acts + [Dial(i, false)] + more);
            i < |t.loops| && !t.loops[i].PastGate()
  {
    hide Run;
    RunNext(n, initial, supervised, acts, Dial(i, false));
    PastGateShrinks(n, initial, supervised, acts + [Dial(i, false)], more, i);
  }

  // ----- Loops that are not at risk never are again -----

  lemma LoopRisk(s: State, a: Action, j: nat, i: nat)
    requires MapExact(s) && !s.view.gate && j < |s.loops| && AtRisk(LoopStep(s, a, j), i)
    ensures AtRisk(s, i)
  {
  }

  lemma StepRisk(s: State, a: Action, supervised: bool, i: nat)
    requires MapExact(s) && SameOutage(s, Step(s, a, supervised)) && AtRisk(Step(s, a, supervised), i)
    ensures AtRisk(s, i)
  {
    hide MapExact, LoopStep, Round, Do;
    match a
    case Drop(_) =>
    case Probe(_) =>
    case CloseNext(_) =>
    case Broadcast =>
    case Act =>
      if s.closing == {} && !s.broadcasting && s.todo != [] {
        ActRisk(s, i);
      }
    case _ => if a.i < |s.loops| { LoopRisk(s, a, a.i, i); }
  }

  lemma ActRisk(s: State, i: nat)
    requires s.todo != [] && s.closing == {} && SameOutage(s, ActStep(s)) && AtRisk(ActStep(s), i)
    ensures AtRisk(s, i)
  {
    ActKeepsLoop(s, i);
  }

  lemma {:induction false} RiskShrinks(
      n: nat, initial: BackendState, supervised: bool, acts: seq<Action>, more: seq<Action>, i: nat)
    requires SameOutage(Run(n, initial, supervised, acts), Run(n, initial, supervised, acts + more))
    requires AtRisk(Run(n, initial, supervised, acts + more), i)
    ensures AtRisk(Run(n, initial, supervised, acts), i)
  {
    hide Run, Step, AtRisk, OpenAccounted, Times, OnCourse, MapExact;
    if more == [] {
      assert acts + more == acts;
    } else {
      var k := |more| - 1;
      assert more == more[..k] + [more[k]];
      OutageBefore(n, initial, supervised, acts, more[..k], more[k]);
      RunInv(n, initial, supervised, acts + more[..k]);
      StepRisk(Run(n, initial, supervised, acts + more[..k]), more[k], supervised, i);
      RiskShrinks(n, initial, supervised, acts, more[..k], i);
    }
  }

  // ----- And a loop that is at risk can have its connection open -----

  /** markUnhealthy can finish closing what it captured before anything else happens. */
  lemma {:induction false} CloseAll(n: nat, initial: BackendState, supervised: bool, acts: seq<Action>)
    returns (more: seq<Action>)
    ensures var s := Run(n, initial, supervised, acts);
            Run(n, initial, supervised, acts + more) == s.(closing := {}, isOpen := s.isOpen - s.closing)
    decreases Run(n, initial, supervised, acts).closing
  {
    hide Run, LoopStep, ActStep, Wake;
    var s := Run(n, initial, supervised, acts);
    if s.closing == {} {
      more := [];
      assert acts + more == acts && s.isOpen - {} == s.isOpen;
    } else {
      var c :| c in s.closing;
      RunNext(n, initial, supervised, acts, CloseNext(c));
      var rest := CloseAll(n, initial, supervised, acts + [CloseNext(c)]);
      more := [CloseNext(c)] + rest;
      assert acts + more == acts + [CloseNext(c)] + rest;
      assert s.isOpen - s.closing == s.isOpen - {c} - (s.closing - {c});
    }
  }

  /** t continues the outage of s, with everything closed that markUnhealthy captured and a connection open. */
  predicate OpenLater(s: State, t: State) { SameOutage(s, t) && t.closing == {} && t.isOpen != {} }

  lemma RiskComesTrue(n: nat, initial: BackendState, supervised: bool, acts: seq<Action>, i: nat)
    requires !Run(n, initial, supervised, acts).view.gate && AtRisk(Run(n, initial, supervised, acts), i)
    ensures exists more ::
              OpenLater(Run(n, initial, supervised, acts), Run(n, initial, supervised, acts + more))
  {
    hide Run, Wake, ActStep, Times, OnCourse, MapExact;
    var s := Run(n, initial, supervised, acts);
    if s.loops[i].phase == Dialing {
      RunInv(n, initial, supervised, acts);
      RunNext(n, initial, supervised, acts, Dial(i, true));
      var rest := CloseAll(n, initial, supervised, acts + [Dial(i, true)]);
      assert acts + ([Dial(i, true)] + rest) == acts + [Dial(i, true)] + rest;
      assert s.nextConn !in s.closing;
      assert s.nextConn in Run(n, initial, supervised, acts + ([Dial(i, true)] + rest)).isOpen;
    } else {
      var rest := CloseAll(n, initial, supervised, acts);
      assert s.loops[i].conn in Run(n, initial, supervised, acts + rest).isOpen;
    }
  }

  /** Exactly when a connection can be open in what remains of an outage once markUnhealthy has done its closing: when
      some loop is still dialling, or has an open connection that was not captured. */
  lemma OpenLaterIff(n: nat, initial: BackendState, supervised: bool, acts: seq<Action>)
    requires !Run(n, initial, supervised, acts).view.gate
    ensures var s := Run(n, initial, supervised, acts);
            (exists more :: OpenLater(s, Run(n, initial, supervised, acts + more))) <==> exists i: nat :: AtRisk(s, i)
  {
    hide Run, Step, Times, OnCourse, MapExact, AtRisk;
    var s := Run(n, initial, supervised, acts);
    if more :| OpenLater(s, Run(n, initial, supervised, acts + more)) {
      var t := Run(n, initial, supervised, acts + more);
      RunInv(n, initial, supervised, acts + more);
      var c :| c in t.isOpen;
      var i: nat :| Owns(t, i, c);
      assert AtRisk(t, i) by { OwnerAtRisk(t, i, c); }
      RiskShrinks(n, initial, supervised, acts, more, i);
    }
    if i: nat :| AtRisk(s, i) {
      RiskComesTrue(n, initial, supervised, acts, i);
    }
  }

  lemma OwnerAtRisk(t: State, i: nat, c: nat)
    requires Owns(t, i, c) && c in t.isOpen && t.closing == {}
    ensures AtRisk(t, i)
  {
  }

  /** Loop i is dialling, has dialled and not registered, or has cleared its registration and not closed. */
  predicate Between(s: State, i: nat) {
    && i < |s.loops|
    && (|| s.loops[i].phase == Dialing
        || ((s.loops[i].phase == Dialed || s.loops[i].phase == Cleared) && s.loops[i].conn in s.isOpen))
  }

  lemma RiskAtCut(s: State, i: nat)
    requires MapExact(s) && s.todo != [] && s.todo[0] == MarkGate(false)
    ensures AtRisk(ActStep(s), i) <==> Between(s, i)
  {
    if i < |s.loops| {
      ActKeepsLoop(s, i);
      EntryOf(s, i);
      if s.loops[i].Registered() {
        assert s.conns[i] in s.conns.Values;
      } else if s.loops[i].HasConn() && s.loops[i].conn in s.conns.Values {
        var j :| j in s.conns && s.conns[j] == s.loops[i].conn;
        EntryOf(s, j);
      }
    }
  }

  /** What the monitor could check in the locked section of markUnhealthy: a connection can be open later in this
      outage, once what was captured is closed, if and only if some loop is then dialling, or has an open connection
      that it has not registered yet or has deregistered already. */
  lemma OpenAfterCutIff(n: nat, initial: BackendState, supervised: bool, acts: seq<Action>)
    requires var s := Run(n, initial, supervised, acts);
             s.closing == {} && !s.broadcasting && s.todo != [] && s.todo[0] == MarkGate(false)
    ensures var s, t := Run(n, initial, supervised, acts), Run(n, initial, supervised, acts + [Act]);
            && !t.view.gate && t.cuts == s.cuts + 1
            && ((exists more :: OpenLater(t, Run(n, initial, supervised, acts + [Act] + more)))
                <==> exists i: nat :: Between(s, i))
  {
    hide Run, LoopStep, Wake, Times, OnCourse, OpenAccounted, MapExact, AtRisk, Between, Round;
    var s := Run(n, initial, supervised, acts);
    RunNext(n, initial, supervised, acts, Act);
    RunInv(n, initial, supervised, acts);
    var t := Run(n, initial, supervised, acts + [Act]);
    assert t == ActStep(s);
    forall i: nat ensures AtRisk(t, i) <==> Between(s, i) { RiskAtCut(s, i); }
    OpenLaterIff(n, initial, supervised, acts + [Act]);
  }

  // ----- Each of the three cases occurs -----

  /** A loop that is dialling, or has dialled, when everything captured is closed can register in the outage, and its
      connection stays open with nothing left to close it. */
  lemma RegistersInOutage(n: nat, initial: BackendState, supervised: bool, acts: seq<Action>, i: nat)
    requires var s := Run(n, initial, supervised, acts);
             && !s.view.gate && s.closing == {} && i < |s.loops|
             && (s.loops[i].phase == Dialing || (s.loops[i].phase == Dialed && s.loops[i].conn in s.isOpen))
    ensures exists more ::
              var s, t := Run(n, initial, supervised, acts), Run(n, initial, supervised, acts + more);
              && SameOutage(s, t) && t.closing == {} && |t.loops| == |s.loops|
              && t.loops[i].phase == Serving && t.loops[i].conn in t.isOpen && i in t.conns
  {
    hide Run, Wake, ActStep;
    var s := Run(n, initial, supervised, acts);
    if s.loops[i].phase == Dialing {
      RunNext(n, initial, supervised, acts, Dial(i, true));
      RunNext(n, initial, supervised, acts + [Dial(i, true)], SetConn(i));
      assert acts + [Dial(i, true), SetConn(i)] == acts + [Dial(i, true)] + [SetConn(i)];
      assert Run(n, initial, supervised, acts + [Dial(i, true), SetConn(i)]).loops[i].phase == Serving;
    } else {
      RunNext(n, initial, supervised, acts, SetConn(i));
      assert Run(n, initial, supervised, acts + [SetConn(i)]).loops[i].phase == Serving;
    }
  }

  /** The only loop serves its connection, before any probe. */
  lemma ServingAtHead() returns (acts: seq<Action>)
    ensures Run(1, Ready, false, acts)
         == Init(1, Ready).(loops := [Loop(Serving, 0, 0, 0, 0, 0, 1)],
                            conns := map[0 := 0], isOpen := {0}, nextConn := 1)
  {
    hide Run, ActStep, Wake, Round;
    var a0: seq<Action> := [];
    assert Run(1, Ready, false, a0) == Init(1, Ready) by { RunsFromInit(); }
    RunNext(1, Ready, false, a0, Enter(0));
    RunNext(1, Ready, false, a0 + [Enter(0)], Dial(0, true));
    RunNext(1, Ready, false, a0 + [Enter(0)] + [Dial(0, true)], SetConn(0));
    acts := a0 + [Enter(0)] + [Dial(0, true)] + [SetConn(0)];
    assert Run(1, Ready, false, acts).loops == [Loop(Serving, 0, 0, 0, 0, 0, 1)];
  }

  /** The only loop has deregistered its connection and not closed it yet, before any probe. */
  lemma ClearedAtHead() returns (acts: seq<Action>)
    ensures var s := Run(1, Ready, false, acts);
            && AtHead(s) && s.view == View(0, true, true, true, Ready) && s.conns == map[] && s.cuts == 0
            && |s.loops| == 1 && s.loops[0].phase == Cleared && s.loops[0].cleared == 0 && s.loops[0].conn in s.isOpen
  {
    hide Run, ActStep, Wake, Round;
    var a := ServingAtHead();
    RunNext(1, Ready, false, a, ReadError(0));
    RunNext(1, Ready, false, a + [ReadError(0)], ClearConn(0));
    acts := a + [ReadError(0)] + [ClearConn(0)];
    assert Run(1, Ready, false, acts).conns == map[];
  }

  /** The connection of a loop that called clearConn before the cut can be open in the outage too. */
  lemma ClearedInOutage()
    ensures exists acts :: var s := Run(1, Ready, false, acts);
              && !s.view.gate && s.closing == {} && |s.loops| == 1
              && s.loops[0].phase == Cleared && s.loops[0].cleared < s.cuts && s.loops[0].conn in s.isOpen
  {
    hide Run, Step, Round;
    var a := ClearedAtHead();
    FailOnce(1, a);
    var b := a + [Probe(false)] + [Act];
    FailOnce(1, b);
    var c := b + [Probe(false)] + [Act];
    CutNow(1, c);
    var s := Run(1, Ready, false, c + [Probe(false)] + [Act] + [Act] + [Act]);
    assert s.loops[0].phase == Cleared;
  }
}
