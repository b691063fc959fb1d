/** That the connection loops come back: by their own steps while the gate is healthy, and after every outage once the
    backend answers again (gate.go:33-39, 74-79, connection.go:44-84, main.go:380-395, backend.go:205-266). */
module ReconnectRuns {
  import opened Trails
  import opened Monitors
  import opened ProbeHistories
  import opened GateRuns

  // ----- One loop, by its own steps -----

  /** A step of loop i itself. */
  predicate IsOwn(a: Action, i: nat) {
    match a
    case Enter(j) => i == j
    case Recheck(j) => i == j
    case Dial(j, _) => i == j
    case SetConn(j) => i == j
    case FinishHandler(j) => i == j
    case ReadError(j) => i == j
    case ClearConn(j) => i == j
    case CloseOwn(j) => i == j
    case Rest(j) => i == j
    case _ => false
  }

  /** Loop i serves a connection that is open and registered as its own. */
  predicate Serves(s: State, i: nat) {
    && i < |s.loops| && s.loops[i].phase == Serving
    && s.loops[i].conn in s.isOpen && i in s.conns && s.conns[i] == s.loops[i].conn
  }

  function NextOwn(l: Loop, i: nat): Action {
    match l.phase
    case Entering => Enter(i)
    case Waiting => Recheck(i)
    case Woken => Recheck(i)
    case Dialing => Dial(i, true)
    case Dialed => SetConn(i)
    case Serving => ReadError(i)
    case Draining => if l.handlers > 0 then FinishHandler(i) else ClearConn(i)
    case Cleared => CloseOwn(i)
    case Resting => Rest(i)
  }

  /** How far the loop is from serving an open connection. */
  function Far(s: State, i: nat): nat
    requires i < |s.loops|
  {
    var l := s.loops[i];
    var alive := l.conn in s.isOpen;
    match l.phase
    case Serving => if alive then 0 else 8 + l.handlers
    case Dialed => if alive then 1 else 9 + l.handlers
    case Dialing => 2
    case Entering => 3
    case Woken => 3
    case Waiting => 3
    case Resting => 4
    case Cleared => 5
    case Draining => 6 + l.handlers
  }

  lemma NextIsNearer(s: State, i: nat, supervised: bool)
    requires i < |s.loops| && s.view.gate && s.loops[i].phase != Waiting && Far(s, i) > 0
    ensures var t := Step(s, NextOwn(s.loops[i], i), supervised);
            && |t.loops| == |s.loops| && t.view.gate && t.broadcasting == s.broadcasting
            && Far(t, i) < Far(s, i)
  {
  }

  /** While the gate is healthy every loop can bring itself to serve an open, registered connection. */
  lemma {:induction false} Reconnects(n: nat, initial: BackendState, supervised: bool, acts: seq<Action>, i: nat)
    returns (more: seq<Action>)
    requires i < n && i < |Run(n, initial, supervised, acts).loops|
    requires Run(n, initial, supervised, acts).view.gate && !Run(n, initial, supervised, acts).broadcasting
    ensures forall a :: a in more ==> IsOwn(a, i)
    ensures Serves(Run(n, initial, supervised, acts + more), i)
    decreases Far(Run(n, initial, supervised, acts), i)
  {
    hide Run, Step, Far, OpenAccounted, OnCourse;
    var s := Run(n, initial, supervised, acts);
    RunInv(n, initial, supervised, acts);
    assert s.loops[i].phase != Waiting by { assert LoopTimes(s, s.loops[i]); }
    if Far(s, i) == 0 {
      more := [];
      assert acts + more == acts;
      NearestServes(s, i);
    } else {
      var a := NextOwn(s.loops[i], i);
      NextIsNearer(s, i, supervised);
      RunNext(n, initial, supervised, acts, a);
      var rest := Reconnects(n, initial, supervised, acts + [a], i);
      more := [a] + rest;
      assert acts + more == acts + [a] + rest;
    }
  }

  lemma NearestServes(s: State, i: nat)
    requires MapExact(s) && i < |s.loops| && Far(s, i) == 0
    ensures Serves(s, i)
  {
    EntryOf(s, i);
  }

  /** A woken loop goes past the gate if and only if the gate is healthy, and waits again otherwise. */
  lemma RecheckExactly(n: nat, initial: BackendState, supervised: bool, acts: seq<Action>, i: nat)
    requires i < |Run(n, initial, supervised, acts).loops| && Run(n, initial, supervised, acts).loops[i].phase == Woken
    ensures var s, t := Run(n, initial, supervised, acts), Run(n, initial, supervised, acts + [Recheck(i)]);
            && i < |t.loops|
            && (t.loops[i].phase == Dialing <==> s.view.gate)
            && (t.loops[i].phase == Waiting <==> !s.view.gate)
  {
    hide Run;
    RunNext(n, initial, supervised, acts, Recheck(i));
  }

  /** A loop that serves can come to have any number of handlers at work, more or fewer. */
  lemma {:induction false} ServesAny(n: nat, initial: BackendState, supervised: bool, acts: seq<Action>, i: nat, k: nat)
    returns (more: seq<Action>)
    requires Serves(Run(n, initial, supervised, acts), i)
    ensures var s, t := Run(n, initial, supervised, acts), Run(n, initial, supervised, acts + more);
            Serves(t, i) && t.loops[i].handlers == k && t.loops[i].conn == s.loops[i].conn
    decreases var h := Run(n, initial, supervised, acts).loops[i].handlers; if h < k then k - h else h - k
  {
    hide Run;
    var h := Run(n, initial, supervised, acts).loops[i].handlers;
    if h == k {
      more := [];
      assert acts + more == acts;
    } else {
      var a := if h < k then SpawnHandler(i) else FinishHandler(i);
      RunNext(n, initial, supervised, acts, a);
      var rest := ServesAny(n, initial, supervised, acts + [a], i, k);
      more := [a] + rest;
      assert acts + more == acts + [a] + rest;
    }
  }

  /** A connection that is lost is replaced by another one: the loop notices, waits for its handlers, and dials again.
      */
  lemma LostIsReplaced(n: nat, initial: BackendState, supervised: bool, acts: seq<Action>, i: nat)
    returns (more: seq<Action>)
    requires i < n && Serves(Run(n, initial, supervised, acts), i)
    requires Run(n, initial, supervised, acts).view.gate && !Run(n, initial, supervised, acts).broadcasting
    ensures var s := Run(n, initial, supervised, acts);
            var t := Run(n, initial, supervised, acts + [Drop(s.loops[i].conn)] + more);
            Serves(t, i) && t.loops[i].conn != s.loops[i].conn
  {
    hide Run;
    var s := Run(n, initial, supervised, acts);
    var c := s.loops[i].conn;
    RunNext(n, initial, supervised, acts, Drop(c));
    more := Reconnects(n, initial, supervised, acts + [Drop(c)], i);
    RunInv(n, initial, supervised, acts + [Drop(c)]);
    ClosedStaysClosed(n, initial, supervised, acts + [Drop(c)], more, c);
  }

  /** A connection that is no longer open never is again: numbers are not reused. */
  lemma {:induction false} ClosedStaysClosed(
      n: nat, initial: BackendState, supervised: bool, acts: seq<Action>, more: seq<Action>, c: nat)
    requires c < Run(n, initial, supervised, acts).nextConn && c !in Run(n, initial, supervised, acts).isOpen
    ensures var t := Run(n, initial, supervised, acts + more); c < t.nextConn && c !in t.isOpen
  {
    hide Run, ActStep, Wake, Round;
    if more == [] {
      assert acts + more == acts;
    } else {
      var k := |more| - 1;
      ClosedStaysClosed(n, initial, supervised, acts, more[..k], c);
      RunNext(n, initial, supervised, acts + more[..k], more[k]);
      assert acts + more == acts + more[..k] + [more[k]];
      StepKeepsClosed(Run(n, initial, supervised, acts + more[..k]), more[k], supervised, c);
    }
  }

  lemma StepKeepsClosed(s: State, a: Action, supervised: bool, c: nat)
    requires c < s.nextConn && c !in s.isOpen
    ensures var t := Step(s, a, supervised); c < t.nextConn && c !in t.isOpen
  {
  }

  // ----- After an outage -----

  /** The monitor can finish its round, whatever it is in the middle of. */
  lemma {:induction false} MonitorFinishes(n: nat, initial: BackendState, supervised: bool, acts: seq<Action>)
    returns (more: seq<Action>)
    ensures var s, t := Run(n, initial, supervised, acts), Run(n, initial, supervised, acts + more);
            AtHead(t) && t.probes == s.probes
    decreases |Run(n, initial, supervised, acts).todo|, Run(n, initial, supervised, acts).closing,
      Run(n, initial, supervised, acts).broadcasting
  {
    hide Run, LoopStep, Wake;
    var s := Run(n, initial, supervised, acts);
    if AtHead(s) {
      more := [];
      assert acts + more == acts;
    } else {
      var a := Act;
      if s.closing != {} {
        var c :| c in s.closing;
        a := CloseNext(c);
      } else if s.broadcasting {
        a := Broadcast;
      }
      RunNext(n, initial, supervised, acts, a);
      var rest := MonitorFinishes(n, initial, supervised, acts + [a]);
      more := [a] + rest;
      assert acts + more == acts + [a] + rest;
    }
  }

  /** And then perform another one, with either result. */
  lemma NextProbe(n: nat, initial: BackendState, supervised: bool, acts: seq<Action>, ok: bool)
    returns (more: seq<Action>)
    ensures var s, t := Run(n, initial, supervised, acts), Run(n, initial, supervised, acts + more);
            AtHead(t) && t.probes == s.probes + [ok]
  {
    hide Run;
    var a := MonitorFinishes(n, initial, supervised, acts);
    RunNext(n, initial, supervised, acts + a, Probe(ok));
    var b := acts + a + [Probe(ok)];
    var c := MonitorFinishes(n, initial, supervised, b);
    more := a + [Probe(ok)] + c;
    assert acts + more == b + c;
  }

  /** From every run, outage or not: one probe that succeeds, and the monitor's round after it, leave the gate healthy.
      */
  lemma BackendRecovers(n: nat, initial: BackendState, supervised: bool, acts: seq<Action>) returns (more: seq<Action>)
    ensures var s, t := Run(n, initial, supervised, acts), Run(n, initial, supervised, acts + more);
            AtHead(t) && t.view.gate && t.probes == s.probes + [true]
  {
    hide Run, Final, History, ClosedForm;
    more := NextProbe(n, initial, supervised, acts, true);
    HeadsFollowHistory(n, initial, supervised, acts + more);
    TrailingSnoc(Run(n, initial, supervised, acts).probes, true);
  }

  /** So from every run every loop can come to serve again: nobody is locked out by an outage. */
  lemma ComesBack(n: nat, initial: BackendState, supervised: bool, acts: seq<Action>, i: nat)
    requires i < n
    ensures exists more :: Serves(Run(n, initial, supervised, acts + more), i)
  {
    hide Run;
    var a := BackendRecovers(n, initial, supervised, acts);
    LoopsStay(n, initial, supervised, acts + a);
    var b := Reconnects(n, initial, supervised, acts + a, i);
    assert acts + (a + b) == acts + a + b;
  }
}
