/** Every interleaving of the health monitor with N connection loops through the gate (gate.go, connection.go:44-84,
    main.go:380-395, backend.go:205-266). The monitor performs its rounds one atomic action at a time; closing the
    captured connections and broadcasting are steps of their own, outside the gate's lock. */
module GateRuns {
  import opened Trails
  import opened Monitors
  import opened ProbeHistories

  /** Where a connection loop is: before waitHealthy; in the condition's wait set; signalled; past the gate; dialled but
      not registered; between setConn and clearConn, reading or waiting for its handlers; cleared but not yet closed;
      between two attempts. */
  datatype Phase = Entering | Waiting | Woken | Dialing | Dialed | Serving | Draining | Cleared | Resting

  /** passed, registered and cleared: how many cuts there had been when the loop last passed the gate, called setConn
      and called clearConn; late: how often it registered since the last cut. */
  datatype Loop =
    Loop(phase: Phase, conn: nat, handlers: nat, passed: nat, registered: nat, cleared: nat, late: nat)
  {
    predicate HasConn() { phase == Dialed || Registered() || phase == Cleared }

    predicate Registered() { phase == Serving || phase == Draining }

    predicate PastGate() { phase == Dialing || HasConn() }
  }

  /** view.gate is the gate's healthy field; closing holds the connections markUnhealthy still has to close;
      broadcasting: markHealthy has unlocked but not yet broadcast; probes: every probe result so far. */
  datatype State = State(
    loops: seq<Loop>, conns: map<nat, nat>, isOpen: set<nat>, nextConn: nat, cuts: nat,
    view: View, todo: seq<Act>, closing: set<nat>, broadcasting: bool, probes: seq<bool>)

  datatype Action =
    | Enter(i: nat) | Recheck(i: nat) | Dial(i: nat, ok: bool) | SetConn(i: nat)
    | SpawnHandler(i: nat) | FinishHandler(i: nat) | ReadError(i: nat)
    | ClearConn(i: nat) | CloseOwn(i: nat) | Rest(i: nat)
    | Drop(c: nat)
    | Probe(ok: bool) | Act | CloseNext(c: nat) | Broadcast

  function Init(n: nat, initial: BackendState): State {
    State(seq(n, _ => Loop(Entering, 0, 0, 0, 0, 0, 0)), map[], {}, 0, 0, Start(initial), [], {}, false, [])
  }

  predicate AtHead(s: State) { s.todo == [] && s.closing == {} && !s.broadcasting }

  // ----- The steps; one that is not enabled changes nothing -----

  function Put(s: State, i: nat, l: Loop): State
    requires i < |s.loops|
  {
    s.(loops := s.loops[i := l])
  }

  /** The body of waitHealthy's loop, under the lock. */
  function PassOrWait(s: State, i: nat): State
    requires i < |s.loops|
  {
    if s.view.gate then Put(s, i, s.loops[i].(phase := Dialing, passed := s.cuts))
    else Put(s, i, s.loops[i].(phase := Waiting))
  }

  function LoopStep(s: State, a: Action, i: nat): State
    requires i < |s.loops|
  {
    var l := s.loops[i];
    match a
    case Enter(_) => if l.phase == Entering then PassOrWait(s, i) else s
    case Recheck(_) => if l.phase == Woken then PassOrWait(s, i) else s
    case Dial(_, ok) =>
      if l.phase != Dialing then s
      else if ok then
        Put(s, i, l.(phase := Dialed, conn := s.nextConn, handlers := 0))
          .(isOpen := s.isOpen + {s.nextConn}, nextConn := s.nextConn + 1)
      else Put(s, i, l.(phase := Resting))
    case SetConn(_) =>
      if l.phase == Dialed then
        Put(s, i, l.(phase := Serving, registered := s.cuts, late := l.late + 1)).(conns := s.conns[i := l.conn])
      else s
    case SpawnHandler(_) => if l.phase == Serving then Put(s, i, l.(handlers := l.handlers + 1)) else s
    case FinishHandler(_) => if l.Registered() && l.handlers > 0 then Put(s, i, l.(handlers := l.handlers - 1)) else s
    case ReadError(_) => if l.phase == Serving then Put(s, i, l.(phase := Draining)) else s
    case ClearConn(_) =>
      if l.phase == Draining && l.handlers == 0 then
        Put(s, i, l.(phase := Cleared, cleared := s.cuts)).(conns := s.conns - {i})
      else s
    case CloseOwn(_) =>
      if l.phase == Cleared then Put(s, i, l.(phase := Resting)).(isOpen := s.isOpen - {l.conn}) else s
    case Rest(_) => if l.phase == Resting then Put(s, i, l.(phase := Entering)) else s
    case _ => s
  }

  /** One action of the monitor; marking the gate captures what is registered, or leaves a broadcast to be made. */
  function ActStep(s: State): State
    requires s.todo != []
  {
    var a := s.todo[0];
    var t := s.(view := Do(s.view, a), todo := s.todo[1..]);
    if !a.MarkGate? then t
    else if a.healthy then t.(broadcasting := true)
    else t.(closing := s.conns.Values, cuts := s.cuts + 1,
            loops := seq(|s.loops|, i requires 0 <= i < |s.loops| => s.loops[i].(late := 0)))
  }

  function Wake(ls: seq<Loop>): seq<Loop> {
    seq(|ls|, i requires 0 <= i < |ls| => if ls[i].phase == Waiting then ls[i].(phase := Woken) else ls[i])
  }

  function Step(s: State, a: Action, supervised: bool): State {
    match a
    case Drop(c) => s.(isOpen := s.isOpen - {c})
    case Probe(ok) => if AtHead(s) then s.(todo := Round(s.view, ok, supervised), probes := s.probes + [ok]) else s
    case Act => if s.closing == {} && !s.broadcasting && s.todo != [] then ActStep(s) else s
    case CloseNext(c) => if c in s.closing then s.(closing := s.closing - {c}, isOpen := s.isOpen - {c}) else s
    case Broadcast => if s.broadcasting then s.(loops := Wake(s.loops), broadcasting := false) else s
    case _ => if a.i < |s.loops| then LoopStep(s, a, a.i) else s
  }

  function Run(n: nat, initial: BackendState, supervised: bool, acts: seq<Action>): State {
    if acts == [] then Init(n, initial)
    else Step(Run(n, initial, supervised, acts[..|acts| - 1]), acts[|acts| - 1], supervised)
  }

  // ----- The invariant -----

  /** The map holds exactly the loops between setConn and clearConn, each with its own connection. */
  ghost predicate MapExact(s: State) {
    && (forall i: nat :: i in s.conns <==> i < |s.loops| && s.loops[i].Registered())
    && (forall i :: i in s.conns ==> s.conns[i] == s.loops[i].conn)
    && (forall i :: 0 <= i < |s.loops| && s.loops[i].HasConn() ==> s.loops[i].conn < s.nextConn)
    && (forall i, j :: 0 <= i < j < |s.loops| && s.loops[i].HasConn() && s.loops[j].HasConn() ==>
          s.loops[i].conn != s.loops[j].conn)
    && (forall i :: 0 <= i < |s.loops| && s.loops[i].handlers > 0 ==> s.loops[i].Registered())
  }

  ghost predicate Owns(s: State, i: nat, c: nat) {
    i < |s.loops| && s.loops[i].HasConn() && s.loops[i].conn == c
  }

  /** Why a connection may be open while the gate is unhealthy: markUnhealthy has yet to close it; its loop has not
      registered it, or registered it after the cut; or its loop deregistered it before the cut and is about to close
      it. */
  ghost predicate Excused(s: State, i: nat, c: nat)
    requires i < |s.loops|
  {
    || c in s.closing
    || s.loops[i].phase == Dialed
    || (s.loops[i].phase != Dialed && s.loops[i].registered == s.cuts)
    || (s.loops[i].phase == Cleared && s.loops[i].cleared < s.cuts)
  }

  ghost predicate OpenAccounted(s: State) {
    && (forall c :: c in s.isOpen ==> exists i: nat :: Owns(s, i, c))
    && (!s.view.gate ==> forall i: nat, c :: c in s.isOpen && Owns(s, i, c) ==> Excused(s, i, c))
    && (forall c :: c in s.closing ==> c < s.nextConn)
    && (forall c :: c in s.isOpen ==> c < s.nextConn)
  }

  ghost predicate LoopTimes(s: State, l: Loop) {
    && l.passed <= s.cuts && l.registered <= s.cuts && l.cleared <= s.cuts
    && (!s.view.gate && l.PastGate() ==> l.passed < s.cuts)
    && (!s.view.gate ==> l.late <= 1)
    && (!s.view.gate && (l.phase == Dialing || l.phase == Dialed) ==> l.late == 0)
    && (s.view.gate && !s.broadcasting ==> l.phase != Waiting)
  }

  ghost predicate Times(s: State) {
    forall i :: 0 <= i < |s.loops| ==> LoopTimes(s, s.loops[i])
  }

  /** Finishing the round in progress gives the view the probe history prescribes. */
  ghost predicate OnCourse(s: State, initial: BackendState, supervised: bool) {
    && DoAll(s.view, s.todo) == Final(Start(initial), s.probes, supervised)
    && (s.broadcasting ==> s.view.gate) && (s.closing != {} ==> !s.view.gate)
    && MarksAlternate(s)
  }

  /** A gate still to be marked in this round is marked to the value it does not have. */
  ghost predicate MarksAlternate(s: State) {
    forall j :: 0 <= j < |s.todo| && s.todo[j].MarkGate? ==>
      && s.todo[j].healthy == !s.view.gate
      && (forall k :: 0 <= k < |s.todo| && s.todo[k].MarkGate? ==> k == j)
  }

  ghost predicate Inv(s: State, initial: BackendState, supervised: bool) {
    MapExact(s) && OpenAccounted(s) && Times(s) && OnCourse(s, initial, supervised)
  }

  // ----- Every step keeps it -----

  /** Replacing one loop keeps the map exact when its entry follows it and its connection is its own. */
  lemma PutKeepsMap(s: State, i: nat, l: Loop, t: State)
    requires MapExact(s) && i < |s.loops| && t.loops == s.loops[i := l] && t.nextConn >= s.nextConn
    requires t.conns == if l.Registered() then s.conns[i := l.conn] else s.conns - {i}
    requires l.handlers > 0 ==> l.Registered()
    requires l.HasConn() ==> l.conn < t.nextConn
    requires l.HasConn() ==> (s.loops[i].HasConn() && l.conn == s.loops[i].conn) || l.conn >= s.nextConn
    ensures MapExact(t)
  {
    assert forall j :: 0 <= j < |t.loops| && j != i ==> t.loops[j] == s.loops[j];
    forall j: nat ensures j in t.conns <==> j < |t.loops| && t.loops[j].Registered() {
      assert j in s.conns <==> j < |s.loops| && s.loops[j].Registered();
    }
  }

  lemma LoopKeepsMap(s: State, a: Action, i: nat)
    requires MapExact(s) && i < |s.loops|
    ensures MapExact(LoopStep(s, a, i))
  {
    hide MapExact;
    var t := LoopStep(s, a, i);
    if t != s {
      assert s.loops[i].Registered() ==> i in s.conns && s.conns[i] == s.loops[i].conn by { EntryOf(s, i); }
      assert !s.loops[i].Registered() ==> s.conns - {i} == s.conns by { EntryOf(s, i); }
      assert s.loops[i].HasConn() ==> s.loops[i].conn < s.nextConn by { EntryOf(s, i); }
      assert s.loops[i].handlers > 0 ==> s.loops[i].Registered() by { EntryOf(s, i); }
      PutKeepsMap(s, i, t.loops[i], t);
    }
  }

  lemma EntryOf(s: State, i: nat)
    requires MapExact(s) && i < |s.loops|
    ensures s.loops[i].Registered() <==> i in s.conns
    ensures i in s.conns ==> s.conns[i] == s.loops[i].conn
    ensures s.loops[i].HasConn() ==> s.loops[i].conn < s.nextConn
    ensures s.loops[i].handlers > 0 ==> s.loops[i].Registered()
  {
    assert i in s.conns <==> i < |s.loops| && s.loops[i].Registered();
  }

  /** Replacing one loop keeps the open connections accounted for when those it gives up are not open any more and its
      own is excused. */
  lemma PutKeepsOpen(s: State, i: nat, l: Loop, t: State)
    requires OpenAccounted(s) && MapExact(t) && i < |s.loops| && t.loops == s.loops[i := l] && t.nextConn >= s.nextConn
    requires t.view == s.view && t.closing == s.closing && t.cuts == s.cuts
    requires forall c :: c in t.isOpen ==> c in s.isOpen || (c < t.nextConn && l.HasConn() && l.conn == c)
    requires forall c :: c in t.isOpen && Owns(s, i, c) ==> l.HasConn() && l.conn == c
    requires !s.view.gate && l.HasConn() && l.conn in t.isOpen ==> Excused(t, i, l.conn)
    ensures OpenAccounted(t)
  {
    assert forall j :: 0 <= j < |t.loops| && j != i ==> t.loops[j] == s.loops[j];
    forall c | c in t.isOpen ensures exists j: nat :: Owns(t, j, c) {
      if l.HasConn() && l.conn == c {
        assert Owns(t, i, c);
      } else {
        var j: nat :| Owns(s, j, c);
        assert Owns(t, j, c);
      }
    }
    if !s.view.gate {
      forall j: nat, c | c in t.isOpen && Owns(t, j, c) ensures Excused(t, j, c) {
        if j != i {
          assert Owns(s, j, c);
          assert t.loops[j].HasConn() && l.HasConn() ==> t.loops[j].conn != l.conn;
          assert c in s.isOpen;
          assert Excused(s, j, c);
        }
      }
    }
  }

  /** One loop's own step touches no other loop, and what it gives up is closed. */
  lemma LoopStepFrame(s: State, a: Action, i: nat)
    requires i < |s.loops|
    ensures var t := LoopStep(s, a, i);
            && |t.loops| == |s.loops| && t.loops == s.loops[i := t.loops[i]] && t.nextConn >= s.nextConn
            && t.view == s.view && t.closing == s.closing && t.cuts == s.cuts
            && (forall c :: c in t.isOpen ==>
                  c in s.isOpen || (c < t.nextConn && t.loops[i].HasConn() && t.loops[i].conn == c))
            && (s.loops[i].HasConn() && s.loops[i].conn in t.isOpen ==>
                  t.loops[i].HasConn() && t.loops[i].conn == s.loops[i].conn)
  {
  }

  /** And what it owns stays excused. */
  lemma LoopStaysExcused(s: State, a: Action, i: nat)
    requires i < |s.loops|
    requires !s.view.gate && s.loops[i].HasConn() && s.loops[i].conn in s.isOpen ==> Excused(s, i, s.loops[i].conn)
    ensures var t := LoopStep(s, a, i);
            && |t.loops| == |s.loops|
            && (!s.view.gate && t.loops[i].HasConn() && t.loops[i].conn in t.isOpen ==> Excused(t, i, t.loops[i].conn))
  {
  }

  lemma LoopKeepsOpen(s: State, a: Action, i: nat)
    requires MapExact(s) && OpenAccounted(s) && i < |s.loops|
    ensures OpenAccounted(LoopStep(s, a, i))
  {
    hide MapExact, OpenAccounted, LoopStep, Excused;
    LoopKeepsMap(s, a, i);
    OwnExcuse(s, i);
    LoopStepFrame(s, a, i);
    LoopStaysExcused(s, a, i);
    var t := LoopStep(s, a, i);
    PutKeepsOpen(s, i, t.loops[i], t);
  }

  lemma OwnExcuse(s: State, i: nat)
    requires OpenAccounted(s) && i < |s.loops|
    ensures !s.view.gate && s.loops[i].HasConn() && s.loops[i].conn in s.isOpen ==> Excused(s, i, s.loops[i].conn)
  {
    assert s.loops[i].HasConn() ==> Owns(s, i, s.loops[i].conn);
  }

  lemma LoopKeepsTimes(s: State, a: Action, i: nat)
    requires Times(s) && i < |s.loops|
    ensures Times(LoopStep(s, a, i))
  {
  }

  // ----- The monitor's steps -----

  lemma DoFirst(v: View, todo: seq<Act>)
    requires todo != []
    ensures DoAll(Do(v, todo[0]), todo[1..]) == DoAll(v, todo)
  {
    assert todo == [todo[0]] + todo[1..];
    DoAllConcat(v, [todo[0]], todo[1..]);
    DoOne(v, todo[0]);
  }

  lemma OkMarksOnce(v: View, supervised: bool, j: nat)
    requires j < |Round(v, true, supervised)| && Round(v, true, supervised)[j].MarkGate?
    ensures !v.flag && Round(v, true, supervised)[j].healthy && j == if v.state != Ready then 4 else 2
  {
  }

  lemma FailMarksOnce(v: View, supervised: bool, j: nat)
    requires j < |Round(v, false, supervised)| && Round(v, false, supervised)[j].MarkGate?
    ensures v.flag && !Round(v, false, supervised)[j].healthy && j == 2
  {
  }

  /** A round marks the gate at most once, to the value it does not have. */
  lemma RoundMarksOnce(v: View, ok: bool, supervised: bool, j: nat, k: nat)
    requires v.gate == v.flag
    requires j < |Round(v, ok, supervised)| && Round(v, ok, supervised)[j].MarkGate?
    requires k < |Round(v, ok, supervised)| && Round(v, ok, supervised)[k].MarkGate?
    ensures j == k && Round(v, ok, supervised)[j].healthy == !v.gate
  {
    hide Round;
    if ok {
      OkMarksOnce(v, supervised, j);
      OkMarksOnce(v, supervised, k);
    } else {
      FailMarksOnce(v, supervised, j);
      FailMarksOnce(v, supervised, k);
    }
  }

  lemma ProbeInv(s: State, ok: bool, initial: BackendState, supervised: bool)
    requires Inv(s, initial, supervised) && AtHead(s)
    ensures Inv(Step(s, Probe(ok), supervised), initial, supervised)
  {
    hide Round, Final, History, MapExact, LoopTimes;
    var t := Step(s, Probe(ok), supervised);
    NothingDone(s.view);
    NextRound(Start(initial), s.probes, ok, supervised);
    MonitorClosedForm(s.probes, initial, supervised);
    forall j: nat, k: nat | j < |t.todo| && k < |t.todo| && t.todo[j].MarkGate? && t.todo[k].MarkGate?
      ensures j == k && t.todo[j].healthy == !t.view.gate
    {
      RoundMarksOnce(s.view, ok, supervised, j, k);
    }
    SameLoops(s, t);
  }

  /** Steps that only move the monitor along keep what the loops and connections satisfy. */
  lemma SameLoops(s: State, t: State)
    requires t.loops == s.loops && t.conns == s.conns && t.isOpen <= s.isOpen
    requires t.nextConn == s.nextConn && t.cuts == s.cuts
    requires t.view.gate == s.view.gate && t.broadcasting == s.broadcasting && t.closing <= s.closing
    requires s.closing - t.closing !! t.isOpen
    ensures MapExact(s) ==> MapExact(t)
    ensures OpenAccounted(s) ==> OpenAccounted(t)
    ensures Times(s) ==> Times(t)
  {
    if OpenAccounted(s) {
      forall c | c in t.isOpen ensures exists i: nat :: Owns(t, i, c) {
        var i: nat :| Owns(s, i, c);
        assert Owns(t, i, c);
      }
      if !t.view.gate {
        forall i: nat, c | c in t.isOpen && Owns(t, i, c) ensures Excused(t, i, c) {
          assert Owns(s, i, c) && Excused(s, i, c);
        }
      }
    }
  }

  lemma CloseInv(s: State, c: nat, initial: BackendState, supervised: bool)
    requires Inv(s, initial, supervised) && c in s.closing
    ensures Inv(Step(s, CloseNext(c), supervised), initial, supervised)
  {
    hide MapExact, OpenAccounted, Times, MarksAlternate, DoAll, Final;
    SameLoops(s, Step(s, CloseNext(c), supervised));
    assert MarksAlternate(Step(s, CloseNext(c), supervised)) by { MarksFrame(s, Step(s, CloseNext(c), supervised)); }
  }

  lemma MarksFrame(s: State, t: State)
    requires MarksAlternate(s) && t.todo == s.todo && t.view == s.view
    ensures MarksAlternate(t)
  {
  }

  lemma DropInv(s: State, c: nat, initial: BackendState, supervised: bool)
    requires Inv(s, initial, supervised)
    ensures Inv(Step(s, Drop(c), supervised), initial, supervised)
  {
    hide MapExact, OpenAccounted, Times, DoAll, Final, MarksAlternate;
    SameLoops(s, Step(s, Drop(c), supervised));
    MarksFrame(s, Step(s, Drop(c), supervised));
  }

  /** Waking the waiters moves no connection. */
  lemma WakeKeepsConns(s: State, t: State)
    requires t.loops == Wake(s.loops) && t.conns == s.conns && t.isOpen == s.isOpen && t.nextConn == s.nextConn
    requires t.cuts == s.cuts && t.view == s.view && t.closing == s.closing
    ensures MapExact(s) ==> MapExact(t)
    ensures OpenAccounted(s) ==> OpenAccounted(t)
  {
    forall i | 0 <= i < |s.loops|
      ensures t.loops[i].HasConn() == s.loops[i].HasConn() && t.loops[i].Registered() == s.loops[i].Registered()
      ensures t.loops[i].conn == s.loops[i].conn && t.loops[i].handlers == s.loops[i].handlers
    { }
    if OpenAccounted(s) {
      forall c | c in t.isOpen ensures exists i: nat :: Owns(t, i, c) {
        var i: nat :| Owns(s, i, c);
        assert Owns(t, i, c);
      }
      if !t.view.gate {
        forall i: nat, c | c in t.isOpen && Owns(t, i, c) ensures Excused(t, i, c) {
          assert Owns(s, i, c) && Excused(s, i, c);
        }
      }
    }
  }

  lemma WakeKeepsTimes(s: State, t: State)
    requires Times(s) && t.loops == Wake(s.loops) && t.view == s.view && t.cuts == s.cuts && !t.broadcasting
    ensures Times(t)
  {
    forall i | 0 <= i < |t.loops| ensures LoopTimes(t, t.loops[i]) {
      assert LoopTimes(s, s.loops[i]);
    }
  }

  lemma BroadcastInv(s: State, initial: BackendState, supervised: bool)
    requires Inv(s, initial, supervised) && s.broadcasting
    ensures Inv(Step(s, Broadcast, supervised), initial, supervised)
  {
    hide MapExact, OpenAccounted, Times, DoAll, Final, MarksAlternate, Wake;
    var t := Step(s, Broadcast, supervised);
    WakeKeepsConns(s, t);
    WakeKeepsTimes(s, t);
    MarksFrame(s, t);
  }

  /** Taking an action off the list leaves at most the marking it was not. */
  lemma MarksNext(s: State, t: State)
    requires MarksAlternate(s) && s.todo != [] && t.todo == s.todo[1..]
    requires t.view.gate == if s.todo[0].MarkGate? then s.todo[0].healthy else s.view.gate
    ensures MarksAlternate(t)
    ensures s.todo[0].MarkGate? ==> s.todo[0].healthy == !s.view.gate
  {
    forall j | 0 <= j < |t.todo| ensures t.todo[j] == s.todo[j + 1] { }
    if s.todo[0].MarkGate? {
      forall j | 0 <= j < |t.todo| ensures !t.todo[j].MarkGate? {
        assert s.todo[j + 1].MarkGate? ==> j + 1 == 0;
      }
    }
  }

  /** The cut: what is registered is captured, and every loop past the gate passed it earlier. */
  lemma CutKeepsOpen(s: State)
    requires s.todo != [] && s.todo[0] == MarkGate(false) && MapExact(s) && OpenAccounted(s) && Times(s)
    ensures OpenAccounted(ActStep(s))
  {
    var t := ActStep(s);
    forall c | c in t.isOpen ensures exists i: nat :: Owns(t, i, c) {
      var i: nat :| Owns(s, i, c);
      assert Owns(t, i, c);
    }
    forall i: nat, c | c in t.isOpen && Owns(t, i, c) ensures Excused(t, i, c) {
      assert Owns(s, i, c) && LoopTimes(s, s.loops[i]);
      EntryOf(s, i);
      if s.loops[i].Registered() {
        assert s.conns[i] in s.conns.Values;
      }
    }
    forall c | c in t.closing ensures c < t.nextConn {
      var i :| i in s.conns && s.conns[i] == c;
      EntryOf(s, i);
    }
  }

  lemma CutKeepsRest(s: State)
    requires s.todo != [] && s.todo[0] == MarkGate(false)
    ensures MapExact(s) ==> MapExact(ActStep(s))
    ensures Times(s) ==> Times(ActStep(s))
  {
    var t := ActStep(s);
    forall i | 0 <= i < |s.loops| ensures t.loops[i] == s.loops[i].(late := 0) { }
    if Times(s) {
      forall i | 0 <= i < |t.loops| ensures LoopTimes(t, t.loops[i]) {
        assert LoopTimes(s, s.loops[i]);
      }
    }
  }

  lemma ReleaseKeeps(s: State)
    requires s.todo != [] && s.todo[0] == MarkGate(true) && !s.broadcasting
    ensures MapExact(s) ==> MapExact(ActStep(s))
    ensures OpenAccounted(s) ==> OpenAccounted(ActStep(s))
    ensures Times(s) ==> Times(ActStep(s))
  {
    var t := ActStep(s);
    if OpenAccounted(s) {
      forall c | c in t.isOpen ensures exists i: nat :: Owns(t, i, c) {
        var i: nat :| Owns(s, i, c);
        assert Owns(t, i, c);
      }
    }
    if Times(s) {
      forall i | 0 <= i < |t.loops| ensures LoopTimes(t, t.loops[i]) {
        assert LoopTimes(s, s.loops[i]);
      }
    }
  }

  lemma ActInv(s: State, initial: BackendState, supervised: bool)
    requires Inv(s, initial, supervised) && s.closing == {} && !s.broadcasting && s.todo != []
    ensures Inv(ActStep(s), initial, supervised)
  {
    hide MapExact, OpenAccounted, Times, DoAll, Final, MarksAlternate;
    var t := ActStep(s);
    DoFirst(s.view, s.todo);
    MarksNext(s, t);
    if s.todo[0] == MarkGate(false) {
      CutKeepsOpen(s);
      CutKeepsRest(s);
    } else if s.todo[0].MarkGate? {
      ReleaseKeeps(s);
    } else {
      SameLoops(s, t);
    }
  }

  lemma LoopKeepsCourse(s: State, a: Action, i: nat, initial: BackendState, supervised: bool)
    requires OnCourse(s, initial, supervised) && i < |s.loops|
    ensures OnCourse(LoopStep(s, a, i), initial, supervised)
  {
    hide DoAll, Final, MarksAlternate;
    MarksFrame(s, LoopStep(s, a, i));
  }

  lemma StepInv(s: State, a: Action, initial: BackendState, supervised: bool)
    requires Inv(s, initial, supervised)
    ensures Inv(Step(s, a, supervised), initial, supervised)
  {
    hide MapExact, OpenAccounted, Times, OnCourse, LoopStep, ActStep;
    match a
    case Drop(c) => DropInv(s, c, initial, supervised);
    case Probe(ok) => if AtHead(s) { ProbeInv(s, ok, initial, supervised); }
    case Act => if s.closing == {} && !s.broadcasting && s.todo != [] { ActInv(s, initial, supervised); }
    case CloseNext(c) => if c in s.closing { CloseInv(s, c, initial, supervised); }
    case Broadcast => if s.broadcasting { BroadcastInv(s, initial, supervised); }
    case _ =>
      if a.i < |s.loops| {
        LoopKeepsMap(s, a, a.i);
        LoopKeepsOpen(s, a, a.i);
        LoopKeepsTimes(s, a, a.i);
        LoopKeepsCourse(s, a, a.i, initial, supervised);
      }
  }

  lemma InitInv(n: nat, initial: BackendState, supervised: bool)
    ensures Inv(Init(n, initial), initial, supervised)
  {
    NothingDone(Start(initial));
    NoRounds(Start(initial), supervised);
  }

  lemma {:induction false} RunInv(n: nat, initial: BackendState, supervised: bool, acts: seq<Action>)
    ensures Inv(Run(n, initial, supervised, acts), initial, supervised)
  {
    hide Inv, Step;
    if acts == [] {
      InitInv(n, initial, supervised);
    } else {
      RunInv(n, initial, supervised, acts[..|acts| - 1]);
      StepInv(Run(n, initial, supervised, acts[..|acts| - 1]), acts[|acts| - 1], initial, supervised);
    }
  }

  lemma {:induction false} LoopsStay(n: nat, initial: BackendState, supervised: bool, acts: seq<Action>)
    ensures |Run(n, initial, supervised, acts).loops| == n
  {
    if acts != [] {
      LoopsStay(n, initial, supervised, acts[..|acts| - 1]);
      StepKeepsCount(Run(n, initial, supervised, acts[..|acts| - 1]), acts[|acts| - 1], supervised);
    }
  }

  lemma StepKeepsCount(s: State, a: Action, supervised: bool)
    ensures |Step(s, a, supervised).loops| == |s.loops|
  {
  }

  // ----- What holds of every run -----

  /** Once markUnhealthy has closed what it captured, any connection still open during the outage has exactly one owner,
      which passed waitHealthy before the cut, and which has not called setConn yet, or called it after the cut, or had
      called clearConn before the cut and has only its own Close left. */
  lemma OpenDuringOutage(n: nat, initial: BackendState, supervised: bool, acts: seq<Action>, c: nat)
    ensures var s := Run(n, initial, supervised, acts);
            !s.view.gate && s.closing == {} && c in s.isOpen ==>
              exists i: nat :: Owns(s, i, c) && (forall j: nat :: Owns(s, j, c) ==> j == i)
                && s.loops[i].passed < s.cuts
                && (|| s.loops[i].phase == Dialed
                    || s.loops[i].registered == s.cuts
                    || (s.loops[i].phase == Cleared && s.loops[i].cleared < s.cuts))
  {
    hide Run, DoAll, Final;
    RunInv(n, initial, supervised, acts);
    var s := Run(n, initial, supervised, acts);
    if !s.view.gate && s.closing == {} && c in s.isOpen {
      var i: nat :| Owns(s, i, c);
      assert Excused(s, i, c) && LoopTimes(s, s.loops[i]);
      OneOwner(s, i, c);
    }
  }

  lemma OneOwner(s: State, i: nat, c: nat)
    requires MapExact(s) && Owns(s, i, c)
    ensures forall j: nat :: Owns(s, j, c) ==> j == i
  {
  }

  /** In one outage a loop registers at most once, and then not again before the gate is healthy: after registering it
      is not on its way to another setConn. */
  lemma OneLateRegistration(n: nat, initial: BackendState, supervised: bool, acts: seq<Action>, i: nat)
    requires i < n
    ensures var s := Run(n, initial, supervised, acts);
            && i < |s.loops|
            && (!s.view.gate ==> s.loops[i].late <= 1)
            && (!s.view.gate && s.loops[i].late == 1 ==> s.loops[i].phase != Dialing && s.loops[i].phase != Dialed)
  {
    hide Run, DoAll, Final;
    LoopsStay(n, initial, supervised, acts);
    RunInv(n, initial, supervised, acts);
    var s := Run(n, initial, supervised, acts);
    assert LoopTimes(s, s.loops[i]);
  }

  /** A loop gets past waitHealthy only in a step taken while the gate is healthy. */
  lemma StepPasses(s: State, a: Action, supervised: bool, i: nat)
    requires i < |s.loops| && i < |Step(s, a, supervised).loops|
    ensures var t := Step(s, a, supervised);
            && (!s.loops[i].PastGate() && t.loops[i].PastGate() ==> s.view.gate && t.loops[i].passed == s.cuts)
            && (s.loops[i].PastGate() && t.loops[i].PastGate() ==> t.loops[i].passed == s.loops[i].passed)
  {
    hide Do, Round, LoopStep, ActStep;
    match a
    case Act =>
      if s.closing == {} && !s.broadcasting && s.todo != [] {
        ActKeepsLoop(s, i);
      }
    case Broadcast =>
    case Drop(_) =>
    case Probe(_) =>
    case CloseNext(_) =>
    case _ => if a.i < |s.loops| { LoopPasses(s, a, a.i, i); }
  }

  lemma LoopPasses(s: State, a: Action, j: nat, i: nat)
    requires i < |s.loops| && j < |s.loops|
    ensures var t := LoopStep(s, a, j);
            && |t.loops| == |s.loops|
            && (!s.loops[i].PastGate() && t.loops[i].PastGate() ==> s.view.gate && t.loops[i].passed == s.cuts)
            && (s.loops[i].PastGate() && t.loops[i].PastGate() ==> t.loops[i].passed == s.loops[i].passed)
  {
  }

  lemma ActKeepsLoop(s: State, i: nat)
    requires i < |s.loops| && s.todo != []
    ensures |ActStep(s).loops| == |s.loops| && ActStep(s).loops[i] == s.loops[i].(late := ActStep(s).loops[i].late)
  {
  }

  /** After markHealthy has returned no loop is left in the wait set, although the broadcast comes after the unlock: a
      loop that is there while the gate is healthy is about to be woken. */
  lemma NoLostWakeup(n: nat, initial: BackendState, supervised: bool, acts: seq<Action>, i: nat)
    requires i < n
    ensures var s := Run(n, initial, supervised, acts);
            && i < |s.loops|
            && (s.view.gate && s.loops[i].phase == Waiting ==>
                  s.broadcasting && Step(s, Broadcast, supervised).loops[i].phase == Woken)
  {
    hide Run, DoAll, Final;
    LoopsStay(n, initial, supervised, acts);
    RunInv(n, initial, supervised, acts);
    var s := Run(n, initial, supervised, acts);
    assert LoopTimes(s, s.loops[i]);
  }

  /** The map's keys are the loops between setConn and clearConn, so the live count never exceeds the number of loops; a
      connection's entry is there as long as one of its handlers runs. */
  lemma LiveConnections(n: nat, initial: BackendState, supervised: bool, acts: seq<Action>)
    ensures var s := Run(n, initial, supervised, acts);
            && |s.loops| == n && |s.conns| <= n
            && (forall i: nat :: i in s.conns <==> i < n && s.loops[i].Registered())
            && (forall i: nat :: i in s.conns ==> s.conns[i] == s.loops[i].conn)
            && (forall i, j :: i in s.conns && j in s.conns && i != j ==> s.conns[i] != s.conns[j])
            && (forall i: nat :: i < n && s.loops[i].handlers > 0 ==> i in s.conns)
  {
    hide Run, DoAll, Final, OpenAccounted, Times;
    LoopsStay(n, initial, supervised, acts);
    RunInv(n, initial, supervised, acts);
    var s := Run(n, initial, supervised, acts);
    forall i | i in s.conns ensures i in Below(n) { InBelow(n, i); }
    SubsetSize(s.conns.Keys, Below(n));
    assert |s.conns| == |s.conns.Keys|;
  }

  function Below(n: nat): (b: set<nat>)
    ensures |b| == n && forall i :: i in b ==> i < n
  {
    if n == 0 then {} else Below(n - 1) + {n - 1}
  }

  lemma {:induction false} InBelow(n: nat, i: nat)
    requires i < n
    ensures i in Below(n)
  {
    if i < n - 1 {
      InBelow(n - 1, i);
    }
  }

  lemma {:induction false} SubsetSize(a: set<nat>, b: set<nat>)
    requires a <= b
    ensures |a| <= |b|
  {
    if a != {} {
      var x :| x in a;
      SubsetSize(a - {x}, b - {x});
    }
  }

  /** At every loop head of the monitor, in every run, the flag, the shared health and the gate agree, and the whole
      view is the function of the probe history that the closed form gives. */
  lemma HeadsFollowHistory(n: nat, initial: BackendState, supervised: bool, acts: seq<Action>)
    ensures var s := Run(n, initial, supervised, acts);
            AtHead(s) ==>
              && s.view == Final(Start(initial), s.probes, supervised)
              && s.view.flag == s.view.health == s.view.gate == (Trailing(s.probes) < THRESHOLD)
              && ClosedForm(s.view, History(Start(initial), s.probes, supervised), s.probes, initial, supervised)
  {
    hide Run, Final, History, MapExact, OpenAccounted, Times;
    RunInv(n, initial, supervised, acts);
    var s := Run(n, initial, supervised, acts);
    NothingDone(s.view);
    MonitorClosedForm(s.probes, initial, supervised);
  }

  // ----- A connection that stays open through an outage -----

  lemma RunNext(n: nat, initial: BackendState, supervised: bool, acts: seq<Action>, a: Action)
    ensures Run(n, initial, supervised, acts + [a]) == Step(Run(n, initial, supervised, acts), a, supervised)
  {
    assert (acts + [a])[..|acts|] == acts;
  }

  /** One failed probe and the one action of its round, below the threshold. */
  lemma FailOnce(n: nat, acts: seq<Action>)
    requires var s := Run(n, Ready, false, acts); AtHead(s) && s.view.flag && s.view.fails + 1 < THRESHOLD
    ensures var s, t := Run(n, Ready, false, acts), Run(n, Ready, false, acts + [Probe(false)] + [Act]);
            t == s.(view := s.view.(fails := s.view.fails + 1), probes := s.probes + [false])
  {
    hide Run, LoopStep, Wake, Cut, Restart, Recover;
    var s := Run(n, Ready, false, acts);
    RunNext(n, Ready, false, acts, Probe(false));
    RunNext(n, Ready, false, acts + [Probe(false)], Act);
    assert Round(s.view, false, false) == [SetFails(s.view.fails + 1)];
  }

  /** The third failure in a row, up to and including the locked section of markUnhealthy. */
  lemma CutNow(n: nat, acts: seq<Action>)
    requires var s := Run(n, Ready, false, acts);
             AtHead(s) && s.view == View(2, true, true, true, Ready) && s.conns == map[]
    ensures var t := Run(n, Ready, false, acts + [Probe(false)] + [Act] + [Act] + [Act]);
            var s := Run(n, Ready, false, acts);
            && !t.view.gate && t.closing == {} && !t.broadcasting && |t.loops| == |s.loops|
            && t.isOpen == s.isOpen && t.cuts == s.cuts + 1
            && (forall i :: 0 <= i < |s.loops| ==> t.loops[i] == s.loops[i].(late := 0))
  {
    hide Run, LoopStep, Wake, Restart, Recover;
    var s := Run(n, Ready, false, acts);
    RunNext(n, Ready, false, acts, Probe(false));
    RunNext(n, Ready, false, acts + [Probe(false)], Act);
    RunNext(n, Ready, false, acts + [Probe(false)] + [Act], Act);
    RunNext(n, Ready, false, acts + [Probe(false)] + [Act] + [Act], Act);
    assert Round(s.view, false, false) == [SetFails(3)] + Cut() + [];
  }

  /** So "no open connection while unhealthy" is false: a loop past waitHealthy that is still dialling when the gate is
      cut registers an open connection afterwards, and nothing is left to close it. */
  lemma OpenThroughOutage()
    ensures exists acts :: var s := Run(1, Ready, false, acts);
              && !s.view.gate && s.closing == {} && |s.loops| == 1
              && s.loops[0].phase == Serving && s.loops[0].conn in s.isOpen
  {
    hide Run;
    var a0: seq<Action> := [];
    assert Run(1, Ready, false, a0) == Init(1, Ready) by { RunsFromInit(); }
    var a1 := a0 + [Enter(0)];
    RunNext(1, Ready, false, a0, Enter(0));
    var a2 := a1 + [Probe(false)] + [Act];
    FailOnce(1, a1);
    var a3 := a2 + [Probe(false)] + [Act];
    FailOnce(1, a2);
    var a4 := a3 + [Probe(false)] + [Act] + [Act] + [Act];
    CutNow(1, a3);
    var a5 := a4 + [Dial(0, true)];
    RunNext(1, Ready, false, a4, Dial(0, true));
    var a6 := a5 + [SetConn(0)];
    RunNext(1, Ready, false, a5, SetConn(0));
    var s := Run(1, Ready, false, a6);
    assert s.loops[0].phase == Serving;
  }

  lemma RunsFromInit()
    ensures Run(1, Ready, false, []) == Init(1, Ready)
  {
  }
}
