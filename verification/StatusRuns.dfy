/** Every interleaving of the status reporter with the goroutine that writes what it reports: runAgent's startup, then
    the health monitor (backend.go:54-76, reporter.go:82-128, main.go:252-347). */
module StatusRuns {
  import opened Trails
  import opened Monitors
  import opened ProbeHistories

  /** The writer's actions that the reporter can see; info is the detected model information. */
  datatype Write = SetCell(state: BackendState) | SetInfo(info: int) | SetHealthy(healthy: bool) | Signal

  datatype Cell = StateCell | InfoCell | HealthCell

  /** Where the reporter is: in its select, or in send, about to read a cell or to post the report. */
  datatype Reporter = Selecting | ReadingInfo | ReadingState | ReadingHealth | Posting

  /** states, infos and healths list every value written, the initial one first; stateReads, infoReads and healthReads
      say which of them the reporter has read; pending: a token is in the channel; probes: every probe result so far. */
  datatype State = State(
    states: seq<BackendState>, infos: seq<int>, healths: seq<bool>, pending: bool,
    todo: seq<Write>, monitoring: bool, view: View, probes: seq<bool>,
    reporter: Reporter, stateReads: seq<nat>, infoReads: seq<nat>, healthReads: seq<nat>)
  {
    predicate Written() { states != [] && infos != [] && healths != [] }

    predicate Healthy() { healths != [] && healths[|healths| - 1] }

    /** What the reporter last read of the health. */
    predicate ReadHealthy() {
      var n := |healthReads|;
      n > 0 && healthReads[n - 1] < |healths| && healths[healthReads[n - 1]]
    }
  }

  /** Startup's writes: the download and boot phases under -deploy-vllm, then the model information. */
  function Startup(deploy: bool, info: int): seq<Write> {
    (if deploy then
       [SetCell(DownloadingModel), Signal, SetCell(Booting), Signal, SetCell(Ready), Signal]
     else [])
    + [SetInfo(info), Signal]
  }

  function Init(deploy: bool, info: int): State {
    State([Starting], [0], [true], false, Startup(deploy, info), false, View(0, true, true, true, Starting),
          [], ReadingInfo, [], [], [])
  }

  /** The visible actions of a round, in order. */
  function Writes(acts: seq<Act>): seq<Write> {
    if acts == [] then []
    else
      match acts[0]
      case SetState(v) => [SetCell(v)] + Writes(acts[1..])
      case SetHealth(h) => [SetHealthy(h)] + Writes(acts[1..])
      case Notify => [Signal] + Writes(acts[1..])
      case _ => Writes(acts[1..])
  }

  datatype Action = WriteNext | StartMonitor | Probe(ok: bool) | Receive | TimerFires | Send

  function Apply(s: State, w: Write): State {
    match w
    case SetCell(v) => s.(states := s.states + [v])
    case SetInfo(i) => s.(infos := s.infos + [i])
    case SetHealthy(h) => s.(healths := s.healths + [h])
    case Signal => s.(pending := true)
  }

  /** One atomic step; a step that is not enabled changes nothing. */
  function Step(s: State, a: Action, supervised: bool): (t: State)
    requires s.Written()
    ensures t.Written()
  {
    match a
    case WriteNext => if s.todo == [] then s else Apply(s.(todo := s.todo[1..]), s.todo[0])
    case StartMonitor =>
      if s.todo == [] && !s.monitoring then
        s.(monitoring := true, view := s.view.(state := s.states[|s.states| - 1]))
      else s
    case Probe(ok) =>
      if s.monitoring && s.todo == [] then
        s.(todo := Writes(Round(s.view, ok, supervised)), view := After(s.view, ok, supervised),
           probes := s.probes + [ok])
      else s
    case Receive => if s.reporter == Selecting && s.pending then s.(reporter := ReadingInfo, pending := false) else s
    case TimerFires => if s.reporter == Selecting then s.(reporter := ReadingInfo) else s
    case Send => SendStep(s)
  }

  /** The next thing send does: read a cell, or post the report and go back to the select. */
  function SendStep(s: State): (t: State)
    requires s.Written()
    ensures t.states == s.states && t.infos == s.infos && t.healths == s.healths
  {
    match s.reporter
    case Selecting => s
    case ReadingInfo => s.(infoReads := s.infoReads + [|s.infos| - 1], reporter := ReadingState)
    case ReadingState => s.(stateReads := s.stateReads + [|s.states| - 1], reporter := ReadingHealth)
    case ReadingHealth => s.(healthReads := s.healthReads + [|s.healths| - 1], reporter := Posting)
    case Posting => s.(reporter := Selecting)
  }

  function Run(deploy: bool, info: int, supervised: bool, acts: seq<Action>): (s: State)
    ensures s.Written()
  {
    if acts == [] then Init(deploy, info)
    else Step(Run(deploy, info, supervised, acts[..|acts| - 1]), acts[|acts| - 1], supervised)
  }

  // ----- The invariant -----

  function Current(s: State, cell: Cell): int {
    match cell
    case StateCell => |s.states| - 1
    case InfoCell => |s.infos| - 1
    case HealthCell => |s.healths| - 1
  }

  /** The write the reporter last read of a cell, -1 before its first read. */
  function LastRead(s: State, cell: Cell): int {
    match cell
    case StateCell => if s.stateReads == [] then -1 else s.stateReads[|s.stateReads| - 1]
    case InfoCell => if s.infoReads == [] then -1 else s.infoReads[|s.infoReads| - 1]
    case HealthCell => if s.healthReads == [] then -1 else s.healthReads[|s.healthReads| - 1]
  }

  predicate WritesTo(w: Write, cell: Cell) {
    match cell
    case StateCell => w.SetCell?
    case InfoCell => w.SetInfo?
    case HealthCell => w.SetHealthy?
  }

  /** The writer is between a write to the cell and the signal that follows it. */
  ghost predicate SignalOwed(todo: seq<Write>, cell: Cell) {
    exists j :: 0 <= j < |todo| && todo[j].Signal? && forall k :: 0 <= k < j ==> !WritesTo(todo[k], cell)
  }

  /** The writes that are followed by a signal of their own: all but the one that says the backend recovered. */
  predicate IsSignalled(w: Write) { !w.Signal? && w != SetHealthy(true) }

  ghost predicate Covered(todo: seq<Write>) {
    forall i, cell :: 0 <= i < |todo| && IsSignalled(todo[i]) && WritesTo(todo[i], cell) ==>
        SignalOwed(todo[i + 1..], cell)
  }

  predicate BeforeReading(r: Reporter, cell: Cell) {
    || r == ReadingInfo
    || (r == ReadingState && cell != InfoCell)
    || (r == ReadingHealth && cell == HealthCell)
  }

  /** A value the reporter has not read is on its way to it. */
  ghost predicate OnItsWay(s: State, cell: Cell) {
    s.pending || SignalOwed(s.todo, cell) || BeforeReading(s.reporter, cell)
  }

  ghost predicate Sorted(xs: seq<nat>, bound: nat) {
    && (forall i, j :: 0 <= i < j < |xs| ==> xs[i] <= xs[j])
    && (forall i :: 0 <= i < |xs| ==> xs[i] < bound)
  }

  /** More of the health was written than one recovery since the reporter last read it. */
  predicate MissesHealth(s: State) {
    LastRead(s, HealthCell) + (if s.Healthy() then 1 else 0) < Current(s, HealthCell)
  }

  predicate Misses(s: State, cell: Cell) {
    if cell == HealthCell then MissesHealth(s) else LastRead(s, cell) != Current(s, cell)
  }

  /** The health changes with every write: a write still to be made is the only one, and to the value it does not have.
      */
  ghost predicate Alternates(healths: seq<bool>, todo: seq<Write>) {
    && healths != [] && (forall k :: 0 <= k < |healths| ==> (healths[k] <==> k % 2 == 0))
    && OneChange(healths[|healths| - 1], todo)
  }

  ghost predicate OneChange(h: bool, todo: seq<Write>) {
    forall j :: 0 <= j < |todo| && todo[j].SetHealthy? ==>
      todo[j].healthy == !h && forall k :: 0 <= k < |todo| && todo[k].SetHealthy? ==> k == j
  }

  ghost predicate Inv(s: State) {
    && s.Written()
    && Covered(s.todo)
    && (forall cell :: Misses(s, cell) ==> OnItsWay(s, cell))
    && Sorted(s.stateReads, |s.states|) && Sorted(s.infoReads, |s.infos|) && Sorted(s.healthReads, |s.healths|)
    && (s.healthReads == [] ==> BeforeReading(s.reporter, HealthCell))
    && Alternates(s.healths, s.todo)
    && HealthAfter(s.Healthy(), s.todo) == s.view.flag
  }

  // ----- The writers signal what they write -----

  lemma {:induction false} WritesConcat(a: seq<Act>, b: seq<Act>)
    ensures Writes(a + b) == Writes(a) + Writes(b)
  {
    if a == [] {
      assert a + b == b;
    } else {
      assert (a + b)[1..] == a[1..] + b;
      WritesConcat(a[1..], b);
    }
  }

  lemma PartsWrite(n: nat)
    ensures Writes([SetFails(n)]) == [] && Writes([]) == []
    ensures Writes([SetState(Ready), Notify]) == [SetCell(Ready), Signal]
    ensures Writes(Recover()) == [SetHealthy(true)]
    ensures Writes(Cut()) == [SetHealthy(false), SetCell(Unhealthy), Signal]
    ensures Writes(Restart()) == [SetCell(Restarting), Signal]
  {
    var c := Cut();
    assert c[1..][1..][1..] == [SetHealth(false), SetState(Unhealthy), Notify];
    assert c[1..][1..][1..][1..] == [SetState(Unhealthy), Notify];
    assert c[1..][1..][1..][1..][1..] == [Notify];
    assert [Notify][1..] == [];
    var r := Recover();
    assert r[1..][1..][1..] == [SetHealth(true)];
    assert [SetHealth(true)][1..] == [];
    var t := Restart();
    assert t[1..][1..] == [SetState(Restarting), Notify];
    assert t[1..][1..][1..] == [Notify];
    assert [SetState(Ready), Notify][1..] == [Notify];
    assert [SetFails(n)][1..] == [];
  }

  /** What the reporter can see of a round. */
  lemma RoundWrites(v: View, ok: bool, supervised: bool)
    ensures Writes(Round(v, ok, supervised))
         == if ok then
              (if v.state != Ready then [SetCell(Ready), Signal] else []) + (if !v.flag then [SetHealthy(true)] else [])
            else (if v.flag && v.fails + 1 >= THRESHOLD then [SetHealthy(false), SetCell(Unhealthy), Signal] else [])
                 + (if supervised && v.fails + 1 == THRESHOLD then [SetCell(Restarting), Signal] else [])
  {
    hide Writes, Recover, Cut, Restart;
    if ok {
      PartsWrite(0);
      var b := if v.state != Ready then [SetState(Ready), Notify] else [];
      var c := if !v.flag then Recover() else [];
      WritesConcat([SetFails(0)] + b, c);
      WritesConcat([SetFails(0)], b);
    } else {
      var f := v.fails + 1;
      PartsWrite(f);
      var b := if v.flag && f >= THRESHOLD then Cut() else [];
      var c := if supervised && f == THRESHOLD then Restart() else [];
      WritesConcat([SetFails(f)] + b, c);
      WritesConcat([SetFails(f)], b);
    }
  }

  lemma OwedAt(todo: seq<Write>, cell: Cell, j: nat)
    requires j < |todo| && todo[j].Signal? && forall k :: 0 <= k < j ==> !WritesTo(todo[k], cell)
    ensures SignalOwed(todo, cell)
  {
  }

  lemma CoveredAppend(a: seq<Write>, b: seq<Write>)
    requires Covered(a) && Covered(b)
    ensures Covered(a + b)
  {
    var todo := a + b;
    forall i, cell | 0 <= i < |todo| && IsSignalled(todo[i]) && WritesTo(todo[i], cell)
      ensures SignalOwed(todo[i + 1..], cell)
    {
      if i < |a| {
        var rest := a[i + 1..];
        var j :| 0 <= j < |rest| && rest[j].Signal? && forall k :: 0 <= k < j ==> !WritesTo(rest[k], cell);
        assert todo[i + 1..] == rest + b;
        OwedAt(todo[i + 1..], cell, j);
      } else {
        assert todo[i + 1..] == b[i - |a| + 1..];
      }
    }
  }

  lemma PairCovered(w: Write)
    requires !w.Signal?
    ensures Covered([w, Signal])
  {
    forall cell: Cell ensures SignalOwed([w, Signal][1..], cell) { OwedAt([w, Signal][1..], cell, 0); }
  }

  lemma CutCovered()
    ensures Covered([SetHealthy(false), SetCell(Unhealthy), Signal])
  {
    var t := [SetHealthy(false), SetCell(Unhealthy), Signal];
    OwedAt(t[1..], HealthCell, 1);
    OwedAt(t[2..], StateCell, 0);
  }

  lemma RoundCovered(v: View, ok: bool, supervised: bool)
    ensures Covered(Writes(Round(v, ok, supervised)))
  {
    hide Writes, Round, Covered;
    RoundWrites(v, ok, supervised);
    CutCovered();
    PairCovered(SetCell(Restarting));
    PairCovered(SetCell(Ready));
    assert Covered([]) && Covered([SetHealthy(true)]) by { OthersCovered(); }
    if ok {
      CoveredAppend(
        if v.state != Ready then [SetCell(Ready), Signal] else [],
        if !v.flag then [SetHealthy(true)] else []);
    } else {
      CoveredAppend(
        if v.flag && v.fails + 1 >= THRESHOLD then [SetHealthy(false), SetCell(Unhealthy), Signal] else [],
        if supervised && v.fails + 1 == THRESHOLD then [SetCell(Restarting), Signal] else []);
    }
  }

  lemma OthersCovered()
    ensures Covered([]) && Covered([SetHealthy(true)])
  {
  }

  lemma StartupCovered(deploy: bool, info: int)
    ensures Covered(Startup(deploy, info))
  {
    hide Covered;
    OthersCovered();
    PairCovered(SetCell(DownloadingModel));
    PairCovered(SetCell(Booting));
    PairCovered(SetCell(Ready));
    PairCovered(SetInfo(info));
    var a, b := [SetCell(DownloadingModel), Signal], [SetCell(Booting), Signal];
    var c, d := [SetCell(Ready), Signal], [SetInfo(info), Signal];
    CoveredAppend(a, b);
    CoveredAppend(a + b, c);
    CoveredAppend(a + b + c, d);
    assert Startup(true, info) == a + b + c + d;
    assert Startup(false, info) == d;
  }

  /** The health cell's value once everything still to be written is. */
  function HealthAfter(h: bool, todo: seq<Write>): bool
    decreases |todo|
  {
    if todo == [] then h else HealthAfter(if todo[0].SetHealthy? then todo[0].healthy else h, todo[1..])
  }

  lemma {:induction false} HealthAfterConcat(h: bool, a: seq<Write>, b: seq<Write>)
    ensures HealthAfter(h, a + b) == HealthAfter(HealthAfter(h, a), b)
    decreases |a|
  {
    if a == [] {
      assert a + b == b;
    } else {
      assert (a + b)[1..] == a[1..] + b;
      HealthAfterConcat(if a[0].SetHealthy? then a[0].healthy else h, a[1..], b);
    }
  }

  lemma PartsHealth(h: bool, v: BackendState)
    ensures HealthAfter(h, []) == h && HealthAfter(h, [SetHealthy(true)])
    ensures HealthAfter(h, [SetCell(v), Signal]) == h
    ensures !HealthAfter(h, [SetHealthy(false), SetCell(Unhealthy), Signal])
  {
    var cut := [SetHealthy(false), SetCell(Unhealthy), Signal];
    assert cut[1..] == [SetCell(Unhealthy), Signal];
    assert [SetCell(Unhealthy), Signal][1..] == [Signal];
    assert [SetCell(v), Signal][1..] == [Signal];
    assert [Signal][1..] == [] && [SetHealthy(true)][1..] == [];
  }

  lemma RoundHealth(v: View, ok: bool, supervised: bool)
    ensures HealthAfter(v.flag, Writes(Round(v, ok, supervised))) == After(v, ok, supervised).flag
  {
    hide Writes, Round, After, HealthAfter;
    RoundWrites(v, ok, supervised);
    AfterIs(v, ok, supervised);
    PartsHealth(v.flag, Ready);
    if ok {
      HealthAfterConcat(v.flag,
        if v.state != Ready then [SetCell(Ready), Signal] else [],
        if !v.flag then [SetHealthy(true)] else []);
    } else {
      PartsHealth(v.flag, Restarting);
      PartsHealth(false, Restarting);
      HealthAfterConcat(v.flag,
        if v.flag && v.fails + 1 >= THRESHOLD then [SetHealthy(false), SetCell(Unhealthy), Signal] else [],
        if supervised && v.fails + 1 == THRESHOLD then [SetCell(Restarting), Signal] else []);
    }
  }

  lemma StartupHealth(deploy: bool, info: int)
    ensures HealthAfter(true, Startup(deploy, info))
  {
    hide HealthAfter;
    var a, b, c := [SetCell(DownloadingModel), Signal], [SetCell(Booting), Signal], [SetCell(Ready), Signal];
    PartsHealth(true, DownloadingModel);
    PartsHealth(true, Booting);
    PartsHealth(true, Ready);
    HealthAfterConcat(true, a, b);
    HealthAfterConcat(true, a + b, c);
    assert a + b + c == [SetCell(DownloadingModel), Signal, SetCell(Booting), Signal, SetCell(Ready), Signal];
    HealthAfterConcat(true, if deploy then a + b + c else [], [SetInfo(info), Signal]);
    InfoHealth(info);
  }

  lemma InfoHealth(info: int)
    ensures HealthAfter(true, [SetInfo(info), Signal])
  {
    assert [SetInfo(info), Signal][1..] == [Signal];
    assert [Signal][1..] == [];
  }

  /** A round writes the health at most once, to the value it does not have. */
  lemma RoundChanges(v: View, ok: bool, supervised: bool)
    ensures OneChange(v.flag, Writes(Round(v, ok, supervised)))
  {
    hide Writes, Round;
    RoundWrites(v, ok, supervised);
  }

  lemma HealthNext(s: State)
    ensures s.todo != [] ==>
              var t := Apply(s.(todo := s.todo[1..]), s.todo[0]);
              t.view == s.view && t.todo == s.todo[1..]
    ensures s.todo == [] ==> HealthAfter(s.Healthy(), s.todo) == s.Healthy()
    ensures s.todo != [] ==>
              HealthAfter(Apply(s.(todo := s.todo[1..]), s.todo[0]).Healthy(), s.todo[1..])
                  == HealthAfter(s.Healthy(), s.todo)
  {
  }

  // ----- Every step keeps the invariant -----

  lemma WriteOwes(s: State, cell: Cell)
    requires Covered(s.todo) && s.todo != []
    ensures Covered(s.todo[1..])
    ensures IsSignalled(s.todo[0]) && WritesTo(s.todo[0], cell) ==> SignalOwed(s.todo[1..], cell)
    ensures SignalOwed(s.todo, cell) && !s.todo[0].Signal? && !WritesTo(s.todo[0], cell) ==>
        SignalOwed(s.todo[1..], cell)
  {
    var rest := s.todo[1..];
    forall i, c | 0 <= i < |rest| && IsSignalled(rest[i]) && WritesTo(rest[i], c) ensures SignalOwed(rest[i + 1..], c) {
      assert s.todo[i + 1 + 1..] == rest[i + 1..];
    }
    if SignalOwed(s.todo, cell) && !s.todo[0].Signal? {
      var j :| 0 <= j < |s.todo| && s.todo[j].Signal? && forall k :: 0 <= k < j ==> !WritesTo(s.todo[k], cell);
      assert rest[j - 1] == s.todo[j];
      OwedAt(rest, cell, j - 1);
    }
  }

  /** A write keeps what a cell misses on its way to the reporter. */
  lemma WriteCell(s: State, cell: Cell)
    requires s.Written() && Covered(s.todo) && s.todo != [] && Alternates(s.healths, s.todo)
    requires Misses(s, cell) ==> OnItsWay(s, cell)
    ensures var t := Apply(s.(todo := s.todo[1..]), s.todo[0]); Misses(t, cell) ==> OnItsWay(t, cell)
  {
    hide Covered, SignalOwed, BeforeReading;
    WriteOwes(s, cell);
    match s.todo[0]
    case SetCell(_) =>
    case SetInfo(_) =>
    case SetHealthy(_) =>
      WriteHealth(s);
      if cell == HealthCell {
        NotOwed(s.todo, cell);
      }
    case Signal =>
  }

  lemma NotOwed(todo: seq<Write>, cell: Cell)
    requires todo != [] && WritesTo(todo[0], cell)
    ensures !SignalOwed(todo, cell)
  {
  }

  lemma WriteAlternates(s: State)
    requires Alternates(s.healths, s.todo) && s.todo != []
    ensures Alternates(Apply(s.(todo := s.todo[1..]), s.todo[0]).healths, s.todo[1..])
  {
    hide OneChange;
    OneChangeNext(s.healths[|s.healths| - 1], s.todo);
    if s.todo[0].SetHealthy? {
      var n := |s.healths| - 1;
      assert s.healths[n] <==> n % 2 == 0;
    }
  }

  lemma OneChangeNext(h: bool, todo: seq<Write>)
    requires OneChange(h, todo) && todo != []
    ensures OneChange(if todo[0].SetHealthy? then todo[0].healthy else h, todo[1..])
    ensures todo[0].SetHealthy? ==> todo[0].healthy == !h
  {
    var rest := todo[1..];
    forall j | 0 <= j < |rest| ensures rest[j] == todo[j + 1] { }
    if todo[0].SetHealthy? {
      forall j | 0 <= j < |rest| ensures !rest[j].SetHealthy? { assert todo[j + 1].SetHealthy? ==> j + 1 == 0; }
    }
  }

  lemma WriteInv(s: State)
    requires Inv(s) && s.todo != []
    ensures Inv(Apply(s.(todo := s.todo[1..]), s.todo[0]))
  {
    hide Covered, SignalOwed, Sorted, OnItsWay, Misses, Alternates, HealthAfter;
    WriteOwes(s, StateCell);
    var t := Apply(s.(todo := s.todo[1..]), s.todo[0]);
    forall cell ensures Misses(t, cell) ==> OnItsWay(t, cell) { WriteCell(s, cell); }
    WriteAlternates(s);
    HealthNext(s);
    SortedGrows(s.stateReads, |s.states|);
    SortedGrows(s.infoReads, |s.infos|);
    SortedGrows(s.healthReads, |s.healths|);
  }

  /** A signalled write of health falls between unhealthy readings only when its signal is still to come. */
  lemma WriteHealth(s: State)
    requires Covered(s.todo) && s.todo != []
    ensures s.todo[0] == SetHealthy(false) ==> SignalOwed(s.todo[1..], HealthCell)
  {
    assert s.todo[0] == SetHealthy(false) ==> WritesTo(s.todo[0], HealthCell);
  }

  lemma SortedGrows(xs: seq<nat>, bound: nat)
    ensures Sorted(xs, bound) ==> Sorted(xs, bound + 1)
    ensures Sorted(xs, bound) && bound > 0 ==> Sorted(xs + [bound - 1], bound)
  {
  }

  lemma StepInv(s: State, a: Action, supervised: bool)
    requires Inv(s)
    ensures Inv(Step(s, a, supervised))
  {
    hide Covered, SignalOwed, Sorted, Round, Writes, After, Apply, SendStep, OneChange, HealthAfter;
    match a
    case WriteNext => if s.todo != [] { WriteInv(s); }
    case StartMonitor => QuietStep(s, Step(s, a, supervised));
    case Probe(ok) =>
      if s.monitoring && s.todo == [] {
        RoundCovered(s.view, ok, supervised);
        HealthNext(s);
        RoundChanges(s.view, ok, supervised);
        RoundHealth(s.view, ok, supervised);
        QuietStep(s, Step(s, a, supervised));
      }
    case Receive => QuietStep(s, Step(s, a, supervised));
    case TimerFires => QuietStep(s, Step(s, a, supervised));
    case Send => SendInv(s);
  }

  /** A step that neither writes a cell nor reads one keeps what is missed on its way. */
  lemma QuietStep(s: State, t: State)
    requires forall cell :: Misses(s, cell) ==> OnItsWay(s, cell)
    requires t.states == s.states && t.infos == s.infos && t.healths == s.healths
    requires t.stateReads == s.stateReads && t.infoReads == s.infoReads && t.healthReads == s.healthReads
    requires t.todo == s.todo || s.todo == []
    requires t.reporter == ReadingInfo || (t.reporter == s.reporter && t.pending == s.pending)
    ensures forall cell :: Misses(t, cell) ==> OnItsWay(t, cell)
  {
    forall cell ensures Misses(t, cell) ==> OnItsWay(t, cell) {
      assert Misses(s, cell) ==> OnItsWay(s, cell);
    }
  }

  lemma SendInv(s: State)
    requires Inv(s)
    ensures Inv(SendStep(s))
  {
    hide Covered, SignalOwed, Sorted, Alternates, HealthAfter;
    forall cell ensures Misses(SendStep(s), cell) ==> OnItsWay(SendStep(s), cell) {
      assert Misses(s, cell) ==> OnItsWay(s, cell);
    }
    SortedGrows(s.stateReads, |s.states|);
    SortedGrows(s.infoReads, |s.infos|);
    SortedGrows(s.healthReads, |s.healths|);
  }

  lemma NothingOwed(cell: Cell)
    ensures !SignalOwed([], cell)
  {
  }

  lemma {:induction false} RunInv(deploy: bool, info: int, supervised: bool, acts: seq<Action>)
    ensures Inv(Run(deploy, info, supervised, acts))
  {
    if acts == [] {
      StartupCovered(deploy, info);
      StartupHealth(deploy, info);
    } else {
      hide Inv, Step;
      RunInv(deploy, info, supervised, acts[..|acts| - 1]);
      StepInv(Run(deploy, info, supervised, acts[..|acts| - 1]), acts[|acts| - 1], supervised);
    }
  }

  // ----- What holds of every run -----

  /** The writer is idle, no token is pending and the reporter is back in its select. */
  predicate Quiet(s: State) { s.todo == [] && !s.pending && s.reporter == Selecting }

  /** No lost final state: whenever the backend state or model information last read is not the current one, or the
      health was written since it was last read and not just by one recovery, a token is pending, or the writer is
      between that write and its signal, or the reporter has yet to read the cell. */
  lemma StaleIsOnItsWay(deploy: bool, info: int, supervised: bool, acts: seq<Action>)
    ensures var s := Run(deploy, info, supervised, acts);
            && (LastRead(s, StateCell) != Current(s, StateCell) ==> OnItsWay(s, StateCell))
            && (LastRead(s, InfoCell) != Current(s, InfoCell) ==> OnItsWay(s, InfoCell))
            && (MissesHealth(s) ==> OnItsWay(s, HealthCell))
  {
    RunInv(deploy, info, supervised, acts);
    var s := Run(deploy, info, supervised, acts);
    assert Misses(s, StateCell) ==> OnItsWay(s, StateCell);
    assert Misses(s, InfoCell) ==> OnItsWay(s, InfoCell);
    assert Misses(s, HealthCell) ==> OnItsWay(s, HealthCell);
  }

  /** So when everything is quiet, however bursts collapsed, the last report carried the final state and information,
      and the final health or, if that is a recovery written after the report read it, the outage before. */
  lemma FinalStateIsReported(deploy: bool, info: int, supervised: bool, acts: seq<Action>)
    ensures var s := Run(deploy, info, supervised, acts);
            Quiet(s) ==>
              && s.stateReads != [] && s.stateReads[|s.stateReads| - 1] == |s.states| - 1
              && s.infoReads != [] && s.infoReads[|s.infoReads| - 1] == |s.infos| - 1
              && s.healthReads != []
              && (var read, last := s.healthReads[|s.healthReads| - 1], |s.healths| - 1;
                  read == last || (read == last - 1 && s.healths[last] && !s.healths[read]))
  {
    hide Run, Covered, Sorted, Misses, Alternates, HealthAfter;
    RunInv(deploy, info, supervised, acts);
    var s := Run(deploy, info, supervised, acts);
    if Quiet(s) {
      forall cell ensures !Misses(s, cell) { NothingMissed(s, cell); }
      AllRead(s);
      HealthRead(s);
    }
  }

  lemma NothingMissed(s: State, cell: Cell)
    requires Quiet(s) && (Misses(s, cell) ==> OnItsWay(s, cell))
    ensures !Misses(s, cell)
  {
    hide Misses;
    NothingOwed(cell);
  }

  lemma AllRead(s: State)
    requires s.Written() && !Misses(s, StateCell) && !Misses(s, InfoCell)
    ensures s.stateReads != [] && s.stateReads[|s.stateReads| - 1] == |s.states| - 1
    ensures s.infoReads != [] && s.infoReads[|s.infoReads| - 1] == |s.infos| - 1
  {
  }

  lemma HealthRead(s: State)
    requires s.healthReads != [] && !Misses(s, HealthCell)
    requires Alternates(s.healths, s.todo) && Sorted(s.healthReads, |s.healths|)
    ensures var read, last := s.healthReads[|s.healthReads| - 1], |s.healths| - 1;
            read == last || (read == last - 1 && s.healths[last] && !s.healths[read])
  {
    hide OneChange;
    var last := |s.healths| - 1;
    assert last > 0 ==> (s.healths[last - 1] <==> (last - 1) % 2 == 0);
  }

  /** The values read never go back in the order of writing. */
  lemma ReadsNeverGoBack(deploy: bool, info: int, supervised: bool, acts: seq<Action>)
    ensures var s := Run(deploy, info, supervised, acts);
            Sorted(s.stateReads, |s.states|) && Sorted(s.infoReads, |s.infos|) && Sorted(s.healthReads, |s.healths|)
  {
    RunInv(deploy, info, supervised, acts);
  }

  const SEND: seq<Action> := [Send, Send, Send, Send]

  function Steps(s: State, acts: seq<Action>, supervised: bool): (t: State)
    requires s.Written()
    ensures t.Written()
  {
    if acts == [] then s else Step(Steps(s, acts[..|acts| - 1], supervised), acts[|acts| - 1], supervised)
  }

  lemma StepsNext(s: State, acts: seq<Action>, a: Action, supervised: bool)
    requires s.Written()
    ensures Steps(s, [], supervised) == s
    ensures Steps(s, acts + [a], supervised) == Step(Steps(s, acts, supervised), a, supervised)
  {
    hide Step;
    assert (acts + [a])[..|acts|] == acts;
  }

  lemma RunNext(deploy: bool, info: int, supervised: bool, acts: seq<Action>, a: Action)
    ensures Run(deploy, info, supervised, acts + [a]) == Step(Run(deploy, info, supervised, acts), a, supervised)
  {
    hide Step;
    assert (acts + [a])[..|acts|] == acts;
  }

  lemma {:induction false} RunSplits(deploy: bool, info: int, supervised: bool, a: seq<Action>, b: seq<Action>)
    ensures Run(deploy, info, supervised, a + b) == Steps(Run(deploy, info, supervised, a), b, supervised)
  {
    hide Run, Steps, Step;
    if b == [] {
      assert a + b == a;
      StepsNext(Run(deploy, info, supervised, a), [], Send, supervised);
    } else {
      var n := |b| - 1;
      RunSplits(deploy, info, supervised, a, b[..n]);
      RunNext(deploy, info, supervised, a + b[..n], b[n]);
      StepsNext(Run(deploy, info, supervised, a), b[..n], b[n], supervised);
      assert b == b[..n] + [b[n]];
      assert a + b == a + b[..n] + [b[n]];
    }
  }

  lemma StepsFour(s: State, a: Action, b: Action, c: Action, d: Action, supervised: bool)
    requires s.Written()
    ensures Steps(s, [a, b, c, d], supervised)
         == Step(Step(Step(Step(s, a, supervised), b, supervised), c, supervised), d, supervised)
  {
    hide Steps, Step;
    assert [a, b, c, d] == [] + [a] + [b] + [c] + [d];
    StepsNext(s, [], a, supervised);
    StepsNext(s, [] + [a], b, supervised);
    StepsNext(s, [] + [a] + [b], c, supervised);
    StepsNext(s, [] + [a] + [b] + [c], d, supervised);
  }

  /** A send that is in progress, or just begun, finishes in four of the reporter's steps. */
  lemma SendFinishes(s: State, supervised: bool)
    requires s.Written() && s.todo == []
    ensures var t := Steps(s, SEND, supervised);
            t.reporter == Selecting && t.pending == s.pending && t.todo == []
  {
    hide Steps;
    StepsFour(s, Send, Send, Send, Send, supervised);
    FourSends(s);
  }

  lemma FourSends(s: State)
    requires s.Written()
    ensures var t := SendStep(SendStep(SendStep(SendStep(s))));
            t.reporter == Selecting && t.pending == s.pending && t.todo == s.todo
  {
    hide SendStep;
    OneSend(s);
    OneSend(SendStep(s));
    OneSend(SendStep(SendStep(s)));
    OneSend(SendStep(SendStep(SendStep(s))));
  }

  function StepsLeft(r: Reporter): nat {
    match r
    case Selecting => 0
    case ReadingInfo => 4
    case ReadingState => 3
    case ReadingHealth => 2
    case Posting => 1
  }

  lemma OneSend(s: State)
    requires s.Written()
    ensures StepsLeft(SendStep(s).reporter) == if s.reporter == Selecting then 0 else StepsLeft(s.reporter) - 1
    ensures SendStep(s).pending == s.pending && SendStep(s).todo == s.todo
    ensures SendStep(s).healths == s.healths && SendStep(s).view == s.view
  {
  }

  /** Once the writer is idle, the reporter alone reaches a quiet state: it finishes the send in progress and, if a
      token is pending, makes one more. */
  lemma ReporterCatchesUp(deploy: bool, info: int, supervised: bool, acts: seq<Action>)
    ensures var s := Run(deploy, info, supervised, acts);
            s.todo == [] ==> Quiet(Run(deploy, info, supervised, acts + SEND + [Receive] + SEND))
  {
    hide Run, Steps;
    var s := Run(deploy, info, supervised, acts);
    if s.todo == [] {
      RunSplits(deploy, info, supervised, acts, SEND);
      SendFinishes(s, supervised);
      var t := Run(deploy, info, supervised, acts + SEND);
      RunSplits(deploy, info, supervised, acts + SEND, [Receive]);
      StepsOne(t, Receive, supervised);
      RunSplits(deploy, info, supervised, acts + SEND + [Receive], SEND);
      SendFinishes(Step(t, Receive, supervised), supervised);
    }
  }

  lemma StepsOne(s: State, a: Action, supervised: bool)
    requires s.Written()
    ensures Steps(s, [a], supervised) == Step(s, a, supervised)
  {
    assert [a][..0] == [];
  }

  /** A heartbeat reads everything as it stands: afterwards nothing, not even a recovery, is missed. */
  lemma HeartbeatCatchesUp(deploy: bool, info: int, supervised: bool, acts: seq<Action>)
    requires Run(deploy, info, supervised, acts).reporter == Selecting
    ensures var s, t := Run(deploy, info, supervised, acts), Run(deploy, info, supervised, acts + [TimerFires] + SEND);
            && t.states == s.states && t.infos == s.infos && t.healths == s.healths && t.reporter == Selecting
            && LastRead(t, StateCell) == Current(t, StateCell) && LastRead(t, InfoCell) == Current(t, InfoCell)
            && LastRead(t, HealthCell) == Current(t, HealthCell) && t.pending == s.pending
  {
    hide Run, Steps;
    var s := Run(deploy, info, supervised, acts);
    RunNext(deploy, info, supervised, acts, TimerFires);
    var u := Run(deploy, info, supervised, acts + [TimerFires]);
    RunSplits(deploy, info, supervised, acts + [TimerFires], SEND);
    StepsFour(u, Send, Send, Send, Send, supervised);
    SendReadsAll(u);
  }

  lemma SendReadsAll(u: State)
    requires u.Written() && u.reporter == ReadingInfo
    ensures var t := SendStep(SendStep(SendStep(SendStep(u))));
            && t.states == u.states && t.infos == u.infos && t.healths == u.healths && t.reporter == Selecting
            && LastRead(t, StateCell) == Current(t, StateCell) && LastRead(t, InfoCell) == Current(t, InfoCell)
            && LastRead(t, HealthCell) == Current(t, HealthCell) && t.pending == u.pending
  {
    var a := SendStep(u);
    var b := SendStep(a);
    assert b.reporter == ReadingHealth && b.infoReads == a.infoReads && LastRead(b, InfoCell) == |u.infos| - 1;
    var c := SendStep(b);
    assert c.reporter == Posting && LastRead(c, StateCell) == |u.states| - 1 && LastRead(c, InfoCell) == |u.infos| - 1;
  }

  // ----- Which states are written, from startup on -----

  /** The states still to be written. */
  function StatesIn(todo: seq<Write>): seq<BackendState> {
    if todo == [] then []
    else StatesIn(todo[..|todo| - 1]) + (if todo[|todo| - 1].SetCell? then [todo[|todo| - 1].state] else [])
  }

  lemma {:induction false} StatesInConcat(a: seq<Write>, b: seq<Write>)
    ensures StatesIn(a + b) == StatesIn(a) + StatesIn(b)
  {
    if b == [] {
      assert a + b == a;
    } else {
      var n := |b| - 1;
      assert (a + b)[..|a| + n] == a + b[..n];
      StatesInConcat(a, b[..n]);
    }
  }

  lemma StatesInOne(w: Write)
    ensures StatesIn([w]) == (if w.SetCell? then [w.state] else []) && StatesIn([]) == []
  {
    assert [w][..0] == [];
  }

  lemma StatesInPair(v: BackendState)
    ensures StatesIn([SetCell(v), Signal]) == [v]
  {
    assert [SetCell(v), Signal] == [SetCell(v)] + [Signal];
    StatesInConcat([SetCell(v)], [Signal]);
    StatesInOne(SetCell(v));
    StatesInOne(Signal);
  }

  lemma StatesInRest(todo: seq<Write>)
    requires todo != []
    ensures StatesIn(todo) == (if todo[0].SetCell? then [todo[0].state] else []) + StatesIn(todo[1..])
  {
    assert todo == [todo[0]] + todo[1..];
    StatesInConcat([todo[0]], todo[1..]);
    StatesInOne(todo[0]);
  }

  lemma StartupStates(deploy: bool, info: int)
    ensures StatesIn(Startup(deploy, info)) == if deploy then [DownloadingModel, Booting, Ready] else []
  {
    hide StatesIn;
    var a, b := [SetCell(DownloadingModel), Signal], [SetCell(Booting), Signal];
    var c, d := [SetCell(Ready), Signal], [SetInfo(info), Signal];
    StatesInPair(DownloadingModel);
    StatesInPair(Booting);
    StatesInPair(Ready);
    StatesInOne(SetInfo(info));
    StatesInOne(Signal);
    StatesInConcat([SetInfo(info)], [Signal]);
    assert d == [SetInfo(info)] + [Signal];
    StatesInConcat(a, b);
    StatesInConcat(a + b, c);
    StatesInConcat(a + b + c, d);
    assert Startup(true, info) == a + b + c + d && Startup(false, info) == d;
  }

  /** The last state a round writes is the one its view has afterwards; a round that writes none leaves it. */
  lemma RoundStates(v: View, ok: bool, supervised: bool)
    ensures var ws := StatesIn(Writes(Round(v, ok, supervised)));
            After(v, ok, supervised).state == if ws == [] then v.state else ws[|ws| - 1]
  {
    hide StatesIn, Writes, Round, After;
    RoundWrites(v, ok, supervised);
    AfterIs(v, ok, supervised);
    StatesInPair(Ready);
    StatesInPair(Unhealthy);
    StatesInPair(Restarting);
    StatesInOne(SetHealthy(ok));
    assert [SetHealthy(false), SetCell(Unhealthy), Signal] == [SetHealthy(false)] + [SetCell(Unhealthy), Signal];
    StatesInConcat([SetHealthy(false)], [SetCell(Unhealthy), Signal]);
    if ok {
      StatesInConcat(
        if v.state != Ready then [SetCell(Ready), Signal] else [],
        if !v.flag then [SetHealthy(true)] else []);
    } else {
      StatesInConcat(
        if v.flag && v.fails + 1 >= THRESHOLD then [SetHealthy(false), SetCell(Unhealthy), Signal] else [],
        if supervised && v.fails + 1 == THRESHOLD then [SetCell(Restarting), Signal] else []);
    }
  }

  /** What startup writes, and then what the monitor's view says; the view is what the probe history prescribes. */
  ghost predicate StatesFollow(s: State, deploy: bool, supervised: bool) {
    Follows(s.states + StatesIn(s.todo), s.monitoring, s.view, s.probes, deploy, supervised)
  }

  /** all: the states written and to be written. */
  ghost predicate Follows(
      all: seq<BackendState>, monitoring: bool, view: View, probes: seq<bool>, deploy: bool, supervised: bool)
  {
    var begin := if deploy then [Starting, DownloadingModel, Booting, Ready] else [Starting];
    && begin <= all
    && (!monitoring ==> all == begin && probes == [] && view == View(0, true, true, true, Starting))
    && (monitoring ==>
          all[|all| - 1] == view.state && view == Final(Start(begin[|begin| - 1]), probes, supervised))
  }

  lemma WriteFollows(s: State, deploy: bool, supervised: bool)
    requires s.Written() && StatesFollow(s, deploy, supervised) && s.todo != []
    ensures StatesFollow(Apply(s.(todo := s.todo[1..]), s.todo[0]), deploy, supervised)
  {
    hide StatesIn, Final, Follows;
    StatesInRest(s.todo);
    var t := Apply(s.(todo := s.todo[1..]), s.todo[0]);
    assert t.states + StatesIn(t.todo) == s.states + StatesIn(s.todo);
  }

  lemma ProbeFollows(s: State, ok: bool, deploy: bool, supervised: bool)
    requires s.Written() && StatesFollow(s, deploy, supervised) && s.monitoring && s.todo == []
    ensures StatesFollow(Step(s, Probe(ok), supervised), deploy, supervised)
  {
    hide StatesIn, Writes, Round, After, Final, Follows;
    StatesInOne(Signal);
    RoundStates(s.view, ok, supervised);
    assert s.states + [] == s.states;
    FollowsRound(s.states, StatesIn(Writes(Round(s.view, ok, supervised))), s.view, s.probes, ok, deploy, supervised);
  }

  lemma FollowsRound(
      all: seq<BackendState>, ws: seq<BackendState>, v: View, probes: seq<bool>, ok: bool,
      deploy: bool, supervised: bool)
    requires Follows(all, true, v, probes, deploy, supervised)
    requires After(v, ok, supervised).state == if ws == [] then v.state else ws[|ws| - 1]
    ensures Follows(all + ws, true, After(v, ok, supervised), probes + [ok], deploy, supervised)
  {
    hide After, Final;
    NextRound(Start(if deploy then Ready else Starting), probes, ok, supervised);
  }

  lemma StartFollows(s: State, deploy: bool, supervised: bool)
    requires s.Written() && StatesFollow(s, deploy, supervised)
    ensures StatesFollow(Step(s, StartMonitor, supervised), deploy, supervised)
  {
    hide StatesIn, Final;
    StatesInOne(Signal);
    NoRounds(Start(if deploy then Ready else Starting), supervised);
    assert s.states + [] == s.states;
  }

  lemma StepFollows(s: State, a: Action, deploy: bool, supervised: bool)
    requires s.Written() && StatesFollow(s, deploy, supervised)
    ensures StatesFollow(Step(s, a, supervised), deploy, supervised)
  {
    hide StatesIn, Writes, Round, After, Final, SendStep, Apply, StatesFollow;
    match a
    case WriteNext => if s.todo != [] { WriteFollows(s, deploy, supervised); }
    case StartMonitor => StartFollows(s, deploy, supervised);
    case Probe(ok) => if s.monitoring && s.todo == [] { ProbeFollows(s, ok, deploy, supervised); }
    case Receive => SameFollows(s, Step(s, a, supervised), deploy, supervised);
    case TimerFires => SameFollows(s, Step(s, a, supervised), deploy, supervised);
    case Send =>
      SendFrame(s);
      SameFollows(s, SendStep(s), deploy, supervised);
  }

  lemma SameFollows(s: State, t: State, deploy: bool, supervised: bool)
    requires s.Written() && StatesFollow(s, deploy, supervised)
    requires t.states == s.states && t.todo == s.todo && t.monitoring == s.monitoring && t.view == s.view
    requires t.probes == s.probes
    ensures StatesFollow(t, deploy, supervised)
  {
    hide Final, Follows;
  }

  lemma SendFrame(s: State)
    requires s.Written()
    ensures var t := SendStep(s);
            t.todo == s.todo && t.monitoring == s.monitoring && t.view == s.view && t.probes == s.probes
  {
  }

  /** In every run the states written begin with those of startup, in order: Starting, and when vLLM is deployed
      DownloadingModel, Booting and Ready. The monitor starts from the last of them, and its view is from then on the
      function of the probe history that the closed form gives. */
  lemma {:induction false} StartupThenMonitor(deploy: bool, info: int, supervised: bool, acts: seq<Action>)
    ensures StatesFollow(Run(deploy, info, supervised, acts), deploy, supervised)
  {
    hide StatesFollow, Step;
    if acts == [] {
      StartsFollowing(deploy, info, supervised);
    } else {
      StartupThenMonitor(deploy, info, supervised, acts[..|acts| - 1]);
      StepFollows(Run(deploy, info, supervised, acts[..|acts| - 1]), acts[|acts| - 1], deploy, supervised);
    }
  }

  lemma StartsFollowing(deploy: bool, info: int, supervised: bool)
    ensures StatesFollow(Init(deploy, info), deploy, supervised)
  {
    hide StatesIn, Startup;
    StartupStates(deploy, info);
  }

  /** So when everything is quiet the state last read is a function of the probes: with r failures at the end,
      Restarting or Unhealthy if r >= 3; otherwise Ready if any probe succeeded; otherwise what startup left. */
  lemma ReportedFollowsProbes(deploy: bool, info: int, supervised: bool, acts: seq<Action>)
    ensures var s := Run(deploy, info, supervised, acts);
            Quiet(s) && s.monitoring ==>
              && s.stateReads != [] && s.stateReads[|s.stateReads| - 1] < |s.states|
              && s.states[s.stateReads[|s.stateReads| - 1]]
                 == (if Trailing(s.probes) >= 3 then (if supervised then Restarting else Unhealthy)
                     else if AnyOk(s.probes) || deploy then Ready
                     else Starting)
  {
    hide Run, StatesIn, History, Trailing, AnyOk, Final;
    var s := Run(deploy, info, supervised, acts);
    FinalStateIsReported(deploy, info, supervised, acts);
    StartupThenMonitor(deploy, info, supervised, acts);
    StatesInOne(Signal);
    MonitorClosedForm(s.probes, if deploy then Ready else Starting, supervised);
  }

  // ----- The writer goes on, whatever the reporter does -----

  /** The writer can finish what it is at by itself. */
  lemma {:induction false} WriterFinishes(deploy: bool, info: int, supervised: bool, acts: seq<Action>)
    returns (more: seq<Action>)
    ensures var s, t := Run(deploy, info, supervised, acts), Run(deploy, info, supervised, acts + more);
            t.todo == [] && t.probes == s.probes && t.monitoring == s.monitoring && t.reporter == s.reporter
    decreases |Run(deploy, info, supervised, acts).todo|
  {
    hide Run;
    if Run(deploy, info, supervised, acts).todo == [] {
      more := [];
      assert acts + more == acts;
    } else {
      RunNext(deploy, info, supervised, acts, WriteNext);
      var rest := WriterFinishes(deploy, info, supervised, acts + [WriteNext]);
      more := [WriteNext] + rest;
      assert acts + more == acts + [WriteNext] + rest;
    }
  }

  /** From every run the monitor can be started, and go through any further probe results. */
  lemma {:induction false} AnyProbes(deploy: bool, info: int, supervised: bool, acts: seq<Action>, results: seq<bool>)
    returns (more: seq<Action>)
    ensures var s, t := Run(deploy, info, supervised, acts), Run(deploy, info, supervised, acts + more);
            t.monitoring && t.todo == [] && t.probes == s.probes + results && t.reporter == s.reporter
    decreases |results|
  {
    hide Run, Writes, Round, After;
    var a := WriterFinishes(deploy, info, supervised, acts);
    RunNext(deploy, info, supervised, acts + a, StartMonitor);
    var b := acts + a + [StartMonitor];
    if results == [] {
      more := a + [StartMonitor];
      assert acts + more == b;
    } else {
      RunNext(deploy, info, supervised, b, Probe(results[0]));
      var rest := AnyProbes(deploy, info, supervised, b + [Probe(results[0])], results[1..]);
      more := a + [StartMonitor] + [Probe(results[0])] + rest;
      assert acts + more == b + [Probe(results[0])] + rest;
      assert results == [results[0]] + results[1..];
    }
  }

  // ----- The health cell is different -----

  /** In every round, a write of the health cell has a signal of its own still to come exactly when it says unhealthy.
      */
  lemma HealthSignalledExactly(v: View, ok: bool, supervised: bool, i: nat)
    requires i < |Writes(Round(v, ok, supervised))| && Writes(Round(v, ok, supervised))[i].SetHealthy?
    ensures var ws := Writes(Round(v, ok, supervised));
            SignalOwed(ws[i + 1..], HealthCell) <==> !ws[i].healthy
  {
    hide Writes, Round;
    RoundWrites(v, ok, supervised);
    var ws := Writes(Round(v, ok, supervised));
    if ok {
      assert i == |ws| - 1;
      assert ws[i + 1..] == [];
    } else {
      assert i == 0;
      OwedAt(ws[1..], HealthCell, 1);
    }
  }

  /** What the health cell will hold after the writes in progress is the monitor's flag. */
  lemma HealthFollowsFlag(deploy: bool, info: int, supervised: bool, acts: seq<Action>)
    ensures var s := Run(deploy, info, supervised, acts); HealthAfter(s.Healthy(), s.todo) == s.view.flag
  {
    RunInv(deploy, info, supervised, acts);
  }

  /** A recovery can be missed until the next heartbeat, from every state in which the monitor is at its loop head in an
      outage and the reporter in its select: the round that recovers signals before it sets the health, so the report
      that signal causes may still read "unhealthy", and nothing else is signalled. */
  lemma RecoveryCanBeMissed(deploy: bool, info: int, supervised: bool, acts: seq<Action>)
    requires var s := Run(deploy, info, supervised, acts); InOutage(s) && s.reporter == Selecting
    ensures exists more ::
              var t := Run(deploy, info, supervised, acts + more); Quiet(t) && t.Healthy() && !t.ReadHealthy()
  {
    hide Run, Steps, Step, Round, Writes, After, HealthAfter;
    var s := Run(deploy, info, supervised, acts);
    HealthFollowsFlag(deploy, info, supervised, acts);
    HealthNext(s);
    var a := AboutToRecover(deploy, info, supervised, acts);
    var u := Run(deploy, info, supervised, acts + a);
    RunSplits(deploy, info, supervised, acts + a, [Receive, TimerFires, Send, Send]);
    StepsFour(u, Receive, TimerFires, Send, Send, supervised);
    var v := Run(deploy, info, supervised, acts + a + [Receive, TimerFires, Send, Send]);
    RunSplits(deploy, info, supervised, acts + a + [Receive, TimerFires, Send, Send],
        [Send, Send, WriteNext, WriteNext]);
    StepsFour(v, Send, Send, WriteNext, WriteNext, supervised);
    ReportsTooEarly(u, supervised);
    SetsTooLate(v, supervised);
    var more := a + [Receive, TimerFires, Send, Send] + [Send, Send, WriteNext, WriteNext];
    assert acts + more == acts + a + [Receive, TimerFires, Send, Send] + [Send, Send, WriteNext, WriteNext];
    assert Quiet(Run(deploy, info, supervised, acts + more));
  }

  /** The monitor is at its loop head and holds the backend to be down. */
  predicate InOutage(s: State) { s.monitoring && s.todo == [] && !s.view.flag }

  /** The recovering round, up to the write of the health. */
  lemma AboutToRecover(deploy: bool, info: int, supervised: bool, acts: seq<Action>) returns (more: seq<Action>)
    requires var s := Run(deploy, info, supervised, acts); InOutage(s) && s.reporter == Selecting && !s.Healthy()
    ensures var u := Run(deploy, info, supervised, acts + more);
            u.todo == [SetHealthy(true)] && !u.Healthy() && u.reporter == Selecting
  {
    hide Run, Round, Writes, After;
    var s := Run(deploy, info, supervised, acts);
    RunNext(deploy, info, supervised, acts, Probe(true));
    RoundWrites(s.view, true, supervised);
    if s.view.state == Ready {
      more := [Probe(true)];
    } else {
      RunNext(deploy, info, supervised, acts + [Probe(true)], WriteNext);
      RunNext(deploy, info, supervised, acts + [Probe(true)] + [WriteNext], WriteNext);
      more := [Probe(true), WriteNext, WriteNext];
      assert acts + more == acts + [Probe(true)] + [WriteNext] + [WriteNext];
      assert Writes(Round(s.view, true, supervised)) == [SetCell(Ready), Signal] + [SetHealthy(true)];
    }
  }

  lemma ReportsTooEarly(u: State, supervised: bool)
    requires u.Written()
    requires u.todo == [SetHealthy(true)] && !u.Healthy() && u.reporter == Selecting
    ensures var v :=
              var reading := Step(Step(u, Receive, supervised), TimerFires, supervised);
              Step(Step(reading, Send, supervised), Send, supervised);
            v.todo == u.todo && !v.Healthy() && !v.pending && v.reporter == ReadingHealth
  {
  }

  lemma SetsTooLate(v: State, supervised: bool)
    requires v.Written()
    requires v.todo == [SetHealthy(true)] && !v.Healthy() && !v.pending && v.reporter == ReadingHealth
    ensures var t :=
              var posted := Step(Step(v, Send, supervised), Send, supervised);
              Step(Step(posted, WriteNext, supervised), WriteNext, supervised);
            Quiet(t) && t.Healthy() && !t.ReadHealthy()
  {
    var t := Step(Step(Step(v, Send, supervised), Send, supervised), WriteNext, supervised);
    assert t.todo == [] && Step(t, WriteNext, supervised) == t;
  }

  /** Such states are reached. */
  lemma OutageIsReached()
    ensures exists acts :: var s := Run(false, 0, false, acts); InOutage(s) && s.reporter == Selecting
  {
    hide Run, Steps, Step, Four;
    var a0: seq<Action> := [];
    var a1 := a0 + [WriteNext, WriteNext, StartMonitor, Probe(false)];
    var a2 := a1 + [Probe(false), Probe(false), WriteNext, WriteNext];
    var a3 := a2 + [WriteNext, Send, Send, Send];
    StartsAtInit();
    FourMore(a0, WriteNext, WriteNext, StartMonitor, Probe(false));
    FourMore(a1, Probe(false), Probe(false), WriteNext, WriteNext);
    FourMore(a2, WriteNext, Send, Send, Send);
    MissedBeginning(Run(false, 0, false, a0));
    MissedCut(Run(false, 0, false, a1));
    MissedReport(Run(false, 0, false, a2));
    RunNext(false, 0, false, a3, Send);
    PostEnds(Run(false, 0, false, a3));
    assert InOutage(Run(false, 0, false, a3 + [Send]));
  }

  lemma PostEnds(s: State)
    requires s.Written() && s.reporter == Posting && InOutage(s)
    ensures var t := Step(s, Send, false); InOutage(t) && t.reporter == Selecting
  {
  }

  lemma StartsAtInit()
    ensures Run(false, 0, false, []) == Init(false, 0)
  {
  }

  lemma FourMore(acts: seq<Action>, a: Action, b: Action, c: Action, d: Action)
    ensures Run(false, 0, false, acts + [a, b, c, d]) == Four(Run(false, 0, false, acts), a, b, c, d)
  {
    hide Run, Steps, Step;
    RunSplits(false, 0, false, acts, [a, b, c, d]);
    StepsFour(Run(false, 0, false, acts), a, b, c, d, false);
  }

  function Four(s: State, a: Action, b: Action, c: Action, d: Action): (t: State)
    requires s.Written()
    ensures t.Written()
  {
    Step(Step(Step(Step(s, a, false), b, false), c, false), d, false)
  }

  /** The intermediate states of that run, where they matter. */
  lemma MissedBeginning(s: State)
    requires s == Init(false, 0)
    ensures var t := Four(s, WriteNext, WriteNext, StartMonitor, Probe(false));
            && t.monitoring && t.todo == [] && t.pending && t.Healthy() && t.reporter == ReadingInfo
            && t.view == View(1, true, true, true, Starting)
  {
    hide Round, Writes, After;
    assert Startup(false, 0) == [SetInfo(0), Signal];
    var v := View(0, true, true, true, Starting);
    RoundWrites(v, false, false);
    AfterIs(v, false, false);
  }

  lemma MissedCut(s: State)
    requires s.Written()
    requires s.monitoring && s.todo == [] && s.pending && s.Healthy() && s.reporter == ReadingInfo
    requires s.view == View(1, true, true, true, Starting)
    ensures var t := Four(s, Probe(false), Probe(false), WriteNext, WriteNext);
            && t.monitoring && t.todo == [Signal] && t.pending && !t.Healthy() && t.reporter == ReadingInfo
            && t.view == View(3, false, false, false, Unhealthy)
  {
    hide Round, Writes, After;
    RoundWrites(s.view, false, false);
    AfterIs(s.view, false, false);
    var v := View(2, true, true, true, Starting);
    RoundWrites(v, false, false);
    AfterIs(v, false, false);
  }

  lemma MissedReport(s: State)
    requires s.Written()
    requires s.monitoring && s.todo == [Signal] && s.pending && !s.Healthy() && s.reporter == ReadingInfo
    ensures var t := Four(s, WriteNext, Send, Send, Send);
            t.monitoring && t.todo == [] && t.pending && !t.Healthy() && t.reporter == Posting && t.view == s.view
  {
  }
}
