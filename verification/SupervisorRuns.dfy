/** Every interleaving of the supervisor's restart loop with any number of kills and status calls (vllm.go). */
module SupervisorRuns {
  import opened Chat
  import opened Supervisors

  /** Where run is, and with which attempt: about to launch; cmd assigned, Start not returned; Start succeeded, not yet
      noted; waiting for the child; child gone, exit not yet noted; Start failed, cmd not yet cleared. */
  datatype Phase = Top | Assigned(n: nat) | Started(n: nat) | Running(n: nat) | Exiting(n: nat) | StartFailed(n: nat)

  /** A kill: not under way, or between its locked section and its signal. */
  datatype Killer = Off | Captured(cmd: Option<nat>)

  /** processes: the attempts whose command has a process; timed: the attempt whose start time is recorded. */
  datatype State = State(
    phase: Phase, attempts: nat, firstLaunch: bool, core: Core, processes: set<nat>, timed: Option<nat>,
    killers: seq<Killer>, log: seq<Event>)

  /** starts: whether Start succeeds, if that is the next thing run does. */
  datatype Action = RunNext(starts: bool) | KillLock(k: nat) | KillSignal(k: nat)

  function Init(killers: nat): State {
    State(Top, 0, true, Core(None, false, 0, None), {}, None, seq(killers, _ => Off), [])
  }

  function RunStep(s: State, starts: bool): State {
    match s.phase
    case Top =>
      s.(phase := Assigned(s.attempts), attempts := s.attempts + 1,
         core := BeginLaunch(s.core, s.attempts), log := s.log + [Assign(s.attempts)])
    case Assigned(n) =>
      if starts then s.(phase := Started(n), processes := s.processes + {n}, log := s.log + [StartOk(n)])
      else s.(phase := StartFailed(n))
    case StartFailed(n) => s.(phase := Top, core := ClearCmd(s.core), log := s.log + [Clear(n)])
    case Started(n) =>
      s.(phase := Running(n), core := NoteStart(s.core, s.firstLaunch), firstLaunch := false, timed := Some(n),
         log := s.log + [Noted(n)])
    case Running(n) => s.(phase := Exiting(n))
    case Exiting(n) =>
      s.(phase := Top, core := NoteExit(s.core),
         log := s.log + [Exit(n, if s.core.killedByWatchdog then Watchdog else Crash)])
  }

  predicate HasProcess(s: State, cmd: Option<nat>) { cmd.Some? && cmd.value in s.processes }

  function LockStep(s: State, k: nat): State
    requires k < |s.killers|
  {
    s.(core := NoteKill(s.core, HasProcess(s, s.core.cmd)), killers := s.killers[k := Captured(s.core.cmd)],
       log := s.log + [KillLocked(k)])
  }

  function SignalStep(s: State, k: nat, cmd: Option<nat>): State
    requires k < |s.killers|
  {
    s.(killers := s.killers[k := Off], log := s.log + (if HasProcess(s, cmd) then [Signalled(k, cmd.value)] else []))
  }

  /** One atomic step; a step that is not enabled changes nothing. */
  function Step(s: State, a: Action): State {
    match a
    case RunNext(starts) => RunStep(s, starts)
    case KillLock(k) => if k < |s.killers| && s.killers[k].Off? then LockStep(s, k) else s
    case KillSignal(k) => if k < |s.killers| && s.killers[k].Captured? then SignalStep(s, k, s.killers[k].cmd) else s
  }

  function Run(killers: nat, acts: seq<Action>): State {
    if acts == [] then Init(killers) else Step(Run(killers, acts[..|acts| - 1]), acts[|acts| - 1])
  }

  // ----- What the log says -----

  /** The attempt assigned and not yet cleared, by the log. */
  function Current(log: seq<Event>): Option<nat> {
    if log == [] then None
    else
      match log[|log| - 1]
      case Assign(n) => Some(n)
      case Clear(_) => None
      case Exit(_, _) => None
      case _ => Current(log[..|log| - 1])
  }

  function Starts(log: seq<Event>): nat {
    if log == [] then 0 else Starts(log[..|log| - 1]) + (if log[|log| - 1].StartOk? then 1 else 0)
  }

  function Exits(log: seq<Event>): nat {
    if log == [] then 0 else Exits(log[..|log| - 1]) + (if log[|log| - 1].Exit? then 1 else 0)
  }

  function LastExit(log: seq<Event>): Option<Reason> {
    if log == [] then None
    else if log[|log| - 1].Exit? then Some(log[|log| - 1].reason)
    else LastExit(log[..|log| - 1])
  }

  /** Some kill ran its locked section after attempt n started and before position j. */
  ghost predicate KilledBy(log: seq<Event>, n: nat, j: nat) {
    exists m, i :: 0 <= m < i < j <= |log| && log[m] == StartOk(n) && log[i].KillLocked?
  }

  /** Position i is kill k's last locked section before position j. */
  ghost predicate LastLock(log: seq<Event>, k: nat, i: nat, j: nat) {
    i < j <= |log| && log[i] == KillLocked(k) && forall q :: i < q < j ==> log[q] != KillLocked(k)
  }

  // ----- The invariant -----

  predicate Live(p: Phase) { p.Started? || p.Running? || p.Exiting? }

  ghost predicate PhaseAgrees(s: State) {
    && s.core.cmd == Current(s.log)
    && s.core.cmd == (if s.phase.Top? then None else Some(s.phase.n))
    && (!s.phase.Top? ==> s.phase.n == s.attempts - 1)
    && (forall n :: n in s.processes <==> StartOk(n) in s.log)
    && (forall n :: n in s.processes ==> n < s.attempts)
    && (!s.phase.Top? ==> (s.phase.n in s.processes <==> Live(s.phase)))
  }

  /** No exit of the present attempt has been noted. */
  ghost predicate ExitsPast(s: State) {
    forall i :: 0 <= i < |s.log| && s.log[i].Exit? ==>
      s.log[i].n < s.attempts && (!s.phase.Top? ==> s.log[i].n != s.phase.n)
  }

  ghost predicate CountsAgree(s: State) {
    && s.core.restartCount == (if s.firstLaunch then 0 else Starts(s.log) - 1 - (if s.phase.Started? then 1 else 0))
    && (s.firstLaunch <==> Starts(s.log) == (if s.phase.Started? then 1 else 0))
    && Starts(s.log) == Exits(s.log) + (if Live(s.phase) then 1 else 0)
    && s.core.lastExit == LastExit(s.log)
    && (s.phase.Running? || s.phase.Exiting? ==> s.timed == Some(s.phase.n))
    && (s.phase.Started? ==> s.timed != Some(s.phase.n))
    && (s.timed.Some? ==> s.timed.value < s.attempts)
    && (s.phase.Assigned? ==> s.timed != Some(s.phase.n))
  }

  ghost predicate FlagAgrees(s: State) {
    && (s.phase.Assigned? ==> !s.core.killedByWatchdog)
    && (Live(s.phase) ==> (s.core.killedByWatchdog <==> KilledBy(s.log, s.phase.n, |s.log|)))
    && (forall j :: 0 <= j < |s.log| && s.log[j].Exit? ==>
          (s.log[j].reason == Watchdog <==> KilledBy(s.log, s.log[j].n, j)))
  }

  ghost predicate KillersAgree(s: State) {
    && (forall k :: 0 <= k < |s.killers| && s.killers[k].Captured? ==>
          exists i: nat :: LastLock(s.log, k, i, |s.log|) && Current(s.log[..i]) == s.killers[k].cmd)
    && (forall j :: 0 <= j < |s.log| && s.log[j].Signalled? ==> AimedAt(s.log, j))
    && (forall i :: 0 <= i < |s.log| && s.log[i].KillLocked? ==> s.log[i].k < |s.killers|)
  }

  /** The signal at position j went to the attempt that was current when its kill last held the lock, and that attempt
      had started. */
  ghost predicate AimedAt(log: seq<Event>, j: nat)
    requires j < |log| && log[j].Signalled?
  {
    && StartOk(log[j].n) in log[..j]
    && exists i: nat :: LastLock(log, log[j].k, i, j) && Current(log[..i]) == Some(log[j].n)
  }

  /** Attempts are numbered in the order they are assigned. */
  ghost predicate AssignsGrow(s: State) {
    && (forall p, q :: 0 <= p < q < |s.log| && s.log[p].Assign? && s.log[q].Assign? ==> s.log[p].n < s.log[q].n)
    && (forall p :: 0 <= p < |s.log| && s.log[p].Assign? ==> s.log[p].n < s.attempts)
  }

  ghost predicate Inv(s: State) {
    AssignsGrow(s) && ExitsPast(s) && PhaseAgrees(s) && CountsAgree(s) && FlagAgrees(s) && KillersAgree(s)
  }

  // ----- Adding one event -----

  lemma Snoc(log: seq<Event>, e: Event)
    ensures Current(log + [e])
         == (match e case Assign(n) => Some(n) case Clear(_) => None case Exit(_, _) => None case _ => Current(log))
    ensures Starts(log + [e]) == Starts(log) + (if e.StartOk? then 1 else 0)
    ensures Exits(log + [e]) == Exits(log) + (if e.Exit? then 1 else 0)
    ensures LastExit(log + [e]) == if e.Exit? then Some(e.reason) else LastExit(log)
  {
    assert (log + [e])[..|log|] == log;
  }

  lemma KilledSnoc(log: seq<Event>, e: Event, n: nat)
    ensures KilledBy(log + [e], n, |log| + 1) <==> KilledBy(log, n, |log|) || (e.KillLocked? && StartOk(n) in log)
    ensures forall j :: 0 <= j <= |log| ==> (KilledBy(log + [e], n, j) <==> KilledBy(log, n, j))
  {
    var t := log + [e];
    forall j | 0 <= j <= |log| ensures KilledBy(t, n, j) <==> KilledBy(log, n, j) {
      KilledPrefix(log, e, n, j);
    }
    if KilledBy(log, n, |log|) {
      var m, i :| 0 <= m < i < |log| && log[m] == StartOk(n) && log[i].KillLocked?;
      assert t[m] == StartOk(n) && t[i].KillLocked?;
    }
    if e.KillLocked? && StartOk(n) in log {
      var m :| 0 <= m < |log| && log[m] == StartOk(n);
      assert t[m] == StartOk(n) && t[|log|].KillLocked?;
    }
    if KilledBy(t, n, |log| + 1) {
      var m, i :| 0 <= m < i < |log| + 1 && t[m] == StartOk(n) && t[i].KillLocked?;
      assert log[m] == StartOk(n);
      assert i < |log| ==> log[i].KillLocked?;
    }
  }

  lemma KilledPrefix(log: seq<Event>, e: Event, n: nat, j: nat)
    requires j <= |log|
    ensures KilledBy(log + [e], n, j) <==> KilledBy(log, n, j)
  {
    var t := log + [e];
    if KilledBy(log, n, j) {
      var m, i :| 0 <= m < i < j && log[m] == StartOk(n) && log[i].KillLocked?;
      assert t[m] == StartOk(n) && t[i].KillLocked?;
    }
    if KilledBy(t, n, j) {
      var m, i :| 0 <= m < i < j && t[m] == StartOk(n) && t[i].KillLocked?;
      assert log[m] == StartOk(n) && log[i].KillLocked?;
    }
  }

  // ----- Every step keeps the invariant -----

  /** The log after a step: one more event, or none. */
  function Added(s: State, a: Action): seq<Event> {
    Step(s, a).log[|s.log|..]
  }

  lemma StepAdds(s: State, a: Action)
    ensures |Step(s, a).log| >= |s.log| && Step(s, a).log[..|s.log|] == s.log && |Added(s, a)| <= 1
    ensures |Added(s, a)| == 0 ==> Step(s, a).log == s.log
    ensures |Added(s, a)| == 1 ==> Step(s, a).log == s.log + [Added(s, a)[0]]
  {
  }

  lemma RunPhase(s: State, starts: bool)
    requires PhaseAgrees(s)
    ensures PhaseAgrees(RunStep(s, starts))
  {
    hide Current, Starts, Exits, LastExit;
    match s.phase
    case Top => Snoc(s.log, Assign(s.attempts));
    case Assigned(n) => Snoc(s.log, StartOk(n));
    case StartFailed(n) => Snoc(s.log, Clear(n));
    case Started(n) => Snoc(s.log, Noted(n));
    case Running(_) =>
    case Exiting(n) => Snoc(s.log, Exit(n, if s.core.killedByWatchdog then Watchdog else Crash));
  }

  /** What a kill does leaves run's own bookkeeping alone. */
  lemma KillPhase(s: State, t: State, added: seq<Event>)
    requires PhaseAgrees(s) && t.log == s.log + added && |added| <= 1
    requires added != [] ==> added[0].KillLocked? || added[0].Signalled?
    requires t.phase == s.phase && t.core.cmd == s.core.cmd && t.attempts == s.attempts && t.processes == s.processes
    ensures PhaseAgrees(t)
  {
    hide Current;
    if added == [] {
      assert t.log == s.log;
    } else {
      assert added == [added[0]];
      Snoc(s.log, added[0]);
    }
  }

  lemma StepPhase(s: State, a: Action)
    requires PhaseAgrees(s)
    ensures PhaseAgrees(Step(s, a))
  {
    hide PhaseAgrees, RunStep;
    StepAdds(s, a);
    if a.RunNext? {
      RunPhase(s, a.starts);
    } else {
      KillPhase(s, Step(s, a), Added(s, a));
    }
  }

  lemma PhaseNumber(s: State)
    requires PhaseAgrees(s)
    ensures !s.phase.Top? ==> s.phase.n == s.attempts - 1
  {
  }

  lemma StepExits(s: State, a: Action)
    requires ExitsPast(s)
    requires !s.phase.Top? ==> s.phase.n == s.attempts - 1
    ensures ExitsPast(Step(s, a))
  {
    StepAdds(s, a);
    var t := Step(s, a);
    assert forall p :: 0 <= p < |s.log| ==> t.log[p] == s.log[p];
  }

  lemma StepAssigns(s: State, a: Action)
    requires AssignsGrow(s)
    ensures AssignsGrow(Step(s, a))
  {
    hide Current, Starts, Exits, LastExit;
    StepAdds(s, a);
    var t := Step(s, a);
    assert forall p :: 0 <= p < |s.log| ==> t.log[p] == s.log[p];
  }

  lemma StepCounts(s: State, a: Action)
    requires PhaseAgrees(s) && CountsAgree(s)
    ensures CountsAgree(Step(s, a))
  {
    hide Starts, Exits, LastExit, Current;
    StepAdds(s, a);
    if |Added(s, a)| == 1 {
      Snoc(s.log, Added(s, a)[0]);
    }
  }

  lemma StepFlag(s: State, a: Action)
    requires PhaseAgrees(s) && FlagAgrees(s)
    ensures FlagAgrees(Step(s, a))
  {
    hide KilledBy, Current;
    StepAdds(s, a);
    var t := Step(s, a);
    if |Added(s, a)| == 1 {
      var e := Added(s, a)[0];
      forall n: nat
        ensures KilledBy(t.log, n, |t.log|) <==> KilledBy(s.log, n, |s.log|) || (e.KillLocked? && StartOk(n) in s.log)
        ensures forall j :: 0 <= j <= |s.log| ==> (KilledBy(t.log, n, j) <==> KilledBy(s.log, n, j))
      {
        KilledSnoc(s.log, e, n);
      }
      forall j | 0 <= j < |t.log| && t.log[j].Exit?
        ensures t.log[j].reason == Watchdog <==> KilledBy(t.log, t.log[j].n, j)
      {
        KilledSnoc(s.log, e, t.log[j].n);
        if j < |s.log| {
          assert t.log[j] == s.log[j];
        } else {
          assert e == Exit(s.phase.n, if s.core.killedByWatchdog then Watchdog else Crash);
          assert KilledBy(s.log, s.phase.n, |s.log|) <==> s.core.killedByWatchdog;
        }
      }
      if s.phase.Assigned? {
        NotKilledBeforeStart(s.log, s.phase.n);
      }
    }
  }

  lemma NotKilledBeforeStart(log: seq<Event>, n: nat)
    requires StartOk(n) !in log
    ensures !KilledBy(log, n, |log|)
  {
  }

  lemma LocksSnoc(log: seq<Event>, e: Event, k: nat, i: nat, j: nat)
    requires i < j <= |log|
    ensures LastLock(log + [e], k, i, j) <==> LastLock(log, k, i, j)
    ensures LastLock(log, k, i, |log|) && e != KillLocked(k) ==> LastLock(log + [e], k, i, |log| + 1)
    ensures (log + [e])[..i] == log[..i]
  {
    var t := log + [e];
    assert forall q :: 0 <= q < |log| ==> t[q] == log[q];
    if LastLock(t, k, i, j) {
      forall q | i < q < j ensures log[q] != KillLocked(k) { assert t[q] == log[q]; }
    }
  }

  lemma CapturesKept(s: State, t: State, e: Event)
    requires KillersAgree(s) && t.log == s.log + [e] && |t.killers| == |s.killers|
    requires forall k :: 0 <= k < |t.killers| && t.killers[k].Captured? ==>
               || (t.killers[k] == s.killers[k] && e != KillLocked(k))
               || (e == KillLocked(k) && t.killers[k].cmd == Current(s.log))
    requires e.KillLocked? ==> e.k < |s.killers|
    requires e.Signalled? ==> AimedAt(t.log, |s.log|)
    ensures KillersAgree(t)
  {
    hide Current;
    forall k | 0 <= k < |t.killers| && t.killers[k].Captured?
      ensures exists i: nat :: LastLock(t.log, k, i, |t.log|) && Current(t.log[..i]) == t.killers[k].cmd
    {
      if e == KillLocked(k) {
        assert t.log[..|s.log|] == s.log;
        assert LastLock(t.log, k, |s.log|, |t.log|);
      } else {
        var i: nat :| LastLock(s.log, k, i, |s.log|) && Current(s.log[..i]) == s.killers[k].cmd;
        LocksSnoc(s.log, e, k, i, |s.log|);
        assert LastLock(t.log, k, i, |t.log|) && Current(t.log[..i]) == t.killers[k].cmd;
      }
    }
    forall j | 0 <= j < |t.log| && t.log[j].Signalled? ensures AimedAt(t.log, j) {
      if j < |s.log| {
        AimKept(s.log, e, j);
      }
    }
  }

  lemma AimKept(log: seq<Event>, e: Event, j: nat)
    requires j < |log| && log[j].Signalled? && AimedAt(log, j)
    ensures AimedAt(log + [e], j)
  {
    hide Current;
    var t := log + [e];
    var i: nat :| LastLock(log, log[j].k, i, j) && Current(log[..i]) == Some(log[j].n);
    LocksSnoc(log, e, log[j].k, i, j);
    assert t[..j] == log[..j] && t[j] == log[j];
  }

  lemma SignalAims(s: State, k: nat, n: nat)
    requires PhaseAgrees(s) && KillersAgree(s)
    requires k < |s.killers| && s.killers[k] == Captured(Some(n)) && n in s.processes
    ensures AimedAt(s.log + [Signalled(k, n)], |s.log|)
  {
    hide Current;
    var e := Signalled(k, n);
    var i: nat :| LastLock(s.log, k, i, |s.log|) && Current(s.log[..i]) == Some(n);
    LocksSnoc(s.log, e, k, i, |s.log|);
    assert (s.log + [e])[..|s.log|] == s.log;
  }

  lemma StepKillers(s: State, a: Action)
    requires PhaseAgrees(s) && KillersAgree(s)
    ensures KillersAgree(Step(s, a))
  {
    hide Current, LastLock, AimedAt, KillersAgree;
    StepAdds(s, a);
    var t := Step(s, a);
    if |Added(s, a)| == 1 {
      if a.KillSignal? {
        SignalAims(s, a.k, s.killers[a.k].cmd.value);
      }
      CapturesKept(s, t, Added(s, a)[0]);
    } else {
      FewerCaptured(s, t);
    }
  }

  lemma FewerCaptured(s: State, t: State)
    requires KillersAgree(s) && t.log == s.log && |t.killers| == |s.killers|
    requires forall k :: 0 <= k < |t.killers| && t.killers[k].Captured? ==> t.killers[k] == s.killers[k]
    ensures KillersAgree(t)
  {
  }

  lemma {:induction false} RunInv(killers: nat, acts: seq<Action>)
    ensures Inv(Run(killers, acts))
  {
    hide AssignsGrow, ExitsPast, PhaseAgrees, CountsAgree, FlagAgrees, KillersAgree, Step;
    if acts == [] {
      InitInv(killers);
    } else {
      var s, a := Run(killers, acts[..|acts| - 1]), acts[|acts| - 1];
      RunInv(killers, acts[..|acts| - 1]);
      PhaseNumber(s);
      StepExits(s, a);
      StepAssigns(s, a);
      StepPhase(s, a);
      StepCounts(s, a);
      StepFlag(s, a);
      StepKillers(s, a);
    }
  }

  lemma InitInv(killers: nat)
    ensures Inv(Init(killers))
  {
  }

  // ----- What holds of every run -----

  /** Exit attribution never leaks between launches: an exit is put down to the watchdog if and only if some kill ran
      its locked section after that attempt's successful start and before that exit was noted. */
  lemma ExitAttribution(killers: nat, acts: seq<Action>, j: nat)
    ensures var log := Run(killers, acts).log;
            j < |log| && log[j].Exit? ==> (log[j].reason == Watchdog <==> KilledBy(log, log[j].n, j))
  {
    hide AssignsGrow, Run, PhaseAgrees, CountsAgree, KillersAgree;
    RunInv(killers, acts);
  }

  lemma {:induction false} CurrentWasAssigned(log: seq<Event>, n: nat)
    requires Current(log) == Some(n)
    ensures exists p :: 0 <= p < |log| && log[p] == Assign(n)
  {
    var k := |log| - 1;
    if log[k] != Assign(n) {
      CurrentWasAssigned(log[..k], n);
      var p :| 0 <= p < k && log[..k][p] == Assign(n);
      assert log[p] == Assign(n);
    } else {
      assert log[k] == Assign(n);
    }
  }

  /** A kill signals the attempt that was current when it last held the lock, and never a younger one: every attempt
      assigned after that lock, before or after the signal, is a later one. */
  lemma SignalHitsCaptured(killers: nat, acts: seq<Action>, j: nat)
    ensures var log := Run(killers, acts).log;
            j < |log| && log[j].Signalled? ==>
              && StartOk(log[j].n) in log[..j]
              && exists i: nat :: LastLock(log, log[j].k, i, j) && Current(log[..i]) == Some(log[j].n)
                   && (forall q :: i <= q < |log| && log[q].Assign? ==> log[q].n > log[j].n)
  {
    hide Run, PhaseAgrees, CountsAgree, FlagAgrees, Current;
    RunInv(killers, acts);
    var log := Run(killers, acts).log;
    if j < |log| && log[j].Signalled? {
      assert AimedAt(log, j);
      var i: nat :| LastLock(log, log[j].k, i, j) && Current(log[..i]) == Some(log[j].n);
      CurrentWasAssigned(log[..i], log[j].n);
      var p :| 0 <= p < i && log[..i][p] == Assign(log[j].n);
      assert log[p] == Assign(log[j].n);
    }
  }

  // ----- What run itself does, whoever else holds the lock in between -----

  predicate IsOwn(e: Event) { !e.KillLocked? && !e.Signalled? }

  /** run's own entries of the log. */
  function Own(log: seq<Event>): seq<Event> {
    if log == [] then []
    else Own(log[..|log| - 1]) + (if IsOwn(log[|log| - 1]) then [log[|log| - 1]] else [])
  }

  lemma OwnSnoc(log: seq<Event>, e: Event)
    ensures Own(log + [e]) == Own(log) + (if IsOwn(e) then [e] else [])
  {
    assert (log + [e])[..|log|] == log;
  }

  /** The part of the present attempt's cycle that is done. */
  function Begun(p: Phase): seq<Event> {
    match p
    case Top => []
    case Assigned(n) => [Assign(n)]
    case StartFailed(n) => [Assign(n)]
    case Started(n) => [Assign(n), StartOk(n)]
    case Running(n) => [Assign(n), StartOk(n), Noted(n)]
    case Exiting(n) => [Assign(n), StartOk(n), Noted(n)]
  }

  /** ends says how the attempts before the present one ended. */
  predicate InCycles(s: State, ends: seq<End>) {
    && |ends| == (if s.phase.Top? then s.attempts else s.attempts - 1)
    && (!s.phase.Top? ==> s.phase.n == |ends|)
    && Own(s.log) == Cycles(ends) + Begun(s.phase)
  }

  lemma RunCycles(s: State, starts: bool, ends: seq<End>) returns (next: seq<End>)
    requires InCycles(s, ends)
    ensures InCycles(RunStep(s, starts), next)
  {
    hide Own, Cycles;
    next := ends;
    match s.phase
    case Top => OwnSnoc(s.log, Assign(s.attempts));
    case Assigned(n) => OwnSnoc(s.log, StartOk(n));
    case StartFailed(n) =>
      OwnSnoc(s.log, Clear(n));
      next := ends + [NotStarted];
      CyclesSnoc(ends, NotStarted);
    case Started(n) => OwnSnoc(s.log, Noted(n));
    case Running(_) =>
    case Exiting(n) =>
      var reason := if s.core.killedByWatchdog then Watchdog else Crash;
      OwnSnoc(s.log, Exit(n, reason));
      next := ends + [Ran(reason)];
      CyclesSnoc(ends, Ran(reason));
  }

  /** In every run, run's own sections are the cycles of its attempts, one after the other and numbered in order. */
  lemma {:induction false} OwnSectionsInCycles(killers: nat, acts: seq<Action>)
    ensures exists ends :: InCycles(Run(killers, acts), ends)
  {
    hide InCycles, RunStep;
    if acts == [] {
      StartsInCycles(killers);
      assert InCycles(Run(killers, acts), []);
    } else {
      var s, a := Run(killers, acts[..|acts| - 1]), acts[|acts| - 1];
      OwnSectionsInCycles(killers, acts[..|acts| - 1]);
      var ends :| InCycles(s, ends);
      if a.RunNext? {
        var next := RunCycles(s, a.starts, ends);
        assert InCycles(Run(killers, acts), next);
      } else {
        KillCycles(s, a, ends);
        assert InCycles(Run(killers, acts), ends);
      }
    }
  }

  lemma StartsInCycles(killers: nat)
    ensures InCycles(Init(killers), [])
  {
  }

  lemma KillCycles(s: State, a: Action, ends: seq<End>)
    requires !a.RunNext? && InCycles(s, ends)
    ensures InCycles(Step(s, a), ends)
  {
    hide Own, Cycles;
    StepAdds(s, a);
    if |Added(s, a)| == 1 {
      OwnSnoc(s.log, Added(s, a)[0]);
    }
  }

  /** The counters: restarts are the successful starts but one, once the start is noted; recorded exits lag successful
      starts by at most one, and by one exactly while an attempt is live. */
  lemma Counters(killers: nat, acts: seq<Action>)
    ensures var s := Run(killers, acts);
            && (!s.phase.Started? ==> s.core.restartCount == if Starts(s.log) == 0 then 0 else Starts(s.log) - 1)
            && Exits(s.log) <= Starts(s.log) <= Exits(s.log) + 1
            && (Starts(s.log) == Exits(s.log) + 1 <==> Live(s.phase))
            && s.core.lastExit == LastExit(s.log)
  {
    hide AssignsGrow, Run, PhaseAgrees, FlagAgrees, KillersAgree;
    RunInv(killers, acts);
  }

  /** status reports an attempt as running exactly while it has started and its exit is not noted; the uptime it then
      reports is that attempt's own if and only if run is past its post-start section. */
  lemma StatusIsCurrent(killers: nat, acts: seq<Action>, n: nat)
    ensures var s := Run(killers, acts);
            && ((s.core.cmd == Some(n) && HasProcess(s, s.core.cmd)) <==> (Live(s.phase) && s.phase.n == n))
            && (s.core.cmd == Some(n) && HasProcess(s, s.core.cmd) ==>
                  StartOk(n) in s.log && (forall i :: 0 <= i < |s.log| && s.log[i].Exit? ==> s.log[i].n != n))
            && (s.core.cmd == Some(n) && HasProcess(s, s.core.cmd) ==> (s.timed == Some(n) <==> !s.phase.Started?))
  {
    hide AssignsGrow, Run, FlagAgrees, KillersAgree;
    RunInv(killers, acts);
  }

  // ----- What a kill does, and that run goes on -----

  lemma Next(killers: nat, acts: seq<Action>, a: Action)
    ensures Run(killers, acts + [a]) == Step(Run(killers, acts), a)
  {
    hide Step;
    assert (acts + [a])[..|acts|] == acts;
  }

  /** A kill that takes the lock is noted, captures the attempt that is current, and raises the flag exactly when that
      attempt has started. */
  lemma LockExactly(killers: nat, acts: seq<Action>, k: nat)
    requires k < |Run(killers, acts).killers| && Run(killers, acts).killers[k].Off?
    ensures var s, t := Run(killers, acts), Run(killers, acts + [KillLock(k)]);
            && t.log == s.log + [KillLocked(k)] && |t.killers| == |s.killers|
            && t.killers[k] == Captured(Current(s.log))
            && (t.core.killedByWatchdog <==>
                  s.core.killedByWatchdog || (Current(s.log).Some? && StartOk(Current(s.log).value) in s.log))
  {
    hide Run, Current, CountsAgree, FlagAgrees, KillersAgree, AssignsGrow;
    RunInv(killers, acts);
    Next(killers, acts, KillLock(k));
  }

  lemma OneLastLock(log: seq<Event>, k: nat, i: nat, j: nat)
    requires LastLock(log, k, i, |log|) && LastLock(log, k, j, |log|)
    ensures i == j
  {
  }

  /** The other half of a kill: it signals attempt n if and only if n was current when this kill last held the lock and
      has started by now; otherwise it signals nothing. */
  lemma SignalExactly(killers: nat, acts: seq<Action>, k: nat)
    requires k < |Run(killers, acts).killers| && Run(killers, acts).killers[k].Captured?
    ensures var s, t := Run(killers, acts), Run(killers, acts + [KillSignal(k)]);
            && (t.log == s.log || exists n: nat :: t.log == s.log + [Signalled(k, n)])
            && (forall n: nat :: t.log == s.log + [Signalled(k, n)] <==> Aims(s.log, k, n) && StartOk(n) in s.log)
            && |t.killers| == |s.killers| && t.killers[k] == Off
  {
    hide Run, Current, CountsAgree, FlagAgrees, AssignsGrow;
    RunInv(killers, acts);
    Next(killers, acts, KillSignal(k));
    var s, t := Run(killers, acts), Run(killers, acts + [KillSignal(k)]);
    var cmd := s.killers[k].cmd;
    var i: nat :| LastLock(s.log, k, i, |s.log|) && Current(s.log[..i]) == cmd;
    forall n: nat ensures Aims(s.log, k, n) <==> cmd == Some(n) {
      if j: nat :| LastLock(s.log, k, j, |s.log|) && Current(s.log[..j]) == Some(n) {
        OneLastLock(s.log, k, i, j);
      }
    }
    if HasProcess(s, cmd) {
      assert t.log == s.log + [Signalled(k, cmd.value)];
      forall n: nat ensures t.log == s.log + [Signalled(k, n)] <==> cmd == Some(n) {
        assert t.log[|s.log|] == Signalled(k, cmd.value);
      }
    } else {
      assert t.log == s.log;
      forall n: nat ensures t.log != s.log + [Signalled(k, n)] { assert |t.log| == |s.log|; }
    }
  }

  /** Attempt n was current when kill k last held the lock. */
  ghost predicate Aims(log: seq<Event>, k: nat, n: nat) {
    exists i: nat :: LastLock(log, k, i, |log|) && Current(log[..i]) == Some(n)
  }

  function StepsToTop(p: Phase): nat {
    match p
    case Top => 0
    case StartFailed(_) => 1
    case Exiting(_) => 1
    case Running(_) => 2
    case Started(_) => 3
    case Assigned(_) => 4
  }

  /** Whatever state the loop is in, it comes round by its own steps and can launch the next attempt. */
  lemma {:induction false} ComesRound(killers: nat, acts: seq<Action>) returns (more: seq<Action>)
    ensures forall a :: a in more ==> a.RunNext?
    ensures var s, t := Run(killers, acts), Run(killers, acts + more);
            && t.phase == Running(s.attempts) && t.core.cmd == Some(s.attempts)
            && s.attempts in t.processes && StartOk(s.attempts) in t.log
    decreases StepsToTop(Run(killers, acts).phase)
  {
    hide Run;
    var s := Run(killers, acts);
    Next(killers, acts, RunNext(true));
    if s.phase.Top? {
      var b := acts + [RunNext(true)];
      Next(killers, b, RunNext(true));
      Next(killers, b + [RunNext(true)], RunNext(true));
      more := [RunNext(true), RunNext(true), RunNext(true)];
      assert acts + more == b + [RunNext(true)] + [RunNext(true)];
      assert Run(killers, acts + more).log[|s.log| + 1] == StartOk(s.attempts);
    } else {
      var rest := ComesRound(killers, acts + [RunNext(true)]);
      more := [RunNext(true)] + rest;
      assert acts + more == acts + [RunNext(true)] + rest;
    }
  }

  /** An attempt that does not start is cleared, and the loop is back at its top. */
  lemma FailedStartIsCleared(killers: nat, acts: seq<Action>)
    requires Run(killers, acts).phase.Assigned?
    ensures var s, t := Run(killers, acts), Run(killers, acts + [RunNext(false)] + [RunNext(true)]);
            && t.phase == Top && t.log == s.log + [Clear(s.phase.n)] && t.core.cmd == None
            && t.core.restartCount == s.core.restartCount && t.processes == s.processes
  {
    hide Run;
    Next(killers, acts, RunNext(false));
    Next(killers, acts + [RunNext(false)], RunNext(true));
  }

  // ----- Signals and attributions can differ -----

  lemma Beginning()
    ensures Run(1, []) == Init(1)
  {
  }

  /** A kill that held the lock before Start returned, and looks at the process again afterwards, signals the child
      without having set the flag: the exit is put down to a crash. */
  lemma SignalledYetCrash()
    ensures exists acts :: var log := Run(1, acts).log;
              |log| > 0 && log[|log| - 1] == Exit(0, Crash) && Signalled(0, 0) in log
  {
    hide Run;
    Beginning();
    var a1 := [] + [RunNext(true)];
    Next(1, [], RunNext(true));
    var a2 := a1 + [KillLock(0)];
    Next(1, a1, KillLock(0));
    var a3 := a2 + [RunNext(true)];
    Next(1, a2, RunNext(true));
    var a4 := a3 + [KillSignal(0)];
    Next(1, a3, KillSignal(0));
    var a5 := a4 + [RunNext(true)];
    Next(1, a4, RunNext(true));
    var a6 := a5 + [RunNext(true)];
    Next(1, a5, RunNext(true));
    var a7 := a6 + [RunNext(true)];
    Next(1, a6, RunNext(true));
    assert Run(1, a4).log == [Assign(0), KillLocked(0), StartOk(0), Signalled(0, 0)];
    assert Run(1, a7).log == [Assign(0), KillLocked(0), StartOk(0), Signalled(0, 0), Noted(0), Exit(0, Crash)];
    assert Run(1, a7).log[3] == Signalled(0, 0);
  }

  /** A child that exits by itself between a kill's locked section and its signal is put down to the watchdog. */
  lemma CrashedYetWatchdog()
    ensures exists acts :: var log := Run(1, acts).log;
              |log| > 0 && log[|log| - 1] == Exit(0, Watchdog) && forall i :: 0 <= i < |log| ==> !log[i].Signalled?
  {
    hide Run;
    Beginning();
    var a1 := [] + [RunNext(true)];
    Next(1, [], RunNext(true));
    var a2 := a1 + [RunNext(true)];
    Next(1, a1, RunNext(true));
    var a3 := a2 + [RunNext(true)];
    Next(1, a2, RunNext(true));
    var a4 := a3 + [KillLock(0)];
    Next(1, a3, KillLock(0));
    var a5 := a4 + [RunNext(true)];
    Next(1, a4, RunNext(true));
    var a6 := a5 + [RunNext(true)];
    Next(1, a5, RunNext(true));
    assert Run(1, a6).log == [Assign(0), StartOk(0), Noted(0), KillLocked(0), Exit(0, Watchdog)];
  }
}
