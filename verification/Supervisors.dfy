/** vllmSupervisor (vllm.go): the fields its lock guards, and the locked sections of run, kill and status. */
module Supervisors {
  import opened Chat
  import opened Trails

  datatype Reason = Crash | Watchdog

  /** The guarded fields that do not hold times. */
  datatype Core = Core(cmd: Option<nat>, killedByWatchdog: bool, restartCount: nat, lastExit: Option<Reason>)

  /** What the goroutines do to one supervisor, in the order they do it: run's sections for each attempt, and the locked
      sections and signals of kills. */
  datatype Event =
    | Assign(n: nat) | StartOk(n: nat) | Clear(n: nat) | Noted(n: nat)
    | KillLocked(k: nat) | Signalled(k: nat, n: nat) | Exit(n: nat, reason: Reason)

  /** How an attempt ended. */
  datatype End = NotStarted | Ran(reason: Reason)

  /** One round of run's loop. */
  function Cycle(n: nat, end: End): seq<Event> {
    match end
    case NotStarted => [Assign(n), Clear(n)]
    case Ran(reason) => [Assign(n), StartOk(n), Noted(n), Exit(n, reason)]
  }

  /** The rounds of attempts numbered from 0. */
  function Cycles(ends: seq<End>): seq<Event> {
    if ends == [] then [] else Cycles(ends[..|ends| - 1]) + Cycle(|ends| - 1, ends[|ends| - 1])
  }

  // ----- The locked sections, on values -----

  function BeginLaunch(c: Core, attempt: nat): Core { c.(cmd := Some(attempt), killedByWatchdog := false) }

  function ClearCmd(c: Core): Core { c.(cmd := None) }

  function NoteStart(c: Core, firstLaunch: bool): Core {
    if firstLaunch then c else c.(restartCount := c.restartCount + 1)
  }

  function NoteExit(c: Core): Core {
    c.(cmd := None, lastExit := Some(if c.killedByWatchdog then Watchdog else Crash))
  }

  /** hasProcess: whether the current command, if there is one, has a process. */
  function NoteKill(c: Core, hasProcess: bool): Core {
    if c.cmd.Some? && hasProcess then c.(killedByWatchdog := true) else c
  }

  // ----- The same sections as the code performs them -----

  /** A command of one attempt; Start gives it a process. */
  class Cmd {
    const attempt: nat
    var hasProcess: bool

    constructor (attempt: nat)
      ensures this.attempt == attempt && !hasProcess
    {
      this.attempt, hasProcess := attempt, false;
    }
  }

  datatype Status =
    Status(
      running: Option<nat>, uptime: int, restartCount: nat,
      lastRestartAt: Option<int>, lastRestartReason: Option<Reason>)

  class VllmSupervisor {
    var cmd: Cmd?
    var startedAt: int
    var restartCount: nat
    var lastExitAt: Option<int>
    var lastExitReason: Reason
    var killedByWatchdog: bool
    ghost const trail: Trail
    /** What run has done so far. */
    ghost var log: seq<Event>

    ghost function View(): Core
      reads this
    {
      Core(if cmd == null then None else Some(cmd.attempt), killedByWatchdog, restartCount,
           if lastExitAt.None? then None else Some(lastExitReason))
    }

    constructor (ghost trail: Trail)
      ensures View() == Core(None, false, 0, None) && cmd == null && log == [] && this.trail == trail
    {
      cmd, startedAt, restartCount, lastExitAt, lastExitReason, killedByWatchdog := null, 0, 0, None, Crash, false;
      this.trail := trail;
      log := [];
    }

    method Launching(c: Cmd)
      modifies this
      ensures cmd == c && View() == BeginLaunch(old(View()), c.attempt)
      ensures log == old(log) + [Assign(c.attempt)]
    {
      cmd := c;
      killedByWatchdog := false;
      log := log + [Assign(c.attempt)];
    }

    /** cmd.Start, outside the lock; starts: whether it succeeds. */
    method Start(c: Cmd, starts: bool)
      requires cmd == c && !c.hasProcess
      modifies this`log, c
      ensures c.hasProcess == starts && log == old(log) + (if starts then [StartOk(c.attempt)] else [])
    {
      if starts {
        c.hasProcess := true;
        log := log + [StartOk(c.attempt)];
      }
    }

    method StartFailed()
      requires cmd != null
      modifies this
      ensures cmd == null && View() == ClearCmd(old(View()))
      ensures log == old(log) + [Clear(old(cmd.attempt))]
    {
      log := log + [Clear(cmd.attempt)];
      cmd := null;
    }

    method Started(firstLaunch: bool, now: int)
      requires cmd != null
      modifies this
      ensures cmd == old(cmd) && startedAt == now && View() == NoteStart(old(View()), firstLaunch)
      ensures log == old(log) + [Noted(cmd.attempt)]
    {
      startedAt := now;
      if !firstLaunch {
        restartCount := restartCount + 1;
      }
      log := log + [Noted(cmd.attempt)];
    }

    method Exited(now: int)
      requires cmd != null
      modifies this
      ensures cmd == null && lastExitAt == Some(now) && View() == NoteExit(old(View()))
      ensures log == old(log) + [Exit(old(cmd.attempt), if old(killedByWatchdog) then Watchdog else Crash)]
    {
      log := log + [Exit(cmd.attempt, if killedByWatchdog then Watchdog else Crash)];
      cmd := null;
      lastExitAt := Some(now);
      if killedByWatchdog {
        lastExitReason := Watchdog;
      } else {
        lastExitReason := Crash;
      }
    }

    /** One round of run's loop; killed: whether a kill holds the lock while the child runs. */
    method RunOnce(attempt: nat, starts: bool, killed: bool, firstLaunch: bool, startTime: int, exitTime: int)
      returns (stillFirst: bool)
      modifies this
      ensures cmd == null && stillFirst == (firstLaunch && !starts)
      ensures log == old(log) + Cycle(attempt, EndOf(starts, killed))
      ensures restartCount == old(restartCount) + (if starts && !firstLaunch then 1 else 0)
    {
      var c := new Cmd(attempt);
      Launching(c);
      Start(c, starts);
      if !starts {
        StartFailed();
        return firstLaunch;
      }
      Started(firstLaunch, startTime);
      if killed {
        var _ := KillSection();
      }
      Exited(exitTime);
      return false;
    }

    /** The loop, for any number of attempts. */
    method Supervise(starts: seq<bool>, killed: seq<bool>, times: nat -> int)
      requires |killed| == |starts| && log == []
      modifies this
      ensures log == Cycles(EndsOf(starts, killed))
    {
      hide Cycles, Cycle, EndOf;
      var firstLaunch := true;
      NoCycles();
      assert EndsOf(starts[..0], killed[..0]) == [];
      for k := 0 to |starts|
        invariant log == Cycles(EndsOf(starts[..k], killed[..k]))
      {
        firstLaunch := RunOnce(k, starts[k], killed[k], firstLaunch, times(2 * k), times(2 * k + 1));
        assert EndsOf(starts[..k + 1], killed[..k + 1])
            == EndsOf(starts[..k], killed[..k]) + [EndOf(starts[k], killed[k])];
        CyclesSnoc(EndsOf(starts[..k], killed[..k]), EndOf(starts[k], killed[k]));
      }
      assert starts[..|starts|] == starts && killed[..|starts|] == killed;
    }

    /** kill's locked section; what it captured is examined again, unlocked, before the signal. */
    method KillSection() returns (captured: Cmd?)
      modifies this
      ensures captured == cmd == old(cmd) && log == old(log)
      ensures View() == NoteKill(old(View()), cmd != null && cmd.hasProcess)
    {
      captured := cmd;
      if cmd != null && cmd.hasProcess {
        killedByWatchdog := true;
      }
    }

    /** kill, when nobody else holds the lock in between: the runs with concurrent callers are in SupervisorRuns. */
    method Kill() returns (target: Cmd?)
      modifies this, trail
      ensures target == (if cmd != null && cmd.hasProcess then cmd else null) && cmd == old(cmd)
      ensures View() == NoteKill(old(View()), target != null)
      ensures trail.acts == old(trail.acts) + [Act.Kill]
    {
      trail.Note(Act.Kill);
      target := KillSection();
      if target != null && !target.hasProcess {
        target := null;
      }
    }

    method ReportStatus(now: int) returns (st: Status)
      ensures st.restartCount == View().restartCount && st.lastRestartReason == View().lastExit
      ensures st.running == if cmd != null && cmd.hasProcess then View().cmd else None
      ensures st.running.Some? ==> st.uptime == now - startedAt
      ensures st.lastRestartAt == lastExitAt
    {
      st := Status(None, 0, restartCount, None, None);
      if cmd != null && cmd.hasProcess {
        st := st.(running := Some(cmd.attempt), uptime := now - startedAt);
      }
      if lastExitAt.Some? {
        st := st.(lastRestartAt := lastExitAt, lastRestartReason := Some(lastExitReason));
      }
    }
  }

  function EndOf(starts: bool, killed: bool): End {
    if !starts then NotStarted else Ran(if killed then Watchdog else Crash)
  }

  function EndsOf(starts: seq<bool>, killed: seq<bool>): seq<End>
    requires |killed| == |starts|
  {
    seq(|starts|, i requires 0 <= i < |starts| => EndOf(starts[i], killed[i]))
  }

  lemma NoCycles()
    ensures Cycles([]) == []
  {
  }

  lemma CyclesSnoc(ends: seq<End>, e: End)
    ensures Cycles(ends + [e]) == Cycles(ends) + Cycle(|ends|, e)
  {
    assert (ends + [e])[..|ends|] == ends;
  }
}
