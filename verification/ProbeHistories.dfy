/** The monitor's state, reports and kills as functions of the history of probe results (backend.go:205-266). */
module ProbeHistories {
  import opened Trails
  import opened Monitors

  /** The number of failures at the end of a history. */
  function Trailing(probes: seq<bool>): nat {
    if probes == [] || probes[|probes| - 1] then 0 else 1 + Trailing(probes[..|probes| - 1])
  }

  predicate AnyOk(probes: seq<bool>) { exists i :: 0 <= i < |probes| && probes[i] }

  /** The lengths of the maximal runs of failures, in order: a failure lengthens the last run when the probe before it
      failed too, and otherwise begins a new one. */
  function FailureRuns(probes: seq<bool>): (runs: seq<nat>)
    ensures Trailing(probes) > 0 ==> runs != [] && runs[|runs| - 1] == Trailing(probes)
  {
    if probes == [] then []
    else
      var n := |probes| - 1;
      var runs := FailureRuns(probes[..n]);
      if probes[n] then runs
      else if Trailing(probes[..n]) == 0 then runs + [1]
      else runs[..|runs| - 1] + [runs[|runs| - 1] + 1]
  }

  lemma RunsSnoc(p: seq<bool>, ok: bool)
    ensures Trailing(p + [ok]) == if ok then 0 else Trailing(p) + 1
    ensures FailureRuns(p + [ok])
         == if ok then FailureRuns(p)
            else if Trailing(p) == 0 then FailureRuns(p) + [1]
            else FailureRuns(p)[..|FailureRuns(p)| - 1] + [FailureRuns(p)[|FailureRuns(p)| - 1] + 1]
  {
    TrailingSnoc(p, ok);
    hide Trailing;
    var t := p + [ok];
    assert t[..|p|] == p && t[|t| - 1] == ok;
  }

  lemma TrailingSnoc(p: seq<bool>, ok: bool)
    ensures Trailing(p + [ok]) == if ok then 0 else Trailing(p) + 1
  {
    assert (p + [ok])[..|p|] == p;
  }

  lemma NoRuns()
    ensures FailureRuns([]) == [] && Trailing([]) == 0
  {
  }

  /** A success separates runs: the runs of a history are those before it, then those after it. */
  lemma {:induction false} SuccessSeparates(before: seq<bool>, after: seq<bool>)
    ensures FailureRuns(before + [true] + after) == FailureRuns(before) + FailureRuns(after)
    ensures Trailing(before + [true] + after) == Trailing(after)
  {
    hide FailureRuns, Trailing;
    NoRuns();
    var p := before + [true];
    RunsSnoc(before, true);
    if after == [] {
      assert p + after == p;
    } else {
      var n := |after| - 1;
      SuccessSeparates(before, after[..n]);
      RunsSnoc(p + after[..n], after[n]);
      RunsSnoc(after[..n], after[n]);
      assert p + after == p + after[..n] + [after[n]];
      assert after == after[..n] + [after[n]];
    }
  }

  /** Failures alone are one run. */
  lemma {:induction false} FailuresAreOneRun(probes: seq<bool>)
    requires probes != [] && forall i :: 0 <= i < |probes| ==> !probes[i]
    ensures FailureRuns(probes) == [|probes|] && Trailing(probes) == |probes|
  {
    var n := |probes| - 1;
    if n > 0 {
      FailuresAreOneRun(probes[..n]);
    } else {
      assert probes[..0] == [];
    }
  }

  function ThirdsOf(runs: seq<nat>): nat {
    if runs == [] then 0 else ThirdsOf(runs[..|runs| - 1]) + runs[|runs| - 1] / 3
  }

  /** How many runs reached the threshold. */
  function Outages(runs: seq<nat>): nat {
    if runs == [] then 0 else Outages(runs[..|runs| - 1]) + (if runs[|runs| - 1] >= 3 then 1 else 0)
  }

  function Kills(acts: seq<Act>): nat {
    if acts == [] then 0 else Kills(acts[..|acts| - 1]) + (if acts[|acts| - 1].Kill? then 1 else 0)
  }

  /** The health reports sent, in order. */
  function Reports(acts: seq<Act>): seq<bool> {
    if acts == [] then []
    else
      var a := acts[|acts| - 1];
      Reports(acts[..|acts| - 1]) + (if a.ReportHealth? then [a.healthy] else [])
  }

  function Start(state: BackendState): View { View(0, true, true, true, state) }

  // ----- The two readings of an action list -----

  lemma {:induction false} KillsConcat(a: seq<Act>, b: seq<Act>)
    ensures Kills(a + b) == Kills(a) + Kills(b) && Reports(a + b) == Reports(a) + Reports(b)
  {
    if b == [] {
      assert a + b == a;
    } else {
      assert (a + b)[..|a + b| - 1] == a + b[..|b| - 1];
      KillsConcat(a, b[..|b| - 1]);
    }
  }

  lemma OneAct(a: Act)
    ensures Kills([a]) == (if a.Kill? then 1 else 0) && Reports([a]) == if a.ReportHealth? then [a.healthy] else []
  {
    assert [a][..0] == [];
  }

  lemma Nothing()
    ensures Kills([]) == 0 && Reports([]) == []
  {
  }

  lemma PairOf(a: Act, b: Act)
    requires !a.Kill? && !b.Kill? && !a.ReportHealth? && !b.ReportHealth?
    ensures Kills([a, b]) == 0 && Reports([a, b]) == []
  {
    assert [a, b] == [a] + [b];
    KillsConcat([a], [b]);
    OneAct(a);
    OneAct(b);
  }

  lemma PartsReport()
    ensures Kills(Recover()) == 0 && Reports(Recover()) == [true]
    ensures Kills(Cut()) == 0 && Reports(Cut()) == [false]
    ensures Kills(Restart()) == 1 && Reports(Restart()) == []
  {
    hide Kills, Reports;
    var r, c, t := Recover(), Cut(), Restart();
    assert r == [r[0]] + ([r[1], r[2]] + [r[3]]);
    assert c == [c[0]] + ([c[1], c[2]] + ([c[3], c[4]] + [c[5]]));
    assert t == [t[0]] + ([t[1], t[2]] + [t[3]]);
    KillsConcat([r[0]], [r[1], r[2]] + [r[3]]);
    KillsConcat([r[1], r[2]], [r[3]]);
    PairOf(r[1], r[2]);
    OneAct(r[0]);
    OneAct(r[3]);
    KillsConcat([c[0]], [c[1], c[2]] + ([c[3], c[4]] + [c[5]]));
    KillsConcat([c[1], c[2]], [c[3], c[4]] + [c[5]]);
    KillsConcat([c[3], c[4]], [c[5]]);
    PairOf(c[1], c[2]);
    PairOf(c[3], c[4]);
    OneAct(c[0]);
    OneAct(c[5]);
    KillsConcat([t[0]], [t[1], t[2]] + [t[3]]);
    KillsConcat([t[1], t[2]], [t[3]]);
    PairOf(t[1], t[2]);
    OneAct(t[0]);
    OneAct(t[3]);
  }

  /** What one round reports and kills. */
  lemma RoundReports(v: View, ok: bool, supervised: bool)
    ensures Reports(Round(v, ok, supervised))
         == if ok && !v.flag then [true] else if !ok && v.flag && v.fails + 1 >= THRESHOLD then [false] else []
    ensures Kills(Round(v, ok, supervised)) == if !ok && supervised && v.fails + 1 == THRESHOLD then 1 else 0
  {
    hide Kills, Reports, Recover, Cut, Restart;
    PartsReport();
    Nothing();
    if ok {
      var a := [SetFails(0)];
      var b := if v.state != Ready then [SetState(Ready), Notify] else [];
      var c := if !v.flag then Recover() else [];
      OneAct(SetFails(0));
      PairOf(SetState(Ready), Notify);
      KillsConcat(a + b, c);
      KillsConcat(a, b);
    } else {
      var f := v.fails + 1;
      var b := if v.flag && f >= THRESHOLD then Cut() else [];
      var c := if supervised && f == THRESHOLD then Restart() else [];
      OneAct(SetFails(f));
      KillsConcat([SetFails(f)] + b, c);
      KillsConcat([SetFails(f)], b);
    }
  }

  // ----- Closed forms over every history -----

  lemma ThirdsSnoc(runs: seq<nat>, n: nat)
    ensures ThirdsOf(runs + [n]) == ThirdsOf(runs) + n / THRESHOLD
    ensures Outages(runs + [n]) == Outages(runs) + (if n >= THRESHOLD then 1 else 0)
  {
    assert (runs + [n])[..|runs|] == runs;
  }

  /** What one more probe does to the runs: its effect on the kills due and on the outages begun. */
  lemma RunsNext(probes: seq<bool>, ok: bool)
    ensures var p := probes + [ok];
            && Trailing(p) == (if ok then 0 else Trailing(probes) + 1)
            && (AnyOk(p) <==> AnyOk(probes) || ok)
            && ThirdsOf(FailureRuns(p))
               == ThirdsOf(FailureRuns(probes)) + (if !ok && (Trailing(probes) + 1) % THRESHOLD == 0 then 1 else 0)
            && Outages(FailureRuns(p))
               == Outages(FailureRuns(probes)) + (if !ok && Trailing(probes) + 1 == THRESHOLD then 1 else 0)
  {
    hide FailureRuns, Trailing, ThirdsOf, Outages, AnyOk;
    AnyOkNext(probes, ok);
    RunsSnoc(probes, ok);
    if !ok {
      var runs := FailureRuns(probes);
      if Trailing(probes) == 0 {
        ThirdsSnoc(runs, 1);
      } else {
        var n := |runs| - 1;
        assert runs == runs[..n] + [runs[n]];
        ThirdsSnoc(runs[..n], runs[n]);
        ThirdsSnoc(runs[..n], runs[n] + 1);
      }
    }
  }

  lemma AnyOkNext(probes: seq<bool>, ok: bool)
    ensures AnyOk(probes + [ok]) <==> AnyOk(probes) || ok
  {
    var p := probes + [ok];
    if AnyOk(probes) {
      var i :| 0 <= i < |probes| && probes[i];
      assert p[i];
    }
    assert p[|probes|] == ok;
  }

  /** The monitor after any history of probes, as a function of that history. */
  ghost predicate ClosedForm(v: View, acts: seq<Act>, probes: seq<bool>, initial: BackendState, supervised: bool) {
    var r := Trailing(probes);
    var reports := Reports(acts);
    && v.flag == v.gate == v.health == (r < 3)
    && v.fails == (if supervised then r % 3 else r)
    && v.state == (if r >= 3 then (if supervised then Restarting else Unhealthy)
                   else if AnyOk(probes) then Ready else initial)
    && Kills(acts) == (if supervised then ThirdsOf(FailureRuns(probes)) else 0)
    && (forall i :: 0 <= i < |reports| ==> reports[i] == (i % 2 == 1))
    && |reports| == 2 * Outages(FailureRuns(probes)) - (if r >= 3 then 1 else 0)
  }

  /** For every sequence of probe results, with r the length of its trailing failure run: the flag, the gate and the
      shared health agree and are false iff r >= 3; the counter is r, or r mod 3 when a supervised child is killed at
      every third failure; the backend state follows r; the kills are the thirds of all maximal failure runs; the health
      reports alternate, beginning with an outage, one outage for each maximal run of at least three. */
  lemma {:induction false} MonitorClosedForm(probes: seq<bool>, initial: BackendState, supervised: bool)
    ensures ClosedForm(
              Final(Start(initial), probes, supervised), History(Start(initial), probes, supervised),
              probes, initial, supervised)
  {
    if probes == [] {
      Nothing();
    } else {
      var n := |probes| - 1;
      MonitorClosedForm(probes[..n], initial, supervised);
      assert probes == probes[..n] + [probes[n]];
      NextClosedForm(probes[..n], probes[n], initial, supervised);
    }
  }

  lemma NextClosedForm(probes: seq<bool>, ok: bool, initial: BackendState, supervised: bool)
    requires ClosedForm(
               Final(Start(initial), probes, supervised), History(Start(initial), probes, supervised),
               probes, initial, supervised)
    ensures ClosedForm(
              Final(Start(initial), probes + [ok], supervised), History(Start(initial), probes + [ok], supervised),
              probes + [ok], initial, supervised)
  {
    hide Final, History, Reports, Kills, Trailing, AnyOk, FailureRuns, ThirdsOf, Outages, Round, After;
    var v, acts := Final(Start(initial), probes, supervised), History(Start(initial), probes, supervised);
    NextRound(Start(initial), probes, ok, supervised);
    AfterIs(v, ok, supervised);
    RoundReports(v, ok, supervised);
    KillsConcat(acts, Round(v, ok, supervised));
    RunsNext(probes, ok);
  }

  /** The last report sent equals the flag, and the outages reported are the maximal runs of at least three failures. */
  lemma ReportsMatchOutages(probes: seq<bool>, initial: BackendState, supervised: bool)
    ensures var reports := Reports(History(Start(initial), probes, supervised));
            && (reports != [] ==> reports[|reports| - 1] == Final(Start(initial), probes, supervised).flag)
            && CountFalse(reports) == Outages(FailureRuns(probes))
  {
    hide Reports, History, Final, FailureRuns, Outages, Kills, ThirdsOf, Trailing;
    MonitorClosedForm(probes, initial, supervised);
    CountAlternating(Reports(History(Start(initial), probes, supervised)));
  }

  function CountFalse(bs: seq<bool>): nat {
    if bs == [] then 0 else CountFalse(bs[..|bs| - 1]) + (if bs[|bs| - 1] then 0 else 1)
  }

  lemma {:induction false} CountAlternating(bs: seq<bool>)
    requires forall i :: 0 <= i < |bs| ==> bs[i] == (i % 2 == 1)
    ensures CountFalse(bs) == (|bs| + 1) / 2
  {
    if bs != [] {
      CountAlternating(bs[..|bs| - 1]);
    }
  }
}
