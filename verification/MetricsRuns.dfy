/** Every interleaving of request handlers with the metrics reporter (metrics.go, connection.go, reporter.go). A handler
    pins the window it loaded and applies its increments one at a time; the reporter loads the current window, stores a
    fresh one, then reads the retired window's counters one at a time. */
module MetricsRuns {
  import opened Histogram
  import opened Windows
  import opened Chat

  /** A request handler: the window it pinned and how many of its increments it has made. */
  datatype Handler = Handler(win: nat, outcome: Outcome, pc: nat)

  /** An increment that was made; late when the reporter had already read that counter of that window. */
  datatype Event = Event(win: nat, inc: Inc, late: bool)

  datatype Reporter = Idle | Loaded(win: nat) | Reading(win: nat, k: nat)

  /** windows lists every window ever installed, the current one last; reported holds what was reported of each. */
  datatype State = State(
    windows: seq<Window>, handlers: seq<Handler>, reporter: Reporter,
    reported: seq<map<Counter, int>>, log: seq<Event>, straddled: seq<bool>)
  {
    function Current(): int { |windows| - 1 }
  }

  function CountOf(streaming: bool): Counter { if streaming then StreamCount else NonStreamCount }

  function BucketOf(streaming: bool, i: Bucket): Counter { if streaming then StreamBucket(i) else NonStreamBucket(i) }

  /** The order in which snapshot loads counters. */
  const READS: nat := 30

  function ReadAt(k: nat): Counter
    requires k < READS
  {
    if k < 6 then [Requests, Errors, InputTokens, OutputTokens, NonStreamCount, StreamCount][k]
    else if k == 6 then NonStreamLatency
    else if k < 18 then NonStreamBucket(k - 7)
    else if k == 18 then StreamTtft
    else StreamBucket(k - 19)
  }

  datatype Action = Spawn(outcome: Outcome) | Work(h: nat) | LoadWindow | StoreWindow | ReadCounter

  const INITIAL := State([EMPTY_WINDOW], [], Idle, [map[]], [], [false])

  /** The buckets of a series as far as they were loaded. */
  function BucketsRead(got: map<Counter, int>, streaming: bool): (b: seq<int>)
    ensures |b| == BUCKET_COUNT
  {
    seq(BUCKET_COUNT, i requires 0 <= i < BUCKET_COUNT =>
      if BucketOf(streaming, i) in got then got[BucketOf(streaming, i)] else 0)
  }

  /** The percentile walk goes on to bucket i: there is something to rank, and no bucket before i crossed the rank. */
  predicate WalksTo(got: map<Counter, int>, streaming: bool, i: Bucket) {
    var c := CountOf(streaming);
    c in got && got[c] > 0 && Cumulative(BucketsRead(got, streaming), i) < Rank(got[c])
  }

  /** What a load adds to what is known: a sum is skipped, and reported as 0, when its count was 0; a bucket is loaded
      only if the walk comes to it. */
  function NoteRead(got: map<Counter, int>, c: Counter, v: int): map<Counter, int> {
    if c in got then got
    else if c.NonStreamBucket? then (if WalksTo(got, false, c.i) then got[c := v] else got)
    else if c.StreamBucket? then (if WalksTo(got, true, c.i) then got[c := v] else got)
    else if c == NonStreamCount && v <= 0 then map[NonStreamLatency := 0] + got[c := v]
    else if c == StreamCount && v <= 0 then map[StreamTtft := 0] + got[c := v]
    else got[c := v]
  }

  ghost predicate Finished(h: Handler) { h.pc == |Script(h.outcome)| }

  ghost predicate WellFormed(s: State) {
    && |s.windows| > 0 && |s.reported| == |s.straddled| == |s.windows|
    && (forall w :: 0 <= w < |s.windows| ==> s.windows[w].Valid())
    && (forall h :: 0 <= h < |s.handlers| ==>
          s.handlers[h].win < |s.windows| && s.handlers[h].pc <= |Script(s.handlers[h].outcome)|)
    && (s.reporter.Loaded? ==> s.reporter.win == s.Current())
    && (s.reporter.Reading? ==> s.reporter.win == s.Current() - 1 && s.reporter.k < READS)
  }

  /** One atomic step; a step that is not enabled changes nothing. */
  ghost function Step(s: State, a: Action): (t: State)
    requires WellFormed(s)
    ensures WellFormed(t)
  {
    match a
    case Spawn(o) => s.(handlers := s.handlers + [Handler(s.Current(), o, 0)])
    case Work(h) => if h < |s.handlers| && !Finished(s.handlers[h]) then WorkStep(s, h) else s
    case LoadWindow => if s.reporter.Idle? then s.(reporter := Loaded(s.Current())) else s
    case StoreWindow => if s.reporter.Loaded? then StoreStep(s, s.reporter.win) else s
    case ReadCounter => if s.reporter.Reading? then ReadStep(s, s.reporter.win, s.reporter.k) else s
  }

  function WorkStep(s: State, h: nat): State
    requires WellFormed(s) && h < |s.handlers| && !Finished(s.handlers[h])
  {
    var me := s.handlers[h];
    var inc := Script(me.outcome)[me.pc];
    State(
      s.windows[me.win := s.windows[me.win].Add(inc)], s.handlers[h := Handler(me.win, me.outcome, me.pc + 1)],
      s.reporter, s.reported, s.log + [Event(me.win, inc, inc.counter in s.reported[me.win])], s.straddled)
  }

  ghost function StoreStep(s: State, w: nat): State
    requires WellFormed(s) && w < |s.windows|
  {
    State(
      s.windows + [EMPTY_WINDOW], s.handlers, Reading(w, 0), s.reported + [map[]], s.log,
      s.straddled[w := AnyStraddles(s.handlers, w)] + [false])
  }

  function ReadStep(s: State, w: nat, k: nat): State
    requires WellFormed(s) && w < |s.windows| && k < READS
  {
    State(
      s.windows, s.handlers, if k + 1 == READS then Idle else Reading(w, k + 1),
      s.reported[w := NoteRead(s.reported[w], ReadAt(k), s.windows[w].Value(Only(ReadAt(k))))],
      s.log, s.straddled)
  }

  /** A handler that pinned window w and still owes it increments. */
  ghost predicate Straddles(h: Handler, w: nat) { h.win == w && !Finished(h) }

  ghost predicate AnyStraddles(hs: seq<Handler>, w: nat) {
    exists h :: 0 <= h < |hs| && Straddles(hs[h], w)
  }

  // ----- What one handler has done at every point of its script -----

  function Done(h: Handler, m: Measure): int
    requires h.pc <= |Script(h.outcome)|
  {
    Total(Script(h.outcome)[..h.pc], m)
  }

  /** A handler strictly between the first and last increment of a series recording. */
  predicate MidNonStream(h: Handler) { h.outcome.Answered? && 2 <= h.pc <= 3 }

  predicate MidStream(h: Handler) { h.outcome.Streamed? && HasContent(h.outcome.deltas) && 2 <= h.pc <= 3 }

  lemma TotalNext(s: seq<Inc>, k: nat, m: Measure)
    requires k < |s|
    ensures Total(s[..k + 1], m) == Total(s[..k], m) + Share(s[k], m)
  {
    assert s[..k + 1][..k] == s[..k];
  }

  function If(b: bool, n: int): int { if b then n else 0 }

  /** The k-th increment of a script. */
  function IncAt(o: Outcome, k: nat): Inc {
    if k == 0 then Inc(Requests, 1)
    else match o
      case Failed(_) => Inc(Errors, 1)
      case Answered(reply, ms) =>
        if k == 1 then Inc(NonStreamCount, 1)
        else if k == 2 then Inc(NonStreamLatency, ms)
        else if k == 3 then Inc(NonStreamBucket(BucketIndex(ms)), 1)
        else if k == 4 then Inc(InputTokens, reply.usage.input)
        else Inc(OutputTokens, reply.usage.output)
      case Streamed(deltas, ms, usage, _, _, _) =>
        var j := if HasContent(deltas) then k else k + 3;
        if j == 1 then Inc(StreamCount, 1)
        else if j == 2 then Inc(StreamTtft, ms)
        else if j == 3 then Inc(StreamBucket(BucketIndex(ms)), 1)
        else if j == 4 then Inc(InputTokens, usage.input)
        else if j == 5 then Inc(OutputTokens, usage.output)
        else Inc(Errors, 1)
  }

  lemma ScriptAt(o: Outcome, k: nat)
    requires k < |Script(o)|
    ensures Script(o)[k] == IncAt(o, k)
    ensures o.Failed? ==> k < 2
    ensures o.Answered? ==> k < 6
  {
    match o
    case Failed(_) =>
    case Answered(_, ms) =>
    case Streamed(deltas, ms, usage, _, _, _) =>
      if HasContent(deltas) {
        assert |TtftIncs(ms)| == 3;
      }
  }

  /** What a handler stopped at pc has added to the measures the bounds speak of. */
  ghost predicate DoneIs(o: Outcome, pc: nat, m: Measure, done: int) {
    var content := o.Streamed? && HasContent(o.deltas);
    match m
    case AllNonStreamBuckets => done == If(o.Answered? && pc >= 4, 1)
    case AllStreamBuckets => done == If(content && pc >= 4, 1)
    case Only(Requests) => done == If(pc >= 1, 1)
    case Only(Errors) => done == If(!o.Answered? && pc > ErrorAt(o), pc - ErrorAt(o))
    case Only(NonStreamCount) => done == If(o.Answered? && pc >= 2, 1)
    case Only(StreamCount) => done == If(content && pc >= 2, 1)
    case Only(NonStreamBucket(i)) => done == If(o.Answered? && pc >= 4 && BucketIndex(o.latency) == i, 1)
    case Only(StreamBucket(i)) => done == If(content && pc >= 4 && BucketIndex(o.ttft) == i, 1)
    case Only(NonStreamLatency) => (pc < 3 || !o.Answered?) ==> done == 0
    case Only(StreamTtft) => (pc < 3 || !content) ==> done == 0
    case _ => true
  }

  /** The position of the error increment in a script, if there is one. */
  function ErrorAt(o: Outcome): nat {
    match o
    case Failed(_) => 1
    case Answered(_, _) => 6
    case Streamed(deltas, _, _, _, _, _) => if HasContent(deltas) then 6 else 3
  }

  lemma DoneIsNext(o: Outcome, pc: nat, m: Measure, done: int)
    requires DoneIs(o, pc, m, done)
    ensures DoneIs(o, pc + 1, m, done + Share(IncAt(o, pc), m))
  {
  }

  lemma DoneNothing(h: Handler, m: Measure)
    requires h.pc == 0
    ensures DoneIs(h.outcome, 0, m, Done(h, m))
  {
    hide Script;
    assert Script(h.outcome)[..0] == [];
  }

  lemma {:induction false} DoneByStep(h: Handler, m: Measure)
    requires h.pc <= |Script(h.outcome)|
    ensures DoneIs(h.outcome, h.pc, m, Done(h, m))
    decreases h.pc
  {
    hide Script, Total, DoneIs, IncAt;
    if h.pc == 0 {
      DoneNothing(h, m);
    } else {
      var before := h.(pc := h.pc - 1);
      DoneByStep(before, m);
      TotalNext(Script(h.outcome), before.pc, m);
      ScriptAt(h.outcome, before.pc);
      DoneIsNext(h.outcome, before.pc, m, Done(before, m));
    }
  }

  /** The bounds that hold of one handler wherever it was stopped. */
  lemma DoneBounds(h: Handler)
    requires h.pc <= |Script(h.outcome)|
    ensures 0 <= Done(h, Only(Errors)) <= Done(h, Only(Requests)) <= 1
    ensures 0 <= Done(h, Only(NonStreamCount)) && 0 <= Done(h, Only(StreamCount))
    ensures Done(h, Only(NonStreamCount)) + Done(h, Only(StreamCount)) <= Done(h, Only(Requests))
    ensures Done(h, Only(NonStreamCount)) - Done(h, AllNonStreamBuckets) == If(MidNonStream(h), 1)
    ensures Done(h, Only(StreamCount)) - Done(h, AllStreamBuckets) == If(MidStream(h), 1)
    ensures Done(h, Only(NonStreamCount)) == 0 ==> Done(h, Only(NonStreamLatency)) == 0
    ensures Done(h, Only(StreamCount)) == 0 ==> Done(h, Only(StreamTtft)) == 0
  {
    forall m: Measure ensures DoneIs(h.outcome, h.pc, m, Done(h, m)) { DoneByStep(h, m); }
  }

  /** What one request adds in all, counter by counter: one request; one error iff it failed or its stream ended in a
      read error; the tokens it used; its latency if it was answered whole, in the right bucket. */
  lemma ScriptTotals(o: Outcome)
    ensures Total(Script(o), Only(Requests)) == 1
    ensures Total(Script(o), Only(Errors)) == if o.Failed? || (o.Streamed? && o.readError) then 1 else 0
    ensures o.Failed? ==> Total(Script(o), Only(InputTokens)) == Total(Script(o), Only(OutputTokens)) == 0
    ensures o.Answered? ==>
              && Total(Script(o), Only(InputTokens)) == o.reply.usage.input
              && Total(Script(o), Only(OutputTokens)) == o.reply.usage.output
    ensures o.Streamed? ==>
              && Total(Script(o), Only(InputTokens)) == o.usage.input
              && Total(Script(o), Only(OutputTokens)) == o.usage.output
    ensures Total(Script(o), Only(NonStreamCount)) == if o.Answered? then 1 else 0
    ensures Total(Script(o), Only(NonStreamLatency)) == if o.Answered? then o.latency else 0
    ensures forall i: Bucket ::
              Total(Script(o), Only(NonStreamBucket(i))) == if o.Answered? && i == BucketIndex(o.latency) then 1 else 0
  {
    hide Script, Total, BucketIndex;
    forall m: Measure ensures Total(Script(o), m) == ScriptSum(o, m) { ScriptSumIs(o, m); }
  }

  /** The request sent on some content. */
  ghost predicate SendsContent(o: Outcome) { o.Streamed? && exists d :: d in o.deltas && d.Content? }

  /** And its time to first content, in the right bucket, if content was streamed. */
  lemma TtftTotals(o: Outcome)
    ensures var timed := SendsContent(o);
            && Total(Script(o), Only(StreamCount)) == (if timed then 1 else 0)
            && Total(Script(o), Only(StreamTtft)) == (if timed then o.ttft else 0)
            && (forall i: Bucket ::
                  Total(Script(o), Only(StreamBucket(i))) == if timed && i == BucketIndex(o.ttft) then 1 else 0)
  {
    hide Script, Total, BucketIndex;
    forall m: Measure ensures Total(Script(o), m) == ScriptSum(o, m) { ScriptSumIs(o, m); }
    if o.Streamed? {
      if HasContent(o.deltas) {
        var i :| 0 <= i < |o.deltas| && o.deltas[i].Content?;
        assert o.deltas[i] in o.deltas;
      }
    }
  }

  /** The increments of a request, added up one after the other. */
  function ScriptSum(o: Outcome, m: Measure): int {
    match o
    case Failed(_) => Share(Inc(Requests, 1), m) + Share(Inc(Errors, 1), m)
    case Answered(r, ms) =>
      Share(Inc(Requests, 1), m)
      + Share(Inc(NonStreamCount, 1), m) + Share(Inc(NonStreamLatency, ms), m)
      + Share(Inc(NonStreamBucket(BucketIndex(ms)), 1), m)
      + Share(Inc(InputTokens, r.usage.input), m) + Share(Inc(OutputTokens, r.usage.output), m)
    case Streamed(deltas, ms, u, _, _, readError) =>
      Share(Inc(Requests, 1), m)
      + (if HasContent(deltas) then
           Share(Inc(StreamCount, 1), m) + Share(Inc(StreamTtft, ms), m)
           + Share(Inc(StreamBucket(BucketIndex(ms)), 1), m)
         else 0)
      + Share(Inc(InputTokens, u.input), m) + Share(Inc(OutputTokens, u.output), m)
      + (if readError then Share(Inc(Errors, 1), m) else 0)
  }

  lemma TotalOne(a: Inc, m: Measure)
    ensures Total([a], m) == Share(a, m) && Total([], m) == 0
  {
    assert [a][..0] == [];
  }

  lemma TotalTwo(a: Inc, b: Inc, m: Measure)
    ensures Total([a, b], m) == Share(a, m) + Share(b, m)
  {
    hide Total, Share;
    assert [a, b] == [a] + [b];
    TotalConcat([a], [b], m);
    TotalOne(a, m);
    TotalOne(b, m);
  }

  lemma TotalThree(a: Inc, b: Inc, c: Inc, m: Measure)
    ensures Total([a, b, c], m) == Share(a, m) + Share(b, m) + Share(c, m)
  {
    hide Total, Share;
    assert [a, b, c] == [a, b] + [c];
    TotalConcat([a, b], [c], m);
    TotalTwo(a, b, m);
    TotalOne(c, m);
  }

  lemma ScriptSumIs(o: Outcome, m: Measure)
    ensures Total(Script(o), m) == ScriptSum(o, m)
  {
    hide Total, Share, BucketIndex;
    var first := [Inc(Requests, 1)];
    TotalOne(Inc(Requests, 1), m);
    TotalOne(Inc(Errors, 1), m);
    match o
    case Failed(_) => TotalTwo(Inc(Requests, 1), Inc(Errors, 1), m);
    case Answered(r, ms) =>
      TotalThree(Inc(NonStreamCount, 1), Inc(NonStreamLatency, ms), Inc(NonStreamBucket(BucketIndex(ms)), 1), m);
      TotalTwo(Inc(InputTokens, r.usage.input), Inc(OutputTokens, r.usage.output), m);
      TotalConcat(first, LatencyIncs(ms), m);
      TotalConcat(first + LatencyIncs(ms), TokenIncs(r.usage), m);
    case Streamed(deltas, ms, u, _, _, readError) =>
      var timed := if HasContent(deltas) then TtftIncs(ms) else [];
      var end := if readError then [Inc(Errors, 1)] else [];
      TotalThree(Inc(StreamCount, 1), Inc(StreamTtft, ms), Inc(StreamBucket(BucketIndex(ms)), 1), m);
      TotalTwo(Inc(InputTokens, u.input), Inc(OutputTokens, u.output), m);
      TotalConcat(first, timed, m);
      TotalConcat(first + timed, TokenIncs(u), m);
      TotalConcat(first + timed + TokenIncs(u), end, m);
  }

  // ----- Sums over handlers and over the log -----

  predicate InRange(hs: seq<Handler>) {
    forall h :: 0 <= h < |hs| ==> hs[h].pc <= |Script(hs[h].outcome)|
  }

  /** What the handlers pinned to window w have added to it. */
  function DoneSum(hs: seq<Handler>, w: nat, m: Measure): int
    requires InRange(hs)
  {
    if hs == [] then 0
    else
      var n := |hs| - 1;
      DoneSum(hs[..n], w, m) + If(hs[n].win == w, Done(hs[n], m))
  }

  /** What they will have added once all of them have finished. */
  function FinalSum(hs: seq<Handler>, w: nat, m: Measure): int {
    if hs == [] then 0
    else
      var n := |hs| - 1;
      FinalSum(hs[..n], w, m) + If(hs[n].win == w, Total(Script(hs[n].outcome), m))
  }

  function OwedBy(h: Handler, w: nat, m: Measure): int
    requires h.pc <= |Script(h.outcome)|
  {
    If(h.win == w, Total(Script(h.outcome)[h.pc..], m))
  }

  /** What the handlers pinned to window w still owe it. */
  function OwedSum(hs: seq<Handler>, w: nat, m: Measure): int
    requires InRange(hs)
  {
    if hs == [] then 0
    else
      var n := |hs| - 1;
      OwedSum(hs[..n], w, m) + OwedBy(hs[n], w, m)
  }

  function MidCount(hs: seq<Handler>, w: nat, streaming: bool): nat {
    if hs == [] then 0
    else
      var n := |hs| - 1;
      MidCount(hs[..n], w, streaming)
      + (if hs[n].win == w && (if streaming then MidStream(hs[n]) else MidNonStream(hs[n])) then 1 else 0)
  }

  datatype Which = All | OnTime | Late

  predicate Counts(e: Event, w: nat, which: Which) {
    e.win == w && (which == OnTime ==> !e.late) && (which == Late ==> e.late)
  }

  /** The logged increments of window w that fall under m. */
  function LogSum(log: seq<Event>, w: nat, m: Measure, which: Which): int {
    if log == [] then 0
    else
      var e := log[|log| - 1];
      LogSum(log[..|log| - 1], w, m, which) + If(Counts(e, w, which), Share(e.inc, m))
  }

  /** Every increment ever made to a counter, whatever its window. */
  function Made(log: seq<Event>, c: Counter): int {
    if log == [] then 0 else Made(log[..|log| - 1], c) + Share(log[|log| - 1].inc, Only(c))
  }

  lemma {:induction false} DoneSumUpdate(hs: seq<Handler>, h: nat, me: Handler, w: nat, m: Measure)
    requires InRange(hs) && h < |hs| && me.pc <= |Script(me.outcome)| && me.win == hs[h].win
    ensures DoneSum(hs[h := me], w, m) == DoneSum(hs, w, m) + If(me.win == w, Done(me, m) - Done(hs[h], m))
  {
    hide Script, Total;
    var n := |hs| - 1;
    if h == n {
      assert hs[h := me][..n] == hs[..n];
    } else {
      assert hs[h := me][..n] == hs[..n][h := me];
      DoneSumUpdate(hs[..n], h, me, w, m);
    }
  }

  lemma {:induction false} SumsAddUp(hs: seq<Handler>, w: nat, m: Measure)
    requires InRange(hs)
    ensures DoneSum(hs, w, m) + OwedSum(hs, w, m) == FinalSum(hs, w, m)
  {
    hide Script;
    if hs != [] {
      var n := |hs| - 1;
      SumsAddUp(hs[..n], w, m);
      var s := Script(hs[n].outcome);
      TotalConcat(s[..hs[n].pc], s[hs[n].pc..], m);
      assert s == s[..hs[n].pc] + s[hs[n].pc..];
    }
  }

  lemma {:induction false} FinishedOweNothing(hs: seq<Handler>, w: nat, m: Measure)
    requires InRange(hs) && forall h :: 0 <= h < |hs| ==> !Straddles(hs[h], w)
    ensures OwedSum(hs, w, m) == 0
  {
    if hs != [] {
      var n := |hs| - 1;
      assert !Straddles(hs[n], w);
      FinishedOweNothing(hs[..n], w, m);
    }
  }

  lemma {:induction false} SplitByTime(log: seq<Event>, w: nat, m: Measure)
    ensures LogSum(log, w, m, All) == LogSum(log, w, m, OnTime) + LogSum(log, w, m, Late)
  {
    if log != [] {
      SplitByTime(log[..|log| - 1], w, m);
    }
  }

  lemma {:induction false} NothingLate(log: seq<Event>, w: nat, m: Measure)
    requires forall i :: 0 <= i < |log| && log[i].late ==> log[i].win != w
    ensures LogSum(log, w, m, Late) == 0
  {
    if log != [] {
      NothingLate(log[..|log| - 1], w, m);
    }
  }

  lemma {:induction false} NothingLogged(log: seq<Event>, w: nat, m: Measure, which: Which)
    requires forall i :: 0 <= i < |log| ==> log[i].win != w
    ensures LogSum(log, w, m, which) == 0
  {
    if log != [] {
      NothingLogged(log[..|log| - 1], w, m, which);
    }
  }

  lemma {:induction false} NothingDone(hs: seq<Handler>, w: nat, m: Measure)
    requires InRange(hs) && forall h :: 0 <= h < |hs| ==> hs[h].win != w
    ensures DoneSum(hs, w, m) == 0
  {
    if hs != [] {
      NothingDone(hs[..|hs| - 1], w, m);
    }
  }

  /** The per-handler bounds, summed over the handlers of one window. */
  lemma {:induction false} DoneSumBounds(hs: seq<Handler>, w: nat)
    requires InRange(hs)
    ensures 0 <= DoneSum(hs, w, Only(Errors)) <= DoneSum(hs, w, Only(Requests))
    ensures 0 <= DoneSum(hs, w, Only(NonStreamCount)) && 0 <= DoneSum(hs, w, Only(StreamCount))
    ensures DoneSum(hs, w, Only(NonStreamCount)) + DoneSum(hs, w, Only(StreamCount)) <= DoneSum(hs, w, Only(Requests))
    ensures DoneSum(hs, w, Only(NonStreamCount)) - DoneSum(hs, w, AllNonStreamBuckets) == MidCount(hs, w, false)
    ensures DoneSum(hs, w, Only(StreamCount)) - DoneSum(hs, w, AllStreamBuckets) == MidCount(hs, w, true)
    ensures DoneSum(hs, w, Only(NonStreamCount)) == 0 ==> DoneSum(hs, w, Only(NonStreamLatency)) == 0
    ensures DoneSum(hs, w, Only(StreamCount)) == 0 ==> DoneSum(hs, w, Only(StreamTtft)) == 0
  {
    hide Script, Total, Done, MidStream, MidNonStream;
    if hs != [] {
      var n := |hs| - 1;
      DoneSumBounds(hs[..n], w);
      DoneBounds(hs[n]);
    }
  }

  // ----- The invariant -----

  ghost predicate Retired(s: State, w: nat) { w < s.Current() }

  /** How far snapshot has come with window w. */
  ghost function ReadSoFar(s: State, w: nat): (k: nat)
    ensures WellFormed(s) ==> k <= READS
  {
    if s.reporter.Reading? && s.reporter.win == w then s.reporter.k
    else if Retired(s, w) then READS
    else 0
  }

  /** A counter snapshot has come to: it was loaded, or it is a bucket the walk did not need. */
  predicate WasRead(got: map<Counter, int>, c: Counter) {
    match c
    case NonStreamBucket(i) => NonStreamCount in got && (c in got || !WalksTo(got, false, i))
    case StreamBucket(i) => StreamCount in got && (c in got || !WalksTo(got, true, i))
    case _ => c in got
  }

  ghost predicate ValuesAgree(s: State)
    requires WellFormed(s)
  {
    forall w, m :: 0 <= w < |s.windows| ==>
      s.windows[w].Value(m) == DoneSum(s.handlers, w, m) == LogSum(s.log, w, m, All)
  }

  ghost predicate ReadsAgree(s: State)
    requires WellFormed(s)
  {
    && (forall w, c :: 0 <= w < |s.windows| && c in s.reported[w] ==>
          s.reported[w][c] == LogSum(s.log, w, Only(c), OnTime))
    && (forall w, c :: 0 <= w < |s.windows| && c !in s.reported[w] ==> LogSum(s.log, w, Only(c), Late) == 0)
    && (forall w, i :: 0 <= w < |s.windows| && 0 <= i < ReadSoFar(s, w) ==> WasRead(s.reported[w], ReadAt(i)))
    && (forall w, streaming, i: Bucket :: 0 <= w < |s.windows| && BucketOf(streaming, i) in s.reported[w] ==>
          CountOf(streaming) in s.reported[w])
    && s.reported[s.Current()] == map[]
  }

  ghost predicate StraddlesNoted(s: State)
    requires WellFormed(s)
  {
    && (forall i :: 0 <= i < |s.log| ==> s.log[i].win < |s.windows|)
    && (forall i :: 0 <= i < |s.log| && s.log[i].late ==> Retired(s, s.log[i].win) && s.straddled[s.log[i].win])
    && (forall w: nat, h :: Retired(s, w) && !s.straddled[w] && 0 <= h < |s.handlers| ==> !Straddles(s.handlers[h], w))
  }

  ghost predicate Inv(s: State) {
    WellFormed(s) && ValuesAgree(s) && ReadsAgree(s) && StraddlesNoted(s)
  }

  lemma InitInv()
    ensures Inv(INITIAL)
  {
    forall m: Measure ensures EMPTY_WINDOW.Value(m) == 0 { EmptyWindowIsZero(m); }
  }

  lemma SpawnInv(s: State, o: Outcome)
    requires Inv(s)
    ensures Inv(Step(s, Spawn(o)))
  {
    hide Script;
    var t := Step(s, Spawn(o));
    assert t.handlers[..|s.handlers|] == s.handlers;
    assert Script(o)[..0] == [];
  }

  /** One increment moves a window's measure, its handlers' sum and its log's sum alike. */
  lemma WorkValue(s: State, h: nat, w: nat, m: Measure)
    requires WellFormed(s) && ValuesAgree(s) && w < |s.windows|
    requires h < |s.handlers| && !Finished(s.handlers[h])
    ensures var t := WorkStep(s, h);
            InRange(t.handlers) && t.windows[w].Value(m) == DoneSum(t.handlers, w, m) == LogSum(t.log, w, m, All)
  {
    hide Script, Total, Share, ValuesAgree;
    var t := WorkStep(s, h);
    var me := s.handlers[h];
    var inc := Script(me.outcome)[me.pc];
    var e := t.log[|s.log|];
    assert s.windows[w].Value(m) == DoneSum(s.handlers, w, m) == LogSum(s.log, w, m, All) by { ValueAgrees(s, w, m); }
    assert t.windows[w].Value(m) == s.windows[w].Value(m) + If(me.win == w, Share(inc, m)) by {
      AddMoves(s.windows[me.win], inc, m);
    }
    DoneSumUpdate(s.handlers, h, t.handlers[h], w, m);
    TotalNext(Script(me.outcome), me.pc, m);
    LogSumNext(s.log, e, w, m);
  }

  lemma ValueAgrees(s: State, w: nat, m: Measure)
    requires WellFormed(s) && ValuesAgree(s) && w < |s.windows|
    ensures s.windows[w].Value(m) == DoneSum(s.handlers, w, m) == LogSum(s.log, w, m, All)
  {
  }

  lemma LogSumNext(log: seq<Event>, e: Event, w: nat, m: Measure)
    ensures LogSum(log + [e], w, m, All) == LogSum(log, w, m, All) + If(e.win == w, Share(e.inc, m))
  {
    assert (log + [e])[..|log|] == log;
  }

  lemma WorkKeepsValues(s: State, h: nat)
    requires Inv(s) && h < |s.handlers| && !Finished(s.handlers[h])
    ensures WellFormed(WorkStep(s, h)) && ValuesAgree(WorkStep(s, h))
  {
    hide Script, Total, DoneSum, LogSum, ReadsAgree, StraddlesNoted;
    var t := WorkStep(s, h);
    forall w, m | 0 <= w < |s.windows|
      ensures t.windows[w].Value(m) == DoneSum(t.handlers, w, m) == LogSum(t.log, w, m, All)
    {
      WorkValue(s, h, w, m);
    }
  }

  lemma WorkKeepsReads(s: State, h: nat)
    requires Inv(s) && h < |s.handlers| && !Finished(s.handlers[h])
    requires WellFormed(WorkStep(s, h))
    ensures ReadsAgree(WorkStep(s, h)) && StraddlesNoted(WorkStep(s, h))
  {
    var t := WorkStep(s, h);
    assert t.log[..|s.log|] == s.log;
    assert Straddles(s.handlers[h], s.handlers[h].win);
    forall w: nat, g | Retired(t, w) && !t.straddled[w] && 0 <= g < |t.handlers| ensures !Straddles(t.handlers[g], w) {
      assert !Straddles(s.handlers[g], w);
    }
  }

  /** A window just installed is empty, and no handler and no event refers to it yet. */
  lemma FreshWindow(s: State, m: Measure)
    requires Inv(s)
    ensures var w := |s.windows|;
            DoneSum(s.handlers, w, m) == LogSum(s.log, w, m, All) == LogSum(s.log, w, m, Late) == 0
    ensures EMPTY_WINDOW.Value(m) == 0
  {
    var w := |s.windows|;
    EmptyWindowIsZero(m);
    NothingDone(s.handlers, w, m);
    NothingLogged(s.log, w, m, All);
    NothingLogged(s.log, w, m, Late);
  }

  lemma StoreKeepsValues(s: State)
    requires Inv(s) && s.reporter.Loaded?
    ensures WellFormed(StoreStep(s, s.Current())) && ValuesAgree(StoreStep(s, s.Current()))
  {
    hide Script, Total, DoneSum, LogSum;
    var w := |s.windows|;
    forall m: Measure ensures EMPTY_WINDOW.Value(m) == DoneSum(s.handlers, w, m) == LogSum(s.log, w, m, All) {
      FreshWindow(s, m);
    }
  }

  lemma StoreKeepsReads(s: State)
    requires Inv(s) && s.reporter.Loaded? && WellFormed(StoreStep(s, s.Current()))
    ensures ReadsAgree(StoreStep(s, s.Current()))
  {
    hide Script, Total, DoneSum, LogSum;
    var t := StoreStep(s, s.Current());
    forall c: Counter ensures LogSum(s.log, |s.windows|, Only(c), Late) == 0 { FreshWindow(s, Only(c)); }
    forall v, i | 0 <= v < |t.windows| && 0 <= i < ReadSoFar(t, v) ensures WasRead(t.reported[v], ReadAt(i)) {
      assert ReadSoFar(s, v) == ReadSoFar(t, v);
    }
  }

  lemma StoreInv(s: State)
    requires Inv(s) && s.reporter.Loaded?
    ensures Inv(StoreStep(s, s.reporter.win))
  {
    StoreKeepsValues(s);
    StoreKeepsReads(s);
  }

  /** A counter not read before had no late increment, so what is read is what was made on time. */
  lemma UnreadIsOnTime(s: State, w: nat, c: Counter)
    requires Inv(s) && w < |s.windows| && c !in s.reported[w]
    ensures s.windows[w].Value(Only(c)) == LogSum(s.log, w, Only(c), OnTime)
  {
    SplitByTime(s.log, w, Only(c));
  }

  /** When a count is read as 0, no sum of that series has been added to yet. */
  lemma SkippedSums(s: State, w: nat)
    requires Inv(s) && w < |s.windows|
    ensures s.windows[w].Value(Only(NonStreamCount)) <= 0 ==> s.windows[w].Value(Only(NonStreamLatency)) == 0
    ensures s.windows[w].Value(Only(StreamCount)) <= 0 ==> s.windows[w].Value(Only(StreamTtft)) == 0
  {
    DoneSumBounds(s.handlers, w);
    forall m: Measure ensures s.windows[w].Value(m) == DoneSum(s.handlers, w, m) { }
  }

  ghost predicate HoldsOnTime(got: map<Counter, int>, s: State, w: nat) {
    forall c :: c in got ==> got[c] == LogSum(s.log, w, Only(c), OnTime)
  }

  lemma NoteReadAgrees(s: State, w: nat, c: Counter)
    requires Inv(s) && w < |s.windows|
    ensures HoldsOnTime(NoteRead(s.reported[w], c, s.windows[w].Value(Only(c))), s, w)
  {
    SkippedSums(s, w);
    assert HoldsOnTime(s.reported[w], s, w);
    forall d | d !in s.reported[w] ensures s.windows[w].Value(Only(d)) == LogSum(s.log, w, Only(d), OnTime) {
      UnreadIsOnTime(s, w, d);
    }
    NoteReadExtends(s, w, c, s.reported[w]);
  }

  lemma NoteReadExtends(s: State, w: nat, c: Counter, got: map<Counter, int>)
    requires WellFormed(s) && w < |s.windows|
    requires s.windows[w].Value(Only(NonStreamCount)) <= 0 ==> s.windows[w].Value(Only(NonStreamLatency)) == 0
    requires s.windows[w].Value(Only(StreamCount)) <= 0 ==> s.windows[w].Value(Only(StreamTtft)) == 0
    requires HoldsOnTime(got, s, w)
    requires forall d :: d !in got ==> s.windows[w].Value(Only(d)) == LogSum(s.log, w, Only(d), OnTime)
    ensures HoldsOnTime(NoteRead(got, c, s.windows[w].Value(Only(c))), s, w)
  {
  }

  lemma {:induction false} LoadedPrefix(got: map<Counter, int>, c: Counter, v: int, streaming: bool, i: nat)
    requires i <= BUCKET_COUNT && forall j: Bucket :: j < i ==> BucketOf(streaming, j) != c
    ensures Cumulative(BucketsRead(got[c := v], streaming), i) == Cumulative(BucketsRead(got, streaming), i)
  {
    if i > 0 {
      LoadedPrefix(got, c, v, streaming, i - 1);
      var j: Bucket := i - 1;
      assert BucketOf(streaming, j) != c;
    }
  }

  /** A load leaves what was come to before as it was. */
  lemma NoteReadKeeps(got: map<Counter, int>, k: nat, i: nat, v: int)
    requires i < k < READS && WasRead(got, ReadAt(i))
    ensures WasRead(NoteRead(got, ReadAt(k), v), ReadAt(i))
  {
    hide BucketsRead, Cumulative;
    var c, d := ReadAt(k), ReadAt(i);
    match d
    case NonStreamBucket(b) => LoadedPrefix(got, c, v, false, b);
    case StreamBucket(b) => LoadedPrefix(got, c, v, true, b);
    case _ =>
  }

  lemma NoteReadReads(got: map<Counter, int>, k: nat, v: int)
    requires k < READS && forall i :: 0 <= i < k ==> WasRead(got, ReadAt(i))
    ensures WasRead(NoteRead(got, ReadAt(k), v), ReadAt(k))
    ensures forall streaming, i: Bucket ::
              BucketOf(streaming, i) in NoteRead(got, ReadAt(k), v) && BucketOf(streaming, i) !in got ==>
                CountOf(streaming) in got
    ensures forall c :: c in got ==> c in NoteRead(got, ReadAt(k), v)
  {
    hide BucketsRead, Cumulative;
    assert k > 4 ==> WasRead(got, ReadAt(4));
    assert k > 5 ==> WasRead(got, ReadAt(5));
  }

  lemma ReadKeepsOrder(s: State, v: nat, i: nat)
    requires Inv(s) && s.reporter.Reading? && v < |s.windows|
    requires i < ReadSoFar(ReadStep(s, s.reporter.win, s.reporter.k), v)
    ensures i < READS && WasRead(ReadStep(s, s.reporter.win, s.reporter.k).reported[v], ReadAt(i))
  {
    hide WasRead, NoteRead, ValuesAgree, StraddlesNoted, LogSum, DoneSum, ReadAt;
    var w, k := s.reporter.win, s.reporter.k;
    var got := s.reported[w];
    assert forall j :: 0 <= j < k ==> WasRead(got, ReadAt(j));
    if v == w && i == k {
      NoteReadReads(got, k, s.windows[w].Value(Only(ReadAt(k))));
    } else if v == w {
      NoteReadKeeps(got, k, i, s.windows[w].Value(Only(ReadAt(k))));
    }
  }

  lemma ReadInv(s: State)
    requires Inv(s) && s.reporter.Reading?
    ensures Inv(ReadStep(s, s.reporter.win, s.reporter.k))
  {
    hide Script, Total, DoneSum, LogSum, NoteRead, WasRead, ReadAt;
    var w, k := s.reporter.win, s.reporter.k;
    var t := ReadStep(s, w, k);
    NoteReadAgrees(s, w, ReadAt(k));
    assert forall j :: 0 <= j < k ==> WasRead(s.reported[w], ReadAt(j));
    NoteReadReads(s.reported[w], k, s.windows[w].Value(Only(ReadAt(k))));
    forall v, i | 0 <= v < |t.windows| && 0 <= i < ReadSoFar(t, v) ensures WasRead(t.reported[v], ReadAt(i)) {
      ReadKeepsOrder(s, v, i);
    }
    assert ReadsAgree(t);
  }

  lemma StepInv(s: State, a: Action)
    requires Inv(s)
    ensures Inv(Step(s, a))
  {
    match a
    case Spawn(o) => SpawnInv(s, o);
    case Work(h) =>
      if h < |s.handlers| && !Finished(s.handlers[h]) {
        WorkKeepsValues(s, h);
        WorkKeepsReads(s, h);
      }
    case LoadWindow =>
    case StoreWindow => if s.reporter.Loaded? { StoreInv(s); }
    case ReadCounter => if s.reporter.Reading? { ReadInv(s); }
  }

  /** The state after any sequence of steps. */
  ghost function Run(acts: seq<Action>): (s: State)
    ensures WellFormed(s)
  {
    if acts == [] then INITIAL else Step(Run(acts[..|acts| - 1]), acts[|acts| - 1])
  }

  lemma {:induction false} RunInv(acts: seq<Action>)
    ensures Inv(Run(acts))
  {
    if acts == [] {
      InitInv();
    } else {
      RunInv(acts[..|acts| - 1]);
      StepInv(Run(acts[..|acts| - 1]), acts[|acts| - 1]);
    }
  }

  // ----- What holds of every run -----

  /** The reported, the not yet read and the late parts of a counter, summed over the first n windows. */
  ghost function ReportedSum(s: State, n: nat, c: Counter): int
    requires WellFormed(s) && n <= |s.windows|
  {
    if n == 0 then 0 else ReportedSum(s, n - 1, c) + (if c in s.reported[n - 1] then s.reported[n - 1][c] else 0)
  }

  ghost function UnreadSum(s: State, n: nat, c: Counter): int
    requires WellFormed(s) && n <= |s.windows|
  {
    if n == 0 then 0
    else UnreadSum(s, n - 1, c) + (if c in s.reported[n - 1] then 0 else s.windows[n - 1].Value(Only(c)))
  }

  function ResidueSum(log: seq<Event>, n: nat, c: Counter): int {
    if n == 0 then 0 else ResidueSum(log, n - 1, c) + LogSum(log, n - 1, Only(c), Late)
  }

  function LogSumUpTo(log: seq<Event>, n: nat, c: Counter): int {
    if n == 0 then 0 else LogSumUpTo(log, n - 1, c) + LogSum(log, n - 1, Only(c), All)
  }

  lemma {:induction false} LogSumUpToSnoc(log: seq<Event>, e: Event, n: nat, c: Counter)
    ensures LogSumUpTo(log + [e], n, c) == LogSumUpTo(log, n, c) + If(e.win < n, Share(e.inc, Only(c)))
  {
    if n > 0 {
      LogSumUpToSnoc(log, e, n - 1, c);
      assert (log + [e])[..|log|] == log;
    }
  }

  lemma {:induction false} LogSumUpToEmpty(n: nat, c: Counter)
    ensures LogSumUpTo([], n, c) == 0
  {
    if n > 0 {
      LogSumUpToEmpty(n - 1, c);
    }
  }

  lemma {:induction false} MadeSplitsByWindow(log: seq<Event>, n: nat, c: Counter)
    requires forall i :: 0 <= i < |log| ==> log[i].win < n
    ensures Made(log, c) == LogSumUpTo(log, n, c)
  {
    if log == [] {
      LogSumUpToEmpty(n, c);
    } else {
      var k := |log| - 1;
      MadeSplitsByWindow(log[..k], n, c);
      LogSumUpToSnoc(log[..k], log[k], n, c);
      assert log[..k] + [log[k]] == log;
    }
  }

  lemma {:induction false} PartsAddUp(s: State, n: nat, c: Counter)
    requires Inv(s) && n <= |s.windows|
    ensures LogSumUpTo(s.log, n, c) == ReportedSum(s, n, c) + UnreadSum(s, n, c) + ResidueSum(s.log, n, c)
  {
    if n > 0 {
      PartsAddUp(s, n - 1, c);
      SplitByTime(s.log, n - 1, Only(c));
    }
  }

  /** Conservation: every increment ever made is in exactly one window's report, in a window whose counter was not read
      yet, or in the residue that came after the read. */
  lemma Conservation(acts: seq<Action>, c: Counter)
    ensures var s := Run(acts);
            Made(s.log, c)
            == ReportedSum(s, |s.windows|, c) + UnreadSum(s, |s.windows|, c) + ResidueSum(s.log, |s.windows|, c)
  {
    RunInv(acts);
    var s := Run(acts);
    MadeSplitsByWindow(s.log, |s.windows|, c);
    PartsAddUp(s, |s.windows|, c);
  }

  /** A window that is neither current nor being read has all its counters in its report; of the buckets of a series,
      all those the percentile walk comes to. */
  lemma RetiredIsReported(acts: seq<Action>, w: nat, c: Counter)
    requires w < |Run(acts).reported|
    ensures var s := Run(acts);
            Retired(s, w) && (s.reporter.Reading? ==> s.reporter.win != w) ==> WasRead(s.reported[w], c)
  {
    hide WasRead, ReadAt;
    RunInv(acts);
    var s := Run(acts);
    if Retired(s, w) && (s.reporter.Reading? ==> s.reporter.win != w) {
      var k := PlaceOf(c);
      assert k < ReadSoFar(s, w);
      assert WasRead(s.reported[w], ReadAt(k));
    }
  }

  /** Every counter has its place in the order of the loads. */
  function PlaceOf(c: Counter): (k: nat)
    ensures k < READS && ReadAt(k) == c
  {
    match c
    case Requests => 0
    case Errors => 1
    case InputTokens => 2
    case OutputTokens => 3
    case NonStreamCount => 4
    case StreamCount => 5
    case NonStreamLatency => 6
    case NonStreamBucket(i) => 7 + i
    case StreamTtft => 18
    case StreamBucket(i) => 19 + i
  }

  /** Reported, late and still owed make up what the requests that pinned the window will have added in all. */
  lemma ReportPlusResidue(acts: seq<Action>, w: nat, c: Counter)
    requires w < |Run(acts).windows| && c in Run(acts).reported[w]
    ensures var s := Run(acts);
            s.reported[w][c] + LogSum(s.log, w, Only(c), Late) + OwedSum(s.handlers, w, Only(c))
            == FinalSum(s.handlers, w, Only(c))
  {
    RunInv(acts);
    var s := Run(acts);
    SplitByTime(s.log, w, Only(c));
    SumsAddUp(s.handlers, w, Only(c));
  }

  lemma {:induction false} FinalSumUpdate(hs: seq<Handler>, h: nat, pc: nat, w: nat, m: Measure)
    requires h < |hs|
    ensures FinalSum(hs[h := hs[h].(pc := pc)], w, m) == FinalSum(hs, w, m)
  {
    hide Script, Total;
    var n := |hs| - 1;
    if h == n {
      assert hs[h := hs[h].(pc := pc)][..n] == hs[..n];
    } else {
      assert hs[h := hs[h].(pc := pc)][..n] == hs[..n][h := hs[h].(pc := pc)];
      FinalSumUpdate(hs[..n], h, pc, w, m);
    }
  }

  /** t is a later state in which retired window w has the same final value and the same report of c. */
  ghost predicate Keeps(s: State, t: State, w: nat, c: Counter)
    requires WellFormed(s) && WellFormed(t) && Retired(s, w)
  {
    && Retired(t, w)
    && FinalSum(t.handlers, w, Only(c)) == FinalSum(s.handlers, w, Only(c))
    && (c in s.reported[w] ==> c in t.reported[w] && t.reported[w][c] == s.reported[w][c])
  }

  lemma StepKeeps(s: State, a: Action, w: nat, c: Counter)
    requires WellFormed(s) && Retired(s, w)
    ensures Keeps(s, Step(s, a), w, c)
  {
    match a
    case Spawn(o) => assert Step(s, a).handlers[..|s.handlers|] == s.handlers;
    case Work(h) =>
      if h < |s.handlers| && !Finished(s.handlers[h]) {
        WorkKeeps(s, h, w, c);
      }
    case ReadCounter =>
      if s.reporter.Reading? && c in s.reported[w] {
        assert Step(s, a).reported[w][c] == s.reported[w][c];
      }
    case LoadWindow =>
    case StoreWindow =>
  }

  lemma WorkKeeps(s: State, h: nat, w: nat, c: Counter)
    requires WellFormed(s) && Retired(s, w) && h < |s.handlers| && !Finished(s.handlers[h])
    requires WellFormed(WorkStep(s, h))
    ensures Keeps(s, WorkStep(s, h), w, c)
  {
    var t := WorkStep(s, h);
    assert FinalSum(t.handlers, w, Only(c)) == FinalSum(s.handlers, w, Only(c)) by {
      FinalSumUpdate(s.handlers, h, s.handlers[h].pc + 1, w, Only(c));
      assert t.handlers == s.handlers[h := s.handlers[h].(pc := s.handlers[h].pc + 1)];
    }
    assert t.reported == s.reported;
  }

  lemma RunNext(acts: seq<Action>, a: Action)
    ensures Run(acts + [a]) == Step(Run(acts), a)
  {
    assert (acts + [a])[..|acts|] == acts;
  }

  lemma KeepsTransitive(s: State, t: State, u: State, w: nat, c: Counter)
    requires WellFormed(s) && WellFormed(t) && WellFormed(u) && Retired(s, w) && Keeps(s, t, w, c) && Keeps(t, u, w, c)
    ensures Keeps(s, u, w, c)
  {
  }

  /** What a window will have received in all, and what was reported of it, never change once it is retired. */
  lemma {:induction false} RetiredIsFixed(acts: seq<Action>, more: seq<Action>, w: nat, c: Counter)
    requires Retired(Run(acts), w)
    ensures Keeps(Run(acts), Run(acts + more), w, c)
  {
    hide Script, Total, FinalSum, Step;
    if more == [] {
      assert acts + more == acts;
    } else {
      var k := |more| - 1;
      RetiredIsFixed(acts, more[..k], w, c);
      ExtendKeeps(acts, acts + more[..k], more[k], w, c);
      assert acts + more == acts + more[..k] + [more[k]];
    }
  }

  lemma ExtendKeeps(acts: seq<Action>, later: seq<Action>, a: Action, w: nat, c: Counter)
    requires Retired(Run(acts), w) && Keeps(Run(acts), Run(later), w, c)
    ensures Keeps(Run(acts), Run(later + [a]), w, c)
  {
    RunNext(later, a);
    StepKeeps(Run(later), a, w, c);
    KeepsTransitive(Run(acts), Run(later), Run(later + [a]), w, c);
  }

  lemma ReadFirst(s: State, w: nat, c: Counter)
    requires Inv(s) && w < |s.windows| && c !in s.reported[w]
    requires c in Step(s, ReadCounter).reported[w]
    ensures Retired(s, w) && Retired(Step(s, ReadCounter), w)
    ensures Step(s, ReadCounter).handlers == s.handlers && Step(s, ReadCounter).log == s.log
    ensures LogSum(s.log, w, Only(c), Late) == 0
  {
    hide Script, Total, DoneSum, LogSum;
  }

  /** The residue of a counter is exactly what the pinned requests still owed it when it was read: at any later time,
      the part that has come late and the part still to come add up to that. */
  lemma ResidueIsOwedAtRead(acts: seq<Action>, more: seq<Action>, w: nat, c: Counter)
    requires w < |Run(acts).windows| && c !in Run(acts).reported[w]
    requires w < |Run(acts + [ReadCounter]).windows| && c in Run(acts + [ReadCounter]).reported[w]
    ensures var t := Run(acts + [ReadCounter] + more);
            LogSum(t.log, w, Only(c), Late) + OwedSum(t.handlers, w, Only(c)) == OwedSum(Run(acts).handlers, w, Only(c))
  {
    hide Inv, Step, Run, LogSum, OwedSum, FinalSum;
    RunNext(acts, ReadCounter);
    RunInv(acts);
    ReadFirst(Run(acts), w, c);
    RetiredIsFixed(acts + [ReadCounter], more, w, c);
    ReportPlusResidue(acts + [ReadCounter] + more, w, c);
    ReportPlusResidue(acts + [ReadCounter], w, c);
  }

  /** When no request straddled the swap, nothing comes late and the window already holds everything it ever will. */
  lemma NoStraddleNoResidue(acts: seq<Action>, w: nat, m: Measure)
    requires Retired(Run(acts), w) && !Run(acts).straddled[w]
    ensures var s := Run(acts);
            && LogSum(s.log, w, m, Late) == 0 && OwedSum(s.handlers, w, m) == 0
            && s.windows[w].Value(m) == FinalSum(s.handlers, w, m)
  {
    RunInv(acts);
    var s := Run(acts);
    NothingLate(s.log, w, m);
    FinishedOweNothing(s.handlers, w, m);
    SumsAddUp(s.handlers, w, m);
  }

  /** At every point of every run: errors and latencies never outnumber requests, and a series count is ahead of its
      buckets by the number of recordings that are half way through. */
  lemma WindowBounds(acts: seq<Action>, w: nat)
    requires w < |Run(acts).windows|
    ensures var s := Run(acts); var v := s.windows[w];
            && 0 <= v.errors <= v.requests
            && 0 <= v.nonStreamCount && 0 <= v.streamCount && v.nonStreamCount + v.streamCount <= v.requests
            && v.nonStreamCount - v.Value(AllNonStreamBuckets) == MidCount(s.handlers, w, false)
            && v.streamCount - v.Value(AllStreamBuckets) == MidCount(s.handlers, w, true)
  {
    hide Script, Total, DoneSum, LogSum, MidCount, Done;
    RunInv(acts);
    var s := Run(acts);
    DoneSumBounds(s.handlers, w);
    forall m: Measure ensures s.windows[w].Value(m) == DoneSum(s.handlers, w, m) { }
  }

  // ----- Samples that are lost -----

  /** The increments still to be made, whatever the window. */
  function Remaining(hs: seq<Handler>): nat
    requires InRange(hs)
  {
    if hs == [] then 0
    else
      var n := |hs| - 1;
      Remaining(hs[..n]) + (|Script(hs[n].outcome)| - hs[n].pc)
  }

  lemma {:induction false} RemainingUpdate(hs: seq<Handler>, h: nat)
    requires InRange(hs) && h < |hs| && !Finished(hs[h])
    ensures InRange(hs[h := hs[h].(pc := hs[h].pc + 1)])
    ensures Remaining(hs[h := hs[h].(pc := hs[h].pc + 1)]) == Remaining(hs) - 1
  {
    hide Script;
    var n := |hs| - 1;
    if h == n {
      assert hs[h := hs[h].(pc := hs[h].pc + 1)][..n] == hs[..n];
    } else {
      assert hs[h := hs[h].(pc := hs[h].pc + 1)][..n] == hs[..n][h := hs[h].(pc := hs[h].pc + 1)];
      RemainingUpdate(hs[..n], h);
    }
  }

  /** Every run can be continued by letting the requests finish, the reporter doing nothing. */
  lemma {:induction false} FinishAll(acts: seq<Action>) returns (more: seq<Action>)
    ensures forall h :: 0 <= h < |Run(acts + more).handlers| ==> Finished(Run(acts + more).handlers[h])
    ensures var s, t := Run(acts), Run(acts + more);
            && |t.handlers| == |s.handlers| && |t.windows| == |s.windows|
            && (forall h :: 0 <= h < |s.handlers| ==> t.handlers[h] == s.handlers[h].(pc := t.handlers[h].pc))
    decreases Remaining(Run(acts).handlers)
  {
    hide Script, Run;
    var s := Run(acts);
    if h: nat :| h < |s.handlers| && !Finished(s.handlers[h]) {
      RunNext(acts, Work(h));
      RemainingUpdate(s.handlers, h);
      assert Run(acts + [Work(h)]).handlers == s.handlers[h := s.handlers[h].(pc := s.handlers[h].pc + 1)];
      var rest := FinishAll(acts + [Work(h)]);
      more := [Work(h)] + rest;
      assert acts + more == acts + [Work(h)] + rest;
    } else {
      more := [];
      assert acts + more == acts;
    }
  }

  lemma {:induction false} SameFinal(a: seq<Handler>, b: seq<Handler>, w: nat, m: Measure)
    requires |a| == |b| && forall h :: 0 <= h < |a| ==> b[h] == a[h].(pc := b[h].pc)
    ensures FinalSum(a, w, m) == FinalSum(b, w, m)
  {
    hide Script, Total;
    if a != [] {
      SameFinal(a[..|a| - 1], b[..|b| - 1], w, m);
    }
  }

  /** Every request that arrives, at whatever moment, pins the window that is current and can be recorded there in full:
      when the requests are done, every measure of that window is what those it had already pinned make up, and this
      one's own share. */
  lemma RequestIsRecorded(acts: seq<Action>, o: Outcome)
    ensures exists more ::
              var s, t := Run(acts), Run(acts + [Spawn(o)] + more); var w := s.Current();
              && w < |t.windows| && |t.handlers| == |s.handlers| + 1
              && (forall m: Measure :: t.windows[w].Value(m) == FinalSum(s.handlers, w, m) + Total(Script(o), m))
  {
    hide Run, Script, Total, FinalSum, OwedSum, DoneSum, LogSum;
    RunNext(acts, Spawn(o));
    var b := acts + [Spawn(o)];
    var more := FinishAll(b);
    var s, u, t := Run(acts), Run(b), Run(b + more);
    var w := s.Current();
    RunInv(b + more);
    forall m: Measure ensures t.windows[w].Value(m) == FinalSum(s.handlers, w, m) + Total(Script(o), m) {
      ValueAgrees(t, w, m);
      SumsAddUp(t.handlers, w, m);
      FinishedOweNothing(t.handlers, w, m);
      SameFinal(u.handlers, t.handlers, w, m);
      FinalSnoc(s.handlers, Handler(w, o, 0), w, m);
    }
    assert |t.handlers| == |s.handlers| + 1;
  }

  lemma FinalSnoc(hs: seq<Handler>, h: Handler, w: nat, m: Measure)
    ensures FinalSum(hs + [h], w, m) == FinalSum(hs, w, m) + If(h.win == w, Total(Script(h.outcome), m))
  {
    hide Script, Total;
    assert (hs + [h])[..|hs|] == hs;
  }

  /** Whatever a window was owed of a counter when that counter was read can come late in full; so an owed sample can be
      lost to every report. */
  lemma OwedCanBeLost(acts: seq<Action>, w: nat, c: Counter)
    requires w < |Run(acts).windows| && c !in Run(acts).reported[w]
    requires w < |Run(acts + [ReadCounter]).windows| && c in Run(acts + [ReadCounter]).reported[w]
    ensures exists more ::
              LogSum(Run(acts + [ReadCounter] + more).log, w, Only(c), Late) == OwedSum(Run(acts).handlers, w, Only(c))
  {
    hide Script, Run, LogSum, Inv;
    var more := FinishAll(acts + [ReadCounter]);
    ResidueIsOwedAtRead(acts, more, w, c);
    RunInv(acts + [ReadCounter] + more);
    assert Inv(Run(acts + [ReadCounter] + more));
    FinishedOweNothing(Run(acts + [ReadCounter] + more).handlers, w, Only(c));
  }

  /** The reporter finishes its loads undisturbed. */
  lemma {:induction false} ReadOn(acts: seq<Action>, n: nat) returns (more: seq<Action>)
    requires Run(acts).reporter.Reading? && n == READS - Run(acts).reporter.k
    ensures var s, t := Run(acts), Run(acts + more);
            t.reporter == Idle && t.log == s.log && t.handlers == s.handlers && t.windows == s.windows
    decreases n
  {
    hide Run, NoteRead, Script;
    RunNext(acts, ReadCounter);
    if n == 1 {
      more := [ReadCounter];
    } else {
      var rest := ReadOn(acts + [ReadCounter], n - 1);
      more := [ReadCounter] + rest;
      assert acts + more == acts + [ReadCounter] + rest;
    }
  }

  /** From every run the reporter alone can report the window that is current: it finishes its loads, swaps, and loads
      all that the report needs. */
  lemma NextReport(acts: seq<Action>) returns (more: seq<Action>)
    ensures var s, t := Run(acts), Run(acts + more); var w := s.Current();
            && Retired(t, w) && t.reporter == Idle && t.log == s.log && t.handlers == s.handlers
            && (forall c :: WasRead(t.reported[w], c))
  {
    hide Run, WasRead, NoteRead;
    var a := [];
    if Run(acts).reporter.Reading? {
      a := ReadOn(acts, READS - Run(acts).reporter.k);
    }
    assert acts + [] == acts;
    RunNext(acts + a, LoadWindow);
    RunNext(acts + a + [LoadWindow], StoreWindow);
    var b := acts + a + [LoadWindow] + [StoreWindow];
    var loads := ReadOn(b, READS);
    more := a + [LoadWindow, StoreWindow] + loads;
    assert acts + more == b + loads;
    forall c ensures WasRead(Run(b + loads).reported[Run(acts).Current()], c) {
      RetiredIsReported(b + loads, Run(acts).Current(), c);
    }
  }

  /** Some increment of window w came after its counter had been loaded. */
  ghost predicate SomeLate(s: State, w: nat) {
    exists i :: 0 <= i < |s.log| && s.log[i].win == w && s.log[i].late
  }

  /** Whether a request straddled a window's swap is settled by the swap. */
  lemma {:induction false} StraddledStays(acts: seq<Action>, more: seq<Action>, w: nat)
    requires Retired(Run(acts), w)
    ensures Retired(Run(acts + more), w) && Run(acts + more).straddled[w] == Run(acts).straddled[w]
  {
    hide Run, Script, NoteRead;
    if more == [] {
      assert acts + more == acts;
    } else {
      var k := |more| - 1;
      StraddledStays(acts, more[..k], w);
      RunNext(acts + more[..k], more[k]);
      assert acts + more == acts + more[..k] + [more[k]];
    }
  }

  /** The last thing every request adds to is a counter that is always loaded. */
  lemma LastInc(o: Outcome)
    ensures |Script(o)| > 0
    ensures var c := Script(o)[|Script(o)| - 1].counter; !c.NonStreamBucket? && !c.StreamBucket?
  {
  }

  /** A request that has something left to add to a window whose loads are over comes late in the end. */
  lemma {:induction false} ComesLate(acts: seq<Action>, h: nat, w: nat) returns (more: seq<Action>)
    requires w < |Run(acts).windows| && h < |Run(acts).handlers| && Straddles(Run(acts).handlers[h], w)
    requires forall c :: WasRead(Run(acts).reported[w], c)
    ensures SomeLate(Run(acts + more), w)
    decreases |Script(Run(acts).handlers[h].outcome)| - Run(acts).handlers[h].pc
  {
    hide Run, Script;
    var s := Run(acts);
    var me := s.handlers[h];
    RunNext(acts, Work(h));
    LastInc(me.outcome);
    var t := Run(acts + [Work(h)]);
    assert t.handlers[h] == me.(pc := me.pc + 1) && t.reported == s.reported && |t.windows| == |s.windows|;
    if me.pc + 1 == |Script(me.outcome)| {
      var e := t.log[|s.log|];
      assert WasRead(s.reported[w], e.inc.counter);
      assert e.win == w && e.late;
      more := [Work(h)];
    } else {
      var rest := ComesLate(acts + [Work(h)], h, w);
      more := [Work(h)] + rest;
      assert acts + more == acts + [Work(h)] + rest;
    }
  }

  lemma StraddlerComesLate(acts: seq<Action>, h: nat)
    requires Run(acts).reporter.Loaded?
    requires h < |Run(acts).handlers| && Straddles(Run(acts).handlers[h], Run(acts).Current())
    ensures exists more :: SomeLate(Run(acts + [StoreWindow] + more), Run(acts).Current())
  {
    hide Run, Script, WasRead, SomeLate;
    var s, w := Run(acts), Run(acts).Current();
    RunNext(acts, StoreWindow);
    var b := acts + [StoreWindow];
    var loads := ReadOn(b, READS);
    forall c ensures WasRead(Run(b + loads).reported[w], c) { RetiredIsReported(b + loads, w, c); }
    var rest := ComesLate(b + loads, h, w);
    assert b + (loads + rest) == b + loads + rest;
  }

  /** At the swap: something can still come late to the window if and only if some request that pinned it is not
      finished. */
  lemma LateIffStraddled(acts: seq<Action>)
    requires Run(acts).reporter.Loaded?
    ensures (exists more :: SomeLate(Run(acts + [StoreWindow] + more), Run(acts).Current()))
       <==> AnyStraddles(Run(acts).handlers, Run(acts).Current())
  {
    hide Run, Script, Straddles, ValuesAgree, ReadsAgree;
    var s, w := Run(acts), Run(acts).Current();
    RunNext(acts, StoreWindow);
    if more :| SomeLate(Run(acts + [StoreWindow] + more), w) {
      RunInv(acts + [StoreWindow] + more);
      StraddledStays(acts + [StoreWindow], more, w);
    }
    if AnyStraddles(s.handlers, w) {
      var h: nat :| h < |s.handlers| && Straddles(s.handlers[h], w);
      StraddlerComesLate(acts, h);
    }
  }

  /** "No sample is ever lost" is false: a request pins the first window and is counted in it only after its snapshot.
      */
  lemma SampleIsLost()
    ensures exists acts :: var s := Run(acts); Retired(s, 0) && LogSum(s.log, 0, Only(Requests), Late) == 1
  {
    hide Run, LogSum;
    var a := RequestsReadEarly();
    var t := Run(a + [Work(0)]);
    RunNext(a, Work(0));
    assert t.log == [] + [Event(0, Inc(Requests, 1), true)];
    OneLate(0, Inc(Requests, 1));
    assert Retired(t, 0);
  }

  /** A request that has pinned the first window and added nothing yet, when its request count has been loaded. */
  lemma RequestsReadEarly() returns (acts: seq<Action>)
    ensures var s := Run(acts);
            && |s.windows| == 2 && s.handlers == [Handler(0, Failed(OtherFailure), 0)] && s.log == []
            && Requests in s.reported[0]
  {
    hide Run, LogSum, Script, AnyStraddles;
    var a0: seq<Action> := [];
    assert Run(a0) == INITIAL by { RunsFromInitial(); }
    RunNext(a0, Spawn(Failed(OtherFailure)));
    var a1 := a0 + [Spawn(Failed(OtherFailure))];
    RunNext(a1, LoadWindow);
    RunNext(a1 + [LoadWindow], StoreWindow);
    RunNext(a1 + [LoadWindow] + [StoreWindow], ReadCounter);
    acts := a1 + [LoadWindow] + [StoreWindow] + [ReadCounter];
  }

  lemma RunsFromInitial()
    ensures Run([]) == INITIAL
  {
  }

  lemma OneLate(w: nat, inc: Inc)
    ensures LogSum([] + [Event(w, inc, true)], w, Only(inc.counter), Late) == inc.n
  {
    assert ([] + [Event(w, inc, true)])[..0] == [];
  }
}
