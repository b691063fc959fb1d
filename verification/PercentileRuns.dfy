/** The percentile the metrics reporter computes while requests may still be recording (metrics.go:39-58, 119-146). */
module PercentileRuns {
  import opened Histogram
  import opened Windows
  import opened Chat
  import opened RequestWindows
  import opened MetricsRuns

  // ----- The samples of a window -----

  /** What a request records in a series. */
  function Recorded(o: Outcome, streaming: bool): seq<int> {
    match o
    case Failed(_) => []
    case Answered(_, latency) => if streaming then [] else [latency]
    case Streamed(deltas, ttft, _, _, _, _) => if streaming && HasContent(deltas) then [ttft] else []
  }

  /** The samples of all requests that pinned window w. */
  function Samples(hs: seq<Handler>, w: nat, streaming: bool): seq<int> {
    if hs == [] then []
    else
      var n := |hs| - 1;
      Samples(hs[..n], w, streaming) + (if hs[n].win == w then Recorded(hs[n].outcome, streaming) else [])
  }

  /** The request has nothing more to add to the count and the buckets of the series. */
  predicate DoneWith(h: Handler, streaming: bool) {
    Recorded(h.outcome, streaming) == [] || h.pc >= 4
  }

  ghost predicate Settled(hs: seq<Handler>, w: nat, streaming: bool) {
    forall h :: 0 <= h < |hs| && hs[h].win == w ==> DoneWith(hs[h], streaming)
  }

  function Buckets(v: Window, streaming: bool): seq<int> { if streaming then v.streamBuckets else v.nonStreamBuckets }

  lemma DoneAdds(h: Handler, streaming: bool, i: Bucket)
    requires h.pc <= |Script(h.outcome)| && DoneWith(h, streaming)
    ensures Done(h, Only(CountOf(streaming))) == |Recorded(h.outcome, streaming)|
    ensures Done(h, Only(BucketOf(streaming, i))) == CountIn(Recorded(h.outcome, streaming), i)
  {
    hide Script, Total, Done, BucketIndex;
    DoneByStep(h, Only(CountOf(streaming)));
    DoneByStep(h, Only(BucketOf(streaming, i)));
    OneIn(h.outcome, streaming, i);
  }

  lemma OneIn(o: Outcome, streaming: bool, i: Bucket)
    ensures CountIn(Recorded(o, streaming), i)
         == if Recorded(o, streaming) == [] then 0 else if BucketIndex(Recorded(o, streaming)[0]) == i then 1 else 0
  {
    hide BucketIndex;
    var r := Recorded(o, streaming);
    if r != [] {
      assert CountIn(r[1..], i) == 0;
    }
  }

  lemma {:induction false} CountInConcat(xs: seq<int>, ys: seq<int>, i: nat)
    ensures CountIn(xs + ys, i) == CountIn(xs, i) + CountIn(ys, i)
  {
    if xs == [] {
      assert xs + ys == ys;
    } else {
      assert (xs + ys)[1..] == xs[1..] + ys;
      CountInConcat(xs[1..], ys, i);
    }
  }

  lemma {:induction false} SamplesCounted(hs: seq<Handler>, w: nat, streaming: bool, i: Bucket)
    requires InRange(hs) && Settled(hs, w, streaming)
    ensures DoneSum(hs, w, Only(BucketOf(streaming, i))) == CountIn(Samples(hs, w, streaming), i)
    ensures DoneSum(hs, w, Only(CountOf(streaming))) == |Samples(hs, w, streaming)|
  {
    hide Script, Total, Done, CountIn, Recorded, DoneWith;
    if hs == [] {
      NoSamples(i);
    } else {
      var n := |hs| - 1;
      SamplesCounted(hs[..n], w, streaming, i);
      if hs[n].win == w {
        DoneAdds(hs[n], streaming, i);
        CountInConcat(Samples(hs[..n], w, streaming), Recorded(hs[n].outcome, streaming), i);
      } else {
        assert Samples(hs, w, streaming) == Samples(hs[..n], w, streaming);
      }
    }
  }

  lemma NoSamples(i: Bucket)
    ensures CountIn([], i) == 0
  {
  }

  /** In a settled window a counter of the series holds what the samples say. */
  lemma SettledValue(s: State, w: nat, streaming: bool, i: Bucket)
    requires WellFormed(s) && ValuesAgree(s) && w < |s.windows| && Settled(s.handlers, w, streaming)
    ensures s.windows[w].Value(Only(BucketOf(streaming, i))) == CountIn(Samples(s.handlers, w, streaming), i)
    ensures s.windows[w].Value(Only(CountOf(streaming))) == |Samples(s.handlers, w, streaming)|
  {
    hide Script, Total, DoneSum, Samples;
    SamplesCounted(s.handlers, w, streaming, i);
    ValueAgrees(s, w, Only(BucketOf(streaming, i)));
    ValueAgrees(s, w, Only(CountOf(streaming)));
  }

  /** Once no request that pinned it has anything more to add to a series, a window's buckets are the histogram of
      exactly those requests' samples. */
  lemma SettledBuckets(acts: seq<Action>, w: nat, streaming: bool)
    requires w < |Run(acts).windows| && Settled(Run(acts).handlers, w, streaming)
    ensures var s := Run(acts); var v := s.windows[w];
            && Buckets(v, streaming) == BucketsOf(Samples(s.handlers, w, streaming))
            && v.Value(Only(CountOf(streaming))) == |Samples(s.handlers, w, streaming)|
  {
    hide Run, Samples, Settled, ValuesAgree, ReadsAgree, StraddlesNoted;
    RunInv(acts);
    var s := Run(acts);
    forall k | 0 <= k < BUCKET_COUNT
      ensures Buckets(s.windows[w], streaming)[k] == BucketsOf(Samples(s.handlers, w, streaming))[k]
    {
      var i: Bucket := k;
      SettledValue(s, w, streaming, i);
    }
    SettledValue(s, w, streaming, 0);
  }

  /** So a snapshot of such a window reports, for the series, the edge of the bucket that holds the exact order
      statistic of its samples. */
  lemma SettledP95(
      acts: seq<Action>, w: nat, streaming: bool, sorted: seq<int>, k: nat, r: Report, start: int, seconds: real)
    requires w < |Run(acts).windows| && Settled(Run(acts).handlers, w, streaming)
    requires IsSorted(sorted) && |sorted| > 0 && multiset(sorted) == multiset(Samples(Run(acts).handlers, w, streaming))
    requires 1 <= k && 95 * |sorted| < 100 * (k + 1) && (k == 1 || 100 * k <= 95 * |sorted|)
    requires Reports(r, Run(acts).windows[w], start, seconds)
    ensures k <= |sorted| && (if streaming then r.streamCount else r.nonStreamCount) == |sorted|
    ensures (if streaming then r.streamP95 else r.nonStreamP95) == Edge(BucketIndex(sorted[k - 1]))
  {
    hide Run, Samples, Settled, BucketIndex, BucketsOf, Crosses;
    SettledBuckets(acts, w, streaming);
    assert |sorted| == |multiset(sorted)| == |Samples(Run(acts).handlers, w, streaming)|;
    WalkFindsOrderStatistic(Samples(Run(acts).handlers, w, streaming), sorted, k);
  }

  // ----- A window that is read load by load -----

  /** What was loaded of the series says what the samples say, and nothing more is to come. */
  ghost predicate Held(s: State, w: nat, streaming: bool)
    requires WellFormed(s)
  {
    && Retired(s, w) && Settled(s.handlers, w, streaming)
    && CountOf(streaming) in s.reported[w]
    && s.reported[w][CountOf(streaming)] == |Samples(s.handlers, w, streaming)|
    && (forall i: Bucket :: BucketOf(streaming, i) in s.reported[w] ==>
          s.reported[w][BucketOf(streaming, i)] == CountIn(Samples(s.handlers, w, streaming), i))
  }

  lemma {:induction false} SamplesUpdate(hs: seq<Handler>, h: nat, pc: nat, w: nat, streaming: bool)
    requires h < |hs|
    ensures Samples(hs[h := hs[h].(pc := pc)], w, streaming) == Samples(hs, w, streaming)
  {
    hide Recorded;
    var n := |hs| - 1;
    if h == n {
      assert hs[h := hs[h].(pc := pc)][..n] == hs[..n];
    } else {
      assert hs[h := hs[h].(pc := pc)][..n] == hs[..n][h := hs[h].(pc := pc)];
      SamplesUpdate(hs[..n], h, pc, w, streaming);
    }
  }

  /** No step adds to a retired window's samples, or unsettles it. */
  lemma SamplesStay(s: State, a: Action, w: nat, streaming: bool)
    requires WellFormed(s) && Retired(s, w)
    ensures Retired(Step(s, a), w)
    ensures Samples(Step(s, a).handlers, w, streaming) == Samples(s.handlers, w, streaming)
    ensures Settled(s.handlers, w, streaming) ==> Settled(Step(s, a).handlers, w, streaming)
  {
    hide Recorded, NoteRead, Script;
    match a
    case Spawn(o) => assert Step(s, a).handlers[..|s.handlers|] == s.handlers;
    case Work(h) =>
      if h < |s.handlers| && !Finished(s.handlers[h]) {
        SamplesUpdate(s.handlers, h, s.handlers[h].pc + 1, w, streaming);
        assert WorkStep(s, h).handlers == s.handlers[h := s.handlers[h].(pc := s.handlers[h].pc + 1)];
      }
    case LoadWindow =>
    case StoreWindow =>
    case ReadCounter =>
  }

  /** What a load notes: the counter's own value, or that a sum was skipped. */
  lemma NoteReadNotes(got: map<Counter, int>, c: Counter, v: int)
    ensures forall d :: d in got ==> d in NoteRead(got, c, v) && NoteRead(got, c, v)[d] == got[d]
    ensures forall d :: d in NoteRead(got, c, v) && d !in got ==>
              (d == c && NoteRead(got, c, v)[d] == v) || d == NonStreamLatency || d == StreamTtft
  {
    hide WalksTo;
  }

  /** Whatever a load notes of a settled series agrees with the samples. */
  lemma ReadAgrees(s: State, w: nat, streaming: bool, c: Counter)
    requires Inv(s) && w < |s.windows| && Settled(s.handlers, w, streaming)
    ensures var got := NoteRead(s.reported[w], c, s.windows[w].Value(Only(c)));
            && (forall d :: d in s.reported[w] ==> d in got && got[d] == s.reported[w][d])
            && (CountOf(streaming) in got && CountOf(streaming) !in s.reported[w] ==>
                  got[CountOf(streaming)] == |Samples(s.handlers, w, streaming)|)
            && (forall i: Bucket :: BucketOf(streaming, i) in got && BucketOf(streaming, i) !in s.reported[w] ==>
                  got[BucketOf(streaming, i)] == CountIn(Samples(s.handlers, w, streaming), i))
  {
    hide Samples, Settled, NoteRead, ValuesAgree, ReadsAgree, StraddlesNoted;
    NoteReadNotes(s.reported[w], c, s.windows[w].Value(Only(c)));
    forall i: Bucket
      ensures s.windows[w].Value(Only(BucketOf(streaming, i))) == CountIn(Samples(s.handlers, w, streaming), i)
    {
      SettledValue(s, w, streaming, i);
    }
    SettledValue(s, w, streaming, 0);
  }

  lemma HeldStep(s: State, a: Action, w: nat, streaming: bool)
    requires Inv(s) && Held(s, w, streaming)
    ensures Held(Step(s, a), w, streaming)
  {
    hide Samples, Settled, NoteRead, Script, CountOf, BucketOf, ValuesAgree, ReadsAgree, StraddlesNoted;
    SamplesStay(s, a, w, streaming);
    if a.ReadCounter? && s.reporter.Reading? && s.reporter.win == w {
      ReadAgrees(s, w, streaming, ReadAt(s.reporter.k));
    }
  }

  lemma CountJustRead(s: State, w: nat, streaming: bool)
    requires Inv(s) && w < |s.windows| && Settled(s.handlers, w, streaming) && CountOf(streaming) !in s.reported[w]
    requires CountOf(streaming) in Step(s, ReadCounter).reported[w]
    ensures Held(Step(s, ReadCounter), w, streaming)
  {
    hide Samples, Settled, NoteRead, Script, ValuesAgree, StraddlesNoted, LogSum, WasRead;
    assert s.reporter.Reading? && s.reporter.win == w;
    assert forall i: Bucket :: BucketOf(streaming, i) !in s.reported[w];
    ReadAgrees(s, w, streaming, ReadAt(s.reporter.k));
  }

  lemma {:induction false} HeldAfter(acts: seq<Action>, more: seq<Action>, w: nat, streaming: bool)
    requires Held(Run(acts), w, streaming)
    ensures Held(Run(acts + more), w, streaming)
  {
    hide Held, Inv, Step, Run;
    if more == [] {
      assert acts + more == acts;
    } else {
      var k := |more| - 1;
      HeldAfter(acts, more[..k], w, streaming);
      RunInv(acts + more[..k]);
      HeldStep(Run(acts + more[..k]), more[k], w, streaming);
      RunNext(acts + more[..k], more[k]);
      assert acts + more == acts + more[..k] + [more[k]];
    }
  }

  /** The buckets loaded are those of the samples up to and including the one where the walk stops. */
  lemma {:induction false} LoadedUpTo(got: map<Counter, int>, streaming: bool, xs: seq<int>, i: nat)
    requires i <= BUCKET_COUNT && |xs| > 0 && CountOf(streaming) in got && got[CountOf(streaming)] == |xs|
    requires forall j: Bucket :: WasRead(got, BucketOf(streaming, j))
    requires forall j: Bucket :: BucketOf(streaming, j) in got ==> got[BucketOf(streaming, j)] == CountIn(xs, j)
    requires forall j: nat :: j < i ==> Cumulative(BucketsOf(xs), j) < Rank(|xs|)
    ensures Cumulative(BucketsRead(got, streaming), i) == Cumulative(BucketsOf(xs), i)
  {
    hide CountIn, Rank;
    if i > 0 {
      LoadedUpTo(got, streaming, xs, i - 1);
      var j: Bucket := i - 1;
      assert WalksTo(got, streaming, j);
      assert WasRead(got, BucketOf(streaming, j));
    }
  }

  lemma SameCrossing(got: map<Counter, int>, streaming: bool, xs: seq<int>, b: nat)
    requires |xs| > 0 && CountOf(streaming) in got && got[CountOf(streaming)] == |xs|
    requires forall j: Bucket :: WasRead(got, BucketOf(streaming, j))
    requires forall j: Bucket :: BucketOf(streaming, j) in got ==> got[BucketOf(streaming, j)] == CountIn(xs, j)
    requires Crosses(BucketsOf(xs), Rank(|xs|), b)
    ensures Crosses(BucketsRead(got, streaming), Rank(|xs|), b)
  {
    hide BucketsOf, BucketsRead, WasRead, CountIn, Rank, Cumulative;
    forall i: nat | i <= b + 1
      ensures Cumulative(BucketsRead(got, streaming), i) == Cumulative(BucketsOf(xs), i)
    {
      LoadedUpTo(got, streaming, xs, i);
    }
  }

  /** When no request owes the series anything at the moment its count is loaded, the percentile that the later loads
      give is the edge of the bucket that holds the exact order statistic of all its samples, whatever else goes on in
      between. */
  lemma P95IsExact(
      acts: seq<Action>, more: seq<Action>, w: nat, streaming: bool, sorted: seq<int>, k: nat, p: int)
    requires w < |Run(acts).windows| && CountOf(streaming) !in Run(acts).reported[w]
    requires w < |Run(acts + [ReadCounter]).windows| && CountOf(streaming) in Run(acts + [ReadCounter]).reported[w]
    requires Settled(Run(acts).handlers, w, streaming)
    requires var t := Run(acts + [ReadCounter] + more);
             && w < |t.windows| && (t.reporter.Reading? ==> t.reporter.win != w)
             && IsSorted(sorted) && multiset(sorted) == multiset(Samples(t.handlers, w, streaming))
             && CountOf(streaming) in t.reported[w]
             && IsP95(p, BucketsRead(t.reported[w], streaming), t.reported[w][CountOf(streaming)])
    requires 1 <= k && 95 * |sorted| < 100 * (k + 1) && (k == 1 || 100 * k <= 95 * |sorted|)
    ensures if sorted == [] then p == 0 else k <= |sorted| && p == Edge(BucketIndex(sorted[k - 1]))
  {
    hide Run, Step, Inv, Samples, Settled, BucketsOf, BucketsRead, BucketIndex, Crosses, WasRead, CountIn, Rank;
    RunInv(acts);
    RunNext(acts, ReadCounter);
    CountJustRead(Run(acts), w, streaming);
    HeldAfter(acts + [ReadCounter], more, w, streaming);
    var t := Run(acts + [ReadCounter] + more);
    var xs := Samples(t.handlers, w, streaming);
    assert |sorted| == |multiset(sorted)| == |multiset(xs)| == |xs|;
    if sorted != [] {
      WalkFindsOrderStatistic(xs, sorted, k);
      forall j: Bucket ensures WasRead(t.reported[w], BucketOf(streaming, j)) {
        RetiredIsReported(acts + [ReadCounter] + more, w, BucketOf(streaming, j));
      }
      SameCrossing(t.reported[w], streaming, xs, BucketIndex(sorted[k - 1]));
    }
  }

  // ----- And when a request does owe it something -----

  /** A request that is between its count and its bucket while both are loaded makes the percentile meaningless: one
      sample of 10 ms is reported as 25600. */
  lemma HalfRecordedIsOff()
    ensures exists acts ::
              var s := Run(acts); var got := s.reported[0];
              && Retired(s, 0) && s.reporter == Idle && Samples(s.handlers, 0, false) == [10]
              && NonStreamCount in got && got[NonStreamCount] == 1
              && forall p :: IsP95(p, BucketsRead(got, false), 1) ==> p == 25600
  {
    hide Run, NoteRead, IsP95, BucketsRead, Script, IncAt, LogSum;
    var o := Answered(Reply("", "", Usage(0, 0, 0), "", [], ""), 10);
    var a2 := HalfRecorded(o);
    RunNext(a2, LoadWindow);
    RunNext(a2 + [LoadWindow], StoreWindow);
    var a4 := a2 + [LoadWindow] + [StoreWindow];
    var more := ReadOn(a4, READS);
    var acts := a4 + more;
    var s := Run(acts);
    RunInv(acts);
    OnlyCounted(s);
    RetiredIsReported(acts, 0, NonStreamCount);
    OneSample(o);
    assert s.handlers == [Handler(0, o, 2)] && s.reporter == Idle && Retired(s, 0);
    assert WasRead(s.reported[0], NonStreamCount);
  }

  lemma OneSample(o: Outcome)
    requires o.Answered?
    ensures Samples([Handler(0, o, 2)], 0, false) == [o.latency]
  {
    var hs := [Handler(0, o, 2)];
    assert hs[..0] == [];
    assert Samples(hs[..0], 0, false) == [];
  }

  const HALF: seq<Event> := [Event(0, Inc(Requests, 1), false), Event(0, Inc(NonStreamCount, 1), false)]

  /** A request that has counted itself in the series and no more. */
  lemma HalfRecorded(o: Outcome) returns (acts: seq<Action>)
    requires o.Answered?
    ensures var s := Run(acts);
            && |s.windows| == 1 && s.reporter == Idle && s.handlers == [Handler(0, o, 2)] && s.log == HALF
  {
    hide Run, Script;
    var a0: seq<Action> := [];
    assert Run(a0) == INITIAL by { RunsFromInitial(); }
    RunNext(a0, Spawn(o));
    RunNext(a0 + [Spawn(o)], Work(0));
    RunNext(a0 + [Spawn(o)] + [Work(0)], Work(0));
    ScriptLength(o);
    ScriptAt(o, 0);
    ScriptAt(o, 1);
    acts := a0 + [Spawn(o)] + [Work(0)] + [Work(0)];
  }

  lemma ScriptLength(o: Outcome)
    ensures o.Answered? ==> |Script(o)| == 6
  {
  }

  /** What is loaded when only the count was made: one to rank, and nothing in any bucket. */
  lemma OnlyCounted(s: State)
    requires Inv(s) && s.log == HALF && 0 < |s.windows|
    ensures NonStreamCount in s.reported[0] ==> s.reported[0][NonStreamCount] == 1
    ensures forall p :: IsP95(p, BucketsRead(s.reported[0], false), 1) ==> p == 25600
  {
    hide LogSum, ValuesAgree, StraddlesNoted, WasRead, Cumulative, Crosses;
    var got := s.reported[0];
    HalfSums();
    var b := BucketsRead(got, false);
    forall k | 0 <= k < BUCKET_COUNT ensures b[k] == 0 {
      var i: Bucket := k;
      assert BucketOf(false, i) in got ==> got[BucketOf(false, i)] == LogSum(HALF, 0, Only(BucketOf(false, i)), OnTime);
    }
    forall j | 0 <= j <= BUCKET_COUNT ensures Cumulative(b, j) == 0 { CumulativeZero(b, j); }
  }

  lemma HalfSums()
    ensures LogSum(HALF, 0, Only(NonStreamCount), OnTime) == 1
    ensures forall i: Bucket :: LogSum(HALF, 0, Only(BucketOf(false, i)), OnTime) == 0
  {
    assert HALF[..1] == [HALF[0]];
    assert [HALF[0]][..0] == [];
    forall i: Bucket ensures LogSum(HALF, 0, Only(BucketOf(false, i)), OnTime) == 0 {
      var m := Only(BucketOf(false, i));
      assert LogSum([HALF[0]], 0, m, OnTime) == LogSum([], 0, m, OnTime) + 0;
    }
  }
}
