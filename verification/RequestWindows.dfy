/** requestWindow and requestMetrics (metrics.go): counters updated in place, one window current at a time. */
module RequestWindows {
  import opened Histogram
  import opened Windows
  import opened Chat

  /** What reportMetricsLoop sends about one window; averages are 0 when there is nothing to average. */
  datatype Report = Report(
    windowStart: int, windowSeconds: real,
    requests: int, errors: int, inputTokens: int, outputTokens: int, nonStreamCount: int, streamCount: int,
    avgInput: real, avgOutput: real, tokensPerSecond: real,
    nonStreamAvg: real, nonStreamP95: int, streamAvg: real, streamP95: int)

  class RequestWindow {
    var requestCount: int
    var errorCount: int
    var inputTokens: int
    var outputTokens: int
    var nonStreamCount: int
    var nonStreamLatencySumMs: int
    const nonStreamBuckets: array<int>
    var streamCount: int
    var streamTTFTSumMs: int
    const streamBuckets: array<int>

    /** Every atomic addition so far, in order. */
    ghost var incs: seq<Inc>

    ghost predicate Shaped() {
      && nonStreamBuckets.Length == BUCKET_COUNT && streamBuckets.Length == BUCKET_COUNT
      && nonStreamBuckets != streamBuckets
    }

    /** The counters are what the additions make them. */
    ghost predicate Valid()
      reads this, nonStreamBuckets, streamBuckets
    {
      Shaped() && View() == EMPTY_WINDOW.AddAll(incs)
    }

    ghost function Repr(): set<object> { {this, nonStreamBuckets, streamBuckets} }

    ghost function View(): (w: Window)
      requires Shaped()
      reads this, nonStreamBuckets, streamBuckets
      ensures w.Valid()
    {
      Window(requestCount, errorCount, inputTokens, outputTokens,
             nonStreamCount, nonStreamLatencySumMs, nonStreamBuckets[..],
             streamCount, streamTTFTSumMs, streamBuckets[..])
    }

    constructor ()
      ensures Valid() && fresh(Repr()) && View() == EMPTY_WINDOW && incs == []
    {
      requestCount, errorCount, inputTokens, outputTokens := 0, 0, 0, 0;
      nonStreamCount, nonStreamLatencySumMs, streamCount, streamTTFTSumMs := 0, 0, 0, 0;
      nonStreamBuckets := new int[BUCKET_COUNT](_ => 0);
      streamBuckets := new int[BUCKET_COUNT](_ => 0);
      incs := [];
    }

    /** atomic.AddInt64 on one counter: the only way a counter changes. */
    method AddInt64(counter: Counter, n: int)
      requires Valid()
      modifies Repr()
      ensures Valid() && incs == old(incs) + [Inc(counter, n)]
      ensures View() == old(View()).Add(Inc(counter, n))
    {
      hide Window.AddAll;
      match counter {
        case Requests => requestCount := requestCount + n;
        case Errors => errorCount := errorCount + n;
        case InputTokens => inputTokens := inputTokens + n;
        case OutputTokens => outputTokens := outputTokens + n;
        case NonStreamCount => nonStreamCount := nonStreamCount + n;
        case NonStreamLatency => nonStreamLatencySumMs := nonStreamLatencySumMs + n;
        case NonStreamBucket(i) => nonStreamBuckets[i] := nonStreamBuckets[i] + n;
        case StreamCount => streamCount := streamCount + n;
        case StreamTtft => streamTTFTSumMs := streamTTFTSumMs + n;
        case StreamBucket(i) => streamBuckets[i] := streamBuckets[i] + n;
      }
      AddNext(incs, Inc(counter, n));
      incs := incs + [Inc(counter, n)];
    }

    /** So every measure is what the additions so far add up to. */
    lemma MeasuresAddUp()
      requires Valid()
      ensures Shaped() && forall m: Measure :: View().Value(m) == Total(incs, m)
    {
      hide Window.AddAll, Total;
      forall m: Measure ensures View().Value(m) == Total(incs, m) {
        AddAllMoves(EMPTY_WINDOW, incs, m);
        EmptyWindowIsZero(m);
      }
    }

    method RecordRequestStart()
      requires Valid()
      modifies Repr()
      ensures Valid() && incs == old(incs) + [Inc(Requests, 1)]
    {
      AddInt64(Requests, 1);
    }

    method RecordError()
      requires Valid()
      modifies Repr()
      ensures Valid() && incs == old(incs) + [Inc(Errors, 1)]
    {
      AddInt64(Errors, 1);
    }

    method RecordTokens(usage: Option<Usage>)
      requires Valid()
      modifies Repr()
      ensures Valid() && incs == old(incs) + (if usage.None? then [] else TokenIncs(usage.value))
    {
      if usage.None? {
        return;
      }
      AddInt64(InputTokens, usage.value.input);
      AddInt64(OutputTokens, usage.value.output);
    }

    method RecordNonStreamLatency(ms: int)
      requires Valid()
      modifies Repr()
      ensures Valid() && incs == old(incs) + LatencyIncs(ms)
    {
      AddInt64(NonStreamCount, 1);
      AddInt64(NonStreamLatency, ms);
      AddInt64(NonStreamBucket(BucketIndex(ms)), 1);
    }

    method RecordTTFT(ms: int)
      requires Valid()
      modifies Repr()
      ensures Valid() && incs == old(incs) + TtftIncs(ms)
    {
      AddInt64(StreamCount, 1);
      AddInt64(StreamTtft, ms);
      AddInt64(StreamBucket(BucketIndex(ms)), 1);
    }

    /** Read when nobody else writes; the runs with concurrent writers are in MetricsRuns and PercentileRuns. */
    method Snapshot(windowStart: int, windowSeconds: real) returns (r: Report)
      requires Valid()
      ensures Reports(r, View(), windowStart, windowSeconds)
    {
      hide IsMean, IsP95, Mean, Window.AddAll;
      NothingToAverage(inputTokens, requestCount);
      NothingToAverage(outputTokens, requestCount);
      r := Report(windowStart, windowSeconds,
                  requestCount, errorCount, inputTokens, outputTokens, nonStreamCount, streamCount,
                  0.0, 0.0, 0.0, 0.0, 0, 0.0, 0);
      if requestCount > 0 {
        r := r.(avgInput := Mean(inputTokens, requestCount), avgOutput := Mean(outputTokens, requestCount));
        if windowSeconds > 0.0 {
          r := r.(tokensPerSecond := (inputTokens + outputTokens) as real / windowSeconds);
        }
      }
      var avg, p := SeriesSnapshot(nonStreamLatencySumMs, nonStreamCount, nonStreamBuckets[..]);
      r := r.(nonStreamAvg := avg, nonStreamP95 := p);
      avg, p := SeriesSnapshot(streamTTFTSumMs, streamCount, streamBuckets[..]);
      r := r.(streamAvg := avg, streamP95 := p);
    }
  }

  /** The mean and the percentile of one series, nothing for none. */
  method SeriesSnapshot(sum: int, count: int, buckets: seq<int>) returns (avg: real, p: int)
    ensures IsMean(avg, sum, count) && IsP95(p, buckets, count)
  {
    avg, p := 0.0, 0;
    if count > 0 {
      avg := Mean(sum, count);
      p := P95FromBuckets(buckets, count);
    }
  }

  function Mean(sum: int, count: int): (avg: real)
    requires count > 0
    ensures IsMean(avg, sum, count)
  {
    sum as real / count as real
  }

  lemma NothingToAverage(sum: int, count: int)
    ensures count <= 0 ==> IsMean(0.0, sum, count)
  {
  }

  /** p is the percentile of a bucket array: the edge of the bucket that crosses the rank, 25600 when none does. */
  ghost predicate IsP95(p: int, buckets: seq<int>, count: int) {
    if count <= 0 then p == 0
    else
      && (forall i: nat :: Crosses(buckets, Rank(count), i) ==> p == Edge(i))
      && ((forall j :: 0 <= j <= |buckets| ==> Cumulative(buckets, j) < Rank(count)) ==> p == 25600)
  }

  /** avg is the mean of count numbers that add up to sum, 0 when there are none. */
  predicate IsMean(avg: real, sum: int, count: int) {
    if count > 0 then avg * count as real == sum as real else avg == 0.0
  }

  /** r reports the window v: the counters as they stand, means that multiply out, percentiles of the buckets. */
  ghost predicate Reports(r: Report, v: Window, start: int, seconds: real) {
    && r.windowStart == start && r.windowSeconds == seconds
    && r.requests == v.requests && r.errors == v.errors
    && r.inputTokens == v.inputTokens && r.outputTokens == v.outputTokens
    && r.nonStreamCount == v.nonStreamCount && r.streamCount == v.streamCount
    && IsMean(r.avgInput, v.inputTokens, v.requests) && IsMean(r.avgOutput, v.outputTokens, v.requests)
    && (if v.requests > 0 && seconds > 0.0 then r.tokensPerSecond * seconds == (v.inputTokens + v.outputTokens) as real
        else r.tokensPerSecond == 0.0)
    && IsMean(r.nonStreamAvg, v.nonStreamLatency, v.nonStreamCount)
    && IsP95(r.nonStreamP95, v.nonStreamBuckets, v.nonStreamCount)
    && IsMean(r.streamAvg, v.streamTtft, v.streamCount) && IsP95(r.streamP95, v.streamBuckets, v.streamCount)
  }

  class RequestMetrics {
    var current: RequestWindow

    constructor ()
      ensures current.Valid() && fresh(current.Repr()) && current.View() == EMPTY_WINDOW
    {
      current := new RequestWindow();
    }

    function CurrentWindow(): RequestWindow
      reads this
    {
      current
    }

    /** Hands out the current window untouched and installs a fresh, empty one that shares nothing with it. */
    method Swap() returns (retired: RequestWindow)
      requires current.Valid()
      modifies this
      ensures retired == old(current) && retired.Valid() && retired.View() == old(current.View())
      ensures current.Valid() && current.View() == EMPTY_WINDOW && fresh(current.Repr())
    {
      retired := CurrentWindow();
      current := new RequestWindow();
    }
  }

  lemma AddNext(incs: seq<Inc>, inc: Inc)
    ensures EMPTY_WINDOW.AddAll(incs + [inc]) == EMPTY_WINDOW.AddAll(incs).Add(inc)
  {
    assert (incs + [inc])[..|incs|] == incs;
  }
}
