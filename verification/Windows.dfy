/** The counters of one reporting window (metrics.go) and the atomic increments applied to them. */
module Windows {
  import opened Histogram

  type Bucket = i: nat | i < BUCKET_COUNT

  datatype Counter =
    | Requests | Errors | InputTokens | OutputTokens
    | NonStreamCount | NonStreamLatency | NonStreamBucket(i: Bucket)
    | StreamCount | StreamTtft | StreamBucket(i: Bucket)

  /** One atomic addition to one counter. */
  datatype Inc = Inc(counter: Counter, n: int)

  datatype Window = Window(
    requests: int, errors: int, inputTokens: int, outputTokens: int,
    nonStreamCount: int, nonStreamLatency: int, nonStreamBuckets: seq<int>,
    streamCount: int, streamTtft: int, streamBuckets: seq<int>)
  {
    ghost predicate Valid() {
      |nonStreamBuckets| == BUCKET_COUNT && |streamBuckets| == BUCKET_COUNT
    }

    function Add(inc: Inc): (w: Window)
      requires Valid()
      ensures w.Valid()
    {
      match inc.counter
      case Requests => this.(requests := requests + inc.n)
      case Errors => this.(errors := errors + inc.n)
      case InputTokens => this.(inputTokens := inputTokens + inc.n)
      case OutputTokens => this.(outputTokens := outputTokens + inc.n)
      case NonStreamCount => this.(nonStreamCount := nonStreamCount + inc.n)
      case NonStreamLatency => this.(nonStreamLatency := nonStreamLatency + inc.n)
      case NonStreamBucket(i) => this.(nonStreamBuckets := nonStreamBuckets[i := nonStreamBuckets[i] + inc.n])
      case StreamCount => this.(streamCount := streamCount + inc.n)
      case StreamTtft => this.(streamTtft := streamTtft + inc.n)
      case StreamBucket(i) => this.(streamBuckets := streamBuckets[i := streamBuckets[i] + inc.n])
    }

    function AddAll(incs: seq<Inc>): (w: Window)
      requires Valid()
      ensures w.Valid()
      decreases |incs|
    {
      if incs == [] then this else AddAll(incs[..|incs| - 1]).Add(incs[|incs| - 1])
    }

    /** A counter, or the sum of a whole bucket array. */
    function Value(m: Measure): int
      requires Valid()
    {
      match m
      case AllNonStreamBuckets => Cumulative(nonStreamBuckets, BUCKET_COUNT)
      case AllStreamBuckets => Cumulative(streamBuckets, BUCKET_COUNT)
      case Only(c) =>
        match c
        case Requests => requests
        case Errors => errors
        case InputTokens => inputTokens
        case OutputTokens => outputTokens
        case NonStreamCount => nonStreamCount
        case NonStreamLatency => nonStreamLatency
        case NonStreamBucket(i) => nonStreamBuckets[i]
        case StreamCount => streamCount
        case StreamTtft => streamTtft
        case StreamBucket(i) => streamBuckets[i]
    }
  }

  datatype Measure = Only(c: Counter) | AllNonStreamBuckets | AllStreamBuckets {
    predicate Covers(c: Counter) {
      match this
      case Only(d) => c == d
      case AllNonStreamBuckets => c.NonStreamBucket?
      case AllStreamBuckets => c.StreamBucket?
    }
  }

  const NO_SAMPLES: seq<int> := [0, 0, 0, 0, 0, 0, 0, 0, 0, 0, 0]
  const EMPTY_WINDOW := Window(0, 0, 0, 0, 0, 0, NO_SAMPLES, 0, 0, NO_SAMPLES)

  /** How much a list of increments adds to a measure. */
  function Total(incs: seq<Inc>, m: Measure): int {
    if incs == [] then 0
    else Total(incs[..|incs| - 1], m) + Share(incs[|incs| - 1], m)
  }

  function Share(inc: Inc, m: Measure): int {
    if m.Covers(inc.counter) then inc.n else 0
  }

  lemma {:induction false} CumulativeUpdate(b: seq<int>, i: nat, d: int, n: nat)
    requires i < |b| && n <= |b|
    ensures Cumulative(b[i := b[i] + d], n) == Cumulative(b, n) + (if i < n then d else 0)
  {
    if n > 0 {
      CumulativeUpdate(b, i, d, n - 1);
    }
  }

  /** An increment moves exactly the measures that cover its counter. */
  lemma AddMoves(w: Window, inc: Inc, m: Measure)
    requires w.Valid()
    ensures w.Add(inc).Value(m) == w.Value(m) + Share(inc, m)
  {
    match inc.counter
    case NonStreamBucket(i) => CumulativeUpdate(w.nonStreamBuckets, i, inc.n, BUCKET_COUNT);
    case StreamBucket(i) => CumulativeUpdate(w.streamBuckets, i, inc.n, BUCKET_COUNT);
    case _ =>
  }

  lemma {:induction false} CumulativeZero(b: seq<int>, n: nat)
    requires n <= |b| && forall i :: 0 <= i < |b| ==> b[i] == 0
    ensures Cumulative(b, n) == 0
  {
    if n > 0 {
      CumulativeZero(b, n - 1);
    }
  }

  lemma EmptyWindowIsZero(m: Measure)
    ensures EMPTY_WINDOW.Valid() && EMPTY_WINDOW.Value(m) == 0
  {
    CumulativeZero(EMPTY_WINDOW.nonStreamBuckets, BUCKET_COUNT);
    CumulativeZero(EMPTY_WINDOW.streamBuckets, BUCKET_COUNT);
  }

  lemma {:induction false} AddAllMoves(w: Window, incs: seq<Inc>, m: Measure)
    requires w.Valid()
    ensures w.AddAll(incs).Value(m) == w.Value(m) + Total(incs, m)
  {
    if incs != [] {
      AddAllMoves(w, incs[..|incs| - 1], m);
      AddMoves(w.AddAll(incs[..|incs| - 1]), incs[|incs| - 1], m);
    }
  }

  lemma {:induction false} TotalConcat(a: seq<Inc>, b: seq<Inc>, m: Measure)
    ensures Total(a + b, m) == Total(a, m) + Total(b, m)
  {
    if b == [] {
      assert a + b == a;
    } else {
      assert (a + b)[..|a + b| - 1] == a + b[..|b| - 1];
      TotalConcat(a, b[..|b| - 1], m);
    }
  }
}
