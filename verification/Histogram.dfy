/** The latency histogram of metrics.go: 11 buckets, and the 95th percentile read back from them. */
module Histogram {

  const BOUNDARIES: seq<int> := [50, 100, 200, 400, 800, 1600, 3200, 6400, 12800, 25600]
  const BUCKET_COUNT: nat := 11

  /** The bucket of a sample: the first one whose upper edge is not below it. */
  function BucketIndex(ms: int): (i: nat)
    ensures i < BUCKET_COUNT
    ensures forall j :: 0 <= j < i ==> BOUNDARIES[j] < ms
    ensures i < |BOUNDARIES| ==> ms <= BOUNDARIES[i]
  {
    BucketFrom(ms, 0)
  }

  function BucketFrom(ms: int, from: nat): (i: nat)
    requires from <= |BOUNDARIES|
    requires forall j :: 0 <= j < from ==> BOUNDARIES[j] < ms
    ensures from <= i <= |BOUNDARIES|
    ensures forall j :: 0 <= j < i ==> BOUNDARIES[j] < ms
    ensures i < |BOUNDARIES| ==> ms <= BOUNDARIES[i]
    decreases |BOUNDARIES| - from
  {
    if from == |BOUNDARIES| || ms <= BOUNDARIES[from] then from else BucketFrom(ms, from + 1)
  }

  function Pow2(n: nat): nat { if n == 0 then 1 else 2 * Pow2(n - 1) }

  /** What the percentile reports for a bucket: its upper edge, the last finite edge for the overflow bucket. */
  function Edge(bucket: nat): (e: int)
    ensures e == if bucket < 10 then 50 * Pow2(bucket) else 25600
  {
    EdgesDouble();
    if bucket < |BOUNDARIES| then BOUNDARIES[bucket] else BOUNDARIES[|BOUNDARIES| - 1]
  }

  lemma EdgesDouble()
    ensures forall i: nat :: i < 10 ==> BOUNDARIES[i] == 50 * Pow2(i)
  {
    assert Pow2(1) == 2 && Pow2(2) == 4 && Pow2(3) == 8 && Pow2(4) == 16 && Pow2(5) == 32;
    assert Pow2(6) == 64 && Pow2(7) == 128 && Pow2(8) == 256 && Pow2(9) == 512;
  }

  /** The rank that stands for the 95th percentile of n samples. */
  function Rank(n: nat): (k: nat)
    ensures 1 <= k && 95 * n < 100 * (k + 1) && (k == 1 || 100 * k <= 95 * n)
  {
    if 95 * n / 100 == 0 then 1 else 95 * n / 100
  }

  /** The number of samples in the first n buckets. */
  function Cumulative(buckets: seq<int>, n: nat): int
    requires n <= |buckets|
  {
    if n == 0 then 0 else Cumulative(buckets, n - 1) + buckets[n - 1]
  }

  /** Bucket i is the first at which the running total reaches target. */
  ghost predicate Crosses(buckets: seq<int>, target: int, i: nat) {
    && i < |buckets|
    && Cumulative(buckets, i + 1) >= target
    && forall j :: 0 <= j <= i ==> Cumulative(buckets, j) < target
  }

  /** The bucket walk. The rank k is 95 per cent of the samples, rounded down, and at least 1; the result is the edge of
      the bucket that crosses it, 25600 when no bucket does. */
  method P95FromBuckets(buckets: seq<int>, total: nat) returns (p: int)
    ensures total == 0 ==> p == 0
    ensures total > 0 ==>
              forall k: nat, i: nat | Crosses(buckets, k, i) ::
                1 <= k && 95 * total < 100 * (k + 1) && (k == 1 || 100 * k <= 95 * total) ==>
                  p == if i < 10 then 50 * Pow2(i) else 25600
    ensures total > 0 && (forall j :: 0 <= j <= |buckets| ==> Cumulative(buckets, j) < Rank(total)) ==> p == 25600
  {
    hide Pow2;
    EdgesDouble();
    if total == 0 {
      return 0;
    }
    var target := 95 * total / 100;
    if target == 0 {
      target := 1;
    }
    var cum := 0;
    for i := 0 to |buckets|
      invariant cum == Cumulative(buckets, i)
      invariant forall j :: 0 <= j <= i ==> Cumulative(buckets, j) < target
    {
      cum := cum + buckets[i];
      if cum >= target {
        CrossingIsUnique(buckets, target, i);
        if i < |BOUNDARIES| {
          return BOUNDARIES[i];
        }
        return BOUNDARIES[|BOUNDARIES| - 1];
      }
    }
    p := BOUNDARIES[|BOUNDARIES| - 1];
  }

  lemma CrossingIsUnique(buckets: seq<int>, target: int, i: nat)
    requires Crosses(buckets, target, i)
    ensures forall j: nat :: Crosses(buckets, target, j) ==> j == i
  {
    forall j: nat | Crosses(buckets, target, j) ensures j == i {
      var before := (n: nat) => n <= |buckets| && Cumulative(buckets, n) < target;
      assert before(i) && before(j) && !before(i + 1) && !before(j + 1);
    }
  }

  // ----- The histogram of a list of samples -----

  function CountIn(xs: seq<int>, bucket: nat): nat {
    if xs == [] then 0 else (if BucketIndex(xs[0]) == bucket then 1 else 0) + CountIn(xs[1..], bucket)
  }

  function CountUpTo(xs: seq<int>, bucket: int): nat {
    if xs == [] then 0 else (if BucketIndex(xs[0]) <= bucket then 1 else 0) + CountUpTo(xs[1..], bucket)
  }

  /** The buckets after every sample of xs was recorded, in any order. */
  function BucketsOf(xs: seq<int>): (h: seq<int>)
    ensures |h| == BUCKET_COUNT
  {
    seq(BUCKET_COUNT, i requires 0 <= i < BUCKET_COUNT => CountIn(xs, i))
  }

  /** Recording one more sample adds one to its own bucket and touches no other. */
  lemma {:induction false} CountInSnoc(xs: seq<int>, x: int, bucket: nat)
    ensures CountIn(xs + [x], bucket) == CountIn(xs, bucket) + (if BucketIndex(x) == bucket then 1 else 0)
  {
    if xs == [] {
      assert [] + [x] == [x];
    } else {
      assert (xs + [x])[1..] == xs[1..] + [x];
      CountInSnoc(xs[1..], x, bucket);
    }
  }

  lemma BucketsOfSnoc(xs: seq<int>, x: int)
    ensures BucketsOf(xs + [x]) == BucketsOf(xs)[BucketIndex(x) := BucketsOf(xs)[BucketIndex(x)] + 1]
  {
    forall i | 0 <= i < BUCKET_COUNT
      ensures BucketsOf(xs + [x])[i] == BucketsOf(xs)[BucketIndex(x) := BucketsOf(xs)[BucketIndex(x)] + 1][i]
    {
      CountInSnoc(xs, x, i);
    }
  }

  lemma {:induction false} CountUpToSplits(xs: seq<int>, bucket: nat)
    ensures CountUpTo(xs, bucket) == CountUpTo(xs, bucket - 1) + CountIn(xs, bucket)
  {
    if xs != [] {
      CountUpToSplits(xs[1..], bucket);
    }
  }

  lemma {:induction false} CountUpToNone(xs: seq<int>)
    ensures CountUpTo(xs, -1) == 0
  {
    if xs != [] {
      CountUpToNone(xs[1..]);
    }
  }

  lemma {:induction false} CumulativeCounts(xs: seq<int>, n: nat)
    requires n <= BUCKET_COUNT
    ensures Cumulative(BucketsOf(xs), n) == CountUpTo(xs, n - 1)
  {
    if n == 0 {
      CountUpToNone(xs);
    } else {
      CumulativeCounts(xs, n - 1);
      CountUpToSplits(xs, n - 1);
    }
  }

  lemma {:induction false} CountUpToAppend(xs: seq<int>, ys: seq<int>, bucket: int)
    ensures CountUpTo(xs + ys, bucket) == CountUpTo(xs, bucket) + CountUpTo(ys, bucket)
  {
    if xs == [] {
      assert xs + ys == ys;
    } else {
      assert (xs + ys)[1..] == xs[1..] + ys;
      CountUpToAppend(xs[1..], ys, bucket);
    }
  }

  function Without(ys: seq<int>, k: nat): seq<int>
    requires k < |ys|
  {
    ys[..k] + ys[k + 1..]
  }

  /** Taking one sample out lowers its own count and no other. */
  lemma CountUpToWithout(ys: seq<int>, k: nat, bucket: int)
    requires k < |ys|
    ensures CountUpTo(ys, bucket) == CountUpTo(Without(ys, k), bucket) + (if BucketIndex(ys[k]) <= bucket then 1 else 0)
  {
    var before, rest := ys[..k], [ys[k]] + ys[k + 1..];
    assert ys == before + rest;
    assert rest[1..] == ys[k + 1..];
    CountUpToAppend(before, rest, bucket);
    CountUpToAppend(before, ys[k + 1..], bucket);
  }

  lemma MultisetWithout(ys: seq<int>, k: nat)
    requires k < |ys|
    ensures multiset(Without(ys, k)) == multiset(ys) - multiset{ys[k]}
  {
    assert ys == ys[..k] + [ys[k]] + ys[k + 1..];
  }

  /** A rearrangement holds the first sample somewhere, and without it rearranges the rest. */
  lemma FindFirst(xs: seq<int>, ys: seq<int>) returns (k: nat)
    requires xs != [] && multiset(xs) == multiset(ys)
    ensures k < |ys| && ys[k] == xs[0]
    ensures multiset(xs[1..]) == multiset(Without(ys, k))
  {
    assert xs[0] in multiset(ys);
    k :| 0 <= k < |ys| && ys[k] == xs[0];
    MultisetWithout(ys, k);
    MultisetWithout(xs, 0);
    assert Without(xs, 0) == xs[1..];
  }

  lemma {:induction false} CountUpToPermutes(xs: seq<int>, ys: seq<int>, bucket: int)
    requires multiset(xs) == multiset(ys)
    ensures CountUpTo(xs, bucket) == CountUpTo(ys, bucket)
    decreases |xs|
  {
    if xs == [] {
      assert |ys| == |multiset(ys)|;
    } else {
      var k := FindFirst(xs, ys);
      CountUpToPermutes(xs[1..], Without(ys, k), bucket);
      CountUpToWithout(ys, k, bucket);
    }
  }

  ghost predicate IsSorted(xs: seq<int>) {
    forall i, j :: 0 <= i < j < |xs| ==> xs[i] <= xs[j]
  }

  lemma {:induction false} CountUpToAll(xs: seq<int>, bucket: int)
    requires forall x :: x in xs ==> BucketIndex(x) <= bucket
    ensures CountUpTo(xs, bucket) == |xs|
  {
    if xs != [] {
      CountUpToAll(xs[1..], bucket);
    }
  }

  lemma {:induction false} CountUpToAbove(xs: seq<int>, bucket: int)
    requires forall x :: x in xs ==> BucketIndex(x) > bucket
    ensures CountUpTo(xs, bucket) == 0
  {
    if xs != [] {
      CountUpToAbove(xs[1..], bucket);
    }
  }

  lemma BucketIndexMonotone(x: int, y: int)
    requires x <= y
    ensures BucketIndex(x) <= BucketIndex(y)
  {
  }

  /** In a sorted list, the k-th smallest sample decides whether at least k samples lie up to a bucket. */
  lemma OrderStatistic(s: seq<int>, k: nat, bucket: int)
    requires IsSorted(s) && 1 <= k <= |s|
    ensures CountUpTo(s, bucket) >= k <==> BucketIndex(s[k - 1]) <= bucket
  {
    hide BucketIndex, CountUpTo;
    if BucketIndex(s[k - 1]) <= bucket {
      forall x | x in s[..k] ensures BucketIndex(x) <= bucket {
        var i :| 0 <= i < k && s[i] == x;
        BucketIndexMonotone(x, s[k - 1]);
      }
      CountUpToAll(s[..k], bucket);
      assert s == s[..k] + s[k..];
      CountUpToAppend(s[..k], s[k..], bucket);
    } else {
      forall x | x in s[k - 1..] ensures BucketIndex(x) > bucket {
        var i :| k - 1 <= i < |s| && s[i] == x;
        BucketIndexMonotone(s[k - 1], x);
      }
      CountUpToAbove(s[k - 1..], bucket);
      assert s == s[..k - 1] + s[k - 1..];
      CountUpToAppend(s[..k - 1], s[k - 1..], bucket);
      CountUpToSize(s[..k - 1], bucket);
    }
  }

  lemma {:induction false} CountUpToSize(xs: seq<int>, bucket: int)
    ensures CountUpTo(xs, bucket) <= |xs|
  {
    if xs != [] {
      CountUpToSize(xs[1..], bucket);
    }
  }

  lemma CumulativeReachesRank(xs: seq<int>, s: seq<int>, k: nat, n: nat)
    requires IsSorted(s) && multiset(s) == multiset(xs) && 1 <= k <= |s| && n <= BUCKET_COUNT
    ensures Cumulative(BucketsOf(xs), n) >= k <==> BucketIndex(s[k - 1]) < n
  {
    CumulativeCounts(xs, n);
    CountUpToPermutes(xs, s, n - 1);
    OrderStatistic(s, k, n - 1);
  }

  /** The bucket at which the walk stops is the bucket of the exact order statistic of the sorted samples: the sample of
      rank k, 95 per cent of the samples rounded down, and at least 1. */
  lemma WalkFindsOrderStatistic(xs: seq<int>, s: seq<int>, k: nat)
    requires |xs| > 0 && IsSorted(s) && multiset(s) == multiset(xs)
    requires 1 <= k && 95 * |xs| < 100 * (k + 1) && (k == 1 || 100 * k <= 95 * |xs|)
    ensures |s| == |xs| && k <= |xs| && k == Rank(|xs|)
    ensures Crosses(BucketsOf(xs), k, BucketIndex(s[k - 1]))
  {
    hide BucketsOf, BucketIndex;
    assert |s| == |multiset(s)| == |multiset(xs)| == |xs|;
    var b := BucketIndex(s[k - 1]);
    forall n: nat | n <= BUCKET_COUNT ensures Cumulative(BucketsOf(xs), n) >= k <==> b < n {
      CumulativeReachesRank(xs, s, k, n);
    }
  }

  /** A sample lies between the edges of its bucket, and the edges double. */
  lemma EdgeBrackets(x: int)
    ensures x <= 25600 ==> x <= Edge(BucketIndex(x))
    ensures 50 < x <= 25600 ==> Edge(BucketIndex(x)) < 2 * x
    ensures x <= 50 <==> Edge(BucketIndex(x)) == 50
    ensures x > 12800 <==> Edge(BucketIndex(x)) == 25600
  {
    hide BucketFrom;
    var b := BucketIndex(x);
    assert b > 0 ==> BOUNDARIES[b - 1] < x;
    assert b > 0 ==> BOUNDARIES[0] < x;
    assert b == |BOUNDARIES| ==> BOUNDARIES[9] < x;
  }

  /** The percentile of recorded samples brackets the exact order statistic, the sample of rank k, within a factor of
      two: k is 95 per cent of the samples, rounded down, and at least 1. */
  method P95OfSamples(xs: seq<int>, s: seq<int>) returns (p: int, k: nat)
    requires |xs| > 0 && IsSorted(s) && multiset(s) == multiset(xs)
    ensures |s| == |xs| && 1 <= k <= |s| && 95 * |xs| < 100 * (k + 1) && (k == 1 || 100 * k <= 95 * |xs|)
    ensures s[k - 1] <= 25600 ==> s[k - 1] <= p
    ensures 50 < s[k - 1] <= 25600 ==> p < 2 * s[k - 1]
    ensures s[k - 1] <= 50 <==> p == 50
    ensures s[k - 1] > 12800 <==> p == 25600
    ensures exists i: nat :: i < 10 && p == 50 * Pow2(i)
  {
    hide BucketIndex, BucketsOf, Crosses, Edge, Pow2;
    k := Rank(|xs|);
    WalkFindsOrderStatistic(xs, s, k);
    p := P95FromBuckets(BucketsOf(xs), |xs|);
    EdgeBrackets(s[k - 1]);
    assert BucketIndex(s[k - 1]) >= 10 ==> p == 50 * Pow2(9) by { EdgesDouble(); }
  }
}
