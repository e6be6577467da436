/** The latency histogram of the command line tool: fixed buckets, percentiles read
    off the cumulative counts. */
module Histograms {
  import opened GoArith

  const HIST_BUCKETS := 2048
  const HIST_MIN_MS := 0.01
  const HIST_MAX_MS := 60000.0

  predicate Ordered(x: real, y: real) {
    0.0 < x <= y
  }

  /** The logarithm, as far as the buckets depend on it. */
  ghost predicate LogLike(log: real -> real) {
    && log(1.0) == 0.0
    && (forall x, y {:trigger Ordered(x, y)} :: Ordered(x, y) ==> log(x) <= log(y))
    && log(HIST_MAX_MS / HIST_MIN_MS) > 0.0
  }

  function BucketIndex(log: real -> real, ms: real): int
    requires log(HIST_MAX_MS / HIST_MIN_MS) != 0.0
  {
    if ms <= HIST_MIN_MS then 0
    else if ms >= HIST_MAX_MS then HIST_BUCKETS - 1
    else
      var ratio := log(ms / HIST_MIN_MS) / log(HIST_MAX_MS / HIST_MIN_MS);
      var idx := (ratio * HIST_BUCKETS as real).Floor;
      if idx >= HIST_BUCKETS then HIST_BUCKETS - 1 else idx
  }

  /** Record's view of a duration in nanoseconds: whole microseconds, as milliseconds. */
  function BucketOf(log: real -> real, nanos: int): int
    requires log(HIST_MAX_MS / HIST_MIN_MS) != 0.0
  {
    BucketIndex(log, TruncDiv(nanos, 1000) as real / 1000.0)
  }

  lemma BucketsAreMonotone(log: real -> real, a: int, b: int)
    requires LogLike(log) && a <= b
    ensures 0 <= BucketOf(log, a) <= BucketOf(log, b) < HIST_BUCKETS
  {
    TruncDivGrows(a, b);
    var x, y := TruncDiv(a, 1000) as real / 1000.0, TruncDiv(b, 1000) as real / 1000.0;
    IndexInRange(log, x);
    IndexInRange(log, y);
    if HIST_MIN_MS < x && y < HIST_MAX_MS {
      assert Ordered(x / HIST_MIN_MS, y / HIST_MIN_MS);
      RatioGrows(log(x / HIST_MIN_MS), log(y / HIST_MIN_MS), log(HIST_MAX_MS / HIST_MIN_MS));
    }
  }

  lemma TruncDivGrows(a: int, b: int)
    requires a <= b
    ensures TruncDiv(a, 1000) <= TruncDiv(b, 1000)
  {}

  lemma RatioGrows(x: real, y: real, w: real)
    requires x <= y && w > 0.0
    ensures x / w <= y / w
    ensures x >= 0.0 ==> x / w >= 0.0
  {}

  lemma IndexInRange(log: real -> real, ms: real)
    requires LogLike(log)
    ensures 0 <= BucketIndex(log, ms) < HIST_BUCKETS
  {
    if HIST_MIN_MS < ms < HIST_MAX_MS {
      assert Ordered(1.0, ms / HIST_MIN_MS);
      RatioGrows(0.0, log(ms / HIST_MIN_MS), log(HIST_MAX_MS / HIST_MIN_MS));
    }
  }

  /** How many samples fall into bucket i, and into buckets up to and including i. */
  function CountIn(log: real -> real, samples: seq<int>, i: int): nat
    requires log(HIST_MAX_MS / HIST_MIN_MS) != 0.0
  {
    if samples == [] then 0
    else CountIn(log, samples[..|samples| - 1], i) + if BucketOf(log, samples[|samples| - 1]) == i then 1 else 0
  }

  function CountUpTo(log: real -> real, samples: seq<int>, i: int): nat
    requires log(HIST_MAX_MS / HIST_MIN_MS) != 0.0
  {
    if samples == [] then 0
    else CountUpTo(log, samples[..|samples| - 1], i) + if BucketOf(log, samples[|samples| - 1]) <= i then 1 else 0
  }

  lemma {:induction false} CountUpToStep(log: real -> real, samples: seq<int>, i: int)
    requires log(HIST_MAX_MS / HIST_MIN_MS) != 0.0
    ensures CountUpTo(log, samples, i) == CountUpTo(log, samples, i - 1) + CountIn(log, samples, i)
    ensures CountUpTo(log, samples, i) <= |samples|
  {
    if samples == [] {
    } else {
      CountUpToStep(log, samples[..|samples| - 1], i);
    }
  }

  lemma {:induction false} CountUpToEnds(log: real -> real, samples: seq<int>)
    requires LogLike(log)
    ensures CountUpTo(log, samples, -1) == 0 && CountUpTo(log, samples, HIST_BUCKETS - 1) == |samples|
  {
    if samples == [] {
    } else {
      CountUpToEnds(log, samples[..|samples| - 1]);
      BucketsAreMonotone(log, samples[|samples| - 1], samples[|samples| - 1]);
    }
  }

  function Ceil(x: real): int {
    -((-x).Floor)
  }

  /** The rank Percentile looks for among n samples. */
  function Rank(p: real, n: nat): int {
    Ceil(p * n as real)
  }

  /** The first bucket whose cumulative count reaches the rank. */
  ghost predicate Reaches(log: real -> real, samples: seq<int>, rank: int, i: int)
    requires log(HIST_MAX_MS / HIST_MIN_MS) != 0.0
  {
    CountUpTo(log, samples, i) >= rank && forall j :: 0 <= j < i ==> CountUpTo(log, samples, j) < rank
  }

  ghost predicate Ascending(s: seq<int>) {
    forall i, j :: 0 <= i <= j < |s| ==> s[i] <= s[j]
  }

  /** Counting does not care about the order of the samples. */
  lemma {:induction false} CountOfPermutation(log: real -> real, a: seq<int>, b: seq<int>, i: int)
    requires log(HIST_MAX_MS / HIST_MIN_MS) != 0.0 && multiset(a) == multiset(b)
    ensures CountUpTo(log, a, i) == CountUpTo(log, b, i)
    decreases |a|
  {
    if a == [] {
      assert |multiset(b)| == 0;
    } else {
      var x := a[|a| - 1];
      var front := a[..|a| - 1];
      assert a == front + [x];
      assert x in multiset(b);
      var k :| 0 <= k < |b| && b[k] == x;
      var rest := b[..k] + b[k + 1..];
      Without(b, k);
      assert multiset(a) == multiset(front) + multiset{x};
      Cancel(multiset(front), multiset(rest), x);
      CountOfPermutation(log, front, rest, i);
      CountWithout(log, b, k, i);
    }
  }

  lemma Without(b: seq<int>, k: nat)
    requires k < |b|
    ensures multiset(b) == multiset(b[..k] + b[k + 1..]) + multiset{b[k]}
  {
    assert b == b[..k] + [b[k]] + b[k + 1..];
  }

  lemma Cancel(m: multiset<int>, n: multiset<int>, x: int)
    requires m + multiset{x} == n + multiset{x}
    ensures m == n
  {
    assert m == (m + multiset{x}) - multiset{x};
    assert n == (n + multiset{x}) - multiset{x};
  }

  lemma CountWithout(log: real -> real, b: seq<int>, k: nat, i: int)
    requires log(HIST_MAX_MS / HIST_MIN_MS) != 0.0 && k < |b|
    ensures CountUpTo(log, b, i) == CountUpTo(log, b[..k] + b[k + 1..], i) + if BucketOf(log, b[k]) <= i then 1 else 0
  {
    CountConcat(log, b[..k + 1], b[k + 1..], i);
    CountConcat(log, b[..k], b[k + 1..], i);
    assert b[..k + 1] + b[k + 1..] == b;
    assert b[..k + 1][..k] == b[..k];
  }

  lemma {:induction false} CountConcat(log: real -> real, a: seq<int>, b: seq<int>, i: int)
    requires log(HIST_MAX_MS / HIST_MIN_MS) != 0.0
    ensures CountUpTo(log, a + b, i) == CountUpTo(log, a, i) + CountUpTo(log, b, i)
    decreases |b|
  {
    if b == [] {
      assert a + b == a;
    } else {
      assert (a + b)[..|a + b| - 1] == a + b[..|b| - 1];
      CountConcat(log, a, b[..|b| - 1], i);
    }
  }

  /** Among ascending samples, those in buckets up to i are the first ones. */
  lemma {:induction false} CountOfAscending(log: real -> real, s: seq<int>, i: int)
    requires LogLike(log) && Ascending(s)
    ensures forall k :: 0 <= k < |s| ==> (k < CountUpTo(log, s, i) <==> BucketOf(log, s[k]) <= i)
    ensures CountUpTo(log, s, i) <= |s|
  {
    if s == [] {
    } else {
      var front := s[..|s| - 1];
      CountOfAscending(log, front, i);
      if front != [] {
        BucketsAreMonotone(log, front[|front| - 1], s[|s| - 1]);
      }
      forall k | 0 <= k < |s|
        ensures k < CountUpTo(log, s, i) <==> BucketOf(log, s[k]) <= i
      {
        BucketsAreMonotone(log, s[k], s[|s| - 1]);
      }
    }
  }

  /** The percentile is an order statistic: the bucket the scan stops at is the bucket of
      the rank-th smallest sample, whichever way the samples are sorted. */
  lemma PercentileIsOrderStatistic(log: real -> real, samples: seq<int>, sorted: seq<int>, rank: int, i: int)
    requires LogLike(log) && multiset(samples) == multiset(sorted) && Ascending(sorted)
    requires 1 <= rank <= |samples| && 0 <= i
    ensures |sorted| == |samples|
    ensures Reaches(log, samples, rank, i) <==> i == BucketOf(log, sorted[rank - 1])
  {
    assert |samples| == |multiset(samples)| == |multiset(sorted)| == |sorted|;
    var bucket := BucketOf(log, sorted[rank - 1]);
    BucketsAreMonotone(log, sorted[rank - 1], sorted[rank - 1]);
    forall j
      ensures CountUpTo(log, samples, j) >= rank <==> bucket <= j
    {
      CountOfPermutation(log, samples, sorted, j);
      CountOfAscending(log, sorted, j);
    }
    assert CountUpTo(log, samples, bucket) >= rank;
  }

  /** A logarithm also tells different numbers apart. */
  ghost predicate StrictLog(log: real -> real) {
    LogLike(log) && forall x, y {:trigger Ordered(x, y)} :: Ordered(x, y) && x < y ==> log(x) < log(y)
  }

  /** The upper bounds of the buckets divide the logarithmic scale evenly. */
  ghost predicate EvenBounds(log: real -> real, upper: int -> real) {
    forall i :: 0 <= i < HIST_BUCKETS ==>
      upper(i) > 0.0 && log(upper(i) / 0.01) * 2048.0 == (i + 1) as real * log(60000.0 / 0.01)
  }

  /** The sample as milliseconds, as Record sees it. */
  function Millis(nanos: int): real {
    TruncDiv(nanos, 1000) as real / 1000.0
  }

  /** A sample lies between the bounds of its bucket, except that the first bucket takes
      everything below and the last one everything above the scale. */
  lemma BucketBracketsSample(log: real -> real, upper: int -> real, nanos: int)
    requires StrictLog(log) && EvenBounds(log, upper)
    ensures var i := BucketOf(log, nanos);
            && 0 <= i < HIST_BUCKETS
            && (Millis(nanos) <= upper(i) || (i == HIST_BUCKETS - 1 && Millis(nanos) >= 60000.0))
            && (i > 0 ==> upper(i - 1) <= Millis(nanos))
  {
    var ms, i := Millis(nanos), BucketOf(log, nanos);
    IndexInRange(log, ms);
    var scale := log(60000.0 / 0.01);
    if ms <= 0.01 {
      AtMost(log, ms, upper, 0);
    } else if ms >= 60000.0 {
      LastBounds(log, upper);
    } else {
      IndexBrackets(log, ms);
      BelowUpper(log, ms, upper, i);
      if i > 0 {
        AboveLower(log, ms, upper, i);
      }
    }
  }

  /** Smaller logarithms belong to smaller numbers. */
  lemma LogReflects(log: real -> real, x: real, y: real)
    requires StrictLog(log) && x > 0.0 && y > 0.0 && log(x) <= log(y)
    ensures x <= y
  {
    assert Ordered(x, y) || Ordered(y, x);
  }

  lemma AtMost(log: real -> real, ms: real, upper: int -> real, i: int)
    requires StrictLog(log) && EvenBounds(log, upper) && 0 <= i < HIST_BUCKETS && ms <= 0.01
    ensures ms <= upper(i)
  {
    Scaled(0.0, (i + 1) as real, log(60000.0 / 0.01));
    LogReflects(log, 1.0, upper(i) / 0.01);
  }

  lemma LastBounds(log: real -> real, upper: int -> real)
    requires StrictLog(log) && EvenBounds(log, upper)
    ensures upper(HIST_BUCKETS - 2) <= 60000.0
  {
    assert log(upper(HIST_BUCKETS - 2) / 0.01) * 2048.0 == 2047.0 * log(60000.0 / 0.01);
    LogReflects(log, upper(HIST_BUCKETS - 2) / 0.01, 60000.0 / 0.01);
  }

  /** The logarithm x lies in the i-th of the 2048 equal parts of the scale. */
  ghost predicate InPart(i: int, x: real, scale: real) {
    i as real * scale <= x * 2048.0 < (i + 1) as real * scale
  }

  /** Inside the scale the index is the part the logarithm lies in. */
  lemma IndexBrackets(log: real -> real, ms: real)
    requires StrictLog(log) && 0.01 < ms < 60000.0
    ensures InPart(BucketIndex(log, ms), log(ms / 0.01), log(60000.0 / 0.01))
  {
    var x, scale := log(ms / 0.01), log(60000.0 / 0.01);
    assert x < scale by {
      assert Ordered(ms / 0.01, 60000.0 / 0.01);
    }
    BelowOne(x, scale);
    assert BucketIndex(log, ms) == (x / scale * 2048.0).Floor;
    FloorBrackets(x, scale);
  }

  lemma FloorBrackets(x: real, scale: real)
    requires scale > 0.0
    ensures InPart((x / scale * 2048.0).Floor, x, scale)
  {
    var part := x / scale * 2048.0;
    Unscaled(x, scale);
    Scaled(part.Floor as real, part, scale);
    ScaledBelow(part, (part.Floor + 1) as real, scale);
  }

  lemma Unscaled(x: real, scale: real)
    requires scale > 0.0
    ensures x / scale * 2048.0 * scale == x * 2048.0
  {
    var q := x / scale;
    assert q * scale == x;
    assert q * 2048.0 * scale == q * scale * 2048.0;
  }

  lemma BelowOne(x: real, scale: real)
    requires scale > 0.0 && x < scale
    ensures x / scale < 1.0
  {}

  lemma Scaled(a: real, b: real, scale: real)
    requires a <= b && scale > 0.0
    ensures a * scale <= b * scale
  {}

  lemma ScaledBelow(a: real, b: real, scale: real)
    requires a < b && scale > 0.0
    ensures a * scale < b * scale
  {}

  lemma BelowUpper(log: real -> real, ms: real, upper: int -> real, i: int)
    requires StrictLog(log) && EvenBounds(log, upper) && 0 <= i < HIST_BUCKETS && ms > 0.0
    requires InPart(i, log(ms / 0.01), log(60000.0 / 0.01))
    ensures ms <= upper(i)
  {
    assert log(ms / 0.01) * 2048.0 <= log(upper(i) / 0.01) * 2048.0;
    LogReflects(log, ms / 0.01, upper(i) / 0.01);
  }

  lemma AboveLower(log: real -> real, ms: real, upper: int -> real, i: int)
    requires StrictLog(log) && EvenBounds(log, upper) && 0 < i < HIST_BUCKETS && ms > 0.0
    requires InPart(i, log(ms / 0.01), log(60000.0 / 0.01))
    ensures upper(i - 1) <= ms
  {
    assert log(upper(i - 1) / 0.01) * 2048.0 <= log(ms / 0.01) * 2048.0;
    LogReflects(log, upper(i - 1) / 0.01, ms / 0.01);
  }

  /** So the percentile reported is off by no more than the width of one bucket: the sample
      of that rank lies between its bound and the bound before it. */
  lemma PercentileBracketsItsSample(log: real -> real, upper: int -> real, samples: seq<int>, sorted: seq<int>,
      rank: int, i: int)
    requires StrictLog(log) && EvenBounds(log, upper) && multiset(samples) == multiset(sorted) && Ascending(sorted)
    requires 1 <= rank <= |samples| && 0 <= i && Reaches(log, samples, rank, i)
    ensures |sorted| == |samples| && i < HIST_BUCKETS
    ensures var ms := Millis(sorted[rank - 1]);
            && (ms <= upper(i) || (i == HIST_BUCKETS - 1 && ms >= 60000.0))
            && (i > 0 ==> upper(i - 1) <= ms)
  {
    PercentileIsOrderStatistic(log, samples, sorted, rank, i);
    BucketBracketsSample(log, upper, sorted[rank - 1]);
  }

  /** A larger p never gives a smaller bucket. */
  lemma PercentileGrows(log: real -> real, samples: seq<int>, p: real, q: real, i: int, j: int)
    requires log(HIST_MAX_MS / HIST_MIN_MS) != 0.0 && p <= q && 0 <= i && 0 <= j
    requires Reaches(log, samples, Rank(p, |samples|), i) && Reaches(log, samples, Rank(q, |samples|), j)
    ensures i <= j
  {
    RankGrows(p, q, |samples|);
  }

  lemma RankGrows(p: real, q: real, n: nat)
    requires p <= q
    ensures Rank(p, n) <= Rank(q, n)
  {
    assert p * n as real <= q * n as real;
  }

  /** The rank is p times n, rounded up. */
  lemma RankRoundsUp(p: real, n: nat)
    ensures (Rank(p, n) - 1) as real < p * n as real <= Rank(p, n) as real
  {
    var x := p * n as real;
    assert Rank(p, n) == -((-x).Floor);
  }

  lemma RankInRange(p: real, n: nat)
    requires 0.0 <= p <= 1.0
    ensures 0 <= Rank(p, n) <= n
    ensures Rank(p, n) >= 1 <==> p > 0.0 && n > 0
  {
    var x := p * n as real;
    assert 0.0 <= x <= n as real;
    if p > 0.0 && n > 0 {
      assert x > 0.0;
    } else {
      assert x == 0.0;
    }
  }

  class Histogram {
    const log: real -> real
    const upperBoundMs: int -> real
    const buckets: array<int>
    var count: int
    /** Everything recorded since the last reset. */
    ghost var samples: seq<int>

    ghost predicate Valid()
      reads this, buckets
    {
      && LogLike(log)
      && buckets.Length == HIST_BUCKETS
      && (forall i :: 0 <= i < HIST_BUCKETS ==> buckets[i] == CountIn(log, samples, i))
      && count == |samples|
    }

    constructor (log: real -> real, upperBoundMs: int -> real)
      requires LogLike(log)
      ensures Valid() && fresh(buckets) && samples == []
      ensures this.log == log && this.upperBoundMs == upperBoundMs
    {
      this.log := log;
      this.upperBoundMs := upperBoundMs;
      this.buckets := new int[HIST_BUCKETS](_ => 0);
      this.count := 0;
      this.samples := [];
    }

    method Record(nanos: int)
      requires Valid()
      modifies this, buckets
      ensures Valid() && samples == old(samples) + [nanos]
    {
      BucketsAreMonotone(log, nanos, nanos);
      var idx := BucketOf(log, nanos);
      samples := samples + [nanos];
      assert samples[..|samples| - 1] == old(samples);
      buckets[idx] := buckets[idx] + 1;
      count := count + 1;
    }

    /** The scan. Within [0, 1] it never falls through: it answers with the bucket that
        the order statistic falls into. Above 1 it may, and answers the maximum. */
    method Percentile(p: real) returns (ms: real)
      requires Valid() && p >= 0.0
      ensures count == 0 ==> ms == 0.0
      ensures count > 0 && Rank(p, count) <= count ==>
                exists i :: 0 <= i < HIST_BUCKETS && Reaches(log, samples, Rank(p, count), i) && ms == upperBoundMs(i)
      ensures count > 0 && Rank(p, count) > count ==> ms == HIST_MAX_MS
    {
      if count == 0 {
        return 0.0;
      }
      var target := Ceil(p * count as real);
      assert target == Rank(p, count);
      var found, i := Scan(target);
      ms := if found then upperBoundMs(i) else HIST_MAX_MS;
      assert found ==> 0 <= i < HIST_BUCKETS && Reaches(log, samples, Rank(p, count), i) && ms == upperBoundMs(i);
    }

    /** The first bucket that reaches a target count, if any does. */
    method Scan(target: int) returns (found: bool, i: int)
      requires Valid()
      ensures found <==> target <= count
      ensures found ==> 0 <= i < HIST_BUCKETS && Reaches(log, samples, target, i)
    {
      var cum := 0;
      CountUpToEnds(log, samples);
      i := 0;
      while i < HIST_BUCKETS
        invariant 0 <= i <= HIST_BUCKETS
        invariant cum == CountUpTo(log, samples, i - 1)
        invariant forall j :: 0 <= j < i ==> CountUpTo(log, samples, j) < target
      {
        CountUpToStep(log, samples, i);
        cum := cum + buckets[i];
        if cum >= target {
          return true, i;
        }
        i := i + 1;
      }
      return false, i;
    }

    method Reset()
      requires Valid()
      modifies this, buckets
      ensures Valid() && samples == []
    {
      for i := 0 to HIST_BUCKETS
        invariant forall j :: 0 <= j < i ==> buckets[j] == 0
      {
        buckets[i] := 0;
      }
      count := 0;
      samples := [];
    }
  }
}
