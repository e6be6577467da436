/** The sidecar's own token bucket: refilled lazily, whenever it is looked at.
    Clock readings are nanoseconds and may go backward; tokens are real numbers. */
module LocalBucket {

  const SECOND := 1_000_000_000

  datatype Bucket = Bucket(rate: real, burst: real, tokens: real, updatedAt: int)

  function Full(rate: real, burst: real, now: int): Bucket {
    Bucket(rate, burst, burst, now)
  }

  /** The tokens that `nanos` nanoseconds are worth. */
  function Credit(rate: real, nanos: int): real {
    nanos as real / SECOND as real * rate
  }

  function Min(a: real, b: real): real {
    if a < b then a else b
  }

  function Refill(b: Bucket, now: int): Bucket {
    if now <= b.updatedAt then b
    else b.(tokens := Min(b.burst, b.tokens + Credit(b.rate, now - b.updatedAt)), updatedAt := now)
  }

  /** One Allow: the verdict and the bucket it leaves. */
  function Take(b: Bucket, now: int): (bool, Bucket) {
    var r := Refill(b, now);
    if r.tokens < 1.0 then (false, r) else (true, r.(tokens := r.tokens - 1.0))
  }

  /** RetryAfter of a refilled bucket, truncated to whole nanoseconds. */
  function Wait(r: Bucket): int
    requires r.rate > 0.0
  {
    if r.tokens >= 1.0 then 0 else ((1.0 - r.tokens) / r.rate * SECOND as real).Floor
  }

  datatype Look = Allow(now: int) | RetryAfter(now: int)

  /** Any sequence of calls: how many were admitted, and the bucket they leave. */
  function Run(b: Bucket, looks: seq<Look>): (nat, Bucket)
    decreases |looks|
  {
    if looks == [] then (0, b)
    else
      var (admitted, after) := Run(b, looks[..|looks| - 1]);
      match looks[|looks| - 1]
      case Allow(now) => (if Take(after, now).0 then admitted + 1 else admitted, Take(after, now).1)
      case RetryAfter(now) => (admitted, Refill(after, now))
  }

  lemma CreditAdds(rate: real, a: int, b: int)
    ensures Credit(rate, a + b) == Credit(rate, a) + Credit(rate, b)
  {
    var x, y, s := a as real, b as real, SECOND as real;
    assert (a + b) as real == x + y;
    assert (x + y) / s == x / s + y / s;
    assert (x / s + y / s) * rate == x / s * rate + y / s * rate;
  }

  lemma CreditGrows(rate: real, nanos: int)
    requires rate >= 0.0 && nanos >= 0
    ensures Credit(rate, nanos) >= 0.0
  {
    var q := nanos as real / SECOND as real;
    assert q >= 0.0;
    assert q * rate >= 0.0;
  }

  /** The admission bound, for every sequence of calls under any clock readings,
      backward ones included: tokens stay in [0, burst], and what was admitted plus
      what is left never exceeds what was there plus the credit for the time by which
      updatedAt moved forward. */
  lemma {:induction false} AdmissionBound(b: Bucket, looks: seq<Look>)
    requires b.rate >= 0.0 && 0.0 <= b.tokens <= b.burst
    ensures var (admitted, after) := Run(b, looks);
            && after.rate == b.rate && after.burst == b.burst
            && 0.0 <= after.tokens <= after.burst
            && after.updatedAt >= b.updatedAt
            && admitted as real + after.tokens <= b.tokens + Credit(b.rate, after.updatedAt - b.updatedAt)
    decreases |looks|
  {
    if looks == [] {
    } else {
      var before, look := looks[..|looks| - 1], looks[|looks| - 1];
      AdmissionBound(b, before);
      var mid := Run(b, before).1;
      var r := Refill(mid, look.now);
      CreditAdds(b.rate, mid.updatedAt - b.updatedAt, r.updatedAt - mid.updatedAt);
      CreditGrows(b.rate, r.updatedAt - mid.updatedAt);
    }
  }

  /** So any stretch of a run admits at most the burst plus the credit for its own time. */
  lemma {:induction false} StretchBound(b: Bucket, before: seq<Look>, during: seq<Look>)
    requires b.rate >= 0.0 && 0.0 <= b.tokens <= b.burst
    ensures var (earlier, from) := Run(b, before);
            var (total, to) := Run(b, before + during);
            && to.tokens >= 0.0 && from.tokens <= b.burst
            && total as real + to.tokens <= earlier as real + from.tokens
                + Credit(b.rate, to.updatedAt - from.updatedAt)
    decreases |during|
  {
    AdmissionBound(b, before);
    if during == [] {
      assert before + during == before;
    } else {
      var all, look := before + during, during[|during| - 1];
      var fewer := during[..|during| - 1];
      assert all[..|all| - 1] == before + fewer;
      StretchBound(b, before, fewer);
      AdmissionBound(b, before + fewer);
      var from, mid := Run(b, before).1, Run(b, before + fewer).1;
      var r := Refill(mid, look.now);
      CreditAdds(b.rate, mid.updatedAt - from.updatedAt, r.updatedAt - mid.updatedAt);
      CreditGrows(b.rate, r.updatedAt - mid.updatedAt);
    }
  }

  /** The bucket's clock never runs ahead of the latest reading it was shown. */
  lemma {:induction false} UpdatedAtIsAReading(b: Bucket, looks: seq<Look>)
    ensures var at := Run(b, looks).1.updatedAt; at == b.updatedAt || exists i :: 0 <= i < |looks| && looks[i].now == at
    decreases |looks|
  {
    if looks == [] {
    } else {
      UpdatedAtIsAReading(b, looks[..|looks| - 1]);
    }
  }

  /** So the calls of a window of time admit at most the burst plus the credit for the
      window, whatever came before them and in whatever order they read the clock. */
  lemma WindowBound(b: Bucket, before: seq<Look>, during: seq<Look>, opens: int, closes: int)
    requires b.rate >= 0.0 && 0.0 <= b.tokens <= b.burst && opens <= closes
    requires forall look :: look in during ==> opens <= look.now <= closes
    ensures Run(b, before + during).0 as real <= Run(b, before).0 as real + b.burst + Credit(b.rate, closes - opens)
  {
    var (earlier, from) := Run(b, before);
    AdmissionBound(b, before);
    RunInTwo(b, before, during);
    WindowAdmits(from, during, opens, closes);
    SumOfParts(Run(b, before + during).0, earlier, Run(from, during).0, b.burst + Credit(b.rate, closes - opens));
  }

  lemma SumOfParts(total: nat, a: nat, b: nat, most: real)
    requires total == a + b && b as real <= most
    ensures total as real <= a as real + most
  {}

  lemma {:induction false} RunInTwo(b: Bucket, before: seq<Look>, during: seq<Look>)
    ensures var (earlier, from) := Run(b, before);
            var (later, to) := Run(from, during);
            Run(b, before + during) == (earlier + later, to)
    decreases |during|
  {
    if during == [] {
      assert before + during == before;
    } else {
      var all := before + during;
      assert all[..|all| - 1] == before + during[..|during| - 1];
      RunInTwo(b, before, during[..|during| - 1]);
    }
  }

  /** The first look refills the bucket to the burst at most, and to a stamp inside the
      window or beyond it; from there only the rest of the window counts. */
  lemma WindowAdmits(b: Bucket, during: seq<Look>, opens: int, closes: int)
    requires b.rate >= 0.0 && 0.0 <= b.tokens <= b.burst && opens <= closes
    requires forall look :: look in during ==> opens <= look.now <= closes
    ensures Run(b, during).0 as real <= b.burst + Credit(b.rate, closes - opens)
  {
    CreditGrows(b.rate, closes - opens);
    if during == [] {
    } else {
      assert during[0] in during;
      RefillFirst(b, during);
      var r := Refill(b, during[0].now);
      RefillInRange(b, during[0].now);
      AdmissionBound(r, during);
      UpdatedAtIsAReading(r, during);
      var moved := Run(r, during).1.updatedAt - r.updatedAt;
      assert 0 <= moved <= closes - opens;
      CreditAdds(b.rate, moved, closes - opens - moved);
      CreditGrows(b.rate, closes - opens - moved);
    }
  }

  lemma RefillInRange(b: Bucket, now: int)
    requires b.rate >= 0.0 && 0.0 <= b.tokens <= b.burst
    ensures var r := Refill(b, now);
            r.rate == b.rate && r.burst == b.burst && 0.0 <= r.tokens <= b.burst && r.updatedAt >= now
  {
    if now > b.updatedAt {
      CreditGrows(b.rate, now - b.updatedAt);
    }
  }

  /** Looking once more at the first reading changes nothing. */
  lemma {:induction false} RefillFirst(b: Bucket, looks: seq<Look>)
    requires looks != []
    ensures Run(b, looks) == Run(Refill(b, looks[0].now), looks)
    decreases |looks|
  {
    if |looks| == 1 {
      assert looks[..0] == [];
    } else {
      RefillFirst(b, looks[..|looks| - 1]);
    }
  }

  function Latest(at: int, readings: seq<int>): int
    decreases |readings|
  {
    if readings == [] then at
    else Latest(if readings[0] > at then readings[0] else at, readings[1..])
  }

  function RefillAll(b: Bucket, readings: seq<int>): Bucket
    decreases |readings|
  {
    if readings == [] then b else RefillAll(Refill(b, readings[0]), readings[1..])
  }

  /** Lazy refill equals the closed form: looking at the bucket any number of times,
      in any order of readings, is one refill at the latest of them. */
  lemma {:induction false} RefillsCompose(b: Bucket, readings: seq<int>)
    requires b.rate >= 0.0 && b.tokens <= b.burst
    ensures RefillAll(b, readings) == Refill(b, Latest(b.updatedAt, readings))
    decreases |readings|
  {
    if readings == [] {
    } else {
      var now := readings[0];
      var r := Refill(b, now);
      RefillsCompose(r, readings[1..]);
      LatestIsLater(r.updatedAt, readings[1..]);
      RefillTwice(b, now, Latest(r.updatedAt, readings[1..]));
    }
  }

  lemma {:induction false} LatestIsLater(at: int, readings: seq<int>)
    ensures Latest(at, readings) >= at
    decreases |readings|
  {
    if readings == [] {
    } else {
      LatestIsLater(if readings[0] > at then readings[0] else at, readings[1..]);
    }
  }

  lemma RefillTwice(b: Bucket, now: int, later: int)
    requires b.rate >= 0.0 && b.tokens <= b.burst && later >= now
    ensures Refill(Refill(b, now), later) == Refill(b, later)
  {
    if b.updatedAt < now < later {
      CreditAdds(b.rate, now - b.updatedAt, later - now);
      CreditGrows(b.rate, later - now);
    }
  }

  /** The nanoseconds until a bucket that lacks part of a token has a whole one. */
  function Deficit(b: Bucket): real
    requires b.rate > 0.0
  {
    (1.0 - b.tokens) / b.rate * SECOND as real
  }

  lemma CreditCoversDeficit(b: Bucket, nanos: int)
    requires b.rate > 0.0
    ensures b.tokens + Credit(b.rate, nanos) >= 1.0 <==> nanos as real >= Deficit(b)
  {
    var n, s, d := nanos as real, SECOND as real, 1.0 - b.tokens;
    var x := d / b.rate;
    assert x * b.rate == d;
    assert (n / s) * s == n;
    if n >= x * s {
      assert n / s >= x;
      assert (n / s) * b.rate >= x * b.rate;
    } else {
      assert n / s < x;
      assert (n / s) * b.rate < x * b.rate;
    }
  }

  /** After a refusal, with nobody else taking tokens, and however often the bucket is
      looked at in the meantime: Allow succeeds exactly when the deficit has elapsed. */
  lemma SucceedsExactlyWhenDue(b: Bucket, readings: seq<int>, now: int)
    requires b.rate > 0.0 && b.burst >= 1.0 && b.tokens < 1.0
    requires now >= Latest(b.updatedAt, readings)
    ensures Take(RefillAll(b, readings), now).0 <==> (now - b.updatedAt) as real >= Deficit(b)
  {
    RefillsCompose(b, readings);
    LatestIsLater(b.updatedAt, readings);
    RefillTwice(b, Latest(b.updatedAt, readings), now);
    CreditCoversDeficit(b, now - b.updatedAt);
  }

  /** RetryAfter is cut to whole nanoseconds, so waiting exactly that long is enough
      if and only if nothing was cut; one nanosecond more always is. */
  lemma RetryAfterSufficesExactlyWhen(b: Bucket)
    requires b.rate > 0.0 && b.burst >= 1.0 && b.tokens < 1.0
    ensures Take(b, b.updatedAt + Wait(b)).0 <==> Deficit(b) == Deficit(b).Floor as real
    ensures Take(b, b.updatedAt + Wait(b) + 1).0
  {
    assert RefillAll(b, []) == b;
    SucceedsExactlyWhenDue(b, [], b.updatedAt + Wait(b));
    SucceedsExactlyWhenDue(b, [], b.updatedAt + Wait(b) + 1);
    DeficitPositive(b);
  }

  lemma DeficitPositive(b: Bucket)
    requires b.rate > 0.0 && b.tokens < 1.0
    ensures Deficit(b) > 0.0 && Wait(b) >= 0
  {
    var x := (1.0 - b.tokens) / b.rate;
    assert x > 0.0;
    assert x * SECOND as real > 0.0;
  }

  /** Nobody is told to wait for a token that is there, and only then is nobody told to. */
  lemma NoWaitExactlyWhenThereIsOne(b: Bucket)
    requires b.rate > 0.0 && b.burst >= 1.0
    ensures b.tokens >= 1.0 ==> Wait(b) == 0 && Take(b, b.updatedAt).0
    ensures b.tokens < 1.0 ==> !Take(b, b.updatedAt).0 && Wait(b) == Deficit(b).Floor
  {}

  /** Every Allow takes exactly one token: of n at one and the same reading, exactly as many
      are admitted as the refilled bucket holds whole tokens. */
  lemma {:induction false} AllowTakesExactlyOne(b: Bucket, now: int, n: nat)
    requires Refill(b, now).tokens >= 0.0
    ensures var tokens := Refill(b, now).tokens;
            var (admitted, after) := Run(b, seq(n, _ => Allow(now)));
            && admitted == (if n <= tokens.Floor then n else tokens.Floor)
            && (n > 0 ==> after == Refill(b, now).(tokens := tokens - admitted as real))
  {
    if n == 0 {
    } else {
      var looks, fewer := seq(n, _ => Allow(now)), seq(n - 1, _ => Allow(now));
      assert looks[..n - 1] == fewer;
      AllowTakesExactlyOne(b, now, n - 1);
      assert Refill(Refill(b, now), now) == Refill(b, now);
    }
  }

  /** Every whole second that passes is worth the rate, up to the burst. */
  lemma SecondsAreWorthTheRate(b: Bucket, now: int, seconds: nat)
    requires now == b.updatedAt + 1_000_000_000 * seconds && seconds > 0
    ensures var full := b.tokens + seconds as real * b.rate;
            Refill(b, now) == b.(tokens := if b.burst < full then b.burst else full, updatedAt := now)
  {
    assert (1_000_000_000 * seconds) as real / SECOND as real == seconds as real;
  }

  /** The middleware's Retry-After: int(seconds + 1). */
  function RetrySeconds(r: Bucket): int
    requires r.rate > 0.0
  {
    (Wait(r) as real / SECOND as real + 1.0).Floor
  }

  /** Rounding to the next whole second absorbs the truncation: whoever waits as long as
      the header says is admitted, and never waits more than a second too long. */
  lemma RetrySecondsSuffice(b: Bucket, readings: seq<int>, now: int)
    requires b.rate > 0.0 && b.burst >= 1.0 && b.tokens <= b.burst
    requires now >= Latest(b.updatedAt, readings) && now >= b.updatedAt + RetrySeconds(b) * SECOND
    ensures Take(RefillAll(b, readings), now).0
    ensures b.tokens < 1.0 ==> (RetrySeconds(b) * SECOND) as real <= Deficit(b) + SECOND as real
  {
    var w := Wait(b);
    WholeSeconds(w);
    if b.tokens < 1.0 {
      DeficitPositive(b);
      SucceedsExactlyWhenDue(b, readings, now);
    } else {
      RefillsCompose(b, readings);
      LatestIsLater(b.updatedAt, readings);
      RefillTwice(b, Latest(b.updatedAt, readings), now);
      CreditGrows(b.rate, now - b.updatedAt);
    }
  }

  lemma WholeSeconds(w: int)
    ensures (w as real / SECOND as real + 1.0).Floor == w / SECOND + 1
  {
    var q, r := w / SECOND, w % SECOND;
    assert w == q * SECOND + r;
    assert w as real == q as real * SECOND as real + r as real;
    assert w as real / SECOND as real == q as real + r as real / SECOND as real;
    assert 0.0 <= r as real / SECOND as real < 1.0;
  }

  lemma {:induction false} NothingBelowOne(b: Bucket, looks: seq<Look>)
    requires b.rate >= 0.0 && 0.0 <= b.tokens <= b.burst && b.burst < 1.0
    ensures Run(b, looks).0 == 0
    decreases |looks|
  {
    if looks == [] {
    } else {
      NothingBelowOne(b, looks[..|looks| - 1]);
      AdmissionBound(b, looks[..|looks| - 1]);
      var mid := Run(b, looks[..|looks| - 1]).1;
      assert Refill(mid, looks[|looks| - 1].now).tokens <= b.burst;
    }
  }

  /** A new bucket ever admits anything if and only if its burst holds a whole token;
      New makes the burst equal to the rate, so this is a condition on the rate. */
  lemma EverAdmitsExactlyWhen(rate: real, burst: real, start: int)
    requires rate >= 0.0 && burst >= 0.0
    ensures (exists looks :: Run(Full(rate, burst, start), looks).0 > 0) <==> burst >= 1.0
  {
    var b := Full(rate, burst, start);
    if burst >= 1.0 {
      assert [Allow(start)][..0] == [];
      assert Run(b, [Allow(start)]).0 == 1;
    } else if looks :| Run(b, looks).0 > 0 {
      NothingBelowOne(b, looks);
    }
  }

  datatype Response = Served | TooManyRequests(retryAfter: int)

  class Limiter {
    const rate: real
    const burst: real
    var tokens: real
    var updatedAt: int

    constructor (rate: real, burst: real, now: int)
      ensures Value() == Full(rate, burst, now)
    {
      this.rate := rate;
      this.burst := burst;
      this.tokens := burst;
      this.updatedAt := now;
    }

    function Value(): Bucket
      reads this
    {
      Bucket(rate, burst, tokens, updatedAt)
    }

    method RefillLocked(now: int)
      modifies this
      ensures Value() == Refill(old(Value()), now)
    {
      var elapsed := now - updatedAt;
      if elapsed <= 0 {
        return;
      }
      tokens := tokens + elapsed as real / SECOND as real * rate;
      if tokens > burst {
        tokens := burst;
      }
      updatedAt := now;
    }

    method Allow(now: int) returns (allowed: bool)
      modifies this
      ensures (allowed, Value()) == Take(old(Value()), now)
    {
      RefillLocked(now);
      if tokens < 1.0 {
        return false;
      }
      tokens := tokens - 1.0;
      return true;
    }

    method RetryAfter(now: int) returns (nanos: int)
      requires rate > 0.0
      modifies this
      ensures Value() == Refill(old(Value()), now) && nanos == Wait(Value())
    {
      RefillLocked(now);
      if tokens >= 1.0 {
        return 0;
      }
      var deficit := 1.0 - tokens;
      return (deficit / rate * SECOND as real).Floor;
    }

    /** One request through the middleware: it reads the clock for Allow and, on a
        refusal, once more for RetryAfter. */
    method Serve(now: int, again: int) returns (response: Response)
      requires rate > 0.0
      modifies this
      ensures var (allowed, after) := Take(old(Value()), now);
              if allowed then response == Served && Value() == after
              else Value() == Refill(after, again) && response == TooManyRequests(RetrySeconds(Value()))
    {
      var allowed := Allow(now);
      if allowed {
        return Served;
      }
      var nanos := RetryAfter(again);
      return TooManyRequests((nanos as real / SECOND as real + 1.0).Floor);
    }
  }
}
