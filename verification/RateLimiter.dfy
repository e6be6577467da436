/** Tier 1: the shared token bucket of token_bucket.lua. Its clock readings are the wall
    clock's milliseconds as the replica that asks reads them. */
module RateLimiter {
  import opened Limits
  import LB = LocalBucket

  const TIER := "rate_limiter"

  /** The Redis hash of a key; it may not exist, or have expired. */
  datatype Stored = Absent | Stored(tokens: real, updatedAt: int)

  datatype Answer = Answer(allowed: bool, retryAfterMs: int, remaining: int)

  function Credit(rate: int, elapsedMs: int): real {
    elapsedMs as real / 1000.0 * rate as real
  }

  function Ceil(x: real): int {
    -((-x).Floor)
  }

  function Available(s: Stored, rate: int, burst: int, now: int): real {
    if s.Absent? then LB.Min(burst as real, burst as real + Credit(rate, 0))
    else LB.Min(burst as real, s.tokens + Credit(rate, if now > s.updatedAt then now - s.updatedAt else 0))
  }

  function CheckAndDecrement(s: Stored, rate: int, burst: int, cost: int, now: int): (Stored, Answer)
    requires rate != 0
  {
    var tokens := Available(s, rate, burst, now);
    if tokens >= cost as real then
      (Stored(tokens - cost as real, now), Answer(true, 0, (tokens - cost as real).Floor))
    else
      (Stored(tokens, now), Answer(false, Ceil((cost as real - tokens) / rate as real * 1000.0), tokens.Floor))
  }

  /** What the limiter makes of the store's answer; it fails open. */
  datatype StoreResult = Ok(answer: Answer) | Unavailable

  function Check(result: StoreResult, burst: int, shadowMode: bool): (v: Verdict)
    ensures v.err.NoError? && v.decision.reservations == []
    ensures v.decision.action.REJECT_429? <==> result.Ok? && !result.answer.allowed && !shadowMode
    ensures Passes(v) <==> result.Unavailable? || result.answer.allowed
    ensures var d := v.decision;
            && d.tier == "rate_limiter"
            && (result.Unavailable? ==> d.action == ALLOW && d.retryAfterMs == 0 && d.limit == 0 && d.remaining == 0)
            && (result.Ok? ==> d.limit == burst && d.remaining == result.answer.remaining)
            && (result.Ok? && result.answer.allowed ==> d.action == ALLOW && d.retryAfterMs == 0)
            && (result.Ok? && !result.answer.allowed ==> d.retryAfterMs == result.answer.retryAfterMs)
            && (result.Ok? && !result.answer.allowed && shadowMode ==> d.action == SHADOW_LOG)
  {
    match result
    case Unavailable => Plain(ALLOW, 0, TIER)
    case Ok(a) =>
      var action := if a.allowed then ALLOW else if shadowMode then SHADOW_LOG else REJECT_429;
      Verdict(Decision(action, if a.allowed then 0 else a.retryAfterMs, [], TIER, burst, a.remaining), NoError)
  }

  datatype Ask = Ask(cost: int, now: int)

  /** Any sequence of requests: the cost admitted in all, and the bucket they leave. */
  function Spend(s: Stored, rate: int, burst: int, asks: seq<Ask>): (int, Stored)
    requires rate > 0
    decreases |asks|
  {
    if asks == [] then (0, s)
    else
      var (spent, mid) := Spend(s, rate, burst, asks[..|asks| - 1]);
      var ask := asks[|asks| - 1];
      var (after, a) := CheckAndDecrement(mid, rate, burst, ask.cost, ask.now);
      (if a.allowed then spent + ask.cost else spent, after)
  }

  /** The tokens a bucket stands for: a key that is not there is a full bucket. */
  function Level(s: Stored, burst: int): real {
    if s.Absent? then burst as real else s.tokens
  }

  function Later(from: int, now: int): int {
    if now > from then now - from else 0
  }

  /** How far the clock readings moved forward in all, steps backward not counted. */
  function Moved(s: Stored, asks: seq<Ask>): int
    decreases |asks|
  {
    if asks == [] then 0
    else
      var before, now := asks[..|asks| - 1], asks[|asks| - 1].now;
      if before != [] then Moved(s, before) + Later(before[|before| - 1].now, now)
      else if s.Stored? then Later(s.updatedAt, now)
      else 0
  }

  /** What Tier 1 is for: whatever is asked, under whatever readings the replicas stamp
      their requests with, the admitted cost never exceeds the tokens there were plus
      the rate times the time by which the readings moved forward. The core refuses
      costs below one before they get here. */
  lemma {:induction false} SharedAdmissionBound(s: Stored, rate: int, burst: int, asks: seq<Ask>)
    requires rate > 0 && burst >= 0 && Level(s, burst) >= 0.0
    requires forall ask :: ask in asks ==> ask.cost > 0
    ensures var (spent, after) := Spend(s, rate, burst, asks);
            && Level(after, burst) >= 0.0
            && (asks != [] ==>
                  after.Stored? && after.tokens <= burst as real && after.updatedAt == asks[|asks| - 1].now)
            && spent as real + Level(after, burst) <= Level(s, burst) + Credit(rate, Moved(s, asks))
    decreases |asks|
  {
    if asks == [] {
      assert Credit(rate, 0) == 0.0;
    } else {
      var before, ask := asks[..|asks| - 1], asks[|asks| - 1];
      SharedAdmissionBound(s, rate, burst, before);
      var mid := Spend(s, rate, burst, before).1;
      var moved := if mid.Stored? then Later(mid.updatedAt, ask.now) else 0;
      assert Moved(s, asks) == Moved(s, before) + moved;
      CreditAdds(rate, Moved(s, before), moved);
      CreditSince(rate, 0, moved);
      assert ask in asks;
      SpendOne(mid, rate, burst, ask, moved);
    }
  }

  lemma SpendOne(s: Stored, rate: int, burst: int, ask: Ask, moved: int)
    requires rate > 0 && burst >= 0 && Level(s, burst) >= 0.0 && ask.cost > 0
    requires moved == (if s.Stored? then Later(s.updatedAt, ask.now) else 0) && Credit(rate, moved) >= 0.0
    ensures var (after, a) := CheckAndDecrement(s, rate, burst, ask.cost, ask.now);
            && after.Stored? && after.updatedAt == ask.now && 0.0 <= after.tokens <= burst as real
            && (if a.allowed then ask.cost else 0) as real + after.tokens <= Level(s, burst) + Credit(rate, moved)
  {}

  /** No reading is earlier than the one before; the first is at or after the bucket's own. */
  ghost predicate InOrder(s: Stored, asks: seq<Ask>) {
    && (forall i, j :: 0 <= i <= j < |asks| ==> asks[i].now <= asks[j].now)
    && (s.Stored? && asks != [] ==> s.updatedAt <= asks[0].now)
  }

  lemma {:induction false} MovedInOrder(s: Stored, asks: seq<Ask>)
    requires InOrder(s, asks) && asks != []
    ensures Moved(s, asks) == asks[|asks| - 1].now - if s.Stored? then s.updatedAt else asks[0].now
    decreases |asks|
  {
    if |asks| == 1 {
    } else {
      MovedInOrder(s, asks[..|asks| - 1]);
    }
  }

  /** In order, the forward movement is the time that passed. */
  lemma InOrderAdmissionBound(s: Stored, rate: int, burst: int, asks: seq<Ask>)
    requires rate > 0 && burst >= 0 && Level(s, burst) >= 0.0
    requires (forall ask :: ask in asks ==> ask.cost > 0) && InOrder(s, asks) && asks != []
    ensures var (spent, after) := Spend(s, rate, burst, asks);
            var start := if s.Stored? then s.updatedAt else asks[0].now;
            spent as real + Level(after, burst) <= Level(s, burst) + Credit(rate, asks[|asks| - 1].now - start)
  {
    SharedAdmissionBound(s, rate, burst, asks);
    MovedInOrder(s, asks);
  }

  lemma CreditAdds(rate: int, a: int, b: int)
    ensures Credit(rate, a + b) == Credit(rate, a) + Credit(rate, b)
  {
    var x, y, r := a as real, b as real, rate as real;
    assert (a + b) as real == x + y;
    assert (x + y) / 1000.0 == x / 1000.0 + y / 1000.0;
    assert (x / 1000.0 + y / 1000.0) * r == x / 1000.0 * r + y / 1000.0 * r;
  }

  /** The remaining count is exact: of n more requests of cost one in the same
      millisecond, exactly the first `remaining` are admitted. */
  lemma {:induction false} RemainingIsExact(s: Stored, rate: int, burst: int, cost: int, now: int, n: nat)
    requires rate > 0 && burst >= 0 && Level(s, burst) >= 0.0 && cost > 0
    ensures var (after, a) := CheckAndDecrement(s, rate, burst, cost, now);
            && a.remaining >= 0
            && Spend(after, rate, burst, seq(n, _ => Ask(1, now))).0 == if n <= a.remaining then n else a.remaining
  {
    var (after, a) := CheckAndDecrement(s, rate, burst, cost, now);
    CreditSince(rate, 0, if s.Stored? then Later(s.updatedAt, now) else 0);
    assert 0.0 <= after.tokens <= burst as real && a.remaining == after.tokens.Floor;
    SameInstant(after, rate, burst, now, n);
  }

  lemma {:induction false} SameInstant(s: Stored, rate: int, burst: int, now: int, n: nat)
    requires rate > 0 && s.Stored? && s.updatedAt == now && 0.0 <= s.tokens <= burst as real
    ensures var (spent, after) := Spend(s, rate, burst, seq(n, _ => Ask(1, now)));
            && spent == (if n <= s.tokens.Floor then n else s.tokens.Floor)
            && after == Stored(s.tokens - spent as real, now)
  {
    if n == 0 {
    } else {
      var asks, fewer := seq(n, _ => Ask(1, now)), seq(n - 1, _ => Ask(1, now));
      assert asks[..n - 1] == fewer;
      SameInstant(s, rate, burst, now, n - 1);
      assert Credit(rate, 0) == 0.0;
    }
  }

  function TotalCost(asks: seq<Ask>): int {
    if asks == [] then 0 else TotalCost(asks[..|asks| - 1]) + asks[|asks| - 1].cost
  }

  /** Costs are charged exactly: any requests at one and the same reading are all admitted
      if and only if the tokens available then cover their costs together, and then they
      take just that. */
  lemma {:induction false} CostsAreChargedExactly(s: Stored, rate: int, burst: int, asks: seq<Ask>, now: int)
    requires rate > 0 && asks != [] && forall ask :: ask in asks ==> ask.cost > 0 && ask.now == now
    ensures var (spent, after) := Spend(s, rate, burst, asks);
            && spent <= TotalCost(asks)
            && after == Stored(Available(s, rate, burst, now) - spent as real, now)
            && (spent == TotalCost(asks) <==> TotalCost(asks) as real <= Available(s, rate, burst, now))
    decreases |asks|
  {
    var before, ask := asks[..|asks| - 1], asks[|asks| - 1];
    assert ask in asks;
    if before == [] {
      assert TotalCost(before) == 0;
    } else {
      CostsAreChargedExactly(s, rate, burst, before, now);
      var (spent, mid) := Spend(s, rate, burst, before);
      SpentNeverNegative(s, rate, burst, before);
      NothingGainedAtOnce(mid, rate, burst, now);
    }
  }

  lemma NothingGainedAtOnce(s: Stored, rate: int, burst: int, now: int)
    requires rate > 0 && s.Stored? && s.updatedAt == now && s.tokens <= burst as real
    ensures Available(s, rate, burst, now) == s.tokens
  {
    assert Credit(rate, 0) == 0.0;
  }

  /** Every whole second that passes is worth the rate, up to the burst. */
  lemma SecondsAreWorthTheRate(s: Stored, rate: int, burst: int, now: int, seconds: nat)
    requires rate > 0 && s.Stored? && now == s.updatedAt + 1000 * seconds
    ensures var full := s.tokens + (seconds * rate) as real;
            Available(s, rate, burst, now) == if burst as real < full then burst as real else full
  {
    assert Credit(rate, 1000 * seconds) == (seconds * rate) as real by {
      assert (1000 * seconds) as real == 1000.0 * seconds as real;
      assert (1000.0 * seconds as real) / 1000.0 == seconds as real;
    }
  }

  /** The advertised wait is exact for a cost that the burst can pay: after a refusal, with
      any number of refused requests and no admitted one in between, the same request is
      admitted if and only if the wait is over. A cost above the burst is told a wait as
      well, but is never admitted. */
  lemma RetryAfterIsExact(s: Stored, rate: int, burst: int, cost: int, now: int, between: seq<Ask>, later: int)
    requires rate > 0 && cost > 0
    requires !CheckAndDecrement(s, rate, burst, cost, now).1.allowed
    requires var after := CheckAndDecrement(s, rate, burst, cost, now).0;
             && InOrder(after, between)
             && (forall ask :: ask in between ==> ask.cost > 0) && Spend(after, rate, burst, between).0 == 0
    requires if between == [] then now <= later else between[|between| - 1].now <= later
    ensures var (after, a) := CheckAndDecrement(s, rate, burst, cost, now);
            CheckAndDecrement(Spend(after, rate, burst, between).1, rate, burst, cost, later).1.allowed
            <==> cost <= burst && later >= now + a.retryAfterMs
  {
    var (after, a) := CheckAndDecrement(s, rate, burst, cost, now);
    RefusedAt(s, rate, burst, cost, now);
    assert now <= later;
    RefusalsOnlyRefill(after, rate, burst, between, later);
    var mid := Spend(after, rate, burst, between).1;
    if cost <= burst {
      AllowedWhenCovered(mid, after, rate, burst, cost, later);
      WaitIsOver(after.tokens, rate, cost, later - now);
    } else {
      AboveBurstIsRefused(mid, rate, burst, cost, later);
    }
  }

  lemma AboveBurstIsRefused(s: Stored, rate: int, burst: int, cost: int, now: int)
    requires rate > 0 && cost > burst
    ensures !CheckAndDecrement(s, rate, burst, cost, now).1.allowed
  {}

  /** From any bucket, a cost is admitted at some time if and only if the burst can pay it. */
  lemma EverAdmittedExactlyWhen(s: Stored, rate: int, burst: int, cost: int)
    requires rate > 0
    ensures (exists now: int :: CheckAndDecrement(s, rate, burst, cost, now).1.allowed) <==> cost <= burst
  {
    if cost > burst {
      forall now: int
        ensures !CheckAndDecrement(s, rate, burst, cost, now).1.allowed
      {
        AboveBurstIsRefused(s, rate, burst, cost, now);
      }
    } else if s.Absent? {
      assert Credit(rate, 0) == 0.0;
      assert CheckAndDecrement(s, rate, burst, cost, 0).1.allowed;
    } else if s.tokens >= cost as real {
      assert Credit(rate, 0) == 0.0;
      AllowedWhenCovered(s, s, rate, burst, cost, s.updatedAt);
      assert CheckAndDecrement(s, rate, burst, cost, s.updatedAt).1.allowed;
    } else {
      var wait := Wait(s.tokens, rate, cost);
      TimeCovers(rate as real, cost as real - s.tokens, wait);
      AllowedWhenCovered(s, s, rate, burst, cost, s.updatedAt + wait);
      assert CheckAndDecrement(s, rate, burst, cost, s.updatedAt + wait).1.allowed;
    }
  }

  function Wait(tokens: real, rate: int, cost: int): int
    requires rate > 0
  {
    Ceil((cost as real - tokens) / rate as real * 1000.0)
  }

  lemma RefusedAt(s: Stored, rate: int, burst: int, cost: int, now: int)
    requires rate > 0 && !CheckAndDecrement(s, rate, burst, cost, now).1.allowed
    ensures var (after, a) := CheckAndDecrement(s, rate, burst, cost, now);
            && after.Stored? && after.updatedAt == now && after.tokens <= burst as real && after.tokens < cost as real
            && a.retryAfterMs == Wait(after.tokens, rate, cost)
  {}

  /** A request the burst can pay is admitted exactly when tokens and credit cover it. */
  lemma AllowedWhenCovered(mid: Stored, s: Stored, rate: int, burst: int, cost: int, later: int)
    requires rate > 0 && cost <= burst && s.Stored? && s.updatedAt <= later
    requires Available(mid, rate, burst, later) == Available(s, rate, burst, later)
    ensures CheckAndDecrement(mid, rate, burst, cost, later).1.allowed
            <==> s.tokens + Credit(rate, later - s.updatedAt) >= cost as real
  {}

  /** In order, refused requests leave the bucket as if nobody had looked. */
  lemma {:induction false} RefusalsOnlyRefill(s: Stored, rate: int, burst: int, asks: seq<Ask>, later: int)
    requires rate > 0 && s.Stored? && s.tokens <= burst as real && InOrder(s, asks)
    requires (forall ask :: ask in asks ==> ask.cost > 0) && Spend(s, rate, burst, asks).0 == 0
    requires if asks == [] then s.updatedAt <= later else asks[|asks| - 1].now <= later
    ensures var mid := Spend(s, rate, burst, asks).1;
            mid.Stored? && mid.updatedAt <= later && Available(mid, rate, burst, later)
                == Available(s, rate, burst, later)
    decreases |asks|
  {
    if asks == [] {
    } else {
      var before, ask := asks[..|asks| - 1], asks[|asks| - 1];
      SpentNeverNegative(s, rate, burst, before);
      assert ask in asks;
      RefusalsOnlyRefill(s, rate, burst, before, ask.now);
      var mid := Spend(s, rate, burst, before).1;
      var after := Spend(s, rate, burst, asks).1;
      assert after == Stored(Available(s, rate, burst, ask.now), ask.now);
      assert s.updatedAt <= asks[0].now <= ask.now;
      AvailableTwice(s, rate, burst, ask.now, later);
    }
  }

  lemma {:induction false} SpentNeverNegative(s: Stored, rate: int, burst: int, asks: seq<Ask>)
    requires rate > 0 && forall ask :: ask in asks ==> ask.cost > 0
    ensures Spend(s, rate, burst, asks).0 >= 0
    decreases |asks|
  {
    if asks == [] {
    } else {
      assert asks[|asks| - 1] in asks;
      SpentNeverNegative(s, rate, burst, asks[..|asks| - 1]);
    }
  }

  lemma AvailableTwice(s: Stored, rate: int, burst: int, now: int, later: int)
    requires rate > 0 && s.Stored? && s.updatedAt <= now <= later
    ensures Available(Stored(Available(s, rate, burst, now), now), rate, burst, later)
        == Available(s, rate, burst, later)
  {
    CreditAdds(rate, now - s.updatedAt, later - now);
    CreditSince(rate, 0, later - now);
  }

  /** The credit of `elapsed` milliseconds covers what is missing exactly from the
      rounded-up wait on. */
  lemma WaitIsOver(tokens: real, rate: int, cost: int, elapsed: int)
    requires rate > 0 && tokens < cost as real && elapsed >= 0
    ensures tokens + Credit(rate, elapsed) >= cost as real
            <==> elapsed >= Wait(tokens, rate, cost)
  {
    var need := cost as real - tokens;
    if elapsed >= Ceil(need / rate as real * 1000.0) {
      TimeCovers(rate as real, need, elapsed);
    } else {
      TimeFallsShort(rate as real, need, elapsed);
    }
  }

  lemma TimeFallsShort(rate: real, need: real, ms: int)
    requires rate > 0.0 && ms < Ceil(need / rate * 1000.0)
    ensures ms as real / 1000.0 * rate < need
  {
    var x, y := need / rate, ms as real / 1000.0;
    assert x * rate == need;
    assert ms as real < x * 1000.0;
    assert y < x;
    ScaleStrictly(y, x, rate);
  }

  lemma ScaleStrictly(x: real, y: real, rate: real)
    requires x < y && rate > 0.0
    ensures x * rate < y * rate
  {}

  /** Rounded up to whole milliseconds, the time for `need` tokens brings `need` tokens. */
  lemma TimeCovers(rate: real, need: real, ms: int)
    requires rate > 0.0 && need >= 0.0 && ms >= Ceil(need / rate * 1000.0)
    ensures ms >= 0 && ms as real / 1000.0 * rate >= need
  {
    var x, y := need / rate, ms as real / 1000.0;
    assert x * rate == need;
    assert x >= 0.0 by {
      QuotientSign(need, rate);
    }
    assert ms as real >= x * 1000.0;
    assert y >= x;
    Scale(x, y, rate);
  }

  lemma QuotientSign(a: real, b: real)
    requires a >= 0.0 && b > 0.0
    ensures a / b >= 0.0
  {}

  lemma Scale(x: real, y: real, rate: real)
    requires y >= x && rate > 0.0
    ensures y * rate >= x * rate
  {}

  lemma CreditSince(rate: int, wait: int, elapsed: int)
    requires rate > 0 && 0 <= wait <= elapsed
    ensures Credit(rate, elapsed) >= Credit(rate, wait) >= 0.0
  {
    Scale(wait as real / 1000.0, elapsed as real / 1000.0, rate as real);
    Scale(0.0, wait as real / 1000.0, rate as real);
  }

  /** The key's expiry, ceil(burst / rate) + 60 seconds after its last use, is never
      noticed: by then the bucket is full again, as an absent one is. */
  lemma ExpiryIsInvisible(s: Stored, rate: int, burst: int, cost: int, now: int)
    requires rate > 0 && burst >= 0 && s.Stored? && s.tokens >= 0.0
    requires now >= s.updatedAt + (Ceil(burst as real / rate as real) + 60) * 1000
    ensures CheckAndDecrement(s, rate, burst, cost, now) == CheckAndDecrement(Absent, rate, burst, cost, now)
  {
    assert Credit(rate, now - s.updatedAt) >= burst as real by {
      var seconds := Ceil(burst as real / rate as real);
      QuotientSign(burst as real, rate as real);
      assert seconds as real >= burst as real / rate as real;
      assert seconds * 1000 >= Ceil(burst as real / rate as real * 1000.0);
      TimeCovers(rate as real, burst as real, seconds * 1000);
      CreditSince(rate, seconds * 1000, now - s.updatedAt);
    }
    assert Credit(rate, 0) == 0.0;
    assert Available(s, rate, burst, now) == burst as real == Available(Absent, rate, burst, now);
  }
}
