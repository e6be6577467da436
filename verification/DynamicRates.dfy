/** Tier 1 under any rate the admin call may install: it is not checked, and at a rate of
    zero or below the script's own bookkeeping of the key's expiry goes wrong. Replicas
    and Redis read one clock here, which does not go backward. */
module DynamicRates {
  import opened Limits
  import opened RateLimiter

  datatype Expiry = Never | At(ms: int)

  /** A key as Redis holds it. */
  datatype Kept = Gone | Held(bucket: Stored, expires: Expiry)

  function Seen(k: Kept, now: int): Stored {
    if k.Gone? || (k.expires.At? && now >= k.expires.ms) then Absent else k.bucket
  }

  /** The script's last argument to EXPIRE. */
  function ExpirySeconds(rate: int, burst: int): int
    requires rate != 0
  {
    Ceil(burst as real / rate as real) + 60
  }

  /** One run of the whole script. At rate zero that argument is no number, so the script
      fails after it has written the bucket; if it is not positive, Redis drops the key. */
  function Call(k: Kept, rate: int, burst: int, cost: int, now: int): (Kept, StoreResult) {
    var s := Seen(k, now);
    if rate == 0 then
      var tokens := Available(s, rate, burst, now);
      var left := if tokens >= cost as real then tokens - cost as real else tokens;
      (Held(Stored(left, now), if s.Absent? then Never else k.expires), Unavailable)
    else
      var (after, a) := CheckAndDecrement(s, rate, burst, cost, now);
      var seconds := ExpirySeconds(rate, burst);
      (if seconds <= 0 then Gone else Held(after, At(now + seconds * 1000)), Ok(a))
  }

  /** Any sequence of requests to the limiter: the cost it lets through, and the key. */
  function Through(k: Kept, rate: int, burst: int, asks: seq<Ask>): (int, Kept)
    decreases |asks|
  {
    if asks == [] then (0, k)
    else
      var (cost, mid) := Through(k, rate, burst, asks[..|asks| - 1]);
      var ask := asks[|asks| - 1];
      var (after, result) := Call(mid, rate, burst, ask.cost, ask.now);
      (if Passes(Check(result, burst, false)) then cost + ask.cost else cost, after)
  }

  function PositivePart(x: real): real {
    if x > 0.0 then x else 0.0
  }

  ghost predicate Proper(asks: seq<Ask>) {
    InOrder(Absent, asks) && asks != [] && forall ask :: ask in asks ==> ask.cost > 0
  }

  /** The promise of Tier 1: what is let through is covered by a full burst and the rate
      times the time that passed. */
  ghost predicate Bounds(rate: int, burst: int) {
    forall asks: seq<Ask> :: Proper(asks) ==> Through(Gone, rate, burst, asks).0 as real <= Allowance(rate, burst, asks)
  }

  function Allowance(rate: int, burst: int, asks: seq<Ask>): real
    requires asks != []
  {
    burst as real + PositivePart(Credit(rate, asks[|asks| - 1].now - asks[0].now))
  }

  /** With a positive rate the key's expiry is invisible in any run. */
  lemma {:induction false} ExpiryNeverShows(rate: int, burst: int, asks: seq<Ask>)
    requires rate > 0 && burst >= 0 && InOrder(Absent, asks) && forall ask :: ask in asks ==> ask.cost > 0
    ensures var (spent, s) := Spend(Absent, rate, burst, asks);
            var (cost, k) := Through(Gone, rate, burst, asks);
            && cost == spent
            && (if asks == [] then k == Gone
                else k == Held(s, At(asks[|asks| - 1].now + ExpirySeconds(rate, burst) * 1000)))
    decreases |asks|
  {
    if asks == [] {
    } else {
      var before, ask := asks[..|asks| - 1], asks[|asks| - 1];
      ExpiryNeverShows(rate, burst, before);
      SharedAdmissionBound(Absent, rate, burst, before);
      var s, k := Spend(Absent, rate, burst, before).1, Through(Gone, rate, burst, before).1;
      OneCallAgrees(s, k, rate, burst, ask);
    }
  }

  lemma OneCallAgrees(s: Stored, k: Kept, rate: int, burst: int, ask: Ask)
    requires rate > 0 && burst >= 0 && Level(s, burst) >= 0.0
    requires if s.Absent? then k == Gone else k == Held(s, At(s.updatedAt + ExpirySeconds(rate, burst) * 1000))
    ensures var (after, a) := CheckAndDecrement(s, rate, burst, ask.cost, ask.now);
            Call(k, rate, burst, ask.cost, ask.now)
                == (Held(after, At(ask.now + ExpirySeconds(rate, burst) * 1000)), Ok(a))
  {
    PositiveExpiry(rate, burst);
    if s.Stored? && ask.now >= s.updatedAt + ExpirySeconds(rate, burst) * 1000 {
      ExpiryIsInvisible(s, rate, burst, ask.cost, ask.now);
    }
  }

  lemma PositiveExpiry(rate: int, burst: int)
    requires rate > 0 && burst >= 0
    ensures ExpirySeconds(rate, burst) >= 60
  {
    QuotientSign(burst as real, rate as real);
  }

  lemma PositiveRateBounds(rate: int, burst: int)
    requires rate > 0 && burst >= 0
    ensures Bounds(rate, burst)
  {
    forall asks: seq<Ask> | Proper(asks)
      ensures Through(Gone, rate, burst, asks).0 as real <= Allowance(rate, burst, asks)
    {
      var (spent, after) := Spend(Absent, rate, burst, asks);
      assert Through(Gone, rate, burst, asks).0 == spent by {
        ExpiryNeverShows(rate, burst, asks);
      }
      assert Level(after, burst) >= 0.0 by {
        SharedAdmissionBound(Absent, rate, burst, asks);
      }
      var credit := Credit(rate, asks[|asks| - 1].now - asks[0].now);
      assert spent as real + Level(after, burst) <= burst as real + credit by {
        InOrderAdmissionBound(Absent, rate, burst, asks);
      }
      Covered(spent, Level(after, burst), burst, credit);
    }
  }

  lemma Covered(spent: int, left: real, burst: int, credit: real)
    requires spent as real + left <= burst as real + credit && left >= 0.0
    ensures spent as real <= burst as real + PositivePart(credit)
  {}

  /** Below zero with an empty burst nothing is let through at all. */
  lemma {:induction false} NothingGetsThrough(rate: int, k: Kept, asks: seq<Ask>)
    requires rate < 0 && forall ask :: ask in asks ==> ask.cost > 0
    ensures Through(k, rate, 0, asks).0 == 0
    decreases |asks|
  {
    if asks == [] {
    } else {
      assert asks[|asks| - 1] in asks;
      NothingGetsThrough(rate, k, asks[..|asks| - 1]);
    }
  }

  lemma FullAgain(k: Kept, rate: int, burst: int, now: int)
    requires rate < 0 && burst > 0 && Seen(k, now).Absent?
    ensures var (after, result) := Call(k, rate, burst, burst, now);
            && Passes(Check(result, burst, false))
            && forall later :: later >= now && later >= now + ExpirySeconds(rate, burst) * 1000
                ==> Seen(after, later).Absent?
  {
    assert Credit(rate, 0) == 0.0;
  }

  /** Below zero every burst comes back when the key expires, at once if the expiry is
      not positive: waiting that long gets a second burst through, while nothing refills. */
  lemma NegativeRateDoesNot(rate: int, burst: int)
    requires rate < 0 && burst > 0
    ensures !Bounds(rate, burst)
  {
    var seconds := ExpirySeconds(rate, burst);
    var later := if seconds > 0 then seconds * 1000 else 0;
    var first, second := Ask(burst, 0), Ask(burst, later);
    var asks := [first, second];
    assert asks[..1] == [first] && [first][..0] == [];
    FullAgain(Gone, rate, burst, 0);
    FullAgain(Call(Gone, rate, burst, burst, 0).0, rate, burst, later);
    assert Through(Gone, rate, burst, [first]) == (burst, Call(Gone, rate, burst, burst, 0).0);
    assert Through(Gone, rate, burst, asks).0 == 2 * burst;
    assert Proper(asks);
    NoCredit(rate, later);
  }

  lemma NoCredit(rate: int, ms: int)
    requires rate <= 0 && ms >= 0
    ensures Credit(rate, ms) <= 0.0
  {
    assert ms as real / 1000.0 >= 0.0;
    assert ms as real / 1000.0 * rate as real <= 0.0;
  }

  /** At zero the script fails and the limiter fails open: everything gets through. */
  lemma ZeroRateDoesNot(burst: int)
    requires burst >= 0
    ensures !Bounds(0, burst)
  {
    var asks := [Ask(burst + 1, 0)];
    assert asks[..0] == [];
    assert Through(Gone, 0, burst, asks).0 == burst + 1;
    assert Proper(asks);
    NoCredit(0, 0);
  }

  /** The admission bound holds for the rates that SetRate installs exactly when they are
      positive, or negative with an empty burst. */
  lemma RatesBoundExactlyWhen(rate: int, burst: int)
    requires burst >= 0
    ensures Bounds(rate, burst) <==> rate > 0 || (rate < 0 && burst == 0)
  {
    if rate > 0 {
      PositiveRateBounds(rate, burst);
    } else if rate == 0 {
      ZeroRateDoesNot(burst);
    } else if burst > 0 {
      NegativeRateDoesNot(rate, burst);
    } else {
      forall asks: seq<Ask> | Proper(asks)
        ensures Through(Gone, rate, burst, asks).0 == 0
      {
        NothingGetsThrough(rate, Gone, asks);
      }
    }
  }
}
