/** The sidecar's own bucket says it mirrors the script's. It does, verdict for verdict,
    exactly as long as no reading of the clock lies before the bucket's stamp. */
module BucketMirror {
  import opened RateLimiter
  import LB = LocalBucket

  const MILLI := 1_000_000

  predicate Mirrors(b: LB.Bucket, s: Stored, rate: int, burst: int) {
    s.Stored? && b == LB.Bucket(rate as real, burst as real, s.tokens, s.updatedAt * MILLI)
  }

  /** The verdicts of both buckets on requests of cost one at the given milliseconds. */
  function SharedVerdicts(s: Stored, rate: int, burst: int, readings: seq<int>): seq<bool>
    requires rate > 0
    decreases |readings|
  {
    if readings == [] then []
    else
      var (after, a) := CheckAndDecrement(s, rate, burst, 1, readings[0]);
      [a.allowed] + SharedVerdicts(after, rate, burst, readings[1..])
  }

  function LocalVerdicts(b: LB.Bucket, readings: seq<int>): seq<bool>
    decreases |readings|
  {
    if readings == [] then []
    else
      var (allowed, after) := LB.Take(b, readings[0] * MILLI);
      [allowed] + LocalVerdicts(after, readings[1..])
  }

  ghost predicate Forward(at: int, readings: seq<int>)
    decreases |readings|
  {
    readings == [] || (at <= readings[0] && Forward(readings[0], readings[1..]))
  }

  /** The sidecar's bucket does mirror the shared one, verdict for verdict, as long
      as the clock does not go backward. */
  lemma {:induction false} SidecarMirrorsScript(b: LB.Bucket, s: Stored, rate: int, burst: int, readings: seq<int>)
    requires rate > 0 && Mirrors(b, s, rate, burst) && s.tokens <= burst as real && Forward(s.updatedAt, readings)
    ensures LocalVerdicts(b, readings) == SharedVerdicts(s, rate, burst, readings)
    decreases |readings|
  {
    if readings == [] {
    } else {
      var now := readings[0];
      SameCredit(rate, now - s.updatedAt);
      var (after, a) := CheckAndDecrement(s, rate, burst, 1, now);
      var (allowed, b') := LB.Take(b, now * MILLI);
      assert Mirrors(b', after, rate, burst);
      SidecarMirrorsScript(b', after, rate, burst, readings[1..]);
    }
  }

  lemma SameCredit(rate: int, ms: int)
    ensures LB.Credit(rate as real, ms * MILLI) == Credit(rate, ms)
  {
    assert (ms * MILLI) as real == ms as real * MILLI as real;
    assert (ms as real * MILLI as real) / LB.SECOND as real == ms as real / 1000.0;
  }

  /** The sidecar's bucket mirrors the script's from a reading on, whatever forward
      readings follow, if and only if that reading does not lie before the bucket's
      stamp, or the burst is zero and nothing is ever admitted. */
  lemma MirrorsExactlyWhen(b: LB.Bucket, s: Stored, rate: int, burst: int, now: int)
    requires rate > 0 && Mirrors(b, s, rate, burst) && 0.0 <= s.tokens <= burst as real
    ensures (forall more :: Forward(now, more) ==>
               LocalVerdicts(b, [now] + more) == SharedVerdicts(s, rate, burst, [now] + more))
            <==> s.updatedAt <= now || burst == 0
  {
    if s.updatedAt <= now {
      forall more | Forward(now, more)
        ensures LocalVerdicts(b, [now] + more) == SharedVerdicts(s, rate, burst, [now] + more)
      {
        assert ([now] + more)[1..] == more;
        SidecarMirrorsScript(b, s, rate, burst, [now] + more);
      }
    } else if burst == 0 {
      forall more: seq<int>
        ensures LocalVerdicts(b, [now] + more) == SharedVerdicts(s, rate, burst, [now] + more)
      {
        NothingToAdmit(b, s, rate, [now] + more);
      }
    } else {
      var more := StepBackShows(b, s, rate, burst, now);
    }
  }

  lemma {:induction false} NothingToAdmit(b: LB.Bucket, s: Stored, rate: int, readings: seq<int>)
    requires rate > 0 && b.rate == rate as real && b.burst == 0.0 && b.tokens == 0.0 && s.Stored? && s.tokens == 0.0
    ensures LocalVerdicts(b, readings) == SharedVerdicts(s, rate, 0, readings)
    decreases |readings|
  {
    if readings == [] {
    } else {
      var now := readings[0];
      CreditSince(rate, 0, if now > s.updatedAt then now - s.updatedAt else 0);
      LB.CreditGrows(b.rate, if now * MILLI > b.updatedAt then now * MILLI - b.updatedAt else 0);
      NothingToAdmit(LB.Take(b, now * MILLI).1, CheckAndDecrement(s, rate, 0, 1, now).0, rate, readings[1..]);
    }
  }

  /** After a reading before its stamp the script credits the same time twice, the
      sidecar does not; some later readings bring that out. */
  lemma StepBackShows(b: LB.Bucket, s: Stored, rate: int, burst: int, now: int) returns (more: seq<int>)
    requires rate > 0 && burst >= 1 && Mirrors(b, s, rate, burst) && 0.0 <= s.tokens <= burst as real
    requires now < s.updatedAt
    ensures Forward(now, more)
    ensures LocalVerdicts(b, [now] + more) != SharedVerdicts(s, rate, burst, [now] + more)
  {
    var u := s.updatedAt;
    var left := if s.tokens >= 1.0 then s.tokens - 1.0 else s.tokens;
    var shared, local := Stored(left, now), b.(tokens := left);
    BothTake(b, s, rate, burst, now);
    Credited(rate, u - now);
    var gained := LB.Min(burst as real, left + Credit(rate, u - now));
    more := AheadShows(local, gained, left.Floor, rate, burst, u);
    SameFromThere(shared, gained, rate, burst, u, more);
    OneByOne(b, s, rate, burst, now, more);
    HeadsAgree(s.tokens >= 1.0, LocalVerdicts(local, more), SharedVerdicts(shared, rate, burst, more));
  }

  lemma OneByOne(b: LB.Bucket, s: Stored, rate: int, burst: int, now: int, more: seq<int>)
    requires rate > 0
    ensures LocalVerdicts(b, [now] + more) == [LB.Take(b, now * MILLI).0]
        + LocalVerdicts(LB.Take(b, now * MILLI).1, more)
    ensures var (after, a) := CheckAndDecrement(s, rate, burst, 1, now);
            SharedVerdicts(s, rate, burst, [now] + more) == [a.allowed] + SharedVerdicts(after, rate, burst, more)
  {
    assert ([now] + more)[1..] == more;
  }

  lemma HeadsAgree(v: bool, x: seq<bool>, y: seq<bool>)
    requires x != y
    ensures [v] + x != [v] + y
  {
    assert ([v] + x)[1..] == x && ([v] + y)[1..] == y;
  }

  lemma BothTake(b: LB.Bucket, s: Stored, rate: int, burst: int, now: int)
    requires rate > 0 && Mirrors(b, s, rate, burst) && s.tokens <= burst as real && now < s.updatedAt
    ensures var left := if s.tokens >= 1.0 then s.tokens - 1.0 else s.tokens;
            && CheckAndDecrement(s, rate, burst, 1, now).0 == Stored(left, now)
            && CheckAndDecrement(s, rate, burst, 1, now).1.allowed == (s.tokens >= 1.0)
            && LB.Take(b, now * MILLI) == (s.tokens >= 1.0, b.(tokens := left))
  {
    assert Credit(rate, 0) == 0.0;
  }

  lemma Credited(rate: int, ms: int)
    requires rate > 0 && ms >= 1
    ensures Credit(rate, ms) >= Credit(rate, 1) > 0.0
  {
    CreditSince(rate, 1, ms);
    ScaleStrictly(0.0, 1 as real / 1000.0, rate as real);
  }

  /** From its stamp on, only what the script's bucket has gained by then matters. */
  lemma SameFromThere(s: Stored, gained: real, rate: int, burst: int, u: int, more: seq<int>)
    requires rate > 0 && s.Stored? && s.updatedAt <= u
    requires gained == LB.Min(burst as real, s.tokens + Credit(rate, u - s.updatedAt))
    requires more != [] && u <= more[0]
    ensures SharedVerdicts(s, rate, burst, more) == SharedVerdicts(Stored(gained, u), rate, burst, more)
  {
    assert Available(s, rate, burst, u) == gained;
    AvailableTwice(s, rate, burst, u, more[0]);
  }

  /** A script's bucket that is ahead of the sidecar's, by a millisecond's credit or more
      or else by a whole token, is found out: drain the whole tokens at
      once, then ask at the first millisecond at which the script has a token again. */
  lemma {:induction false} AheadShows(b: LB.Bucket, ahead: real, whole: nat, rate: int, burst: int, u: int)
      returns (more: seq<int>)
    requires rate > 0 && burst >= 1 && b.rate == rate as real && b.burst == burst as real && b.updatedAt == u * MILLI
    requires 0.0 <= b.tokens < ahead <= burst as real
    requires whole as real <= b.tokens < (whole + 1) as real
    requires ahead - b.tokens >= Credit(rate, 1) || ahead >= (whole + 1) as real
    ensures more != [] && u <= more[0] && Forward(u, more)
    ensures LocalVerdicts(b, more) != SharedVerdicts(Stored(ahead, u), rate, burst, more)
    decreases whole
  {
    if whole > 0 {
      DrainBoth(b, ahead, rate, burst, u);
      var local := b.(tokens := b.tokens - 1.0);
      var rest := AheadShows(local, ahead - 1.0, whole - 1, rate, burst, u);
      OneByOne(b, Stored(ahead, u), rate, burst, u, rest);
      HeadsAgree(true, LocalVerdicts(local, rest), SharedVerdicts(Stored(ahead - 1.0, u), rate, burst, rest));
      more := [u] + rest;
    } else if ahead >= 1.0 {
      OnlySharedHasOne(b, ahead, rate, burst, u);
      more := [u];
    } else {
      var now := SharedGetsOneFirst(b, ahead, rate, burst, u);
      more := [now];
    }
  }

  lemma OnlySharedHasOne(b: LB.Bucket, ahead: real, rate: int, burst: int, u: int)
    requires rate > 0 && b.updatedAt == u * MILLI && b.tokens < 1.0 <= ahead <= burst as real
    ensures LocalVerdicts(b, [u]) != SharedVerdicts(Stored(ahead, u), rate, burst, [u])
  {
    OneVerdict(b, Stored(ahead, u), rate, burst, u);
    assert Credit(rate, 0) == 0.0;
  }

  lemma SharedGetsOneFirst(b: LB.Bucket, ahead: real, rate: int, burst: int, u: int) returns (now: int)
    requires rate > 0 && burst >= 1 && b.rate == rate as real && b.burst == burst as real && b.updatedAt == u * MILLI
    requires 0.0 <= b.tokens < ahead < 1.0 && ahead - b.tokens >= Credit(rate, 1)
    ensures now >= u && LocalVerdicts(b, [now]) != SharedVerdicts(Stored(ahead, u), rate, burst, [now])
  {
    var wait := Wait(ahead, rate, 1);
    now := u + wait;
    FirstToken(b.tokens, ahead, rate, wait);
    OneVerdict(b, Stored(ahead, u), rate, burst, now);
    AllowedWhenCovered(Stored(ahead, u), Stored(ahead, u), rate, burst, 1, now);
    RefusedWhenShort(b, rate, burst, u, wait);
  }

  lemma RefusedWhenShort(b: LB.Bucket, rate: int, burst: int, u: int, wait: int)
    requires rate > 0 && wait >= 1 && b.rate == rate as real && b.updatedAt == u * MILLI
    requires b.tokens + Credit(rate, wait) < 1.0
    ensures !LB.Take(b, (u + wait) * MILLI).0
  {
    SameCredit(rate, wait);
    assert (u + wait) * MILLI - u * MILLI == wait * MILLI;
  }

  lemma OneVerdict(b: LB.Bucket, s: Stored, rate: int, burst: int, now: int)
    requires rate > 0
    ensures LocalVerdicts(b, [now]) == [LB.Take(b, now * MILLI).0]
    ensures SharedVerdicts(s, rate, burst, [now]) == [CheckAndDecrement(s, rate, burst, 1, now).1.allowed]
  {
    assert [now][1..] == [];
  }

  lemma DrainBoth(b: LB.Bucket, ahead: real, rate: int, burst: int, u: int)
    requires rate > 0 && b.updatedAt == u * MILLI && 1.0 <= b.tokens < ahead <= burst as real
    ensures LB.Take(b, u * MILLI) == (true, b.(tokens := b.tokens - 1.0))
    ensures CheckAndDecrement(Stored(ahead, u), rate, burst, 1, u).0 == Stored(ahead - 1.0, u)
    ensures CheckAndDecrement(Stored(ahead, u), rate, burst, 1, u).1.allowed
  {
    assert Credit(rate, 0) == 0.0;
  }

  /** At the first millisecond that completes the token of the one who is ahead, the one
      who is a millisecond's credit behind still lacks some. */
  lemma FirstToken(behind: real, ahead: real, rate: int, wait: int)
    requires rate > 0 && 0.0 <= behind < ahead < 1.0 && ahead - behind >= Credit(rate, 1)
        && wait == Wait(ahead, rate, 1)
    ensures wait >= 1 && ahead + Credit(rate, wait) >= 1.0 && behind + Credit(rate, wait) < 1.0
  {
    TimeCovers(rate as real, 1.0 - ahead, wait);
    assert Credit(rate, 0) == 0.0;
    WaitIsOver(ahead, rate, 1, wait - 1);
    CreditAdds(rate, wait - 1, 1);
  }

  /** With a clock that goes backward they differ: the script moves updatedAt back and
      credits the same second twice, the sidecar does not. */
  lemma BackwardClockDiffers()
    ensures var readings := [1000, 0, 1000];
            && SharedVerdicts(Stored(1.0, 1000), 1, 1, readings) == [true, false, true]
            && LocalVerdicts(LB.Bucket(1.0, 1.0, 1.0, 1000 * MILLI), readings) == [true, false, false]
  {
    var s0 := Stored(1.0, 1000);
    var s1 := CheckAndDecrement(s0, 1, 1, 1, 1000).0;
    assert s1 == Stored(0.0, 1000);
    var s2 := CheckAndDecrement(s1, 1, 1, 1, 0).0;
    assert s2 == Stored(0.0, 0);
    assert Credit(1, 1000) == 1.0;
    assert CheckAndDecrement(s2, 1, 1, 1, 1000).1.allowed;
    var readings := [1000, 0, 1000];
    assert readings[1..] == [0, 1000] && [0, 1000][1..] == [1000] && [1000][1..] == [];
    assert SharedVerdicts(s2, 1, 1, [1000]) == [true];
    assert SharedVerdicts(s1, 1, 1, [0, 1000]) == [false, true];
    var b0 := LB.Bucket(1.0, 1.0, 1.0, 1000 * MILLI);
    var b1 := b0.(tokens := 0.0);
    assert LB.Take(b0, 1000 * MILLI) == (true, b1);
    assert LocalVerdicts(b1, [1000]) == [false];
    assert LocalVerdicts(b1, [0, 1000]) == [false, false];
  }
}
