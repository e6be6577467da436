/** What a cap is worth: it bounds the tokens handed out and not given back only for as
    long as they are leased, and validation does not look at the lease time. */
module Leases {
  import opened TokenStore
  import opened Configs

  /** One request for a token at a clock reading, with its candidate. */
  datatype Grab = Grab(now: int, token: Token)

  /** Any sequence of requests, with nothing released: how many are granted, and the
      store they leave. */
  function Grabs(db: Db, key: Key, cap: int, leaseMs: int, calls: seq<Grab>): (nat, Db)
    decreases |calls|
  {
    if calls == [] then (0, db)
    else
      var (granted, before) := Grabs(db, key, cap, leaseMs, calls[..|calls| - 1]);
      var last := calls[|calls| - 1];
      var (after, reply) := Script(before, key, cap, leaseMs, last.now, last.token);
      (if reply.Reply? && reply.allowed then granted + 1 else granted, after)
  }

  ghost predicate FreshTokens(db: Db, key: Key, calls: seq<Grab>) {
    && (forall i, j :: 0 <= i < j < |calls| ==> calls[i].token != calls[j].token)
    && (forall i :: 0 <= i < |calls| ==> calls[i].token !in At(db, key))
  }

  /** No call comes a whole lease after an earlier one. */
  ghost predicate WithinALease(calls: seq<Grab>, leaseMs: int) {
    forall i, j :: 0 <= i < j < |calls| ==> calls[j].now - calls[i].now < leaseMs
  }

  /** The grants are all still in the set, each with the reading it was made at. */
  ghost predicate Kept(s: Leases, calls: seq<Grab>, granted: set<Token>) {
    forall t :: t in granted ==> t in s && exists i :: 0 <= i < |calls| && calls[i].token == t && calls[i].now == s[t]
  }

  /** Within a lease, whatever was in the set before, no more than the cap is granted. */
  lemma {:induction false} CapBoundsALease(db: Db, key: Key, cap: int, leaseMs: int, calls: seq<Grab>)
      returns (granted: set<Token>)
    requires FreshTokens(db, key, calls) && WithinALease(calls, leaseMs)
    ensures var (n, after) := Grabs(db, key, cap, leaseMs, calls);
            && n == |granted| && Kept(At(after, key), calls, granted)
            && (n == 0 || n <= cap)
    decreases |calls|
  {
    if calls == [] {
      granted := {};
    } else {
      var fewer, last := calls[..|calls| - 1], calls[|calls| - 1];
      var earlier := CapBoundsALease(db, key, cap, leaseMs, fewer);
      var before := Grabs(db, key, cap, leaseMs, fewer).1;
      granted := OneMore(before, key, cap, leaseMs, fewer, last, earlier);
      assert calls == fewer + [last];
    }
  }

  lemma OneMore(db: Db, key: Key, cap: int, leaseMs: int, calls: seq<Grab>, last: Grab, earlier: set<Token>)
    returns (granted: set<Token>)
    requires Kept(At(db, key), calls, earlier)
    requires forall i :: 0 <= i < |calls| ==> last.now - calls[i].now < leaseMs && calls[i].token != last.token
    ensures var (after, reply) := Script(db, key, cap, leaseMs, last.now, last.token);
            && Kept(At(after, key), calls + [last], granted)
            && reply.Reply?
            && (if reply.allowed then |granted| == |earlier| + 1 && |granted| <= cap else granted == earlier)
  {
    var (after, reply) := Script(db, key, cap, leaseMs, last.now, last.token);
    ScriptSets(db, key, cap, leaseMs, last.now, last.token);
    granted := if reply.allowed then earlier + {last.token} else earlier;
    KeptAfter(db, key, cap, leaseMs, calls, last, earlier);
    if reply.allowed {
      assert last.token !in earlier;
      ScriptBounds(db, key, cap, leaseMs, last.now, last.token);
      SubsetSize(granted, At(after, key).Keys);
    }
  }

  lemma KeptAfter(db: Db, key: Key, cap: int, leaseMs: int, calls: seq<Grab>, last: Grab, earlier: set<Token>)
    requires Kept(At(db, key), calls, earlier)
    requires forall i :: 0 <= i < |calls| ==> last.now - calls[i].now < leaseMs && calls[i].token != last.token
    ensures var (after, reply) := Script(db, key, cap, leaseMs, last.now, last.token);
            var granted := if reply.Reply? && reply.allowed then earlier + {last.token} else earlier;
            Kept(At(after, key), calls + [last], granted)
  {
    ScriptSets(db, key, cap, leaseMs, last.now, last.token);
    var after := At(Script(db, key, cap, leaseMs, last.now, last.token).0, key);
    var all := calls + [last];
    forall t | t in earlier
      ensures t in after && exists i :: 0 <= i < |all| && all[i].token == t && all[i].now == after[t]
    {
      var i :| 0 <= i < |calls| && calls[i].token == t && calls[i].now == At(db, key)[t];
      assert all[i] == calls[i];
    }
    assert all[|calls|] == last;
  }

  ghost predicate Forward(calls: seq<Grab>) {
    forall i, j :: 0 <= i < j < |calls| ==> calls[i].now <= calls[j].now
  }

  /** Without a lease time, every call empties the set first, and is granted. */
  lemma {:induction false} NoLeaseNoBound(key: Key, cap: int, leaseMs: int, calls: seq<Grab>)
    requires cap > 0 && leaseMs <= 0 && Forward(calls)
    ensures var (n, after) := Grabs(map[], key, cap, leaseMs, calls);
            && n == |calls|
            && (forall t :: t in At(after, key) ==> calls != [] && At(after, key)[t] == calls[|calls| - 1].now)
    decreases |calls|
  {
    if calls == [] {
    } else {
      var fewer, last := calls[..|calls| - 1], calls[|calls| - 1];
      NoLeaseNoBound(key, cap, leaseMs, fewer);
      var before := Grabs(map[], key, cap, leaseMs, fewer).1;
      assert fewer != [] ==> fewer[|fewer| - 1].now <= last.now;
      assert Reap(At(before, key), last.now - leaseMs) == map[];
      ScriptSets(before, key, cap, leaseMs, last.now, last.token);
    }
  }

  function Mark(n: nat): Token {
    if n == 0 then "" else Mark(n - 1) + "x"
  }

  /** n requests in one millisecond, each with a token of its own. */
  function Crowd(n: nat): seq<Grab> {
    if n == 0 then [] else Crowd(n - 1) + [Grab(0, Mark(n - 1))]
  }

  lemma {:induction false} MarkLength(n: nat)
    ensures |Mark(n)| == n
  {
    if n == 0 {
    } else {
      MarkLength(n - 1);
    }
  }

  lemma {:induction false} CrowdIsFresh(n: nat)
    ensures |Crowd(n)| == n && forall i :: 0 <= i < n ==> Crowd(n)[i].now == 0 && |Crowd(n)[i].token| == i
  {
    if n == 0 {
    } else {
      CrowdIsFresh(n - 1);
      MarkLength(n - 1);
    }
  }

  /** Whether a cap bounds what requests in one and the same millisecond are granted. */
  ghost predicate Bounds(key: Key, cap: int, leaseMs: int) {
    forall calls :: FreshTokens(map[], key, calls) && AtOnce(calls) ==> Grabs(map[], key, cap, leaseMs, calls).0 <= cap
  }

  ghost predicate AtOnce(calls: seq<Grab>) {
    forall i, j :: 0 <= i < |calls| && 0 <= j < |calls| ==> calls[i].now == calls[j].now
  }

  /** Exactly if the lease time is positive. */
  lemma CapBoundsExactlyWhen(key: Key, cap: int, leaseMs: int)
    requires cap > 0
    ensures Bounds(key, cap, leaseMs) <==> leaseMs > 0
  {
    if leaseMs > 0 {
      forall calls | FreshTokens(map[], key, calls) && AtOnce(calls)
        ensures Grabs(map[], key, cap, leaseMs, calls).0 <= cap
      {
        var granted := CapBoundsALease(map[], key, cap, leaseMs, calls);
      }
    } else {
      var calls := Crowd(cap + 1);
      CrowdIsFresh(cap + 1);
      NoLeaseNoBound(key, cap, leaseMs, calls);
      assert FreshTokens(map[], key, calls) by {
        assert forall i, j :: 0 <= i < j < |calls| ==> |calls[i].token| != |calls[j].token|;
      }
      assert AtOnce(calls);
    }
  }

  /** Validation accepts any request duration, so a validated configuration's caps bound
      the grants that have not been given back if and only if its durations are positive. */
  lemma ValidatedCapsBoundExactlyWhen(c: Config, key: Key, slotMs: int, fleetMs: int)
    requires Validate(c).Valid?
    ensures var c' := c.(slots := c.slots.(maxDurationMs := slotMs), fleet := c.fleet.(maxDurationMs := fleetMs));
            && Validate(c').Valid?
            && (Bounds(key, c'.slots.cap, c'.slots.maxDurationMs) <==> slotMs > 0)
            && (Bounds(key, c'.fleet.cap, c'.fleet.maxDurationMs) <==> fleetMs > 0)
  {
    CapBoundsExactlyWhen(key, c.slots.cap, slotMs);
    CapBoundsExactlyWhen(key, c.fleet.cap, fleetMs);
  }
}
