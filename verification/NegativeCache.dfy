/** The sidecar's cache of denied keys: entries are deleted lazily and swept when there
    are many, and nobody can tell. */
module NegativeCache {

  type Key = string

  const SWEEP_THRESHOLD := 10000

  /** Deadlines by key. */
  type Deadlines = map<Key, int>

  datatype Answer = Free | Denied(remaining: int)

  function Sweep(d: Deadlines, now: int): Deadlines {
    map k | k in d && !(now > d[k]) :: d[k]
  }

  /** MarkDenied reads the clock once for the deadline, and again if it sweeps. */
  function Mark(d: Deadlines, key: Key, retryAfter: int, now: int, again: int): Deadlines {
    var marked := d[key := now + retryAfter];
    if |marked| > SWEEP_THRESHOLD then Sweep(marked, again) else marked
  }

  function Ask(d: Deadlines, key: Key, now: int): (Answer, Deadlines) {
    if key !in d then (Free, d)
    else if now > d[key] then (Free, d - {key})
    else (Denied(d[key] - now), d)
  }

  /** The cache that never forgets: the latest deadline of every key ever marked. */
  function AskForever(latest: Deadlines, key: Key, now: int): Answer {
    if key in latest && now <= latest[key] then Denied(latest[key] - now) else Free
  }

  datatype Op = MarkDenied(key: Key, retryAfter: int, now: int, again: int) | IsDenied(key: Key, now: int)

  /** The answers of a sequence of calls, and the state it leaves. */
  function Run(d: Deadlines, ops: seq<Op>): (seq<Answer>, Deadlines)
    decreases |ops|
  {
    if ops == [] then ([], d)
    else
      match ops[0]
      case MarkDenied(key, retryAfter, now, again) => Run(Mark(d, key, retryAfter, now, again), ops[1..])
      case IsDenied(key, now) =>
        var (a, after) := Ask(d, key, now);
        var (rest, last) := Run(after, ops[1..]);
        ([a] + rest, last)
  }

  function RunForever(latest: Deadlines, ops: seq<Op>): seq<Answer>
    decreases |ops|
  {
    if ops == [] then []
    else
      match ops[0]
      case MarkDenied(key, retryAfter, now, _) => RunForever(latest[key := now + retryAfter], ops[1..])
      case IsDenied(key, now) => [AskForever(latest, key, now)] + RunForever(latest, ops[1..])
  }

  /** No reading of the clock is earlier than the one before. */
  ghost predicate Forward(at: int, ops: seq<Op>)
    decreases |ops|
  {
    ops == [] ||
    match ops[0]
    case MarkDenied(_, _, now, again) => at <= now <= again && Forward(again, ops[1..])
    case IsDenied(_, now) => at <= now && Forward(now, ops[1..])
  }

  /** The cache agrees with the full history except for entries already past. */
  ghost predicate Forgets(d: Deadlines, latest: Deadlines, at: int) {
    && (forall k :: k in d ==> k in latest && latest[k] == d[k])
    && (forall k :: k in latest && k !in d ==> at > latest[k])
  }

  /** Under a clock that does not go backward, every verdict and every remaining time
      is the one the cache that never forgets would give, over any sequence of calls. */
  lemma {:induction false} ForgettingIsInvisible(d: Deadlines, latest: Deadlines, at: int, ops: seq<Op>)
    requires Forgets(d, latest, at) && Forward(at, ops)
    ensures Run(d, ops).0 == RunForever(latest, ops)
    decreases |ops|
  {
    if ops == [] {
    } else {
      var d', latest', at' := OneCallLater(d, latest, at, ops);
      ForgettingIsInvisible(d', latest', at', ops[1..]);
    }
  }

  /** The first call gets the same answer from both, and leaves them agreeing. */
  lemma OneCallLater(d: Deadlines, latest: Deadlines, at: int, ops: seq<Op>)
    returns (d': Deadlines, latest': Deadlines, at': int)
    requires ops != [] && Forgets(d, latest, at) && Forward(at, ops)
    ensures Forgets(d', latest', at') && Forward(at', ops[1..])
    ensures Run(d', ops[1..]).0 == RunForever(latest', ops[1..]) ==> Run(d, ops).0 == RunForever(latest, ops)
  {
    match ops[0]
    case MarkDenied(key, retryAfter, now, again) =>
      MarkForgets(d, latest, at, key, retryAfter, now, again);
      d', latest', at' := Mark(d, key, retryAfter, now, again), latest[key := now + retryAfter], again;
    case IsDenied(key, now) =>
      AskForgets(d, latest, at, key, now);
      d', latest', at' := Ask(d, key, now).1, latest, now;
  }

  lemma MarkForgets(d: Deadlines, latest: Deadlines, at: int, key: Key, retryAfter: int, now: int, again: int)
    requires Forgets(d, latest, at) && at <= now <= again
    ensures Forgets(Mark(d, key, retryAfter, now, again), latest[key := now + retryAfter], again)
  {}

  lemma AskForgets(d: Deadlines, latest: Deadlines, at: int, key: Key, now: int)
    requires Forgets(d, latest, at) && at <= now
    ensures Ask(d, key, now).0 == AskForever(latest, key, now) && Forgets(Ask(d, key, now).1, latest, now)
  {}

  /** A denial lasts exactly as long as the caller was told, and counts down. */
  lemma DeniedAsLongAsTold(d: Deadlines, key: Key, retryAfter: int, now: int, again: int, asked: int)
    requires now <= again <= asked
    ensures Ask(Mark(d, key, retryAfter, now, again), key, asked).0
         == if asked <= now + retryAfter then Denied(now + retryAfter - asked) else Free
  {}

  /** Marking one key and asking for it leave what is known of the others, unless it is past. */
  lemma OtherKeysAreLeftAlone(d: Deadlines, key: Key, other: Key, retryAfter: int, now: int, again: int, asked: int)
    requires other != key && now <= again <= asked
    ensures Ask(Mark(d, key, retryAfter, now, again), other, asked).0 == Ask(d, other, asked).0
    ensures Ask(Ask(d, key, now).1, other, asked).0 == Ask(d, other, asked).0
  {}

  /** What the cache that never forgets knows after a sequence of calls. */
  function Remembered(latest: Deadlines, ops: seq<Op>): Deadlines
    decreases |ops|
  {
    if ops == [] then latest
    else
      match ops[0]
      case MarkDenied(key, retryAfter, now, _) => Remembered(latest[key := now + retryAfter], ops[1..])
      case IsDenied(_, _) => Remembered(latest, ops[1..])
  }

  /** After any sequence of calls at all, under any clock, the cache answers every further
      sequence like the one that never forgets, if and only if the clock has passed the
      deadline of every entry it has forgotten. */
  lemma AgreesFromHereExactlyWhen(past: seq<Op>, at: int)
    ensures var d, latest := Run(map[], past).1, Remembered(map[], past);
            (forall ops :: Forward(at, ops) ==> Run(d, ops).0 == RunForever(latest, ops))
            <==> (forall k :: k in latest && k !in d ==> at > latest[k])
  {
    KeepsWhatItKnows(map[], map[], past);
    StatesAgreeExactlyWhen(Run(map[], past).1, Remembered(map[], past), at);
  }

  ghost predicate Knows(d: Deadlines, latest: Deadlines) {
    forall k :: k in d ==> k in latest && latest[k] == d[k]
  }

  /** Under any clock, what the cache has not forgotten is right. */
  lemma {:induction false} KeepsWhatItKnows(d: Deadlines, latest: Deadlines, ops: seq<Op>)
    requires Knows(d, latest)
    ensures Knows(Run(d, ops).1, Remembered(latest, ops))
    decreases |ops|
  {
    if ops == [] {
    } else {
      var d', latest' := OneCallKnown(d, latest, ops);
      KeepsWhatItKnows(d', latest', ops[1..]);
    }
  }

  lemma MarkKnows(d: Deadlines, latest: Deadlines, key: Key, retryAfter: int, now: int, again: int)
    returns (marked: Deadlines, recorded: Deadlines)
    requires Knows(d, latest)
    ensures marked == Mark(d, key, retryAfter, now, again) && recorded == latest[key := now + retryAfter]
    ensures Knows(marked, recorded)
  {
    marked, recorded := Mark(d, key, retryAfter, now, again), latest[key := now + retryAfter];
  }

  lemma OneCallKnown(d: Deadlines, latest: Deadlines, ops: seq<Op>) returns (d': Deadlines, latest': Deadlines)
    requires ops != [] && Knows(d, latest)
    ensures Knows(d', latest')
    ensures Run(d, ops).1 == Run(d', ops[1..]).1 && Remembered(latest, ops) == Remembered(latest', ops[1..])
  {
    match ops[0]
    case MarkDenied(key, retryAfter, now, again) =>
      d', latest' := MarkKnows(d, latest, key, retryAfter, now, again);
    case IsDenied(key, now) =>
      d', latest' := Ask(d, key, now).1, latest;
  }

  lemma StatesAgreeExactlyWhen(d: Deadlines, latest: Deadlines, at: int)
    requires forall k :: k in d ==> k in latest && latest[k] == d[k]
    ensures (forall ops :: Forward(at, ops) ==> Run(d, ops).0 == RunForever(latest, ops))
            <==> (forall k :: k in latest && k !in d ==> at > latest[k])
  {
    if forall k :: k in latest && k !in d ==> at > latest[k] {
      forall ops | Forward(at, ops)
        ensures Run(d, ops).0 == RunForever(latest, ops)
      {
        ForgettingIsInvisible(d, latest, at, ops);
      }
    } else {
      var k :| k in latest && k !in d && at <= latest[k];
      var ops := [IsDenied(k, at)];
      AskedOnce(d, latest, k, at);
      assert Forward(at, ops);
      assert Run(d, ops).0 != RunForever(latest, ops);
    }
  }

  lemma AskedOnce(d: Deadlines, latest: Deadlines, key: Key, now: int)
    ensures Run(d, [IsDenied(key, now)]).0 == [Ask(d, key, now).0]
    ensures RunForever(latest, [IsDenied(key, now)]) == [AskForever(latest, key, now)]
    ensures Forward(now, [IsDenied(key, now)])
  {
    assert [IsDenied(key, now)][1..] == [];
  }

  /** A clock that goes backward can show it. */
  lemma BackwardClockShows(key: Key)
    ensures var ops := [MarkDenied(key, 10, 0, 0), IsDenied(key, 11), IsDenied(key, 5)];
            && Run(map[], ops).0 == [Free, Free]
            && RunForever(map[], ops) == [Free, Denied(5)]
  {
    var asks := [IsDenied(key, 11), IsDenied(key, 5)];
    var ops := [MarkDenied(key, 10, 0, 0)] + asks;
    assert ops == [MarkDenied(key, 10, 0, 0), IsDenied(key, 11), IsDenied(key, 5)];
    assert ops[1..] == asks && asks[1..] == [IsDenied(key, 5)] && [IsDenied(key, 5)][1..] == [];
    var d: Deadlines := map[key := 10];
    assert Mark(map[], key, 10, 0, 0) == d;
    assert d - {key} == map[];
    assert Run(map[], [IsDenied(key, 5)]).0 == [Free];
    assert Run(d, asks).0 == [Free] + [Free];
    assert RunForever(d, [IsDenied(key, 5)]) == [Denied(5)];
    assert RunForever(d, asks) == [Free] + [Denied(5)];
  }

  class Cache {
    var denied: Deadlines

    constructor ()
      ensures denied == map[]
    {
      denied := map[];
    }

    /** Afterwards the map is small, or holds nothing that had expired at the sweep. */
    method MarkDenied(key: Key, retryAfter: int, now: int, again: int)
      modifies this
      ensures denied == Mark(old(denied), key, retryAfter, now, again)
      ensures |denied| <= SWEEP_THRESHOLD || forall k :: k in denied ==> again <= denied[k]
    {
      denied := denied[key := now + retryAfter];
      if |denied| > SWEEP_THRESHOLD {
        SweepLocked(again);
      }
    }

    method IsDenied(key: Key, now: int) returns (answer: Answer)
      modifies this
      ensures (answer, denied) == Ask(old(denied), key, now)
    {
      if key !in denied {
        return Free;
      }
      var until := denied[key];
      if now > until {
        denied := denied - {key};
        return Free;
      }
      return Denied(until - now);
    }

    method SweepLocked(now: int)
      modifies this
      ensures denied == Sweep(old(denied), now)
    {
      var keys := denied.Keys;
      while keys != {}
        invariant keys <= old(denied).Keys && denied.Keys <= old(denied).Keys
        invariant forall k :: k in denied ==> denied[k] == old(denied)[k]
        invariant forall k :: k in keys ==> k in denied
        invariant forall k :: k in old(denied) && k !in keys ==> (k in denied <==> !(now > old(denied)[k]))
        decreases |keys|
      {
        var k :| k in keys;
        if now > denied[k] {
          denied := denied - {k};
        }
        keys := keys - {k};
      }
    }
  }
}
