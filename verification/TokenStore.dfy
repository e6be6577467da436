/** The shared store behind Tiers 2 and 3: Redis sorted sets of tokens, one per
    key of the "cc:" namespace, as `IncrConcurrent` and `DecrConcurrent` use them. */
module TokenStore {

  type Key = string
  type Token = string

  /** One sorted set: each member's score is the clock reading at which it was added. */
  type Leases = map<Token, int>

  type Db = map<Key, Leases>

  /** A key that Redis does not hold is an empty sorted set. */
  function At(db: Db, key: Key): Leases {
    if key in db then db[key] else map[]
  }

  /** ZREMRANGEBYSCORE key -inf cutoff: the cutoff itself is removed. */
  function Reap(s: Leases, cutoff: int): Leases {
    map t | t in s && s[t] > cutoff :: s[t]
  }

  datatype Reply = Reply(allowed: bool, token: Token) | StoreError

  /** The atomic script of concurrent_limiter.lua. */
  function Script(db: Db, key: Key, cap: int, maxDurationMs: int, now: int, candidate: Token): (r: (Db, Reply)) {
    var live := Reap(At(db, key), now - maxDurationMs);
    if |live| < cap then
      (db[key := live[candidate := now]], Reply(true, candidate))
    else
      (db[key := live], Reply(false, ""))
  }

  /** ZREM key token. */
  function Remove(db: Db, key: Key, token: Token): Db {
    db[key := At(db, key) - {token}]
  }

  /** How a store call went: carried out and answered, never carried out, or
      carried out with the answer lost on the way back. */
  datatype Fault = Delivered | NotExecuted | ReplyLost

  /** A call a limiter is about to make. */
  datatype Call =
    | Incr(key: Key, cap: int, maxDurationMs: int)
    | Decr(key: Key, token: Token)
    | NoCall

  /** What the surroundings contribute to one step of a request: the clock
      reading, the freshly signed candidate token, the fate of the call, and
      the channel the poll loop's select picks. */
  datatype Turn = Turn(now: int, candidate: Token, fault: Fault, wake: Wake)

  datatype Wake = Tick | Deadline | Cancel

  /** The store and the answer the caller sees after one call. */
  function Perform(db: Db, call: Call, turn: Turn): (Db, Reply) {
    match call
    case NoCall => (db, Reply(false, ""))
    case Incr(key, cap, maxDurationMs) =>
      if turn.fault.NotExecuted? then (db, StoreError)
      else
        var (after, reply) := Script(db, key, cap, maxDurationMs, turn.now, turn.candidate);
        (after, if turn.fault.ReplyLost? then StoreError else reply)
    case Decr(key, token) =>
      if turn.fault.NotExecuted? then (db, StoreError)
      else
        (Remove(db, key, token), if turn.fault.ReplyLost? then StoreError else Reply(true, token))
  }

  /** What anybody else sharing the store may do to it between two calls of a
      request. Evict is Redis dropping a whole key at its EXPIRE time. */
  datatype Op =
    | OtherIncr(key: Key, cap: int, maxDurationMs: int, now: int, candidate: Token)
    | OtherDecr(key: Key, token: Token)
    | Evict(key: Key)

  function ApplyOp(db: Db, op: Op): Db {
    match op
    case OtherIncr(key, cap, maxDurationMs, now, candidate) =>
      Script(db, key, cap, maxDurationMs, now, candidate).0
    case OtherDecr(key, token) => Remove(db, key, token)
    case Evict(key) => db - {key}
  }

  function ApplyOps(db: Db, ops: seq<Op>): Db
    decreases |ops|
  {
    if ops == [] then db else ApplyOps(ApplyOp(db, ops[0]), ops[1..])
  }

  lemma {:induction false} ApplyOpsConcat(db: Db, a: seq<Op>, b: seq<Op>)
    ensures ApplyOps(db, a + b) == ApplyOps(ApplyOps(db, a), b)
    decreases |a|
  {
    if a == [] {
      assert a + b == b;
    } else {
      assert (a + b)[1..] == a[1..] + b;
      ApplyOpsConcat(ApplyOp(db, a[0]), a[1..], b);
    }
  }

  /** A request's view of one turn: what the others did first, then its own turn. */
  datatype Slice = Slice(others: seq<Op>, turn: Turn)

  /** Counting facts about one script call; every bound on a token set rests on them. */
  lemma ScriptBounds(db: Db, key: Key, cap: int, maxDurationMs: int, now: int, candidate: Token)
    ensures var (after, reply) := Script(db, key, cap, maxDurationMs, now, candidate);
            && reply.Reply?
            && (reply.allowed ==> 0 < |At(after, key)| <= cap && candidate in At(after, key))
            && (!reply.allowed ==> cap <= |At(after, key)| <= |At(db, key)|)
            && At(after, key).Keys <= At(db, key).Keys + (if reply.allowed then {candidate} else {})
            && (forall k :: k != key ==> At(after, k) == At(db, k))
  {
    ScriptSets(db, key, cap, maxDurationMs, now, candidate);
    ReapShrinks(At(db, key), now - maxDurationMs);
    InsertGrows(Reap(At(db, key), now - maxDurationMs), candidate, now);
  }

  lemma ScriptSets(db: Db, key: Key, cap: int, maxDurationMs: int, now: int, candidate: Token)
    ensures var (after, reply) := Script(db, key, cap, maxDurationMs, now, candidate);
            var live := Reap(At(db, key), now - maxDurationMs);
            && reply == (if |live| < cap then Reply(true, candidate) else Reply(false, ""))
            && At(after, key) == (if |live| < cap then live[candidate := now] else live)
            && (forall k :: k != key ==> At(after, k) == At(db, k))
  {}

  /** A granted token outlives a later call on its key exactly if that call comes less
      than the call's own lease time after the grant. */
  lemma LeaseLastsExactly(db: Db, key: Key, cap: int, leaseMs: int, granted: int, token: Token,
                          cap': int, leaseMs': int, later: int, other: Token)
    requires Script(db, key, cap, leaseMs, granted, token).1.allowed && other != token
    ensures var after := Script(db, key, cap, leaseMs, granted, token).0;
            token in At(Script(after, key, cap', leaseMs', later, other).0, key) <==> later < granted + leaseMs'
  {
    ScriptSets(db, key, cap, leaseMs, granted, token);
    ScriptSets(Script(db, key, cap, leaseMs, granted, token).0, key, cap', leaseMs', later, other);
  }

  lemma ReapShrinks(s: Leases, cutoff: int)
    ensures Reap(s, cutoff).Keys <= s.Keys && |Reap(s, cutoff)| <= |s|
  {
    SubsetSize(Reap(s, cutoff).Keys, s.Keys);
  }

  lemma InsertGrows(s: Leases, t: Token, score: int)
    ensures s[t := score].Keys == s.Keys + {t}
    ensures 0 < |s[t := score]| <= |s| + 1
  {
    var after := s[t := score];
    assert after.Keys == s.Keys + {t};
    assert t in after;
    assert |after.Keys| <= |s.Keys| + 1;
  }

  /** What a call can do to the token sets, whatever the clock says: enough to
      account for every token, without looking at scores. */
  ghost predicate Effect(db: Db, call: Call, turn: Turn, after: Db, reply: Reply) {
    match call
    case NoCall => after == db
    case Incr(key, _, _) =>
      if turn.fault.NotExecuted? then after == db && reply.StoreError?
      else
        var added := turn.candidate in At(after, key);
        && (forall k :: k != key ==> At(after, k) == At(db, k))
        && At(after, key).Keys <= At(db, key).Keys + (if added then {turn.candidate} else {})
        && (if turn.fault.ReplyLost? then reply.StoreError?
            else reply == Reply(added, if added then turn.candidate else ""))
    case Decr(key, token) =>
      if turn.fault.NotExecuted? then after == db && reply.StoreError?
      else
        && (forall k :: k != key ==> At(after, k) == At(db, k))
        && At(after, key).Keys == At(db, key).Keys - {token}
  }

  lemma PerformEffect(db: Db, call: Call, turn: Turn)
    requires call.Incr? ==> turn.candidate !in At(db, call.key)
    ensures var (after, reply) := Perform(db, call, turn); Effect(db, call, turn, after, reply)
  {
    match call
    case Incr(key, cap, maxDurationMs) => ScriptBounds(db, key, cap, maxDurationMs, turn.now, turn.candidate);
    case Decr(key, token) => RemoveSmaller(db, key, token);
    case NoCall =>
  }

  /** What a call does to the size of one set: it grows only up to the call's cap,
      and a script that added nothing found the set full. */
  lemma PerformBounds(db: Db, call: Call, turn: Turn, k: Key)
    requires call.Incr? ==> turn.candidate !in At(db, call.key)
    ensures var (after, reply) := Perform(db, call, turn);
            && (|At(after, k)| <= |At(db, k)|
                || (call.Incr? && k == call.key && turn.candidate in At(after, k) && |At(after, k)| <= call.cap))
            && (call.Incr? && k == call.key && turn.candidate in At(after, k) ==> |At(after, k)| <= call.cap)
            && (call.Incr? && k == call.key && reply.Reply? && !reply.allowed ==> call.cap <= |At(after, k)|)
  {
    match call
    case Incr(key, cap, maxDurationMs) => GrowsUpToCap(db, key, cap, maxDurationMs, turn.now, turn.candidate, k);
    case Decr(key, token) => RemoveSmaller(db, key, token);
    case NoCall =>
  }

  lemma GrowsUpToCap(db: Db, key: Key, cap: int, maxDurationMs: int, now: int, candidate: Token, k: Key)
    requires candidate !in At(db, key)
    ensures var (after, reply) := Script(db, key, cap, maxDurationMs, now, candidate);
            && (|At(after, k)| <= |At(db, k)| || (k == key && candidate in At(after, k) && |At(after, k)| <= cap))
            && (k == key && candidate in At(after, k) ==> |At(after, k)| <= cap)
            && (k == key && !reply.allowed ==> cap <= |At(after, k)|)
  {
    ScriptBounds(db, key, cap, maxDurationMs, now, candidate);
    ScriptSets(db, key, cap, maxDurationMs, now, candidate);
  }

  lemma {:induction false} SubsetSize<T>(a: set<T>, b: set<T>)
    requires a <= b
    ensures |a| <= |b|
    ensures |a| == |b| ==> a == b
  {
    assert b == a + (b - a);
    assert |b| == |a| + |b - a|;
  }

  /** Two finite sets in one-to-one correspondence have the same size. */
  lemma {:induction false} Bijection<A, B>(a: set<A>, b: set<B>, to: map<A, B>, from: map<B, A>)
    requires forall x :: x in a ==> x in to && to[x] in b && to[x] in from && from[to[x]] == x
    requires forall y :: y in b ==> y in from && from[y] in a && from[y] in to && to[from[y]] == y
    ensures |a| == |b|
    decreases |a|
  {
    if a == {} {
      assert b == {} by {
        if y :| y in b {
          assert from[y] in a;
        }
      }
    } else {
      var x :| x in a;
      Bijection(a - {x}, b - {to[x]}, to, from);
    }
  }

  lemma RemoveSmaller(db: Db, key: Key, token: Token)
    ensures |At(Remove(db, key, token), key)| <= |At(db, key)|
    ensures At(Remove(db, key, token), key).Keys == At(db, key).Keys - {token}
    ensures forall k :: k != key ==> At(Remove(db, key, token), k) == At(db, k)
  {
    assert At(Remove(db, key, token), key).Keys == At(db, key).Keys - {token};
    SubsetSize(At(db, key).Keys - {token}, At(db, key).Keys);
  }

  /** Releasing a token twice is releasing it once. */
  lemma SecondRemoveChangesNothing(db: Db, key: Key, token: Token)
    ensures Remove(Remove(db, key, token), key, token) == Remove(db, key, token)
  {
    var once := Remove(db, key, token);
    assert At(once, key) - {token} == At(once, key);
  }

  /** The Redis client object. Each call first lets the others act, then runs. */
  class RedisStore {
    var db: Db

    constructor ()
      ensures db == map[]
    {
      db := map[];
    }

    method IncrConcurrent(key: Key, cap: int, maxDurationMs: int, slice: Slice) returns (reply: Reply)
      modifies this
      ensures (db, reply) == Perform(ApplyOps(old(db), slice.others), Incr(key, cap, maxDurationMs), slice.turn)
    {
      Interleave(slice.others);
      if slice.turn.fault.NotExecuted? {
        return StoreError;
      }
      var live := Reap(At(db, key), slice.turn.now - maxDurationMs);
      if |live| < cap {
        db := db[key := live[slice.turn.candidate := slice.turn.now]];
        reply := Reply(true, slice.turn.candidate);
      } else {
        db := db[key := live];
        reply := Reply(false, "");
      }
      if slice.turn.fault.ReplyLost? {
        reply := StoreError;
      }
    }

    method DecrConcurrent(key: Key, token: Token, slice: Slice) returns (reply: Reply)
      modifies this
      ensures (db, reply) == Perform(ApplyOps(old(db), slice.others), Decr(key, token), slice.turn)
    {
      Interleave(slice.others);
      if slice.turn.fault.NotExecuted? {
        return StoreError;
      }
      db := db[key := At(db, key) - {token}];
      reply := if slice.turn.fault.ReplyLost? then StoreError else Reply(true, token);
    }

    /** Everybody else's operations since the previous call, in order. */
    method Interleave(ops: seq<Op>)
      modifies this
      ensures db == ApplyOps(old(db), ops)
    {
      var i := 0;
      while i < |ops|
        invariant 0 <= i <= |ops|
        invariant ApplyOps(db, ops[i..]) == ApplyOps(old(db), ops)
      {
        assert ops[i..][1..] == ops[i + 1..];
        db := ApplyOp(db, ops[i]);
        i := i + 1;
      }
    }
  }
}
