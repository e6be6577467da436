/** Tier 2: a per-key concurrency cap with a bounded, polled backlog.

    The limiter is described twice. `NextCall` and `OnReply` are the limiter as a
    resumable automaton, one store call at a time, which is what interleaves with
    other requests. The class below is the limiter as straight-line code with a
    polling loop; its Check is proved to return and do exactly what the automaton
    driven to its end does. */
module ConcurrencyLimiter {
  import opened TokenStore
  import opened Limits

  const TIER := "concurrency_limiter"

  datatype SlotConfig = SlotConfig(
    cap: int,
    maxDurationMs: int,
    shadowMode: bool,
    queueingEnabled: bool,
    maxBacklog: int,
    maxQueueWaitMs: int,
    pollIntervalMs: int)

  /** Where a Check stands between two store calls. */
  datatype SlotState =
    | AskSlot
    | AskUnbounded
    | AskBacklog
    | Waiting(backlog: Token)
    | GivingBack(backlog: Token, pending: Verdict)
    | Returned(verdict: Verdict)

  function Begin(req: Request): SlotState {
    if req.skipReservations then Returned(Plain(ALLOW, 0, "")) else AskSlot
  }

  function Rejection(cfg: SlotConfig): Verdict {
    Plain(REJECT_429, cfg.maxDurationMs, TIER)
  }

  function NextCall(st: SlotState, cfg: SlotConfig, req: Request, wake: Wake): Call {
    match st
    case AskSlot => Incr(req.key, cfg.cap, cfg.maxDurationMs)
    case AskUnbounded => Incr(req.key, UNBOUNDED_CAP, cfg.maxDurationMs)
    case AskBacklog => Incr(BacklogKey(req.key), cfg.maxBacklog, cfg.maxQueueWaitMs)
    case Waiting(_) => if wake.Tick? then Incr(req.key, cfg.cap, cfg.maxDurationMs) else NoCall
    case GivingBack(backlog, _) => Decr(BacklogKey(req.key), backlog)
    case Returned(_) => NoCall
  }

  function OnReply(st: SlotState, cfg: SlotConfig, req: Request, wake: Wake, reply: Reply): SlotState {
    match st
    case AskSlot =>
      if reply.StoreError? then Returned(Failed(StoreFailed))
      else if reply.allowed then Returned(Grant(ALLOW, req.key, reply.token, TIER))
      else if cfg.shadowMode then AskUnbounded
      else if cfg.queueingEnabled then AskBacklog
      else Returned(Rejection(cfg))
    case AskUnbounded =>
      if reply.StoreError? then Returned(Failed(StoreFailed))
      else Returned(Grant(SHADOW_LOG, req.key, reply.token, TIER))
    case AskBacklog =>
      if reply.StoreError? then Returned(Failed(StoreFailed))
      else if reply.allowed then Waiting(reply.token)
      else Returned(Rejection(cfg))
    case Waiting(backlog) =>
      if wake.Cancel? then GivingBack(backlog, Failed(ContextCanceled))
      else if wake.Deadline? then GivingBack(backlog, Rejection(cfg))
      else if reply.StoreError? then GivingBack(backlog, Failed(StoreFailed))
      else if reply.allowed then GivingBack(backlog, Grant(QUEUE, req.key, reply.token, TIER))
      else st
    case GivingBack(_, pending) => Returned(pending)
    case Returned(_) => st
  }

  /** One turn of a Check: the call it is about to make, then where it goes next. */
  function Step(st: SlotState, cfg: SlotConfig, req: Request, db: Db, turn: Turn): (SlotState, Db) {
    var (after, reply) := Perform(db, NextCall(st, cfg, req, turn.wake), turn);
    (OnReply(st, cfg, req, turn.wake, reply), after)
  }

  /** Once the listed slices are used up, the caller's context is cancelled:
      every further call fails and the poll loop sees ctx.Done. */
  const CANCELLED := Slice([], Turn(0, "", NotExecuted, Cancel))

  function Head(env: seq<Slice>): Slice {
    if env == [] then CANCELLED else env[0]
  }

  function Tail(env: seq<Slice>): seq<Slice> {
    if env == [] then [] else env[1..]
  }

  function Rank(st: SlotState): nat {
    match st
    case AskSlot => 3
    case AskUnbounded => 2
    case AskBacklog => 2
    case Waiting(_) => 2
    case GivingBack(_, _) => 1
    case Returned(_) => 0
  }

  /** The automaton run to its end in a given environment. */
  function Drive(st: SlotState, cfg: SlotConfig, req: Request, db: Db, env: seq<Slice>): (r: (Verdict, Db, seq<Slice>))
    decreases |env|, Rank(st)
  {
    if st.Returned? then (st.verdict, db, env)
    else
      var slice := Head(env);
      var (next, after) := Step(st, cfg, req, ApplyOps(db, slice.others), slice.turn);
      Drive(next, cfg, req, after, Tail(env))
  }

  lemma Unfold(st: SlotState, cfg: SlotConfig, req: Request, db: Db, env: seq<Slice>, reply: Reply, after: Db)
    requires !st.Returned?
    requires var slice := Head(env);
             (after, reply) == Perform(ApplyOps(db, slice.others), NextCall(st, cfg, req, slice.turn.wake), slice.turn)
    ensures var next := OnReply(st, cfg, req, Head(env).turn.wake, reply);
            && Drive(st, cfg, req, db, env) == Drive(next, cfg, req, after, Tail(env))
            && (next.Returned? ==> Drive(st, cfg, req, db, env) == (next.verdict, after, Tail(env)))
  {}

  /** What a state holds in the store: its backlog token, and the grants in its verdict. */
  function Held(st: SlotState, req: Request): set<(Key, Token)> {
    match st
    case Waiting(backlog) => {(BacklogKey(req.key), backlog)}
    case GivingBack(backlog, pending) => {(BacklogKey(req.key), backlog)} + Granted(pending)
    case Returned(verdict) => Granted(verdict)
    case _ => {}
  }

  /** Which states a Check can be in: only a request that reserves gets past the
      start, and every verdict is an honest one. */
  predicate WellFormed(st: SlotState, req: Request) {
    match st
    case Returned(verdict) => Honest(verdict, req.key, req.skipReservations)
    case GivingBack(_, pending) => !req.skipReservations && Honest(pending, req.key, false)
    case _ => !req.skipReservations
  }

  function Gain(call: Call, reply: Reply): set<(Key, Token)> {
    if call.Incr? && reply.Reply? && reply.allowed then {(call.key, reply.token)} else {}
  }

  function Loss(call: Call): set<(Key, Token)> {
    if call.Decr? then {(call.key, call.token)} else {}
  }

  /** No branch of the limiter drops a token it was given or invents one: what a
      state holds changes by exactly the tokens its call took and gave back. */
  lemma NothingLostNothingInvented(st: SlotState, cfg: SlotConfig, req: Request, wake: Wake, reply: Reply)
    requires NextCall(st, cfg, req, wake).Incr? && reply.Reply? ==> (reply.allowed <==> reply.token != "")
    requires WellFormed(st, req)
    ensures WellFormed(OnReply(st, cfg, req, wake, reply), req)
    ensures var call := NextCall(st, cfg, req, wake);
            Held(OnReply(st, cfg, req, wake, reply), req) == Held(st, req) + Gain(call, reply) - Loss(call)
  {
    var call := NextCall(st, cfg, req, wake);
    var next := OnReply(st, cfg, req, wake, reply);
    GrantGranted(ALLOW, req.key, "x");
    if reply.Reply? {
      GrantGranted(ALLOW, req.key, reply.token);
      GrantGranted(SHADOW_LOG, req.key, reply.token);
      GrantGranted(QUEUE, req.key, reply.token);
    }
  }

  lemma GrantGranted(action: Action, key: Key, token: Token)
    ensures Granted(Grant(action, key, token, TIER)) == if token == "" then {} else {(key, token)}
  {
    var r := TokenReservation(key, token);
    assert Grant(action, key, token, TIER).decision.reservations == [r];
  }

  /** A request whose first call is delivered at time zero. */
  function Arrival(cfg: SlotConfig, req: Request, db: Db, token: Token): Db {
    Drive(Begin(req), cfg, req, db, [Slice([], Turn(0, token, Delivered, Tick))]).1
  }

  /** As many of them as there are tokens, in the same millisecond. */
  function Arrivals(cfg: SlotConfig, req: Request, tokens: seq<Token>): Db
    decreases |tokens|
  {
    if tokens == [] then map[]
    else Arrival(cfg, req, Arrivals(cfg, req, tokens[..|tokens| - 1]), tokens[|tokens| - 1])
  }

  predicate Distinct(tokens: seq<Token>) {
    forall i, j :: 0 <= i < j < |tokens| ==> tokens[i] != tokens[j]
  }

  /** The key precondition is needed: requests for the key "backlog:" + k put their slot
      tokens into the backlog of k, as many as the slot cap allows, whatever the
      backlog's own bound is. So the bound can be broken whenever it is below the cap. */
  lemma CollidingKeyOverfillsBacklog(cfg: SlotConfig, k: Key, tokens: seq<Token>)
    requires cfg.maxDurationMs > 0 && |tokens| <= cfg.cap && Distinct(tokens)
    ensures var backlog := At(Arrivals(cfg, Request(BacklogKey(k), 1, false, Sheddable), tokens), BacklogKey(k));
            && HoldsExactly(backlog, tokens)
            && |backlog| == |tokens|
            && (cfg.maxBacklog < |tokens| ==> cfg.maxBacklog < |backlog|)
  {
    ArrivalsFillTheSet(cfg, Request(BacklogKey(k), 1, false, Sheddable), tokens);
  }

  /** And requests for the key "fleet" fill the fleet set the same way, past a fleet cap
      below the slot cap, without any of them having passed Tier 3. */
  lemma CollidingKeyOverfillsFleet(cfg: SlotConfig, fleetCap: int, tokens: seq<Token>)
    requires cfg.maxDurationMs > 0 && |tokens| <= cfg.cap && Distinct(tokens)
    ensures var fleet := At(Arrivals(cfg, Request(FLEET_KEY, 1, false, Sheddable), tokens), FLEET_KEY);
            && HoldsExactly(fleet, tokens)
            && |fleet| == |tokens|
            && (fleetCap < |tokens| ==> fleetCap < |fleet|)
  {
    ArrivalsFillTheSet(cfg, Request(FLEET_KEY, 1, false, Sheddable), tokens);
  }

  lemma {:induction false} ArrivalsFillTheSet(cfg: SlotConfig, req: Request, tokens: seq<Token>)
    requires cfg.maxDurationMs > 0 && |tokens| <= cfg.cap && Distinct(tokens) && !req.skipReservations
    ensures var held := At(Arrivals(cfg, req, tokens), req.key); HoldsExactly(held, tokens) && |held| == |tokens|
    decreases |tokens|
  {
    if tokens == [] {
    } else {
      var fewer, last := tokens[..|tokens| - 1], tokens[|tokens| - 1];
      ArrivalsFillTheSet(cfg, req, fewer);
      var before := Arrivals(cfg, req, fewer);
      assert tokens == fewer + [last];
      HoldsOneMore(At(before, req.key), fewer, last);
      ArrivalTakesASlot(cfg, req, before, last);
    }
  }

  /** The set is these tokens, all added at time zero. */
  ghost predicate HoldsExactly(s: Leases, tokens: seq<Token>) {
    forall t :: (t in s <==> t in tokens) && (t in s ==> s[t] == 0)
  }

  lemma HoldsOneMore(s: Leases, tokens: seq<Token>, last: Token)
    requires HoldsExactly(s, tokens) && Distinct(tokens + [last])
    ensures last !in s && HoldsExactly(s[last := 0], tokens + [last])
  {
    var all := tokens + [last];
    assert forall i :: 0 <= i < |tokens| ==> all[i] == tokens[i] && all[i] != all[|tokens|];
  }

  lemma ArrivalTakesASlot(cfg: SlotConfig, req: Request, db: Db, token: Token)
    requires cfg.maxDurationMs > 0 && !req.skipReservations
    requires var held := At(db, req.key); |held| < cfg.cap && token !in held && forall t :: t in held ==> held[t] == 0
    ensures var held := At(db, req.key);
            var after := At(Arrival(cfg, req, db, token), req.key);
            after == held[token := 0] && |after| == |held| + 1
  {
    var held := At(db, req.key);
    assert Reap(held, 0 - cfg.maxDurationMs) == held;
    AllowedAtOnce(cfg, req, db, Turn(0, token, Delivered, Tick));
    InsertFresh(held, token, 0);
  }

  lemma InsertFresh(s: Leases, t: Token, score: int)
    requires t !in s
    ensures |s[t := score]| == |s| + 1
  {
    assert s[t := score].Keys == s.Keys + {t};
  }

  lemma AllowedAtOnce(cfg: SlotConfig, req: Request, db: Db, turn: Turn)
    requires !req.skipReservations && turn.fault.Delivered?
    requires |Reap(At(db, req.key), turn.now - cfg.maxDurationMs)| < cfg.cap
    ensures Drive(Begin(req), cfg, req, db, [Slice([], turn)]).1
         == db[req.key := Reap(At(db, req.key), turn.now - cfg.maxDurationMs)[turn.candidate := turn.now]]
  {}

  /** What an answer says about the configuration it was made under. */
  predicate Lawful(v: Verdict, cfg: SlotConfig, skip: bool) {
    if skip then v == Plain(ALLOW, 0, "")
    else if v.err.StoreFailed? then true
    else if v.err.ContextCanceled? then cfg.queueingEnabled && !cfg.shadowMode
    else
      && v.decision.tier == TIER
      && match v.decision.action
         case ALLOW => v.decision.retryAfterMs == 0
         case SHADOW_LOG => cfg.shadowMode
         case QUEUE => cfg.queueingEnabled && !cfg.shadowMode
         case REJECT_429 => !cfg.shadowMode && v.decision.retryAfterMs == cfg.maxDurationMs
             && v.decision.reservations == []
         case REJECT_503 => false
  }

  predicate LawfulState(st: SlotState, cfg: SlotConfig, skip: bool) {
    match st
    case AskSlot => !skip
    case AskUnbounded => !skip && cfg.shadowMode
    case AskBacklog => !skip && cfg.queueingEnabled && !cfg.shadowMode
    case Waiting(_) => !skip && cfg.queueingEnabled && !cfg.shadowMode
    case GivingBack(_, pending) => !skip && Lawful(pending, cfg, false)
    case Returned(verdict) => Lawful(verdict, cfg, skip)
  }

  /** Whatever the store and the clock do, a Check never rejects or queues in shadow
      mode, queues (or is cancelled while polling) only if queueing is on, and tells
      everyone it rejects to come back after the longest a slot can be held. */
  lemma {:induction false} AnswersAreLawful(st: SlotState, cfg: SlotConfig, req: Request, db: Db, env: seq<Slice>)
    requires LawfulState(st, cfg, req.skipReservations)
    ensures Lawful(Drive(st, cfg, req, db, env).0, cfg, req.skipReservations)
    decreases |env|, Rank(st)
  {
    if st.Returned? {
    } else {
      var slice := Head(env);
      var (next, after) := Step(st, cfg, req, ApplyOps(db, slice.others), slice.turn);
      AnswersAreLawful(next, cfg, req, after, Tail(env));
    }
  }

  class ConcurrencyLimiter {
    const store: RedisStore
    var cap: int
    var maxDurationMs: int
    var shadowMode: bool
    var queueingEnabled: bool
    var maxBacklog: int
    var maxQueueWaitMs: int
    var pollIntervalMs: int

    constructor (store: RedisStore, cap: int, maxDurationMs: int, shadowMode: bool, queueingEnabled: bool,
                 maxBacklog: int, maxQueueWaitMs: int, pollIntervalMs: int)
      ensures this.store == store
      ensures Config() == SlotConfig(cap, maxDurationMs, shadowMode, queueingEnabled, maxBacklog, maxQueueWaitMs,
          pollIntervalMs)
    {
      this.store := store;
      this.cap := cap;
      this.maxDurationMs := maxDurationMs;
      this.shadowMode := shadowMode;
      this.queueingEnabled := queueingEnabled;
      this.maxBacklog := maxBacklog;
      this.maxQueueWaitMs := maxQueueWaitMs;
      this.pollIntervalMs := pollIntervalMs;
    }

    function Config(): SlotConfig
      reads this
    {
      SlotConfig(cap, maxDurationMs, shadowMode, queueingEnabled, maxBacklog, maxQueueWaitMs, pollIntervalMs)
    }

    method Reconfigure(cap: int, maxDurationMs: int, shadowMode: bool, queueingEnabled: bool,
                       maxBacklog: int, maxQueueWaitMs: int, pollIntervalMs: int)
      modifies this
      ensures Config() == SlotConfig(cap, maxDurationMs, shadowMode, queueingEnabled, maxBacklog, maxQueueWaitMs,
          pollIntervalMs)
    {
      this.cap := cap;
      this.maxDurationMs := maxDurationMs;
      this.shadowMode := shadowMode;
      this.queueingEnabled := queueingEnabled;
      this.maxBacklog := maxBacklog;
      this.maxQueueWaitMs := maxQueueWaitMs;
      this.pollIntervalMs := pollIntervalMs;
    }

    method Check(req: Request, env: seq<Slice>) returns (v: Verdict, rest: seq<Slice>)
      modifies store
      ensures (v, store.db, rest) == Drive(Begin(req), Config(), req, old(store.db), env)
    {
      if req.skipReservations {
        return Plain(ALLOW, 0, ""), env;
      }
      var cfg := Config();
      ghost var was := store.db;

      var reply := store.IncrConcurrent(req.key, cfg.cap, cfg.maxDurationMs, Head(env));
      Unfold(AskSlot, cfg, req, was, env, reply, store.db);
      rest := Tail(env);
      if reply.StoreError? {
        return Failed(StoreFailed), rest;
      }
      if reply.allowed {
        return Grant(ALLOW, req.key, reply.token, TIER), rest;
      }

      if cfg.shadowMode {
        was := store.db;
        reply := store.IncrConcurrent(req.key, UNBOUNDED_CAP, cfg.maxDurationMs, Head(rest));
        Unfold(AskUnbounded, cfg, req, was, rest, reply, store.db);
        rest := Tail(rest);
        if reply.StoreError? {
          return Failed(StoreFailed), rest;
        }
        return Grant(SHADOW_LOG, req.key, reply.token, TIER), rest;
      }

      if !cfg.queueingEnabled {
        return Plain(REJECT_429, cfg.maxDurationMs, TIER), rest;
      }
      v, rest := Enqueue(req, cfg, rest);
    }

    /** The queueing half of Check, from the backlog slot to its deferred release. */
    method Enqueue(req: Request, cfg: SlotConfig, env: seq<Slice>) returns (v: Verdict, rest: seq<Slice>)
      modifies store
      ensures (v, store.db, rest) == Drive(AskBacklog, cfg, req, old(store.db), env)
    {
      var reply := AcquireBacklogSlot(req.key, cfg.maxBacklog, cfg.maxQueueWaitMs, Head(env));
      rest := Tail(env);
      ghost var goal := Drive(AskBacklog, cfg, req, old(store.db), env);
      assert goal == Drive(OnReply(AskBacklog, cfg, req, Head(env).turn.wake, reply), cfg, req, store.db, rest) by {
        Unfold(AskBacklog, cfg, req, old(store.db), env, reply, store.db);
      }
      if reply.StoreError? {
        return Failed(StoreFailed), rest;
      }
      if !reply.allowed {
        return Plain(REJECT_429, cfg.maxDurationMs, TIER), rest;
      }
      var backlogToken := reply.token;
      assert goal == Drive(Waiting(backlogToken), cfg, req, store.db, rest);

      v, rest := PollUntilAllowedOrDeadline(req, cfg, backlogToken, rest);

      // The deferred release, best effort: its own failure is not looked at.
      GiveBack(req, cfg, backlogToken, v, Head(rest), rest);
      rest := Tail(rest);
    }

    method GiveBack(req: Request, ghost cfg: SlotConfig, backlogToken: Token, ghost v: Verdict, slice: Slice,
        ghost env: seq<Slice>)
      requires slice == Head(env)
      modifies store
      ensures Drive(GivingBack(backlogToken, v), cfg, req, old(store.db), env) == (v, store.db, Tail(env))
    {
      var released := store.DecrConcurrent(BACKLOG_PREFIX + req.key, backlogToken, slice);
      Unfold(GivingBack(backlogToken, v), cfg, req, old(store.db), env, released, store.db);
    }

    method AcquireBacklogSlot(key: Key, maxBacklog: int, maxQueueWaitMs: int, slice: Slice) returns (reply: Reply)
      modifies store
      ensures (store.db, reply)
           == Perform(ApplyOps(old(store.db), slice.others), Incr(BacklogKey(key), maxBacklog, maxQueueWaitMs),
               slice.turn)
    {
      reply := store.IncrConcurrent(BACKLOG_PREFIX + key, maxBacklog, maxQueueWaitMs, slice);
    }

    method PollUntilAllowedOrDeadline(req: Request, cfg: SlotConfig, ghost backlog: Token, env: seq<Slice>)
      returns (v: Verdict, rest: seq<Slice>)
      modifies store
      ensures Drive(GivingBack(backlog, v), cfg, req, store.db, rest)
           == Drive(Waiting(backlog), cfg, req, old(store.db), env)
    {
      rest := env;
      while true
        invariant Drive(Waiting(backlog), cfg, req, store.db, rest)
               == Drive(Waiting(backlog), cfg, req, old(store.db), env)
        decreases |rest|
      {
        var slice := Head(rest);
        match slice.turn.wake
        case Cancel =>
          store.Interleave(slice.others);
          rest := Tail(rest);
          return Failed(ContextCanceled), rest;
        case Deadline =>
          store.Interleave(slice.others);
          rest := Tail(rest);
          return Plain(REJECT_429, cfg.maxDurationMs, TIER), rest;
        case Tick =>
          var reply := store.IncrConcurrent(req.key, cfg.cap, cfg.maxDurationMs, slice);
          rest := Tail(rest);
          if reply.StoreError? {
            return Failed(StoreFailed), rest;
          }
          if reply.allowed {
            return Grant(QUEUE, req.key, reply.token, TIER), rest;
          }
      }
    }
  }
}
