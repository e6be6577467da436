/** How often the poll loop of Tier 2 can poll, when its store calls are instantaneous:
    the ticker fires at every multiple of the interval, the deadline once at the wait. */
module PollTiming {
  import opened TokenStore
  import opened Limits
  import CL = ConcurrencyLimiter

  datatype Ending = ByDeadline | ByCancel | ByGrant | ByStoreError

  /** The polls a waiting request makes, and what ends its wait. */
  function Loop(cfg: CL.SlotConfig, req: Request, db: Db, env: seq<Slice>): (nat, Ending)
    decreases |env|
  {
    var slice := CL.Head(env);
    var turn := slice.turn;
    if turn.wake.Cancel? then (0, ByCancel)
    else if turn.wake.Deadline? then (0, ByDeadline)
    else
      var (after, reply) := Perform(ApplyOps(db, slice.others), Incr(req.key, cfg.cap, cfg.maxDurationMs), turn);
      if reply.StoreError? then (1, ByStoreError)
      else if reply.allowed then (1, ByGrant)
      else
        var (polls, ending) := Loop(cfg, req, after, env[1..]);
        (1 + polls, ending)
  }

  /** The slices a wait uses up: one for each poll, one for a deadline or a cancel, and
      one for giving the backlog token back. */
  function Used(polls: nat, ending: Ending): nat {
    polls + if ending.ByDeadline? || ending.ByCancel? then 2 else 1
  }

  function Rest(env: seq<Slice>, used: nat): seq<Slice> {
    if used <= |env| then env[used..] else []
  }

  /** The ending is what the caller is told, and the polls are the turns it took. */
  lemma {:induction false} EndingIsTheVerdict(backlog: Token, cfg: CL.SlotConfig, req: Request, db: Db, env: seq<Slice>)
    ensures var (v, _, rest) := CL.Drive(CL.Waiting(backlog), cfg, req, db, env);
            var (polls, ending) := Loop(cfg, req, db, env);
            && rest == Rest(env, Used(polls, ending))
            && (ending.ByDeadline? <==> v == CL.Rejection(cfg))
            && (ending.ByCancel? <==> v == Failed(ContextCanceled))
            && (ending.ByStoreError? <==> v == Failed(StoreFailed))
            && (ending.ByGrant? <==> v.err.NoError? && v.decision.action.QUEUE? && |v.decision.reservations| == 1)
    decreases |env|
  {
    var slice := CL.Head(env);
    var (next, after) := CL.Step(CL.Waiting(backlog), cfg, req, ApplyOps(db, slice.others), slice.turn);
    if next.GivingBack? {
      GivesBackPending(next, cfg, req, after, CL.Tail(env));
    } else {
      EndingIsTheVerdict(backlog, cfg, req, after, env[1..]);
    }
  }

  lemma GivesBackPending(st: CL.SlotState, cfg: CL.SlotConfig, req: Request, db: Db, env: seq<Slice>)
    requires st.GivingBack?
    ensures CL.Drive(st, cfg, req, db, env).0 == st.pending
    ensures CL.Drive(st, cfg, req, db, env).2 == CL.Tail(env)
  {}

  /** When the n-th tick comes. */
  function TickTime(n: nat, interval: int): int {
    if n == 0 then 0 else TickTime(n - 1, interval) + interval
  }

  lemma {:induction false} TickTimeIsMultiple(n: nat, interval: int)
    ensures TickTime(n, interval) == n * interval
  {
    if n == 0 {
    } else {
      TickTimeIsMultiple(n - 1, interval);
    }
  }

  /** The select's choices obey the clock: with n polls made, the next tick comes at
      (n + 1) intervals, the deadline at the wait; if both are due together the
      select may take either. */
  ghost predicate Timely(env: seq<Slice>, n: nat, interval: int, wait: int)
    decreases |env|
  {
    env == [] ||
    match env[0].turn.wake
    case Tick => TickTime(n + 1, interval) <= wait && Timely(env[1..], n + 1, interval, wait)
    case Deadline => wait <= TickTime(n + 1, interval)
    case Cancel => true
  }

  /** The ticks a wait could poll at, if nothing ended it before the first other wake. */
  function Ticks(env: seq<Slice>): nat
    decreases |env|
  {
    if env != [] && env[0].turn.wake.Tick? then 1 + Ticks(env[1..]) else 0
  }

  predicate DeadlineAt(env: seq<Slice>, n: nat) {
    n < |env| && env[n].turn.wake.Deadline?
  }

  lemma {:induction false} PollsAreTicks(cfg: CL.SlotConfig, req: Request, db: Db, env: seq<Slice>)
    ensures var (polls, ending) := Loop(cfg, req, db, env);
            polls <= Ticks(env) && (ending.ByDeadline? ==> polls == Ticks(env) && DeadlineAt(env, polls))
    decreases |env|
  {
    if env == [] || !env[0].turn.wake.Tick? {
    } else {
      var slice := env[0];
      var (after, reply) := Perform(ApplyOps(db, slice.others), Incr(req.key, cfg.cap, cfg.maxDurationMs), slice.turn);
      if reply.Reply? && !reply.allowed {
        PollsAreTicks(cfg, req, after, env[1..]);
      }
    }
  }

  lemma {:induction false} TicksFitTheWait(env: seq<Slice>, n: nat, interval: int, wait: int)
    requires TickTime(n, interval) <= wait && Timely(env, n, interval, wait)
    ensures TickTime(n + Ticks(env), interval) <= wait
    ensures DeadlineAt(env, Ticks(env)) ==> wait <= TickTime(n + Ticks(env) + 1, interval)
    decreases |env|
  {
    if env == [] || !env[0].turn.wake.Tick? {
    } else {
      TicksFitTheWait(env[1..], n + 1, interval, wait);
    }
  }

  /** A validated queueing configuration polls at most wait / interval times, and a
      request that is turned away by its deadline has polled at least once if the
      interval is shorter than the wait. */
  lemma PollCount(cfg: CL.SlotConfig, req: Request, db: Db, env: seq<Slice>)
    requires 0 < cfg.pollIntervalMs <= cfg.maxQueueWaitMs
    requires Timely(env, 0, cfg.pollIntervalMs, cfg.maxQueueWaitMs)
    ensures var (polls, ending) := Loop(cfg, req, db, env);
            && polls <= cfg.maxQueueWaitMs / cfg.pollIntervalMs
            && (ending.ByDeadline? && cfg.pollIntervalMs < cfg.maxQueueWaitMs ==> polls >= 1)
  {
    PollsAreTicks(cfg, req, db, env);
    TicksBound(env, cfg.pollIntervalMs, cfg.maxQueueWaitMs);
  }

  lemma TicksBound(env: seq<Slice>, interval: int, wait: int)
    requires 0 < interval <= wait && Timely(env, 0, interval, wait)
    ensures Ticks(env) <= wait / interval
    ensures DeadlineAt(env, Ticks(env)) && interval < wait ==> Ticks(env) >= 1
  {
    TicksFitTheWait(env, 0, interval, wait);
    assert TickTime(1, interval) == interval;
    assert Ticks(env) <= wait / interval by {
      TickTimeIsMultiple(Ticks(env), interval);
      QuotientBound(Ticks(env), interval, wait);
    }
  }

  lemma QuotientBound(polls: nat, interval: int, wait: int)
    requires 0 < interval && polls * interval <= wait
    ensures polls <= wait / interval
  {
    var q, r := wait / interval, wait % interval;
    assert wait == q * interval + r;
    assert (polls - q) * interval == polls * interval - q * interval;
    BelowOne(polls - q, interval);
  }

  lemma BelowOne(x: int, interval: int)
    requires 0 < interval && x * interval < interval
    ensures x < 1
  {}

  /** Validation accepts an interval equal to the wait, and then, and only then, a
      request can be turned away without ever having polled. */
  lemma UnpolledTimeoutExactlyWhen(cfg: CL.SlotConfig, req: Request, db: Db)
    requires 0 < cfg.pollIntervalMs <= cfg.maxQueueWaitMs
    ensures (exists env ::
               Timely(env, 0, cfg.pollIntervalMs, cfg.maxQueueWaitMs) && Loop(cfg, req, db, env) == (0, ByDeadline))
        <==> cfg.pollIntervalMs == cfg.maxQueueWaitMs
  {
    if cfg.pollIntervalMs == cfg.maxQueueWaitMs {
      var env := [Slice([], Turn(0, "", Delivered, Deadline))];
      assert Timely(env, 0, cfg.pollIntervalMs, cfg.maxQueueWaitMs);
      assert Loop(cfg, req, db, env) == (0, ByDeadline);
    }
    if env :| Timely(env, 0, cfg.pollIntervalMs, cfg.maxQueueWaitMs) && Loop(cfg, req, db, env) == (0, ByDeadline) {
      PollCount(cfg, req, db, env);
    }
  }
}
