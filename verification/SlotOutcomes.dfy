/** What a Tier 2 and a Tier 3 Check decide, said without their automata: in terms of
    the leases that are still running when a call is made. */
module SlotOutcomes {
  import opened TokenStore
  import opened Limits
  import CL = ConcurrencyLimiter
  import FS = FleetShedder

  /** The tokens of a set whose lease of that many milliseconds is still running. */
  function Running(s: Leases, leaseMs: int, now: int): set<Token> {
    set t | t in s && now - s[t] < leaseMs
  }

  /** The store as a call that granted a token, or refused one, leaves it: the running
      leases with their readings, the new token if there is one, and nothing else changed. */
  ghost predicate Leaves(db: Db, key: Key, running: set<Token>, granted: set<Token>, now: int, after: Db) {
    && (forall k :: k != key ==> At(after, k) == At(db, k))
    && At(after, key).Keys == running + granted
    && (forall t :: t in granted ==> At(after, key)[t] == now)
    && (forall t :: t in running - granted ==> t in At(db, key) && At(after, key)[t] == At(db, key)[t])
  }

  /** The script grants exactly when fewer leases are running than the cap. */
  lemma ScriptGrantsExactlyWhen(db: Db, key: Key, cap: int, leaseMs: int, now: int, candidate: Token)
    ensures var (after, reply) := Script(db, key, cap, leaseMs, now, candidate);
            var running := Running(At(db, key), leaseMs, now);
            if |running| < cap then reply == Reply(true, candidate) && Leaves(db, key, running, {candidate}, now, after)
            else reply == Reply(false, "") && Leaves(db, key, running, {}, now, after)
  {
    ScriptSets(db, key, cap, leaseMs, now, candidate);
    var running := Running(At(db, key), leaseMs, now);
    assert Reap(At(db, key), now - leaseMs).Keys == running;
    assert |Reap(At(db, key), now - leaseMs)| == |running|;
  }

  predicate Answered(env: seq<Slice>, calls: nat) {
    calls <= |env| && forall i :: 0 <= i < calls ==> env[i].turn.fault.Delivered?
  }

  /** The store as the first call of the request finds it. */
  function Found(db: Db, env: seq<Slice>): Db
    requires env != []
  {
    ApplyOps(db, env[0].others)
  }

  predicate IsGrant(v: Verdict, action: Action, key: Key, token: Token, tier: string) {
    v == Verdict(Decision(action, 0, [TokenReservation(key, token)], tier, 0, 0), NoError)
  }

  predicate Refused429(v: Verdict, retryAfterMs: int) {
    v == Verdict(Decision(REJECT_429, retryAfterMs, [], "concurrency_limiter", 0, 0), NoError)
  }

  /** A request that skips reservations touches nothing. */
  lemma SkippingTouchesNothing(cfg: CL.SlotConfig, fleet: FS.FleetConfig, req: Request, db: Db, env: seq<Slice>)
    requires req.skipReservations
    ensures var allowed := Verdict(Decision(ALLOW, 0, [], "", 0, 0), NoError);
            && CL.Drive(CL.Begin(req), cfg, req, db, env) == (allowed, db, env)
            && FS.Drive(FS.Begin(req), fleet, req, db, env) == (allowed, db, env)
  {}

  /** A free slot is granted at once. */
  lemma FreeSlotIsGranted(cfg: CL.SlotConfig, req: Request, db: Db, env: seq<Slice>)
    requires !req.skipReservations && Answered(env, 1)
    requires |Running(At(Found(db, env), req.key), cfg.maxDurationMs, env[0].turn.now)| < cfg.cap
    ensures var (v, after, rest) := CL.Drive(CL.Begin(req), cfg, req, db, env);
            var turn := env[0].turn;
            && IsGrant(v, ALLOW, req.key, turn.candidate, "concurrency_limiter")
            && rest == env[1..]
            && Leaves(Found(db, env), req.key, Running(At(Found(db, env), req.key), cfg.maxDurationMs, turn.now),
                      {turn.candidate}, turn.now, after)
  {
    var turn := env[0].turn;
    ScriptGrantsExactlyWhen(Found(db, env), req.key, cfg.cap, cfg.maxDurationMs, turn.now, turn.candidate);
    var (after, reply) := Script(Found(db, env), req.key, cfg.cap, cfg.maxDurationMs, turn.now, turn.candidate);
    CL.Unfold(CL.AskSlot, cfg, req, db, env, reply, after);
  }

  /** When all slots are taken, the request is refused them, and only expired leases go. */
  lemma NoFreeSlot(cfg: CL.SlotConfig, req: Request, db: Db, env: seq<Slice>) returns (mid: Db)
    requires !req.skipReservations && Answered(env, 1)
    requires |Running(At(Found(db, env), req.key), cfg.maxDurationMs, env[0].turn.now)| >= cfg.cap
    ensures Leaves(Found(db, env), req.key, Running(At(Found(db, env), req.key), cfg.maxDurationMs, env[0].turn.now),
                   {}, env[0].turn.now, mid)
    ensures CL.Drive(CL.Begin(req), cfg, req, db, env)
         == if cfg.shadowMode then CL.Drive(CL.AskUnbounded, cfg, req, mid, env[1..])
            else if cfg.queueingEnabled then CL.Drive(CL.AskBacklog, cfg, req, mid, env[1..])
            else (Verdict(Decision(REJECT_429, cfg.maxDurationMs, [], "concurrency_limiter", 0, 0), NoError), mid,
                env[1..])
  {
    var turn := env[0].turn;
    ScriptGrantsExactlyWhen(Found(db, env), req.key, cfg.cap, cfg.maxDurationMs, turn.now, turn.candidate);
    mid := Script(Found(db, env), req.key, cfg.cap, cfg.maxDurationMs, turn.now, turn.candidate).0;
    CL.Unfold(CL.AskSlot, cfg, req, db, env, Reply(false, ""), mid);
  }

  /** Without shadow mode and queueing that is the answer. */
  lemma RefusedOutright(cfg: CL.SlotConfig, req: Request, db: Db, env: seq<Slice>)
    requires !req.skipReservations && Answered(env, 1) && !cfg.shadowMode && !cfg.queueingEnabled
    requires |Running(At(Found(db, env), req.key), cfg.maxDurationMs, env[0].turn.now)| >= cfg.cap
    ensures Refused429(CL.Drive(CL.Begin(req), cfg, req, db, env).0, cfg.maxDurationMs)
  {
    var mid := NoFreeSlot(cfg, req, db, env);
  }

  /** In shadow mode the second call takes a slot for the same lease all the same, unless
      MaxInt32 leases are running. */
  lemma ShadowTakesASlot(cfg: CL.SlotConfig, req: Request, db: Db, env: seq<Slice>) returns (mid: Db)
    requires !req.skipReservations && Answered(env, 2) && cfg.shadowMode
    requires |Running(At(Found(db, env), req.key), cfg.maxDurationMs, env[0].turn.now)| >= cfg.cap
    ensures Leaves(Found(db, env), req.key, Running(At(Found(db, env), req.key), cfg.maxDurationMs, env[0].turn.now),
                   {}, env[0].turn.now, mid)
    ensures var (v, after, rest) := CL.Drive(CL.Begin(req), cfg, req, db, env);
            var turn, found := env[1].turn, Found(mid, env[1..]);
            var running := Running(At(found, req.key), cfg.maxDurationMs, turn.now);
            && rest == env[2..]
            && (if |running| < 0x7fff_ffff then
                  && IsGrant(v, SHADOW_LOG, req.key, turn.candidate, "concurrency_limiter")
                  && Leaves(found, req.key, running, {turn.candidate}, turn.now, after)
                else
                  && IsGrant(v, SHADOW_LOG, req.key, "", "concurrency_limiter")
                  && Leaves(found, req.key, running, {}, turn.now, after))
  {
    mid := NoFreeSlot(cfg, req, db, env);
    SecondShadowCall(cfg, req, mid, env[1..]);
    assert env[1..][1..] == env[2..];
  }

  lemma SecondShadowCall(cfg: CL.SlotConfig, req: Request, db: Db, env: seq<Slice>)
    requires Answered(env, 1)
    ensures var (v, after, rest) := CL.Drive(CL.AskUnbounded, cfg, req, db, env);
            var turn, found := env[0].turn, Found(db, env);
            var running := Running(At(found, req.key), cfg.maxDurationMs, turn.now);
            && rest == env[1..]
            && (if |running| < 0x7fff_ffff then
                  && IsGrant(v, SHADOW_LOG, req.key, turn.candidate, "concurrency_limiter")
                  && Leaves(found, req.key, running, {turn.candidate}, turn.now, after)
                else
                  && IsGrant(v, SHADOW_LOG, req.key, "", "concurrency_limiter")
                  && Leaves(found, req.key, running, {}, turn.now, after))
  {
    var turn := env[0].turn;
    ScriptGrantsExactlyWhen(Found(db, env), req.key, 0x7fff_ffff, cfg.maxDurationMs, turn.now, turn.candidate);
    var (after, reply) := Script(Found(db, env), req.key, 0x7fff_ffff, cfg.maxDurationMs, turn.now, turn.candidate);
    CL.Unfold(CL.AskUnbounded, cfg, req, db, env, reply, after);
  }

  /** A request refused its slot joins the queue if and only if fewer than maxBacklog
      places of its key's backlog have been taken within the last maxQueueWaitMs
      milliseconds; otherwise it gets the 429. */
  lemma JoinsTheQueueExactlyWhen(cfg: CL.SlotConfig, req: Request, db: Db, env: seq<Slice>) returns (mid: Db, after: Db)
    requires !req.skipReservations && Answered(env, 2) && cfg.queueingEnabled && !cfg.shadowMode
    requires |Running(At(Found(db, env), req.key), cfg.maxDurationMs, env[0].turn.now)| >= cfg.cap
    ensures Leaves(Found(db, env), req.key, Running(At(Found(db, env), req.key), cfg.maxDurationMs, env[0].turn.now),
                   {}, env[0].turn.now, mid)
    ensures var turn, found := env[1].turn, Found(mid, env[1..]);
            var places := Running(At(found, "backlog:" + req.key), cfg.maxQueueWaitMs, turn.now);
            if |places| < cfg.maxBacklog then
              && Leaves(found, "backlog:" + req.key, places, {turn.candidate}, turn.now, after)
              && CL.Drive(CL.Begin(req), cfg, req, db, env)
                  == CL.Drive(CL.Waiting(turn.candidate), cfg, req, after, env[2..])
            else
              && Leaves(found, "backlog:" + req.key, places, {}, turn.now, after)
              && Refused429(CL.Drive(CL.Begin(req), cfg, req, db, env).0, cfg.maxDurationMs)
              && CL.Drive(CL.Begin(req), cfg, req, db, env).1 == after
  {
    mid := NoFreeSlot(cfg, req, db, env);
    after := BacklogCall(cfg, req, mid, env[1..]);
    assert env[1..][1..] == env[2..];
  }

  lemma BacklogCall(cfg: CL.SlotConfig, req: Request, db: Db, env: seq<Slice>) returns (after: Db)
    requires Answered(env, 1)
    ensures var turn, found := env[0].turn, Found(db, env);
            var places := Running(At(found, "backlog:" + req.key), cfg.maxQueueWaitMs, turn.now);
            if |places| < cfg.maxBacklog then
              && Leaves(found, "backlog:" + req.key, places, {turn.candidate}, turn.now, after)
              && CL.Drive(CL.AskBacklog, cfg, req, db, env)
                  == CL.Drive(CL.Waiting(turn.candidate), cfg, req, after, env[1..])
            else
              && Leaves(found, "backlog:" + req.key, places, {}, turn.now, after)
              && Refused429(CL.Drive(CL.AskBacklog, cfg, req, db, env).0, cfg.maxDurationMs)
              && CL.Drive(CL.AskBacklog, cfg, req, db, env).1 == after
  {
    var turn, key := env[0].turn, "backlog:" + req.key;
    ScriptGrantsExactlyWhen(Found(db, env), key, cfg.maxBacklog, cfg.maxQueueWaitMs, turn.now, turn.candidate);
    var reply;
    after, reply := Script(Found(db, env), key, cfg.maxBacklog, cfg.maxQueueWaitMs, turn.now, turn.candidate).0,
                    Script(Found(db, env), key, cfg.maxBacklog, cfg.maxQueueWaitMs, turn.now, turn.candidate).1;
    CL.Unfold(CL.AskBacklog, cfg, req, db, env, reply, after);
  }

  /** A poll ends the wait if and only if a slot is free at its reading; the backlog
      place is then given back by the next call. */
  lemma PollGrantsExactlyWhen(backlog: Token, cfg: CL.SlotConfig, req: Request, db: Db, env: seq<Slice>)
      returns (mid: Db)
    requires Answered(env, 2) && env[0].turn.wake.Tick?
    ensures var turn, found := env[0].turn, Found(db, env);
            var running := Running(At(found, req.key), cfg.maxDurationMs, turn.now);
            if |running| < cfg.cap then
              && Leaves(found, req.key, running, {turn.candidate}, turn.now, mid)
              && IsGrant(CL.Drive(CL.Waiting(backlog), cfg, req, db, env).0, QUEUE, req.key, turn.candidate,
                  "concurrency_limiter")
              && CL.Drive(CL.Waiting(backlog), cfg, req, db, env).1
                  == Remove(Found(mid, env[1..]), "backlog:" + req.key, backlog)
            else
              && Leaves(found, req.key, running, {}, turn.now, mid)
              && CL.Drive(CL.Waiting(backlog), cfg, req, db, env)
                  == CL.Drive(CL.Waiting(backlog), cfg, req, mid, env[1..])
  {
    var turn := env[0].turn;
    ScriptGrantsExactlyWhen(Found(db, env), req.key, cfg.cap, cfg.maxDurationMs, turn.now, turn.candidate);
    var reply;
    mid, reply := Script(Found(db, env), req.key, cfg.cap, cfg.maxDurationMs, turn.now, turn.candidate).0,
                  Script(Found(db, env), req.key, cfg.cap, cfg.maxDurationMs, turn.now, turn.candidate).1;
    if reply.allowed {
      PollGranted(backlog, cfg, req, db, env, mid);
    } else {
      CL.Unfold(CL.Waiting(backlog), cfg, req, db, env, reply, mid);
    }
  }

  lemma PollGranted(backlog: Token, cfg: CL.SlotConfig, req: Request, db: Db, env: seq<Slice>, mid: Db)
    requires Answered(env, 2) && env[0].turn.wake.Tick?
    requires var turn := env[0].turn;
             (mid, Reply(true, turn.candidate))
             == Script(Found(db, env), req.key, cfg.cap, cfg.maxDurationMs, turn.now, turn.candidate)
    ensures var (v, after, rest) := CL.Drive(CL.Waiting(backlog), cfg, req, db, env);
            && IsGrant(v, QUEUE, req.key, env[0].turn.candidate, "concurrency_limiter")
            && after == Remove(Found(mid, env[1..]), "backlog:" + req.key, backlog)
  {
    var token := env[0].turn.candidate;
    CL.Unfold(CL.Waiting(backlog), cfg, req, db, env, Reply(true, token), mid);
    GivesBack(backlog, Grant(QUEUE, req.key, token, "concurrency_limiter"), cfg, req, mid, env[1..]);
  }

  /** The deadline and a cancelled context end it too, and give the place back. */
  lemma WaitEnds(backlog: Token, cfg: CL.SlotConfig, req: Request, db: Db, env: seq<Slice>)
    requires Answered(env, 2) && !env[0].turn.wake.Tick?
    ensures var (v, after, rest) := CL.Drive(CL.Waiting(backlog), cfg, req, db, env);
            && (env[0].turn.wake.Deadline? ==> Refused429(v, cfg.maxDurationMs))
            && (env[0].turn.wake.Cancel? ==> v == Failed(ContextCanceled))
            && after == Remove(Found(Found(db, env), env[1..]), "backlog:" + req.key, backlog)
            && rest == env[2..]
  {
    var v := if env[0].turn.wake.Deadline? then Plain(REJECT_429, cfg.maxDurationMs, "concurrency_limiter")
             else Failed(ContextCanceled);
    CL.Unfold(CL.Waiting(backlog), cfg, req, db, env, Reply(false, ""), Found(db, env));
    GivesBack(backlog, v, cfg, req, Found(db, env), env[1..]);
    assert env[1..][1..] == env[2..];
  }

  lemma GivesBack(backlog: Token, v: Verdict, cfg: CL.SlotConfig, req: Request, db: Db, env: seq<Slice>)
    requires Answered(env, 1)
    ensures CL.Drive(CL.GivingBack(backlog, v), cfg, req, db, env)
         == (v, Remove(Found(db, env), "backlog:" + req.key, backlog), env[1..])
  {
    CL.Unfold(CL.GivingBack(backlog, v), cfg, req, db, env, Reply(true, backlog),
              Remove(Found(db, env), "backlog:" + req.key, backlog));
  }

  /** A first call that fails, before or after it was carried out, fails the Check. */
  lemma FailedCallFailsTheCheck(cfg: CL.SlotConfig, fleet: FS.FleetConfig, req: Request, db: Db, env: seq<Slice>)
    requires !req.skipReservations && env != [] && !env[0].turn.fault.Delivered?
    ensures CL.Drive(CL.Begin(req), cfg, req, db, env).0 == Failed(StoreFailed)
    ensures FS.Drive(FS.Begin(req), fleet, req, db, env).0 == Failed(StoreFailed)
  {}

  /** So does a later one: the second call of shadow mode, or the call for a place. */
  lemma FailedLaterCallFailsTheCheck(cfg: CL.SlotConfig, fleet: FS.FleetConfig, req: Request, db: Db,
      env: seq<Slice>)
    requires env != [] && !env[0].turn.fault.Delivered?
    ensures CL.Drive(CL.AskUnbounded, cfg, req, db, env).0 == Failed(StoreFailed)
    ensures CL.Drive(CL.AskBacklog, cfg, req, db, env).0 == Failed(StoreFailed)
    ensures FS.Drive(FS.AskFleetUnbounded, fleet, req, db, env).0 == Failed(StoreFailed)
  {}

  /** A poll that fails does as well, and the place is given back all the same. */
  lemma FailedPollEndsTheWait(backlog: Token, cfg: CL.SlotConfig, req: Request, db: Db, env: seq<Slice>)
      returns (mid: Db)
    requires |env| >= 2 && env[0].turn.wake.Tick? && !env[0].turn.fault.Delivered? && env[1].turn.fault.Delivered?
    ensures CL.Drive(CL.Waiting(backlog), cfg, req, db, env)
         == (Failed(StoreFailed), Remove(Found(mid, env[1..]), "backlog:" + req.key, backlog), env[2..])
    ensures env[0].turn.fault.NotExecuted? ==> mid == Found(db, env)
  {
    mid := Perform(Found(db, env), Incr(req.key, cfg.cap, cfg.maxDurationMs), env[0].turn).0;
    CL.Unfold(CL.Waiting(backlog), cfg, req, db, env, StoreError, mid);
    GivesBack(backlog, Failed(StoreFailed), cfg, req, mid, env[1..]);
    assert env[1..][1..] == env[2..];
  }

  /** Tier 3 admits a critical request while the fleet has a free place, and a sheddable
      one while one more would stay within the share that is not reserved. */
  predicate FleetHasRoom(running: nat, fleet: FS.FleetConfig, priority: Priority) {
    if priority.Critical? then running < fleet.cap
    else (running + 1) * 100 <= fleet.cap * (100 - fleet.reservedCriticalPct)
  }

  lemma FleetAdmitsExactlyWhen(fleet: FS.FleetConfig, req: Request, db: Db, env: seq<Slice>) returns (mid: Db)
    requires !req.skipReservations && Answered(env, 2)
    requires fleet.cap >= 0 && 0 <= fleet.reservedCriticalPct <= 100
    ensures var (v, after, rest) := FS.Drive(FS.Begin(req), fleet, req, db, env);
            var turn, found := env[0].turn, Found(db, env);
            var running := Running(At(found, "fleet"), fleet.maxDurationMs, turn.now);
            if FleetHasRoom(|running|, fleet, req.priority) then
              && IsGrant(v, ALLOW, "fleet", turn.candidate, "fleet_shedder")
              && Leaves(found, "fleet", running, {turn.candidate}, turn.now, after) && rest == env[1..]
            else
              && Leaves(found, "fleet", running, {}, turn.now, mid)
              && (!fleet.shadowMode ==>
                    v == Verdict(Decision(REJECT_503, 0, [], "fleet_shedder", 0, 0), NoError) && after == mid
                        && rest == env[1..])
              && (fleet.shadowMode ==> FleetShadow(fleet, mid, env[1..], v, after) && rest == env[2..])
  {
    var turn := env[0].turn;
    var share := FS.EffectiveCap(fleet, req.priority);
    ScriptGrantsExactlyWhen(Found(db, env), FLEET_KEY, share, fleet.maxDurationMs, turn.now, turn.candidate);
    RoomIsUnderTheShare(|Running(At(Found(db, env), FLEET_KEY), fleet.maxDurationMs, turn.now)|, fleet, req.priority);
    var reply;
    mid, reply := Script(Found(db, env), FLEET_KEY, share, fleet.maxDurationMs, turn.now, turn.candidate).0,
                  Script(Found(db, env), FLEET_KEY, share, fleet.maxDurationMs, turn.now, turn.candidate).1;
    FS.Unfold(FS.AskFleet, fleet, req, db, env, reply, mid);
    if !reply.allowed && fleet.shadowMode {
      SecondFleetCall(fleet, req, mid, env[1..]);
      assert env[1..][1..] == env[2..];
    }
  }

  lemma RoomIsUnderTheShare(running: nat, fleet: FS.FleetConfig, priority: Priority)
    requires fleet.cap >= 0 && 0 <= fleet.reservedCriticalPct <= 100
    ensures FleetHasRoom(running, fleet, priority) <==> running < FS.EffectiveCap(fleet, priority)
  {
    var product := fleet.cap * (100 - fleet.reservedCriticalPct);
    assert product >= 0;
  }

  /** Shadow mode takes a fleet place for the same lease all the same. */
  ghost predicate FleetShadow(fleet: FS.FleetConfig, db: Db, env: seq<Slice>, v: Verdict, after: Db)
    requires env != []
  {
    var turn, found := env[0].turn, Found(db, env);
    var running := Running(At(found, "fleet"), fleet.maxDurationMs, turn.now);
    if |running| < 0x7fff_ffff then
      && IsGrant(v, SHADOW_LOG, "fleet", turn.candidate, "fleet_shedder")
      && Leaves(found, "fleet", running, {turn.candidate}, turn.now, after)
    else
      && IsGrant(v, SHADOW_LOG, "fleet", "", "fleet_shedder")
      && Leaves(found, "fleet", running, {}, turn.now, after)
  }

  lemma SecondFleetCall(fleet: FS.FleetConfig, req: Request, db: Db, env: seq<Slice>)
    requires Answered(env, 1)
    ensures var (v, after, rest) := FS.Drive(FS.AskFleetUnbounded, fleet, req, db, env);
            FleetShadow(fleet, db, env, v, after) && rest == env[1..]
  {
    var turn := env[0].turn;
    ScriptGrantsExactlyWhen(Found(db, env), FLEET_KEY, 0x7fff_ffff, fleet.maxDurationMs, turn.now, turn.candidate);
    var (after, reply) := Script(Found(db, env), FLEET_KEY, 0x7fff_ffff, fleet.maxDurationMs, turn.now, turn.candidate);
    FS.Unfold(FS.AskFleetUnbounded, fleet, req, db, env, reply, after);
  }
}
