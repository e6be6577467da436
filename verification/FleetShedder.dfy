/** Tier 3: one fleet-wide cap, with a share of it reserved for critical requests. */
module FleetShedder {
  import opened TokenStore
  import opened Limits
  import opened GoArith
  import CL = ConcurrencyLimiter

  const TIER := "fleet_shedder"

  datatype FleetConfig = FleetConfig(cap: int, reservedCriticalPct: int, maxDurationMs: int, shadowMode: bool)

  function EffectiveCap(cfg: FleetConfig, priority: Priority): int {
    if priority.Critical? then cfg.cap else TruncDiv(cfg.cap * (100 - cfg.reservedCriticalPct), 100)
  }

  datatype FleetState = AskFleet | AskFleetUnbounded | Returned(verdict: Verdict)

  function Begin(req: Request): FleetState {
    if req.skipReservations then Returned(Plain(ALLOW, 0, "")) else AskFleet
  }

  const SHED := Plain(REJECT_503, 0, TIER)

  function NextCall(st: FleetState, cfg: FleetConfig, req: Request): Call {
    match st
    case AskFleet => Incr(FLEET_KEY, EffectiveCap(cfg, req.priority), cfg.maxDurationMs)
    case AskFleetUnbounded => Incr(FLEET_KEY, UNBOUNDED_CAP, cfg.maxDurationMs)
    case Returned(_) => NoCall
  }

  function OnReply(st: FleetState, cfg: FleetConfig, reply: Reply): FleetState {
    match st
    case AskFleet =>
      if reply.StoreError? then Returned(Failed(StoreFailed))
      else if reply.allowed then Returned(Grant(ALLOW, FLEET_KEY, reply.token, TIER))
      else if cfg.shadowMode then AskFleetUnbounded
      else Returned(SHED)
    case AskFleetUnbounded =>
      if reply.StoreError? then Returned(Failed(StoreFailed))
      else Returned(Grant(SHADOW_LOG, FLEET_KEY, reply.token, TIER))
    case Returned(_) => st
  }

  function Step(st: FleetState, cfg: FleetConfig, req: Request, db: Db, turn: Turn): (FleetState, Db) {
    var (after, reply) := Perform(db, NextCall(st, cfg, req), turn);
    (OnReply(st, cfg, reply), after)
  }

  function Rank(st: FleetState): nat {
    match st
    case AskFleet => 2
    case AskFleetUnbounded => 1
    case Returned(_) => 0
  }

  function Drive(st: FleetState, cfg: FleetConfig, req: Request, db: Db, env: seq<Slice>): (Verdict, Db, seq<Slice>)
    decreases Rank(st)
  {
    if st.Returned? then (st.verdict, db, env)
    else
      var slice := CL.Head(env);
      var (next, after) := Step(st, cfg, req, ApplyOps(db, slice.others), slice.turn);
      Drive(next, cfg, req, after, CL.Tail(env))
  }

  lemma Unfold(st: FleetState, cfg: FleetConfig, req: Request, db: Db, env: seq<Slice>, reply: Reply, after: Db)
    requires !st.Returned?
    requires var slice := CL.Head(env);
             (after, reply) == Perform(ApplyOps(db, slice.others), NextCall(st, cfg, req), slice.turn)
    ensures var next := OnReply(st, cfg, reply);
            && Drive(st, cfg, req, db, env) == Drive(next, cfg, req, after, CL.Tail(env))
            && (next.Returned? ==> Drive(st, cfg, req, db, env) == (next.verdict, after, CL.Tail(env)))
  {}

  function Held(st: FleetState): set<(Key, Token)> {
    if st.Returned? then Granted(st.verdict) else {}
  }

  predicate WellFormed(st: FleetState, req: Request) {
    if st.Returned? then Honest(st.verdict, FLEET_KEY, req.skipReservations) else !req.skipReservations
  }

  lemma NothingLostNothingInvented(st: FleetState, cfg: FleetConfig, req: Request, reply: Reply)
    requires WellFormed(st, req)
    ensures WellFormed(OnReply(st, cfg, reply), req)
    requires NextCall(st, cfg, req).Incr? && reply.Reply? ==> (reply.allowed <==> reply.token != "")
    ensures var call := NextCall(st, cfg, req);
            Held(OnReply(st, cfg, reply)) == Held(st) + CL.Gain(call, reply)
  {
    if reply.Reply? {
      GrantGranted(ALLOW, reply.token);
      GrantGranted(SHADOW_LOG, reply.token);
    }
  }

  lemma GrantGranted(action: Action, token: Token)
    ensures Granted(Grant(action, FLEET_KEY, token, TIER)) == if token == "" then {} else {(FLEET_KEY, token)}
  {
    var r := TokenReservation(FLEET_KEY, token);
    assert Grant(action, FLEET_KEY, token, TIER).decision.reservations == [r];
  }

  /** What rounding the sheddable share down leaves for critical requests is
      their share rounded up, for every cap and every percentage. */
  lemma HeadroomRoundsUp(cfg: FleetConfig)
    requires cfg.cap >= 0 && 0 <= cfg.reservedCriticalPct <= 100
    ensures var sheddable := EffectiveCap(cfg, Sheddable);
            && 0 <= sheddable <= cfg.cap
            && cfg.cap - sheddable == (cfg.cap * cfg.reservedCriticalPct + 99) / 100
  {
    var total := cfg.cap * 100;
    var reserved := cfg.cap * cfg.reservedCriticalPct;
    assert cfg.cap * (100 - cfg.reservedCriticalPct) == total - reserved;
    assert reserved <= total;
  }

  class FleetShedder {
    const store: RedisStore
    var cap: int
    var reservedCriticalPct: int
    var maxDurationMs: int
    var shadowMode: bool

    constructor (store: RedisStore, cap: int, reservedCriticalPct: int, maxDurationMs: int, shadowMode: bool)
      ensures this.store == store
      ensures Config() == FleetConfig(cap, reservedCriticalPct, maxDurationMs, shadowMode)
    {
      this.store := store;
      this.cap := cap;
      this.reservedCriticalPct := reservedCriticalPct;
      this.maxDurationMs := maxDurationMs;
      this.shadowMode := shadowMode;
    }

    function Config(): FleetConfig
      reads this
    {
      FleetConfig(cap, reservedCriticalPct, maxDurationMs, shadowMode)
    }

    method Reconfigure(cap: int, reservedCriticalPct: int, maxDurationMs: int, shadowMode: bool)
      modifies this
      ensures Config() == FleetConfig(cap, reservedCriticalPct, maxDurationMs, shadowMode)
    {
      this.cap := cap;
      this.reservedCriticalPct := reservedCriticalPct;
      this.maxDurationMs := maxDurationMs;
      this.shadowMode := shadowMode;
    }

    method SetReservedCriticalPct(pct: int) returns (previous: int, ok: bool)
      modifies this
      ensures ok <==> 0 <= pct <= 100
      ensures Config() == if ok then old(Config()).(reservedCriticalPct := pct) else old(Config())
      ensures previous == if ok then old(reservedCriticalPct) else 0
    {
      if pct < 0 || pct > 100 {
        return 0, false;
      }
      previous := reservedCriticalPct;
      reservedCriticalPct := pct;
      ok := true;
    }

    method Check(req: Request, env: seq<Slice>) returns (v: Verdict, rest: seq<Slice>)
      modifies store
      ensures (v, store.db, rest) == Drive(Begin(req), Config(), req, old(store.db), env)
    {
      if req.skipReservations {
        return Plain(ALLOW, 0, ""), env;
      }
      var cfg := Config();
      ghost var was := store.db;
      rest := env;

      var effectiveCap := cfg.cap;
      if req.priority != Critical {
        effectiveCap := TruncDiv(cfg.cap * (100 - cfg.reservedCriticalPct), 100);
      }

      var reply := store.IncrConcurrent(FLEET_KEY, effectiveCap, cfg.maxDurationMs, CL.Head(rest));
      Unfold(AskFleet, cfg, req, was, rest, reply, store.db);
      rest := CL.Tail(rest);
      if reply.StoreError? {
        return Failed(StoreFailed), rest;
      }
      if reply.allowed {
        return Grant(ALLOW, FLEET_KEY, reply.token, TIER), rest;
      }

      if cfg.shadowMode {
        was := store.db;
        reply := store.IncrConcurrent(FLEET_KEY, UNBOUNDED_CAP, cfg.maxDurationMs, CL.Head(rest));
        Unfold(AskFleetUnbounded, cfg, req, was, rest, reply, store.db);
        rest := CL.Tail(rest);
        if reply.StoreError? {
          return Failed(StoreFailed), rest;
        }
        return Grant(SHADOW_LOG, FLEET_KEY, reply.token, TIER), rest;
      }

      return Plain(REJECT_503, 0, TIER), rest;
    }
  }
}
