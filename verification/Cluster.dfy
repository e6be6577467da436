/** Any number of requests, on any number of core replicas, interleaving their store
    calls over the one shared store.

    A run is any sequence of events. An event that is not possible in the current
    state changes nothing, so theorems about `Exec` quantify over every sequence. */
module Cluster {
  import opened TokenStore
  import opened Limits
  import opened Configs
  import CL = ConcurrencyLimiter
  import FS = FleetShedder
  import Pipelines

  type Pid = nat
  type Replica = nat

  /** Where a request stands in the pipeline, between two store calls. Each tier's
      configuration is the snapshot its Check took on entry. */
  datatype Stage =
    | InSlot(slotCfg: CL.SlotConfig, slot: CL.SlotState)
    | BetweenTiers(first: Verdict)
    | InFleet(first: Verdict, fleetCfg: FS.FleetConfig, fleet: FS.FleetState)
    | Done(consulted: seq<Verdict>)

  /** tierOne is the rate limiter's answer, which reserves nothing in the token store. */
  datatype Proc = Proc(replica: Replica, req: Request, tierOne: Verdict, stage: Stage)

  /** Where a token came from: the set it was added to, and the request that asked. */
  datatype Origin = Origin(key: Key, pid: Pid, priority: Priority)

  /** The store and the requests, with the history of every token ever added:
      which tokens a ZREM took out, which ones expiry took out, and which ones
      nobody can release because the reply or the release carrying them was lost. */
  datatype System = System(
    db: Db,
    replicas: map<Replica, Config>,
    procs: map<Pid, Proc>,
    issued: map<Token, Origin>,
    released: set<Token>,
    reaped: set<Token>,
    lost: set<Token>)

  /** A reload installs a new configuration one tier after the other, and requests
      may run in between. */
  datatype Reloaded = TierOne | TierTwo | TierThree

  function Install(was: Config, now: Config, tier: Reloaded): Config {
    match tier
    case TierOne =>
      was.(defaultRate := now.defaultRate, defaultBurst := now.defaultBurst, rateShadowMode := now.rateShadowMode)
    case TierTwo => was.(slots := now.slots)
    case TierThree => was.(fleet := now.fleet)
  }

  datatype Event =
    | Arrive(pid: Pid, replica: Replica, req: Request, tierOne: Verdict)
    | Advance(pid: Pid, turn: Turn)
    | ClientRelease(key: Key, token: Token)
    | KeyExpiry(key: Key)
    | Reload(replica: Replica, cfg: Config, tier: Reloaded)
    | SetReservedPct(replica: Replica, pct: int)

  function Start(replicas: map<Replica, Config>): System {
    System(map[], replicas, map[], map[], {}, {}, {})
  }

  function NextCall(p: Proc, wake: Wake): Call {
    match p.stage
    case InSlot(cfg, st) => CL.NextCall(st, cfg, p.req, wake)
    case InFleet(_, cfg, st) => FS.NextCall(st, cfg, p.req)
    case _ => NoCall
  }

  /** What the pipeline answers a finished request. */
  function Answer(p: Proc): Verdict
    requires p.stage.Done?
  {
    Pipelines.Summary(p.stage.consulted)
  }

  /** The stage after a turn; a request is done once a tier stops it or none is left. */
  function OnReply(p: Proc, wake: Wake, reply: Reply): Proc {
    match p.stage
    case InSlot(cfg, st) =>
      if !st.Returned? then p.(stage := InSlot(cfg, CL.OnReply(st, cfg, p.req, wake, reply)))
      else if Passes(st.verdict) then p.(stage := BetweenTiers(st.verdict))
      else p.(stage := Done([p.tierOne, st.verdict]))
    case InFleet(first, cfg, st) =>
      if !st.Returned? then p.(stage := InFleet(first, cfg, FS.OnReply(st, cfg, reply)))
      else p.(stage := Done([p.tierOne, first, st.verdict]))
    case _ => p
  }

  /** The store after a call, and the history entries the call makes. */
  function Record(s: System, pid: Pid, priority: Priority, call: Call, turn: Turn, after: Db): System {
    match call
    case NoCall => s
    case Incr(key, _, _) =>
      if turn.fault.NotExecuted? then s
      else
        var added := turn.candidate in At(after, key);
        s.(db := after,
           issued := if added then s.issued[turn.candidate := Origin(key, pid, priority)] else s.issued,
           reaped := s.reaped + (At(s.db, key).Keys - At(after, key).Keys),
           lost := if added && turn.fault.ReplyLost? then s.lost + {turn.candidate} else s.lost)
    case Decr(key, token) =>
      if turn.fault.NotExecuted? then s.(lost := s.lost + {token})
      else s.(db := after, released := s.released + (At(s.db, key).Keys - At(after, key).Keys))
  }

  /** Candidate tokens carry a fresh UUID: never blank, never issued before. */
  predicate FreshCandidate(s: System, call: Call, turn: Turn) {
    call.Incr? ==> turn.candidate != "" && turn.candidate !in s.issued
  }

  function StepProc(s: System, pid: Pid, turn: Turn): System {
    if pid !in s.procs then s
    else
      var p := s.procs[pid];
      var call := NextCall(p, turn.wake);
      if p.stage.Done? || !FreshCandidate(s, call, turn) then s
      else if p.stage.BetweenTiers? then
        if p.replica !in s.replicas then s
        else
          var cfg := s.replicas[p.replica].fleet;
          s.(procs := s.procs[pid := p.(stage := InFleet(p.stage.first, cfg, FS.Begin(p.req)))])
      else
        var (after, reply) := Perform(s.db, call, turn);
        Record(s, pid, p.req.priority, call, turn, after).(procs := s.procs[pid := OnReply(p, turn.wake, reply)])
  }

  /** The response of a finished request carries its reservations, unless it failed:
      a failed request's decision never leaves the core. */
  predicate Knows(p: Proc, token: Token) {
    && p.stage.Done?
    && Answer(p).err.NoError?
    && exists r :: r in Answer(p).decision.reservations && r.token == token
  }

  /** Tokens are signed, so a client can only name one that some response carried;
      it may name it with any key, and any number of times. */
  predicate ClientHas(s: System, token: Token) {
    token != "" && exists pid :: pid in s.procs && Knows(s.procs[pid], token)
  }

  function Apply(s: System, e: Event): System {
    match e
    case Arrive(pid, replica, req, tierOne) =>
      if pid in s.procs || replica !in s.replicas || tierOne.decision.reservations != [] || !tierOne.err.NoError? then s
      else
        var stage :=
          if Passes(tierOne) then InSlot(s.replicas[replica].slots, CL.Begin(req))
          else Done([tierOne]);
        s.(procs := s.procs[pid := Proc(replica, req, tierOne, stage)])
    case Advance(pid, turn) => StepProc(s, pid, turn)
    case ClientRelease(key, token) =>
      if !ClientHas(s, token) then s
      else
        var after := Remove(s.db, key, token);
        s.(db := after, released := s.released + (At(s.db, key).Keys - At(after, key).Keys))
    case KeyExpiry(key) =>
      s.(db := s.db - {key}, reaped := s.reaped + At(s.db, key).Keys)
    case Reload(replica, cfg, tier) =>
      if replica in s.replicas && Validate(cfg).Valid? then
        s.(replicas := s.replicas[replica := Install(s.replicas[replica], cfg, tier)])
      else s
    case SetReservedPct(replica, pct) =>
      if replica in s.replicas && 0 <= pct <= 100 then
        var cfg := s.replicas[replica];
        s.(replicas := s.replicas[replica := cfg.(fleet := cfg.fleet.(reservedCriticalPct := pct))])
      else s
  }

  function Exec(s: System, events: seq<Event>): System {
    if events == [] then s
    else Apply(Exec(s, events[..|events| - 1]), events[|events| - 1])
  }

  /** What a request holds in the store. */
  function Held(p: Proc): set<(Key, Token)> {
    match p.stage
    case InSlot(_, st) => CL.Held(st, p.req)
    case BetweenTiers(first) => Granted(first)
    case InFleet(first, _, st) => Granted(first) + FS.Held(st)
    case Done(consulted) => Pipelines.GrantedByAll(consulted)
  }
}
