/** That things do happen: what a response's releases, a reload, an admin call and a
    request's own turns bring about, whatever else goes on in between. */
module ClusterEffects {
  import opened TokenStore
  import opened Limits
  import opened Configs
  import opened Cluster
  import opened ClusterLedger
  import ClusterBounds
  import CL = ConcurrencyLimiter
  import FS = FleetShedder
  import Pipelines
  import SlotOutcomes

  lemma {:induction false} DoneStays(s: System, events: seq<Event>, pid: Pid)
    requires pid in s.procs && s.procs[pid].stage.Done?
    ensures pid in Exec(s, events).procs && Exec(s, events).procs[pid] == s.procs[pid]
  {
    if events != [] {
      DoneStays(s, events[..|events| - 1], pid);
      DoneStaysNow(Exec(s, events[..|events| - 1]), events[|events| - 1], pid);
    }
  }

  lemma DoneStaysNow(s: System, e: Event, pid: Pid)
    requires pid in s.procs && s.procs[pid].stage.Done?
    ensures pid in Apply(s, e).procs && Apply(s, e).procs[pid] == s.procs[pid]
  {
    if e.Advance? {
      ClusterBounds.TurnKeepsConfig(s, e.pid, e.turn);
    }
  }

  ghost predicate Gone(s: System, k: Key, t: Token) {
    t in s.issued && t !in At(s.db, k)
  }

  /** A token that is out of a set never gets back into it. */
  lemma GoneStays(s: System, e: Event, k: Key, t: Token)
    requires Inv(s) && Gone(s, k, t)
    ensures Gone(Apply(s, e), k, t)
  {
    match e
    case Advance(pid, turn) =>
      if Moves(s, pid, turn) {
        var call, added := TurnShifts(s, pid, turn);
      } else {
        ClusterBounds.IdleTurnKeepsStore(s, pid, turn);
      }
    case ClientRelease(key, token) => ClusterBounds.ReleaseShrinks(s, key, token, k);
    case KeyExpiry(key) => ClusterBounds.ExpiryShrinks(s, key, k);
    case _ =>
  }

  /** A release takes the token out of the set it names, and no other token out of any. */
  lemma ReleaseTakesOut(s: System, key: Key, token: Token)
    requires ClientHas(s, token)
    ensures var s' := Apply(s, ClientRelease(key, token));
            && (forall k, t :: t in At(s'.db, k) <==> t in At(s.db, k) && !(k == key && t == token))
            && (forall k, t :: t in At(s'.db, k) ==> At(s'.db, k)[t] == At(s.db, k)[t])
  {}

  ghost predicate Answered(p: Proc) {
    p.stage.Done? && Answer(p).err.NoError?
  }

  /** Once a response's reservation has been released, in whatever order and whatever
      else happened, its token is out for good. */
  lemma {:induction false} ReleasedForGood(s: System, events: seq<Event>, pid: Pid, k: Key, t: Token)
    requires Inv(s) && pid in s.procs && Answered(s.procs[pid]) && (k, t) in Granted(Answer(s.procs[pid]))
    requires ClientRelease(k, t) in events
    ensures Inv(Exec(s, events)) && Gone(Exec(s, events), k, t)
  {
    var before, e := events[..|events| - 1], events[|events| - 1];
    var mid := Exec(s, before);
    ClusterBounds.InvKept(s, events);
    ClusterBounds.InvKept(s, before);
    if e == ClientRelease(k, t) {
      DoneStays(s, before, pid);
      GrantIsKnown(mid, pid, k, t);
      ReleaseTakesOut(mid, k, t);
    } else {
      assert ClientRelease(k, t) in before;
      ReleasedForGood(s, before, pid, k, t);
      GoneStays(mid, e, k, t);
    }
  }

  lemma GrantIsKnown(s: System, pid: Pid, k: Key, t: Token)
    requires Inv(s) && pid in s.procs && Answered(s.procs[pid]) && (k, t) in Granted(Answer(s.procs[pid]))
    ensures ClientHas(s, t) && t in s.issued
  {
    var p := s.procs[pid];
    Pipelines.EveryGrantIsReturned(p.stage.consulted);
    assert (k, t) in Held(p);
    assert Knows(p, t);
  }

  lemma LiveIsAnswered(s: System, pid: Pid, k: Key, t: Token)
    requires Inv(s) && pid in s.procs && s.procs[pid].stage.Done?
    requires t in At(s.db, k) && t in s.issued && s.issued[t].pid == pid && t !in s.lost
    ensures (k, t) in Granted(Answer(s.procs[pid]))
    ensures exists r :: r in Answer(s.procs[pid]).decision.reservations && r.key == k && r.token == t
  {
    LiveIsHeld(s, pid, k, t);
    Pipelines.EveryGrantIsReturned(s.procs[pid].stage.consulted);
    GrantedIsReserved(Answer(s.procs[pid]), k, t);
  }

  lemma LiveIsHeld(s: System, pid: Pid, k: Key, t: Token)
    requires Ledger(s) && Custody(s) && pid in s.procs
    requires t in At(s.db, k) && t in s.issued && s.issued[t].pid == pid && t !in s.lost
    ensures (k, t) in Held(s.procs[pid])
  {
    assert s.issued[t].key == k && t !in s.released + s.reaped;
  }

  lemma GrantedIsReserved(v: Verdict, k: Key, t: Token)
    requires (k, t) in Granted(v)
    ensures exists r :: r in v.decision.reservations && r.key == k && r.token == t
  {}

  /** A request that was answered, and whose client has released every reservation of the
      response, has nothing left in any set but tokens whose reply was lost. */
  lemma ReleasedRequestHoldsNothing(s: System, events: seq<Event>, pid: Pid, k: Key, t: Token)
    requires Inv(s) && pid in s.procs && Answered(s.procs[pid])
    requires forall r :: r in Answer(s.procs[pid]).decision.reservations ==> ClientRelease(r.key, r.token) in events
    requires var s' := Exec(s, events); t in At(s'.db, k) && t in s'.issued && s'.issued[t].pid == pid
    ensures t in Exec(s, events).lost
  {
    var s' := Exec(s, events);
    ClusterBounds.InvKept(s, events);
    DoneStays(s, events, pid);
    if t !in s'.lost {
      LiveIsAnswered(s', pid, k, t);
      ReleasedForGood(s, events, pid, k, t);
    }
  }

  /** The only configuration that a replica is told to take. */
  ghost predicate OnlyTakes(events: seq<Event>, r: Replica, cfg: Config) {
    && (forall e :: e in events && e.Reload? && e.replica == r ==> e.cfg == cfg)
    && (forall e :: e in events && e.SetReservedPct? ==> e.replica != r)
  }

  /** A valid reload is in force, whole, once each of the three tiers has been told, in
      whatever order and whatever requests run in between. */
  lemma ReloadTakesHold(s: System, events: seq<Event>, r: Replica, cfg: Config)
    requires r in s.replicas && Validate(cfg).Valid? && OnlyTakes(events, r, cfg)
    requires forall tier: Reloaded :: Reload(r, cfg, tier) in events
    ensures r in Exec(s, events).replicas && Exec(s, events).replicas[r] == cfg
  {
    InstalledSoFar(s, events, r, cfg, TierOne);
    InstalledSoFar(s, events, r, cfg, TierTwo);
    InstalledSoFar(s, events, r, cfg, TierThree);
  }

  predicate Installed(s: System, r: Replica, cfg: Config, tier: Reloaded) {
    && r in s.replicas
    && var now := s.replicas[r];
       match tier
       case TierOne => SameRates(now, cfg)
       case TierTwo => now.slots == cfg.slots
       case TierThree => now.fleet == cfg.fleet
  }

  lemma {:induction false} InstalledSoFar(s: System, events: seq<Event>, r: Replica, cfg: Config, tier: Reloaded)
    requires r in s.replicas && Validate(cfg).Valid? && OnlyTakes(events, r, cfg)
    ensures r in Exec(s, events).replicas
    ensures Reload(r, cfg, tier) in events ==> Installed(Exec(s, events), r, cfg, tier)
  {
    if events != [] {
      var before, e := events[..|events| - 1], events[|events| - 1];
      InstalledSoFar(s, before, r, cfg, tier);
      InstalledNow(Exec(s, before), e, r, cfg, tier);
      assert events == before + [e];
    }
  }

  lemma InstalledNow(s: System, e: Event, r: Replica, cfg: Config, tier: Reloaded)
    requires r in s.replicas && Validate(cfg).Valid? && OnlyTakes([e], r, cfg)
    ensures r in Apply(s, e).replicas
    ensures e == Reload(r, cfg, tier) || Installed(s, r, cfg, tier) ==> Installed(Apply(s, e), r, cfg, tier)
  {
    assert e in [e];
    if e.Advance? {
      ClusterBounds.TurnKeepsConfig(s, e.pid, e.turn);
    }
  }

  predicate SameRates(a: Config, b: Config) {
    a.defaultRate == b.defaultRate && a.defaultBurst == b.defaultBurst && a.rateShadowMode == b.rateShadowMode
  }

  ghost predicate LeavesAlone(events: seq<Event>, r: Replica) {
    forall e :: e in events && (e.Reload? || e.SetReservedPct?) ==> e.replica != r
  }

  /** While a replica's configuration is left alone, every Check that begins there works
      with that configuration: a slot check with its slots, a fleet check with its fleet. */
  lemma {:induction false} NewChecksUseWhatIsInForce(s: System, events: seq<Event>, r: Replica, pid: Pid)
    requires r in s.replicas && LeavesAlone(events, r)
    ensures var s' := Exec(s, events);
            && r in s'.replicas && s'.replicas[r] == s.replicas[r]
            && (pid in s'.procs && s'.procs[pid].replica == r ==> Uses(s, s'.procs[pid], pid, s.replicas[r]))
  {
    if events == [] {
    } else {
      var before, e := events[..|events| - 1], events[|events| - 1];
      var mid := Exec(s, before);
      NewChecksUseWhatIsInForce(s, before, r, pid);
      ReplicaIsKept(mid, e, pid);
      if pid in Apply(mid, e).procs {
        ClusterBounds.SnapshotsAreWhole(mid, e, pid);
      }
    }
  }

  /** What a request works with is cfg, unless it was at work in that tier before. */
  ghost predicate Uses(was: System, p: Proc, pid: Pid, cfg: Config) {
    && (p.stage.InSlot? && pid !in was.procs ==> p.stage.slotCfg == cfg.slots)
    && (p.stage.InFleet? && !(pid in was.procs && was.procs[pid].stage.InFleet?) ==> p.stage.fleetCfg == cfg.fleet)
  }

  lemma ReplicaIsKept(s: System, e: Event, pid: Pid)
    ensures e.Advance? ==> Apply(s, e).replicas == s.replicas
    ensures pid in s.procs ==> pid in Apply(s, e).procs && Apply(s, e).procs[pid].replica == s.procs[pid].replica
  {
    if e.Advance? {
      ClusterBounds.TurnKeepsConfig(s, e.pid, e.turn);
      if Moves(s, e.pid, e.turn) {
        TurnedDb(s, e.pid, e.turn);
      }
    }
  }

  /** How many turns a request still has to take, polls that find no free slot aside. */
  function Left(p: Proc): nat {
    match p.stage
    case InSlot(_, AskSlot) => 9
    case InSlot(_, AskUnbounded) => 8
    case InSlot(_, AskBacklog) => 8
    case InSlot(_, Waiting(_)) => 7
    case InSlot(_, GivingBack(_, _)) => 6
    case InSlot(_, Returned(_)) => 5
    case BetweenTiers(_) => 4
    case InFleet(_, _, AskFleet) => 3
    case InFleet(_, _, AskFleetUnbounded) => 2
    case InFleet(_, _, Returned(_)) => 1
    case Done(_) => 0
  }

  /** A turn of the request's own: not yet done, and with a fresh token if it asks for one. */
  predicate Turns(s: System, e: Event, pid: Pid) {
    && e.Advance? && e.pid == pid && pid in s.procs && !s.procs[pid].stage.Done?
    && FreshCandidate(s, NextCall(s.procs[pid], e.turn.wake), e.turn)
  }

  /** A poll that is carried out while as many leases as the cap allows are running. */
  predicate FruitlessPoll(s: System, e: Event, pid: Pid) {
    && Turns(s, e, pid) && s.procs[pid].stage.InSlot? && s.procs[pid].stage.slot.Waiting?
    && e.turn.wake.Tick? && e.turn.fault.Delivered?
    && var cfg := s.procs[pid].stage.slotCfg;
       |SlotOutcomes.Running(At(s.db, s.procs[pid].req.key), cfg.maxDurationMs, e.turn.now)| >= cfg.cap
  }

  function TurnsTaken(s: System, events: seq<Event>, pid: Pid): nat {
    if events == [] then 0
    else
      var before := events[..|events| - 1];
      TurnsTaken(s, before, pid) + if Turns(Exec(s, before), events[|events| - 1], pid) then 1 else 0
  }

  function FruitlessPolls(s: System, events: seq<Event>, pid: Pid): nat {
    if events == [] then 0
    else
      var before := events[..|events| - 1];
      FruitlessPolls(s, before, pid) + if FruitlessPoll(Exec(s, before), events[|events| - 1], pid) then 1 else 0
  }

  predicate AtHome(s: System, pid: Pid) {
    pid in s.procs && s.procs[pid].replica in s.replicas
  }

  lemma StaysAtHome(s: System, e: Event, pid: Pid)
    requires AtHome(s, pid)
    ensures AtHome(Apply(s, e), pid)
  {
    ReplicaIsKept(s, e, pid);
  }

  /** Every turn of its own brings a request nearer to its end, except a fruitless poll,
      and nobody else's turn takes it further away. */
  lemma TurnCounts(s: System, e: Event, pid: Pid)
    requires AtHome(s, pid)
    ensures AtHome(Apply(s, e), pid)
    ensures var left, now := Left(s.procs[pid]), Left(Apply(s, e).procs[pid]);
            if Turns(s, e, pid) && !FruitlessPoll(s, e, pid) then now < left else now == left
  {
    StaysAtHome(s, e, pid);
    if e.Advance? {
      ClusterBounds.TurnKeepsConfig(s, e.pid, e.turn);
      if e.pid == pid && Moves(s, pid, e.turn) {
        MoveCounts(s, e.turn, pid);
      }
    }
  }

  lemma MoveCounts(s: System, turn: Turn, pid: Pid)
    requires Moves(s, pid, turn)
    ensures var e := Advance(pid, turn);
            var left, now := Left(s.procs[pid]), Left(Apply(s, e).procs[pid]);
            if FruitlessPoll(s, e, pid) then now == left else now < left
  {
    var p := s.procs[pid];
    var call := NextCall(p, turn.wake);
    TurnedDb(s, pid, turn);
    ReplyCounts(p, turn.wake, Perform(s.db, call, turn).1);
    if AwaitsTick(p, turn.wake) {
      PollRefused(s.db, p.stage.slotCfg, p.req.key, turn);
    }
  }

  predicate AwaitsTick(p: Proc, wake: Wake) {
    p.stage.InSlot? && p.stage.slot.Waiting? && wake.Tick?
  }

  lemma ReplyCounts(p: Proc, wake: Wake, reply: Reply)
    requires !p.stage.Done? && !p.stage.BetweenTiers?
    ensures var left, now := Left(p), Left(OnReply(p, wake, reply));
            if AwaitsTick(p, wake) && reply.Reply? && !reply.allowed then now == left else now < left
  {}

  lemma PollRefused(db: Db, cfg: CL.SlotConfig, key: Key, turn: Turn)
    ensures var reply := Perform(db, Incr(key, cfg.cap, cfg.maxDurationMs), turn).1;
            reply.Reply? && !reply.allowed <==>
              && turn.fault.Delivered?
              && |SlotOutcomes.Running(At(db, key), cfg.maxDurationMs, turn.now)| >= cfg.cap
  {
    SlotOutcomes.ScriptGrantsExactlyWhen(db, key, cfg.cap, cfg.maxDurationMs, turn.now, turn.candidate);
  }

  lemma {:induction false} TurnsAddUp(s: System, events: seq<Event>, pid: Pid)
    requires AtHome(s, pid)
    ensures AtHome(Exec(s, events), pid)
    ensures TurnsTaken(s, events, pid) + Left(Exec(s, events).procs[pid])
         <= Left(s.procs[pid]) + FruitlessPolls(s, events, pid)
  {
    if events != [] {
      TurnsAddUp(s, events[..|events| - 1], pid);
      TurnCounts(Exec(s, events[..|events| - 1]), events[|events| - 1], pid);
    }
  }

  /** No request is ever stuck: in any interleaving, one that has taken nine turns more
      than it had fruitless polls is done. */
  lemma RequestsFinish(s: System, events: seq<Event>, pid: Pid)
    requires AtHome(s, pid) && TurnsTaken(s, events, pid) >= 9 + FruitlessPolls(s, events, pid)
    ensures pid in Exec(s, events).procs && Exec(s, events).procs[pid].stage.Done?
  {
    TurnsAddUp(s, events, pid);
    assert Left(Exec(s, events).procs[pid]) == 0;
  }
}
