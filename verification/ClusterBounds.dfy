/** The bounds that every interleaving respects: slots, backlogs, the fleet cap and
    its critical headroom, before and after configuration reloads. */
module ClusterBounds {
  import opened TokenStore
  import opened Limits
  import opened Configs
  import opened Cluster
  import opened ClusterLedger
  import opened ClusterConservation
  import CL = ConcurrencyLimiter
  import FS = FleetShedder

  function Max(a: int, b: int): int {
    if a < b then b else a
  }

  /** The call an event makes, if it is a request's turn and makes one. */
  function CallOf(s: System, e: Event): Call {
    if e.Advance? && Moves(s, e.pid, e.turn) then NextCall(s.procs[e.pid], e.turn.wake) else NoCall
  }

  /** Only a request's own call can make a token set grow, and never past that call's cap. */
  lemma GrowthNeedsCap(s: System, e: Event, k: Key)
    requires Inv(s)
    ensures |At(Apply(s, e).db, k)| <= |At(s.db, k)|
         || (CallOf(s, e).Incr? && CallOf(s, e).key == k && |At(Apply(s, e).db, k)| <= CallOf(s, e).cap)
  {
    match e
    case Advance(pid, turn) =>
      if Moves(s, pid, turn) {
        TurnBounds(s, pid, turn, k);
      } else {
        IdleTurnKeepsStore(s, pid, turn);
      }
    case ClientRelease(key, token) => ReleaseShrinks(s, key, token, k);
    case KeyExpiry(key) => ExpiryShrinks(s, key, k);
    case _ =>
  }

  lemma IdleTurnKeepsStore(s: System, pid: Pid, turn: Turn)
    requires !Moves(s, pid, turn)
    ensures var s' := Apply(s, Advance(pid, turn)); s'.db == s.db && s'.issued == s.issued
  {}

  lemma ReleaseShrinks(s: System, key: Key, token: Token, k: Key)
    ensures var s' := Apply(s, ClientRelease(key, token));
            s'.issued == s.issued && At(s'.db, k).Keys <= At(s.db, k).Keys && |At(s'.db, k)| <= |At(s.db, k)|
  {
    var s' := Apply(s, ClientRelease(key, token));
    assert s'.issued == s.issued && (s'.db == s.db || s'.db == Remove(s.db, key, token));
    RemovalShrinks(s.db, key, token, k);
  }

  lemma RemovalShrinks(db: Db, key: Key, token: Token, k: Key)
    ensures At(Remove(db, key, token), k).Keys <= At(db, k).Keys && |At(Remove(db, key, token), k)| <= |At(db, k)|
  {
    RemoveSmaller(db, key, token);
  }

  lemma ExpiryShrinks(s: System, key: Key, k: Key)
    ensures var s' := Apply(s, KeyExpiry(key));
            s'.issued == s.issued && At(s'.db, k).Keys <= At(s.db, k).Keys && |At(s'.db, k)| <= |At(s.db, k)|
  {
    assert At(s.db - {key}, k) == if k == key then map[] else At(s.db, k);
  }

  lemma TurnBounds(s: System, pid: Pid, turn: Turn, k: Key)
    requires Ledger(s) && Moves(s, pid, turn)
    ensures var call := NextCall(s.procs[pid], turn.wake);
            var size := |At(Apply(s, Advance(pid, turn)).db, k)|;
            && (size <= |At(s.db, k)| || (call.Incr? && call.key == k && size <= call.cap))
            && (call.Incr? && call.key == k && turn.candidate in At(Apply(s, Advance(pid, turn)).db, k)
                ==> size <= call.cap)
  {
    TurnedDb(s, pid, turn);
    PerformBounds(s.db, NextCall(s.procs[pid], turn.wake), turn, k);
  }

  /** Nobody can ask for more than c slots or b backlog places any more: neither a
      replica's current configuration nor any snapshot still in use allows it. */
  ghost predicate Within(s: System, c: nat, b: nat) {
    && (forall r :: r in s.replicas ==> SlotsWithin(s.replicas[r].slots, c, b))
    && (forall pid :: pid in s.procs && s.procs[pid].stage.InSlot? ==>
          SlotsWithin(s.procs[pid].stage.slotCfg, c, b) && !s.procs[pid].stage.slot.AskUnbounded?)
  }

  predicate SlotsWithin(cfg: CL.SlotConfig, c: nat, b: nat) {
    cfg.cap <= c && cfg.maxBacklog <= b && !cfg.shadowMode
  }

  ghost predicate KeepsWithin(e: Event, c: nat, b: nat) {
    e.Reload? && e.tier.TierTwo? ==> SlotsWithin(e.cfg.slots, c, b)
  }

  lemma WithinPreserved(s: System, e: Event, c: nat, b: nat)
    requires Within(s, c, b) && KeepsWithin(e, c, b)
    ensures Within(Apply(s, e), c, b)
  {
    match e
    case Advance(pid, turn) => TurnKeepsConfig(s, pid, turn);
    case _ =>
  }

  predicate KeepsSlotSnapshot(was: Stage, now: Stage)
    requires was.InSlot? && now.InSlot?
  {
    && now.slotCfg == was.slotCfg
    && (now.slot.AskUnbounded? ==> now.slotCfg.shadowMode || was.slot.AskUnbounded?)
  }

  predicate KeepsFleetSnapshot(was: Stage, now: Stage)
    requires was.InFleet? && now.InFleet?
  {
    && now.fleetCfg == was.fleetCfg
    && (now.fleet.AskFleetUnbounded? ==> now.fleetCfg.shadowMode || was.fleet.AskFleetUnbounded?)
  }

  predicate EntersFleet(s: System, was: Proc, now: Stage)
    requires now.InFleet?
  {
    was.replica in s.replicas && now.fleetCfg == s.replicas[was.replica].fleet && !now.fleet.AskFleetUnbounded?
  }

  /** A turn changes no configuration, and a request keeps the snapshot it took: no
      reload or admin call is ever seen half-way through a Check. */
  lemma TurnKeepsConfig(s: System, pid: Pid, turn: Turn)
    ensures var s' := Apply(s, Advance(pid, turn));
            && s'.replicas == s.replicas
            && s'.procs.Keys == s.procs.Keys
            && (forall q :: q in s.procs && q != pid ==> s'.procs[q] == s.procs[q])
            && (pid in s.procs ==> KeepsSnapshots(s, s.procs[pid], s'.procs[pid]))
  {
    if Moves(s, pid, turn) {
      TurnedDb(s, pid, turn);
      ReplyKeepsSnapshots(s, s.procs[pid], turn.wake, Perform(s.db, NextCall(s.procs[pid], turn.wake), turn).1);
    }
  }

  predicate KeepsSnapshots(s: System, was: Proc, now: Proc) {
    && now.req == was.req
    && (now.stage.InSlot? ==> was.stage.InSlot? && KeepsSlotSnapshot(was.stage, now.stage))
    && (now.stage.InFleet? && was.stage.InFleet? ==> KeepsFleetSnapshot(was.stage, now.stage))
    && (now.stage.InFleet? && !was.stage.InFleet? ==> EntersFleet(s, was, now.stage))
  }

  lemma ReplyKeepsSnapshots(s: System, p: Proc, wake: Wake, reply: Reply)
    ensures KeepsSnapshots(s, p, OnReply(p, wake, reply))
  {}

  /** The snapshot is the replica's configuration at the moment of entry, whole. */
  lemma SnapshotsAreWhole(s: System, e: Event, pid: Pid)
    requires pid in Apply(s, e).procs
    ensures var now := Apply(s, e).procs[pid];
            && (now.stage.InSlot? && pid !in s.procs
                ==> now.replica in s.replicas && now.stage.slotCfg == s.replicas[now.replica].slots)
            && (now.stage.InSlot? && pid in s.procs
                ==> s.procs[pid].stage.InSlot? && now.stage.slotCfg == s.procs[pid].stage.slotCfg)
            && (now.stage.InFleet? && pid in s.procs && s.procs[pid].stage.InFleet?
                ==> now.stage.fleetCfg == s.procs[pid].stage.fleetCfg)
            && (now.stage.InFleet? && !(pid in s.procs && s.procs[pid].stage.InFleet?) ==>
                  now.replica in s.replicas && now.stage.fleetCfg == s.replicas[now.replica].fleet)
  {
    if e.Advance? {
      TurnKeepsConfig(s, e.pid, e.turn);
    }
  }

  /** Which cap a request asks for depends only on the kind of key it asks about. */
  lemma SlotCallCap(p: Proc, wake: Wake, k: Key)
    requires PlainKey(k) && NextCall(p, wake).Incr? && NextCall(p, wake).key == k
    ensures p.stage.InSlot? && p.req.key == k
    ensures NextCall(p, wake).cap == if p.stage.slot.AskUnbounded? then UNBOUNDED_CAP else p.stage.slotCfg.cap
  {
    KeySpacesDisjoint(k);
  }

  lemma BacklogCallCap(p: Proc, wake: Wake, k: Key)
    requires PlainKey(p.req.key) && NextCall(p, wake).Incr? && NextCall(p, wake).key == BacklogKey(k)
    ensures p.stage.InSlot? && p.req.key == k && p.stage.slot.AskBacklog?
        && NextCall(p, wake).cap == p.stage.slotCfg.maxBacklog
  {
    KeySpacesDisjoint(k);
    KeySpacesDisjoint(p.req.key);
  }

  /** Every grant that shadow mode did not force leaves the set no larger than the cap
      in the request's own snapshot. */
  lemma GrantWithinSnapshot(s: System, pid: Pid, turn: Turn)
    requires Inv(s) && Moves(s, pid, turn) && turn.fault.Delivered?
    requires s.procs[pid].stage.InSlot?
    requires s.procs[pid].stage.slot.AskSlot? || (s.procs[pid].stage.slot.Waiting? && turn.wake.Tick?)
    ensures var s' := Apply(s, Advance(pid, turn));
            var key := s.procs[pid].req.key;
            turn.candidate in At(s'.db, key) ==> |At(s'.db, key)| <= s.procs[pid].stage.slotCfg.cap
  {
    TurnBounds(s, pid, turn, s.procs[pid].req.key);
  }

  /** Lowering the cap: once no configuration or snapshot in use exceeds c, a key's
      slot set never grows while it holds c tokens or more. */
  lemma NoGrowthAtOrAboveCap(s: System, e: Event, k: Key, c: nat, b: nat)
    requires Inv(s) && Within(s, c, b) && PlainKey(k)
    requires |At(s.db, k)| >= c
    ensures |At(Apply(s, e).db, k)| <= |At(s.db, k)|
  {
    GrowthNeedsCap(s, e, k);
    if CallOf(s, e).Incr? && CallOf(s, e).key == k {
      SlotCallCap(s.procs[e.pid], e.turn.wake, k);
    }
  }

  /** From any reachable state and over any further run. */
  lemma {:induction false} SlotsBounded(s: System, events: seq<Event>, k: Key, c: nat, b: nat)
    requires Inv(s) && Within(s, c, b) && PlainKey(k)
    requires forall e :: e in events ==> KeepsWithin(e, c, b)
    ensures var s' := Exec(s, events);
            Inv(s') && Within(s', c, b) && |At(s'.db, k)| <= Max(|At(s.db, k)|, c)
  {
    if events == [] {
    } else {
      var before, e := events[..|events| - 1], events[|events| - 1];
      SlotsBounded(s, before, k, c, b);
      var mid := Exec(s, before);
      Preserved(mid, e);
      WithinPreserved(mid, e, c, b);
      GrowthNeedsCap(mid, e, k);
      if CallOf(mid, e).Incr? && CallOf(mid, e).key == k {
        SlotCallCap(mid.procs[e.pid], e.turn.wake, k);
      }
    }
  }

  /** Every replica is within c and b, and so is every Check that began after s0. */
  ghost predicate WithinSince(s0: System, s: System, c: nat, b: nat) {
    && (forall r :: r in s.replicas ==> SlotsWithin(s.replicas[r].slots, c, b))
    && (forall pid :: pid in s.procs && s.procs[pid].stage.InSlot? && !CheckingAt(s0, pid) ==>
          SlotsWithin(s.procs[pid].stage.slotCfg, c, b) && !s.procs[pid].stage.slot.AskUnbounded?)
  }

  predicate CheckingAt(s: System, pid: Pid) {
    pid in s.procs && s.procs[pid].stage.InSlot?
  }

  lemma SinceKept(s0: System, s: System, e: Event, c: nat, b: nat)
    requires WithinSince(s0, s, c, b) && KeepsWithin(e, c, b)
    ensures WithinSince(s0, Apply(s, e), c, b)
  {
    match e
    case Advance(pid, turn) => TurnKeepsConfig(s, pid, turn);
    case _ =>
  }

  /** Once no replica exceeds c and b any more and all Checks that were under way then
      have finished, nothing in use exceeds them. */
  lemma WithinOnceEarlierChecksFinish(s: System, events: seq<Event>, c: nat, b: nat)
    requires forall r :: r in s.replicas ==> SlotsWithin(s.replicas[r].slots, c, b)
    requires forall e :: e in events ==> KeepsWithin(e, c, b)
    requires forall pid :: CheckingAt(s, pid) ==> !CheckingAt(Exec(s, events), pid)
    ensures Within(Exec(s, events), c, b)
  {
    NewChecksAreWithin(s, events, c, b);
    var s' := Exec(s, events);
    assert forall pid :: pid in s'.procs && s'.procs[pid].stage.InSlot? ==> CheckingAt(s', pid);
  }

  lemma {:induction false} NewChecksAreWithin(s: System, events: seq<Event>, c: nat, b: nat)
    requires forall r :: r in s.replicas ==> SlotsWithin(s.replicas[r].slots, c, b)
    requires forall e :: e in events ==> KeepsWithin(e, c, b)
    ensures WithinSince(s, Exec(s, events), c, b)
  {
    if events == [] {
      assert forall pid :: pid in s.procs && s.procs[pid].stage.InSlot? ==> CheckingAt(s, pid);
    } else {
      var before, e := events[..|events| - 1], events[|events| - 1];
      NewChecksAreWithin(s, before, c, b);
      SinceKept(s, Exec(s, before), e, c, b);
    }
  }

  lemma {:induction false} InvKept(s: System, events: seq<Event>)
    requires Inv(s)
    ensures Inv(Exec(s, events))
  {
    if events == [] {
    } else {
      InvKept(s, events[..|events| - 1]);
      Preserved(Exec(s, events[..|events| - 1]), events[|events| - 1]);
    }
  }

  /** The cap is lowered to c on every replica at s; a first stretch of the run ends all
      Checks that were under way. Over any further run a key's slot set never grows past
      the larger of c and what that stretch left in it. */
  lemma LoweredCapTakesHold(s: System, draining: seq<Event>, events: seq<Event>, k: Key, c: nat, b: nat)
    requires Inv(s) && PlainKey(k)
    requires forall r :: r in s.replicas ==> SlotsWithin(s.replicas[r].slots, c, b)
    requires forall e :: e in draining + events ==> KeepsWithin(e, c, b)
    requires forall pid :: CheckingAt(s, pid) ==> !CheckingAt(Exec(s, draining), pid)
    ensures var drained := Exec(s, draining);
            |At(Exec(drained, events).db, k)| <= Max(|At(drained.db, k)|, c)
  {
    InvKept(s, draining);
    WithinOnceEarlierChecksFinish(s, draining, c, b);
    SlotsBounded(Exec(s, draining), events, k, c, b);
  }

  /** The bounded queue: with any number of replicas, shadow mode off, and no
      configuration above c slots and b backlog places, no interleaving ever puts
      more than c tokens into a key's slots or more than b into its backlog. */
  lemma {:induction false} SlotsAndBacklogsBounded(replicas: map<Replica, Config>, events: seq<Event>, k: Key, c: nat,
      b: nat)
    requires PlainRun(events) && PlainKey(k)
    requires forall r :: r in replicas ==> SlotsWithin(replicas[r].slots, c, b)
    requires forall e :: e in events ==> KeepsWithin(e, c, b)
    ensures var s := Exec(Start(replicas), events);
            && Within(s, c, b)
            && |At(s.db, k)| <= c
            && |At(s.db, BacklogKey(k))| <= b
  {
    if events == [] {
    } else {
      var before, e := events[..|events| - 1], events[|events| - 1];
      SlotsAndBacklogsBounded(replicas, before, k, c, b);
      var mid := Exec(Start(replicas), before);
      QueueReachable(replicas, before);
      WithinPreserved(mid, e, c, b);
      GrowthNeedsCap(mid, e, k);
      GrowthNeedsCap(mid, e, BacklogKey(k));
      if CallOf(mid, e).Incr? && CallOf(mid, e).key == k {
        SlotCallCap(mid.procs[e.pid], e.turn.wake, k);
      }
      if CallOf(mid, e).Incr? && CallOf(mid, e).key == BacklogKey(k) {
        BacklogCallCap(mid.procs[e.pid], e.turn.wake, k);
      }
    }
  }

  /** So over all replicas together at most b requests wait on a key with their lease
      running, and at most b in all if no waiter's lease was reaped. */
  lemma AtMostMaxBacklogWait(replicas: map<Replica, Config>, events: seq<Event>, k: Key, c: nat, b: nat)
    requires PlainRun(events) && PlainKey(k)
    requires forall r :: r in replicas ==> SlotsWithin(replicas[r].slots, c, b)
    requires forall e :: e in events ==> KeepsWithin(e, c, b)
    ensures var s := Exec(Start(replicas), events); |Waiters(s, k)| <= b + |Overdue(s, k)|
  {
    SlotsAndBacklogsBounded(replicas, events, k, c, b);
    WaitersWithinBacklogAndOverdue(replicas, events, k);
  }

  /** Configuration safety across start-up, reloads and admin calls: what every
      Check works with passed validation, so the caps it uses are sane. */
  ghost predicate ConfigsSafe(s: System) {
    && (forall r :: r in s.replicas ==> Safe(s.replicas[r]))
    && (forall pid :: pid in s.procs && s.procs[pid].stage.InSlot? ==> SafeSlots(s.procs[pid].stage.slotCfg))
    && (forall pid :: pid in s.procs && s.procs[pid].stage.InFleet? ==> SafeFleet(s.procs[pid].stage.fleetCfg))
  }

  lemma {:induction false} ConfigsStaySafe(replicas: map<Replica, Config>, events: seq<Event>)
    requires forall r :: r in replicas ==> Validate(replicas[r]).Valid?
    ensures ConfigsSafe(Exec(Start(replicas), events))
  {
    if events == [] {
    } else {
      var before, e := events[..|events| - 1], events[|events| - 1];
      ConfigsStaySafe(replicas, before);
      ConfigsSafeStep(Exec(Start(replicas), before), e);
    }
  }

  lemma ConfigsSafeStep(s: System, e: Event)
    requires ConfigsSafe(s)
    ensures ConfigsSafe(Apply(s, e))
  {
    if e.Advance? {
      TurnKeepsConfig(s, e.pid, e.turn);
    }
  }

  lemma EffectiveCapInRange(replicas: map<Replica, Config>, events: seq<Event>, pid: Pid)
    requires forall r :: r in replicas ==> Validate(replicas[r]).Valid?
    requires var s := Exec(Start(replicas), events); pid in s.procs && s.procs[pid].stage.InFleet?
    ensures var p := Exec(Start(replicas), events).procs[pid];
            && p.stage.fleetCfg.cap > 0
            && 0 <= FS.EffectiveCap(p.stage.fleetCfg, p.req.priority) <= p.stage.fleetCfg.cap
  {
    ConfigsStaySafe(replicas, events);
    FS.HeadroomRoundsUp(Exec(Start(replicas), events).procs[pid].stage.fleetCfg);
  }

  /** Every replica and every fleet check in flight works with configuration f. */
  ghost predicate FleetIs(s: System, f: FS.FleetConfig) {
    && (forall r :: r in s.replicas ==> s.replicas[r].fleet == f)
    && (forall pid :: pid in s.procs && s.procs[pid].stage.InFleet? ==>
          s.procs[pid].stage.fleetCfg == f && !s.procs[pid].stage.fleet.AskFleetUnbounded?)
  }

  ghost predicate KeepsFleet(e: Event, f: FS.FleetConfig) {
    && (e.Reload? && e.tier.TierThree? ==> e.cfg.fleet == f)
    && (e.SetReservedPct? ==> e.pct == f.reservedCriticalPct)
  }

  /** The live fleet reservations of one priority. */
  function FleetLive(s: System, priority: Priority): set<Token> {
    set t | t in At(s.db, FLEET_KEY) && t in s.issued && s.issued[t].priority == priority
  }

  ghost predicate Headroom(s: System, f: FS.FleetConfig) {
    FleetWithin(s, f.cap, FS.EffectiveCap(f, Sheddable))
  }

  ghost predicate FleetWithin(s: System, cap: int, share: int) {
    |At(s.db, FLEET_KEY)| <= cap && |FleetLive(s, Sheddable)| <= share
  }

  /** Over whole runs, under any releases, reaping and expiry: live sheddable
      reservations stay within their share, and the total within the cap. */
  lemma {:induction false} HeadroomKept(replicas: map<Replica, Config>, events: seq<Event>, f: FS.FleetConfig)
    requires PlainRun(events) && SafeFleet(f) && !f.shadowMode
    requires forall r :: r in replicas ==> replicas[r].fleet == f
    requires forall e :: e in events ==> KeepsFleet(e, f)
    ensures var s := Exec(Start(replicas), events); FleetIs(s, f) && Headroom(s, f)
  {
    if events == [] {
      assert FleetLive(Start(replicas), Sheddable) == {};
      FS.HeadroomRoundsUp(f);
    } else {
      var before, e := events[..|events| - 1], events[|events| - 1];
      HeadroomKept(replicas, before, f);
      QueueReachable(replicas, before);
      HeadroomStep(Exec(Start(replicas), before), e, f);
    }
  }

  lemma HeadroomStep(s: System, e: Event, f: FS.FleetConfig)
    requires Inv(s) && PlainProcs(s) && FleetIs(s, f) && Headroom(s, f)
    requires SafeFleet(f) && !f.shadowMode && KeepsFleet(e, f)
    ensures FleetIs(Apply(s, e), f) && Headroom(Apply(s, e), f)
  {
    FleetIsKept(s, e, f);
    match e
    case Advance(pid, turn) =>
      if Moves(s, pid, turn) {
        TurnKeepsHeadroom(s, pid, turn, f);
      } else {
        IdleTurnKeepsStore(s, pid, turn);
        ShrinkKeepsFleet(s, Apply(s, e), f.cap, FS.EffectiveCap(f, Sheddable));
      }
    case ClientRelease(key, token) =>
      ReleaseShrinks(s, key, token, FLEET_KEY);
      ShrinkKeepsFleet(s, Apply(s, e), f.cap, FS.EffectiveCap(f, Sheddable));
    case KeyExpiry(key) =>
      ExpiryShrinks(s, key, FLEET_KEY);
      ShrinkKeepsFleet(s, Apply(s, e), f.cap, FS.EffectiveCap(f, Sheddable));
    case _ =>
      ShrinkKeepsFleet(s, Apply(s, e), f.cap, FS.EffectiveCap(f, Sheddable));
  }

  lemma FleetIsKept(s: System, e: Event, f: FS.FleetConfig)
    requires FleetIs(s, f) && !f.shadowMode && KeepsFleet(e, f)
    ensures FleetIs(Apply(s, e), f)
  {
    if e.Advance? {
      TurnKeepsConfig(s, e.pid, e.turn);
    }
  }

  lemma ShrinkKeepsFleet(s: System, s': System, cap: int, share: int)
    requires FleetWithin(s, cap, share)
    requires s'.issued == s.issued && At(s'.db, FLEET_KEY).Keys <= At(s.db, FLEET_KEY).Keys
    ensures FleetWithin(s', cap, share)
  {
    SubsetSize(At(s'.db, FLEET_KEY).Keys, At(s.db, FLEET_KEY).Keys);
    SubsetSize(FleetLive(s', Sheddable), FleetLive(s, Sheddable));
  }

  lemma FleetCallCap(p: Proc, wake: Wake)
    requires PlainKey(p.req.key) && NextCall(p, wake).Incr? && NextCall(p, wake).key == FLEET_KEY
    ensures p.stage.InFleet?
    ensures !p.stage.fleet.AskFleetUnbounded? ==>
              NextCall(p, wake).cap == FS.EffectiveCap(p.stage.fleetCfg, p.req.priority)
  {
    KeySpacesDisjoint(p.req.key);
  }

  lemma TurnKeepsHeadroom(s: System, pid: Pid, turn: Turn, f: FS.FleetConfig)
    requires Inv(s) && PlainProcs(s) && FleetIs(s, f) && Headroom(s, f) && SafeFleet(f)
    requires Moves(s, pid, turn)
    ensures Headroom(Apply(s, Advance(pid, turn)), f)
  {
    var call, added := TurnShifts(s, pid, turn);
    if call.Incr? && call.key == FLEET_KEY {
      FleetCallCap(s.procs[pid], turn.wake);
    }
    TurnBounds(s, pid, turn, FLEET_KEY);
    FS.HeadroomRoundsUp(f);
    ShiftKeepsFleet(s, Apply(s, Advance(pid, turn)), pid, call, added, f.cap, FS.EffectiveCap(f, Sheddable));
  }

  lemma ShiftKeepsFleet(s: System, s': System, pid: Pid, call: Call, added: set<Token>, cap: int, share: int)
    requires Ledger(s) && FleetWithin(s, cap, share) && 0 <= share <= cap && Shift(s, s', pid, call, added)
    requires |At(s'.db, FLEET_KEY)| <= |At(s.db, FLEET_KEY)|
        || (call.Incr? && call.key == FLEET_KEY && |At(s'.db, FLEET_KEY)| <= call.cap)
    requires call.Incr? && call.key == FLEET_KEY ==>
               && call.cap == (if s.procs[pid].req.priority.Critical? then cap else share)
               && (added != {} ==> |At(s'.db, FLEET_KEY)| <= call.cap)
    ensures FleetWithin(s', cap, share)
  {
    var before, after := FleetLive(s, Sheddable), FleetLive(s', Sheddable);
    if call.Incr? && call.key == FLEET_KEY && added != {} && s.procs[pid].req.priority.Sheddable? {
      SubsetSize(after, At(s'.db, FLEET_KEY).Keys);
    } else {
      OnlySheddableAddsSheddable(s, s', pid, call, added);
      SubsetSize(after, before);
    }
  }

  lemma OnlySheddableAddsSheddable(s: System, s': System, pid: Pid, call: Call, added: set<Token>)
    requires Ledger(s) && Shift(s, s', pid, call, added)
    requires call.Incr? && call.key == FLEET_KEY && added != {} ==> s.procs[pid].req.priority.Critical?
    ensures FleetLive(s', Sheddable) <= FleetLive(s, Sheddable)
  {}

  /** A critical request is shed only when the whole critical share, rounded up, is
      in use by live critical reservations. */
  lemma CriticalShedOnlyWhenShareIsUsed(replicas: map<Replica, Config>, events: seq<Event>, pid: Pid, turn: Turn,
      f: FS.FleetConfig)
    requires PlainRun(events) && SafeFleet(f) && !f.shadowMode
    requires forall r :: r in replicas ==> replicas[r].fleet == f
    requires forall e :: e in events ==> KeepsFleet(e, f)
    requires var s := Exec(Start(replicas), events);
             && Moves(s, pid, turn)
             && s.procs[pid].req.priority.Critical?
             && s.procs[pid].stage.InFleet? && s.procs[pid].stage.fleet.AskFleet?
             && Apply(s, Advance(pid, turn)).procs[pid].stage.fleet == FS.Returned(FS.SHED)
    ensures var s' := Apply(Exec(Start(replicas), events), Advance(pid, turn));
            |FleetLive(s', Critical)| >= (f.cap * f.reservedCriticalPct + 99) / 100
  {
    var s := Exec(Start(replicas), events);
    HeadroomKept(replicas, events, f);
    QueueReachable(replicas, events);
    ShedMeansFull(s, pid, turn, f);
    HeadroomStep(s, Advance(pid, turn), f);
    Preserved(s, Advance(pid, turn));
    FullMeansShareUsed(Apply(s, Advance(pid, turn)), f);
  }

  lemma FullMeansShareUsed(s: System, f: FS.FleetConfig)
    requires Ledger(s) && Headroom(s, f) && SafeFleet(f) && |At(s.db, FLEET_KEY)| >= f.cap
    ensures |FleetLive(s, Critical)| >= (f.cap * f.reservedCriticalPct + 99) / 100
  {
    var all := At(s.db, FLEET_KEY).Keys;
    assert all == FleetLive(s, Sheddable) + FleetLive(s, Critical);
    assert |all| == |FleetLive(s, Sheddable)| + |FleetLive(s, Critical)|;
    FS.HeadroomRoundsUp(f);
  }

  lemma ShedMeansFull(s: System, pid: Pid, turn: Turn, f: FS.FleetConfig)
    requires Inv(s) && FleetIs(s, f) && Moves(s, pid, turn)
    requires s.procs[pid].req.priority.Critical?
    requires s.procs[pid].stage.InFleet? && s.procs[pid].stage.fleet.AskFleet?
    requires Apply(s, Advance(pid, turn)).procs[pid].stage.fleet == FS.Returned(FS.SHED)
    ensures |At(Apply(s, Advance(pid, turn)).db, FLEET_KEY)| >= f.cap
  {
    TurnedDb(s, pid, turn);
    PerformBounds(s.db, NextCall(s.procs[pid], turn.wake), turn, FLEET_KEY);
  }
}
