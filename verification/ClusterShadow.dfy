/** Shadow mode observes without blocking, and its accounting is exact. */
module ClusterShadow {
  import opened TokenStore
  import opened Limits
  import opened Configs
  import opened Cluster
  import opened ClusterLedger
  import opened ClusterConservation
  import opened ClusterBounds
  import Pipelines

  /** The tier under observation: Tier 2 for one key, or Tier 3. */
  datatype Watched = SlotsOf(k: Key) | Fleet

  function SetKey(w: Watched): Key {
    if w.Fleet? then FLEET_KEY else w.k
  }

  /** The watched tier's decision on a request, once it has one. */
  function Ruling(p: Proc, w: Watched): seq<Verdict> {
    match w
    case SlotsOf(k) =>
      if p.req.key != k then []
      else (match p.stage
            case InSlot(_, Returned(v)) => [v]
            case InSlot(_, _) => []
            case BetweenTiers(first) => [first]
            case InFleet(first, _, _) => [first]
            case Done(vs) => if |vs| > 1 then [vs[1]] else [])
    case Fleet =>
      match p.stage
      case InFleet(_, _, Returned(v)) => [v]
      case Done(vs) => if |vs| > 2 then [vs[2]] else []
      case _ => []
  }

  /** The checks of the tier that have been decided, not counting those that skip it. */
  function Checked(s: System, w: Watched): set<Pid> {
    set pid | pid in s.procs && Ruling(s.procs[pid], w) != [] && !s.procs[pid].req.skipReservations
  }

  function ReleasedFrom(s: System, w: Watched): set<Token> {
    set t | t in s.released && t in s.issued && s.issued[t].key == SetKey(w)
  }

  /** Let through, with a token to show for it. */
  predicate LetThrough(v: Verdict) {
    && v.err.NoError?
    && (v.decision.action.ALLOW? || v.decision.action.SHADOW_LOG?)
    && |v.decision.reservations| == 1 && v.decision.reservations[0].token != ""
  }

  predicate InShadow(p: Proc, w: Watched) {
    && (!p.req.skipReservations && Ruling(p, w) != [] ==> LetThrough(Ruling(p, w)[0]))
    && (w.SlotsOf? && p.req.key == w.k && p.stage.InSlot? ==>
          && p.stage.slotCfg.shadowMode
          && (p.stage.slot.AskSlot? || p.stage.slot.AskUnbounded? || p.stage.slot.Returned?))
    && (w.Fleet? && p.stage.InFleet? ==> p.stage.fleetCfg.shadowMode)
  }

  predicate ShadowConfig(cfg: Config, w: Watched) {
    if w.Fleet? then cfg.fleet.shadowMode else cfg.slots.shadowMode
  }

  ghost predicate ShadowInv(s: System, w: Watched) {
    && s.lost == {}
    && (forall r :: r in s.replicas ==> ShadowConfig(s.replicas[r], w))
    && (forall pid :: pid in s.procs ==> InShadow(s.procs[pid], w))
  }

  /** Shadow mode stays on for the tier, and store calls succeed. */
  ghost predicate Smooth(e: Event, w: Watched) {
    && (e.Reload? && (if w.Fleet? then e.tier.TierThree? else e.tier.TierTwo?) ==> ShadowConfig(e.cfg, w))
    && (e.Advance? ==> e.turn.fault.Delivered?)
  }

  /** Fewer than the unbounded cap are live at every point of the run. */
  ghost predicate RoomThroughout(s: System, events: seq<Event>, w: Watched) {
    forall n :: 0 <= n <= |events| ==> |At(Exec(s, events[..n]).db, SetKey(w))| < UNBOUNDED_CAP
  }

  lemma {:induction false} ShadowReachable(replicas: map<Replica, Config>, events: seq<Event>, w: Watched)
    requires PlainRun(events) && (w.SlotsOf? ==> PlainKey(w.k))
    requires forall r :: r in replicas ==> ShadowConfig(replicas[r], w)
    requires forall e :: e in events ==> Smooth(e, w)
    requires RoomThroughout(Start(replicas), events, w)
    ensures ShadowInv(Exec(Start(replicas), events), w)
  {
    if events == [] {
    } else {
      var before, e := events[..|events| - 1], events[|events| - 1];
      RoomBefore(Start(replicas), events, w);
      ShadowReachable(replicas, before, w);
      QueueReachable(replicas, before);
      ShadowStep(Exec(Start(replicas), before), e, w);
    }
  }

  lemma RoomBefore(s: System, events: seq<Event>, w: Watched)
    requires events != [] && RoomThroughout(s, events, w)
    ensures var before := events[..|events| - 1];
            RoomThroughout(s, before, w) && |At(Exec(s, before).db, SetKey(w))| < UNBOUNDED_CAP
  {
    var n := |events| - 1;
    var before := events[..n];
    forall m | 0 <= m <= n
      ensures |At(Exec(s, before[..m]).db, SetKey(w))| < UNBOUNDED_CAP
    {
      assert before[..m] == events[..m];
    }
    assert before[..n] == before;
  }

  lemma ShadowStep(s: System, e: Event, w: Watched)
    requires Inv(s) && ShadowInv(s, w) && Smooth(e, w) && (w.SlotsOf? ==> PlainKey(w.k))
    requires |At(s.db, SetKey(w))| < UNBOUNDED_CAP
    ensures ShadowInv(Apply(s, e), w)
  {
    match e
    case Advance(pid, turn) =>
      if Moves(s, pid, turn) {
        TurnedDb(s, pid, turn);
        NothingLost(s, pid, turn);
        ReplyInShadow(s, pid, turn, w);
      } else {
        IdleInShadow(s, pid, turn, w);
      }
    case _ =>
  }

  lemma IdleInShadow(s: System, pid: Pid, turn: Turn, w: Watched)
    requires ShadowInv(s, w) && !Moves(s, pid, turn) && AllWellFormed(s)
    ensures ShadowInv(Apply(s, Advance(pid, turn)), w)
  {}

  lemma NothingLost(s: System, pid: Pid, turn: Turn)
    requires turn.fault.Delivered?
    ensures var s' := Apply(s, Advance(pid, turn)); s'.lost == s.lost && s'.replicas == s.replicas
  {}

  lemma ReplyInShadow(s: System, pid: Pid, turn: Turn, w: Watched)
    requires Inv(s) && Moves(s, pid, turn) && turn.fault.Delivered? && InShadow(s.procs[pid], w)
        && (w.SlotsOf? ==> PlainKey(w.k))
    requires |At(s.db, SetKey(w))| < UNBOUNDED_CAP
    ensures InShadow(OnReply(s.procs[pid], turn.wake, Perform(s.db, NextCall(s.procs[pid], turn.wake), turn).1), w)
  {
    var p := s.procs[pid];
    var call := NextCall(p, turn.wake);
    var after, reply := Perform(s.db, call, turn).0, Perform(s.db, call, turn).1;
    assert Effect(s.db, call, turn, after, reply) by {
      PerformEffect(s.db, call, turn);
    }
    assert call.Incr? && call.key == SetKey(w) && call.cap == UNBOUNDED_CAP ==> reply.allowed by {
      PerformBounds(s.db, call, turn, SetKey(w));
    }
    if w.Fleet? {
      FleetAnswerInShadow(p, turn.wake, reply);
    } else {
      SlotAnswerInShadow(p, turn.wake, reply, w.k);
    }
  }

  /** The second call of shadow mode cannot be refused while there is room. */
  lemma SlotAnswerInShadow(p: Proc, wake: Wake, reply: Reply, k: Key)
    requires WellFormed(p) && InShadow(p, SlotsOf(k))
    requires reply.Reply? && (NextCall(p, wake).Incr? && reply.allowed ==> reply.token != "")
    requires NextCall(p, wake).Incr? && NextCall(p, wake).key == k && NextCall(p, wake).cap == UNBOUNDED_CAP
        ==> reply.allowed
    ensures InShadow(OnReply(p, wake, reply), SlotsOf(k))
  {}

  lemma FleetAnswerInShadow(p: Proc, wake: Wake, reply: Reply)
    requires WellFormed(p) && InShadow(p, Fleet)
    requires reply.Reply? && (NextCall(p, wake).Incr? && reply.allowed ==> reply.token != "")
    requires NextCall(p, wake).Incr? && NextCall(p, wake).key == FLEET_KEY && NextCall(p, wake).cap == UNBOUNDED_CAP
        ==> reply.allowed
    ensures InShadow(OnReply(p, wake, reply), Fleet)
  {}

  /** Shadow accounting is exact: with shadow mode on for a tier, store calls
      succeeding, room below the unbounded cap and nothing reaped, every decided
      check was let through, and the set holds one token for each of them, less the
      ones released. The cap does not matter. */
  lemma ShadowAccountingIsExact(replicas: map<Replica, Config>, events: seq<Event>, w: Watched)
    requires PlainRun(events) && (w.SlotsOf? ==> PlainKey(w.k))
    requires forall r :: r in replicas ==> ShadowConfig(replicas[r], w)
    requires forall e :: e in events ==> Smooth(e, w)
    requires RoomThroughout(Start(replicas), events, w)
    requires var s := Exec(Start(replicas), events);
             forall t :: t in s.issued && s.issued[t].key == SetKey(w) ==> t !in s.reaped
    ensures var s := Exec(Start(replicas), events);
            && (forall pid :: pid in Checked(s, w) ==> LetThrough(Ruling(s.procs[pid], w)[0]))
            && |At(s.db, SetKey(w))| == |Checked(s, w)| - |ReleasedFrom(s, w)|
  {
    QueueReachable(replicas, events);
    ShadowReachable(replicas, events, w);
    ShadowCount(Exec(Start(replicas), events), w);
  }

  function TokenOf(p: Proc, w: Watched): Token {
    var vs := Ruling(p, w);
    if vs != [] && vs[0].decision.reservations != [] then vs[0].decision.reservations[0].token else ""
  }

  lemma ShadowCount(s: System, w: Watched)
    requires Inv(s) && PlainProcs(s) && ShadowInv(s, w) && (w.SlotsOf? ==> PlainKey(w.k))
    requires forall t :: t in s.issued && s.issued[t].key == SetKey(w) ==> t !in s.reaped
    ensures |At(s.db, SetKey(w))| == |Checked(s, w)| - |ReleasedFrom(s, w)|
  {
    var token := map pid | pid in s.procs :: TokenOf(s.procs[pid], w);
    var owner := map t | t in s.issued :: s.issued[t].pid;
    var handed := set t | t in s.issued && s.issued[t].key == SetKey(w);
    forall pid | pid in Checked(s, w)
      ensures token[pid] in handed && owner[token[pid]] == pid
    {
      RulingIsHeld(s.procs[pid], w);
    }
    forall t | t in handed
      ensures owner[t] in Checked(s, w) && token[owner[t]] == t
    {
      HeldHasRuling(s.procs[owner[t]], w, t);
    }
    Bijection(Checked(s, w), handed, token, owner);
    LiveIsHandedLessReleased(s, w, handed);
  }

  lemma LiveIsHandedLessReleased(s: System, w: Watched, handed: set<Token>)
    requires Ledger(s) && handed == set t | t in s.issued && s.issued[t].key == SetKey(w)
    requires forall t :: t in handed ==> t !in s.reaped
    ensures |At(s.db, SetKey(w))| == |handed| - |ReleasedFrom(s, w)|
  {
    var live, gone := At(s.db, SetKey(w)).Keys, ReleasedFrom(s, w);
    assert gone <= handed && live == handed - gone by {
      forall t
        ensures t in live <==> t in handed && t !in gone
      {}
    }
    DifferenceSize(handed, gone);
  }

  lemma DifferenceSize<T>(a: set<T>, b: set<T>)
    requires b <= a
    ensures |a - b| == |a| - |b|
  {
    assert a == (a - b) + b;
  }

  lemma RulingIsHeld(p: Proc, w: Watched)
    requires WellFormed(p) && InShadow(p, w) && Ruling(p, w) != [] && !p.req.skipReservations
    ensures (SetKey(w), TokenOf(p, w)) in Held(p)
  {
    var v := Ruling(p, w)[0];
    HonestGrant(v, SetKey(w), false);
    assert Hands(v, SetKey(w), v.decision.reservations[0].token);
    GrantsOfDone(p);
  }

  lemma GrantsOfDone(p: Proc)
    requires WellFormed(p)
    ensures p.stage.Done? && |p.stage.consulted| == 1 ==> Held(p) == {}
    ensures p.stage.Done? && |p.stage.consulted| == 2 ==> Held(p) == Granted(p.stage.consulted[1])
    ensures p.stage.Done? && |p.stage.consulted| == 3
        ==> Held(p) == Granted(p.stage.consulted[1]) + Granted(p.stage.consulted[2])
  {
    if p.stage.Done? {
      var vs := p.stage.consulted;
      if |vs| == 1 {
        assert vs == [vs[0]];
        ArriveHoldsNothing(p.tierOne, p.req);
      } else if |vs| == 2 {
        assert vs == [vs[0], vs[1]];
        Pipelines.GrantedByTwo(vs[0], vs[1]);
      } else {
        assert vs == [vs[0], vs[1], vs[2]];
        Pipelines.GrantedByThree(vs[0], vs[1], vs[2]);
      }
    }
  }

  lemma HeldHasRuling(p: Proc, w: Watched, t: Token)
    requires WellFormed(p) && PlainKey(p.req.key) && (w.SlotsOf? ==> PlainKey(w.k)) && InShadow(p, w)
        && (SetKey(w), t) in Held(p)
    ensures Ruling(p, w) != [] && !p.req.skipReservations && TokenOf(p, w) == t
  {
    KeySpacesDisjoint(SetKey(w));
    HeldIsHanded(p, SetKey(w), t);
    var i :| 0 <= i < |Decisions(p)| && Hands(Decisions(p)[i], SetKey(w), t);
    assert Decisions(p)[i].decision.reservations[0] == TokenReservation(SetKey(w), t);
  }
}
