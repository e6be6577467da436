/** Conservation: in every reachable state, every token in the store is accounted
    for, and every token handed to a request is the one the store holds for it. */
module ClusterLedger {
  import opened TokenStore
  import opened Limits
  import opened Cluster
  import CL = ConcurrencyLimiter
  import FS = FleetShedder
  import Pipelines
  import Configs

  /** The store holds exactly the tokens issued and not yet taken out. */
  ghost predicate Ledger(s: System) {
    forall k, t :: t in At(s.db, k) <==> t in s.issued && s.issued[t].key == k && t !in s.released && t !in s.reaped
  }

  ghost predicate History(s: System) {
    && "" !in s.issued
    && s.released <= s.issued.Keys
    && s.reaped <= s.issued.Keys
    && s.lost <= s.issued.Keys
  }

  /** What a request holds was issued to it, for that key, and is not lost. */
  ghost predicate Owned(s: System) {
    forall pid, k, t :: pid in s.procs && (k, t) in Held(s.procs[pid]) ==>
      t in s.issued && s.issued[t].key == k && s.issued[t].pid == pid && t !in s.lost
  }

  /** Every issued token is still held by the request it was issued to, or was lost,
      or is a backlog token that has been taken out again. */
  ghost predicate Custody(s: System) {
    forall t :: t in s.issued && t !in s.lost ==>
      var o := s.issued[t];
      o.pid in s.procs && ((o.key, t) in Held(s.procs[o.pid])
          || (BACKLOG_PREFIX <= o.key && t in s.released + s.reaped))
  }

  predicate SlotHonest(v: Verdict, req: Request) {
    Honest(v, req.key, req.skipReservations)
  }

  predicate FleetHonest(v: Verdict, req: Request) {
    Honest(v, FLEET_KEY, req.skipReservations)
  }

  /** Every verdict a request has collected is an honest one of the tier it came from. */
  predicate WellFormed(p: Proc) {
    && p.tierOne.decision.reservations == []
    && match p.stage
       case InSlot(_, st) => CL.WellFormed(st, p.req)
       case BetweenTiers(first) => SlotHonest(first, p.req)
       case InFleet(first, _, st) => SlotHonest(first, p.req) && FS.WellFormed(st, p.req)
       case Done(vs) =>
         && 1 <= |vs| <= 3 && vs[0] == p.tierOne
         && (|vs| > 1 ==> SlotHonest(vs[1], p.req))
         && (|vs| > 2 ==> FleetHonest(vs[2], p.req))
  }

  ghost predicate AllWellFormed(s: System) {
    forall pid :: pid in s.procs ==> WellFormed(s.procs[pid])
  }

  ghost predicate Inv(s: System) {
    Ledger(s) && History(s) && Owned(s) && Custody(s) && AllWellFormed(s)
  }

  lemma {:induction false} Reachable(replicas: map<Replica, Configs.Config>, events: seq<Event>)
    ensures Inv(Exec(Start(replicas), events))
  {
    if events == [] {
    } else {
      var before := events[..|events| - 1];
      Reachable(replicas, before);
      Preserved(Exec(Start(replicas), before), events[|events| - 1]);
    }
  }

  lemma Preserved(s: System, e: Event)
    requires Inv(s)
    ensures Inv(Apply(s, e))
  {
    match e
    case Arrive(pid, replica, req, tierOne) =>
      if tierOne.decision.reservations == [] {
        ArriveHoldsNothing(tierOne, req);
      }
    case Advance(pid, turn) =>
      AdvancePreserves(s, pid, turn);
    case ClientRelease(key, token) =>
      RemovalPreserves(s, key, token);
    case KeyExpiry(key) =>
      ExpiryPreserves(s, key);
    case Reload(replica, cfg, tier) =>
    case SetReservedPct(replica, pct) =>
  }

  lemma ArriveHoldsNothing(tierOne: Verdict, req: Request)
    requires tierOne.decision.reservations == []
    ensures Pipelines.GrantedByAll([tierOne]) == {}
    ensures CL.Held(CL.Begin(req), req) == {}
  {
    assert [tierOne][1..] == [];
  }

  lemma RemovalPreserves(s: System, key: Key, token: Token)
    requires Inv(s)
    ensures var after := Remove(s.db, key, token);
            Inv(s.(db := after, released := s.released + (At(s.db, key).Keys - At(after, key).Keys)))
  {
    RemoveSmaller(s.db, key, token);
  }

  lemma ExpiryPreserves(s: System, key: Key)
    requires Inv(s)
    ensures Inv(Apply(s, KeyExpiry(key)))
  {
    assert forall k :: k != key ==> At(s.db - {key}, k) == At(s.db, k);
  }

  lemma AdvancePreserves(s: System, pid: Pid, turn: Turn)
    requires Inv(s)
    ensures Inv(Apply(s, Advance(pid, turn)))
  {
    if Moves(s, pid, turn) {
      var call, after, reply := Turned(s, pid, turn);
      TurnPreserves(s, pid, turn, call, after, reply);
    } else if pid in s.procs && s.procs[pid].stage.BetweenTiers? {
      EntryPreserves(s, pid, turn);
    } else {
      OtherwiseStill(s, pid, turn);
    }
  }

  lemma EntryPreserves(s: System, pid: Pid, turn: Turn)
    requires Inv(s) && pid in s.procs && s.procs[pid].stage.BetweenTiers?
    ensures Inv(Apply(s, Advance(pid, turn)))
  {}

  /** Whether a turn of this request makes a store call or hands over between tiers. */
  predicate Moves(s: System, pid: Pid, turn: Turn) {
    && pid in s.procs
    && !s.procs[pid].stage.Done? && !s.procs[pid].stage.BetweenTiers?
    && FreshCandidate(s, NextCall(s.procs[pid], turn.wake), turn)
  }

  /** The system once a request's call has been recorded and its reply taken in. */
  function AfterTurn(s: System, pid: Pid, call: Call, turn: Turn, after: Db, reply: Reply): System
    requires pid in s.procs
  {
    var p := s.procs[pid];
    Record(s, pid, p.req.priority, call, turn, after).(procs := s.procs[pid := OnReply(p, turn.wake, reply)])
  }

  /** A moving turn, seen only through what its call may have done. */
  lemma Turned(s: System, pid: Pid, turn: Turn) returns (call: Call, after: Db, reply: Reply)
    requires Ledger(s) && Moves(s, pid, turn)
    ensures call == NextCall(s.procs[pid], turn.wake) && FreshCandidate(s, call, turn)
    ensures Effect(s.db, call, turn, after, reply)
    ensures Apply(s, Advance(pid, turn))
         == AfterTurn(s, pid, call, turn, after, reply)
  {
    call := NextCall(s.procs[pid], turn.wake);
    after, reply := Perform(s.db, call, turn).0, Perform(s.db, call, turn).1;
    PerformEffect(s.db, call, turn);
  }

  lemma OtherwiseStill(s: System, pid: Pid, turn: Turn)
    requires !Moves(s, pid, turn)
    requires pid in s.procs ==> !s.procs[pid].stage.BetweenTiers?
    ensures Apply(s, Advance(pid, turn)) == s
  {}

  /** One turn keeps every account in order, given only what the call may have done. */
  lemma TurnPreserves(s: System, pid: Pid, turn: Turn, call: Call, after: Db, reply: Reply)
    requires Inv(s) && pid in s.procs
    requires call == NextCall(s.procs[pid], turn.wake) && FreshCandidate(s, call, turn)
    requires Effect(s.db, call, turn, after, reply)
    ensures Inv(AfterTurn(s, pid, call, turn, after, reply))
  {
    var p := s.procs[pid];
    DecrIsOwn(p, turn.wake);
    RecordKeepsLedger(s, pid, call, turn, after, reply);
    RecordIsFaithful(s, pid, call, turn, after, reply);
    Accounting(p, turn.wake, reply);
    InvFollows(s, Record(s, pid, p.req.priority, call, turn, after), pid, OnReply(p, turn.wake, reply), call,
        CL.Gain(call, reply));
  }

  lemma InvFollows(s: System, s1: System, pid: Pid, p': Proc, call: Call, gain: set<(Key, Token)>)
    requires Inv(s) && pid in s.procs && Ledger(s1) && History(s1) && WellFormed(p')
    requires call.Decr? ==> (call.key, call.token) in Held(s.procs[pid]) && BACKLOG_PREFIX <= call.key
    requires Recorded(s, s1, pid, call, gain)
    requires Held(p') == Held(s.procs[pid]) + gain - CL.Loss(call)
    ensures Inv(s1.(procs := s.procs[pid := p']))
  {
    var s' := s1.(procs := s.procs[pid := p']);
    assert Owned(s') && Custody(s') by {
      HoldingsFollow(s, s1, pid, p', call, gain);
    }
    assert Ledger(s') && History(s') && AllWellFormed(s');
  }

  /** The only token a request ever takes out is the backlog token it holds. */
  lemma DecrIsOwn(p: Proc, wake: Wake)
    ensures var call := NextCall(p, wake);
            call.Decr? ==> (call.key, call.token) in Held(p) && BACKLOG_PREFIX <= call.key
  {}

  /** The pipeline's view of the tiers' accounting, hand-over between tiers included. */
  lemma Accounting(p: Proc, wake: Wake, reply: Reply)
    requires WellFormed(p)
    requires NextCall(p, wake).Incr? && reply.Reply? ==> (reply.allowed <==> reply.token != "")
    ensures WellFormed(OnReply(p, wake, reply))
    ensures var call := NextCall(p, wake);
            Held(OnReply(p, wake, reply)) == Held(p) + CL.Gain(call, reply) - CL.Loss(call)
  {
    match p.stage
    case InSlot(cfg, st) =>
      if st.Returned? {
        Pipelines.GrantedByTwo(p.tierOne, st.verdict);
      } else {
        CL.NothingLostNothingInvented(st, cfg, p.req, wake, reply);
      }
    case InFleet(first, cfg, st) =>
      if st.Returned? {
        Pipelines.GrantedByThree(p.tierOne, first, st.verdict);
      } else {
        FS.NothingLostNothingInvented(st, cfg, p.req, reply);
      }
    case _ =>
  }

  /** How one call of a request changes the history: `gain` reaches the request,
      a token whose call or reply was lost is mislaid, and nothing else happens. */
  ghost predicate Recorded(s: System, s': System, pid: Pid, call: Call, gain: set<(Key, Token)>) {
    && s'.procs == s.procs
    && s.issued.Keys <= s'.issued.Keys
    && s.lost <= s'.lost && s.released <= s'.released && s.reaped <= s'.reaped
    && (forall t :: t in s.issued ==> s'.issued[t] == s.issued[t])
    && (forall t :: t in s'.lost && t in s.issued && t !in s.lost ==> (s.issued[t].key, t) in CL.Loss(call))
    && (forall t :: t in s'.issued && t !in s.issued && t !in s'.lost ==>
          s'.issued[t].pid == pid && (s'.issued[t].key, t) in gain)
    && (forall k, t :: (k, t) in gain ==>
          t in s'.issued && t !in s.issued && t !in s'.lost && s'.issued[t].key == k && s'.issued[t].pid == pid)
    && (forall k, t :: (k, t) in CL.Loss(call) ==> t in s'.lost + s'.released + s'.reaped)
  }

  lemma RecordKeepsLedger(s: System, pid: Pid, call: Call, turn: Turn, after: Db, reply: Reply)
    requires Ledger(s) && History(s) && pid in s.procs && FreshCandidate(s, call, turn)
    requires call.Decr? ==> call.token in s.issued && s.issued[call.token].key == call.key
    requires Effect(s.db, call, turn, after, reply)
    ensures var s' := Record(s, pid, s.procs[pid].req.priority, call, turn, after);
            Ledger(s') && History(s')
  {
    if call.Incr? {
      IncrKeepsLedger(s, pid, call, turn, after, reply);
    }
  }

  lemma IncrKeepsLedger(s: System, pid: Pid, call: Call, turn: Turn, after: Db, reply: Reply)
    requires Ledger(s) && History(s) && pid in s.procs && FreshCandidate(s, call, turn) && call.Incr?
    requires Effect(s.db, call, turn, after, reply)
    ensures var s' := Record(s, pid, s.procs[pid].req.priority, call, turn, after);
            Ledger(s') && History(s')
  {}

  lemma RecordIsFaithful(s: System, pid: Pid, call: Call, turn: Turn, after: Db, reply: Reply)
    requires Ledger(s) && History(s) && pid in s.procs && FreshCandidate(s, call, turn)
    requires call.Decr? ==> call.token in s.issued && s.issued[call.token].key == call.key
    requires Effect(s.db, call, turn, after, reply)
    ensures var s' := Record(s, pid, s.procs[pid].req.priority, call, turn, after);
            Recorded(s, s', pid, call, CL.Gain(call, reply))
  {
    if call.Incr? {
      IncrIsFaithful(s, pid, call, turn, after, reply);
    }
  }

  lemma IncrIsFaithful(s: System, pid: Pid, call: Call, turn: Turn, after: Db, reply: Reply)
    requires Ledger(s) && History(s) && pid in s.procs && FreshCandidate(s, call, turn) && call.Incr?
    requires Effect(s.db, call, turn, after, reply)
    ensures var s' := Record(s, pid, s.procs[pid].req.priority, call, turn, after);
            Recorded(s, s', pid, call, CL.Gain(call, reply))
  {}

  /** Ownership and custody survive any change of one request's holdings that
      matches what its call brought it and took from it. */
  lemma HoldingsFollow(s: System, s1: System, pid: Pid, p': Proc, call: Call, gain: set<(Key, Token)>)
    requires Owned(s) && Custody(s) && pid in s.procs
    requires s.lost <= s.issued.Keys
    requires call.Decr? ==> (call.key, call.token) in Held(s.procs[pid]) && BACKLOG_PREFIX <= call.key
    requires Recorded(s, s1, pid, call, gain)
    requires Held(p') == Held(s.procs[pid]) + gain - CL.Loss(call)
    ensures Owned(s1.(procs := s.procs[pid := p'])) && Custody(s1.(procs := s.procs[pid := p']))
  {
    var s' := s1.(procs := s.procs[pid := p']);
    forall q, k, t | q in s'.procs && (k, t) in Held(s'.procs[q])
      ensures t in s'.issued && s'.issued[t].key == k && s'.issued[t].pid == q && t !in s'.lost
    {
      if (k, t) in Held(s.procs[q]) {
        assert t in s.issued && s.issued[t].pid == q;
      }
    }
    forall t | t in s'.issued && t !in s'.lost
      ensures var o := s'.issued[t];
              o.pid in s'.procs && ((o.key, t) in Held(s'.procs[o.pid])
                  || (BACKLOG_PREFIX <= o.key && t in s'.released + s'.reaped))
    {
      if t in s.issued {
        var o := s.issued[t];
        assert o.pid in s.procs;
        assert (o.key, t) in CL.Loss(call) ==> BACKLOG_PREFIX <= o.key;
      }
    }
  }

  /** What a turn does to the token sets: at most one new token, in the set its call
      names; everything else only shrinks. */
  ghost predicate Shift(s: System, s': System, pid: Pid, call: Call, added: set<Token>) {
    && pid in s.procs
    && (forall t :: t in s.issued ==> t in s'.issued && s'.issued[t] == s.issued[t])
    && (forall t :: t in added ==> call.Incr? && t !in s.issued && t in s'.issued
                                   && s'.issued[t] == Origin(call.key, pid, s.procs[pid].req.priority))
    && (forall k :: At(s'.db, k).Keys <= At(s.db, k).Keys + (if call.Incr? && call.key == k then added else {}))
  }

  lemma TurnShifts(s: System, pid: Pid, turn: Turn) returns (call: Call, added: set<Token>)
    requires Ledger(s) && Moves(s, pid, turn)
    ensures call == NextCall(s.procs[pid], turn.wake)
    ensures Shift(s, Apply(s, Advance(pid, turn)), pid, call, added)
    ensures var now := Apply(s, Advance(pid, turn)).db;
            added == if call.Incr? && turn.candidate in At(now, call.key) then {turn.candidate} else {}
  {
    var after, reply;
    call, after, reply := Turned(s, pid, turn);
    added := AddedBy(s, call, turn, after);
    RecordShifts(s, pid, turn, call, after, reply);
  }

  function AddedBy(s: System, call: Call, turn: Turn, after: Db): set<Token> {
    if call.Incr? && turn.candidate in At(after, call.key) then {turn.candidate} else {}
  }

  lemma RecordShifts(s: System, pid: Pid, turn: Turn, call: Call, after: Db, reply: Reply)
    requires Ledger(s) && pid in s.procs && FreshCandidate(s, call, turn)
    requires Effect(s.db, call, turn, after, reply)
    ensures var s' := Record(s, pid, s.procs[pid].req.priority, call, turn, after);
            Shift(s, s', pid, call, AddedBy(s, call, turn, after)) && s'.db == after
  {
    match call
    case Incr(_, _, _) =>
    case Decr(_, _) =>
    case NoCall =>
  }

  /** The store after a moving turn is the store after its call. */
  lemma TurnedDb(s: System, pid: Pid, turn: Turn)
    requires Moves(s, pid, turn)
    ensures var call := NextCall(s.procs[pid], turn.wake);
            var s' := Apply(s, Advance(pid, turn));
            && s'.db == Perform(s.db, call, turn).0
            && s'.procs == s.procs[pid := OnReply(s.procs[pid], turn.wake, Perform(s.db, call, turn).1)]
  {}
}
