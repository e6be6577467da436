/** What the accounts of ClusterLedger mean for slots, for answers and for the queue. */
module ClusterConservation {
  import opened TokenStore
  import opened Limits
  import opened Configs
  import opened Cluster
  import opened ClusterLedger
  import CL = ConcurrencyLimiter
  import Pipelines

  /** The tiers' decisions a request has received so far. */
  function Decisions(p: Proc): seq<Verdict> {
    match p.stage
    case InSlot(_, GivingBack(_, pending)) => [pending]
    case InSlot(_, Returned(verdict)) => [verdict]
    case InSlot(_, _) => []
    case BetweenTiers(first) => [first]
    case InFleet(first, _, Returned(verdict)) => [first, verdict]
    case InFleet(first, _, _) => [first]
    case Done(consulted) => consulted
  }

  /** Token t of key k was handed out by an admitting decision: ALLOW, QUEUE or SHADOW_LOG. */
  ghost predicate HandedOut(s: System, k: Key, t: Token) {
    exists pid, i :: pid in s.procs && 0 <= i < |Decisions(s.procs[pid])| && Hands(Decisions(s.procs[pid])[i], k, t)
  }

  predicate Hands(v: Verdict, k: Key, t: Token) {
    Admits(v) && v.decision.reservations == [TokenReservation(k, t)] && t != ""
  }

  lemma HonestGrant(v: Verdict, key: Key, skip: bool)
    requires Honest(v, key, skip)
    ensures forall k, t :: (k, t) in Granted(v) <==> Hands(v, k, t)
  {
    var rs := v.decision.reservations;
    forall k, t
      ensures (k, t) in Granted(v) <==> Hands(v, k, t)
    {
      if Hands(v, k, t) {
        assert TokenReservation(k, t) in rs;
      }
    }
  }

  lemma HeldIsHanded(p: Proc, k: Key, t: Token)
    requires WellFormed(p) && !(BACKLOG_PREFIX <= k)
    ensures (k, t) in Held(p) <==> exists i :: 0 <= i < |Decisions(p)| && Hands(Decisions(p)[i], k, t)
  {
    var ds := Decisions(p);
    match p.stage
    case InSlot(_, GivingBack(_, pending)) =>
      assert ds[0] == pending;
      HonestGrant(pending, p.req.key, false);
    case InSlot(_, Returned(verdict)) =>
      assert ds[0] == verdict;
      HonestGrant(verdict, p.req.key, p.req.skipReservations);
    case InSlot(_, _) =>
    case BetweenTiers(first) =>
      assert ds[0] == first;
      HonestGrant(first, p.req.key, p.req.skipReservations);
    case InFleet(first, _, Returned(verdict)) =>
      assert ds[0] == first && ds[1] == verdict;
      HonestGrant(first, p.req.key, p.req.skipReservations);
      HonestGrant(verdict, FLEET_KEY, p.req.skipReservations);
    case InFleet(first, _, _) =>
      assert ds[0] == first;
      HonestGrant(first, p.req.key, p.req.skipReservations);
    case Done(vs) =>
      if |vs| > 1 { HonestGrant(vs[1], p.req.key, p.req.skipReservations); }
      if |vs| > 2 { HonestGrant(vs[2], FLEET_KEY, p.req.skipReservations); }
      if |vs| == 1 {
        assert vs == [vs[0]];
        ArriveHoldsNothing(p.tierOne, p.req);
      } else if |vs| == 2 {
        assert vs == [vs[0], vs[1]];
        Pipelines.GrantedByTwo(vs[0], vs[1]);
      } else {
        assert vs == [vs[0], vs[1], vs[2]];
        Pipelines.GrantedByThree(vs[0], vs[1], vs[2]);
      }
  }

  /** Conservation of grants: in every reachable state, a slot or fleet set is exactly
      the tokens that admitting decisions handed out, plus those whose reply was lost on
      its way, minus those released or reaped. */
  lemma GrantsAreConserved(replicas: map<Replica, Config>, events: seq<Event>, k: Key, t: Token)
    requires !(BACKLOG_PREFIX <= k)
    ensures var s := Exec(Start(replicas), events);
            t in At(s.db, k) <==>
              && t !in s.released && t !in s.reaped
              && (HandedOut(s, k, t) || (t in s.lost && t in s.issued && s.issued[t].key == k))
  {
    Reachable(replicas, events);
    LiveIsHanded(Exec(Start(replicas), events), k, t);
  }

  lemma LiveIsHanded(s: System, k: Key, t: Token)
    requires Inv(s) && !(BACKLOG_PREFIX <= k)
    ensures t in At(s.db, k) <==>
              && t !in s.released && t !in s.reaped
              && (HandedOut(s, k, t) || (t in s.lost && t in s.issued && s.issued[t].key == k))
  {
    HandedOutIsHeld(s, k, t);
    if t in s.issued && t !in s.lost && s.issued[t].key == k {
      assert (k, t) in Held(s.procs[s.issued[t].pid]);
    }
  }

  lemma HandedOutIsHeld(s: System, k: Key, t: Token)
    requires AllWellFormed(s) && !(BACKLOG_PREFIX <= k)
    ensures HandedOut(s, k, t) <==> exists pid :: pid in s.procs && (k, t) in Held(s.procs[pid])
  {
    forall pid | pid in s.procs
      ensures (k, t) in Held(s.procs[pid]) <==>
              exists i :: 0 <= i < |Decisions(s.procs[pid])| && Hands(Decisions(s.procs[pid])[i], k, t)
    {
      HeldIsHanded(s.procs[pid], k, t);
    }
  }

  /** No token is handed to two requests. */
  lemma HandedToOneRequest(replicas: map<Replica, Config>, events: seq<Event>, a: Pid, b: Pid, k: Key, l: Key, t: Token)
    requires var s := Exec(Start(replicas), events);
             a in s.procs && b in s.procs && (k, t) in Held(s.procs[a]) && (l, t) in Held(s.procs[b])
    ensures a == b && k == l
  {
    Reachable(replicas, events);
  }

  /** At the pipeline's boundary: a finished request is answered with exactly the slot
      and fleet tokens that were ever added to the store on its behalf, except those
      whose reply was lost, whatever the later tiers said. */
  lemma AnswerCarriesEveryGrant(replicas: map<Replica, Config>, events: seq<Event>, pid: Pid, k: Key, t: Token)
    requires var s := Exec(Start(replicas), events); pid in s.procs && s.procs[pid].stage.Done?
    requires !(BACKLOG_PREFIX <= k)
    ensures var s := Exec(Start(replicas), events);
            (k, t) in Granted(Answer(s.procs[pid])) <==>
              t in s.issued && s.issued[t].key == k && s.issued[t].pid == pid && t !in s.lost
  {
    var s := Exec(Start(replicas), events);
    Reachable(replicas, events);
    Pipelines.EveryGrantIsReturned(s.procs[pid].stage.consulted);
  }

  /** No request key reaches into the fleet set or a backlog. */
  ghost predicate PlainRun(events: seq<Event>) {
    forall e :: e in events && e.Arrive? ==> PlainKey(e.req.key)
  }

  ghost predicate PlainProcs(s: System) {
    forall pid :: pid in s.procs ==> PlainKey(s.procs[pid].req.key)
  }

  /** Nobody but its own request ever releases a backlog token. */
  ghost predicate BacklogsUntouched(s: System) {
    forall pid, k, t :: pid in s.procs && (k, t) in Held(s.procs[pid]) && BACKLOG_PREFIX <= k ==> t !in s.released
  }

  lemma {:induction false} QueueReachable(replicas: map<Replica, Config>, events: seq<Event>)
    requires PlainRun(events)
    ensures var s := Exec(Start(replicas), events); Inv(s) && PlainProcs(s) && BacklogsUntouched(s)
  {
    Reachable(replicas, events);
    if events == [] {
    } else {
      var before := events[..|events| - 1];
      QueueReachable(replicas, before);
      QueuePreserved(Exec(Start(replicas), before), events[|events| - 1]);
    }
  }

  lemma QueuePreserved(s: System, e: Event)
    requires Inv(s) && PlainProcs(s) && BacklogsUntouched(s)
    requires e.Arrive? ==> PlainKey(e.req.key)
    ensures PlainProcs(Apply(s, e)) && BacklogsUntouched(Apply(s, e))
  {
    match e
    case Arrive(_, _, req, tierOne) =>
      if tierOne.decision.reservations == [] {
        ArriveHoldsNothing(tierOne, req);
      }
    case Advance(pid, turn) => TurnSparesBacklogs(s, pid, turn);
    case ClientRelease(key, token) => ClientSparesBacklogs(s, key, token);
    case _ =>
  }

  lemma ClientSparesBacklogs(s: System, key: Key, token: Token)
    requires Inv(s) && PlainProcs(s) && BacklogsUntouched(s)
    ensures BacklogsUntouched(Apply(s, ClientRelease(key, token)))
  {
    if ClientHas(s, token) {
      RemoveSmaller(s.db, key, token);
      var pid :| pid in s.procs && Knows(s.procs[pid], token);
      var p := s.procs[pid];
      var r :| r in Answer(p).decision.reservations && r.token == token;
      assert (r.key, token) in Granted(Answer(p));
      Pipelines.EveryGrantIsReturned(p.stage.consulted);
      GrantKeys(p, r.key, token);
      assert s.issued[token].key == r.key;
    }
  }

  lemma GrantKeys(p: Proc, k: Key, t: Token)
    requires WellFormed(p) && p.stage.Done? && (k, t) in Held(p)
    ensures k == p.req.key || k == FLEET_KEY
  {
    var vs := p.stage.consulted;
    if |vs| == 1 {
      assert vs == [vs[0]];
      ArriveHoldsNothing(p.tierOne, p.req);
    } else if |vs| == 2 {
      assert vs == [vs[0], vs[1]];
      Pipelines.GrantedByTwo(vs[0], vs[1]);
      HonestGrant(vs[1], p.req.key, p.req.skipReservations);
    } else {
      assert vs == [vs[0], vs[1], vs[2]];
      Pipelines.GrantedByThree(vs[0], vs[1], vs[2]);
      HonestGrant(vs[1], p.req.key, p.req.skipReservations);
      HonestGrant(vs[2], FLEET_KEY, p.req.skipReservations);
    }
  }

  lemma TurnSparesBacklogs(s: System, pid: Pid, turn: Turn)
    requires Inv(s) && PlainProcs(s) && BacklogsUntouched(s)
    ensures PlainProcs(Apply(s, Advance(pid, turn))) && BacklogsUntouched(Apply(s, Advance(pid, turn)))
  {
    if Moves(s, pid, turn) {
      var call, after, reply := Turned(s, pid, turn);
      DecrIsOwn(s.procs[pid], turn.wake);
      Accounting(s.procs[pid], turn.wake, reply);
      SparesBacklogs(s, pid, turn, call, after, reply);
    } else if pid !in s.procs || !s.procs[pid].stage.BetweenTiers? {
      OtherwiseStill(s, pid, turn);
    }
  }

  lemma SparesBacklogs(s: System, pid: Pid, turn: Turn, call: Call, after: Db, reply: Reply)
    requires Inv(s) && BacklogsUntouched(s) && pid in s.procs
    requires FreshCandidate(s, call, turn) && Effect(s.db, call, turn, after, reply)
    requires call.Decr? ==> (call.key, call.token) in Held(s.procs[pid])
    requires Held(OnReply(s.procs[pid], turn.wake, reply)) == Held(s.procs[pid]) + CL.Gain(call, reply) - CL.Loss(call)
    ensures BacklogsUntouched(AfterTurn(s, pid, call, turn, after, reply))
  {}

  /** The requests queued on key k: between the backlog acquire and the deferred release. */
  function Waiters(s: System, k: Key): set<Pid> {
    set pid | pid in s.procs && IsWaiting(s.procs[pid], k)
  }

  predicate IsWaiting(p: Proc, k: Key) {
    p.req.key == k && p.stage.InSlot? && (p.stage.slot.Waiting? || p.stage.slot.GivingBack?)
  }

  function BacklogToken(p: Proc): Token {
    if p.stage.InSlot? && (p.stage.slot.Waiting? || p.stage.slot.GivingBack?) then p.stage.slot.backlog else ""
  }

  /** The tokens of the requests queued on k, and those of them whose lease was reaped. */
  function QueueTokens(s: System, k: Key): set<Token> {
    set pid | pid in Waiters(s, k) :: BacklogToken(s.procs[pid])
  }

  function Overdue(s: System, k: Key): set<Pid> {
    set pid | pid in Waiters(s, k) && BacklogToken(s.procs[pid]) in s.reaped
  }

  /** Every token of k's backlog that was lost has been taken out by now. */
  ghost predicate LostOnesAreGone(s: System, k: Key) {
    forall t :: t in s.lost && t in s.issued && s.issued[t].key == BacklogKey(k) ==> t in s.released + s.reaped
  }

  /** The backlog set of a key is exactly the requests queued on it, fleet-wide and token
      by token, if and only if no waiter's lease was reaped and every token that was lost
      on its way has been taken out. So in such a state every request that returned,
      whichever way, has given its backlog token back; and lost tokens part the two only
      until they are reaped. */
  lemma BacklogIsTheQueue(replicas: map<Replica, Config>, events: seq<Event>, k: Key)
    requires PlainRun(events)
    ensures var s := Exec(Start(replicas), events);
            && (At(s.db, BacklogKey(k)).Keys == QueueTokens(s, k) <==> Overdue(s, k) == {} && LostOnesAreGone(s, k))
            && |QueueTokens(s, k)| == |Waiters(s, k)|
  {
    QueueReachable(replicas, events);
    var s := Exec(Start(replicas), events);
    TokensMatchWaiters(s, k);
    BacklogMatchesExactlyWhen(s, k);
  }

  lemma BacklogMatchesExactlyWhen(s: System, k: Key)
    requires Inv(s) && PlainProcs(s) && BacklogsUntouched(s)
    ensures At(s.db, BacklogKey(k)).Keys == QueueTokens(s, k) <==> Overdue(s, k) == {} && LostOnesAreGone(s, k)
  {
    var live, queued := At(s.db, BacklogKey(k)).Keys, QueueTokens(s, k);
    forall t
      ensures t in queued ==> t !in s.lost && (t in live <==> t !in s.reaped)
      ensures t in live && t !in s.lost ==> t in queued
    {
      QueuedTokenIsLive(s, k, t);
      LiveTokenIsQueued(s, k, t);
    }
    SetsAgreeExactlyWhen(live, queued, s.reaped, s.lost);
    NoneOverdue(s, k);
    NoneLostAndLive(s, k);
  }

  lemma SetsAgreeExactlyWhen(live: set<Token>, queued: set<Token>, reaped: set<Token>, lost: set<Token>)
    requires forall t :: t in queued ==> t !in lost && (t in live <==> t !in reaped)
    requires forall t :: t in live && t !in lost ==> t in queued
    ensures live == queued <==> (forall t :: t in queued ==> t !in reaped) && (forall t :: t in live ==> t !in lost)
  {}

  lemma NoneOverdue(s: System, k: Key)
    ensures Overdue(s, k) == {} <==> forall t :: t in QueueTokens(s, k) ==> t !in s.reaped
  {
    if t :| t in QueueTokens(s, k) && t in s.reaped {
      var pid :| pid in Waiters(s, k) && BacklogToken(s.procs[pid]) == t;
      assert pid in Overdue(s, k);
    }
    if pid :| pid in Overdue(s, k) {
      assert BacklogToken(s.procs[pid]) in QueueTokens(s, k);
    }
  }

  lemma NoneLostAndLive(s: System, k: Key)
    requires Ledger(s) && History(s)
    ensures LostOnesAreGone(s, k) <==> forall t :: t in At(s.db, BacklogKey(k)) ==> t !in s.lost
  {}

  /** A queued request's token is in the set unless its lease was reaped. */
  lemma QueuedTokenIsLive(s: System, k: Key, t: Token)
    requires Inv(s) && PlainProcs(s) && BacklogsUntouched(s)
    ensures t in QueueTokens(s, k) ==> t !in s.lost && (t in At(s.db, BacklogKey(k)) <==> t !in s.reaped)
  {
    if t in QueueTokens(s, k) {
      var pid :| pid in Waiters(s, k) && BacklogToken(s.procs[pid]) == t;
      assert (BacklogKey(k), t) in Held(s.procs[pid]);
      assert BACKLOG_PREFIX <= BacklogKey(k);
    }
  }

  /** A token in the set belongs to a queued request unless it was lost. */
  lemma LiveTokenIsQueued(s: System, k: Key, t: Token)
    requires Inv(s) && PlainProcs(s) && BacklogsUntouched(s)
    ensures t in At(s.db, BacklogKey(k)) && t !in s.lost ==> t in QueueTokens(s, k)
  {
    if t in At(s.db, BacklogKey(k)) && t !in s.lost {
      var pid := s.issued[t].pid;
      assert (BacklogKey(k), t) in Held(s.procs[pid]);
      HeldBacklogMeansWaiting(s.procs[pid], k, t);
    }
  }

  /** No two queued requests share a token. */
  lemma TokensMatchWaiters(s: System, k: Key)
    requires Inv(s)
    ensures |QueueTokens(s, k)| == |Waiters(s, k)|
  {
    var token := map pid | pid in s.procs :: BacklogToken(s.procs[pid]);
    var owner := map t | t in s.issued :: s.issued[t].pid;
    OwnersOfTokens(s, k);
    Bijection(Waiters(s, k), QueueTokens(s, k), token, owner);
  }

  lemma OwnersOfTokens(s: System, k: Key)
    requires Inv(s)
    ensures forall pid :: pid in Waiters(s, k) ==>
              BacklogToken(s.procs[pid]) in s.issued && s.issued[BacklogToken(s.procs[pid])].pid == pid
  {
    forall pid | pid in Waiters(s, k)
      ensures BacklogToken(s.procs[pid]) in s.issued && s.issued[BacklogToken(s.procs[pid])].pid == pid
    {
      assert (BacklogKey(k), BacklogToken(s.procs[pid])) in Held(s.procs[pid]);
    }
  }

  /** However many leases were reaped and releases lost, the requests queued on a key are
      at most its backlog set and those whose lease was reaped. */
  lemma WaitersWithinBacklogAndOverdue(replicas: map<Replica, Config>, events: seq<Event>, k: Key)
    requires PlainRun(events)
    ensures var s := Exec(Start(replicas), events);
            |Waiters(s, k)| <= |At(s.db, BacklogKey(k))| + |Overdue(s, k)|
  {
    QueueReachable(replicas, events);
    var s := Exec(Start(replicas), events);
    var live := At(s.db, BacklogKey(k)).Keys;
    OnTimeWaiters(s, k);
    assert Waiters(s, k) == (Waiters(s, k) - Overdue(s, k)) + Overdue(s, k);
  }

  lemma OnTimeWaiters(s: System, k: Key)
    requires Inv(s) && PlainProcs(s) && BacklogsUntouched(s)
    ensures |Waiters(s, k) - Overdue(s, k)| <= |At(s.db, BacklogKey(k))|
  {
    var onTime := Waiters(s, k) - Overdue(s, k);
    var tokens := set pid | pid in onTime :: BacklogToken(s.procs[pid]);
    var token := map pid | pid in s.procs :: BacklogToken(s.procs[pid]);
    var owner := map t | t in s.issued :: s.issued[t].pid;
    OwnersOfTokens(s, k);
    Bijection(onTime, tokens, token, owner);
    forall t | t in tokens
      ensures t in At(s.db, BacklogKey(k))
    {
      QueuedTokenIsLive(s, k, t);
    }
    SubsetSize(tokens, At(s.db, BacklogKey(k)).Keys);
  }

  lemma HeldBacklogMeansWaiting(p: Proc, k: Key, t: Token)
    requires WellFormed(p) && PlainKey(p.req.key) && (BacklogKey(k), t) in Held(p)
    ensures IsWaiting(p, k) && BacklogToken(p) == t
  {
    var key := BacklogKey(k);
    assert BACKLOG_PREFIX <= key;
    KeySpacesDisjoint(k);
    match p.stage
    case InSlot(_, st) =>
      if st.GivingBack? { HonestGrant(st.pending, p.req.key, false); }
      if st.Returned? { HonestGrant(st.verdict, p.req.key, p.req.skipReservations); }
      assert key == BacklogKey(p.req.key);
    case BetweenTiers(first) => HonestGrant(first, p.req.key, p.req.skipReservations);
    case InFleet(first, _, st) =>
      HonestGrant(first, p.req.key, p.req.skipReservations);
      if st.Returned? { HonestGrant(st.verdict, FLEET_KEY, p.req.skipReservations); }
    case Done(_) => GrantKeys(p, key, t);
  }
}
