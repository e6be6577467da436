/** The two descriptions of the tiers agree: what a request experiences in an
    interleaved run is what the straight-line Check of each tier does when the other
    requests' store operations are slipped in between its own calls, and the tiers
    follow one another as in the pipeline's loop. */
module ClusterRefinement {
  import opened TokenStore
  import opened Limits
  import opened Cluster
  import opened ClusterLedger
  import CL = ConcurrencyLimiter
  import FS = FleetShedder
  import Configs

  /** An event as the other requests see it: what it does to the store. */
  function OpOf(s: System, e: Event): seq<Op> {
    match e
    case Advance(pid, turn) => if Moves(s, pid, turn) then CallOp(NextCall(s.procs[pid], turn.wake), turn) else []
    case ClientRelease(key, token) => if ClientHas(s, token) then [OtherDecr(key, token)] else []
    case KeyExpiry(key) => [Evict(key)]
    case _ => []
  }

  function CallOp(call: Call, turn: Turn): seq<Op> {
    match call
    case NoCall => []
    case Incr(key, cap, maxDurationMs) =>
      if turn.fault.NotExecuted? then [] else [OtherIncr(key, cap, maxDurationMs, turn.now, turn.candidate)]
    case Decr(key, token) =>
      if turn.fault.NotExecuted? then [] else [OtherDecr(key, token)]
  }

  lemma CallOpIsPerform(db: Db, call: Call, turn: Turn)
    ensures ApplyOps(db, CallOp(call, turn)) == Perform(db, call, turn).0
  {
    var ops := CallOp(call, turn);
    if ops != [] {
      assert ops[1..] == [];
    }
  }

  lemma OpOfIsApply(s: System, e: Event)
    ensures ApplyOps(s.db, OpOf(s, e)) == Apply(s, e).db
  {
    match e
    case Advance(pid, turn) =>
      if Moves(s, pid, turn) {
        CallOpIsPerform(s.db, NextCall(s.procs[pid], turn.wake), turn);
        TurnedDb(s, pid, turn);
      }
    case ClientRelease(key, token) =>
      assert [OtherDecr(key, token)][1..] == [];
    case KeyExpiry(key) =>
      assert [Evict(key)][1..] == [];
    case _ =>
  }

  /** A tier's Check under way, on its snapshot of the configuration. */
  datatype Tier =
    | Slot(slotCfg: CL.SlotConfig, slot: CL.SlotState)
    | Fleet(fleetCfg: FS.FleetConfig, fleet: FS.FleetState)

  predicate InTier(p: Proc) {
    p.stage.InSlot? || p.stage.InFleet?
  }

  function TierOf(p: Proc): Tier
    requires InTier(p)
  {
    if p.stage.InSlot? then Slot(p.stage.slotCfg, p.stage.slot) else Fleet(p.stage.fleetCfg, p.stage.fleet)
  }

  function Resume(p: Proc, t: Tier): Proc
    requires InTier(p)
  {
    match t
    case Slot(cfg, st) => p.(stage := InSlot(cfg, st))
    case Fleet(cfg, st) => if p.stage.InFleet? then p.(stage := InFleet(p.stage.first, cfg, st)) else p
  }

  predicate Finished(t: Tier) {
    match t
    case Slot(_, st) => st.Returned?
    case Fleet(_, st) => st.Returned?
  }

  function VerdictOf(t: Tier): Verdict
    requires Finished(t)
  {
    match t
    case Slot(_, st) => st.verdict
    case Fleet(_, st) => st.verdict
  }

  /** A tier's Check at its beginning, and the straight-line method's specification. */
  predicate Entered(t: Tier, req: Request) {
    match t
    case Slot(_, st) => st == CL.Begin(req)
    case Fleet(_, st) => st == FS.Begin(req)
  }

  function Drive(t: Tier, req: Request, db: Db, env: seq<Slice>): (Verdict, Db, seq<Slice>) {
    match t
    case Slot(cfg, st) => CL.Drive(st, cfg, req, db, env)
    case Fleet(cfg, st) => FS.Drive(st, cfg, req, db, env)
  }

  function Step(t: Tier, req: Request, db: Db, turn: Turn): (Tier, Db) {
    match t
    case Slot(cfg, st) =>
      var (next, after) := CL.Step(st, cfg, req, db, turn);
      (Slot(cfg, next), after)
    case Fleet(cfg, st) =>
      var (next, after) := FS.Step(st, cfg, req, db, turn);
      (Fleet(cfg, next), after)
  }

  /** Whether an event is a turn of request pid inside a tier's Check. */
  predicate OwnTurn(s: System, e: Event, pid: Pid) {
    e.Advance? && e.pid == pid && Moves(s, pid, e.turn) && InTier(s.procs[pid]) && !Finished(TierOf(s.procs[pid]))
  }

  /** A run as one request sees it: for each of its turns, the operations of everybody
      else since the turn before; and the operations after its last turn. */
  function View(s: System, events: seq<Event>, pid: Pid): (seq<Slice>, seq<Op>) {
    if events == [] then ([], [])
    else
      var before, e := events[..|events| - 1], events[|events| - 1];
      var (slices, pending) := View(s, before, pid);
      var mid := Exec(s, before);
      if OwnTurn(mid, e, pid) then (slices + [Slice(pending, e.turn)], [])
      else (slices, pending + OpOf(mid, e))
  }

  /** The tier's automaton over exactly these slices. */
  function Partial(t: Tier, req: Request, db: Db, slices: seq<Slice>): (Tier, Db)
    decreases |slices|
  {
    if slices == [] then (t, db)
    else
      var (next, after) := Step(t, req, ApplyOps(db, slices[0].others), slices[0].turn);
      Partial(next, req, after, slices[1..])
  }

  lemma {:induction false} PartialSnoc(t: Tier, req: Request, db: Db, slices: seq<Slice>, last: Slice)
    ensures var (mid, between) := Partial(t, req, db, slices);
            Partial(t, req, db, slices + [last]) == Step(mid, req, ApplyOps(between, last.others), last.turn)
    decreases |slices|
  {
    if slices == [] {
      assert ([last])[1..] == [];
      assert slices + [last] == [last];
    } else {
      assert (slices + [last])[1..] == slices[1..] + [last];
      var (next, after) := Step(t, req, ApplyOps(db, slices[0].others), slices[0].turn);
      PartialSnoc(next, req, after, slices[1..], last);
    }
  }

  lemma DriveUnfolds(t: Tier, req: Request, db: Db, slices: seq<Slice>)
    requires !Finished(t) && slices != []
    ensures var (next, after) := Step(t, req, ApplyOps(db, slices[0].others), slices[0].turn);
            Drive(t, req, db, slices) == Drive(next, req, after, slices[1..])
  {}

  /** Driving to the end on slices that end exactly at the return. */
  lemma {:induction false} DriveIsPartial(t: Tier, req: Request, db: Db, slices: seq<Slice>)
    requires Finished(Partial(t, req, db, slices).0)
    requires forall n :: 0 <= n < |slices| ==> !Finished(Partial(t, req, db, slices[..n]).0)
    ensures var (end, after) := Partial(t, req, db, slices);
            Drive(t, req, db, slices) == (VerdictOf(end), after, [])
    decreases |slices|
  {
    if slices == [] {
    } else {
      assert slices[..0] == [];
      assert !Finished(Partial(t, req, db, slices[..0]).0);
      var (next, after) := Step(t, req, ApplyOps(db, slices[0].others), slices[0].turn);
      var rest := slices[1..];
      forall n | 0 <= n < |rest|
        ensures !Finished(Partial(next, req, after, rest[..n]).0)
      {
        assert slices[..n + 1][1..] == rest[..n];
        assert slices[..n + 1][0] == slices[0];
        assert !Finished(Partial(t, req, db, slices[..n + 1]).0);
      }
      DriveIsPartial(next, req, after, rest);
      DriveUnfolds(t, req, db, slices);
    }
  }

  /** How far a request has come; it never goes back. */
  function Progress(p: Proc): nat {
    match p.stage
    case InSlot(_, _) => 0
    case BetweenTiers(_) => 1
    case InFleet(_, _, _) => 2
    case Done(_) => 3
  }

  lemma ProgressGrows(s: System, e: Event, pid: Pid)
    requires pid in s.procs
    ensures pid in Apply(s, e).procs && Progress(s.procs[pid]) <= Progress(Apply(s, e).procs[pid])
  {
    if e.Advance? && Moves(s, e.pid, e.turn) {
      TurnedDb(s, e.pid, e.turn);
    }
  }

  lemma {:induction false} ProgressKept(s: System, events: seq<Event>, pid: Pid)
    requires pid in s.procs
    ensures pid in Exec(s, events).procs && Progress(s.procs[pid]) <= Progress(Exec(s, events).procs[pid])
  {
    if events == [] {
    } else {
      var before := events[..|events| - 1];
      ProgressKept(s, before, pid);
      ProgressGrows(Exec(s, before), events[|events| - 1], pid);
    }
  }

  lemma OwnTurnSteps(s: System, e: Event, pid: Pid)
    requires OwnTurn(s, e, pid)
    ensures var p := s.procs[pid];
            var (next, after) := Step(TierOf(p), p.req, s.db, e.turn);
            Apply(s, e).procs[pid] == Resume(p, next) && Apply(s, e).db == after
  {
    TurnedDb(s, pid, e.turn);
  }

  lemma OtherEventsSpare(s: System, e: Event, pid: Pid)
    requires pid in s.procs && InTier(s.procs[pid]) && !OwnTurn(s, e, pid)
    requires Progress(Apply(s, e).procs[pid]) == Progress(s.procs[pid])
    ensures Apply(s, e).procs[pid] == s.procs[pid]
  {
    if e.Advance? && Moves(s, e.pid, e.turn) {
      TurnedDb(s, e.pid, e.turn);
    }
  }

  /** Where the automaton stands after the request's own view of the run. */
  ghost predicate Follows(s: System, events: seq<Event>, pid: Pid)
    requires pid in s.procs && InTier(s.procs[pid])
  {
    var p := s.procs[pid];
    var (slices, pending) := View(s, events, pid);
    var (t, db) := Partial(TierOf(p), p.req, s.db, slices);
    && pid in Exec(s, events).procs
    && Exec(s, events).procs[pid] == Resume(p, t)
    && t.Slot? == p.stage.InSlot?
    && Exec(s, events).db == ApplyOps(db, pending)
    && Unfinished(p, s.db, slices)
  }

  ghost predicate Unfinished(p: Proc, db: Db, slices: seq<Slice>)
    requires InTier(p)
  {
    forall n :: 0 <= n < |slices| ==> !Finished(Partial(TierOf(p), p.req, db, slices[..n]).0)
  }

  /** As long as a request is inside a tier's Check, the run has taken it exactly where
      the tier's automaton goes over its own view of the run. */
  lemma {:induction false} RunFollowsAutomaton(s: System, events: seq<Event>, pid: Pid)
    requires pid in s.procs && InTier(s.procs[pid])
    requires var s' := Exec(s, events); pid in s'.procs && Progress(s'.procs[pid]) == Progress(s.procs[pid])
    ensures Follows(s, events, pid)
  {
    if events == [] {
    } else {
      var before, e := events[..|events| - 1], events[|events| - 1];
      var mid := Exec(s, before);
      ProgressKept(s, before, pid);
      ProgressGrows(mid, e, pid);
      RunFollowsAutomaton(s, before, pid);
      var p := s.procs[pid];
      var (slices, pending) := View(s, before, pid);
      if OwnTurn(mid, e, pid) {
        OwnTurnFollows(s, before, e, pid);
      } else {
        OpOfIsApply(mid, e);
        ApplyOpsConcat(Partial(TierOf(p), p.req, s.db, slices).1, pending, OpOf(mid, e));
        OtherEventsSpare(mid, e, pid);
      }
    }
  }

  lemma OwnTurnFollows(s: System, before: seq<Event>, e: Event, pid: Pid)
    requires pid in s.procs && InTier(s.procs[pid]) && Follows(s, before, pid) && OwnTurn(Exec(s, before), e, pid)
    ensures Follows(s, before + [e], pid)
  {
    var p, mid := s.procs[pid], Exec(s, before);
    var (slices, pending) := View(s, before, pid);
    var last := Slice(pending, e.turn);
    PartialSnoc(TierOf(p), p.req, s.db, slices, last);
    OwnTurnSteps(mid, e, pid);
    var events := before + [e];
    assert events[..|events| - 1] == before;
    UnfinishedSnoc(p, s.db, slices, last);
  }

  lemma UnfinishedSnoc(p: Proc, db: Db, slices: seq<Slice>, last: Slice)
    requires InTier(p) && Unfinished(p, db, slices) && !Finished(Partial(TierOf(p), p.req, db, slices).0)
    ensures Unfinished(p, db, slices + [last])
  {
    var all := slices + [last];
    forall n | 0 <= n < |all|
      ensures !Finished(Partial(TierOf(p), p.req, db, all[..n]).0)
    {
      if n < |slices| {
        assert all[..n] == slices[..n];
      } else {
        assert all[..n] == slices;
      }
    }
  }

  /** So a tier's Check that returns in the interleaved run returns what the tier's
      straight-line method returns, and leaves the store as it does, in the environment
      the run made for it: the method's contract equates it with this same Drive. */
  lemma InterleavedCheckIsCheck(s: System, events: seq<Event>, pid: Pid)
    requires pid in s.procs && InTier(s.procs[pid]) && Entered(TierOf(s.procs[pid]), s.procs[pid].req)
    requires var s' := Exec(s, events);
             && pid in s'.procs && Progress(s'.procs[pid]) == Progress(s.procs[pid])
             && InTier(s'.procs[pid]) && Finished(TierOf(s'.procs[pid]))
    ensures var p := s.procs[pid];
            var (slices, pending) := View(s, events, pid);
            var (v, db, rest) := Drive(TierOf(p), p.req, s.db, slices);
            && VerdictOf(TierOf(Exec(s, events).procs[pid])) == v
            && Exec(s, events).db == ApplyOps(db, pending)
            && rest == []
  {
    var p := s.procs[pid];
    RunFollowsAutomaton(s, events, pid);
    DriveIsPartial(TierOf(p), p.req, s.db, View(s, events, pid).0);
  }

  /** The verdicts a request has collected, in order. */
  function Collected(p: Proc): seq<Verdict> {
    match p.stage
    case InSlot(_, st) => if st.Returned? then [p.tierOne, st.verdict] else [p.tierOne]
    case BetweenTiers(first) => [p.tierOne, first]
    case InFleet(first, _, st) => if st.Returned? then [p.tierOne, first, st.verdict] else [p.tierOne, first]
    case Done(vs) => vs
  }

  /** No event takes a verdict away, replaces one, or adds two at once. */
  lemma VerdictsAreKept(s: System, e: Event, pid: Pid)
    requires pid in s.procs
    ensures pid in Apply(s, e).procs
    ensures var was, now := Collected(s.procs[pid]), Collected(Apply(s, e).procs[pid]);
            was <= now && |now| <= |was| + 1
  {
    if e.Advance? && Moves(s, e.pid, e.turn) {
      TurnedDb(s, e.pid, e.turn);
    }
  }

  /** The pipeline's rule: every verdict but the last passes, the request goes on only
      while the last one does too, and is done only if it does not or no tier is left. */
  predicate InOrder(p: Proc) {
    var vs := Collected(p);
    && 1 <= |vs| <= 3 && vs[0] == p.tierOne
    && (forall i :: 0 <= i < |vs| - 1 ==> Passes(vs[i]))
    && (p.stage.BetweenTiers? || (InTier(p) && !Finished(TierOf(p))) ==> Passes(vs[|vs| - 1]))
    && (p.stage.Done? ==> |vs| == 3 || !Passes(vs[|vs| - 1]))
  }

  lemma {:induction false} TiersFollowInOrder(replicas: map<Replica, Configs.Config>, events: seq<Event>, pid: Pid)
    requires pid in Exec(Start(replicas), events).procs
    ensures InOrder(Exec(Start(replicas), events).procs[pid])
  {
    if events == [] {
    } else {
      var before, e := events[..|events| - 1], events[|events| - 1];
      var s := Exec(Start(replicas), before);
      if pid in s.procs {
        TiersFollowInOrder(replicas, before, pid);
      }
      OrderStep(s, e, pid);
    }
  }

  lemma OrderStep(s: System, e: Event, pid: Pid)
    requires pid in Apply(s, e).procs && (pid in s.procs ==> InOrder(s.procs[pid]))
    ensures InOrder(Apply(s, e).procs[pid])
  {
    if e.Advance? && Moves(s, e.pid, e.turn) {
      TurnedDb(s, e.pid, e.turn);
    }
  }
}
