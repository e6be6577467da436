/** A whole request in an interleaved run is one run of the pipeline: its answer is the
    answer of the pipeline's loop over the same tiers, when the others' operations are
    slipped in between its own calls. */
module ClusterPipeline {
  import opened TokenStore
  import opened Limits
  import opened Cluster
  import opened ClusterLedger
  import opened ClusterRefinement
  import ClusterBounds
  import CL = ConcurrencyLimiter
  import FS = FleetShedder
  import Pipelines
  import RT = RoundTrip

  /** What is left to do for a request, run straight to the end; f is the configuration
      that its fleet check will take, if it comes to that. */
  function Finish(p: Proc, f: FS.FleetConfig, db: Db, env: seq<Slice>): (seq<Verdict>, RT.World) {
    match p.stage
    case InSlot(cfg, st) =>
      var (v, after, rest) := CL.Drive(st, cfg, p.req, db, env);
      if Passes(v) then FinishFleet(p, v, f, FS.Begin(p.req), after, rest) else ([p.tierOne, v], RT.World(after, rest))
    case BetweenTiers(first) => FinishFleet(p, first, f, FS.Begin(p.req), db, env)
    case InFleet(first, cfg, st) => FinishFleet(p, first, cfg, st, db, env)
    case Done(vs) => (vs, RT.World(db, env))
  }

  function FinishFleet(p: Proc, first: Verdict, cfg: FS.FleetConfig, st: FS.FleetState, db: Db, env: seq<Slice>)
    : (seq<Verdict>, RT.World)
  {
    var (v, after, rest) := FS.Drive(st, cfg, p.req, db, env);
    ([p.tierOne, first, v], RT.World(after, rest))
  }

  /** The store right after the request's last own turn. */
  function Base(s: System, events: seq<Event>, pid: Pid): Db {
    if events == [] then s.db
    else if OwnTurn(Exec(s, events[..|events| - 1]), events[|events| - 1], pid) then Exec(s, events).db
    else Base(s, events[..|events| - 1], pid)
  }

  lemma {:induction false} PendingLeadsOn(s: System, events: seq<Event>, pid: Pid)
    ensures Exec(s, events).db == ApplyOps(Base(s, events, pid), View(s, events, pid).1)
  {
    if events == [] {
    } else {
      var before, e := events[..|events| - 1], events[|events| - 1];
      PendingLeadsOn(s, before, pid);
      var mid := Exec(s, before);
      if !OwnTurn(mid, e, pid) {
        OpOfIsApply(mid, e);
        ApplyOpsConcat(Base(s, before, pid), View(s, before, pid).1, OpOf(mid, e));
      }
    }
  }

  /** At every point of the run, f is the configuration of this request's fleet check, if
      it is in one. */
  ghost predicate TakesFleet(s: System, events: seq<Event>, pid: Pid, f: FS.FleetConfig) {
    FleetIsAt(Exec(s, events), pid, f) && (events != [] ==> TakesFleet(s, events[..|events| - 1], pid, f))
  }

  predicate FleetIsAt(s: System, pid: Pid, f: FS.FleetConfig) {
    pid in s.procs && s.procs[pid].stage.InFleet? ==> s.procs[pid].stage.fleetCfg == f
  }

  /** There is one: a request has at most one fleet check, and keeps its snapshot. Until
      that begins, any configuration will do. */
  lemma {:induction false} SomeFleetIsTaken(s: System, events: seq<Event>, pid: Pid) returns (f: FS.FleetConfig)
    requires pid in s.procs
    ensures TakesFleet(s, events, pid, f)
    ensures pid in Exec(s, events).procs && Progress(Exec(s, events).procs[pid]) < 2 ==>
              forall g :: TakesFleet(s, events, pid, g)
  {
    if events == [] {
      f := if s.procs[pid].stage.InFleet? then s.procs[pid].stage.fleetCfg else FS.FleetConfig(0, 0, 0, false);
    } else {
      var before, e := events[..|events| - 1], events[|events| - 1];
      f := SomeFleetIsTaken(s, before, pid);
      var mid, now := Exec(s, before), Exec(s, events);
      ProgressKept(s, before, pid);
      ProgressGrows(mid, e, pid);
      if now.procs[pid].stage.InFleet? && !mid.procs[pid].stage.InFleet? {
        f := now.procs[pid].stage.fleetCfg;
      } else if now.procs[pid].stage.InFleet? {
        ClusterBounds.SnapshotsAreWhole(mid, e, pid);
        assert FleetIsAt(mid, pid, f);
      }
    }
  }

  /** So far the run has done for the request just what finishing it straight away from
      the start would have done on its own view of the run. */
  ghost predicate OnTrack(s: System, events: seq<Event>, pid: Pid, f: FS.FleetConfig)
    requires pid in s.procs
  {
    pid in Exec(s, events).procs &&
    forall rest: seq<Slice> ::
      Finish(s.procs[pid], f, s.db, View(s, events, pid).0 + rest)
      == Finish(Exec(s, events).procs[pid], f, Base(s, events, pid), rest)
  }

  lemma {:induction false} StaysOnTrack(s: System, events: seq<Event>, pid: Pid, f: FS.FleetConfig)
    requires pid in s.procs && TakesFleet(s, events, pid, f)
    ensures OnTrack(s, events, pid, f)
  {
    if events == [] {
      forall rest: seq<Slice>
        ensures Finish(s.procs[pid], f, s.db, View(s, events, pid).0 + rest) == Finish(s.procs[pid], f, s.db, rest)
      {
        assert [] + rest == rest;
      }
    } else {
      var before, e := events[..|events| - 1], events[|events| - 1];
      StaysOnTrack(s, before, pid, f);
      PendingLeadsOn(s, before, pid);
      var mid := Exec(s, before);
      ProgressGrows(mid, e, pid);
      if OwnTurn(mid, e, pid) {
        OwnTurnOnTrack(s, before, e, pid, f);
        assert before + [e] == events;
      } else {
        HandOver(mid, e, pid, f);
      }
    }
  }

  lemma OwnTurnOnTrack(s: System, before: seq<Event>, e: Event, pid: Pid, f: FS.FleetConfig)
    requires pid in s.procs && OnTrack(s, before, pid, f) && OwnTurn(Exec(s, before), e, pid)
    requires Exec(s, before).db == ApplyOps(Base(s, before, pid), View(s, before, pid).1)
    ensures OnTrack(s, before + [e], pid, f)
  {
    var events := before + [e];
    assert events[..|events| - 1] == before;
    var (slices, pending) := View(s, before, pid);
    var last := Slice(pending, e.turn);
    var mid, base := Exec(s, before), Base(s, before, pid);
    forall rest: seq<Slice>
      ensures Finish(s.procs[pid], f, s.db, slices + [last] + rest)
           == Finish(Apply(mid, e).procs[pid], f, Apply(mid, e).db, rest)
    {
      assert slices + [last] + rest == slices + ([last] + rest);
      assert Finish(s.procs[pid], f, s.db, slices + ([last] + rest)) == Finish(mid.procs[pid], f, base, [last] + rest);
      TurnFinishes(mid, e, pid, f, base, last, rest);
    }
  }

  /** The request's next turn is the first step of what is left to do. */
  lemma TurnFinishes(s: System, e: Event, pid: Pid, f: FS.FleetConfig, base: Db, last: Slice, rest: seq<Slice>)
    requires OwnTurn(s, e, pid) && s.db == ApplyOps(base, last.others) && last.turn == e.turn
    ensures Finish(s.procs[pid], f, base, [last] + rest) == Finish(Apply(s, e).procs[pid], f, Apply(s, e).db, rest)
  {
    var p := s.procs[pid];
    OwnTurnSteps(s, e, pid);
    var env := [last] + rest;
    assert env[0] == last && env[1..] == rest;
    DriveUnfolds(TierOf(p), p.req, base, env);
  }

  /** Everybody else's events, and a hand-over between tiers, leave what is left to do as
      it is, whatever the store. */
  lemma HandOver(s: System, e: Event, pid: Pid, f: FS.FleetConfig)
    requires pid in s.procs && !OwnTurn(s, e, pid) && pid in Apply(s, e).procs && FleetIsAt(Apply(s, e), pid, f)
    ensures forall db, rest: seq<Slice> ::
              Finish(s.procs[pid], f, db, rest) == Finish(Apply(s, e).procs[pid], f, db, rest)
  {
    if e.Advance? && Moves(s, e.pid, e.turn) {
      TurnedDb(s, e.pid, e.turn);
    }
  }

  /** A request that passed Tier 1 and is finished has been answered as the pipeline's
      loop answers it: over the three tiers with the configurations it took, in the
      environment the run made for it, leaving the store as the loop does. */
  lemma InterleavedPipelineIsPipeline(s: System, events: seq<Event>, pid: Pid, cfg: CL.SlotConfig)
      returns (f: FS.FleetConfig)
    requires pid in s.procs && Passes(s.procs[pid].tierOne)
    requires s.procs[pid].stage == InSlot(cfg, CL.Begin(s.procs[pid].req))
    requires var s' := Exec(s, events); pid in s'.procs && s'.procs[pid].stage.Done?
    ensures TakesFleet(s, events, pid, f)
    ensures var p, p' := s.procs[pid], Exec(s, events).procs[pid];
            var (slices, pending) := View(s, events, pid);
            var (vs, w) := Pipelines.Consulted(RT.Tiers(p.tierOne, cfg, f), p.req, RT.World(s.db, slices));
            && Answer(p') == Pipelines.Summary(vs) && p'.stage.consulted == vs
            && w.env == []
            && Exec(s, events).db == ApplyOps(w.db, pending)
  {
    f := SomeFleetIsTaken(s, events, pid);
    StaysOnTrack(s, events, pid, f);
    PendingLeadsOn(s, events, pid);
    var p, slices := s.procs[pid], View(s, events, pid).0;
    assert slices + [] == slices;
    assert Finish(p, f, s.db, slices + []) == Finish(Exec(s, events).procs[pid], f, Base(s, events, pid), []);
    FinishIsConsulted(p, cfg, f, s.db, slices);
  }

  lemma FinishIsConsulted(p: Proc, cfg: CL.SlotConfig, f: FS.FleetConfig, db: Db, env: seq<Slice>)
    requires Passes(p.tierOne) && p.stage == InSlot(cfg, CL.Begin(p.req))
    ensures Finish(p, f, db, env) == Pipelines.Consulted(RT.Tiers(p.tierOne, cfg, f), p.req, RT.World(db, env))
  {
    RT.ConsultedThree(RT.RateTier(p.tierOne), RT.SlotTier(cfg), RT.FleetTier(f), p.req, RT.World(db, env));
  }
}
