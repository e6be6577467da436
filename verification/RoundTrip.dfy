/** Acquire, then release: what the pipeline reserved, printed into headers, read back
    by the client and released one by one, leaves every token set as it was. */
module RoundTrip {
  import opened TokenStore
  import opened Limits
  import opened Headers
  import CL = ConcurrencyLimiter
  import FS = FleetShedder
  import Pipelines
  import TS = TokenSigning

  type Grants = set<(Key, Token)>

  /** The keys that sign tokens: the core's secret, and the mac it is used with. */
  datatype Signer = Signer(mac: TS.Mac, key: TS.Bytes)

  predicate Verifies(signer: Signer, token: Token) {
    TS.VerifyToken(signer.mac, signer.key, token)
  }

  /** One release on its way through the sidecar and the core: the sidecar refuses a
      blank key, the core a token it did not sign. */
  function ReleaseOne(db: Db, r: TokenReservation, signer: Signer, slice: Slice): (Db, bool) {
    var now := ApplyOps(db, slice.others);
    if r.key == "" || !Verifies(signer, r.token) then (now, false)
    else
      var (after, reply) := Perform(now, Decr(r.key, r.token), slice.turn);
      (after, reply.Reply?)
  }

  /** A ticket's release, from reservation i on: every one in turn, whether or not the
      ones before it failed, and the number of failures. */
  function ReleaseFrom(db: Db, rs: seq<TokenReservation>, i: nat, signer: Signer, env: seq<Slice>): (Db, nat)
    requires i <= |rs|
    decreases |rs| - i
  {
    if i == |rs| then (db, 0)
    else
      var (after, ok) := ReleaseOne(db, rs[i], signer, CL.Head(env));
      var (last, errors) := ReleaseFrom(after, rs, i + 1, signer, CL.Tail(env));
      (last, if ok then errors else errors + 1)
  }

  /** With the reservations before i released and their failures counted, this is what
      releasing all of them will have done. */
  predicate Owing(goal: (Db, nat), db: Db, rs: seq<TokenReservation>, i: nat, signer: Signer, env: seq<Slice>,
      errors: nat)
    requires i <= |rs|
  {
    goal == (ReleaseFrom(db, rs, i, signer, env).0, errors + ReleaseFrom(db, rs, i, signer, env).1)
  }

  lemma OwingNext(goal: (Db, nat), db: Db, rs: seq<TokenReservation>, i: nat, signer: Signer, env: seq<Slice>,
      errors: nat,
      after: Db, ok: bool)
    requires i < |rs| && Owing(goal, db, rs, i, signer, env, errors)
    requires (after, ok) == ReleaseOne(db, rs[i], signer, CL.Head(env))
    ensures Owing(goal, after, rs, i + 1, signer, CL.Tail(env), if ok then errors else errors + 1)
  {}

  class Server {
    const store: RedisStore
    const signer: Signer

    constructor (store: RedisStore, signer: Signer)
      ensures this.store == store && this.signer == signer
    {
      this.store := store;
      this.signer := signer;
    }

    /** The sidecar's release handler and the core's ReleaseConcurrency behind it. */
    method ReleaseConcurrency(key: Key, token: Token, slice: Slice) returns (ok: bool)
      modifies store
      ensures (store.db, ok) == ReleaseOne(old(store.db), TokenReservation(key, token), signer, slice)
    {
      if key == "" || !TS.VerifyToken(signer.mac, signer.key, token) {
        store.Interleave(slice.others);
        return false;
      }
      var reply := store.DecrConcurrent(key, token, slice);
      return reply.Reply?;
    }
  }

  class Ticket {
    const server: Server
    const reservations: seq<TokenReservation>

    constructor (server: Server, reservations: seq<TokenReservation>)
      ensures this.server == server && this.reservations == reservations
    {
      this.server := server;
      this.reservations := reservations;
    }

    method Release(env: seq<Slice>) returns (errors: nat)
      modifies server.store
      ensures (server.store.db, errors) == ReleaseFrom(old(server.store.db), reservations, 0, server.signer, env)
    {
      errors := 0;
      var rest := env;
      ghost var goal := ReleaseFrom(server.store.db, reservations, 0, server.signer, env);
      for i := 0 to |reservations|
        invariant Owing(goal, server.store.db, reservations, i, server.signer, rest, errors)
      {
        var r := reservations[i];
        ghost var before := server.store.db;
        var ok := server.ReleaseConcurrency(r.key, r.token, CL.Head(rest));
        OwingNext(goal, before, reservations, i, server.signer, rest, errors, server.store.db, ok);
        rest := CL.Tail(rest);
        if !ok {
          errors := errors + 1;
        }
      }
    }
  }

  /** The slice of the n-th release; there is none once the caller's context is cancelled. */
  function SliceOf(env: seq<Slice>, n: nat): Slice {
    if n < |env| then env[n] else CL.CANCELLED
  }

  /** A release takes effect: it is neither refused on its way nor lost before the store. */
  predicate Effective(r: TokenReservation, signer: Signer, slice: Slice) {
    r.key != "" && Verifies(signer, r.token) && !slice.turn.fault.NotExecuted?
  }

  /** The client sees it fail: refused, or no answer came back. */
  predicate Fails(r: TokenReservation, signer: Signer, slice: Slice) {
    r.key == "" || !Verifies(signer, r.token) || !slice.turn.fault.Delivered?
  }

  function Failures(rs: seq<TokenReservation>, i: nat, signer: Signer, env: seq<Slice>): set<nat>
    requires i <= |rs|
  {
    set j | i <= j < |rs| && Fails(rs[j], signer, SliceOf(env, j - i))
  }

  ghost predicate TakenOut(rs: seq<TokenReservation>, i: nat, signer: Signer, env: seq<Slice>, k: Key, t: Token)
    requires i <= |rs|
  {
    exists j :: i <= j < |rs| && rs[j] == TokenReservation(k, t) && Effective(rs[j], signer, SliceOf(env, j - i))
  }

  /** Whatever becomes of the single releases, with nobody else writing: every one that
      takes effect takes its token out of its set, nothing else changes, and the errors
      counted are the releases that failed. */
  lemma EveryReleaseIsTried(db: Db, rs: seq<TokenReservation>, signer: Signer, env: seq<Slice>)
    requires forall s :: s in env ==> s.others == []
    ensures var (last, errors) := ReleaseFrom(db, rs, 0, signer, env);
            && (forall k, t :: t in At(last, k) <==> t in At(db, k) && !TakenOut(rs, 0, signer, env, k, t))
            && (forall k, t :: t in At(last, k) ==> At(last, k)[t] == At(db, k)[t])
            && errors == |Failures(rs, 0, signer, env)|
  {
    forall k, t
      ensures var last := ReleaseFrom(db, rs, 0, signer, env).0;
              && (t in At(last, k) <==> t in At(db, k) && !TakenOut(rs, 0, signer, env, k, t))
              && (t in At(last, k) ==> At(last, k)[t] == At(db, k)[t])
    {
      TriedFor(db, rs, 0, signer, env, k, t);
    }
    FailuresCounted(db, rs, 0, signer, env);
  }

  /** One token of one set. */
  lemma {:induction false} TriedFor(db: Db, rs: seq<TokenReservation>, i: nat, signer: Signer, env: seq<Slice>,
      k: Key, t: Token)
    requires i <= |rs| && forall s :: s in env ==> s.others == []
    ensures var last := ReleaseFrom(db, rs, i, signer, env).0;
            && (t in At(last, k) <==> t in At(db, k) && !TakenOut(rs, i, signer, env, k, t))
            && (t in At(last, k) ==> At(last, k)[t] == At(db, k)[t])
    decreases |rs| - i
  {
    if i == |rs| {
    } else {
      var after, ok := OneRelease(db, rs[i], signer, CL.Head(env), k, t);
      TriedFor(after, rs, i + 1, signer, CL.Tail(env), k, t);
      TakenOutNext(rs, i, signer, env, k, t);
    }
  }

  lemma {:induction false} FailuresCounted(db: Db, rs: seq<TokenReservation>, i: nat, signer: Signer, env: seq<Slice>)
    requires i <= |rs| && forall s :: s in env ==> s.others == []
    ensures ReleaseFrom(db, rs, i, signer, env).1 == |Failures(rs, i, signer, env)|
    decreases |rs| - i
  {
    if i == |rs| {
      assert Failures(rs, i, signer, env) == {};
    } else {
      var after, ok := OneRelease(db, rs[i], signer, CL.Head(env), "", "");
      FailuresCounted(after, rs, i + 1, signer, CL.Tail(env));
      FailuresNext(rs, i, signer, env);
    }
  }

  lemma OneRelease(db: Db, r: TokenReservation, signer: Signer, slice: Slice, k: Key, t: Token)
      returns (after: Db, ok: bool)
    requires slice.others == []
    ensures (after, ok) == ReleaseOne(db, r, signer, slice)
    ensures ok <==> !Fails(r, signer, slice)
    ensures t in At(after, k) <==> t in At(db, k) && !(r == TokenReservation(k, t) && Effective(r, signer, slice))
    ensures t in At(after, k) ==> At(after, k)[t] == At(db, k)[t]
  {
    after, ok := ReleaseOne(db, r, signer, slice).0, ReleaseOne(db, r, signer, slice).1;
  }

  lemma SliceShift(env: seq<Slice>, n: nat)
    ensures SliceOf(env, 0) == CL.Head(env)
    ensures SliceOf(env, n + 1) == SliceOf(CL.Tail(env), n)
  {}

  lemma TakenOutNext(rs: seq<TokenReservation>, i: nat, signer: Signer, env: seq<Slice>, k: Key, t: Token)
    requires i < |rs|
    ensures TakenOut(rs, i, signer, env, k, t)
            <==> ((rs[i] == TokenReservation(k, t) && Effective(rs[i], signer, CL.Head(env)))
                  || TakenOut(rs, i + 1, signer, CL.Tail(env), k, t))
  {
    SliceShift(env, 0);
    forall j | i < j < |rs|
      ensures Effective(rs[j], signer, SliceOf(env, j - i))
          == Effective(rs[j], signer, SliceOf(CL.Tail(env), j - (i + 1)))
    {
      SliceShift(env, j - (i + 1));
    }
  }

  lemma FailuresNext(rs: seq<TokenReservation>, i: nat, signer: Signer, env: seq<Slice>)
    requires i < |rs|
    ensures |Failures(rs, i, signer, env)|
         == |Failures(rs, i + 1, signer, CL.Tail(env))| + if Fails(rs[i], signer, CL.Head(env)) then 1 else 0
  {
    SliceShift(env, 0);
    forall j | i < j < |rs|
      ensures Fails(rs[j], signer, SliceOf(env, j - i)) == Fails(rs[j], signer, SliceOf(CL.Tail(env), j - (i + 1)))
    {
      SliceShift(env, j - (i + 1));
    }
    var rest := Failures(rs, i + 1, signer, CL.Tail(env));
    assert Failures(rs, i, signer, env) == rest + (if Fails(rs[i], signer, CL.Head(env)) then {i} else {});
    assert i !in rest;
  }

  /** The tiers as the pipeline sees them: each acts on the store and on the
      environment that is left. */
  datatype World = World(db: Db, env: seq<Slice>)

  function SlotTier(cfg: CL.SlotConfig): Pipelines.Tier<World> {
    (req: Request, w: World) =>
      var (v, db, env) := CL.Drive(CL.Begin(req), cfg, req, w.db, w.env);
      (v, World(db, env))
  }

  function FleetTier(cfg: FS.FleetConfig): Pipelines.Tier<World> {
    (req: Request, w: World) =>
      var (v, db, env) := FS.Drive(FS.Begin(req), cfg, req, w.db, w.env);
      (v, World(db, env))
  }

  /** Tier 1 answers without touching the token store, and reserves nothing. */
  function RateTier(tierOne: Verdict): Pipelines.Tier<World> {
    (req: Request, w: World) => (tierOne, w)
  }

  /** One turn of a request is undisturbed: nobody else's operation comes before it, a
      store call is delivered, and an increment brings a fresh signed candidate and finds
      no expired lease in the one set it names. */
  ghost predicate Undisturbed(db: Db, call: Call, slice: Slice, signer: Signer) {
    && slice.others == []
    && (!call.NoCall? ==> slice.turn.fault.Delivered?)
    && (call.Incr? ==>
          && Issued(signer, slice.turn.candidate)
          && slice.turn.candidate !in At(db, call.key)
          && Reap(At(db, call.key), slice.turn.now - call.maxDurationMs) == At(db, call.key))
  }

  /** Every turn of a Tier 2 Check is, all the way to its return. */
  ghost predicate SlotUndisturbed(st: CL.SlotState, cfg: CL.SlotConfig, req: Request, db: Db, env: seq<Slice>,
      signer: Signer)
    decreases |env|, CL.Rank(st)
  {
    if st.Returned? then true
    else
      var slice := CL.Head(env);
      var (next, after) := CL.Step(st, cfg, req, ApplyOps(db, slice.others), slice.turn);
      && Undisturbed(db, CL.NextCall(st, cfg, req, slice.turn.wake), slice, signer)
      && SlotUndisturbed(next, cfg, req, after, CL.Tail(env), signer)
  }

  ghost predicate FleetUndisturbed(st: FS.FleetState, cfg: FS.FleetConfig, req: Request, db: Db, env: seq<Slice>,
      signer: Signer)
    decreases FS.Rank(st)
  {
    if st.Returned? then true
    else
      var slice := CL.Head(env);
      var (next, after) := FS.Step(st, cfg, req, ApplyOps(db, slice.others), slice.turn);
      && Undisturbed(db, FS.NextCall(st, cfg, req), slice, signer)
      && FleetUndisturbed(next, cfg, req, after, CL.Tail(env), signer)
  }

  /** Every turn of the request is, in each tier it gets to. */
  ghost predicate AllUndisturbed(db: Db, env: seq<Slice>, req: Request, tierOne: Verdict, slotCfg: CL.SlotConfig,
      fleetCfg: FS.FleetConfig, signer: Signer) {
    Passes(tierOne) ==>
      var (v, after, rest) := CL.Drive(CL.Begin(req), slotCfg, req, db, env);
      && SlotUndisturbed(CL.Begin(req), slotCfg, req, db, env, signer)
      && (Passes(v) ==> FleetUndisturbed(FS.Begin(req), fleetCfg, req, after, rest, signer))
  }

  predicate Delivers(slice: Slice) {
    slice.others == [] && slice.turn.fault.Delivered?
  }

  ghost predicate Issued(signer: Signer, token: Token) {
    exists uuid :: '.' !in uuid && token == TS.SignToken(signer.mac, signer.key, uuid)
  }

  lemma IssuedVerifies(signer: Signer, token: Token)
    requires Issued(signer, token)
    ensures Verifies(signer, token) && token != ""
  {
    TS.AcceptsExactlyTheSigned(signer.mac, signer.key, token);
    var uuid :| '.' !in uuid && token == TS.SignToken(signer.mac, signer.key, uuid);
    TS.SignedIsNeverBlank(signer.mac, signer.key, uuid);
  }

  /** db is the original store plus exactly the grants g, each of them issued. */
  ghost predicate Adds(original: Db, db: Db, g: Grants, signer: Signer) {
    && (forall k, t :: t in At(db, k) <==> t in At(original, k) || (k, t) in g)
    && (forall k, t :: t in At(original, k) ==> At(db, k)[t] == At(original, k)[t])
    && (forall k, t :: (k, t) in g ==> t !in At(original, k) && Issued(signer, t))
  }

  /** One undisturbed turn: it reaps nothing, and adds or takes out just its token. */
  lemma UndisturbedCall(original: Db, db: Db, g: Grants, call: Call, slice: Slice, signer: Signer)
    requires Undisturbed(db, call, slice, signer) && Adds(original, db, g, signer) && CL.Loss(call) <= g
    ensures var (after, reply) := Perform(ApplyOps(db, slice.others), call, slice.turn);
            && reply.Reply?
            && (call.Incr? ==> (reply.allowed <==> reply.token != ""))
            && Adds(original, after, g + CL.Gain(call, reply) - CL.Loss(call), signer)
  {
    match call
    case Incr(key, cap, d) =>
      DeliveredCall(db, call, slice);
      UndisturbedIncr(original, db, g, key, cap, d, slice.turn, signer);
    case Decr(key, token) =>
      DeliveredCall(db, call, slice);
      AddsLoss(original, db, g, key, token, signer);
      assert g + {} - {(key, token)} == g - {(key, token)};
    case NoCall =>
      assert g + {} - {} == g;
  }

  lemma DeliveredCall(db: Db, call: Call, slice: Slice)
    requires Delivers(slice)
    ensures var done := Perform(ApplyOps(db, slice.others), call, slice.turn);
            && (call.Incr? ==> done == Script(db, call.key, call.cap, call.maxDurationMs, slice.turn.now,
                slice.turn.candidate))
            && (call.Decr? ==> done == (Remove(db, call.key, call.token), Reply(true, call.token)))
            && (call.NoCall? ==> done == (db, Reply(false, "")))
  {}

  lemma UndisturbedIncr(original: Db, db: Db, g: Grants, key: Key, cap: int, d: int, turn: Turn, signer: Signer)
    requires Adds(original, db, g, signer) && Issued(signer, turn.candidate) && turn.candidate !in At(db, key)
    requires Reap(At(db, key), turn.now - d) == At(db, key)
    ensures var (after, reply) := Script(db, key, cap, d, turn.now, turn.candidate);
            && reply.Reply?
            && (reply.allowed <==> reply.token != "")
            && Adds(original, after, g + CL.Gain(Incr(key, cap, d), reply) - {}, signer)
  {
    IssuedVerifies(signer, turn.candidate);
    var after, reply := NothingReaped(db, key, cap, d, turn);
    if reply.allowed {
      AddsGain(original, db, g, key, turn, signer);
      assert g + {(key, turn.candidate)} - {} == g + {(key, turn.candidate)};
    } else {
      SameSets(original, db, after, g, signer);
      assert g + {} - {} == g;
    }
  }

  lemma NothingReaped(db: Db, key: Key, cap: int, d: int, turn: Turn) returns (after: Db, reply: Reply)
    requires Reap(At(db, key), turn.now - d) == At(db, key)
    ensures (after, reply) == Script(db, key, cap, d, turn.now, turn.candidate)
    ensures reply == Reply(true, turn.candidate) || reply == Reply(false, "")
    ensures if reply.allowed then after == Added(db, key, turn) else forall k :: At(after, k) == At(db, k)
  {
    ScriptSets(db, key, cap, d, turn.now, turn.candidate);
    after, reply := Script(db, key, cap, d, turn.now, turn.candidate).0,
        Script(db, key, cap, d, turn.now, turn.candidate).1;
  }

  function Added(db: Db, key: Key, turn: Turn): Db {
    db[key := At(db, key)[turn.candidate := turn.now]]
  }

  lemma SameSets(original: Db, db: Db, after: Db, g: Grants, signer: Signer)
    requires forall k :: At(after, k) == At(db, k)
    requires Adds(original, db, g, signer)
    ensures Adds(original, after, g, signer)
  {}

  lemma AddsGain(original: Db, db: Db, g: Grants, key: Key, turn: Turn, signer: Signer)
    requires Adds(original, db, g, signer) && Issued(signer, turn.candidate) && turn.candidate !in At(db, key)
    ensures Adds(original, Added(db, key, turn), g + {(key, turn.candidate)}, signer)
  {}

  lemma AddsLoss(original: Db, db: Db, g: Grants, key: Key, token: Token, signer: Signer)
    requires Adds(original, db, g, signer) && token !in At(original, key)
    ensures Adds(original, Remove(db, key, token), g - {(key, token)}, signer)
  {}

  /** Tier 2 leaves the store with exactly what it holds, and in the end with exactly
      what it grants: a queued request has given its backlog token back. */
  lemma {:induction false} SlotTierAdds(original: Db, st: CL.SlotState, cfg: CL.SlotConfig, req: Request, db: Db,
      env: seq<Slice>, signer: Signer)
    requires SlotUndisturbed(st, cfg, req, db, env, signer)
    requires CL.WellFormed(st, req) && Adds(original, db, CL.Held(st, req), signer)
    ensures var (v, after, rest) := CL.Drive(st, cfg, req, db, env);
            Honest(v, req.key, req.skipReservations) && Adds(original, after, Granted(v), signer)
    decreases |env|, CL.Rank(st)
  {
    if st.Returned? {
    } else {
      var slice := CL.Head(env);
      var call := CL.NextCall(st, cfg, req, slice.turn.wake);
      var (after, reply) := Perform(ApplyOps(db, slice.others), call, slice.turn);
      UndisturbedCall(original, db, CL.Held(st, req), call, slice, signer);
      CL.NothingLostNothingInvented(st, cfg, req, slice.turn.wake, reply);
      CL.Unfold(st, cfg, req, db, env, reply, after);
      SlotTierAdds(original, CL.OnReply(st, cfg, req, slice.turn.wake, reply), cfg, req, after, CL.Tail(env), signer);
    }
  }

  lemma {:induction false} FleetTierAdds(original: Db, g: Grants, st: FS.FleetState, cfg: FS.FleetConfig,
      req: Request, db: Db, env: seq<Slice>, signer: Signer)
    requires FleetUndisturbed(st, cfg, req, db, env, signer)
    requires FS.WellFormed(st, req) && Adds(original, db, g + FS.Held(st), signer)
    ensures var (v, after, rest) := FS.Drive(st, cfg, req, db, env);
            Honest(v, FLEET_KEY, req.skipReservations) && Adds(original, after, g + Granted(v), signer)
    decreases FS.Rank(st)
  {
    if st.Returned? {
    } else {
      var slice := CL.Head(env);
      var call := FS.NextCall(st, cfg, req);
      var (after, reply) := Perform(ApplyOps(db, slice.others), call, slice.turn);
      UndisturbedCall(original, db, g + FS.Held(st), call, slice, signer);
      FS.NothingLostNothingInvented(st, cfg, req, reply);
      FS.Unfold(st, cfg, req, db, env, reply, after);
      assert g + FS.Held(st) + CL.Gain(call, reply) - CL.Loss(call) == g + FS.Held(FS.OnReply(st, cfg, reply));
      FleetTierAdds(original, g, FS.OnReply(st, cfg, reply), cfg, req, after, CL.Tail(env), signer);
    }
  }

  function Tiers(tierOne: Verdict, slotCfg: CL.SlotConfig, fleetCfg: FS.FleetConfig): seq<Pipelines.Tier<World>> {
    [RateTier(tierOne), SlotTier(slotCfg), FleetTier(fleetCfg)]
  }

  /** The pipeline's answer, and the store and environment it leaves. */
  function Acquire(db: Db, env: seq<Slice>, req: Request, tierOne: Verdict, slotCfg: CL.SlotConfig,
      fleetCfg: FS.FleetConfig): (Verdict, World) {
    var (vs, w) := Pipelines.Consulted(Tiers(tierOne, slotCfg, fleetCfg), req, World(db, env));
    (Pipelines.Summary(vs), w)
  }

  lemma ConsultedThree<W>(a: Pipelines.Tier<W>, b: Pipelines.Tier<W>, c: Pipelines.Tier<W>, req: Request, w: W)
    ensures var (v, w1) := a(req, w);
            var (v', w2) := b(req, w1);
            var (v'', w3) := c(req, w2);
            Pipelines.Consulted([a, b, c], req, w) ==
              if !Passes(v) then ([v], w1) else if !Passes(v') then ([v, v'], w2) else ([v, v', v''], w3)
  {
    assert [a, b, c][1..] == [b, c] && [b, c][1..] == [c] && [c][1..] == [];
    var (v, w1) := a(req, w);
    var (v', w2) := b(req, w1);
    var (v'', w3) := c(req, w2);
    assert Pipelines.Consulted([c], req, w2) == ([v''] + [], w3) || Pipelines.Consulted([c], req, w2) == ([v''], w3);
    assert [v''] + [] == [v''] && [v'] + [v''] == [v', v''] && [v] + [v'] == [v, v'] && [v] + [v', v''] == [v, v', v''];
  }

  /** What an answer may carry: reservations for the request's key and the fleet's, and a
      blank token only at the end, because a tier that hands one out stops the pipeline. */
  predicate Releasable(rs: seq<TokenReservation>, key: Key) {
    && (forall r :: r in rs ==> r.key == key || r.key == FLEET_KEY)
    && (forall i :: 0 <= i < |rs| - 1 ==> rs[i].token != "")
  }

  /** After an undisturbed run of the pipeline the store holds, beyond what it held,
      exactly the tokens in the answer. */
  lemma PipelineAdds(db: Db, env: seq<Slice>, req: Request, tierOne: Verdict, slotCfg: CL.SlotConfig,
      fleetCfg: FS.FleetConfig, signer: Signer)
    requires AllUndisturbed(db, env, req, tierOne, slotCfg, fleetCfg, signer) && tierOne.decision.reservations == []
    ensures var (answer, w) := Acquire(db, env, req, tierOne, slotCfg, fleetCfg);
            Adds(db, w.db, Granted(answer), signer) && Releasable(answer.decision.reservations, req.key)
  {
    ConsultedThree(RateTier(tierOne), SlotTier(slotCfg), FleetTier(fleetCfg), req, World(db, env));
    assert Adds(db, db, {}, signer);
    if !Passes(tierOne) {
      AnswerOfOne(tierOne);
    } else {
      var (v, after, rest) := CL.Drive(CL.Begin(req), slotCfg, req, db, env);
      BeginsWithNothing(req);
      SlotTierAdds(db, CL.Begin(req), slotCfg, req, db, env, signer);
      if !Passes(v) {
        AnswerOfTwo(tierOne, v, req);
      } else {
        var (v', last, left) := FS.Drive(FS.Begin(req), fleetCfg, req, after, rest);
        assert Granted(v) + {} == Granted(v);
        FleetTierAdds(db, Granted(v), FS.Begin(req), fleetCfg, req, after, rest, signer);
        AnswerOfThree(tierOne, v, v', req);
      }
    }
  }

  lemma BeginsWithNothing(req: Request)
    ensures CL.Held(CL.Begin(req), req) == {} && CL.WellFormed(CL.Begin(req), req)
    ensures FS.Held(FS.Begin(req)) == {} && FS.WellFormed(FS.Begin(req), req)
  {}

  lemma AnswerOfOne(v: Verdict)
    requires v.decision.reservations == []
    ensures Granted(Pipelines.Summary([v])) == {} && Pipelines.Summary([v]).decision.reservations == []
  {
    assert [v][1..] == [];
    assert Pipelines.Reservations([v]) == [] + Pipelines.Reservations([]);
    assert Pipelines.Summary([v]).decision.reservations == [];
  }

  lemma AnswerOfTwo(one: Verdict, v: Verdict, req: Request)
    requires one.decision.reservations == [] && Honest(v, req.key, req.skipReservations)
    ensures var answer := Pipelines.Summary([one, v]);
            Granted(answer) == Granted(v) && Releasable(answer.decision.reservations, req.key)
  {
    Pipelines.EveryGrantIsReturned([one, v]);
    Pipelines.GrantedByTwo(one, v);
    assert [one, v][1..] == [v] && [v][1..] == [];
    assert Pipelines.Reservations([v]) == v.decision.reservations;
  }

  lemma AnswerOfThree(one: Verdict, v: Verdict, v': Verdict, req: Request)
    requires one.decision.reservations == [] && Passes(v)
    requires Honest(v, req.key, req.skipReservations) && Honest(v', FLEET_KEY, req.skipReservations)
    ensures var answer := Pipelines.Summary([one, v, v']);
            Granted(answer) == Granted(v) + Granted(v') && Releasable(answer.decision.reservations, req.key)
  {
    assert Granted(Pipelines.Summary([one, v, v'])) == Granted(v) + Granted(v') by {
      Pipelines.EveryGrantIsReturned([one, v, v']);
      Pipelines.GrantedByThree(one, v, v');
    }
    assert Pipelines.Reservations([one, v, v']) == v.decision.reservations + v'.decision.reservations by {
      ReservationsOfThree(one, v, v');
    }
    assert |v.decision.reservations| <= 1 && |v'.decision.reservations| <= 1;
  }

  lemma ReservationsOfThree(one: Verdict, v: Verdict, v': Verdict)
    requires one.decision.reservations == []
    ensures Pipelines.Reservations([one, v, v']) == v.decision.reservations + v'.decision.reservations
  {
    assert [one, v, v'][1..] == [v, v'] && [v, v'][1..] == [v'] && [v'][1..] == [];
    assert Pipelines.Reservations([v']) == v'.decision.reservations;
    assert Pipelines.Reservations([v, v']) == v.decision.reservations + v'.decision.reservations;
  }

  function Pair(r: TokenReservation): (Key, Token) {
    (r.key, r.token)
  }

  /** What the reservations from i on name. */
  function Named(rs: seq<TokenReservation>, i: nat): Grants
    requires i <= |rs|
    decreases |rs| - i
  {
    if i == |rs| then {} else {Pair(rs[i])} + Named(rs, i + 1)
  }

  lemma {:induction false} NamedIsAll(rs: seq<TokenReservation>, i: nat)
    requires i <= |rs|
    ensures forall p :: p in Named(rs, i) <==> exists j :: i <= j < |rs| && Pair(rs[j]) == p
    decreases |rs| - i
  {
    if i == |rs| {
    } else {
      NamedIsAll(rs, i + 1);
    }
  }

  /** Undisturbed releases take out exactly what they name, and none of them fails. */
  lemma {:induction false} ReleasesTakeOut(original: Db, db: Db, g: Grants, rs: seq<TokenReservation>, i: nat,
      signer: Signer, env: seq<Slice>)
    requires i <= |rs| <= i + |env| && (forall s :: s in env ==> Delivers(s))
    requires forall r :: r in rs ==> r.key != "" && Verifies(signer, r.token) && r.token !in At(original, r.key)
    requires Adds(original, db, g, signer)
    ensures var (last, errors) := ReleaseFrom(db, rs, i, signer, env);
            errors == 0 && Adds(original, last, g - Named(rs, i), signer)
    decreases |rs| - i
  {
    if i == |rs| {
      assert g - {} == g;
    } else {
      var r := rs[i];
      assert r in rs && Delivers(env[0]);
      var after := Remove(db, r.key, r.token);
      assert ReleaseOne(db, r, signer, env[0]) == (after, true) by {
        DeliveredCall(db, Decr(r.key, r.token), env[0]);
      }
      AddsLoss(original, db, g, r.key, r.token, signer);
      ReleasesTakeOut(original, after, g - {Pair(r)}, rs, i + 1, signer, env[1..]);
      assert g - {Pair(r)} - Named(rs, i + 1) == g - Named(rs, i);
    }
  }

  lemma AddsNothing(original: Db, db: Db, signer: Signer)
    requires Adds(original, db, {}, signer)
    ensures forall k :: At(db, k) == At(original, k)
  {
    forall k
      ensures At(db, k) == At(original, k)
    {
      assert At(db, k).Keys == At(original, k).Keys;
    }
  }

  /** What the client reads back names exactly the grants of the answer. */
  lemma ReadsTheGrants(h: Fields, answer: Verdict, key: Key, out: seq<TokenReservation>)
    requires Prints(h, answer.decision.reservations) && Reads(h, out) && Releasable(answer.decision.reservations, key)
    ensures (set r | r in out :: Pair(r)) == Granted(answer)
    ensures forall r :: r in out ==> r.key == key || r.key == FLEET_KEY
  {
    var rs := answer.decision.reservations;
    ReadsWhatWasPrinted(h, rs, out);
    forall r
      ensures r in out <==> r in rs && r.token != ""
    {
      if r in rs && r.token != "" {
        var i :| 0 <= i < |rs| && rs[i] == r;
        assert i < |out|;
        assert out[i] == rs[i];
      }
    }
    forall p
      ensures p in (set r | r in out :: Pair(r)) <==> p in Granted(answer)
    {
      if p in Granted(answer) {
        var r :| r in rs && r.token != "" && p == (r.key, r.token);
        assert Pair(r) == p;
      }
    }
  }

  /** The round trip, for every request, configuration and store, whatever the answer:
      with nobody else writing in between, the calls delivered, and no lease expired in
      a set at the moment a call names it, releasing what the client read back succeeds
      and leaves every token set as it was before the request, and releasing it all once
      more succeeds and changes nothing. The sidecar turns a blank key away before it
      asks the core. */
  lemma AcquireThenReleaseRestores(db: Db, env: seq<Slice>, req: Request, tierOne: Verdict,
                                   slotCfg: CL.SlotConfig, fleetCfg: FS.FleetConfig, signer: Signer,
                                   h: Fields, out: seq<TokenReservation>, first: seq<Slice>, second: seq<Slice>)
    requires req.key != "" && tierOne.decision.reservations == []
    requires AllUndisturbed(db, env, req, tierOne, slotCfg, fleetCfg, signer)
    requires Prints(h, Acquire(db, env, req, tierOne, slotCfg, fleetCfg).0.decision.reservations)
    requires Reads(h, out)
    requires |out| <= |first| && |out| <= |second| && forall s :: s in first + second ==> Delivers(s)
    ensures var w := Acquire(db, env, req, tierOne, slotCfg, fleetCfg).1;
            var (once, errors) := ReleaseFrom(w.db, out, 0, signer, first);
            var (twice, more) := ReleaseFrom(once, out, 0, signer, second);
            && errors == 0 && more == 0
            && (forall k :: At(once, k) == At(db, k))
            && (forall k :: At(twice, k) == At(db, k))
  {
    PipelineAdds(db, env, req, tierOne, slotCfg, fleetCfg, signer);
    var (answer, w) := Acquire(db, env, req, tierOne, slotCfg, fleetCfg);
    PrintedReadReleased(db, w.db, answer, req.key, signer, h, out, first, second);
  }

  lemma PrintedReadReleased(original: Db, db: Db, answer: Verdict, key: Key, signer: Signer,
                            h: Fields, out: seq<TokenReservation>, first: seq<Slice>, second: seq<Slice>)
    requires key != "" && Adds(original, db, Granted(answer), signer) && Releasable(answer.decision.reservations, key)
    requires Prints(h, answer.decision.reservations) && Reads(h, out)
    requires |out| <= |first| && |out| <= |second| && forall s :: s in first + second ==> Delivers(s)
    ensures var (once, errors) := ReleaseFrom(db, out, 0, signer, first);
            var (twice, more) := ReleaseFrom(once, out, 0, signer, second);
            && errors == 0 && more == 0
            && (forall k :: At(once, k) == At(original, k))
            && (forall k :: At(twice, k) == At(original, k))
  {
    ReadsTheGrants(h, answer, key, out);
    ReleasesRestore(original, db, Granted(answer), out, signer, first, second);
  }

  lemma ReleasesRestore(original: Db, db: Db, g: Grants, out: seq<TokenReservation>, signer: Signer,
      first: seq<Slice>, second: seq<Slice>)
    requires Adds(original, db, g, signer) && (set r | r in out :: Pair(r)) == g
    requires forall r :: r in out ==> r.key != ""
    requires |out| <= |first| && |out| <= |second| && forall s :: s in first + second ==> Delivers(s)
    ensures var (once, errors) := ReleaseFrom(db, out, 0, signer, first);
            var (twice, more) := ReleaseFrom(once, out, 0, signer, second);
            && errors == 0 && more == 0
            && (forall k :: At(once, k) == At(original, k))
            && (forall k :: At(twice, k) == At(original, k))
  {
    forall r | r in out
      ensures Verifies(signer, r.token) && r.token !in At(original, r.key)
    {
      assert Pair(r) in g;
      IssuedVerifies(signer, r.token);
    }
    var once := ReleaseFrom(db, out, 0, signer, first).0;
    assert g - Named(out, 0) == {} by {
      NamedIsAll(out, 0);
    }
    ReleasesTakeOut(original, db, g, out, 0, signer, first);
    AddsNothing(original, once, signer);
    assert {} - Named(out, 0) == {};
    ReleasesTakeOut(original, once, {}, out, 0, signer, second);
    AddsNothing(original, ReleaseFrom(once, out, 0, signer, second).0, signer);
  }
}
