/** The pipeline: an ordered list of tiers, checked until one of them stops the request. */
module Pipelines {
  import opened TokenStore
  import opened Limits

  /** A tier's Check: it may change the world it runs in, whatever that world is. */
  type Tier<!W> = (Request, W) -> (Verdict, W)

  /** The verdicts of the tiers that are run, in order, and the world they leave. */
  function Consulted<W>(tiers: seq<Tier<W>>, req: Request, w: W): (r: (seq<Verdict>, W)) {
    if tiers == [] then ([], w)
    else
      var (v, next) := tiers[0](req, w);
      if !Passes(v) then ([v], next)
      else
        var (vs, last) := Consulted(tiers[1..], req, next);
        ([v] + vs, last)
  }

  function Reservations(vs: seq<Verdict>): seq<TokenReservation> {
    if vs == [] then [] else vs[0].decision.reservations + Reservations(vs[1..])
  }

  /** The last tier name that is not blank. */
  function LastTier(vs: seq<Verdict>): string {
    if vs == [] then ""
    else if vs[|vs| - 1].decision.tier != "" then vs[|vs| - 1].decision.tier
    else LastTier(vs[..|vs| - 1])
  }

  function FinalAction(vs: seq<Verdict>): Action {
    if exists i :: 0 <= i < |vs| && vs[i].decision.action.QUEUE? then QUEUE else ALLOW
  }

  /** What the pipeline answers for the verdicts of the tiers it ran: the verdict of
      the tier that stopped it, or else ALLOW or QUEUE; and always every reservation. */
  function Summary(vs: seq<Verdict>): Verdict {
    if vs != [] && !Passes(vs[|vs| - 1]) then
      var last := vs[|vs| - 1];
      last.(decision := last.decision.(reservations := Reservations(vs)))
    else
      Verdict(Decision(FinalAction(vs), 0, Reservations(vs), LastTier(vs), 0, 0), NoError)
  }

  /** Which tiers run: each one does unless an earlier tier stopped the request,
      every verdict but the last passes, and a stop really is the last. */
  lemma {:induction false} StopsAtFirstRefusal<W>(tiers: seq<Tier<W>>, req: Request, w: W)
    ensures var vs := Consulted(tiers, req, w).0;
            && |vs| <= |tiers|
            && (forall i :: 0 <= i < |vs| - 1 ==> Passes(vs[i]))
            && (|vs| < |tiers| ==> vs != [] && !Passes(vs[|vs| - 1]))
  {
    if tiers == [] {
    } else {
      var (v, next) := tiers[0](req, w);
      if Passes(v) {
        StopsAtFirstRefusal(tiers[1..], req, next);
      }
    }
  }

  /** A tier's verdict does not depend on the tiers behind it, and those are not run
      once it stops: appending tiers to a pipeline that stopped changes nothing. */
  lemma {:induction false} LaterTiersAreNotRun<W>(tiers: seq<Tier<W>>, more: seq<Tier<W>>, req: Request, w: W)
    requires var vs := Consulted(tiers, req, w).0; vs != [] && !Passes(vs[|vs| - 1])
    ensures Consulted(tiers + more, req, w) == Consulted(tiers, req, w)
  {
    var (v, next) := tiers[0](req, w);
    assert (tiers + more)[0] == tiers[0];
    if Passes(v) {
      assert (tiers + more)[1..] == tiers[1..] + more;
      LaterTiersAreNotRun(tiers[1..], more, req, next);
    }
  }

  /** QUEUE exactly when some tier queued and none stopped the request. */
  lemma QueueExactlyWhen<W>(tiers: seq<Tier<W>>, req: Request, w: W)
    ensures var vs := Consulted(tiers, req, w).0;
            var answer := Summary(vs);
            && (answer.err.NoError? && answer.decision.action.QUEUE?
                <==>
                && (exists i :: 0 <= i < |vs| && vs[i].decision.action.QUEUE?)
                && (forall i :: 0 <= i < |vs| ==> Passes(vs[i])))
            && (Passes(answer) <==> |vs| == |tiers| && forall i :: 0 <= i < |vs| ==> Passes(vs[i]))
  {
    StopsAtFirstRefusal(tiers, req, w);
  }

  /** Tier by tier: each tier that is consulted answers in the world that the one before
      it left, starting from the first. */
  lemma {:induction false} ConsultedTierByTier<W>(tiers: seq<Tier<W>>, req: Request, w: W) returns (worlds: seq<W>)
    ensures var (vs, last) := Consulted(tiers, req, w);
            && |vs| <= |tiers| && |worlds| == |vs| + 1 && worlds[0] == w && worlds[|vs|] == last
            && forall i :: 0 <= i < |vs| ==> tiers[i](req, worlds[i]) == (vs[i], worlds[i + 1])
  {
    if tiers == [] {
      worlds := [w];
    } else {
      var (v, next) := tiers[0](req, w);
      if !Passes(v) {
        worlds := [w, next];
      } else {
        var rest := ConsultedTierByTier(tiers[1..], req, next);
        worlds := [w] + rest;
        var vs := Consulted(tiers, req, w).0;
        forall i | 0 <= i < |vs|
          ensures tiers[i](req, worlds[i]) == (vs[i], worlds[i + 1])
        {
          if i > 0 {
            assert tiers[1..][i - 1] == tiers[i];
          }
        }
      }
    }
  }

  /** The answer passes, with ALLOW or QUEUE, if and only if every tier was consulted and
      answered ALLOW or QUEUE without an error. Otherwise the last tier consulted is the
      first that failed or answered with a rejection or SHADOW_LOG, and the answer says
      what that tier said. */
  lemma AnswerIsTheFirstRefusal<W>(tiers: seq<Tier<W>>, req: Request, w: W)
    ensures var vs := Consulted(tiers, req, w).0;
            var a := Summary(vs);
            && (a.err == NoError && (a.decision.action == ALLOW || a.decision.action == QUEUE)
                <==>
                && |vs| == |tiers|
                && forall i :: 0 <= i < |vs| ==>
                     vs[i].err == NoError && (vs[i].decision.action == ALLOW || vs[i].decision.action == QUEUE))
            && (a.err != NoError || a.decision.action in {REJECT_429, REJECT_503, SHADOW_LOG} ==>
                  && 0 < |vs| <= |tiers|
                  && (forall i :: 0 <= i < |vs| - 1 ==>
                        vs[i].err == NoError && (vs[i].decision.action == ALLOW || vs[i].decision.action == QUEUE))
                  && var stop := vs[|vs| - 1];
                     && (stop.err != NoError || stop.decision.action in {REJECT_429, REJECT_503, SHADOW_LOG})
                     && a.err == stop.err
                     && a.decision == stop.decision.(reservations := a.decision.reservations))
  {
    StopsAtFirstRefusal(tiers, req, w);
  }

  /** An answer that passes says QUEUE if some tier did, names the last tier that gave a
      name, and says nothing else. */
  lemma PassingAnswer<W>(tiers: seq<Tier<W>>, req: Request, w: W)
    requires var a := Summary(Consulted(tiers, req, w).0);
             a.err == NoError && (a.decision.action == ALLOW || a.decision.action == QUEUE)
    ensures var vs := Consulted(tiers, req, w).0;
            var d := Summary(vs).decision;
            && (d.action == QUEUE <==> exists i :: 0 <= i < |vs| && vs[i].decision.action == QUEUE)
            && d.retryAfterMs == 0 && d.limit == 0 && d.remaining == 0
            && (d.tier == "" ==> forall i :: 0 <= i < |vs| ==> vs[i].decision.tier == "")
            && (d.tier != "" ==> exists i :: 0 <= i < |vs| && vs[i].decision.tier == d.tier
                                             && forall j :: i < j < |vs| ==> vs[j].decision.tier == "")
  {
    AnswerIsTheFirstRefusal(tiers, req, w);
    LastTierIsLast(Consulted(tiers, req, w).0);
  }

  lemma {:induction false} LastTierIsLast(vs: seq<Verdict>)
    ensures LastTier(vs) == "" ==> forall i :: 0 <= i < |vs| ==> vs[i].decision.tier == ""
    ensures LastTier(vs) != "" ==> exists i :: 0 <= i < |vs| && vs[i].decision.tier == LastTier(vs)
                                              && forall j :: i < j < |vs| ==> vs[j].decision.tier == ""
  {
    if vs == [] {
    } else {
      LastTierIsLast(vs[..|vs| - 1]);
    }
  }

  function GrantedByAll(vs: seq<Verdict>): set<(Key, Token)> {
    if vs == [] then {} else Granted(vs[0]) + GrantedByAll(vs[1..])
  }

  /** No grant of any consulted tier is missing from the answer, and none is added,
      even when a later tier refuses or fails. */
  lemma {:induction false} EveryGrantIsReturned(vs: seq<Verdict>)
    ensures Granted(Summary(vs)) == GrantedByAll(vs)
  {
    assert Granted(Summary(vs)) == GrantedIn(Reservations(vs));
    GrantedInReservations(vs);
  }

  lemma GrantedByTwo(a: Verdict, b: Verdict)
    ensures GrantedByAll([a, b]) == Granted(a) + Granted(b)
  {
    assert [a, b][1..] == [b];
    assert [b][1..] == [];
    assert GrantedByAll([b]) == Granted(b) + GrantedByAll([]);
  }

  lemma GrantedByThree(a: Verdict, b: Verdict, c: Verdict)
    ensures GrantedByAll([a, b, c]) == Granted(a) + Granted(b) + Granted(c)
  {
    assert [a, b, c][1..] == [b, c];
    GrantedByTwo(b, c);
  }

  function GrantedIn(rs: seq<TokenReservation>): set<(Key, Token)> {
    set r | r in rs && r.token != "" :: (r.key, r.token)
  }

  lemma {:induction false} GrantedInReservations(vs: seq<Verdict>)
    ensures GrantedIn(Reservations(vs)) == GrantedByAll(vs)
  {
    if vs == [] {
    } else {
      GrantedInReservations(vs[1..]);
      var a, b := vs[0].decision.reservations, Reservations(vs[1..]);
      assert GrantedIn(a) == Granted(vs[0]);
      assert GrantedIn(a + b) == GrantedIn(a) + GrantedIn(b);
    }
  }

  lemma {:induction false} SummarySnoc(vs: seq<Verdict>, v: Verdict)
    ensures Reservations(vs + [v]) == Reservations(vs) + v.decision.reservations
    ensures LastTier(vs + [v]) == if v.decision.tier != "" then v.decision.tier else LastTier(vs)
    ensures FinalAction(vs + [v]) == if v.decision.action.QUEUE? then QUEUE else FinalAction(vs)
  {
    ReservationsSnoc(vs, v);
    assert (vs + [v])[..|vs|] == vs;
    var all := vs + [v];
    assert all[|vs|] == v && forall i :: 0 <= i < |vs| ==> all[i] == vs[i];
  }

  lemma {:induction false} ReservationsSnoc(vs: seq<Verdict>, v: Verdict)
    ensures Reservations(vs + [v]) == Reservations(vs) + v.decision.reservations
  {
    if vs == [] {
      assert [v][1..] == [];
    } else {
      assert (vs + [v])[1..] == vs[1..] + [v];
      ReservationsSnoc(vs[1..], v);
    }
  }

  /** The tiers before i have given these verdicts, all of them passing, and have taken
      the world from start to w. */
  ghost predicate Reached<W>(tiers: seq<Tier<W>>, i: nat, seen: seq<Verdict>, req: Request, start: W, w: W)
    requires i <= |tiers|
  {
    && (forall j :: 0 <= j < |seen| ==> Passes(seen[j]))
    && var (vs, last) := Consulted(tiers[i..], req, w);
       Consulted(tiers, req, start) == (seen + vs, last)
  }

  lemma ReachedAtStart<W>(tiers: seq<Tier<W>>, req: Request, start: W)
    ensures Reached(tiers, 0, [], req, start, start)
  {
    assert tiers[0..] == tiers;
    var vs := Consulted(tiers, req, start).0;
    assert [] + vs == vs;
  }

  lemma ReachedNext<W>(tiers: seq<Tier<W>>, i: nat, seen: seq<Verdict>, req: Request, start: W, w: W)
    requires i < |tiers| && Reached(tiers, i, seen, req, start, w)
    ensures var (d, next) := tiers[i](req, w);
            if Passes(d) then Reached(tiers, i + 1, seen + [d], req, start, next)
            else Consulted(tiers, req, start) == (seen + [d], next)
  {
    assert tiers[i..][0] == tiers[i] && tiers[i..][1..] == tiers[i + 1..];
    var (d, next) := tiers[i](req, w);
    if Passes(d) {
      var rest := Consulted(tiers[i + 1..], req, next).0;
      assert seen + ([d] + rest) == (seen + [d]) + rest;
    }
  }

  lemma ReachedEnd<W>(tiers: seq<Tier<W>>, seen: seq<Verdict>, req: Request, start: W, w: W)
    requires Reached(tiers, |tiers|, seen, req, start, w)
    ensures Consulted(tiers, req, start) == (seen, w)
    ensures Summary(seen) == Verdict(Decision(FinalAction(seen), 0, Reservations(seen), LastTier(seen), 0, 0), NoError)
  {
    assert tiers[|tiers|..] == [];
    assert seen + [] == seen;
  }

  lemma SummaryOfStop(seen: seq<Verdict>, d: Verdict)
    requires !Passes(d)
    ensures Summary(seen + [d]) == d.(decision := d.decision.(reservations := Reservations(seen)
        + d.decision.reservations))
  {
    ReservationsSnoc(seen, d);
  }

  class Pipeline<!W> {
    const tiers: seq<Tier<W>>
    var world: W

    constructor (tiers: seq<Tier<W>>, world: W)
      ensures this.tiers == tiers && this.world == world
    {
      this.tiers := tiers;
      this.world := world;
    }

    method Check(req: Request) returns (v: Verdict)
      modifies this
      ensures var (vs, last) := Consulted(tiers, req, old(world)); v == Summary(vs) && world == last
    {
      var reserved: seq<TokenReservation> := [];
      var lastTier := "";
      var finalAction := ALLOW;
      ghost var seen: seq<Verdict> := [];
      var i := 0;
      ReachedAtStart(tiers, req, world);
      while i < |tiers|
        invariant 0 <= i <= |tiers|
        invariant Reached(tiers, i, seen, req, old(world), world)
        invariant reserved == Reservations(seen)
        invariant lastTier == LastTier(seen)
        invariant finalAction == FinalAction(seen)
      {
        var (d, next) := tiers[i](req, world);
        ReachedNext(tiers, i, seen, req, old(world), world);
        world := next;
        reserved := reserved + d.decision.reservations;
        if d.err != NoError || (d.decision.action != ALLOW && d.decision.action != QUEUE) {
          SummaryOfStop(seen, d);
          return d.(decision := d.decision.(reservations := reserved));
        }
        if d.decision.action == QUEUE {
          finalAction := QUEUE;
        }
        if d.decision.tier != "" {
          lastTier := d.decision.tier;
        }
        SummarySnoc(seen, d);
        seen := seen + [d];
        i := i + 1;
      }
      ReachedEnd(tiers, seen, req, old(world), world);
      return Verdict(Decision(finalAction, 0, reserved, lastTier, 0, 0), NoError);
    }
  }
}
