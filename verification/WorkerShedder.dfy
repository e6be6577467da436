/** Tier 4: the sidecar's lock-free shedder of in-flight requests, and how the
    handler pairs its slots. */
module WorkerShedder {
  import opened GoArith

  function RampStart(max: int, pct: int): int {
    TruncDiv(max * pct, 100)
  }

  /** The ramp's answer at a load, for a random draw. */
  function AdmitAtLoad(max: int, pct: int, current: int, draw: real): bool {
    var start := RampStart(max, pct);
    if current < start then true
    else
      var window := max - start;
      if window <= 0 then false
      else draw >= (current - start) as real / window as real
  }

  /** What Allow decides once it has loaded the counter. */
  predicate Admits(max: int, pct: int, current: int, draw: real) {
    current < max && AdmitAtLoad(max, pct, current, draw)
  }

  predicate IsDraw(draw: real) {
    0.0 <= draw < 1.0
  }

  lemma RampStartInRange(max: int, pct: int)
    requires max >= 0 && 0 <= pct <= 100
    ensures 0 <= RampStart(max, pct) <= max
    ensures pct == 100 ==> RampStart(max, pct) == max
  {
    assert 0 <= max * pct <= max * 100;
  }

  lemma RampStartGrows(max: int, a: int, b: int)
    requires max >= 0 && 0 <= a <= b <= 100
    ensures RampStart(max, a) <= RampStart(max, b)
  {
    assert max * a <= max * b;
  }

  /** For a fixed draw, more load never turns a rejection into an admission. */
  lemma MoreLoadNeverHelps(max: int, pct: int, light: int, heavy: int, draw: real)
    requires max >= 0 && 0 <= pct <= 100 && IsDraw(draw)
    requires light <= heavy && Admits(max, pct, heavy, draw)
    ensures Admits(max, pct, light, draw)
  {
    var start := RampStart(max, pct);
    if start <= light {
      var w := (max - start) as real;
      QuotientGrows((light - start) as real, (heavy - start) as real, w);
    }
  }

  /** For a fixed draw, a later ramp start never turns an admission into a rejection. */
  lemma LaterRampNeverHurts(max: int, early: int, late: int, current: int, draw: real)
    requires max >= 0 && 0 <= early <= late <= 100 && IsDraw(draw)
    requires Admits(max, early, current, draw)
    ensures Admits(max, late, current, draw)
  {
    var a, b := RampStart(max, early), RampStart(max, late);
    RampStartGrows(max, early, late);
    if b <= current {
      Ramps((current - b) as real, (b - a) as real, (max - current) as real);
      assert (current - a) as real == (current - b) as real + (b - a) as real;
      assert (max - a) as real == (current - b) as real + (b - a) as real + (max - current) as real;
      assert (max - b) as real == (current - b) as real + (max - current) as real;
    }
  }

  lemma QuotientGrows(x: real, y: real, w: real)
    requires x <= y && w > 0.0
    ensures x / w <= y / w
  {}

  /** x of x + z is no more than x + d of x + d + z. */
  lemma Ramps(x: real, d: real, z: real)
    requires x >= 0.0 && d >= 0.0 && z > 0.0
    ensures x / (x + z) <= (x + d) / (x + d + z)
  {
    var p, q := x + z, x + d + z;
    assert (x + d) * p - x * q == d * z;
    Product(d, z);
    CrossMultiplied(x, p, x + d, q);
  }

  lemma Product(a: real, b: real)
    requires a >= 0.0 && b >= 0.0
    ensures a * b >= 0.0
  {}

  lemma CrossMultiplied(a: real, p: real, b: real, q: real)
    requires p > 0.0 && q > 0.0 && a * q <= b * p
    ensures a / p <= b / q
  {
    var r, t := a / p, b / q;
    assert r * p == a && t * q == b;
  }

  /** The shape of the ramp: no draw is refused below its start, some draw is admitted
      anywhere below the maximum, none at or above it; and a start of 100 percent is
      the hard cutoff at the maximum. */
  lemma RampShape(max: int, pct: int, current: int)
    requires max >= 0 && 0 <= pct <= 100
    ensures current < RampStart(max, pct) ==> forall draw :: IsDraw(draw) ==> Admits(max, pct, current, draw)
    ensures (exists draw :: IsDraw(draw) && Admits(max, pct, current, draw)) <==> current < max
    ensures pct == 100 ==> forall draw :: IsDraw(draw) ==> (Admits(max, pct, current, draw) <==> current < max)
  {
    RampStartInRange(max, pct);
    var start := RampStart(max, pct);
    if start <= current < max {
      var x, w := (current - start) as real, (max - start) as real;
      BelowWhole(x, w);
      assert IsDraw(x / w) && Admits(max, pct, current, x / w);
    } else if current < start {
      assert IsDraw(0.0) && Admits(max, pct, current, 0.0);
    }
  }

  lemma BelowWhole(x: real, w: real)
    requires 0.0 <= x < w
    ensures 0.0 <= x / w < 1.0
  {}

  /** What a handler is doing. Loaded and Deciding remember the value loaded and how
      many writes the counter had seen by then. */
  datatype Handler =
    | Looping
    | Loaded(current: int, at: nat)
    | Deciding(current: int, at: nat)
    | Serving
    | Unslotted
    | Refused
    | Finished

  type Tid = nat

  /** The counter and the handlers; log names the writer of every change of the
      counter, in order, and fails counts each handler's failed swaps. */
  datatype Pool = Pool(inflight: int, max: int, pct: int, handlers: map<Tid, Handler>, log: seq<Tid>, fails: map<Tid,
      nat>)

  datatype Event =
    | Arrive(t: Tid, critical: bool)
    | Load(t: Tid)
    | Decide(t: Tid, draw: real, shadowOverride: bool)
    | Swap(t: Tid)
    | Finish(t: Tid)

  function Empty(max: int, pct: int): Pool {
    Pool(0, max, pct, map[], [], map[])
  }

  /** One atomic step. A critical request takes no slot; a refused one goes on without
      a slot if the shadow override is on; only a handler that took a slot releases. */
  function Apply(s: Pool, e: Event): Pool {
    if e.Arrive? then
      if e.t in s.handlers then s
      else s.(handlers := s.handlers[e.t := if e.critical then Unslotted else Looping], fails := s.fails[e.t := 0])
    else if e.t !in s.handlers || e.t !in s.fails then s
    else
      match (e, s.handlers[e.t])
      case (Load(t), Looping) => s.(handlers := s.handlers[t := Loaded(s.inflight, |s.log|)])
      case (Decide(t, draw, shadowOverride), Loaded(current, at)) =>
        if Admits(s.max, s.pct, current, draw) then s.(handlers := s.handlers[t := Deciding(current, at)])
        else s.(handlers := s.handlers[t := if shadowOverride then Unslotted else Refused])
      case (Swap(t), Deciding(current, _)) =>
        if s.inflight == current then
          s.(inflight := current + 1, handlers := s.handlers[t := Serving], log := s.log + [t])
        else
          s.(handlers := s.handlers[t := Looping], fails := s.fails[t := s.fails[t] + 1])
      case (Finish(t), Serving) =>
        s.(inflight := s.inflight - 1, handlers := s.handlers[t := Finished], log := s.log + [t])
      case (Finish(t), Unslotted) => s.(handlers := s.handlers[t := Finished])
      case _ => s
  }

  function Exec(s: Pool, events: seq<Event>): Pool {
    if events == [] then s else Apply(Exec(s, events[..|events| - 1]), events[|events| - 1])
  }

  /** The handlers that were admitted and have not released. */
  function Holding(s: Pool): set<Tid> {
    set t | t in s.handlers && s.handlers[t].Serving?
  }

  /** The writes in a log that are not t's own. */
  function ByOthers(log: seq<Tid>, t: Tid): nat {
    if log == [] then 0
    else ByOthers(log[..|log| - 1], t) + if log[|log| - 1] == t then 0 else 1
  }

  ghost predicate Counts(s: Pool) {
    && s.inflight == |Holding(s)|
    && (s.inflight == 0 || s.inflight <= s.max)
    && s.handlers.Keys == s.fails.Keys
  }

  /** A loaded value is stale only if somebody else has written since. */
  ghost predicate Fresh(s: Pool) {
    forall t :: t in s.handlers ==> FreshHandler(s.handlers[t], t, s.inflight, s.max, s.log)
  }

  ghost predicate FreshHandler(h: Handler, t: Tid, inflight: int, max: int, log: seq<Tid>) {
    h.Loaded? || h.Deciding? ==>
      && h.at <= |log|
      && (h.at == |log| ==> h.current == inflight)
      && (forall i :: h.at <= i < |log| ==> log[i] != t)
      && (h.Deciding? ==> h.current < max)
  }

  /** The part of the log that a handler's loaded value takes account of. */
  function Witnessed(s: Pool, t: Tid): seq<Tid>
    requires t in s.handlers
  {
    var h := s.handlers[t];
    if (h.Loaded? || h.Deciding?) && h.at <= |s.log| then s.log[..h.at] else s.log
  }

  /** Every failed swap is paid for by a write of somebody else. */
  ghost predicate Paid(s: Pool) {
    forall t :: t in s.handlers && t in s.fails ==> s.fails[t] <= ByOthers(Witnessed(s, t), t)
  }

  ghost predicate Inv(s: Pool) {
    Counts(s) && Fresh(s) && Paid(s)
  }

  /** In every interleaving of loads, decisions, swaps and releases by any number of
      handlers. */
  lemma {:induction false} Reachable(max: int, pct: int, events: seq<Event>)
    ensures Inv(Exec(Empty(max, pct), events)) && Exec(Empty(max, pct), events).max == max
  {
    if events == [] {
      assert Holding(Empty(max, pct)) == {};
    } else {
      Reachable(max, pct, events[..|events| - 1]);
      Preserved(Exec(Empty(max, pct), events[..|events| - 1]), events[|events| - 1]);
    }
  }

  lemma Preserved(s: Pool, e: Event)
    requires Inv(s)
    ensures Inv(Apply(s, e)) && Apply(s, e).max == s.max
  {
    CountsPreserved(s, e);
    FreshPreserved(s, e);
    PaidPreserved(s, e);
  }

  /** The steps by what they do to the counter: only a swap and a release write it. */
  ghost predicate Quiet(s: Pool, s': Pool, t: Tid) {
    && s'.inflight == s.inflight && s'.max == s.max && s'.log == s.log
    && (forall u :: u != t ==>
          (u in s'.handlers <==> u in s.handlers) && (u in s.handlers ==> s'.handlers[u] == s.handlers[u]))
    && (forall u :: u != t ==> (u in s'.fails <==> u in s.fails) && (u in s.fails ==> s'.fails[u] == s.fails[u]))
    && (t in s.handlers ==> t in s'.handlers)
  }

  predicate Enters(s: Pool, e: Event) {
    e.Swap? && e.t in s.handlers && e.t in s.fails && s.handlers[e.t].Deciding? && s.inflight == s.handlers[e.t].current
  }

  predicate Leaves(s: Pool, e: Event) {
    e.Finish? && e.t in s.handlers && e.t in s.fails && s.handlers[e.t].Serving?
  }

  lemma QuietSteps(s: Pool, e: Event)
    requires !Enters(s, e) && !Leaves(s, e)
    ensures var s' := Apply(s, e);
            && Quiet(s, s', e.t)
            && (e.t in s'.handlers && s'.handlers[e.t].Serving? ==> e.t in s.handlers && s.handlers[e.t].Serving?)
            && (e.t in s.handlers && s.handlers[e.t].Serving? ==> s'.handlers[e.t].Serving?)
            && (s.handlers.Keys == s.fails.Keys ==> s'.handlers.Keys == s'.fails.Keys)
  {}

  function Entered(s: Pool, t: Tid): Pool {
    s.(inflight := s.inflight + 1, handlers := s.handlers[t := Serving], log := s.log + [t])
  }

  function Left(s: Pool, t: Tid): Pool {
    s.(inflight := s.inflight - 1, handlers := s.handlers[t := Finished], log := s.log + [t])
  }

  lemma WritingSteps(s: Pool, e: Event)
    ensures Enters(s, e) ==> Apply(s, e) == Entered(s, e.t)
    ensures Leaves(s, e) ==> Apply(s, e) == Left(s, e.t)
  {}

  lemma CountsPreserved(s: Pool, e: Event)
    requires Inv(s)
    ensures Counts(Apply(s, e))
  {
    WritingSteps(s, e);
    if Enters(s, e) {
      EnterCounts(s, e.t);
    } else if Leaves(s, e) {
      LeaveCounts(s, e.t);
    } else {
      QuietSteps(s, e);
      SameHolders(s, Apply(s, e), e.t);
    }
  }

  lemma EnterCounts(s: Pool, t: Tid)
    requires Counts(s) && t in s.handlers && s.handlers[t].Deciding? && s.inflight == s.handlers[t].current < s.max
    ensures Counts(Entered(s, t))
  {
    assert Holding(Entered(s, t)) == Holding(s) + {t};
  }

  lemma LeaveCounts(s: Pool, t: Tid)
    requires Counts(s) && t in s.handlers && s.handlers[t].Serving?
    ensures Counts(Left(s, t))
  {
    assert Holding(Left(s, t)) == Holding(s) - {t};
  }

  lemma SameHolders(s: Pool, s': Pool, t: Tid)
    requires Quiet(s, s', t)
    requires t in s'.handlers && s'.handlers[t].Serving? <==> t in s.handlers && s.handlers[t].Serving?
    ensures Holding(s') == Holding(s)
  {}

  lemma FreshPreserved(s: Pool, e: Event)
    requires Inv(s)
    ensures Fresh(Apply(s, e))
  {
    var s' := Apply(s, e);
    forall t | t in s'.handlers
      ensures FreshHandler(s'.handlers[t], t, s'.inflight, s'.max, s'.log)
    {
      if Enters(s, e) || Leaves(s, e) {
        WriteSpares(s, e, t);
      } else if t == e.t {
        OwnStepFresh(s, e);
      } else {
        QuietSteps(s, e);
      }
    }
  }

  lemma WriteSpares(s: Pool, e: Event, t: Tid)
    requires Fresh(s) && (Enters(s, e) || Leaves(s, e)) && t in s.handlers
    ensures var s' := Apply(s, e); t in s'.handlers && FreshHandler(s'.handlers[t], t, s'.inflight, s'.max, s'.log)
  {
    WritingSteps(s, e);
    if t != e.t {
      var s' := Apply(s, e);
      assert s'.handlers[t] == s.handlers[t] && s'.log == s.log + [e.t];
      assert FreshHandler(s.handlers[t], t, s.inflight, s.max, s.log);
    }
  }

  lemma OwnStepFresh(s: Pool, e: Event)
    requires Fresh(s) && !Enters(s, e) && !Leaves(s, e) && e.t in Apply(s, e).handlers
    ensures FreshHandler(Apply(s, e).handlers[e.t], e.t, s.inflight, s.max, s.log)
  {
    if e.t in s.handlers {
      assert FreshHandler(s.handlers[e.t], e.t, s.inflight, s.max, s.log);
    }
  }

  lemma PaidPreserved(s: Pool, e: Event)
    requires Inv(s)
    ensures Paid(Apply(s, e))
  {
    var s' := Apply(s, e);
    forall t | t in s'.handlers && t in s'.fails
      ensures s'.fails[t] <= ByOthers(Witnessed(s', t), t)
    {
      if Enters(s, e) || Leaves(s, e) {
        WritePays(s, e, t);
      } else if t == e.t {
        OwnStepPays(s, e);
      } else {
        QuietSteps(s, e);
      }
    }
  }

  lemma WritePays(s: Pool, e: Event, t: Tid)
    requires Inv(s) && (Enters(s, e) || Leaves(s, e)) && t in s.handlers
    ensures var s' := Apply(s, e);
            s'.fails == s.fails && t in s'.handlers && s.fails[t] <= ByOthers(Witnessed(s', t), t)
  {
    WritingSteps(s, e);
    WitnessKept(s, Apply(s, e), e.t, t);
    ByOthersGrows(Witnessed(s, t), Witnessed(Apply(s, e), t), t);
  }

  lemma WitnessKept(s: Pool, s': Pool, writer: Tid, t: Tid)
    requires t in s.handlers && s'.log == s.log + [writer]
    requires t in s'.handlers && (t != writer ==> s'.handlers[t] == s.handlers[t])
    requires t == writer ==> s'.handlers[t].Serving? || s'.handlers[t].Finished?
    requires (s.handlers[t].Loaded? || s.handlers[t].Deciding?) ==> s.handlers[t].at <= |s.log|
    ensures Witnessed(s, t) <= Witnessed(s', t)
  {
    if t != writer && (s.handlers[t].Loaded? || s.handlers[t].Deciding?) {
      assert s'.log[..s.handlers[t].at] == s.log[..s.handlers[t].at];
    }
  }

  lemma OwnStepPays(s: Pool, e: Event)
    requires Inv(s) && !Enters(s, e) && !Leaves(s, e)
    ensures var s' := Apply(s, e);
            e.t in s'.handlers && e.t in s'.fails ==> s'.fails[e.t] <= ByOthers(Witnessed(s', e.t), e.t)
  {
    var t := e.t;
    if t in s.handlers {
      ByOthersGrows(Witnessed(s, t), s.log, t);
      if s.handlers[t].Deciding? {
        FailedSwapIsPaid(s, t);
      }
      OwnStepWitnesses(s, e);
    }
  }

  lemma FailedSwapIsPaid(s: Pool, t: Tid)
    requires Inv(s) && t in s.handlers && s.handlers[t].Deciding?
    ensures s.inflight != s.handlers[t].current ==> s.fails[t] + 1 <= ByOthers(s.log, t)
  {
    if s.inflight != s.handlers[t].current {
      StaleMeansOthersWrote(s, t);
    }
  }

  /** A step that does not write leaves what its handler witnessed as it was, or brings
      it up to date; only a failed swap adds to the failures, and it brings it up to date. */
  lemma OwnStepWitnesses(s: Pool, e: Event)
    requires Inv(s) && !Enters(s, e) && !Leaves(s, e) && e.t in s.handlers
    ensures var s', t := Apply(s, e), e.t;
            && t in s'.handlers && t in s'.fails
            && (Witnessed(s', t) == Witnessed(s, t) || Witnessed(s', t) == s.log)
            && (s'.fails[t] == s.fails[t]
                || (s'.fails[t] == s.fails[t] + 1 && Witnessed(s', t) == s.log
                    && s.handlers[t].Deciding? && s.inflight != s.handlers[t].current))
  {
    assert s.log[..|s.log|] == s.log;
  }

  lemma {:induction false} ByOthersGrows(short: seq<Tid>, long: seq<Tid>, t: Tid)
    requires short <= long
    ensures ByOthers(short, t) <= ByOthers(long, t)
    decreases |long|
  {
    if |short| < |long| {
      ByOthersGrows(short, long[..|long| - 1], t);
    } else {
      assert short == long;
    }
  }

  /** A swap that would fail has been overtaken: somebody else wrote since the load. */
  lemma StaleMeansOthersWrote(s: Pool, t: Tid)
    requires Fresh(s) && t in s.handlers && s.handlers[t].Deciding? && s.inflight != s.handlers[t].current
    ensures s.handlers[t].at < |s.log| && s.log[s.handlers[t].at] != t
    ensures ByOthers(s.log, t) > ByOthers(Witnessed(s, t), t)
  {
    var at := s.handlers[t].at;
    var next := s.log[..at + 1];
    assert next[..at] == s.log[..at];
    ByOthersGrows(next, s.log, t);
  }

  /** A critical request takes no slot and is never refused, and no swap or load of it is
      ever seen, whatever happens. */
  lemma {:induction false} CriticalIsNeverShed(s: Pool, t: Tid, events: seq<Event>)
    requires t !in s.handlers
    ensures var s' := Exec(Apply(s, Arrive(t, true)), events);
            t in s'.handlers && (s'.handlers[t] == Unslotted || s'.handlers[t] == Finished)
    decreases |events|
  {
    if events == [] {
    } else {
      CriticalIsNeverShed(s, t, events[..|events| - 1]);
      UnslottedStays(Exec(Apply(s, Arrive(t, true)), events[..|events| - 1]), events[|events| - 1], t);
    }
  }

  lemma UnslottedStays(s: Pool, e: Event, t: Tid)
    requires t in s.handlers && (s.handlers[t] == Unslotted || s.handlers[t] == Finished)
    ensures t in Apply(s, e).handlers && (Apply(s, e).handlers[t] == Unslotted || Apply(s, e).handlers[t] == Finished)
  {}

  /** A sheddable one that is not admitted is refused, unless the shadow override is on:
      then it goes on without a slot, and is never refused in any run. */
  lemma {:induction false} OverrideNeverRefuses(s: Pool, t: Tid, events: seq<Event>)
    requires t !in s.handlers
    requires forall e :: e in events && e.Decide? && e.t == t ==> e.shadowOverride
    ensures var s' := Exec(Apply(s, Arrive(t, false)), events); t in s'.handlers && s'.handlers[t] != Refused
    decreases |events|
  {
    if events == [] {
    } else {
      var before, e := events[..|events| - 1], events[|events| - 1];
      OverrideNeverRefuses(s, t, before);
      assert e in events;
      OverrideStep(Exec(Apply(s, Arrive(t, false)), before), e, t);
    }
  }

  lemma OverrideStep(s: Pool, e: Event, t: Tid)
    requires t in s.handlers && s.handlers[t] != Refused && (e.Decide? && e.t == t ==> e.shadowOverride)
    ensures t in Apply(s, e).handlers && Apply(s, e).handlers[t] != Refused
  {}

  /** Undisturbed, a handler's load, decision and swap do what Allow does alone, and its
      end gives the slot back. */
  lemma HandlerAlone(s: Pool, t: Tid, draw: real)
    requires t !in s.handlers
    ensures var loaded := Apply(Apply(s, Arrive(t, false)), Load(t));
            var asked := Apply(Apply(loaded, Decide(t, draw, false)), Swap(t));
            var (admitted, after) := AllowRun(s.max, s.pct, s.inflight, [], draw);
            && asked.inflight == after
            && t in asked.handlers && asked.handlers[t] == (if admitted then Serving else Refused)
            && Apply(asked, Finish(t)).inflight == s.inflight
  {
    var loaded := Apply(Apply(s, Arrive(t, false)), Load(t));
    assert loaded.handlers[t] == Loaded(s.inflight, |s.log|) && loaded.inflight == s.inflight && t in loaded.fails;
    var decided := Apply(loaded, Decide(t, draw, false));
    assert decided.handlers[t] == if Admits(s.max, s.pct, s.inflight, draw) then Deciding(s.inflight,
        |s.log|) else Refused;
  }

  /** inflight is the number of admitted, unreleased handlers, and never leaves [0, max]. */
  lemma InflightIsHolders(max: int, pct: int, events: seq<Event>)
    requires max >= 0
    ensures var s := Exec(Empty(max, pct), events); s.inflight == |Holding(s)| && 0 <= s.inflight <= max
  {
    Reachable(max, pct, events);
  }

  /** A failed swap implies that another handler changed the counter since this one's load. */
  lemma FailedSwapMeansProgress(max: int, pct: int, events: seq<Event>, t: Tid)
    requires var s := Exec(Empty(max, pct), events);
             t in s.handlers && s.handlers[t].Deciding? && Apply(s, Swap(t)).handlers[t] == Looping
    ensures var s := Exec(Empty(max, pct), events);
            s.handlers[t].at < |s.log| && forall i :: s.handlers[t].at <= i < |s.log| ==> s.log[i] != t
  {
    Reachable(max, pct, events);
    StaleMeansOthersWrote(Exec(Empty(max, pct), events), t);
  }

  /** So a handler's retries are bounded by what the others achieve: system-wide progress. */
  lemma RetriesBoundedByOthers(max: int, pct: int, events: seq<Event>, t: Tid)
    requires t in Exec(Empty(max, pct), events).fails
    ensures var s := Exec(Empty(max, pct), events); s.fails[t] <= ByOthers(s.log, t)
  {
    Reachable(max, pct, events);
    var s := Exec(Empty(max, pct), events);
    ByOthersGrows(Witnessed(s, t), s.log, t);
  }

  /** What the others do to the counter around one round of the retry loop. */
  datatype Round = Round(before: int, draw: real, between: int)

  /** Allow as a function: the rounds in which others interfere, then one without. */
  function AllowRun(max: int, pct: int, inflight: int, rounds: seq<Round>, draw: real): (bool, int)
    decreases |rounds|
  {
    if rounds == [] then
      if Admits(max, pct, inflight, draw) then (true, inflight + 1) else (false, inflight)
    else
      var current := inflight + rounds[0].before;
      if !Admits(max, pct, current, rounds[0].draw) then (false, current)
      else if rounds[0].between == 0 then (true, current + 1)
      else AllowRun(max, pct, current + rounds[0].between, rounds[1..], draw)
  }

  /** The ramp spelled out, for Allow with nobody interfering. It starts at the whole part
      of pct percent of the maximum; up to there every draw is admitted, and from there
      on exactly the draws at or above a threshold that rises by equal amounts per unit
      of load, from 0 at the start to 1 at the maximum. */
  lemma RampIsLinear(max: int, pct: int, start: int, current: int, draw: real)
    requires 0 <= pct <= 100 && 100 * start <= max * pct < 100 * start + 100
    requires 0 <= current && 0 < max && IsDraw(draw)
    ensures var (admitted, after) := AllowRun(max, pct, current, [], draw);
            && after == (if admitted then current + 1 else current)
            && (current >= max ==> !admitted)
            && (current < max && current <= start ==> admitted)
            && (start <= current < max ==> (admitted <==> draw * (max - start) as real >= (current - start) as real))
  {
    assert RampStart(max, pct) == start by {
      assert max * pct >= 0;
    }
    if start <= current < max {
      Threshold((current - start) as real, (max - start) as real, draw);
    }
  }

  lemma Threshold(x: real, w: real, draw: real)
    requires w > 0.0
    ensures draw >= x / w <==> draw * w >= x
  {
    var q := x / w;
    assert q * w == x;
    if draw >= q {
      assert (draw - q) * w >= 0.0;
    } else {
      assert (q - draw) * w > 0.0;
    }
  }

  /** Every draw is admitted if and only if the load is at most pct percent of the maximum. */
  lemma NobodyIsRefusedExactlyWhen(max: int, pct: int, current: int)
    requires 0 <= current < max && 0 <= pct <= 100
    ensures (forall draw :: IsDraw(draw) ==> AllowRun(max, pct, current, [], draw).0) <==> 100 * current <= max * pct
  {
    var start := max * pct / 100;
    assert 100 * start <= max * pct < 100 * start + 100;
    forall draw | IsDraw(draw)
      ensures 100 * current <= max * pct ==> AllowRun(max, pct, current, [], draw).0
    {
      RampIsLinear(max, pct, start, current, draw);
    }
    if 100 * current > max * pct {
      RampIsLinear(max, pct, start, current, 0.0);
      assert IsDraw(0.0) && !AllowRun(max, pct, current, [], 0.0).0;
    }
  }

  /** The others' changes in the first n rounds. */
  function Drift(rounds: seq<Round>, n: nat): int
    requires n <= |rounds|
  {
    if n == 0 then 0 else Drift(rounds, n - 1) + rounds[n - 1].before + rounds[n - 1].between
  }

  lemma {:induction false} DriftShift(rounds: seq<Round>, n: nat)
    requires n < |rounds|
    ensures Drift(rounds, n + 1) == rounds[0].before + rounds[0].between + Drift(rounds[1..], n)
  {
    if n == 0 {
    } else {
      DriftShift(rounds, n - 1);
    }
  }

  /** Allow's own effect is one slot if it admits and none otherwise, and it never
      takes the counter past the maximum. */
  lemma {:induction false} AllowTakesOneSlotOrNone(max: int, pct: int, inflight: int, rounds: seq<Round>, draw: real)
      returns (n: nat, extra: int)
    ensures var (admitted, after) := AllowRun(max, pct, inflight, rounds, draw);
            && n <= |rounds|
            && after == inflight + Drift(rounds, n) + extra + (if admitted then 1 else 0)
            && (n == |rounds| ==> extra == 0)
            && (n < |rounds| ==> extra == rounds[n].before)
            && (admitted ==> after <= max)
    decreases |rounds|
  {
    if rounds == [] {
      return 0, 0;
    }
    var current := inflight + rounds[0].before;
    if !Admits(max, pct, current, rounds[0].draw) || rounds[0].between == 0 {
      return 0, rounds[0].before;
    }
    n, extra := AllowTakesOneSlotOrNone(max, pct, current + rounds[0].between, rounds[1..], draw);
    DriftShift(rounds, n);
    n := n + 1;
  }

  /** What the n-th load of a run sees. */
  function LoadAt(inflight: int, rounds: seq<Round>, n: nat): int
    requires n <= |rounds|
  {
    inflight + Drift(rounds, n) + if n < |rounds| then rounds[n].before else 0
  }

  /** A failed swap is never an answer: Allow goes round as long as it would admit and
      somebody else wrote in between, and answers by the ramp at the last value loaded. */
  lemma {:induction false} AllowAnswersAtItsLastLoad(max: int, pct: int, inflight: int, rounds: seq<Round>, draw: real)
    returns (n: nat)
    ensures n <= |rounds|
    ensures forall m :: 0 <= m < n ==>
              rounds[m].between != 0 && Admits(max, pct, LoadAt(inflight, rounds, m), rounds[m].draw)
    ensures var (admitted, after) := AllowRun(max, pct, inflight, rounds, draw);
            var load := LoadAt(inflight, rounds, n);
            && admitted == Admits(max, pct, load, if n < |rounds| then rounds[n].draw else draw)
            && after == (if admitted then load + 1 else load)
            && (n < |rounds| && admitted ==> rounds[n].between == 0)
    decreases |rounds|
  {
    if rounds == [] {
      n := 0;
    } else {
      var current := inflight + rounds[0].before;
      if !Admits(max, pct, current, rounds[0].draw) || rounds[0].between == 0 {
        n := 0;
      } else {
        var k := AllowAnswersAtItsLastLoad(max, pct, current + rounds[0].between, rounds[1..], draw);
        n := k + 1;
        LoadShift(inflight, rounds, k);
        forall m | 0 <= m < n
          ensures rounds[m].between != 0 && Admits(max, pct, LoadAt(inflight, rounds, m), rounds[m].draw)
        {
          if m == 0 {
            assert Drift(rounds, 0) == 0;
          } else {
            assert rounds[1..][m - 1] == rounds[m];
            LoadShift(inflight, rounds, m - 1);
          }
        }
        assert n < |rounds| ==> rounds[1..][k] == rounds[n];
      }
    }
  }

  lemma LoadShift(inflight: int, rounds: seq<Round>, m: nat)
    requires m < |rounds|
    ensures LoadAt(inflight, rounds, m + 1)
         == LoadAt(inflight + rounds[0].before + rounds[0].between, rounds[1..], m)
  {
    DriftShift(rounds, m);
  }

  class Shedder {
    var inflight: int
    const max: int
    const rampStartPct: int

    constructor (max: int, rampStartPct: int)
      ensures inflight == 0 && this.max == max && this.rampStartPct == rampStartPct
    {
      this.inflight := 0;
      this.max := max;
      this.rampStartPct := rampStartPct;
    }

    method Allow(rounds: seq<Round>, draw: real) returns (admitted: bool)
      modifies this
      ensures (admitted, inflight) == AllowRun(max, rampStartPct, old(inflight), rounds, draw)
    {
      var i := 0;
      while true
        invariant 0 <= i <= |rounds|
        invariant AllowRun(max, rampStartPct, inflight, rounds[i..], draw)
               == AllowRun(max, rampStartPct, old(inflight), rounds, draw)
        decreases |rounds| - i
      {
        var round := if i < |rounds| then rounds[i] else Round(0, draw, 0);
        inflight := inflight + round.before;
        var current := inflight;
        if current >= max {
          return false;
        }
        var admit := ShouldAdmitAtLoad(current, round.draw);
        if !admit {
          return false;
        }
        inflight := inflight + round.between;
        if inflight == current {
          inflight := current + 1;
          return true;
        }
        assert rounds[i..][1..] == rounds[i + 1..];
        i := i + 1;
      }
    }

    method ShouldAdmitAtLoad(current: int, draw: real) returns (admit: bool)
      ensures admit == AdmitAtLoad(max, rampStartPct, current, draw)
    {
      var rampStart := TruncDiv(max * rampStartPct, 100);
      if current < rampStart {
        return true;
      }
      var rampWindow := max - rampStart;
      if rampWindow <= 0 {
        return false;
      }
      var intoRamp := current - rampStart;
      return draw >= intoRamp as real / rampWindow as real;
    }

    method Release()
      modifies this
      ensures inflight == old(inflight) - 1
    {
      inflight := inflight - 1;
    }
  }
}
