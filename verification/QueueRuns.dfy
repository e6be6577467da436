/** One run in which a key's backlog set and its queue part: the reply to a backlog
    acquire gets lost, so the place is taken and nobody waits in it. */
module QueueRuns {
  import opened TokenStore
  import opened Limits
  import opened Configs
  import opened Cluster
  import opened ClusterConservation
  import CL = ConcurrencyLimiter
  import FS = FleetShedder

  const SLOTS := CL.SlotConfig(1, 30000, false, true, 1, 2000, 50)
  const CONFIG := Config.Config(10, 10, false, SLOTS, FS.FleetConfig(10, 20, 30000, false))
  const REQUEST := Request("k", 1, false, Sheddable)
  const PASSED := Plain(ALLOW, 0, "")

  function Asking(stage: CL.SlotState): Proc {
    Proc(0, REQUEST, PASSED, InSlot(SLOTS, stage))
  }

  function Asks(candidate: Token, fault: Fault): Turn {
    Turn(0, candidate, fault, Tick)
  }

  /** Request 0 takes the only slot, request 1 is sent to the backlog, and the reply that
      it has got a place there is lost. */
  function Happens(n: nat): Event
    requires n < 5
  {
    if n == 0 then Arrive(0, 0, REQUEST, PASSED)
    else if n == 1 then Advance(0, Asks("a", Delivered))
    else if n == 2 then Arrive(1, 0, REQUEST, PASSED)
    else if n == 3 then Advance(1, Asks("x", Delivered))
    else Advance(1, Asks("b", ReplyLost))
  }

  function Run(n: nat): seq<Event>
    requires n <= 5
  {
    if n == 0 then [] else Run(n - 1) + [Happens(n - 1)]
  }

  function State(n: nat): System
    requires n <= 5
  {
    Exec(Start(map[0 := CONFIG]), Run(n))
  }

  lemma Next(n: nat)
    requires n < 5
    ensures State(n + 1) == Apply(State(n), Happens(n))
  {
    assert Run(n + 1)[..|Run(n + 1)| - 1] == Run(n);
  }

  lemma SlotGranted(s: System)
    requires s.procs == map[0 := Asking(CL.AskSlot)] && s.db == map[] && s.issued == map[]
    ensures var s' := Apply(s, Advance(0, Asks("a", Delivered)));
            && s'.db == map["k" := map["a" := 0]] && s'.issued == map["a" := Origin("k", 0, Sheddable)]
            && s'.procs.Keys == {0} && s'.replicas == s.replicas
            && s'.lost == s.lost && s'.released == s.released && s'.reaped == s.reaped
  {
    assert Reap(map[], 0 - 30000) == map[];
    assert Perform(s.db, Incr("k", 1, 30000), Asks("a", Delivered)) == (map["k" := map["a" := 0]], Reply(true, "a"));
  }

  lemma SentToBacklog(s: System)
    requires 1 in s.procs && s.procs[1] == Asking(CL.AskSlot) && s.db == map["k" := map["a" := 0]] && "x" !in s.issued
    ensures Apply(s, Advance(1, Asks("x", Delivered))) == s.(procs := s.procs[1 := Asking(CL.AskBacklog)])
  {
    assert Reap(map["a" := 0], 0 - 30000) == map["a" := 0];
    assert |map["a" := 0]| == 1;
    assert At(s.db, "k") == map["a" := 0] && s.db["k" := map["a" := 0]] == s.db;
    assert Script(s.db, "k", 1, 30000, 0, "x") == (s.db, Reply(false, ""));
    assert Perform(s.db, Incr("k", 1, 30000), Asks("x", Delivered)) == (s.db, Reply(false, ""));
  }

  lemma PlaceLost(s: System)
    requires 1 in s.procs && s.procs[1] == Asking(CL.AskBacklog) && BacklogKey("k") !in s.db && "b" !in s.issued
    ensures var s' := Apply(s, Advance(1, Asks("b", ReplyLost)));
            && At(s'.db, BacklogKey("k")) == map["b" := 0]
            && s'.procs == s.procs[1 := Asking(CL.Returned(Failed(StoreFailed)))]
            && s'.issued == s.issued["b" := Origin(BacklogKey("k"), 1, Sheddable)]
            && s'.lost == s.lost + {"b"} && s'.released == s.released && s'.reaped == s.reaped
  {
    var key := BacklogKey("k");
    assert At(s.db, key) == map[] && Reap(map[], 0 - 2000) == map[];
    assert Perform(s.db, Incr(key, 1, 2000), Asks("b", ReplyLost)) == (s.db[key := map["b" := 0]], StoreError);
  }

  lemma AfterTwo()
    ensures var s := State(2);
            && s.db == map["k" := map["a" := 0]] && s.issued == map["a" := Origin("k", 0, Sheddable)]
            && s.procs.Keys == {0} && s.replicas == map[0 := CONFIG]
            && s.lost == {} && s.released == {} && s.reaped == {}
  {
    Next(0);
    Next(1);
    var s := State(1);
    assert s == Start(map[0 := CONFIG]).(procs := map[0 := Asking(CL.AskSlot)]);
    SlotGranted(s);
  }

  lemma AfterFour()
    ensures var s := State(4);
            && s.db == map["k" := map["a" := 0]] && s.issued == map["a" := Origin("k", 0, Sheddable)]
            && s.procs.Keys == {0, 1} && s.procs[1] == Asking(CL.AskBacklog) && s.procs[0] == State(2).procs[0]
            && s.lost == {} && s.released == {} && s.reaped == {}
  {
    AfterTwo();
    Next(2);
    Next(3);
    var s := State(3);
    assert s == State(2).(procs := State(2).procs[1 := Asking(CL.AskSlot)]);
    SentToBacklog(s);
  }

  /** The run: a validated configuration, plain keys, one lost reply. In the end the set
      holds the one token it has room for, and that token is lost: it is not a queued
      request's, so set and queue differ until it is reaped. */
  lemma BacklogWithoutQueue()
    ensures Validate(CONFIG).Valid? && PlainRun(Run(5))
    ensures At(State(5).db, BacklogKey("k")).Keys == {"b"}
    ensures At(State(5).db, BacklogKey("k")).Keys != QueueTokens(State(5), "k")
  {
    PlainSoFar(5);
    AfterFive();
    PartedWhenLost(map[0 := CONFIG], Run(5), "k", "b");
  }

  lemma AfterFive()
    ensures var s := State(5);
            && At(s.db, BacklogKey("k")) == map["b" := 0]
            && "b" in s.issued && s.issued["b"].key == BacklogKey("k")
            && s.lost == {"b"} && s.released == {} && s.reaped == {}
  {
    AfterFour();
    Next(4);
    assert BacklogKey("k") != "k" by {
      assert |BacklogKey("k")| == |BACKLOG_PREFIX| + 1;
    }
    PlaceLost(State(4));
  }

  lemma PartedWhenLost(replicas: map<Replica, Config>, events: seq<Event>, k: Key, t: Token)
    requires PlainRun(events)
    requires var s := Exec(Start(replicas), events);
             && t in s.lost && t in s.issued && s.issued[t].key == BacklogKey(k)
             && t !in s.released && t !in s.reaped
    ensures var s := Exec(Start(replicas), events); At(s.db, BacklogKey(k)).Keys != QueueTokens(s, k)
  {
    BacklogIsTheQueue(replicas, events, k);
    assert !LostOnesAreGone(Exec(Start(replicas), events), k);
  }

  lemma {:induction false} PlainSoFar(n: nat)
    requires n <= 5
    ensures PlainRun(Run(n))
  {
    if n == 0 {
    } else {
      PlainSoFar(n - 1);
    }
  }
}
