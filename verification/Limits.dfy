/** The vocabulary shared by the tiers: requests, decisions, reservations. */
module Limits {
  import opened TokenStore

  datatype Action = ALLOW | REJECT_429 | REJECT_503 | SHADOW_LOG | QUEUE

  datatype Priority = Sheddable | Critical

  datatype TokenReservation = TokenReservation(key: Key, token: Token)

  datatype Decision = Decision(
    action: Action,
    retryAfterMs: int,
    reservations: seq<TokenReservation>,
    tier: string,
    limit: int,
    remaining: int)

  datatype Request = Request(key: Key, cost: int, skipReservations: bool, priority: Priority)

  datatype Error = NoError | StoreFailed | ContextCanceled

  /** The (Decision, error) pair that every tier's Check returns. */
  datatype Verdict = Verdict(decision: Decision, err: Error)

  function Plain(action: Action, retryAfterMs: int, tier: string): Verdict {
    Verdict(Decision(action, retryAfterMs, [], tier, 0, 0), NoError)
  }

  function Grant(action: Action, key: Key, token: Token, tier: string): Verdict {
    Verdict(Decision(action, 0, [TokenReservation(key, token)], tier, 0, 0), NoError)
  }

  function Failed(err: Error): Verdict {
    Verdict(Decision(ALLOW, 0, [], "", 0, 0), err)
  }

  /** Whether the pipeline goes on to the next tier. */
  predicate Passes(v: Verdict) {
    v.err.NoError? && (v.decision.action.ALLOW? || v.decision.action.QUEUE?)
  }

  predicate Admits(v: Verdict) {
    v.err.NoError? && (v.decision.action.ALLOW? || v.decision.action.QUEUE? || v.decision.action.SHADOW_LOG?)
  }

  /** How a reserving tier may answer: an admission hands out exactly one token of the
      tier's own key (blank only if shadow mode found even the unbounded cap full), a
      refusal or an error hands out none, and a request that skips gets a bare ALLOW. */
  predicate Honest(v: Verdict, key: Key, skip: bool) {
    var rs := v.decision.reservations;
    if skip then v == Plain(ALLOW, 0, "")
    else if Admits(v) then |rs| == 1 && rs[0].key == key && (rs[0].token == "" ==> v.decision.action.SHADOW_LOG?)
    else rs == []
  }

  /** The tokens a verdict hands out. The empty token is the store's "none". */
  function Granted(v: Verdict): set<(Key, Token)> {
    set r | r in v.decision.reservations && r.token != "" :: (r.key, r.token)
  }

  /** MaxInt32: the cap that shadow mode passes so that its reservation always fits. */
  const UNBOUNDED_CAP := 0x7fff_ffff
  const FLEET_KEY: Key := "fleet"
  const BACKLOG_PREFIX: Key := "backlog:"

  function BacklogKey(key: Key): Key {
    BACKLOG_PREFIX + key
  }

  /** A request key that no other use of the token store's namespace can meet. */
  predicate PlainKey(key: Key) {
    key != FLEET_KEY && !(BACKLOG_PREFIX <= key)
  }

  /** The precondition is exact: a request key keeps clear of the fleet set and of
      every backlog set if and only if it is plain, and backlogs never meet. */
  lemma KeySpacesDisjoint(key: Key)
    ensures PlainKey(key) <==> key != FLEET_KEY && (forall other: Key :: key != BacklogKey(other))
    ensures forall other: Key :: BacklogKey(other) != FLEET_KEY
    ensures forall other: Key :: BacklogKey(other) == BacklogKey(key) ==> other == key
  {
    forall other: Key
      ensures BACKLOG_PREFIX <= BacklogKey(other)
      ensures BacklogKey(other) != FLEET_KEY
      ensures BacklogKey(other) == BacklogKey(key) ==> other == key
    {
      assert BacklogKey(other)[|BACKLOG_PREFIX|..] == other;
      assert BacklogKey(key)[|BACKLOG_PREFIX|..] == key;
    }
    if BACKLOG_PREFIX <= key {
      assert key == BacklogKey(key[|BACKLOG_PREFIX|..]);
    }
  }
}
