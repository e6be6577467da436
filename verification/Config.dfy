/** The configuration file's checks: what the limiters may rely on once it passed. */
module Configs {
  import CL = ConcurrencyLimiter
  import FS = FleetShedder

  datatype Config = Config(
    defaultRate: int,
    defaultBurst: int,
    rateShadowMode: bool,
    slots: CL.SlotConfig,
    fleet: FS.FleetConfig)

  datatype Problem =
    | BadRate | BadBurst | BadSlotCap | BadFleetCap | BadReservedPct
    | BadBacklog | BadQueueWait | BadPollInterval | PollExceedsWait

  datatype Validation = Valid | Invalid(problem: Problem)

  function Validate(c: Config): (v: Validation)
    ensures v.Valid? <==> Safe(c)
    ensures v.Valid? && c.slots.queueingEnabled ==> c.slots.maxQueueWaitMs / c.slots.pollIntervalMs >= 1
  {
    if c.defaultRate <= 0 then Invalid(BadRate)
    else if c.defaultBurst < 0 then Invalid(BadBurst)
    else if c.slots.cap <= 0 then Invalid(BadSlotCap)
    else if c.fleet.cap <= 0 then Invalid(BadFleetCap)
    else if c.fleet.reservedCriticalPct < 0 || c.fleet.reservedCriticalPct > 100 then Invalid(BadReservedPct)
    else if c.slots.queueingEnabled then
      if c.slots.maxBacklog <= 0 then Invalid(BadBacklog)
      else if c.slots.maxQueueWaitMs <= 0 then Invalid(BadQueueWait)
      else if c.slots.pollIntervalMs <= 0 then Invalid(BadPollInterval)
      else if c.slots.pollIntervalMs > c.slots.maxQueueWaitMs then Invalid(PollExceedsWait)
      else Valid
    else Valid
  }

  /** What the tiers need: a positive tick whenever the poll loop can run at all. */
  predicate Safe(c: Config) {
    && c.defaultRate > 0 && c.defaultBurst >= 0
    && SafeSlots(c.slots)
    && SafeFleet(c.fleet)
  }

  predicate SafeSlots(c: CL.SlotConfig) {
    && c.cap > 0
    && (c.queueingEnabled ==> c.maxBacklog > 0 && 0 < c.pollIntervalMs <= c.maxQueueWaitMs)
  }

  predicate SafeFleet(c: FS.FleetConfig) {
    c.cap > 0 && 0 <= c.reservedCriticalPct <= 100
  }

  predicate Has(c: Config, p: Problem) {
    match p
    case BadRate => c.defaultRate < 1
    case BadBurst => c.defaultBurst < 0
    case BadSlotCap => c.slots.cap < 1
    case BadFleetCap => c.fleet.cap < 1
    case BadReservedPct => !(0 <= c.fleet.reservedCriticalPct <= 100)
    case BadBacklog => c.slots.queueingEnabled && c.slots.maxBacklog < 1
    case BadQueueWait => c.slots.queueingEnabled && c.slots.maxQueueWaitMs < 1
    case BadPollInterval => c.slots.queueingEnabled && c.slots.pollIntervalMs < 1
    case PollExceedsWait => c.slots.queueingEnabled && c.slots.pollIntervalMs > c.slots.maxQueueWaitMs
  }

  /** Among several problems the earliest in this order is reported. */
  function Order(p: Problem): nat {
    match p
    case BadRate => 0
    case BadBurst => 1
    case BadSlotCap => 2
    case BadFleetCap => 3
    case BadReservedPct => 4
    case BadBacklog => 5
    case BadQueueWait => 6
    case BadPollInterval => 7
    case PollExceedsWait => 8
  }

  /** Exactly the first of a configuration's problems is reported, if it has any. */
  lemma FirstProblemIsReported(c: Config, p: Problem)
    ensures Validate(c) == Invalid(p) <==> Has(c, p) && forall q :: Has(c, q) ==> Order(p) <= Order(q)
  {
    var problems := [BadRate, BadBurst, BadSlotCap, BadFleetCap, BadReservedPct, BadBacklog, BadQueueWait,
        BadPollInterval, PollExceedsWait];
    assert problems[Order(p)] == p;
    forall q
      ensures Has(c, q) ==> Validate(c).Invalid? && Order(Validate(c).problem) <= Order(q)
    {}
    if Validate(c).Invalid? {
      assert problems[Order(Validate(c).problem)] == Validate(c).problem && Has(c, Validate(c).problem);
    }
  }
}
