/** Debounced hot reload: the event loop shared by the configuration watcher and the
    critical-routes watcher, which keeps serving the last content that parsed.

    The goroutine, the runtime's timer and the file system are separate steps of one
    state machine; each step carries a reading of a clock that never goes backward. */
module Debounce {

  type Content = string

  /** What a file's content means; None is a content that does not load. For the
      configuration watcher, loading includes validation. */
  datatype Parsed<T> = None | Some(value: T)

  type Parser<T> = Content -> Parsed<T>

  const WINDOW := 50

  datatype Alarm = Off | At(deadline: int)

  /** One reload: when it happened, when the last event before it was processed, and
      the content it found. */
  datatype Read = Read(at: int, eventAt: int, content: Content)

  /** armed is the running timer, fired its value waiting in the channel; queue holds
      the file system events not yet received, true for those the loop acts on: a write,
      creation or rename under exactly the watched path. Other changes of the content,
      like a deletion or a swapped link, are silent. */
  datatype Watch<T> = Watch(
    armed: Alarm,
    fired: bool,
    queue: seq<bool>,
    file: Content,
    served: T,
    reloads: seq<Read>,
    handled: nat,
    eventAt: int,
    clock: int,
    stopping: bool,
    exited: bool,
    returned: bool)

  datatype Step =
    | Write(content: Content, now: int)
    | Silent(content: Content, now: int)
    | Noise(now: int)
    | Fire(now: int)
    | TakeEvent(now: int)
    | TakeTimer(now: int)
    | RequestStop(now: int)
    | TakeDone(now: int)
    | StopReturns(now: int)

  /** The state once Watch has loaded a content, parsed it and set itself up. */
  function Start<T>(served: T, file: Content, now: int): Watch<T> {
    Watch(Off, false, [], file, served, [], 0, now - WINDOW, now, false, false, false)
  }

  function Apply<T>(s: Watch<T>, parse: Parser<T>, step: Step): Watch<T> {
    if step.now < s.clock then s
    else
      var s := s.(clock := step.now);
      match step
      case Write(content, _) => s.(file := content, queue := s.queue + [true])
      case Silent(content, _) => s.(file := content)
      case Noise(_) => s.(queue := s.queue + [false])
      case Fire(now) =>
        if s.armed.At? && s.armed.deadline <= now then s.(armed := Off, fired := true) else s
      case TakeEvent(now) =>
        if s.exited || s.queue == [] then s
        else if !s.queue[0] then s.(queue := s.queue[1..])
        else s.(queue := s.queue[1..], armed := At(now + WINDOW), fired := if s.armed.At? then s.fired else false,
                handled := s.handled + 1, eventAt := now)
      case TakeTimer(now) =>
        if s.exited || !s.fired then s
        else
          var loaded := parse(s.file);
          s.(fired := false, reloads := s.reloads + [Read(now, s.eventAt, s.file)],
             served := if loaded.Some? then loaded.value else s.served)
      case RequestStop(_) => s.(stopping := true)
      case TakeDone(_) => if s.exited || !s.stopping then s else s.(armed := Off, exited := true)
      case StopReturns(_) => if s.exited then s.(returned := true) else s
  }

  function Exec<T>(s: Watch<T>, parse: Parser<T>, steps: seq<Step>): Watch<T> {
    if steps == [] then s else Apply(Exec(s, parse, steps[..|steps| - 1]), parse, steps[|steps| - 1])
  }

  predicate Pending<T>(s: Watch<T>) {
    s.armed.At? || s.fired
  }

  /** The timer always runs for, or has waited out, a full window since the last event. */
  ghost predicate Timed<T>(s: Watch<T>) {
    && !(s.armed.At? && s.fired)
    && s.eventAt <= s.clock
    && (s.armed.At? ==> s.armed.deadline == s.eventAt + WINDOW)
    && (!s.armed.At? && !s.exited ==> s.eventAt + WINDOW <= s.clock)
    && (s.fired ==> s.eventAt + WINDOW <= s.clock)
  }

  ghost predicate ReadsInTime<T>(s: Watch<T>) {
    forall i :: 0 <= i < |s.reloads| ==> s.reloads[i].at >= s.reloads[i].eventAt + WINDOW
  }

  lemma {:induction false} Reachable<T>(served: T, file: Content, start: int, parse: Parser<T>, steps: seq<Step>)
    ensures var s := Exec(Start(served, file, start), parse, steps); Timed(s) && ReadsInTime(s)
  {
    if steps == [] {
    } else {
      var before := steps[..|steps| - 1];
      Reachable(served, file, start, parse, before);
      StepIsTimed(Exec(Start(served, file, start), parse, before), parse, steps[|steps| - 1]);
    }
  }

  lemma StepIsTimed<T>(s: Watch<T>, parse: Parser<T>, step: Step)
    requires Timed(s) && ReadsInTime(s)
    ensures Timed(Apply(s, parse, step)) && ReadsInTime(Apply(s, parse, step))
  {}

  /** Every reload comes at least the full window after the last processed event: the
      timer value it acts on was set for that event and for no earlier one. */
  lemma ReloadsWaitOutTheWindow<T>(served: T, file: Content, start: int, parse: Parser<T>, steps: seq<Step>, i: nat)
    requires i < |Exec(Start(served, file, start), parse, steps).reloads|
    ensures var r := Exec(Start(served, file, start), parse, steps).reloads[i]; r.at >= r.eventAt + WINDOW
  {
    Reachable(served, file, start, parse, steps);
  }

  /** A reset leaves no fired value behind, so nothing is due before a window has passed. */
  lemma NoStaleValueSurvivesReset<T>(served: T, file: Content, start: int, parse: Parser<T>, steps: seq<Step>, now: int)
    requires var s := Exec(Start(served, file, start), parse, steps);
             !s.exited && s.queue != [] && s.queue[0] && s.clock <= now
    ensures var s := Apply(Exec(Start(served, file, start), parse, steps), parse, TakeEvent(now));
            s.armed == At(now + WINDOW) && !s.fired
  {
    Reachable(served, file, start, parse, steps);
  }

  predicate Handles<T>(s: Watch<T>, step: Step) {
    step.TakeEvent? && s.clock <= step.now && !s.exited && s.queue != [] && s.queue[0]
  }

  /** The events handled in a run come in one burst: each less than a window after the
      one before. */
  ghost predicate OneBurst<T>(s: Watch<T>, parse: Parser<T>, steps: seq<Step>)
    decreases |steps|
  {
    steps == [] ||
    (var before, step := steps[..|steps| - 1], steps[|steps| - 1];
     var mid := Exec(s, parse, before);
     && OneBurst(s, parse, before)
     && (Handles(mid, step) && mid.handled > s.handled ==> step.now < mid.eventAt + WINDOW))
  }

  /** What a burst has caused so far, from the resting state s on. */
  ghost predicate OneReloadAtMost<T>(s: Watch<T>, now: Watch<T>) {
    && Timed(now) && now.handled >= s.handled
    && (!now.exited ==>
          if now.handled == s.handled then !Pending(now) && now.reloads == s.reloads
          else if Pending(now) then now.reloads == s.reloads
          else |now.reloads| == |s.reloads| + 1 && now.reloads[|s.reloads|].at >= now.eventAt + WINDOW)
  }

  /** From rest, a burst of any length causes no reload while the timer is pending, and
      exactly one once it is not. */
  lemma {:induction false} BurstCausesOneReload<T>(s: Watch<T>, parse: Parser<T>, steps: seq<Step>)
    requires Timed(s) && !Pending(s) && !s.exited && OneBurst(s, parse, steps)
    ensures OneReloadAtMost(s, Exec(s, parse, steps))
    decreases |steps|
  {
    if steps == [] {
    } else {
      var before := steps[..|steps| - 1];
      BurstCausesOneReload(s, parse, before);
      BurstGoesOn(s, Exec(s, parse, before), parse, steps[|steps| - 1]);
    }
  }

  lemma BurstGoesOn<T>(s: Watch<T>, mid: Watch<T>, parse: Parser<T>, step: Step)
    requires OneReloadAtMost(s, mid)
    requires Handles(mid, step) && mid.handled > s.handled ==> step.now < mid.eventAt + WINDOW
    ensures OneReloadAtMost(s, Apply(mid, parse, step))
  {}

  /** In these steps no relevant event is received, and the loop neither reloads nor exits. */
  ghost predicate NothingHandled<T>(s: Watch<T>, parse: Parser<T>, steps: seq<Step>)
    decreases |steps|
  {
    steps != [] ==>
      var before, step := steps[..|steps| - 1], steps[|steps| - 1];
      && NothingHandled(s, parse, before)
      && !step.TakeTimer? && !step.TakeDone? && !Handles(Exec(s, parse, before), step)
  }

  /** They leave a fired timer, and everything the reload depends on but the file, alone. */
  lemma {:induction false} FiredValueWaits<T>(s: Watch<T>, parse: Parser<T>, steps: seq<Step>)
    requires !s.exited && !s.armed.At? && NothingHandled(s, parse, steps)
    ensures var s' := Exec(s, parse, steps);
            && !s'.exited && !s'.armed.At? && s'.fired == s.fired && s'.eventAt == s.eventAt
            && s'.reloads == s.reloads && s'.served == s.served
    decreases |steps|
  {
    if steps == [] {
    } else {
      FiredValueWaits(s, parse, steps[..|steps| - 1]);
    }
  }

  /** Progress: after a burst from rest, once the timer has had its window and the loop
      gets round to it, with no further event received before that, there has been exactly
      one reload more and nothing is pending; and a reload that was still due reads what
      the file holds at that moment, and serves it if it parses. */
  lemma BurstIsReloaded<T>(s: Watch<T>, parse: Parser<T>, burst: seq<Step>, fire: int, between: seq<Step>, take: int)
    requires Timed(s) && !Pending(s) && !s.exited && OneBurst(s, parse, burst)
    requires var mid := Exec(s, parse, burst);
             && !mid.exited && mid.handled > s.handled && fire >= mid.clock && fire >= mid.eventAt + 50
             && NothingHandled(Apply(mid, parse, Fire(fire)), parse, between)
             && take >= Exec(Apply(mid, parse, Fire(fire)), parse, between).clock
    ensures var mid := Exec(s, parse, burst);
            var due := Exec(Apply(mid, parse, Fire(fire)), parse, between);
            var done := Apply(due, parse, TakeTimer(take));
            && !Pending(done) && |done.reloads| == |s.reloads| + 1
            && (Pending(mid) ==>
                  && done.reloads == s.reloads + [Read(take, mid.eventAt, due.file)]
                  && done.served == (if parse(due.file).Some? then parse(due.file).value else s.served))
  {
    BurstCausesOneReload(s, parse, burst);
    var mid := Exec(s, parse, burst);
    var fired := Apply(mid, parse, Fire(fire));
    assert !fired.exited && !fired.armed.At? && fired.fired == Pending(mid);
    FiredValueWaits(fired, parse, between);
    if Pending(mid) {
      NothingServedSoFar(s, parse, burst);
    }
  }

  /** As long as nothing was reloaded, what is served stays. */
  lemma {:induction false} NothingServedSoFar<T>(s: Watch<T>, parse: Parser<T>, steps: seq<Step>)
    ensures var s' := Exec(s, parse, steps);
            |s'.reloads| >= |s.reloads| && (s'.reloads == s.reloads ==> s'.served == s.served)
    decreases |steps|
  {
    if steps == [] {
    } else {
      NothingServedSoFar(s, parse, steps[..|steps| - 1]);
    }
  }

  /** An event is received once, and one that is not about the file does nothing else. */
  lemma EventsAreReceivedOnce<T>(s: Watch<T>, parse: Parser<T>, now: int)
    requires !s.exited && s.queue != [] && now >= s.clock
    ensures var s' := Apply(s, parse, TakeEvent(now));
            && s'.queue == s.queue[1..]
            && (!s.queue[0] ==> s' == s.(queue := s.queue[1..], clock := now))
            && (s.queue[0] ==> s'.armed == At(now + 50) && s'.eventAt == now && s'.handled == s.handled + 1)
            && s'.reloads == s.reloads && s'.served == s.served
  {}

  /** Stop gets through: once it is asked for, the loop can exit, and it returns. */
  lemma StopGetsThrough<T>(s: Watch<T>, parse: Parser<T>, now: int)
    requires now >= s.clock
    ensures var asked := Apply(s, parse, RequestStop(now));
            var s' := Apply(Apply(asked, parse, TakeDone(now)), parse, StopReturns(now));
            s'.exited && s'.returned && s'.reloads == s.reloads && s'.served == s.served
  {}

  /** The content last read: by the newest reload, or else by the load at the start. */
  function LastRead<T>(s: Watch<T>, loaded: Content): Content {
    if s.reloads == [] then loaded else s.reloads[|s.reloads| - 1].content
  }

  /** The last content that parsed, among the one at the start and the reloads since. */
  function LastGood<T>(start: T, parse: Parser<T>, reloads: seq<Read>): T {
    if reloads == [] then start
    else
      var p := parse(reloads[|reloads| - 1].content);
      if p.Some? then p.value else LastGood(start, parse, reloads[..|reloads| - 1])
  }

  /** Nothing is left to happen: no event waiting, no timer running or fired. */
  predicate AtRest<T>(s: Watch<T>) {
    s.queue == [] && !Pending(s) && !s.exited
  }

  /** A change of the file not yet read is announced by an event, or the timer is set. */
  ghost predicate ChangesAnnounced<T>(s: Watch<T>, loaded: Content) {
    s.exited || s.file == LastRead(s, loaded) || true in s.queue || Pending(s)
  }

  lemma {:induction false} ServesLastGood<T>(served: T, file: Content, start: int, parse: Parser<T>, steps: seq<Step>)
    ensures var s := Exec(Start(served, file, start), parse, steps); s.served == LastGood(served, parse, s.reloads)
  {
    if steps == [] {
    } else {
      var before := steps[..|steps| - 1];
      ServesLastGood(served, file, start, parse, before);
      StepServesLastGood(served, Exec(Start(served, file, start), parse, before), parse, steps[|steps| - 1]);
    }
  }

  lemma StepServesLastGood<T>(start: T, s: Watch<T>, parse: Parser<T>, step: Step)
    requires s.served == LastGood(start, parse, s.reloads)
    ensures var s' := Apply(s, parse, step); s'.served == LastGood(start, parse, s'.reloads)
  {
    var s' := Apply(s, parse, step);
    if |s'.reloads| > |s.reloads| {
      assert s'.reloads[..|s'.reloads| - 1] == s.reloads;
    }
  }

  /** The content that a silent step left, if one came after the last write and the last
      reload of a run. */
  function LeftSilently<T>(s: Watch<T>, parse: Parser<T>, steps: seq<Step>): Parsed<Content> {
    if steps == [] then None
    else
      var before, step := steps[..|steps| - 1], steps[|steps| - 1];
      var mid := Exec(s, parse, before);
      if step.now < mid.clock then LeftSilently(s, parse, before)
      else if step.Silent? then Some(step.content)
      else if step.Write? || |Apply(mid, parse, step).reloads| > |mid.reloads| then None
      else LeftSilently(s, parse, before)
  }

  /** No change is missed, except a silent one or one made before the watch started. */
  ghost predicate Noticed<T>(s: Watch<T>, silent: Parsed<Content>, file: Content, loaded: Content) {
    && (s.handled > 0 && !s.exited ==> Pending(s) || s.reloads != [])
    && (if silent.Some? then s.file == silent.value
        else
          && (file == loaded || s.reloads != [] || s.handled > 0 || true in s.queue ==> ChangesAnnounced(s, loaded))
          && (s.reloads == [] && s.handled == 0 && true !in s.queue ==> s.file == file))
  }

  lemma {:induction false} NoChangeIsMissed<T>(served: T, file: Content, loaded: Content, start: int,
      parse: Parser<T>, steps: seq<Step>)
    ensures var begin := Start(served, file, start);
            Noticed(Exec(begin, parse, steps), LeftSilently(begin, parse, steps), file, loaded)
  {
    if steps == [] {
    } else {
      var begin, before := Start(served, file, start), steps[..|steps| - 1];
      NoChangeIsMissed(served, file, loaded, start, parse, before);
      StepIsNoticed(Exec(begin, parse, before), LeftSilently(begin, parse, before), parse, steps[|steps| - 1], file,
          loaded);
    }
  }

  lemma StepIsNoticed<T>(s: Watch<T>, silent: Parsed<Content>, parse: Parser<T>, step: Step, file: Content,
      loaded: Content)
    requires Noticed(s, silent, file, loaded)
    ensures var s' := Apply(s, parse, step);
            var silent' := if step.now < s.clock then silent
                           else if step.Silent? then Some(step.content)
                           else if step.Write? || |s'.reloads| > |s.reloads| then None
                           else silent;
            Noticed(s', silent', file, loaded)
  {
    if step.TakeEvent? && s.queue != [] {
      assert s.queue == [s.queue[0]] + s.queue[1..];
    }
  }

  /** Once the watcher is at rest, it serves the last content that parsed among those it
      read. If no silent step came after the last write or reload, the last one it read
      is the file's, so that the final content is served if it parses, exactly when no
      write slipped in between the first load and the start of the watch, or a reload
      came since. If one did, the file is what that step left, and the content read last
      is the file's only if the step left it as it was. */
  lemma AtRestServesFinalContent<T>(served: T, file: Content, loaded: Content, start: int, parse: Parser<T>,
      steps: seq<Step>)
    requires AtRest(Exec(Start(served, file, start), parse, steps))
    requires parse(loaded) == Some(served)
    ensures var s := Exec(Start(served, file, start), parse, steps);
            var silent := LeftSilently(Start(served, file, start), parse, steps);
            && s.served == LastGood(served, parse, s.reloads)
            && (silent.None? ==> (s.file == LastRead(s, loaded) <==> s.reloads != [] || file == loaded))
            && (silent.None? && (s.reloads != [] || file == loaded) && parse(s.file).Some?
                ==> s.served == parse(s.file).value)
            && (silent.Some? ==> s.file == silent.value)
  {
    ServesLastGood(served, file, start, parse, steps);
    NoChangeIsMissed(served, file, loaded, start, parse, steps);
  }

  lemma {:induction false} NothingAfterExit<T>(s: Watch<T>, parse: Parser<T>, steps: seq<Step>)
    requires s.exited
    ensures var s' := Exec(s, parse, steps); s'.exited && s'.reloads == s.reloads && s'.served == s.served
  {
    if steps == [] {
    } else {
      NothingAfterExit(s, parse, steps[..|steps| - 1]);
    }
  }

  /** Stop waits for the loop, so it returns only once the loop has exited. */
  lemma {:induction false} StopReturnsLast<T>(served: T, file: Content, start: int, parse: Parser<T>, steps: seq<Step>)
    ensures var s := Exec(Start(served, file, start), parse, steps);
            (s.returned ==> s.exited) && (s.exited ==> s.stopping)
  {
    if steps == [] {
    } else {
      StopReturnsLast(served, file, start, parse, steps[..|steps| - 1]);
    }
  }

  /** In every run, nothing reloads once stop has returned, whatever happens to the file.
      Between the request and the return the loop may still reload, as its select may
      prefer the timer. */
  lemma NothingAfterStop<T>(served: T, file: Content, start: int, parse: Parser<T>, steps: seq<Step>, more: seq<Step>)
    requires Exec(Start(served, file, start), parse, steps).returned
    ensures var s := Exec(Start(served, file, start), parse, steps);
            var s' := Exec(s, parse, more);
            s'.reloads == s.reloads && s'.served == s.served
  {
    StopReturnsLast(served, file, start, parse, steps);
    NothingAfterExit(Exec(Start(served, file, start), parse, steps), parse, more);
  }

  class Timer {
    var armed: Alarm
    var fired: bool

    constructor ()
      ensures armed == Off && !fired
    {
      armed := Off;
      fired := false;
    }

    /** True if the call stops the timer, false if it had expired or been stopped. */
    method Stop() returns (active: bool)
      modifies this
      ensures active == old(armed).At? && armed == Off && fired == old(fired)
    {
      active := armed.At?;
      armed := Off;
    }

    /** The non-blocking receive. */
    method Drain()
      modifies this
      ensures !fired && armed == old(armed)
    {
      fired := false;
    }

    method Reset(deadline: int)
      modifies this
      ensures armed == At(deadline) && fired == old(fired)
    {
      armed := At(deadline);
    }
  }

  /** The watcher object: the event loop's handlers update its fields in place. */
  class Watcher<T> {
    const parse: Parser<T>
    const timer: Timer
    var queue: seq<bool>
    var file: Content
    var served: T
    var stopping: bool
    var exited: bool
    var returned: bool
    var clock: int
    ghost var reloads: seq<Read>
    ghost var handled: nat
    ghost var eventAt: int

    constructor (parse: Parser<T>, served: T, file: Content, now: int)
      ensures this.parse == parse && fresh(timer) && Value() == Start(served, file, now)
    {
      this.parse := parse;
      this.timer := new Timer();
      this.queue := [];
      this.file := file;
      this.served := served;
      this.stopping := false;
      this.exited := false;
      this.returned := false;
      this.clock := now;
      this.reloads := [];
      this.handled := 0;
      this.eventAt := now - WINDOW;
    }

    ghost function Value(): Watch<T>
      reads this, timer
    {
      Watch(timer.armed, timer.fired, queue, file, served, reloads, handled, eventAt, clock, stopping,
          exited, returned)
    }

    /** case event := <-watcher.Events */
    method HandleEvent(now: int)
      requires !exited && queue != [] && clock <= now
      modifies this, timer
      ensures Value() == Apply(old(Value()), parse, TakeEvent(now))
    {
      clock := now;
      var relevant := queue[0];
      queue := queue[1..];
      if relevant {
        var active := timer.Stop();
        if !active {
          timer.Drain();
        }
        timer.Reset(now + WINDOW);
        handled := handled + 1;
        eventAt := now;
      }
    }

    /** case <-timer.C */
    method HandleTimer(now: int)
      requires !exited && timer.fired && clock <= now
      modifies this, timer
      ensures Value() == Apply(old(Value()), parse, TakeTimer(now))
    {
      clock := now;
      timer.Drain();
      reloads := reloads + [Read(now, eventAt, file)];
      var loaded := parse(file);
      if loaded.Some? {
        served := loaded.value;
      }
    }

    /** case <-done */
    method HandleDone(now: int)
      requires stopping && !exited && clock <= now
      modifies this, timer
      ensures Value() == Apply(old(Value()), parse, TakeDone(now))
    {
      clock := now;
      var active := timer.Stop();
      exited := true;
    }

    /** The loop, with what the file system and the runtime do between its turns. */
    method Loop(steps: seq<Step>)
      modifies this, timer
      ensures Value() == Exec(old(Value()), parse, steps)
    {
      var i := 0;
      while i < |steps|
        invariant 0 <= i <= |steps|
        invariant Value() == Exec(old(Value()), parse, steps[..i])
      {
        var step := steps[i];
        assert steps[..i + 1][..i] == steps[..i];
        if clock <= step.now {
          if step.TakeEvent? && !exited && queue != [] {
            HandleEvent(step.now);
          } else if step.TakeTimer? && !exited && timer.fired {
            HandleTimer(step.now);
          } else if step.TakeDone? && stopping && !exited {
            HandleDone(step.now);
          } else {
            Environment(step);
          }
        }
        i := i + 1;
      }
      assert steps[..|steps|] == steps;
    }

    /** Steps outside the goroutine, and turns of its select with nothing to receive. */
    method Environment(step: Step)
      requires clock <= step.now
      requires step.TakeEvent? ==> exited || queue == []
      requires step.TakeTimer? ==> exited || !timer.fired
      requires step.TakeDone? ==> exited || !stopping
      modifies this, timer
      ensures Value() == Apply(old(Value()), parse, step)
    {
      clock := step.now;
      match step
      case Write(content, _) =>
        file := content;
          queue := queue + [true];
      case Silent(content, _) =>
        file := content;
      case Noise(_) => queue := queue + [false];
      case Fire(now) =>
        if timer.armed.At? && timer.armed.deadline <= now {
          timer.armed := Off;
          timer.fired := true;
        }
      case RequestStop(_) => stopping := true;
      case StopReturns(_) => returned := returned || exited;
      case _ =>
    }
  }
}
