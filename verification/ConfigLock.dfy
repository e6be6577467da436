/** The lock around a limiter's configuration: a Check copies the fields one by one under
    the read lock, a reload or an admin call writes them one by one under the write lock,
    and every copy is a configuration that was installed as a whole. */
module ConfigLock {

  type Tid = nat

  /** What a goroutine is doing. A reader remembers the fields copied so far and which
      configuration was in force when it got the lock; a writer has written the fields
      before `next`. */
  datatype Thread<V> =
    | Copying(got: seq<V>, asOf: nat)
    | Writing(config: seq<V>, next: nat)
    | Copied(snapshot: seq<V>, asOf: nat)
    | Wrote

  /** The fields as they are in memory, and every configuration installed so far. */
  datatype Memory<V> = Memory(fields: seq<V>, threads: map<Tid, Thread<V>>, installed: seq<seq<V>>)

  datatype Step<V> =
    | RLock(t: Tid)
    | ReadField(t: Tid)
    | RUnlock(t: Tid)
    | Lock(t: Tid, config: seq<V>)
    | WriteField(t: Tid)
    | Unlock(t: Tid)

  function Start<V>(config: seq<V>): Memory<V> {
    Memory(config, map[], [config])
  }

  predicate NoWriter<V>(m: Memory<V>) {
    forall t :: t in m.threads ==> !m.threads[t].Writing?
  }

  predicate NoReader<V>(m: Memory<V>) {
    forall t :: t in m.threads ==> !m.threads[t].Copying?
  }

  /** One atomic step. Acquiring a lock that is not free changes nothing: the goroutine
      waits. */
  function Apply<V>(m: Memory<V>, step: Step<V>): Memory<V>
    requires m.installed != []
  {
    var t := step.t;
    match step
    case RLock(_) =>
      if t in m.threads || !NoWriter(m) then m
      else m.(threads := m.threads[t := Copying([], |m.installed| - 1)])
    case ReadField(_) =>
      if Copies(m, t) && |m.threads[t].got| < |m.fields| then
        var r := m.threads[t];
        m.(threads := m.threads[t := r.(got := r.got + [m.fields[|r.got|]])])
      else m
    case RUnlock(_) =>
      if Copies(m, t) && |m.threads[t].got| == |m.fields| then
        m.(threads := m.threads[t := Copied(m.threads[t].got, m.threads[t].asOf)])
      else m
    case Lock(_, config) =>
      if t in m.threads || !NoWriter(m) || !NoReader(m) || |config| != |m.fields| then m
      else m.(threads := m.threads[t := Writing(config, 0)])
    case WriteField(_) =>
      if Writes(m, t) && m.threads[t].next < |m.threads[t].config| == |m.fields| then
        var w := m.threads[t];
        m.(fields := m.fields[w.next := w.config[w.next]], threads := m.threads[t := w.(next := w.next + 1)])
      else m
    case Unlock(_) =>
      if Writes(m, t) && m.threads[t].next == |m.threads[t].config| then
        m.(threads := m.threads[t := Wrote], installed := m.installed + [m.threads[t].config])
      else m
  }

  predicate Copies<V>(m: Memory<V>, t: Tid) {
    t in m.threads && m.threads[t].Copying?
  }

  predicate Writes<V>(m: Memory<V>, t: Tid) {
    t in m.threads && m.threads[t].Writing?
  }

  /** While nobody writes, the fields are the last installed configuration; a writer has
      replaced a prefix of it by its own, and there is only one. */
  ghost predicate Inv<V>(m: Memory<V>) {
    && m.installed != []
    && (forall i :: 0 <= i < |m.installed| ==> |m.installed[i]| == |m.fields|)
    && (NoWriter(m) ==> m.fields == Current(m))
    && (forall t :: t in m.threads ==> Sound(m, t))
  }

  function Current<V>(m: Memory<V>): seq<V>
    requires m.installed != []
  {
    m.installed[|m.installed| - 1]
  }

  ghost predicate Sound<V>(m: Memory<V>, t: Tid)
    requires t in m.threads && m.installed != []
  {
    match m.threads[t]
    case Copying(got, asOf) => NoWriter(m) && asOf == |m.installed| - 1 && got <= Current(m)
    case Writing(config, next) =>
      && NoReader(m)
      && (forall u :: u in m.threads && m.threads[u].Writing? ==> u == t)
      && next <= |config| == |m.fields|
      && (forall i :: 0 <= i < next ==> m.fields[i] == config[i])
    case Copied(snapshot, asOf) => asOf < |m.installed| && snapshot == m.installed[asOf]
    case Wrote => true
  }

  function Exec<V>(m: Memory<V>, steps: seq<Step<V>>): Memory<V>
    requires m.installed != []
    ensures Exec(m, steps).installed != []
  {
    if steps == [] then m else Apply(Exec(m, steps[..|steps| - 1]), steps[|steps| - 1])
  }

  lemma {:induction false} Reachable<V>(config: seq<V>, steps: seq<Step<V>>)
    ensures Inv(Exec(Start(config), steps))
  {
    if steps == [] {
    } else {
      Reachable(config, steps[..|steps| - 1]);
      Preserved(Exec(Start(config), steps[..|steps| - 1]), steps[|steps| - 1]);
    }
  }

  lemma Preserved<V>(m: Memory<V>, step: Step<V>)
    requires Inv(m)
    ensures Inv(Apply(m, step))
  {
    var t, m' := step.t, Apply(m, step);
    match step
    case Unlock(_) =>
      if Writes(m, t) && m.threads[t].next == |m.threads[t].config| {
        assert Sound(m, t);
        assert m'.fields == m.threads[t].config;
      }
    case WriteField(_) =>
      if Writes(m, t) {
        assert Sound(m, t);
      }
      assert Writes(m, t) ==> Writes(m', t);
    case Lock(_, _) =>
      assert m' != m ==> Writes(m', t);
    case _ =>
  }

  /** In every interleaving, what a Check has copied is one configuration, whole: the one
      in force when it got the lock. */
  lemma SnapshotsAreInstalled<V>(config: seq<V>, steps: seq<Step<V>>, t: Tid)
    requires var m := Exec(Start(config), steps); t in m.threads && m.threads[t].Copied?
    ensures var m := Exec(Start(config), steps);
            var copy := m.threads[t];
            copy.asOf < |m.installed| && copy.snapshot == m.installed[copy.asOf]
  {
    Reachable(config, steps);
  }

  function IsRead<V>(step: Step<V>, t: Tid): nat {
    if step.ReadField? && step.t == t then 1 else 0
  }

  function IsWrite<V>(step: Step<V>, t: Tid): nat {
    if step.WriteField? && step.t == t then 1 else 0
  }

  /** How many of the steps are this goroutine reading a field. */
  function Reads<V>(steps: seq<Step<V>>, t: Tid): nat {
    if steps == [] then 0 else Reads(steps[..|steps| - 1], t) + IsRead(steps[|steps| - 1], t)
  }

  function Writings<V>(steps: seq<Step<V>>, t: Tid): nat {
    if steps == [] then 0 else Writings(steps[..|steps| - 1], t) + IsWrite(steps[|steps| - 1], t)
  }

  predicate IsUnlock<V>(step: Step<V>, t: Tid) {
    step.t == t && (step.RUnlock? || step.Unlock?)
  }

  predicate NoUnlockBy<V>(steps: seq<Step<V>>, t: Tid) {
    forall i :: 0 <= i < |steps| ==> !IsUnlock(steps[i], t)
  }

  function Min(a: nat, b: nat): nat {
    if a < b then a else b
  }

  /** Nothing the others do holds up a reader that has the lock: it has copied one field
      more for each of its own accesses, until it has them all. */
  lemma {:induction false} ReaderGoesOn<V>(m: Memory<V>, steps: seq<Step<V>>, t: Tid)
    requires Inv(m) && Copies(m, t) && m.threads[t].got == [] && NoUnlockBy(steps, t)
    ensures var m' := Exec(m, steps);
            && Inv(m') && Copies(m', t) && m'.installed == m.installed && |m'.fields| == |m.fields|
            && |m'.threads[t].got| == Min(Reads(steps, t), |m.fields|)
  {
    if steps != [] {
      ReaderGoesOn(m, steps[..|steps| - 1], t);
      ReaderStep(Exec(m, steps[..|steps| - 1]), steps[|steps| - 1], t);
    }
  }

  lemma ReaderStep<V>(m: Memory<V>, step: Step<V>, t: Tid)
    requires Inv(m) && Copies(m, t) && !IsUnlock(step, t)
    ensures var m' := Apply(m, step);
            && Inv(m') && Copies(m', t) && m'.installed == m.installed && |m'.fields| == |m.fields|
            && |m'.threads[t].got| == Min(|m.threads[t].got| + IsRead(step, t), |m.fields|)
  {
    Preserved(m, step);
    assert Sound(m, t) && |m.fields| == |m.installed[0]|;
  }

  /** So once it has made as many accesses as there are fields, it returns with the
      configuration in force, whatever else was going on. */
  lemma ReaderEndsWithCurrent<V>(m: Memory<V>, steps: seq<Step<V>>, t: Tid)
    requires Inv(m) && t !in m.threads && NoWriter(m)
    requires NoUnlockBy(steps, t) && Reads(steps, t) >= |m.fields|
    ensures var locked := Apply(m, RLock(t));
            var m' := Apply(Exec(locked, steps), RUnlock(t));
            t in m'.threads && m'.threads[t] == Copied(Current(m), |m.installed| - 1)
  {
    var locked := Apply(m, RLock(t));
    Preserved(m, RLock(t));
    ReaderGoesOn(locked, steps, t);
    var m' := Exec(locked, steps);
    assert Sound(m', t) && |m'.fields| == |m'.installed[0]| == |m.fields|;
  }

  lemma {:induction false} WriterGoesOn<V>(m: Memory<V>, steps: seq<Step<V>>, t: Tid)
    requires Inv(m) && Writes(m, t) && m.threads[t].next == 0 && NoUnlockBy(steps, t)
    ensures var m' := Exec(m, steps);
            && Inv(m') && Writes(m', t) && m'.installed == m.installed && |m'.fields| == |m.fields|
            && m'.threads[t].config == m.threads[t].config
            && m'.threads[t].next == Min(Writings(steps, t), |m.fields|)
  {
    if steps != [] {
      WriterGoesOn(m, steps[..|steps| - 1], t);
      WriterStep(Exec(m, steps[..|steps| - 1]), steps[|steps| - 1], t);
    }
  }

  lemma WriterStep<V>(m: Memory<V>, step: Step<V>, t: Tid)
    requires Inv(m) && Writes(m, t) && !IsUnlock(step, t)
    ensures var m' := Apply(m, step);
            && Inv(m') && Writes(m', t) && m'.installed == m.installed && |m'.fields| == |m.fields|
            && m'.threads[t].config == m.threads[t].config
            && m'.threads[t].next == Min(m.threads[t].next + IsWrite(step, t), |m.fields|)
  {
    Preserved(m, step);
    assert Sound(m, t) && |m.fields| == |m.installed[0]|;
  }

  /** And a writer's configuration is the one in force once it has made as many accesses
      as there are fields and given the lock back. */
  lemma WriterInstalls<V>(m: Memory<V>, config: seq<V>, steps: seq<Step<V>>, t: Tid)
    requires Inv(m) && t !in m.threads && NoWriter(m) && NoReader(m) && |config| == |m.fields|
    requires NoUnlockBy(steps, t) && Writings(steps, t) >= |m.fields|
    ensures var locked := Apply(m, Lock(t, config));
            var m' := Apply(Exec(locked, steps), Unlock(t));
            m'.fields == config && m'.installed == m.installed + [config]
  {
    var locked := Apply(m, Lock(t, config));
    Preserved(m, Lock(t, config));
    WriterGoesOn(locked, steps, t);
    var m' := Exec(locked, steps);
    assert Sound(m', t) && |m'.fields| == |m'.installed[0]| == |m.fields|;
  }
}
