/** Leased models and their idle reaper: the protocol both speech engines follow
    under their own lock. */
module EngineLeases {
  import opened Wrappers

  /** One loading of a model, kept in memory by whoever holds it (`Arc`). */
  type Copy = nat

  datatype EngineState = EngineState(model: Option<Copy>, inFlight: nat, lastUsed: Option<nat>)

  const COLD: EngineState := EngineState(None, 0, None)

  // ---------------------------------------------------------------- one call under the lock

  /** `loading` is the copy a load would produce, or None where loading fails. */
  function WithModel(s: EngineState, loading: Option<Copy>, now: nat): EngineState {
    if s.model.Some? then s.(lastUsed := Some(now))
    else if loading.Some? then s.(model := loading, lastUsed := Some(now))
    else s
  }

  function Leased(s: EngineState): EngineState {
    if s.model.Some? then s.(inFlight := s.inFlight + 1) else s
  }

  /** The count after a lease is dropped; it saturates at zero. */
  function Returned(s: EngineState, now: nat): EngineState {
    s.(inFlight := if s.inFlight > 0 then s.inFlight - 1 else 0, lastUsed := Some(now))
  }

  /** Idle for at least `keepAlive`; elapsed time saturates at zero. */
  predicate Expired(s: EngineState, keepAlive: nat, now: nat) {
    && s.inFlight == 0 && s.model.Some? && s.lastUsed.Some?
    && (if now >= s.lastUsed.value then now - s.lastUsed.value else 0) >= keepAlive
  }

  function Reaped(s: EngineState, keepAlive: nat, now: nat): EngineState {
    if Expired(s, keepAlive, now) then s.(model := None, lastUsed := None) else s
  }

  function UnloadedIfUnused(s: EngineState): EngineState {
    if s.inFlight == 0 then s.(model := None, lastUsed := None) else s
  }

  /** A reaper unloads exactly a loaded model that nobody leases and that was last used
      the keep-alive time ago or longer; a clock that went backwards counts as no time. */
  lemma ReapedIff(s: EngineState, keepAlive: nat, now: nat)
    requires s.model.Some?
    ensures Reaped(s, keepAlive, now).model.None?
       <==> s.inFlight == 0 && s.lastUsed.Some? && (keepAlive == 0 || s.lastUsed.value + keepAlive <= now)
    ensures Reaped(s, keepAlive, now).model.Some? ==> Reaped(s, keepAlive, now) == s
    ensures Reaped(s, keepAlive, now).inFlight == s.inFlight
  {
  }

  /** Leases are counted up and down, not below zero; every return restarts the idle
      clock, and neither touches the model. */
  lemma LeasesCounted(s: EngineState, now: nat)
    ensures s.model.Some? ==> Leased(s) == EngineState(s.model, s.inFlight + 1, s.lastUsed)
    ensures s.model.None? ==> Leased(s) == s
    ensures Returned(s, now).model == s.model && Returned(s, now).lastUsed == Some(now)
    ensures s.inFlight == 0 ==> Returned(s, now).inFlight == 0
    ensures s.inFlight > 0 ==> Returned(s, now).inFlight + 1 == s.inFlight
  {
  }

  class LeasedEngine {
    const keepAlive: nat
    var model: Option<Copy>
    var inFlight: nat
    var lastUsed: Option<nat>

    ghost function State(): EngineState
      reads this
    {
      EngineState(model, inFlight, lastUsed)
    }

    constructor (keepAlive: nat)
      ensures State() == COLD && this.keepAlive == keepAlive
    {
      this.keepAlive := keepAlive;
      model, inFlight, lastUsed := None, 0, None;
    }

    method EnsureLoaded(loading: Option<Copy>, now: nat) returns (ok: bool)
      modifies this
      ensures State() == WithModel(old(State()), loading, now)
      ensures ok <==> State().model.Some?
    {
      if model.None? {
        model := loading;
        if model.None? {
          return false;
        }
      }
      lastUsed := Some(now);
      return true;
    }

    /** The second half of acquiring: the lock was released since the load, so
        the model may be gone again. */
    method Lease() returns (copy: Option<Copy>)
      modifies this
      ensures State() == Leased(old(State()))
      ensures copy == old(State()).model
    {
      copy := model;
      if copy.Some? {
        inFlight := inFlight + 1;
      }
    }

    method Release(now: nat)
      modifies this
      ensures State() == Returned(old(State()), now)
    {
      inFlight := if inFlight > 0 then inFlight - 1 else 0;
      lastUsed := Some(now);
    }

    method UnloadIfIdle(now: nat)
      modifies this
      ensures State() == Reaped(old(State()), keepAlive, now)
    {
      var expired := false;
      if inFlight == 0 && model.Some? && lastUsed.Some? {
        var elapsed := if now >= lastUsed.value then now - lastUsed.value else 0;
        expired := elapsed >= keepAlive;
      }
      if expired {
        model, lastUsed := None, None;
      }
    }

    method UnloadNow()
      modifies this
      ensures State() == UnloadedIfUnused(old(State()))
    {
      if inFlight == 0 {
        model, lastUsed := None, None;
      }
    }
  }

  // ---------------------------------------------------------------- every interleaving on one engine

  type Lease = nat

  /** An engine with the leases that exist, the copies whose lease has given back
      its count but not yet its reference (a lease is dropped in that order), and
      the number of loads so far. */
  datatype World = World(engine: EngineState, leases: map<Lease, Copy>, freeing: map<Lease, Copy>, loads: nat)

  datatype Step =
    | EnsureLoaded(loads: bool, now: nat)
    | Acquire(lease: Lease)
    | Release(lease: Lease, now: nat) // the drop of the lease begins: the count goes back
    | Free(lease: Lease)              // and ends: the reference to the copy goes too
    | UnloadIfIdle(keepAlive: nat, now: nat)
    | UnloadNow

  const UNUSED: World := World(COLD, map[], map[], 0)

  function Next(w: World, step: Step): World {
    match step
    case EnsureLoaded(loads, now) =>
      w.(engine := WithModel(w.engine, if loads then Some(w.loads) else None, now),
         loads := if w.engine.model.None? && loads then w.loads + 1 else w.loads)
    case Acquire(l) =>
      if l !in w.leases && l !in w.freeing && w.engine.model.Some?
      then w.(engine := Leased(w.engine), leases := w.leases[l := w.engine.model.value])
      else w
    case Release(l, now) =>
      if l in w.leases
      then w.(engine := Returned(w.engine, now), leases := w.leases - {l}, freeing := w.freeing[l := w.leases[l]])
      else w
    case Free(l) =>
      w.(freeing := w.freeing - {l})
    case UnloadIfIdle(keepAlive, now) =>
      w.(engine := Reaped(w.engine, keepAlive, now))
    case UnloadNow =>
      w.(engine := UnloadedIfUnused(w.engine))
  }

  function Run(w: World, steps: seq<Step>): World
    decreases |steps|
  {
    if steps == [] then w else Run(Next(w, steps[0]), steps[1..])
  }

  ghost predicate Invariant(w: World) {
    && w.engine.inFlight == |w.leases|
    && (forall l :: l in w.leases ==> w.engine.model == Some(w.leases[l]))
    && (forall l :: l in w.freeing ==> w.freeing[l] < w.loads)
    && (w.engine.model.Some? ==> w.engine.model.value < w.loads)
    && (w.engine.model.Some? ==> w.engine.lastUsed.Some?)
  }

  /** The engine's own copy, if it has one. */
  function Loaded(w: World): set<Copy> {
    if w.engine.model.Some? then {w.engine.model.value} else {}
  }

  /** The copies of the model that are in memory: the engine's, the leases', and
      those about to be freed. */
  function InMemory(w: World): set<Copy> {
    Loaded(w) + w.leases.Values + w.freeing.Values
  }

  lemma ReleaseKeepsInvariant(w: World, l: Lease, now: nat)
    requires Invariant(w)
    ensures Invariant(Next(w, Release(l, now)))
  {
    if l in w.leases {
      assert (w.leases - {l}).Keys == w.leases.Keys - {l};
      assert |w.leases - {l}| == |(w.leases - {l}).Keys| == |w.leases.Keys| - 1;
    }
  }

  lemma NextKeepsInvariant(w: World, step: Step)
    requires Invariant(w)
    ensures Invariant(Next(w, step))
  {
    match step
    case Release(l, now) => ReleaseKeepsInvariant(w, l, now);
    case Acquire(l) =>
    case Free(_) =>
    case EnsureLoaded(_, _) =>
    case UnloadIfIdle(_, _) => NoLeaseWhenUnused(w);
    case UnloadNow => NoLeaseWhenUnused(w);
  }

  lemma NoLeaseWhenUnused(w: World)
    requires Invariant(w)
    ensures w.engine.inFlight == 0 <==> w.leases == map[]
  {
    assert w.leases != map[] ==> |w.leases| > 0;
  }

  lemma {:induction false} RunKeepsInvariant(w: World, steps: seq<Step>)
    requires Invariant(w)
    ensures Invariant(Run(w, steps))
    decreases |steps|
  {
    if steps != [] {
      NextKeepsInvariant(w, steps[0]);
      RunKeepsInvariant(Next(w, steps[0]), steps[1..]);
    }
  }

  /** However callers, reapers and unloads interleave, the count is the number of
      leases that have not given it back (so the saturating decrement never
      saturates), and every copy in memory is the engine's or about to be freed. */
  lemma CountIsLeases(steps: seq<Step>)
    ensures var w := Run(UNUSED, steps);
            && w.engine.inFlight == |w.leases|
            && InMemory(w) == Loaded(w) + w.freeing.Values
  {
    RunKeepsInvariant(UNUSED, steps);
    LeasesShareTheCopy(Run(UNUSED, steps));
  }

  lemma LeasesShareTheCopy(w: World)
    requires Invariant(w)
    ensures InMemory(w) == Loaded(w) + w.freeing.Values
  {
  }

  // ---------------------------------------------------------------- how many copies

  /** A model is loaded while an unloaded copy still waits for its last reference. */
  predicate LoadsBesideFreeing(w: World, step: Step) {
    step.EnsureLoaded? && step.loads && w.engine.model.None? && w.freeing != map[]
  }

  predicate NeverLoadsBesideFreeing(w: World, steps: seq<Step>)
    decreases |steps|
  {
    steps == [] || (!LoadsBesideFreeing(w, steps[0]) && NeverLoadsBesideFreeing(Next(w, steps[0]), steps[1..]))
  }

  predicate OneCopyThroughout(w: World, steps: seq<Step>)
    decreases |steps|
  {
    |InMemory(w)| <= 1 && (steps == [] || OneCopyThroughout(Next(w, steps[0]), steps[1..]))
  }

  lemma SubsetSize(a: set<Copy>, b: set<Copy>)
    requires a <= b
    ensures |a| <= |b|
  {
    assert b == a + (b - a);
  }

  lemma ValuesMoved(m: map<Lease, Copy>, l: Lease, c: Copy)
    ensures (m - {l}).Values <= m.Values && m[l := c].Values <= m.Values + {c}
  {
  }

  /** Only a load adds a copy. */
  lemma OnlyLoadsAdd(w: World, step: Step)
    requires Invariant(w) && !(step.EnsureLoaded? && step.loads && w.engine.model.None?)
    ensures InMemory(Next(w, step)) <= InMemory(w)
  {
    hide Invariant;
    match step
    case Release(l, _) =>
      if l in w.leases {
        ValuesMoved(w.leases, l, 0);
        ValuesMoved(w.freeing, l, w.leases[l]);
      }
    case Free(l) => ValuesMoved(w.freeing, l, 0);
    case Acquire(l) =>
      if w.engine.model.Some? {
        ValuesMoved(w.leases, l, w.engine.model.value);
      }
    case _ =>
  }

  lemma LoadAddsOne(w: World, now: nat)
    requires Invariant(w) && w.engine.model.None?
    ensures InMemory(Next(w, EnsureLoaded(true, now))) == {w.loads} + w.freeing.Values
    ensures w.loads !in w.freeing.Values
  {
    assert w.leases == map[];
  }

  lemma OneCopyStep(w: World, step: Step)
    requires Invariant(w) && |InMemory(w)| <= 1
    ensures |InMemory(Next(w, step))| <= 1 <==> !LoadsBesideFreeing(w, step)
  {
    hide InMemory, Next, Invariant;
    var w' := Next(w, step);
    if step.EnsureLoaded? && step.loads && w.engine.model.None? {
      LoadAddsOne(w, step.now);
      if l :| l in w.freeing {
        assert w.freeing[l] in w.freeing.Values;
        SubsetSize({w.loads, w.freeing[l]}, InMemory(w'));
      } else {
        assert InMemory(w') == {w.loads};
      }
    } else {
      OnlyLoadsAdd(w, step);
      SubsetSize(InMemory(w'), InMemory(w));
    }
  }

  lemma {:induction false} OneCopyFrom(w: World, steps: seq<Step>)
    requires Invariant(w) && |InMemory(w)| <= 1
    ensures OneCopyThroughout(w, steps) <==> NeverLoadsBesideFreeing(w, steps)
    decreases |steps|
  {
    if steps != [] {
      OneCopyStep(w, steps[0]);
      NextKeepsInvariant(w, steps[0]);
      if |InMemory(Next(w, steps[0]))| <= 1 {
        OneCopyFrom(Next(w, steps[0]), steps[1..]);
      }
    }
  }

  /** On its own, an engine keeps to one copy of its model throughout a run exactly
      if it never loads between an unload and the end of a drop that the unload
      overtook. */
  lemma OneCopyIff(steps: seq<Step>)
    ensures OneCopyThroughout(UNUSED, steps) <==> NeverLoadsBesideFreeing(UNUSED, steps)
  {
    OneCopyFrom(UNUSED, steps);
  }

  /** Such a run: a lease gives its count back, an unload and the next caller's load
      come before its reference is gone, and two copies are in memory. */
  lemma TwoCopies(now: nat)
    ensures var steps := [EnsureLoaded(true, now), Acquire(0), Release(0, now), UnloadNow, EnsureLoaded(true, now)];
            InMemory(Run(UNUSED, steps)) == {0, 1}
  {
    var steps := [EnsureLoaded(true, now), Acquire(0), Release(0, now), UnloadNow, EnsureLoaded(true, now)];
    var s1 := Next(UNUSED, steps[0]);
    var s2 := Next(s1, steps[1]);
    var s3 := Next(s2, steps[2]);
    assert s3.leases == map[] && s3.freeing == map[0 := 0];
    var s4 := Next(s3, steps[3]);
    var s5 := Next(s4, steps[4]);
    assert steps[3..] == [UnloadNow, EnsureLoaded(true, now)];
    assert steps[1..][1..] == steps[2..] && steps[2..][1..] == steps[3..];
    assert Run(UNUSED, steps) == Run(s1, steps[1..]) == Run(s2, steps[2..]) == Run(s3, steps[3..]);
    assert steps[3..][1..] == [EnsureLoaded(true, now)];
    assert Run(s4, steps[3..][1..]) == Run(s5, []) == s5;
  }

  /** A leased model is never unloaded or replaced, whatever else happens, until
      its lease is dropped. */
  lemma {:induction false} LeasedModelStays(w: World, lease: Lease, steps: seq<Step>)
    requires Invariant(w) && lease in w.leases
    requires forall i :: 0 <= i < |steps| ==> !(steps[i].Release? && steps[i].lease == lease)
    ensures Run(w, steps).engine.model == Some(w.leases[lease]) && lease in Run(w, steps).leases
    decreases |steps|
  {
    if steps != [] {
      var step := steps[0];
      NextKeepsInvariant(w, step);
      NoLeaseWhenUnused(w);
      assert lease in Next(w, step).leases && Next(w, step).leases[lease] == w.leases[lease];
      LeasedModelStays(Next(w, step), lease, steps[1..]);
    }
  }
}
