/** The composite that serves two engines under one lock and unloads the one it
    switches away from. */
module CompositeEngine {
  import opened Wrappers
  import Leases = EngineLeases

  datatype Engine = Qwen | Whisper

  // ---------------------------------------------------------------- one call under the lock

  datatype Engines = Engines(qwen: Option<Leases.EngineState>, whisper: Option<Leases.EngineState>,
                             active: Option<Engine>) {
    function Get(e: Engine): Option<Leases.EngineState> {
      if e == Qwen then qwen else whisper
    }

    /** The previous engine's model dropped, if an engine is active. */
    function WithoutActive(): Engines {
      if active == Some(Qwen) && qwen.Some? then this.(qwen := Some(Leases.UnloadedIfUnused(qwen.value)))
      else if active == Some(Whisper) && whisper.Some?
      then this.(whisper := Some(Leases.UnloadedIfUnused(whisper.value)))
      else this
    }

    function SwitchedTo(e: Engine): Engines {
      if Get(e).None? || active == Some(e) then this else WithoutActive().(active := Some(e))
    }
  }

  class CompositeEngineBackend {
    const qwen: Option<Leases.LeasedEngine>
    const whisper: Option<Leases.LeasedEngine>
    var active: Option<Engine>

    ghost const Repr: set<object>

    ghost predicate Valid() {
      && (qwen.Some? ==> qwen.value in Repr)
      && (whisper.Some? ==> whisper.value in Repr)
      && (qwen.Some? && whisper.Some? ==> qwen.value != whisper.value)
    }

    ghost function State(): Engines
      requires Valid()
      reads this, Repr
    {
      Engines(if qwen.Some? then Some(qwen.value.State()) else None,
              if whisper.Some? then Some(whisper.value.State()) else None,
              active)
    }

    constructor (qwen: Option<Leases.LeasedEngine>, whisper: Option<Leases.LeasedEngine>)
      requires qwen.Some? && whisper.Some? ==> qwen.value != whisper.value
      ensures Valid() && this.qwen == qwen && this.whisper == whisper && active == None
      ensures Repr == (if qwen.Some? then {qwen.value} else {}) + (if whisper.Some? then {whisper.value} else {})
    {
      this.qwen, this.whisper, active := qwen, whisper, None;
      Repr := (if qwen.Some? then {qwen.value as object} else {})
           + (if whisper.Some? then {whisper.value as object} else {});
    }

    function Backend(e: Engine): Option<Leases.LeasedEngine> {
      if e == Qwen then qwen else whisper
    }

    /** What happens under the lock before the operation itself; without a
        backend the operation is refused before the lock is taken. */
    method SwitchTo(e: Engine) returns (found: bool)
      requires Valid()
      modifies this, Repr
      ensures Valid() && State() == old(State()).SwitchedTo(e)
      ensures found <==> old(State()).Get(e).Some?
    {
      if Backend(e).None? {
        return false;
      }
      if active != Some(e) {
        if active.Some? && Backend(active.value).Some? {
          Backend(active.value).value.UnloadNow();
        }
        active := Some(e);
      }
      return true;
    }

    /** Run when the worker's unload guard is dropped. */
    method Unload()
      requires Valid()
      modifies this, Repr
      ensures Valid() && State() == old(State()).WithoutActive().(active := None)
    {
      var taken := active;
      active := None;
      if taken.Some? && Backend(taken.value).Some? {
        Backend(taken.value).value.UnloadNow();
      }
    }
  }

  // ---------------------------------------------------------------- every interleaving

  datatype Phase =
    | Locked                         // holds the composite's lock
    | Switched                       // its engine is the active one
    | Ready                          // the load succeeded, the lease is not taken yet
    | Inferring(lease: Leases.Lease) // holds a lease
    | Dropping(lease: Leases.Lease)  // the lease has given back its count, not yet its copy
    | Finished

  /** The thread that holds the lock: an inference or a health check. */
  datatype Call = Call(engine: Engine, transcribing: bool, phase: Phase)

  /** The composite, both engines, the clock, and the call that holds the lock;
      every other caller is waiting for it. */
  datatype System = System(
    linked: set<Engine>,
    keepAlive: nat,
    qwen: Leases.World,
    whisper: Leases.World,
    active: Option<Engine>,
    holder: Option<Call>,
    now: nat)
  {
    function Get(e: Engine): Leases.World {
      if e == Qwen then qwen else whisper
    }

    function Put(e: Engine, w: Leases.World): System {
      if e == Qwen then this.(qwen := w) else this.(whisper := w)
    }

    function Do(e: Engine, step: Leases.Step): System {
      Put(e, Leases.Next(Get(e), step))
    }

    function Become(phase: Phase): System
      requires holder.Some?
    {
      this.(holder := Some(holder.value.(phase := phase)))
    }

    predicate In(phase: Phase) {
      holder.Some? && holder.value.phase == phase
    }
  }

  datatype Step =
    | Lock(engine: Engine, transcribing: bool) // a waiting caller gets the lock
    | Switch
    | Reject                                   // a check before the load fails
    | Load(loads: bool)
    | Acquire(lease: Leases.Lease)
    | EndInference                             // the drop of the lease begins
    | FreeCopy                                 // and ends
    | Unlock
    | Reap(engine: Engine)
    | Unload                                   // the worker shuts down
    | Tick(elapsed: nat)

  function Start(linked: set<Engine>, keepAlive: nat): System {
    System(linked, keepAlive, Leases.UNUSED, Leases.UNUSED, None, None, 0)
  }

  function DoUnloadActive(s: System): System {
    if s.active.Some? && s.active.value in s.linked then s.Do(s.active.value, Leases.UnloadNow) else s
  }

  /** Any thread may take its next step at any time; a step that is not the
      thread's next one does nothing. */
  function Next(s: System, step: Step): System {
    match step
    case Lock(e, transcribing) =>
      if e in s.linked && s.holder.None? then s.(holder := Some(Call(e, transcribing, Locked))) else s
    case Switch =>
      if !s.In(Locked) then s
      else if s.active == Some(s.holder.value.engine) then s.Become(Switched)
      else DoUnloadActive(s).(active := Some(s.holder.value.engine)).Become(Switched)
    case Reject =>
      if s.In(Switched) then s.Become(Finished) else s
    case Load(loads) =>
      if !s.In(Switched) then s
      else
        var e := s.holder.value.engine;
        var s1 := s.Do(e, Leases.EnsureLoaded(loads, s.now));
        if s1.Get(e).engine.model.Some? && s.holder.value.transcribing then s1.Become(Ready) else s1.Become(Finished)
    case Acquire(lease) =>
      if !s.In(Ready) then s
      else
        var e := s.holder.value.engine;
        if s.Get(e).engine.model.None? then s.Become(Finished)
        else if lease in s.Get(e).leases || lease in s.Get(e).freeing then s
        else s.Do(e, Leases.Acquire(lease)).Become(Inferring(lease))
    case EndInference =>
      if s.holder.Some? && s.holder.value.phase.Inferring?
      then
        var lease := s.holder.value.phase.lease;
        s.Do(s.holder.value.engine, Leases.Release(lease, s.now)).Become(Dropping(lease))
      else s
    case FreeCopy =>
      if s.holder.Some? && s.holder.value.phase.Dropping?
      then s.Do(s.holder.value.engine, Leases.Free(s.holder.value.phase.lease)).Become(Finished)
      else s
    case Unlock =>
      if s.In(Finished) then s.(holder := None) else s
    case Reap(e) =>
      if e in s.linked then s.Do(e, Leases.UnloadIfIdle(s.keepAlive, s.now)) else s
    case Unload =>
      if s.holder.None? then DoUnloadActive(s).(active := None) else s
    case Tick(elapsed) =>
      s.(now := s.now + elapsed)
  }

  function Run(s: System, steps: seq<Step>): System
    decreases |steps|
  {
    if steps == [] then s else Run(Next(s, steps[0]), steps[1..])
  }

  /** The leases of `e`: the holder's, while it infers on `e`. */
  function Owed(s: System, e: Engine): set<Leases.Lease> {
    if s.holder.Some? && s.holder.value.engine == e && s.holder.value.phase.Inferring?
    then {s.holder.value.phase.lease} else {}
  }

  /** The copies of `e` about to be freed: the holder's, while it drops its lease. */
  function Freeing(s: System, e: Engine): set<Leases.Lease> {
    if s.holder.Some? && s.holder.value.engine == e && s.holder.value.phase.Dropping?
    then {s.holder.value.phase.lease} else {}
  }

  ghost predicate EngineInvariant(s: System, e: Engine) {
    && Leases.Invariant(s.Get(e))
    && s.Get(e).leases.Keys == Owed(s, e)
    && s.Get(e).freeing.Keys == Freeing(s, e)
    && |Leases.InMemory(s.Get(e))| <= 1
    && (s.Get(e).engine.model.Some? ==> s.active == Some(e) && s.Get(e).engine.lastUsed.value <= s.now)
  }

  ghost predicate Invariant(s: System) {
    && EngineInvariant(s, Qwen) && EngineInvariant(s, Whisper)
    && (s.active.Some? ==> s.active.value in s.linked)
    && (s.holder.Some? ==> s.holder.value.engine in s.linked)
    && (s.holder.Some? && s.holder.value.phase != Locked ==> s.active == Some(s.holder.value.engine))
  }

  /** Unloading an engine nobody leases empties it. */
  lemma UnloadEmpties(w: Leases.World)
    requires Leases.Invariant(w) && w.leases.Keys == {} && w.freeing.Keys == {}
    ensures Leases.Next(w, Leases.UnloadNow).engine.model.None?
    ensures Leases.InMemory(Leases.Next(w, Leases.UnloadNow)) == {}
  {
    Leases.NoLeaseWhenUnused(w);
    assert w.leases == map[];
  }

  lemma UnloadActiveEmptiesAll(s: System)
    requires Invariant(s) && (s.holder.None? || s.holder.value.phase == Locked)
    ensures var s' := DoUnloadActive(s);
            && (forall e :: Leases.Invariant(s'.Get(e)) && s'.Get(e).leases.Keys == {} && s'.Get(e).freeing.Keys == {})
            && (forall e :: s'.Get(e).engine.model.None? && Leases.InMemory(s'.Get(e)) == {})
            && s' == s.(qwen := s'.qwen, whisper := s'.whisper)
  {
    if s.active.Some? {
      UnloadEmpties(s.Get(s.active.value));
      Leases.NextKeepsInvariant(s.Get(s.active.value), Leases.UnloadNow);
    }
    assert s.qwen.leases == map[] && s.whisper.leases == map[];
  }

  /** The call that holds the lock steps its engine from `w` to `w'`. */
  lemma HolderSteps(s: System, step: Leases.Step, phase: Phase)
    requires Invariant(s) && s.holder.Some? && s.holder.value.phase != Locked && phase != Locked
    requires var w := Leases.Next(s.Get(s.holder.value.engine), step);
             && Leases.Invariant(w) && |Leases.InMemory(w)| <= 1
             && w.leases.Keys == (if phase.Inferring? then {phase.lease} else {})
             && w.freeing.Keys == (if phase.Dropping? then {phase.lease} else {})
             && (w.engine.model.Some? ==> w.engine.lastUsed.value <= s.now)
    ensures Invariant(s.Do(s.holder.value.engine, step).Become(phase))
  {
    hide Leases.Next, Leases.InMemory;
    var e := s.holder.value.engine;
    var w := Leases.Next(s.Get(e), step);
    var s' := s.Do(e, step).Become(phase);
    assert s'.Get(e) == w;
    assert forall o :: o != e ==> s'.Get(o) == s.Get(o);
  }

  lemma LeaseStep(w: Leases.World, step: Leases.Step)
    requires Leases.Invariant(w) && |Leases.InMemory(w)| <= 1 && !Leases.LoadsBesideFreeing(w, step)
    ensures Leases.Invariant(Leases.Next(w, step)) && |Leases.InMemory(Leases.Next(w, step))| <= 1
  {
    Leases.NextKeepsInvariant(w, step);
    Leases.OneCopyStep(w, step);
  }

  lemma ReapKeepsInvariant(s: System, e: Engine)
    requires Invariant(s)
    ensures Invariant(s.Do(e, Leases.UnloadIfIdle(s.keepAlive, s.now)))
  {
    Leases.NextKeepsInvariant(s.Get(e), Leases.UnloadIfIdle(s.keepAlive, s.now));
    Leases.OneCopyStep(s.Get(e), Leases.UnloadIfIdle(s.keepAlive, s.now));
  }

  lemma SwitchKeepsInvariant(s: System)
    requires Invariant(s) && s.In(Locked) && s.active != Some(s.holder.value.engine)
    ensures Invariant(Next(s, Switch))
  {
    UnloadActiveEmptiesAll(s);
    var s1 := DoUnloadActive(s);
    assert forall e :: Next(s, Switch).Get(e) == s1.Get(e);
  }

  lemma UnloadKeepsInvariant(s: System)
    requires Invariant(s) && s.holder.None?
    ensures Invariant(Next(s, Unload))
  {
    UnloadActiveEmptiesAll(s);
    var s1 := DoUnloadActive(s);
    assert forall e :: Next(s, Unload).Get(e) == s1.Get(e);
  }

  /** What the call that holds the lock knows of its engine. */
  lemma HolderHas(s: System)
    requires Invariant(s) && s.holder.Some? && s.holder.value.phase != Locked
    ensures var w, phase := s.Get(s.holder.value.engine), s.holder.value.phase;
            && Leases.Invariant(w) && |Leases.InMemory(w)| <= 1
            && w.leases.Keys == (if phase.Inferring? then {phase.lease} else {})
            && w.freeing.Keys == (if phase.Dropping? then {phase.lease} else {})
            && (w.engine.model.Some? ==> w.engine.lastUsed.value <= s.now)
  {
  }

  lemma LoadKeepsLeases(w: Leases.World, loads: bool, now: nat)
    ensures var w' := Leases.Next(w, Leases.EnsureLoaded(loads, now));
            && w'.leases == w.leases && w'.freeing == w.freeing
            && (w'.engine.model.Some? ==> w'.engine.lastUsed == Some(now))
  {
  }

  lemma LoadKeepsInvariant(s: System, loads: bool)
    requires Invariant(s) && s.In(Switched)
    ensures Invariant(Next(s, Load(loads)))
  {
    hide Invariant, Leases.Next, Leases.InMemory, Leases.Invariant;
    var e, step := s.holder.value.engine, Leases.EnsureLoaded(loads, s.now);
    HolderHas(s);
    LeaseStep(s.Get(e), step);
    LoadKeepsLeases(s.Get(e), loads, s.now);
    var w := Leases.Next(s.Get(e), step);
    HolderSteps(s, step, if w.engine.model.Some? && s.holder.value.transcribing then Ready else Finished);
  }

  lemma LeaseTaken(w: Leases.World, lease: Leases.Lease)
    requires w.engine.model.Some? && w.leases.Keys == {} && w.freeing.Keys == {}
    ensures var w' := Leases.Next(w, Leases.Acquire(lease));
            w'.leases.Keys == {lease} && w'.freeing.Keys == {} && w'.engine.lastUsed == w.engine.lastUsed
  {
  }

  lemma AcquireKeepsInvariant(s: System, lease: Leases.Lease)
    requires Invariant(s) && s.In(Ready)
    ensures Invariant(Next(s, Acquire(lease)))
  {
    hide Leases.Next, Leases.InMemory, Leases.Invariant;
    var e, step := s.holder.value.engine, Leases.Acquire(lease);
    HolderHas(s);
    if s.Get(e).engine.model.Some? {
      hide Invariant;
      LeaseStep(s.Get(e), step);
      LeaseTaken(s.Get(e), lease);
      HolderSteps(s, step, Inferring(lease));
    }
  }

  lemma DropBegins(w: Leases.World, lease: Leases.Lease, now: nat)
    requires w.leases.Keys == {lease} && w.freeing.Keys == {}
    ensures var w' := Leases.Next(w, Leases.Release(lease, now));
            && w'.leases.Keys == {} && w'.freeing.Keys == {lease}
            && w'.engine.model == w.engine.model && w'.engine.lastUsed == Some(now)
  {
  }

  lemma EndInferenceKeepsInvariant(s: System)
    requires Invariant(s) && s.holder.Some? && s.holder.value.phase.Inferring?
    ensures Invariant(Next(s, EndInference))
  {
    hide Invariant, Leases.Next, Leases.InMemory, Leases.Invariant;
    var e, lease := s.holder.value.engine, s.holder.value.phase.lease;
    var step := Leases.Release(lease, s.now);
    HolderHas(s);
    LeaseStep(s.Get(e), step);
    DropBegins(s.Get(e), lease, s.now);
    HolderSteps(s, step, Dropping(lease));
  }

  lemma DropEnds(w: Leases.World, lease: Leases.Lease)
    requires w.leases.Keys == {} && w.freeing.Keys == {lease}
    ensures var w' := Leases.Next(w, Leases.Free(lease));
            w'.leases.Keys == {} && w'.freeing.Keys == {} && w'.engine == w.engine
  {
  }

  lemma FreeCopyKeepsInvariant(s: System)
    requires Invariant(s) && s.holder.Some? && s.holder.value.phase.Dropping?
    ensures Invariant(Next(s, FreeCopy))
  {
    hide Invariant, Leases.Next, Leases.InMemory, Leases.Invariant;
    var e, step := s.holder.value.engine, Leases.Free(s.holder.value.phase.lease);
    HolderHas(s);
    LeaseStep(s.Get(e), step);
    DropEnds(s.Get(e), s.holder.value.phase.lease);
    HolderSteps(s, step, Finished);
  }

  /** The call that holds the lock works on the active engine only. */
  lemma HolderKeepsInvariant(s: System, step: Step)
    requires Invariant(s) && s.holder.Some? && s.holder.value.phase != Locked
    requires step.Load? || step.Acquire? || step.EndInference? || step.FreeCopy?
    ensures Invariant(Next(s, step))
  {
    hide Invariant;
    if step.Load? && s.In(Switched) {
      LoadKeepsInvariant(s, step.loads);
    } else if step.Acquire? && s.In(Ready) {
      AcquireKeepsInvariant(s, step.lease);
    } else if step.EndInference? && s.holder.value.phase.Inferring? {
      EndInferenceKeepsInvariant(s);
    } else if step.FreeCopy? && s.holder.value.phase.Dropping? {
      FreeCopyKeepsInvariant(s);
    }
  }

  lemma NextKeepsInvariant(s: System, step: Step)
    requires Invariant(s)
    ensures Invariant(Next(s, step))
  {
    if step.Reap? {
      ReapKeepsInvariant(s, step.engine);
    } else if step.Unload? && s.holder.None? {
      UnloadKeepsInvariant(s);
    } else if step.Switch? && s.In(Locked) && s.active != Some(s.holder.value.engine) {
      SwitchKeepsInvariant(s);
    } else if (step.Load? || step.Acquire? || step.EndInference? || step.FreeCopy?)
           && s.holder.Some? && s.holder.value.phase != Locked {
      HolderKeepsInvariant(s, step);
    } else {
      QuietStep(s, step);
    }
  }

  /** The other steps leave both engines alone. */
  lemma QuietStep(s: System, step: Step)
    requires Invariant(s)
    requires step.Lock? || step.Reject? || step.Unlock? || step.Tick?
          || (step.Unload? && s.holder.Some?)
          || (step.Switch? && !(s.In(Locked) && s.active != Some(s.holder.value.engine)))
          || ((step.Load? || step.Acquire? || step.EndInference? || step.FreeCopy?)
              && !(s.holder.Some? && s.holder.value.phase != Locked))
    ensures Invariant(Next(s, step))
  {
    assert Next(s, step).qwen == s.qwen && Next(s, step).whisper == s.whisper;
  }

  lemma {:induction false} RunKeepsInvariant(s: System, steps: seq<Step>)
    requires Invariant(s)
    ensures Invariant(Run(s, steps))
    decreases |steps|
  {
    if steps != [] {
      NextKeepsInvariant(s, steps[0]);
      RunKeepsInvariant(Next(s, steps[0]), steps[1..]);
    }
  }

  lemma StartInvariant(linked: set<Engine>, keepAlive: nat)
    ensures Invariant(Start(linked, keepAlive))
  {
    assert forall e :: Start(linked, keepAlive).Get(e) == Leases.UNUSED;
    assert Leases.InMemory(Leases.UNUSED) == {};
  }

  /** Everything in memory and every lease belongs to the active engine. */
  lemma ActiveHasAll(s: System, e: Engine)
    requires Invariant(s)
    ensures var w, most := s.Get(e), if s.active == Some(e) then 1 else 0;
            && (w.engine.model.Some? ==> s.active == Some(e))
            && |Leases.InMemory(w)| <= most && w.engine.inFlight <= most
  {
    var w := s.Get(e);
    assert w.engine.inFlight == |w.leases| == |w.leases.Keys| == |Owed(s, e)|;
    if s.active != Some(e) {
      assert Leases.InMemory(w) == {};
    }
  }

  /** In every interleaving of inferences, health checks, reapers and shutdown
      only the active engine's model is loaded, no more than one copy of any
      model is in memory, also while a lease is dropped, and no engine is leased
      twice. */
  lemma OneModelInMemory(linked: set<Engine>, keepAlive: nat, steps: seq<Step>)
    ensures var s := Run(Start(linked, keepAlive), steps);
            && (forall e :: s.Get(e).engine.model.Some? ==> s.active == Some(e))
            && |Leases.InMemory(s.qwen)| + |Leases.InMemory(s.whisper)| <= 1
            && s.qwen.engine.inFlight + s.whisper.engine.inFlight <= 1
  {
    hide Invariant, Leases.InMemory, Next;
    var s := Run(Start(linked, keepAlive), steps);
    StartInvariant(linked, keepAlive);
    RunKeepsInvariant(Start(linked, keepAlive), steps);
    ActiveHasAll(s, Qwen);
    ActiveHasAll(s, Whisper);
    assert forall e :: s.Get(e).engine.model.Some? ==> e == Qwen || e == Whisper;
  }

  /** The unload at shutdown waits for the lock, so it always frees everything. */
  lemma ShutdownFreesEverything(linked: set<Engine>, keepAlive: nat, steps: seq<Step>)
    requires Run(Start(linked, keepAlive), steps).holder.None?
    ensures var s := Next(Run(Start(linked, keepAlive), steps), Unload);
            s.active.None? && Leases.InMemory(s.qwen) == {} && Leases.InMemory(s.whisper) == {}
  {
    StartInvariant(linked, keepAlive);
    RunKeepsInvariant(Start(linked, keepAlive), steps);
    var s := Run(Start(linked, keepAlive), steps);
    UnloadActiveEmptiesAll(s);
    assert DoUnloadActive(s).Get(Qwen) == DoUnloadActive(s).qwen;
    assert DoUnloadActive(s).Get(Whisper) == DoUnloadActive(s).whisper;
  }

  /** What the composite itself sees of the system. */
  function View(s: System): Engines {
    Engines(if Qwen in s.linked then Some(s.qwen.engine) else None,
            if Whisper in s.linked then Some(s.whisper.engine) else None,
            s.active)
  }

  /** The switch and the unload of the interleavings are the composite's own. */
  lemma StepsAreTheComposites(s: System)
    requires Invariant(s)
    ensures s.In(Locked) ==> View(Next(s, Switch)) == View(s).SwitchedTo(s.holder.value.engine)
    ensures s.holder.None? ==> View(Next(s, Unload)) == View(s).WithoutActive().(active := None)
  {
  }

  // ---------------------------------------------------------------- one call from lock to unlock

  lemma LeaseLives(w: Leases.World, lease: Leases.Lease, now: nat)
    requires w.engine.model.Some? && w.engine.inFlight == 0 && w.leases == map[] && w.freeing == map[]
    ensures var w1 := Leases.Next(w, Leases.Acquire(lease));
            w1.engine.inFlight == 1 && Leases.Next(w1, Leases.Release(lease, now)).engine.inFlight == 0
  {
  }

  /** A call that finds its model gets its lease, infers, gives back the count, then the
      copy, and only then lets go of the lock. */
  lemma CallRuns(s: System, lease: Leases.Lease)
    requires Invariant(s) && s.In(Ready) && s.Get(s.holder.value.engine).engine.model.Some?
    ensures var e := s.holder.value.engine;
            var s1 := Next(s, Acquire(lease));
            var s2 := Next(s1, EndInference);
            var s3 := Next(s2, FreeCopy);
            && s1.In(Inferring(lease)) && s1.Get(e).engine.inFlight == 1 && Next(s1, Unlock) == s1
            && s2.In(Dropping(lease)) && s2.Get(e).engine.inFlight == 0 && Next(s2, Unlock) == s2
            && s3.In(Finished) && Next(s3, Unlock).holder.None?
  {
    hide Invariant, Leases.Next, Leases.Invariant, Leases.InMemory;
    HolderHas(s);
    var w := s.Get(s.holder.value.engine);
    Leases.NoLeaseWhenUnused(w);
    LeaseLives(w, lease, s.now);
    assert Next(s, Acquire(lease)).Get(s.holder.value.engine) == Leases.Next(w, Leases.Acquire(lease));
  }

  // ---------------------------------------------------------------- the gap before the lease

  /** Some reaper of `e` runs at least `keepAlive` after `since`. */
  predicate ReapedLate(s: System, e: Engine, since: nat, steps: seq<Step>)
    decreases |steps|
  {
    steps != []
    && ((steps[0] == Reap(e) && e in s.linked && s.now >= since + s.keepAlive)
        || ReapedLate(Next(s, steps[0]), e, since, steps[1..]))
  }

  /** While a call is between its load and its lease no other step touches its
      engine, except the reaper's. */
  lemma GapStep(s: System, step: Step)
    requires Invariant(s) && s.In(Ready) && !step.Acquire?
    ensures var e := s.holder.value.engine; var s' := Next(s, step);
            && s'.holder == s.holder && s'.linked == s.linked && s'.keepAlive == s.keepAlive
            && s'.Get(e) == if step == Reap(e) then Leases.Next(s.Get(e), Leases.UnloadIfIdle(s.keepAlive, s.now))
                            else s.Get(e)
  {
  }

  /** Once the model is gone it stays gone until the call gives up. */
  lemma {:induction false} GoneStaysGone(s: System, steps: seq<Step>)
    requires Invariant(s) && s.In(Ready) && s.Get(s.holder.value.engine).engine.model.None?
    requires forall i :: 0 <= i < |steps| ==> !steps[i].Acquire?
    ensures Run(s, steps).holder == s.holder && Run(s, steps).Get(s.holder.value.engine).engine.model.None?
    decreases |steps|
  {
    if steps != [] {
      hide Next, Invariant;
      GapStep(s, steps[0]);
      NextKeepsInvariant(s, steps[0]);
      GoneStaysGone(Next(s, steps[0]), steps[1..]);
    }
  }

  lemma RefusedIffGone(s: System, lease: Leases.Lease)
    requires Invariant(s) && s.In(Ready)
    ensures Next(s, Acquire(lease)).In(Finished) <==> s.Get(s.holder.value.engine).engine.model.None?
  {
    HolderHas(s);
  }

  /** The reaper takes the model of a call that waits for its lease exactly once it
      has been idle long enough. */
  lemma ReapedIff(s: System, since: nat)
    requires Invariant(s) && s.In(Ready)
    requires s.Get(s.holder.value.engine).engine.model.Some?
          && s.Get(s.holder.value.engine).engine.lastUsed == Some(since)
    ensures var w := s.Get(s.holder.value.engine);
            var w' := Leases.Next(w, Leases.UnloadIfIdle(s.keepAlive, s.now));
            if s.now >= since + s.keepAlive then w'.engine.model.None? else w' == w
  {
    HolderHas(s);
    Leases.NoLeaseWhenUnused(s.Get(s.holder.value.engine));
  }

  /** A call that loaded its model at `since` is refused its lease ("model state
      invalid") exactly when a reaper ran in between, `keepAlive` or more later. */
  lemma {:induction false} LeaseRefusedIff(s: System, since: nat, steps: seq<Step>, lease: Leases.Lease)
    requires Invariant(s) && s.In(Ready)
    requires s.Get(s.holder.value.engine).engine.model.Some?
          && s.Get(s.holder.value.engine).engine.lastUsed == Some(since)
    requires forall i :: 0 <= i < |steps| ==> !steps[i].Acquire?
    ensures Next(Run(s, steps), Acquire(lease)).In(Finished)
       <==> ReapedLate(s, s.holder.value.engine, since, steps)
    decreases |steps|
  {
    hide Next, Invariant, Leases.Next;
    var e := s.holder.value.engine;
    if steps == [] {
      RefusedIffGone(s, lease);
    } else {
      var s' := Next(s, steps[0]);
      GapStep(s, steps[0]);
      ReapedIff(s, since);
      NextKeepsInvariant(s, steps[0]);
      if steps[0] == Reap(e) && s.now >= since + s.keepAlive {
        GoneStaysGone(s', steps[1..]);
        RunKeepsInvariant(s', steps[1..]);
        RefusedIffGone(Run(s', steps[1..]), lease);
      } else {
        LeaseRefusedIff(s', since, steps[1..], lease);
      }
    }
  }
}
