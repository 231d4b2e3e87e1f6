/** The commit barrier that shutdown waits on: adapters hold a guard across every
    irreversible write, shutdown closes the fence and awaits the last guard. */
module LifecycleFence {

  /** A waker, identified by the task it wakes (`Waker::will_wake`). */
  type Task = nat

  datatype FenceState = FenceState(open: bool, inFlight: nat, waiters: seq<Task>)

  // ---------------------------------------------------------------- one call under the lock

  function Opened(): FenceState {
    FenceState(true, 0, [])
  }

  function Begun(s: FenceState): FenceState {
    if s.open then s.(inFlight := s.inFlight + 1) else s
  }

  /** Everyone waiting, once nothing is in flight. */
  function Released(s: FenceState): seq<Task> {
    if s.inFlight == 0 then s.waiters else []
  }

  function Drained(s: FenceState): FenceState {
    if s.inFlight == 0 then s.(waiters := []) else s
  }

  function Closed(s: FenceState): FenceState {
    s.(open := false)
  }

  /** The count after a guard is dropped; it saturates at zero. */
  function Dropped(s: FenceState): FenceState {
    s.(inFlight := if s.inFlight > 0 then s.inFlight - 1 else 0)
  }

  function Registered(s: FenceState, task: Task): FenceState {
    if s.inFlight == 0 || task in s.waiters then s else s.(waiters := s.waiters + [task])
  }

  class LifecycleFence {
    var open: bool
    var inFlight: nat
    var waiters: seq<Task>

    ghost function State(): FenceState
      reads this
    {
      FenceState(open, inFlight, waiters)
    }

    constructor ()
      ensures State() == Opened()
    {
      open, inFlight, waiters := true, 0, [];
    }

    /** Returns whether a guard was handed out. */
    method BeginCommit() returns (guarded: bool)
      modifies this
      ensures State() == Begun(old(State()))
      ensures guarded <==> old(open)
    {
      if !open {
        return false;
      }
      inFlight := inFlight + 1;
      return true;
    }

    /** Returns the tasks to wake after the lock is released. */
    method Invalidate() returns (woken: seq<Task>)
      modifies this
      ensures State() == Drained(Closed(old(State())))
      ensures woken == Released(Closed(old(State())))
    {
      open := false;
      woken := [];
      if inFlight == 0 {
        woken, waiters := waiters, [];
      }
    }

    /** A guard is dropped. */
    method DropGuard() returns (woken: seq<Task>)
      modifies this
      ensures State() == Drained(Dropped(old(State())))
      ensures woken == Released(Dropped(old(State())))
    {
      inFlight := if inFlight > 0 then inFlight - 1 else 0;
      woken := [];
      if inFlight == 0 {
        woken, waiters := waiters, [];
      }
    }

    /** Polls the quiescence future on behalf of `task`. */
    method Poll(task: Task) returns (ready: bool)
      modifies this
      ensures State() == Registered(old(State()), task)
      ensures ready <==> old(inFlight) == 0
    {
      if inFlight == 0 {
        return true;
      }
      if task !in waiters {
        waiters := waiters + [task];
      }
      return false;
    }
  }

  // ---------------------------------------------------------------- every interleaving

  type Guard = nat

  /** The fence with everything around it: the guards that exist, the tasks that
      were told to wait and not woken since, the wakers taken out under the lock
      whose `wake` has not run yet, and the writes made so far. */
  datatype System = System(
    fence: FenceState,
    live: set<Guard>,
    parked: set<Task>,
    waking: seq<Task>,
    writes: seq<Guard>)

  datatype Step =
    | BeginCommit(guard: Guard)
    | Write(guard: Guard)
    | DropGuard(guard: Guard)
    | Invalidate
    | Poll(task: Task)
    | Wake(index: nat)

  const START: System := System(Opened(), {}, {}, [], [])

  /** Any thread may take any step at any time; a step whose guard or waker does
      not exist does nothing. A write needs a live guard: every adapter holds one
      across its commit. */
  function Next(s: System, step: Step): System {
    match step
    case BeginCommit(g) =>
      if g !in s.live && s.fence.open then s.(fence := Begun(s.fence), live := s.live + {g}) else s
    case Write(g) =>
      if g in s.live then s.(writes := s.writes + [g]) else s
    case DropGuard(g) =>
      if g in s.live then
        var f := Dropped(s.fence);
        s.(fence := Drained(f), live := s.live - {g}, waking := s.waking + Released(f))
      else s
    case Invalidate =>
      var f := Closed(s.fence);
      s.(fence := Drained(f), waking := s.waking + Released(f))
    case Poll(t) =>
      s.(fence := Registered(s.fence, t),
         parked := if s.fence.inFlight == 0 then s.parked - {t} else s.parked + {t})
    case Wake(i) =>
      if i < |s.waking| then
        s.(waking := s.waking[..i] + s.waking[i + 1..], parked := s.parked - {s.waking[i]})
      else s
  }

  function Run(s: System, steps: seq<Step>): System
    decreases |steps|
  {
    if steps == [] then s else Run(Next(s, steps[0]), steps[1..])
  }

  ghost predicate Invariant(s: System) {
    && s.fence.inFlight == |s.live|
    && (s.fence.waiters != [] ==> s.fence.inFlight > 0)
    && (forall t :: t in s.parked ==> t in s.fence.waiters || t in s.waking)
  }

  lemma NextKeepsInvariant(s: System, step: Step)
    requires Invariant(s)
    ensures Invariant(Next(s, step))
  {
    var s' := Next(s, step);
    match step
    case BeginCommit(g) =>
    case Write(g) =>
    case DropGuard(g) =>
      if g in s.live {
        assert |s.live - {g}| == |s.live| - 1;
        WakersMoved(s.fence.waiters, s.waking, s'.fence.waiters, s'.waking);
      }
    case Invalidate =>
      WakersMoved(s.fence.waiters, s.waking, s'.fence.waiters, s'.waking);
    case Poll(t) =>
    case Wake(i) =>
      if i < |s.waking| {
        assert s.waking == s.waking[..i] + [s.waking[i]] + s.waking[i + 1..];
      }
  }

  /** Taking the waiters out under the lock loses none of them. */
  lemma WakersMoved(waiters: seq<Task>, waking: seq<Task>, waiters': seq<Task>, waking': seq<Task>)
    requires (waiters' == waiters && waking' == waking + []) || (waiters' == [] && waking' == waking + waiters)
    ensures forall t :: t in waiters || t in waking ==> t in waiters' || t in waking'
  {
  }

  lemma {:induction false} RunKeepsInvariant(s: System, steps: seq<Step>)
    requires Invariant(s)
    ensures Invariant(Run(s, steps))
    decreases |steps|
  {
    if steps != [] {
      NextKeepsInvariant(s, steps[0]);
      RunKeepsInvariant(Next(s, steps[0]), steps[1..]);
    }
  }

  /** The count is the number of guards, so the saturating decrement never
      saturates, and no wake-up is lost: when the last guard is gone, every task
      that was told to wait has its waker on the way. */
  lemma NoLostWakeup(steps: seq<Step>)
    ensures var s := Run(START, steps);
            && s.fence.inFlight == |s.live|
            && (s.live != {} ==> s.fence.inFlight > 0)
            && (s.live == {} ==> s.fence.waiters == [] && forall t :: t in s.parked ==> t in s.waking)
  {
    RunKeepsInvariant(START, steps);
    var s := Run(START, steps);
    assert s.live != {} ==> |s.live| > 0;
  }

  predicate Quiesced(s: System) {
    !s.fence.open && s.fence.inFlight == 0
  }

  lemma {:induction false} QuiescedForever(s: System, steps: seq<Step>)
    requires Invariant(s) && Quiesced(s)
    ensures Quiesced(Run(s, steps)) && Run(s, steps).live == {} && Run(s, steps).writes == s.writes
    decreases |steps|
  {
    if steps != [] {
      NextKeepsInvariant(s, steps[0]);
      QuiescedForever(Next(s, steps[0]), steps[1..]);
    }
  }

  lemma {:induction false} RunConcat(s: System, first: seq<Step>, second: seq<Step>)
    ensures Run(s, first + second) == Run(Run(s, first), second)
    decreases |first|
  {
    if first == [] {
      assert first + second == second;
    } else {
      assert (first + second)[1..] == first[1..] + second;
      RunConcat(Next(s, first[0]), first[1..], second);
    }
  }

  lemma {:induction false} StaysClosed(s: System, steps: seq<Step>)
    requires !s.fence.open
    ensures !Run(s, steps).fence.open
    decreases |steps|
  {
    if steps != [] {
      StaysClosed(Next(s, steps[0]), steps[1..]);
    }
  }

  /** `invalidate_and_wait`: close the fence at any point of any run, let
      anything happen, and let some task's poll then come back ready. From there
      on nothing is ever written under this fence again. */
  lemma NoWriteAfterQuiescence(before: seq<Step>, between: seq<Step>, after: seq<Step>)
    requires Run(START, before + [Invalidate] + between).fence.inFlight == 0
    ensures Run(START, before + [Invalidate] + between + after).writes
         == Run(START, before + [Invalidate] + between).writes
    ensures Run(START, before + [Invalidate] + between + after).live == {}
  {
    var middle := before + [Invalidate] + between;
    RunConcat(START, before + [Invalidate], between);
    RunConcat(START, before, [Invalidate]);
    var closed := Next(Run(START, before), Invalidate);
    assert Run(Run(START, before), [Invalidate]) == closed by {
      assert [Invalidate][1..] == [];
    }
    StaysClosed(closed, between);
    RunKeepsInvariant(START, middle);
    QuiescedForever(Run(START, middle), after);
    RunConcat(START, middle, after);
  }

  /** A ready poll promises that nothing more is written exactly when the fence
      was closed: on an open fence the next commit may follow at once. */
  lemma QuiescenceNeedsInvalidation(s: System)
    requires Invariant(s) && s.fence.inFlight == 0
    ensures (forall after :: Run(s, after).writes == s.writes) <==> !s.fence.open
  {
    if s.fence.open {
      var after := [BeginCommit(0), Write(0)];
      assert s.live == {};
      assert after[1..] == [Write(0)] && after[1..][1..] == [];
      var s1 := Next(s, BeginCommit(0));
      assert Run(s1, [Write(0)]) == Run(Next(s1, Write(0)), [Write(0)][1..]);
      assert Run(s, after).writes == s.writes + [0];
      assert Run(s, after).writes != s.writes;
    } else {
      forall after ensures Run(s, after).writes == s.writes {
        QuiescedForever(s, after);
      }
    }
  }
}
