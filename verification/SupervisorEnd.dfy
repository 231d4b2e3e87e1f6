/** Who is left without an answer when the supervisor's loop returns. */
module SupervisorEnd {
  import opened Wrappers
  import Wire = WorkerProtocol
  import opened Supervisor
  import opened SupervisorBooks
  import opened SupervisorRuns

  /** When the loop has returned, everyone was answered except perhaps the caller
      of the very last command, and that only if the supervisor had closed itself. */
  lemma ReturnedOwesAtMostLast(c: Config, steps: seq<Step>)
    requires Run(START, c, steps).phase == Returned
    ensures var a := Run(START, c, steps);
            Outstanding(a) == multiset{} || (a.closed && a.issued > 0 && Outstanding(a) == multiset{a.issued - 1})
  {
    hide Next;
    StartInvariant();
    RunKeepsInvariant(START, c, steps);
    LastHeld(Run(START, c, steps));
  }

  lemma LastHeld(a: Actor)
    requires Slots(a) && HoldsAtMostLast(a) && a.shutdown.None?
    ensures Outstanding(a) == multiset{} || (a.issued > 0 && Outstanding(a) == multiset{a.issued - 1})
  {
  }

  /** The command would be taken on: a worker can be started and told. */
  predicate TakesOn(command: Command, w: World) {
    match command
    case Health(_) => w.spawning.None? && w.sending.None?
    case Transcribe(_) => w.spawning.None? && w.source == Found && w.copying == Copied && w.sending.None?
    case _ => false
  }

  // ---------------------------------------------------------------- commands taken on too late

  lemma NothingHeldIff(a: Actor)
    ensures Outstanding(a) == multiset{} <==> NothingPending(a)
  {
    if a.health.Some? {
      assert a.health.value.ticket in Outstanding(a);
    }
    if a.transcription.Some? {
      assert a.transcription.value.ticket in Outstanding(a);
    }
    if a.shutdown.Some? {
      assert a.shutdown.value.ticket in Outstanding(a);
    }
  }

  /** A supervisor that has closed itself, past its last enforcement. */
  ghost predicate Ending(a: Actor) {
    Invariant(a) && a.closed && a.phase != Receiving
  }

  lemma EndingStep(a: Actor, c: Config, step: Step)
    requires Ending(a)
    ensures Ending(Next(a, c, step))
    ensures a.phase == Returned ==> Next(a, c, step) == a
    ensures NothingPending(a) ==> NothingPending(Next(a, c, step))
    ensures step.Sweep? ==> Next(a, c, step).phase == Returned
    ensures !step.Deliver? ==> Next(a, c, step).health == a.health && Next(a, c, step).transcription == a.transcription
    ensures !step.Deliver? && !step.Sweep? ==> Next(a, c, step).phase == a.phase
  {
    hide Receive, EnforceDeadlines, Handle, FailAll, Books;
    NextKeepsInvariant(a, c, step);
    if step.Deliver? && a.phase == Draining {
      ReceiveMoves(a, step.delivery, step.removal);
    }
  }

  /** Any message at all answers whoever is pending: it is either the answer, or a
      violation of the protocol that fails the process. */
  lemma AnyDeliveryAnswers(a: Actor, d: Delivery, removal: Removal)
    requires Slots(a) && a.process && a.shutdown.None?
    ensures NothingPending(Receive(a, d, removal))
  {
    hide FailProcess, Conclude, Answer, MapWorkerError;
    forall b: Actor, fault ensures NothingPending(FailProcess(b, fault, removal)) {
      FailProcessTears(b, fault, removal);
    }
    forall b: Actor, t, o ensures Answer(b, t, o) == b.(replies := Answer(b, t, o).replies) {
      AnswerFields(b, t, o);
    }
    if a.transcription.Some? {
      forall o, o'
        ensures Conclude(a, o, o', removal)
             == a.(transcription := None, files := Conclude(a, o, o', removal).files,
                   replies := Conclude(a, o, o', removal).replies) {
        ConcludeFields(a, o, o', removal);
      }
    }
  }

  /** The loop's last drain hears nothing from the worker. */
  predicate EndsUnheard(steps: seq<Step>)
    decreases |steps|
  {
    steps != [] && (steps[0].Sweep? || (!steps[0].Deliver? && EndsUnheard(steps[1..])))
  }

  lemma {:induction false} SettledStays(a: Actor, c: Config, steps: seq<Step>)
    requires Ending(a) && NothingPending(a)
    ensures NothingPending(Run(a, c, steps))
    decreases |steps|
  {
    hide Next, Ending;
    if steps != [] {
      EndingStep(a, c, steps[0]);
      SettledStays(Next(a, c, steps[0]), c, steps[1..]);
    }
  }

  lemma {:induction false} ReturnedForever(a: Actor, c: Config, steps: seq<Step>)
    requires a.phase == Returned
    ensures Run(a, c, steps) == a
    decreases |steps|
  {
    if steps != [] {
      ReturnedForever(a, c, steps[1..]);
    }
  }

  lemma {:induction false} PendingUntilHeard(a: Actor, c: Config, steps: seq<Step>)
    requires Ending(a) && a.phase == Draining && !NothingPending(a)
    ensures Run(a, c, steps).phase == Returned ==> (NothingPending(Run(a, c, steps)) <==> !EndsUnheard(steps))
    decreases |steps|
  {
    if steps != [] {
      var b := Next(a, c, steps[0]);
      EndingStep(a, c, steps[0]);
      if steps[0].Deliver? {
        AnyDeliveryAnswers(a, steps[0].delivery, steps[0].removal);
        hide Next, Receive, Ending;
        SettledStays(b, c, steps[1..]);
      } else if steps[0].Sweep? {
        hide Next;
        ReturnedForever(b, c, steps[1..]);
      } else {
        hide Next, Ending;
        PendingUntilHeard(b, c, steps[1..]);
      }
    }
  }

  /** A deadline can close the supervisor in the middle of an iteration, which then
      still takes one command. Its caller is answered exactly when the command is
      not taken on, or the new worker delivers anything at all, be it only a broken
      pipe, before the loop looks at `closed` again. */
  lemma LateCommandAnsweredIff(a: Actor, c: Config, command: Command, w: World, between: seq<Step>, last: World)
    requires Invariant(a) && a.closed && a.phase == Receiving
    requires forall i :: 0 <= i < |between| ==> between[i].Deliver? || between[i].Tick?
    ensures var end := Run(Next(a, c, Dequeue(command, w)), c, between + [Sweep(last)]);
            && end.phase == Returned
            && (Outstanding(end) == multiset{}
                <==> !TakesOn(command, w) || exists i :: 0 <= i < |between| && between[i].Deliver?)
  {
    var b := Next(a, c, Dequeue(command, w));
    NextKeepsInvariant(a, c, Dequeue(command, w));
    LateCommandSlots(a, c, command, w);
    hide Next, Invariant, TakesOn, Outstanding;
    var steps := between + [Sweep(last)];
    var end := Run(b, c, steps);
    SweepReturns(b, c, between, last);
    UnheardIff(between, last);
    NothingHeldIff(end);
    if TakesOn(command, w) {
      PendingUntilHeard(b, c, steps);
    } else {
      SettledStays(b, c, steps);
    }
  }

  lemma {:induction false} SweepReturns(a: Actor, c: Config, between: seq<Step>, last: World)
    requires Ending(a)
    ensures Run(a, c, between + [Sweep(last)]).phase == Returned
    decreases |between|
  {
    hide Next, Ending;
    var steps := between + [Sweep(last)];
    EndingStep(a, c, steps[0]);
    if between == [] {
      assert steps[1..] == [];
    } else {
      assert steps[1..] == between[1..] + [Sweep(last)];
      SweepReturns(Next(a, c, steps[0]), c, between[1..], last);
    }
  }

  lemma {:induction false} UnheardIff(between: seq<Step>, last: World)
    requires forall i :: 0 <= i < |between| ==> between[i].Deliver? || between[i].Tick?
    ensures EndsUnheard(between + [Sweep(last)]) <==> !exists i :: 0 <= i < |between| && between[i].Deliver?
    decreases |between|
  {
    if between != [] {
      var steps := between + [Sweep(last)];
      assert steps[0] == between[0] && steps[1..] == between[1..] + [Sweep(last)];
      assert forall i :: 0 <= i < |between[1..]| ==> between[1..][i] == between[i + 1];
      UnheardIff(between[1..], last);
      if i :| 0 <= i < |between| && between[i].Deliver? {
        assert i == 0 || between[1..][i - 1].Deliver?;
      }
    }
  }

  /** Somewhere in the run the supervisor, having closed itself, takes a command on,
      and nothing is heard from the worker after that. */
  predicate LosesCaller(a: Actor, c: Config, steps: seq<Step>)
    decreases |steps|
  {
    steps != []
    && (|| (a.closed && a.phase == Receiving && steps[0].Dequeue?
            && TakesOn(steps[0].command, steps[0].world) && EndsUnheard(steps[1..]))
        || LosesCaller(Next(a, c, steps[0]), c, steps[1..]))
  }

  lemma {:induction false} EndingLosesNoMore(a: Actor, c: Config, steps: seq<Step>)
    requires Ending(a) || a.phase == Returned
    ensures !LosesCaller(a, c, steps)
    decreases |steps|
  {
    if steps != [] {
      if a.phase != Returned {
        EndingStep(a, c, steps[0]);
      }
      hide Next, Invariant;
      EndingLosesNoMore(Next(a, c, steps[0]), c, steps[1..]);
    }
  }

  /** Closing itself leaves the supervisor with nothing pending. */
  lemma ClosingEmpties(a: Actor, c: Config, step: Step)
    requires Invariant(a) && !a.closed && a.phase != Returned
    ensures Next(a, c, step).closed || Next(a, c, step).phase == Returned ==> NothingPending(Next(a, c, step))
  {
    hide Receive, EnforceDeadlines, Handle, FailAll, Books;
    match step
    case Deliver(d, removal) =>
      if a.phase == Draining {
        ReceiveMoves(a, d, removal);
      }
    case Sweep(w) => EnforceMoves(a, c, w);
    case Dequeue(command, w) =>
      if a.phase == Receiving {
        HandleKeepsSlots(a, c, command, w);
        HandleCloses(a, c, command, w);
      }
    case Disconnect(removal) => FailAllEmpties(a, SupervisorClosed, removal);
    case Tick(_) =>
    case Idle =>
  }

  lemma HandleCloses(a: Actor, c: Config, command: Command, w: World)
    requires !a.closed
    ensures Handle(a, c, command, w).0.closed ==> NothingPending(Handle(a, c, command, w).0)
  {
    hide StartHealth, StartTranscription, CancelTranscription, StartShutdown;
    var a1 := a.(issued := a.issued + 1);
    match command
    case Health(engine) => StartHealthMoves(a1, c, engine, a.issued, w);
    case Transcribe(request) => StartTranscriptionMoves(a1, c, request, a.issued, w);
    case Cancel(id) => CancelTranscriptionMoves(a1, c, id, a.issued, w);
    case Shutdown(close) => StartShutdownMoves(a1, c, close, a.issued, w);
  }

  lemma {:induction false} LostIff(a: Actor, c: Config, steps: seq<Step>)
    requires Invariant(a) && a.phase != Returned && (a.closed && a.phase == Draining ==> NothingPending(a))
    ensures Run(a, c, steps).phase == Returned ==> (NothingPending(Run(a, c, steps)) <==> !LosesCaller(a, c, steps))
    decreases |steps|
  {
    if steps != [] {
      var b := Next(a, c, steps[0]);
      NextKeepsInvariant(a, c, steps[0]);
      if a.closed && a.phase == Receiving {
        LostFromClosed(a, c, steps);
      } else if a.closed {
        hide Next, Invariant;
        SettledStays(a, c, steps);
        EndingLosesNoMore(a, c, steps);
      } else {
        ClosingEmpties(a, c, steps[0]);
        hide Next, Invariant;
        if b.phase == Returned {
          ReturnedForever(b, c, steps[1..]);
          EndingLosesNoMore(b, c, steps[1..]);
        } else {
          LostIff(b, c, steps[1..]);
        }
      }
    }
  }

  lemma LostByDequeue(a: Actor, c: Config, steps: seq<Step>)
    requires Invariant(a) && a.closed && a.phase == Receiving && steps != [] && steps[0].Dequeue?
    ensures Run(a, c, steps).phase == Returned ==> (NothingPending(Run(a, c, steps)) <==> !LosesCaller(a, c, steps))
  {
    var b, step := Next(a, c, steps[0]), steps[0];
    NextKeepsInvariant(a, c, step);
    LateCommandSlots(a, c, step.command, step.world);
    hide Next, Invariant, TakesOn;
    EndingLosesNoMore(b, c, steps[1..]);
    if TakesOn(step.command, step.world) {
      PendingUntilHeard(b, c, steps[1..]);
    } else {
      SettledStays(b, c, steps[1..]);
    }
  }

  lemma {:induction false} LostFromClosed(a: Actor, c: Config, steps: seq<Step>)
    requires Invariant(a) && a.closed && a.phase == Receiving
    ensures Run(a, c, steps).phase == Returned ==> (NothingPending(Run(a, c, steps)) <==> !LosesCaller(a, c, steps))
    decreases |steps|
  {
    if steps != [] {
      var b, step := Next(a, c, steps[0]), steps[0];
      NextKeepsInvariant(a, c, step);
      if step.Dequeue? {
        LostByDequeue(a, c, steps);
      } else if step.Idle? || step.Disconnect? {
        ClosedLeaves(a, c, step);
        hide Next, Invariant;
        EndingLosesNoMore(b, c, steps[1..]);
        SettledStays(b, c, steps[1..]);
      } else {
        ClosedWaits(a, c, step);
        hide Next, Invariant;
        LostFromClosed(b, c, steps[1..]);
      }
    }
  }

  lemma ClosedWaits(a: Actor, c: Config, step: Step)
    requires a.phase == Receiving && (step.Tick? || step.Deliver? || step.Sweep?)
    ensures Next(a, c, step).phase == Receiving && Next(a, c, step).closed == a.closed
  {
  }

  lemma ClosedLeaves(a: Actor, c: Config, step: Step)
    requires NothingPending(a) && a.closed && a.phase == Receiving && (step.Idle? || step.Disconnect?)
    ensures var b := Next(a, c, step); NothingPending(b) && b.closed && b.phase != Receiving
  {
    hide FailAll;
    if step.Disconnect? {
      FailAllEmpties(a, SupervisorClosed, step.removal);
    }
  }

  /** So over every run that returns, all slots are empty exactly when no caller was
      lost that way. */
  lemma EveryoneAnsweredIff(c: Config, steps: seq<Step>)
    requires Run(START, c, steps).phase == Returned
    ensures Outstanding(Run(START, c, steps)) == multiset{} <==> !LosesCaller(START, c, steps)
  {
    hide Next, Outstanding;
    StartInvariant();
    LostIff(START, c, steps);
    NothingHeldIff(Run(START, c, steps));
  }

  lemma LateCommandSlots(a: Actor, c: Config, command: Command, w: World)
    requires NothingPending(a) && !a.process && a.closed && a.phase == Receiving
    ensures var b := Next(a, c, Dequeue(command, w));
            && b.closed && b.shutdown.None? && (b.phase == Draining || b.phase == Returned)
            && (b.health.Some? || b.transcription.Some? <==> TakesOn(command, w))
            && (b.phase == Returned ==> NothingPending(b))
  {
    hide FailProcess;
    var a1, a2 := a.(issued := a.issued + 1), a.(issued := a.issued + 1, process := true);
    if w.sending.Some? {
      FailProcessTears(Answer(a2, a.issued, Failed(w.sending.value)), w.sending.value, w.removal);
      var a3 := WithoutGrant(a2.(files := a2.files + {a.issued}), a.issued, w.removal);
      FailProcessTears(Answer(a3, a.issued, Failed(Or(RemovalFault(w.removal), w.sending.value))), w.sending.value,
                       w.removal);
    }
  }

  const WILLING: World := World(None, Absent, Copied, None, Removed, 1, 0)

  /** A start, a request without audio, and a closing shutdown that times out. */
  function ClosingSteps(c: Config, request: Request): seq<Step> {
    [Sweep(WILLING), Dequeue(Transcribe(request), WILLING), Sweep(WILLING),
     Dequeue(Shutdown(true), WILLING), Tick(c.shutdownTimeout), Sweep(WILLING)]
  }

  /** The supervisor that has just closed itself, about to take one more command. */
  function ClosedItself(c: Config): Actor {
    Actor(false, None, None, None, true, Receiving, c.shutdownTimeout, c.shutdownTimeout, {}, 2, map[], {},
          [Reply(0, Failed(ArtifactMissing)), Reply(1, Failed(TimedOut))])
  }

  lemma ClosedByDeadline(c: Config, request: Request, more: seq<Step>)
    ensures Run(START, c, ClosingSteps(c, request) + more) == Run(ClosedItself(c), c, more)
  {
    var a1 := START.(phase := Receiving);
    assert Next(START, c, Sweep(WILLING)) == a1;
    var a2 := a1.(phase := Draining, process := true, issued := 1, replies := [Reply(0, Failed(ArtifactMissing))]);
    assert Next(a1, c, Dequeue(Transcribe(request), WILLING)) == a2;
    var a3 := a2.(phase := Receiving);
    assert Next(a2, c, Sweep(WILLING)) == a3;
    var deadline := DeadlineAfter(c, 0, c.shutdownTimeout);
    var a4 := a3.(phase := Draining, issued := 2, shutdown := Some(PendingShutdown(0, deadline, true, 1)));
    assert Next(a3, c, Dequeue(Shutdown(true), WILLING)) == a4;
    var a5 := a4.(now := c.shutdownTimeout);
    assert Next(a4, c, Tick(c.shutdownTimeout)) == a5;
    assert Next(a5, c, Sweep(WILLING)) == ClosedItself(c);
    var steps := ClosingSteps(c, request) + more;
    RunPrefix(START, ClosedItself(c), c, steps, 6, [START, a1, a2, a3, a4, a5, ClosedItself(c)]);
    assert steps[6..] == more;
  }

  /** Such an end is reachable with any timeouts: the new worker stays silent, and the
      last caller never hears back. */
  lemma LateCommandNeverAnswered(c: Config, request: Request)
    ensures var a := Run(START, c, ClosingSteps(c, request) + [Dequeue(Health(Wire.Qwen), WILLING), Sweep(WILLING)]);
            a.phase == Returned && Outstanding(a) == multiset{2}
  {
    var steps, a := [Dequeue(Health(Wire.Qwen), WILLING), Sweep(WILLING)], ClosedItself(c);
    var b := a.(process := true, issued := 3, phase := Draining,
                health := Some(PendingHealth(1, Wire.Qwen, c.qwenModel, a.now,
                                             DeadlineAfter(c, a.now, c.healthTimeout), 2)));
    assert Next(a, c, steps[0]) == b;
    var end := b.(process := false, phase := Returned);
    assert Next(b, c, steps[1]) == end;
    ClosedByDeadline(c, request, steps);
    RunPrefix(a, end, c, steps, 2, [a, b, end]);
    assert HealthHeld(end) == multiset{2} && TranscriptionHeld(end) == multiset{} && ShutdownHeld(end) == multiset{};
  }

  /** Following the states that a run passes through. */
  lemma {:induction false} RunPrefix(a: Actor, b: Actor, c: Config, steps: seq<Step>, n: nat, states: seq<Actor>)
    requires n <= |steps| && |states| == n + 1 && states[0] == a && states[n] == b
    requires forall i :: 0 <= i < n ==> Next(states[i], c, steps[i]) == states[i + 1]
    ensures Run(a, c, steps) == Run(b, c, steps[n..])
    decreases n
  {
    hide Next;
    if n == 0 {
      assert steps[0..] == steps;
    } else {
      assert states[1..][0] == states[1];
      RunPrefix(states[1], b, c, steps[1..], n - 1, states[1..]);
      assert steps[1..][n - 1..] == steps[n..];
    }
  }
}
