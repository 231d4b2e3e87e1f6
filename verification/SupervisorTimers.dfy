/** Nothing times out early: when a timer fires, what it does then, and that every
    timer stands where its request put it. */
module SupervisorTimers {
  import opened Wrappers
  import Wire = WorkerProtocol
  import opened Supervisor
  import opened SupervisorBooks
  import opened SupervisorRuns
  import opened SupervisorReplies

  // ---------------------------------------------------------------- one look at the clock

  /** The clock is before every armed timer; a request's own deadline counts while no
      cancellation of it has a timer. */
  predicate BeforeAllTimers(a: Actor) {
    && (a.health.Some? ==> a.now < a.health.value.deadline)
    && (a.transcription.Some? ==>
          match a.transcription.value.cancelDeadline
          case None => a.now < a.transcription.value.deadline
          case Some(timer) => a.now < timer)
    && (a.shutdown.Some? ==> a.now < a.shutdown.value.deadline)
  }

  predicate SameSlots(a: Actor, b: Actor) {
    && b.health == a.health && b.transcription == a.transcription && b.shutdown == a.shutdown
    && b.process == a.process && b.replies == a.replies && b.files == a.files
  }

  /** A sweep of an open supervisor changes nothing exactly when the clock is before
      every timer: nobody is timed out early, and nobody is left waiting. */
  lemma NothingTimesOutEarly(a: Actor, c: Config, w: World)
    requires a.phase == Draining && !a.closed
    ensures SameSlots(a, Next(a, c, Sweep(w))) <==> BeforeAllTimers(a)
  {
    hide FailProcess, FailHealth;
    FailHealthFields(a, TimedOut);
    forall b: Actor, fault ensures NothingPending(FailProcess(b, fault, w.removal)) {
      FailProcessTears(b, fault, w.removal);
    }
  }

  // ---------------------------------------------------------------- what a timer does

  /** What everyone pending is told when the process fails: the fault, or for the
      request and its cancellation that the audio could not be removed. */
  predicate ToldByFailure(a: Actor, fault: Fault, removal: Removal, r: Reply) {
    var ended := Failed(if removal == Removed then fault else CleanupFailed);
    || (a.health.Some? && r == Reply(a.health.value.ticket, Failed(fault)))
    || (a.shutdown.Some? && r == Reply(a.shutdown.value.ticket, Failed(fault)))
    || (a.transcription.Some? && r == Reply(a.transcription.value.ticket, ended))
    || (a.transcription.Some? && a.transcription.value.cancelTicket.Some?
        && r == Reply(a.transcription.value.cancelTicket.value, ended))
  }

  /** A failed process empties every slot, tells exactly those pending, and takes the
      request's audio with it unless that cannot be removed; a closing shutdown closes. */
  lemma FailureTellsEveryone(a: Actor, fault: Fault, removal: Removal, r: Reply)
    ensures var b := FailProcess(a, fault, removal);
            && NothingPending(b) && !b.process
            && (b.closed <==> a.closed || (a.shutdown.Some? && a.shutdown.value.close))
            && (r in b.replies <==> r in a.replies || ToldByFailure(a, fault, removal, r))
            && b.files == if a.transcription.Some? && removal != Stuck
                          then a.files - {a.transcription.value.ticket} else a.files
  {
    hide FailHealth, FailTranscription, FailShutdown;
    var a1 := FailHealth(a, fault);
    var a2 := FailTranscription(a1, fault, removal);
    FailHealthFields(a, fault);
    FailTranscriptionFields(a1, fault, removal);
    FailShutdownFields(a2, fault);
    FailHealthTells(a, fault, r);
    FailTranscriptionTells(a1, fault, removal, r);
    FailShutdownTells(a2, fault, r);
  }

  lemma FailHealthTells(a: Actor, fault: Fault, r: Reply)
    ensures r in FailHealth(a, fault).replies
       <==> r in a.replies || (a.health.Some? && r == Reply(a.health.value.ticket, Failed(fault)))
  {
  }

  lemma FailShutdownTells(a: Actor, fault: Fault, r: Reply)
    ensures r in FailShutdown(a, fault).replies
       <==> r in a.replies || (a.shutdown.Some? && r == Reply(a.shutdown.value.ticket, Failed(fault)))
  {
  }

  lemma FailTranscriptionTells(a: Actor, fault: Fault, removal: Removal, r: Reply)
    ensures var b := FailTranscription(a, fault, removal);
            var ended := Failed(if removal == Removed then fault else CleanupFailed);
            && (r in b.replies
                <==> || r in a.replies
                     || (a.transcription.Some? && r == Reply(a.transcription.value.ticket, ended))
                     || (a.transcription.Some? && a.transcription.value.cancelTicket.Some?
                         && r == Reply(a.transcription.value.cancelTicket.value, ended)))
            && b.files == if a.transcription.Some? && removal != Stuck
                          then a.files - {a.transcription.value.ticket} else a.files
  {
  }

  /** A health check's timer fails the process, and the check is told of the timeout. */
  lemma HealthTimesOut(a: Actor, c: Config, w: World)
    requires a.phase == Draining && !a.closed && a.health.Some? && a.now >= a.health.value.deadline
    ensures var b := Next(a, c, Sweep(w));
            NothingPending(b) && !b.process && Reply(a.health.value.ticket, Failed(TimedOut)) in b.replies
  {
    hide FailProcess;
    FailureTellsEveryone(FailHealth(a, TimedOut), TimedOut, w.removal,
                         Reply(a.health.value.ticket, Failed(TimedOut)));
    assert FailHealth(a, TimedOut).replies[|a.replies|] == Reply(a.health.value.ticket, Failed(TimedOut));
  }

  /** A request's own timer sends a cancellation, arms the cancel timer, and remembers
      the timeout as what the request is told in the end. */
  lemma RequestTimesOut(a: Actor, c: Config, w: World)
    requires a.phase == Draining && !a.closed && a.health.None? && a.shutdown.None?
    requires a.transcription.Some? && a.transcription.value.cancelDeadline.None? && w.sending.None?
    requires a.now >= a.transcription.value.deadline && c.cancelTimeout > 0
    requires a.now + w.lag + c.cancelTimeout <= c.lastInstant
    ensures var b := Next(a, c, Sweep(w));
            b.process == a.process && b.replies == a.replies && b.files == a.files && b.now == a.now + w.lag
            && b.transcription == Some(a.transcription.value.(terminalFault := Some(TimedOut),
                                                              cancelDeadline := Some(b.now + c.cancelTimeout)))
  {
    hide FailProcess;
  }

  /** The cancel timer and the shutdown's timer fail the process: nobody waits longer. */
  lemma ProcessTimesOut(a: Actor, c: Config, w: World, r: Reply)
    requires a.phase == Draining && !a.closed && a.health.None?
    requires a.transcription.Some? && a.transcription.value.cancelDeadline.None?
             ==> a.now < a.transcription.value.deadline
    requires || (a.shutdown.Some? && a.now >= a.shutdown.value.deadline)
             || (a.transcription.Some? && a.transcription.value.cancelDeadline.Some?
                 && a.now >= a.transcription.value.cancelDeadline.value)
    ensures var b := Next(a, c, Sweep(w));
            && NothingPending(b) && !b.process
            && (r in b.replies <==> r in a.replies || ToldByFailure(a, TimedOut, w.removal, r))
  {
    hide FailProcess;
    FailureTellsEveryone(a, TimedOut, w.removal, r);
  }

  // ---------------------------------------------------------------- where the timers stand

  /** `duration` after `start`, or `start` where the clock cannot represent that. */
  predicate StandsAt(c: Config, deadline: Time, start: Time, duration: nat) {
    deadline == if start + duration <= c.lastInstant then start + duration else start
  }

  ghost predicate TimersStand(a: Actor, c: Config) {
    && (a.health.Some? ==> StandsAt(c, a.health.value.deadline, a.health.value.acceptedAt, c.healthTimeout))
    && (a.transcription.Some? ==>
          var p := a.transcription.value; StandsAt(c, p.deadline, p.acceptedAt, p.request.deadlineMs))
    && (a.shutdown.Some? ==> StandsAt(c, a.shutdown.value.deadline, a.shutdown.value.acceptedAt, c.shutdownTimeout))
  }

  lemma FailedTimers(a: Actor, c: Config, fault: Fault, removal: Removal)
    ensures TimersStand(FailProcess(a, fault, removal), c)
  {
    hide FailProcess;
    FailProcessTears(a, fault, removal);
  }

  lemma HealthTimers(a: Actor, c: Config, engine: Wire.Engine, ticket: Ticket, w: World)
    requires TimersStand(a, c)
    ensures TimersStand(StartHealth(a, c, engine, ticket, w), c)
  {
    hide FailProcess;
    if w.sending.Some? {
      FailedTimers(Answer(a.(process := true), ticket, Failed(w.sending.value)), c, w.sending.value, w.removal);
    }
  }

  lemma TranscriptionTimers(a: Actor, c: Config, request: Request, ticket: Ticket, w: World)
    requires TimersStand(a, c)
    ensures TimersStand(StartTranscription(a, c, request, ticket, w), c)
  {
    hide FailProcess;
    forall b: Actor, fault ensures TimersStand(FailProcess(b, fault, w.removal), c) {
      FailedTimers(b, c, fault, w.removal);
    }
  }

  lemma ShutdownTimers(a: Actor, c: Config, close: bool, ticket: Ticket, w: World)
    requires TimersStand(a, c)
    ensures TimersStand(StartShutdown(a, c, close, ticket, w).0, c)
  {
    hide FailProcess, FailHealth;
    FailHealthFields(a, SupervisorClosed);
    if w.sending.Some? {
      FailedTimers(Answer(FailHealth(a, SupervisorClosed), ticket, Failed(w.sending.value)), c, w.sending.value,
                   w.removal);
    }
  }

  lemma CommandTimers(a: Actor, c: Config, command: Command, w: World)
    requires TimersStand(a, c) && a.phase == Receiving
    ensures TimersStand(Handle(a, c, command, w).0, c)
  {
    hide StartHealth, StartTranscription, StartShutdown, FailProcess;
    var a1 := a.(issued := a.issued + 1);
    match command
    case Health(engine) => HealthTimers(a1, c, engine, a.issued, w);
    case Transcribe(request) => TranscriptionTimers(a1, c, request, a.issued, w);
    case Cancel(id) =>
      if w.sending.Some? {
        FailedTimers(Answer(a1, a.issued, Failed(w.sending.value)), c, w.sending.value, w.removal);
      }
    case Shutdown(close) => ShutdownTimers(a1, c, close, a.issued, w);
  }

  lemma NextTimers(a: Actor, c: Config, step: Step)
    requires TimersStand(a, c) && Invariant(a)
    ensures TimersStand(Next(a, c, step), c)
  {
    hide Receive, EnforceDeadlines, Handle, FailAll, Books, StandsAt;
    match step
    case Deliver(d, removal) =>
      if a.phase == Draining {
        ReceiveMoves(a, d, removal);
      }
    case Sweep(w) => EnforceMoves(a, c, w);
    case Dequeue(command, w) =>
      if a.phase == Receiving {
        CommandTimers(a, c, command, w);
      }
    case Disconnect(removal) => FailAllEmpties(a, SupervisorClosed, removal);
    case Tick(_) =>
    case Idle =>
  }

  lemma {:induction false} RunTimers(a: Actor, c: Config, steps: seq<Step>)
    requires TimersStand(a, c) && Invariant(a)
    ensures TimersStand(Run(a, c, steps), c)
    decreases |steps|
  {
    hide Next, TimersStand, Invariant;
    if steps != [] {
      NextKeepsInvariant(a, c, steps[0]);
      NextTimers(a, c, steps[0]);
      RunTimers(Next(a, c, steps[0]), c, steps[1..]);
    }
  }

  /** At every point of every run each timer stands where its request put it: a
      transcription's at the deadline it asked for, a health check's and a shutdown's at
      their timeouts, from when they were accepted. */
  lemma DeadlinesAreKept(c: Config, steps: seq<Step>)
    ensures TimersStand(Run(START, c, steps), c)
  {
    StartInvariant();
    RunTimers(START, c, steps);
  }
}
