/** How long an accepted transcription can stay unanswered. */
module SupervisorDeadlines {
  import opened Wrappers
  import Wire = WorkerProtocol
  import opened Supervisor
  import opened SupervisorBooks
  import opened SupervisorRuns

  /** The loop enforces its deadlines at least every `gap`, whatever its steps do in
      between: the clock never gets further than that from the last enforcement. */
  ghost predicate Paced(a: Actor, c: Config, steps: seq<Step>, gap: nat)
    decreases |steps|
  {
    && (a.phase == Returned || a.now <= a.enforcedAt + gap)
    && (steps == [] || ((a.phase == Returned || a.now + Lag(steps[0]) <= a.enforcedAt + gap)
                        && Paced(Next(a, c, steps[0]), c, steps[1..], gap)))
  }

  /** The time until the step reads the clock for a new deadline. */
  function Lag(step: Step): nat {
    match step
    case Sweep(w) => w.lag
    case Dequeue(_, w) => w.lag
    case _ => 0
  }

  /** The timer that the next enforcement compares with. */
  function Timer(p: PendingTranscription): Time {
    if p.cancelDeadline.Some? then p.cancelDeadline.value else p.deadline
  }

  /** The latest the request's own deadline can leave the timer at. */
  function Horizon(p: PendingTranscription, c: Config, gap: nat): Time {
    if p.cancelDeadline.Some? then p.cancelDeadline.value else p.deadline + gap + c.cancelTimeout
  }

  /** What the resets that are still possible can add: one user cancellation and
      one shutdown, each at most once per request. */
  function Spare(a: Actor, c: Config, gap: nat): nat {
    (if a.transcription.Some? && a.transcription.value.cancelTicket.None? then c.cancelTimeout + gap else 0)
    + (if a.shutdown.None? then c.shutdownTimeout + gap else 0)
  }

  function Budget(p: PendingTranscription, c: Config, gap: nat): Time {
    p.deadline + 2 * c.cancelTimeout + c.shutdownTimeout + 3 * gap
  }

  ghost predicate Timely(a: Actor, c: Config, gap: nat) {
    && a.enforcedAt <= a.now
    && (a.transcription.Some? ==>
          var p := a.transcription.value;
          && p.deadline <= p.acceptedAt + p.request.deadlineMs
          && a.enforcedAt <= Timer(p)
          && Horizon(p, c, gap) + Spare(a, c, gap) <= Budget(p, c, gap)
          && (p.cancelDeadline.None? ==> p.cancelTicket.None? && a.shutdown.None?))
  }

  lemma Unpending(a: Actor, c: Config, gap: nat)
    requires a.transcription.None? && a.enforcedAt <= a.now
    ensures Timely(a, c, gap)
  {
  }

  lemma Untouched(a: Actor, b: Actor, c: Config, gap: nat)
    requires Timely(a, c, gap) && a.now <= b.now && b.enforcedAt == a.enforcedAt
    requires b.transcription.None? || (b.transcription == a.transcription && b.shutdown == a.shutdown)
    ensures Timely(b, c, gap)
  {
  }

  lemma SweepTimely(a: Actor, c: Config, w: World, gap: nat)
    requires Timely(a, c, gap) && a.phase == Draining && !a.closed && a.now + w.lag <= a.enforcedAt + gap
    ensures Timely(Next(a, c, Sweep(w)), c, gap)
  {
    hide FailProcess, FailHealth, Timely;
    var b := Next(a, c, Sweep(w));
    if HealthExpired(a) {
      FailProcessTears(FailHealth(a, TimedOut), TimedOut, w.removal);
      FailHealthFields(a, TimedOut);
      Unpending(b, c, gap) by { assert a.enforcedAt <= a.now by { ClockForward(a, c, gap); } }
    } else if RequestExpired(a) && w.sending.Some? {
      FailProcessTears(a, w.sending.value, w.removal);
      Unpending(b, c, gap);
    } else {
      var a1 := if RequestExpired(a) then CancelForDeadline(a, c, w) else a;
      FailProcessTears(a1, TimedOut, w.removal);
      if CancelExpired(a1, a.now) || ShutdownExpired(a1, a.now) {
        Unpending(b, c, gap);
      } else {
        SurvivorTimely(a, a1, b, c, w, gap);
      }
    }
  }

  lemma ClockForward(a: Actor, c: Config, gap: nat)
    requires Timely(a, c, gap)
    ensures a.enforcedAt <= a.now
  {
  }

  /** A request that survives an enforcement has its timer ahead of it. */
  lemma SurvivorTimely(a: Actor, a1: Actor, b: Actor, c: Config, w: World, gap: nat)
    requires Timely(a, c, gap) && a.now + w.lag <= a.enforcedAt + gap
    requires w.sending.None? || !RequestExpired(a)
    requires a1 == if RequestExpired(a) then CancelForDeadline(a, c, w) else a
    requires !CancelExpired(a1, a.now)
    requires b == a1.(phase := Receiving, enforcedAt := a.now)
    ensures Timely(b, c, gap)
  {
  }

  lemma StartTranscriptionTimely(a: Actor, c: Config, request: Request, ticket: Ticket, w: World, gap: nat)
    requires Timely(a, c, gap)
    ensures Timely(StartTranscription(a, c, request, ticket, w), c, gap)
  {
    hide FailProcess, Answer;
    var a1 := a.(process := true);
    var b := StartTranscription(a, c, request, ticket, w);
    forall b: Actor, t, o ensures Answer(b, t, o) == b.(replies := Answer(b, t, o).replies) {
      AnswerFields(b, t, o);
    }
    if w.sending.Some? {
      var a2 := WithoutGrant(a1.(files := a1.files + {ticket}), ticket, w.removal);
      FailProcessTears(Answer(a2, ticket, Failed(Or(RemovalFault(w.removal), w.sending.value))), w.sending.value,
                       w.removal);
    }
  }

  lemma CancelTranscriptionTimely(a: Actor, c: Config, id: Wire.Uuid, ticket: Ticket, w: World, gap: nat)
    requires Timely(a, c, gap) && a.now + w.lag <= a.enforcedAt + gap
    ensures Timely(CancelTranscription(a, c, id, ticket, w), c, gap)
  {
    hide FailProcess, Answer;
    forall b: Actor, t, o ensures Answer(b, t, o) == b.(replies := Answer(b, t, o).replies) {
      AnswerFields(b, t, o);
    }
    if w.sending.Some? {
      FailProcessTears(Answer(a, ticket, Failed(w.sending.value)), w.sending.value, w.removal);
    }
  }

  lemma StartShutdownTimely(a: Actor, c: Config, close: bool, ticket: Ticket, w: World, gap: nat)
    requires Timely(a, c, gap) && a.now + w.lag <= a.enforcedAt + gap
    ensures Timely(StartShutdown(a, c, close, ticket, w).0, c, gap)
  {
    hide FailProcess, Answer, FailHealth;
    forall b: Actor, t, o ensures Answer(b, t, o) == b.(replies := Answer(b, t, o).replies) {
      AnswerFields(b, t, o);
    }
    FailHealthFields(a, SupervisorClosed);
    if w.sending.Some? {
      FailProcessTears(Answer(FailHealth(a, SupervisorClosed), ticket, Failed(w.sending.value)), w.sending.value,
                       w.removal);
    }
  }

  lemma StartHealthTimely(a: Actor, c: Config, engine: Wire.Engine, ticket: Ticket, w: World, gap: nat)
    requires Timely(a, c, gap)
    ensures Timely(StartHealth(a, c, engine, ticket, w), c, gap)
  {
    hide FailProcess, Answer;
    forall b: Actor, t, o ensures Answer(b, t, o) == b.(replies := Answer(b, t, o).replies) {
      AnswerFields(b, t, o);
    }
    if w.sending.Some? {
      FailProcessTears(Answer(a.(process := true), ticket, Failed(w.sending.value)), w.sending.value, w.removal);
    }
  }

  lemma HandleTimely(a: Actor, c: Config, command: Command, w: World, gap: nat)
    requires Timely(a, c, gap) && a.now + w.lag <= a.enforcedAt + gap
    ensures Timely(Handle(a, c, command, w).0, c, gap)
  {
    hide StartHealth, StartTranscription, CancelTranscription, StartShutdown, Timely;
    var a1 := a.(issued := a.issued + 1);
    ClockForward(a, c, gap);
    Untouched(a, a1, c, gap);
    match command
    case Health(engine) => StartHealthTimely(a1, c, engine, a.issued, w, gap);
    case Transcribe(request) => StartTranscriptionTimely(a1, c, request, a.issued, w, gap);
    case Cancel(id) => CancelTranscriptionTimely(a1, c, id, a.issued, w, gap);
    case Shutdown(close) => StartShutdownTimely(a1, c, close, a.issued, w, gap);
  }

  lemma NextTimely(a: Actor, c: Config, step: Step, gap: nat)
    requires Invariant(a) && Timely(a, c, gap)
    requires a.phase == Returned || a.now + Lag(step) <= a.enforcedAt + gap
    ensures Timely(Next(a, c, step), c, gap)
  {
    hide Timely, Receive, EnforceDeadlines, Handle, FailAll, Books;
    ClockForward(a, c, gap);
    match step
    case Tick(elapsed) => Untouched(a, Next(a, c, step), c, gap);
    case Deliver(d, removal) =>
      if a.phase == Draining {
        ReceiveMoves(a, d, removal);
        Untouched(a, Receive(a, d, removal), c, gap);
      }
    case Sweep(w) =>
      if a.phase == Draining && !a.closed {
        SweepTimely(a, c, w, gap);
      } else {
        Untouched(a, Next(a, c, step), c, gap);
      }
    case Idle => Untouched(a, Next(a, c, step), c, gap);
    case Dequeue(command, w) =>
      if a.phase == Receiving {
        HandleTimely(a, c, command, w, gap);
        Untouched(Handle(a, c, command, w).0, Next(a, c, step), c, gap) by {
          ClockForward(Handle(a, c, command, w).0, c, gap);
        }
      }
    case Disconnect(removal) =>
      if a.phase == Receiving {
        FailAllEmpties(a, SupervisorClosed, removal);
        Untouched(a, Next(a, c, step), c, gap);
      }
  }

  lemma {:induction false} RunTimely(a: Actor, c: Config, steps: seq<Step>, gap: nat)
    requires Invariant(a) && Timely(a, c, gap) && Paced(a, c, steps, gap)
    ensures Timely(Run(a, c, steps), c, gap)
    ensures Run(a, c, steps).phase == Returned || Run(a, c, steps).now <= Run(a, c, steps).enforcedAt + gap
    decreases |steps|
  {
    hide Invariant, Timely, Next;
    if steps != [] {
      NextKeepsInvariant(a, c, steps[0]);
      NextTimely(a, c, steps[0], gap);
      RunTimely(Next(a, c, steps[0]), c, steps[1..], gap);
    }
  }

  /** Bounded resolution: whatever the worker sends and whatever else is asked of
      the supervisor, while it runs an accepted transcription is still pending only
      within its deadline, two cancel timeouts, one shutdown timeout and four gaps. */
  lemma BoundedResolution(c: Config, steps: seq<Step>, gap: nat)
    requires Paced(START, c, steps, gap)
    ensures var a := Run(START, c, steps);
            a.phase != Returned && a.transcription.Some? ==>
              var p := a.transcription.value;
              a.now <= p.acceptedAt + p.request.deadlineMs + 2 * c.cancelTimeout + c.shutdownTimeout + 4 * gap
  {
    hide Next, Paced, Invariant;
    StartInvariant();
    Unpending(START, c, gap);
    RunTimely(START, c, steps, gap);
  }

  // ---------------------------------------------------------------- the other two slots

  /** A health check and a shutdown have one timer each, ahead of the last enforcement. */
  ghost predicate Prompt(a: Actor, c: Config) {
    && a.enforcedAt <= a.now
    && (a.health.Some? ==>
          a.health.value.deadline <= a.health.value.acceptedAt + c.healthTimeout
              && a.enforcedAt <= a.health.value.deadline)
    && (a.shutdown.Some? ==>
          a.shutdown.value.deadline <= a.shutdown.value.acceptedAt + c.shutdownTimeout
              && a.enforcedAt <= a.shutdown.value.deadline)
  }

  lemma StillPrompt(a: Actor, b: Actor, c: Config)
    requires Prompt(a, c) && a.now <= b.now && b.enforcedAt == a.enforcedAt
    requires (b.health == a.health || b.health.None?) && (b.shutdown == a.shutdown || b.shutdown.None?)
    ensures Prompt(b, c)
  {
  }

  lemma SweepPrompt(a: Actor, c: Config, w: World)
    requires Prompt(a, c) && a.phase == Draining && !a.closed
    ensures Prompt(Next(a, c, Sweep(w)), c)
  {
    hide FailProcess, FailHealth;
    if HealthExpired(a) {
      FailHealthFields(a, TimedOut);
      FailProcessTears(FailHealth(a, TimedOut), TimedOut, w.removal);
    } else {
      if RequestExpired(a) && w.sending.Some? {
        FailProcessTears(a, w.sending.value, w.removal);
      }
      FailProcessTears(if RequestExpired(a) then CancelForDeadline(a, c, w) else a, TimedOut, w.removal);
    }
  }

  lemma StartHealthPrompt(a: Actor, c: Config, engine: Wire.Engine, ticket: Ticket, w: World)
    requires Prompt(a, c)
    ensures Prompt(StartHealth(a, c, engine, ticket, w), c)
  {
    hide FailProcess, Answer;
    forall b: Actor, t, o ensures Answer(b, t, o) == b.(replies := Answer(b, t, o).replies) {
      AnswerFields(b, t, o);
    }
    if w.sending.Some? {
      FailProcessTears(Answer(a.(process := true), ticket, Failed(w.sending.value)), w.sending.value, w.removal);
    }
  }

  lemma CancelTranscriptionPrompt(a: Actor, c: Config, id: Wire.Uuid, ticket: Ticket, w: World)
    requires Prompt(a, c)
    ensures Prompt(CancelTranscription(a, c, id, ticket, w), c)
  {
    hide FailProcess, Answer;
    AnswerFields(a, ticket, Done);
    AnswerFields(a, ticket, Failed(CancelPending));
    if w.sending.Some? {
      AnswerFields(a, ticket, Failed(w.sending.value));
      FailProcessTears(Answer(a, ticket, Failed(w.sending.value)), w.sending.value, w.removal);
    }
  }

  lemma StartShutdownPrompt(a: Actor, c: Config, close: bool, ticket: Ticket, w: World)
    requires Prompt(a, c)
    ensures Prompt(StartShutdown(a, c, close, ticket, w).0, c)
  {
    hide FailProcess, Answer, FailHealth;
    AnswerFields(a, ticket, Failed(SupervisorClosed));
    AnswerFields(a, ticket, Failed(Busy));
    AnswerFields(a, ticket, Done);
    FailHealthFields(a, SupervisorClosed);
    if w.sending.Some? {
      var a1 := FailHealth(a, SupervisorClosed);
      AnswerFields(a1, ticket, Failed(w.sending.value));
      FailProcessTears(Answer(a1, ticket, Failed(w.sending.value)), w.sending.value, w.removal);
    }
  }

  lemma HandlePrompt(a: Actor, c: Config, command: Command, w: World)
    requires Prompt(a, c)
    ensures Prompt(Handle(a, c, command, w).0, c)
  {
    hide StartHealth, StartTranscription, CancelTranscription, StartShutdown, Prompt;
    var a1 := a.(issued := a.issued + 1);
    PromptClock(a, c);
    StillPrompt(a, a1, c);
    match command
    case Health(engine) => StartHealthPrompt(a1, c, engine, a.issued, w);
    case Transcribe(request) => StartTranscriptionPrompt(a1, c, request, a.issued, w);
    case Cancel(id) => CancelTranscriptionPrompt(a1, c, id, a.issued, w);
    case Shutdown(close) => StartShutdownPrompt(a1, c, close, a.issued, w);
  }

  lemma StartTranscriptionPrompt(a: Actor, c: Config, request: Request, ticket: Ticket, w: World)
    requires Prompt(a, c)
    ensures Prompt(StartTranscription(a, c, request, ticket, w), c)
  {
    hide StartTranscription, Prompt;
    var b := StartTranscription(a, c, request, ticket, w);
    StartTranscriptionMoves(a, c, request, ticket, w);
    StartTranscriptionClock(a, c, request, ticket, w);
    PromptClock(a, c);
    StillPrompt(a, b, c);
  }

  lemma PromptClock(a: Actor, c: Config)
    requires Prompt(a, c)
    ensures a.enforcedAt <= a.now
  {
  }

  lemma StartTranscriptionClock(a: Actor, c: Config, request: Request, ticket: Ticket, w: World)
    ensures StartTranscription(a, c, request, ticket, w).now >= a.now
  {
    hide FailProcess;
    forall b: Actor, f ensures FailProcess(b, f, w.removal).now == b.now {
      FailProcessTears(b, f, w.removal);
    }
  }

  lemma NextPrompt(a: Actor, c: Config, step: Step)
    requires Invariant(a) && Prompt(a, c)
    ensures Prompt(Next(a, c, step), c)
  {
    hide Prompt, Receive, EnforceDeadlines, Handle, FailAll, Books;
    PromptClock(a, c);
    match step
    case Tick(elapsed) => StillPrompt(a, Next(a, c, step), c);
    case Deliver(d, removal) =>
      if a.phase == Draining {
        ReceiveMoves(a, d, removal);
        StillPrompt(a, Receive(a, d, removal), c);
      }
    case Sweep(w) =>
      if a.phase == Draining && !a.closed {
        SweepPrompt(a, c, w);
      } else {
        StillPrompt(a, Next(a, c, step), c);
      }
    case Idle => StillPrompt(a, Next(a, c, step), c);
    case Dequeue(command, w) =>
      if a.phase == Receiving {
        HandlePrompt(a, c, command, w);
        StillPrompt(Handle(a, c, command, w).0, Next(a, c, step), c);
      }
    case Disconnect(removal) =>
      if a.phase == Receiving {
        FailAllEmpties(a, SupervisorClosed, removal);
        StillPrompt(a, Next(a, c, step), c);
      }
  }

  lemma {:induction false} RunPrompt(a: Actor, c: Config, steps: seq<Step>, gap: nat)
    requires Invariant(a) && Prompt(a, c) && Paced(a, c, steps, gap)
    ensures Prompt(Run(a, c, steps), c)
    ensures Run(a, c, steps).phase == Returned || Run(a, c, steps).now <= Run(a, c, steps).enforcedAt + gap
    decreases |steps|
  {
    hide Invariant, Prompt, Next;
    if steps != [] {
      NextKeepsInvariant(a, c, steps[0]);
      NextPrompt(a, c, steps[0]);
      RunPrompt(Next(a, c, steps[0]), c, steps[1..], gap);
    }
  }

  /** While the supervisor runs, a health check is pending only within the health
      timeout, and a shutdown only within the shutdown timeout, plus one gap. */
  lemma HealthAndShutdownBounded(c: Config, steps: seq<Step>, gap: nat)
    requires Paced(START, c, steps, gap)
    ensures var a := Run(START, c, steps);
            a.phase != Returned ==>
              && (a.health.Some? ==> a.now <= a.health.value.acceptedAt + c.healthTimeout + gap)
              && (a.shutdown.Some? ==> a.now <= a.shutdown.value.acceptedAt + c.shutdownTimeout + gap)
  {
    hide Next, Paced, Invariant;
    StartInvariant();
    RunPrompt(START, c, steps, gap);
  }
}
