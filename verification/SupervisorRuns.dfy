/** What holds of the supervisor at every point of every run. */
module SupervisorRuns {
  import opened Wrappers
  import Wire = WorkerProtocol
  import opened Supervisor
  import opened SupervisorBooks

  /** The slots that are filled hold the last command dequeued, and nothing else. */
  predicate HoldsAtMostLast(a: Actor) {
    && (a.health.Some? ==> a.health.value.ticket + 1 == a.issued)
    && (a.transcription.Some?
        ==> a.transcription.value.ticket + 1 == a.issued && a.transcription.value.cancelTicket.None?)
  }

  ghost predicate Invariant(a: Actor) {
    && Slots(a)
    && Books(a) == Issued(a.issued)
    && (a.closed ==> a.shutdown.None? && HoldsAtMostLast(a))
    && (a.closed && a.phase == Receiving ==> NothingPending(a) && !a.process)
    && (a.phase == Returned && !a.closed ==> NothingPending(a))
  }

  /** The process was failed or shut down. */
  predicate Torn(a: Actor, b: Actor) {
    NothingPending(b) && !b.process && b.closed == (a.closed || Closing(a))
  }

  predicate SameClock(a: Actor, b: Actor) {
    b.phase == a.phase && b.enforcedAt == a.enforcedAt && b.unreported == a.unreported
  }

  // ---------------------------------------------------------------- how each part moves the slots

  lemma FailProcessTears(a: Actor, fault: Fault, removal: Removal)
    ensures var b := FailProcess(a, fault, removal);
            Torn(a, b) && SameClock(a, b) && b.issued == a.issued && b.now == a.now
  {
    hide FailAll;
    FailAllEmpties(a, fault, removal);
  }

  lemma ConcludeFields(a: Actor, outcome: Outcome, forCancel: Outcome, removal: Removal)
    requires a.transcription.Some?
    ensures var b := Conclude(a, outcome, forCancel, removal);
            b == a.(transcription := None, files := b.files, replies := b.replies)
  {
  }

  lemma AnswerFields(a: Actor, ticket: Ticket, outcome: Outcome)
    ensures Answer(a, ticket, outcome) == a.(replies := Answer(a, ticket, outcome).replies)
  {
  }

  /** A message fails the process, ends the shutdown, or empties one slot. */
  predicate Lessened(a: Actor, b: Actor) {
    && b.process == a.process && b.closed == a.closed && b.shutdown == a.shutdown
    && (b.health == a.health || b.health.None?)
    && (b.transcription == a.transcription || b.transcription.None?)
  }

  lemma CompleteErrorMoves(a: Actor, m: Message, removal: Removal)
    requires m.WorkerError?
    ensures var b := CompleteError(a, m, removal);
            (Torn(a, b) || Lessened(a, b)) && SameClock(a, b) && b.issued == a.issued && b.now == a.now
  {
    hide FailProcess, Conclude, Answer, MapWorkerError;
    var mapped := MapWorkerError(m.code, m.retryable, m.key);
    FailProcessTears(a, ProtocolViolated, removal);
    if ConcernsTranscription(a, m.errorSession, m.errorRequest) {
      var outcome := Failed(Or(a.transcription.value.terminalFault, mapped));
      ConcludeFields(a, outcome, Failed(mapped), removal);
      FailProcessTears(Conclude(a, outcome, Failed(mapped), removal), mapped, removal);
    } else if ConcernsHealth(a, m.errorSession, m.errorRequest) {
      AnswerFields(a.(health := None), a.health.value.ticket, Failed(mapped));
      FailProcessTears(Answer(a.(health := None), a.health.value.ticket, Failed(mapped)), mapped, removal);
    }
  }

  lemma CompleteTranscriptionMoves(a: Actor, m: Message, removal: Removal)
    requires m.Transcript?
    ensures var b := CompleteTranscription(a, m, removal);
            (Torn(a, b) || Lessened(a, b)) && SameClock(a, b) && b.issued == a.issued && b.now == a.now
  {
    hide FailProcess, Conclude;
    FailProcessTears(a, ProtocolViolated, removal);
    if a.transcription.Some? {
      ConcludeFields(a, Failed(ProtocolViolated), Failed(ProtocolViolated), removal);
      FailProcessTears(Conclude(a, Failed(ProtocolViolated), Failed(ProtocolViolated), removal), ProtocolViolated,
                       removal);
      ConcludeFields(a, Text(a.transcription.value.request, m.text), Done, removal);
    }
  }

  lemma CompleteCancelledMoves(a: Actor, session: Wire.Uuid, id: Wire.Uuid, removal: Removal)
    ensures var b := CompleteCancelled(a, session, id, removal);
            (Torn(a, b) || Lessened(a, b)) && SameClock(a, b) && b.issued == a.issued && b.now == a.now
  {
    hide FailProcess, Conclude;
    FailProcessTears(a, ProtocolViolated, removal);
    if a.transcription.Some? {
      ConcludeFields(a, Failed(ProtocolViolated), Failed(ProtocolViolated), removal);
      FailProcessTears(Conclude(a, Failed(ProtocolViolated), Failed(ProtocolViolated), removal), ProtocolViolated,
                       removal);
      ConcludeFields(a, Failed(Or(a.transcription.value.terminalFault, WasCancelled)), Done, removal);
    }
  }

  lemma CompleteHealthMoves(a: Actor, id: Option<Wire.Uuid>, engine: Wire.Engine, model: string,
                            status: HealthStatus, removal: Removal)
    ensures var b := CompleteHealth(a, id, engine, model, status, removal);
            (Torn(a, b) || Lessened(a, b)) && SameClock(a, b) && b.issued == a.issued && b.now == a.now
  {
    hide FailProcess, Answer;
    FailProcessTears(a, ProtocolViolated, removal);
    if a.health.Some? {
      var p, a1 := a.health.value, a.(health := None);
      AnswerFields(a1, p.ticket, Failed(ProtocolViolated));
      FailProcessTears(Answer(a1, p.ticket, Failed(ProtocolViolated)), ProtocolViolated, removal);
      AnswerFields(a1, p.ticket, HealthIs(status));
    }
  }

  lemma CompleteShutdownMoves(a: Actor, removal: Removal)
    requires Slots(a) && (a.closed ==> a.shutdown.None?)
    ensures var b := CompleteShutdown(a, removal);
            Torn(a, b) && SameClock(a, b) && b.issued == a.issued && b.now == a.now
  {
    hide FailProcess, Answer, Conclude;
    FailProcessTears(a, ProtocolViolated, removal);
    if a.shutdown.Some? {
      var a1 := a.(shutdown := None);
      if a1.transcription.Some? {
        ConcludeFields(a1, Failed(SupervisorClosed), Done, removal);
      }
      var a2 := if a1.transcription.Some? then Conclude(a1, Failed(SupervisorClosed), Done, removal) else a1;
      AnswerFields(a2, a.shutdown.value.ticket, Done);
    }
  }

  lemma ReceiveMoves(a: Actor, d: Delivery, removal: Removal)
    requires Slots(a) && (a.closed ==> a.shutdown.None?)
    ensures var b := Receive(a, d, removal);
            (Torn(a, b) || Lessened(a, b)) && SameClock(a, b) && b.issued == a.issued && b.now == a.now
  {
    hide FailProcess, CompleteHealth, CompleteTranscription, CompleteCancelled, CompleteError, CompleteShutdown;
    FailProcessTears(a, ProtocolViolated, removal);
    if a.process && d.Delivered? && d.allowed {
      match d.message
      case HealthResult(id, engine, model, status) => CompleteHealthMoves(a, id, engine, model, status, removal);
      case Transcript(_, _, _, _, _) => CompleteTranscriptionMoves(a, d.message, removal);
      case Cancelled(session, id) => CompleteCancelledMoves(a, session, id, removal);
      case WorkerError(_, _, _, _, _, _) => CompleteErrorMoves(a, d.message, removal);
      case ShutdownComplete => CompleteShutdownMoves(a, removal);
      case Ready =>
    }
  }

  /** The same request, its timer perhaps set. */
  predicate SamePending(p: PendingTranscription, q: PendingTranscription) {
    q == p.(cancelDeadline := q.cancelDeadline, terminalFault := q.terminalFault)
  }

  /** The deadlines fail the process or leave every slot filled as it was. */
  predicate Watched(a: Actor, b: Actor) {
    && b.process == a.process && b.closed == a.closed && b.shutdown == a.shutdown && b.health == a.health
    && b.transcription.Some? == a.transcription.Some?
    && (a.transcription.Some? ==> SamePending(a.transcription.value, b.transcription.value))
  }

  lemma EnforceMoves(a: Actor, c: Config, w: World)
    ensures var b := EnforceDeadlines(a, c, w);
            (Torn(a, b) || Watched(a, b)) && SameClock(a, b) && b.issued == a.issued
  {
    hide FailProcess, FailHealth;
    if HealthExpired(a) {
      FailHealthFields(a, TimedOut);
      FailProcessTears(FailHealth(a, TimedOut), TimedOut, w.removal);
    } else {
      if RequestExpired(a) && w.sending.Some? {
        FailProcessTears(a, w.sending.value, w.removal);
      }
      var a1 := if RequestExpired(a) then CancelForDeadline(a, c, w) else a;
      FailProcessTears(a1, TimedOut, w.removal);
    }
  }

  // ---------------------------------------------------------------- how each command moves the slots

  /** The command was answered without touching a slot, though the process may
      have been started; or it took its own slot; or the process was failed. */
  lemma StartHealthMoves(a: Actor, c: Config, engine: Wire.Engine, ticket: Ticket, w: World)
    ensures var b := StartHealth(a, c, engine, ticket, w);
            && SameClock(a, b) && b.issued == a.issued
            && (|| Torn(a, b)
                || (b == a.(process := b.process, replies := b.replies) && (a.process ==> b.process))
                || (NothingPending(a) && b.process && b.health.Some? && b.health.value.ticket == ticket
                    && b == a.(process := true, health := b.health, now := b.now)))
  {
    hide FailProcess, Answer;
    var a1 := a.(process := true);
    forall b: Actor, t, o ensures Answer(b, t, o) == b.(replies := Answer(b, t, o).replies) {
      AnswerFields(b, t, o);
    }
    if w.sending.Some? {
      FailProcessTears(Answer(a1, ticket, Failed(w.sending.value)), w.sending.value, w.removal);
    }
  }

  lemma SendTranscriptionMoves(a: Actor, c: Config, request: Request, ticket: Ticket, w: World)
    requires NothingPending(a) && a.process
    ensures var b := SendTranscription(a, c, request, ticket, w);
            && SameClock(a, b) && b.issued == a.issued
            && (|| Torn(a, b)
                || (b.process && b.transcription.Some? && b.transcription.value.ticket == ticket
                    && b.transcription.value.cancelTicket.None?
                    && b == a.(transcription := b.transcription, files := b.files, now := b.now)))
  {
    hide FailProcess, Answer;
    if w.sending.Some? {
      var a1 := WithoutGrant(a.(files := a.files + {ticket}), ticket, w.removal);
      var outcome := Failed(Or(RemovalFault(w.removal), w.sending.value));
      AnswerFields(a1, ticket, outcome);
      FailProcessTears(Answer(a1, ticket, outcome), w.sending.value, w.removal);
    }
  }

  /** The audio is copied where a failure goes unreported, and the copy fails and
      leaves something. */
  predicate CopiesInSilence(a: Actor, w: World) {
    && NothingPending(a) && (a.process || w.spawning.None?) && w.source == Found && w.copying == Abandoned(true)
  }

  lemma StartTranscriptionMoves(a: Actor, c: Config, request: Request, ticket: Ticket, w: World)
    ensures var b := StartTranscription(a, c, request, ticket, w);
            && b.phase == a.phase && b.enforcedAt == a.enforcedAt && b.issued == a.issued
            && b.unreported == (if CopiesInSilence(a, w) then a.unreported + {ticket} else a.unreported)
            && (|| Torn(a, b)
                || (b == a.(process := b.process, files := b.files, unreported := b.unreported, replies := b.replies)
                    && (a.process ==> b.process))
                || (NothingPending(a) && b.process && b.transcription.Some? && b.transcription.value.ticket == ticket
                    && b.transcription.value.cancelTicket.None?
                    && b == a.(process := true, transcription := b.transcription, files := b.files, now := b.now)))
  {
    hide SendTranscription, Answer;
    forall b: Actor, t, o ensures Answer(b, t, o) == b.(replies := Answer(b, t, o).replies) {
      AnswerFields(b, t, o);
    }
    if NothingPending(a) {
      SendTranscriptionMoves(a.(process := true), c, request, ticket, w);
    }
  }

  lemma CancelTranscriptionMoves(a: Actor, c: Config, id: Wire.Uuid, ticket: Ticket, w: World)
    ensures var b := CancelTranscription(a, c, id, ticket, w);
            && SameClock(a, b) && b.issued == a.issued
            && (|| Torn(a, b)
                || b == a.(replies := b.replies)
                || (a.transcription.Some? && b.transcription.Some?
                    && b == a.(transcription := b.transcription, cancels := b.cancels, now := b.now)
                    && SamePending(a.transcription.value.(cancelTicket := Some(ticket)), b.transcription.value)))
  {
    hide FailProcess, Answer;
    var b := CancelTranscription(a, c, id, ticket, w);
    if a.transcription.None? || a.transcription.value.request.id != id {
      AnswerFields(a, ticket, Done);
    } else if a.transcription.value.cancelTicket.Some? {
      AnswerFields(a, ticket, Failed(CancelPending));
    } else if w.sending.Some? {
      AnswerFields(a, ticket, Failed(w.sending.value));
      FailProcessTears(Answer(a, ticket, Failed(w.sending.value)), w.sending.value, w.removal);
    } else {
      hide Torn;
      assert b == a.(transcription := b.transcription, cancels := b.cancels, now := b.now);
    }
  }

  lemma StartShutdownMoves(a: Actor, c: Config, close: bool, ticket: Ticket, w: World)
    ensures var (b, stop) := StartShutdown(a, c, close, ticket, w);
            && SameClock(a, b) && b.issued == a.issued
            && (stop ==> close && (Torn(a, b) || (!a.process && b == a.(replies := b.replies))))
            && (|| Torn(a, b)
                || b == a.(replies := b.replies)
                || (a.process && a.shutdown.None? && b.process && b.health.None? && b.shutdown.Some?
                    && b.closed == a.closed
                    && b.shutdown.value.ticket == ticket && b.transcription.Some? == a.transcription.Some?
                    && (a.transcription.Some? ==> SamePending(a.transcription.value, b.transcription.value))))
  {
    hide FailProcess, Answer, FailHealth;
    AnswerFields(a, ticket, Failed(SupervisorClosed));
    AnswerFields(a, ticket, Failed(Busy));
    AnswerFields(a, ticket, Done);
    FailHealthFields(a, SupervisorClosed);
    if w.sending.Some? {
      var a1 := FailHealth(a, SupervisorClosed);
      AnswerFields(a1, ticket, Failed(w.sending.value));
      FailProcessTears(Answer(a1, ticket, Failed(w.sending.value)), w.sending.value, w.removal);
    }
  }

  // ---------------------------------------------------------------- every step

  lemma HandleKeepsSlots(a: Actor, c: Config, command: Command, w: World)
    requires Invariant(a) && a.phase == Receiving
    ensures var (b, stop) := Handle(a, c, command, w);
            && Slots(b) && b.phase == a.phase && b.enforcedAt == a.enforcedAt && b.issued == a.issued + 1
            && (b.closed ==> b.shutdown.None? && HoldsAtMostLast(b))
            && (stop ==> NothingPending(b))
  {
    hide StartHealth, StartTranscription, CancelTranscription, StartShutdown, Books;
    var a1 := a.(issued := a.issued + 1);
    match command
    case Health(engine) => StartHealthMoves(a1, c, engine, a.issued, w);
    case Transcribe(request) => StartTranscriptionMoves(a1, c, request, a.issued, w);
    case Cancel(id) => CancelTranscriptionMoves(a1, c, id, a.issued, w);
    case Shutdown(close) => StartShutdownMoves(a1, c, close, a.issued, w);
  }

  lemma DequeueKeepsInvariant(a: Actor, c: Config, command: Command, w: World)
    requires Invariant(a) && a.phase == Receiving
    ensures Invariant(Next(a, c, Dequeue(command, w)))
  {
    hide Handle, Books;
    HandleKeepsSlots(a, c, command, w);
    HandleAdds(a, c, command, w);
    var (b, stop) := Handle(a, c, command, w);
    LeaveKeeps(b, w.removal);
    BooksOnlySlots(b, b.(phase := Draining));
  }

  lemma DeliverKeepsInvariant(a: Actor, c: Config, d: Delivery, removal: Removal)
    requires Invariant(a) && a.phase == Draining
    ensures Invariant(Receive(a, d, removal))
  {
    hide Receive, Books;
    ReceiveMoves(a, d, removal);
    ReceiveKeeps(a, d, removal);
  }

  lemma SweepKeepsInvariant(a: Actor, c: Config, w: World)
    requires Invariant(a) && a.phase == Draining
    ensures Invariant(Next(a, c, Sweep(w)))
  {
    hide EnforceDeadlines, Books;
    if a.closed {
      LeaveKeeps(a, w.removal);
    } else {
      EnforceMoves(a, c, w);
      EnforceKeeps(a, c, w);
      var b := EnforceDeadlines(a, c, w);
      BooksOnlySlots(b, b.(phase := Receiving, enforcedAt := a.now));
    }
  }

  lemma DisconnectKeepsInvariant(a: Actor, c: Config, removal: Removal)
    requires Invariant(a) && a.phase == Receiving
    ensures Invariant(Next(a, c, Disconnect(removal)))
  {
    hide FailAll, Books;
    FailAllKeeps(a, SupervisorClosed, removal);
    FailAllEmpties(a, SupervisorClosed, removal);
    LeaveKeeps(FailAll(a, SupervisorClosed, removal), removal);
  }

  lemma NextKeepsInvariant(a: Actor, c: Config, step: Step)
    requires Invariant(a)
    ensures Invariant(Next(a, c, step))
  {
    hide Books, Receive, EnforceDeadlines, Handle, FailAll;
    match step
    case Tick(elapsed) => BooksOnlySlots(a, Next(a, c, step));
    case Deliver(d, removal) =>
      if a.phase == Draining {
        DeliverKeepsInvariant(a, c, d, removal);
      }
    case Sweep(w) =>
      if a.phase == Draining {
        SweepKeepsInvariant(a, c, w);
      }
    case Idle => BooksOnlySlots(a, Next(a, c, step));
    case Dequeue(command, w) =>
      if a.phase == Receiving {
        DequeueKeepsInvariant(a, c, command, w);
      }
    case Disconnect(removal) =>
      if a.phase == Receiving {
        DisconnectKeepsInvariant(a, c, removal);
      }
  }

  lemma {:induction false} RunKeepsInvariant(a: Actor, c: Config, steps: seq<Step>)
    requires Invariant(a)
    ensures Invariant(Run(a, c, steps))
    decreases |steps|
  {
    hide Invariant, Next;
    if steps != [] {
      NextKeepsInvariant(a, c, steps[0]);
      RunKeepsInvariant(Next(a, c, steps[0]), c, steps[1..]);
    }
  }

  lemma StartInvariant()
    ensures Invariant(START)
  {
  }

  /** Conservation: however commands, messages, deadlines and failures interleave,
      every command dequeued so far has been answered exactly once or is held in
      exactly one slot, and a command that was not dequeued is in neither. */
  lemma AnsweredOnceOrHeld(c: Config, steps: seq<Step>, ticket: Ticket)
    ensures var a := Run(START, c, steps);
            Replied(a.replies)[ticket] + Outstanding(a)[ticket] == if ticket < a.issued then 1 else 0
  {
    hide Next;
    StartInvariant();
    RunKeepsInvariant(START, c, steps);
    IssuedOnce(Run(START, c, steps).issued, ticket);
  }

  /** At every point: a health check and a transcription are never both pending,
      nothing is pending without a process, and a shutdown excludes a health check. */
  lemma SlotsAlwaysFit(c: Config, steps: seq<Step>)
    ensures var a := Run(START, c, steps);
            && !(a.health.Some? && a.transcription.Some?)
            && (a.phase != Returned && !NothingPending(a) ==> a.process)
            && (a.shutdown.Some? ==> a.health.None?)
            && (a.phase == Returned && !NothingPending(a) ==> a.closed && HoldsAtMostLast(a) && a.shutdown.None?)
  {
    hide Next;
    StartInvariant();
    RunKeepsInvariant(START, c, steps);
  }
}
