/** Every dequeued command is answered exactly once or still held in a slot. */
module SupervisorBooks {
  import opened Wrappers
  import Wire = WorkerProtocol
  import opened Supervisor

  function Replied(replies: seq<Reply>): multiset<Ticket>
    decreases |replies|
  {
    if replies == [] then multiset{} else Replied(replies[..|replies| - 1]) + multiset{replies[|replies| - 1].ticket}
  }

  function One(ticket: Option<Ticket>): multiset<Ticket> {
    if ticket.Some? then multiset{ticket.value} else multiset{}
  }

  function HealthHeld(a: Actor): multiset<Ticket> {
    if a.health.Some? then multiset{a.health.value.ticket} else multiset{}
  }

  function TranscriptionHeld(a: Actor): multiset<Ticket> {
    if a.transcription.Some?
    then multiset{a.transcription.value.ticket} + One(a.transcription.value.cancelTicket)
    else multiset{}
  }

  function ShutdownHeld(a: Actor): multiset<Ticket> {
    if a.shutdown.Some? then multiset{a.shutdown.value.ticket} else multiset{}
  }

  /** The responses the three slots hold. */
  function Outstanding(a: Actor): multiset<Ticket> {
    HealthHeld(a) + TranscriptionHeld(a) + ShutdownHeld(a)
  }

  function Books(a: Actor): multiset<Ticket> {
    Replied(a.replies) + Outstanding(a)
  }

  /** The tickets handed out so far, each once. */
  function Issued(n: nat): multiset<Ticket> {
    if n == 0 then multiset{} else Issued(n - 1) + multiset{n - 1}
  }

  lemma {:induction false} IssuedOnce(n: nat, t: Ticket)
    ensures Issued(n)[t] == if t < n then 1 else 0
  {
    if n > 0 {
      IssuedOnce(n - 1, t);
    }
  }

  // ---------------------------------------------------------------- the slots

  predicate NothingPending(a: Actor) {
    a.health.None? && a.transcription.None? && a.shutdown.None?
  }

  ghost predicate Slots(a: Actor) {
    && !(a.health.Some? && a.transcription.Some?)
    && (!NothingPending(a) ==> a.process || a.phase == Returned)
    && (a.shutdown.Some? ==> a.health.None?)
  }

  // ---------------------------------------------------------------- answering moves a ticket

  lemma RepliedAppend(replies: seq<Reply>, reply: Reply)
    ensures Replied(replies + [reply]) == Replied(replies) + multiset{reply.ticket}
  {
    assert (replies + [reply])[..|replies|] == replies;
  }

  lemma AnswerAdds(a: Actor, ticket: Ticket, outcome: Outcome)
    ensures Books(Answer(a, ticket, outcome)) == Books(a) + multiset{ticket}
  {
    RepliedAppend(a.replies, Reply(ticket, outcome));
    hide Replied;
  }

  lemma AnswerIfAnyAdds(a: Actor, ticket: Option<Ticket>, outcome: Outcome)
    ensures Books(AnswerIfAny(a, ticket, outcome)) == Books(a) + One(ticket)
  {
    hide Books, Answer;
    if ticket.Some? {
      AnswerAdds(a, ticket.value, outcome);
    }
  }

  lemma EmptiedHealth(a: Actor)
    ensures Books(a) == Books(a.(health := None)) + HealthHeld(a)
  {
    assert TranscriptionHeld(a.(health := None)) == TranscriptionHeld(a);
    hide Replied, TranscriptionHeld;
    assert HealthHeld(a.(health := None)) == multiset{};
  }

  lemma EmptiedTranscription(a: Actor)
    ensures Books(a) == Books(a.(transcription := None)) + TranscriptionHeld(a)
  {
    hide Replied;
    assert TranscriptionHeld(a.(transcription := None)) == multiset{};
  }

  lemma EmptiedShutdown(a: Actor)
    ensures Books(a) == Books(a.(shutdown := None)) + ShutdownHeld(a)
  {
    assert TranscriptionHeld(a.(shutdown := None)) == TranscriptionHeld(a);
    hide Replied, TranscriptionHeld;
    assert ShutdownHeld(a.(shutdown := None)) == multiset{};
  }

  /** Emptying a slot takes its tickets off the books. */
  lemma Emptied(a: Actor)
    ensures Books(a) == Books(a.(health := None)) + HealthHeld(a)
    ensures Books(a) == Books(a.(transcription := None)) + TranscriptionHeld(a)
    ensures Books(a) == Books(a.(shutdown := None)) + ShutdownHeld(a)
  {
    hide Books, HealthHeld, TranscriptionHeld, ShutdownHeld;
    EmptiedHealth(a);
    EmptiedTranscription(a);
    EmptiedShutdown(a);
  }

  lemma GrantAside(a: Actor, grant: Ticket, removal: Removal)
    ensures Books(WithoutGrant(a, grant, removal)) == Books(a)
  {
    hide Replied;
  }

  lemma FailHealthKeeps(a: Actor, fault: Fault)
    ensures Books(FailHealth(a, fault)) == Books(a)
  {
    hide Books;
    if a.health.Some? {
      Emptied(a);
      AnswerAdds(a.(health := None), a.health.value.ticket, Failed(fault));
    }
  }

  lemma FailTranscriptionKeeps(a: Actor, fault: Fault, removal: Removal)
    ensures Books(FailTranscription(a, fault, removal)) == Books(a)
  {
    hide Books, Answer, AnswerIfAny, WithoutGrant;
    if a.transcription.Some? {
      var p, terminal := a.transcription.value, Failed(Or(RemovalFault(removal), fault));
      var a1 := WithoutGrant(a.(transcription := None), p.ticket, removal);
      Emptied(a);
      GrantAside(a.(transcription := None), p.ticket, removal);
      AnswerIfAnyAdds(a1, p.cancelTicket, terminal);
      AnswerAdds(AnswerIfAny(a1, p.cancelTicket, terminal), p.ticket, terminal);
    }
  }

  lemma ConcludeKeeps(a: Actor, outcome: Outcome, forCancel: Outcome, removal: Removal)
    requires a.transcription.Some?
    ensures Books(Conclude(a, outcome, forCancel, removal)) == Books(a)
  {
    hide Books, Answer, AnswerIfAny, WithoutGrant;
    var p, failed := a.transcription.value, RemovalFault(removal);
    var a1 := WithoutGrant(a.(transcription := None), p.ticket, removal);
    var first := if failed.Some? then Failed(failed.value) else outcome;
    Emptied(a);
    GrantAside(a.(transcription := None), p.ticket, removal);
    AnswerAdds(a1, p.ticket, first);
    AnswerIfAnyAdds(Answer(a1, p.ticket, first), p.cancelTicket,
                    if failed.Some? then Failed(failed.value) else forCancel);
  }

  lemma FailShutdownKeeps(a: Actor, fault: Fault)
    ensures Books(FailShutdown(a, fault)) == Books(a)
  {
    hide Books;
    if a.shutdown.Some? {
      Emptied(a);
      AnswerAdds(a.(shutdown := None), a.shutdown.value.ticket, Failed(fault));
    }
  }

  lemma FailAllKeeps(a: Actor, fault: Fault, removal: Removal)
    ensures Books(FailAll(a, fault, removal)) == Books(a)
  {
    hide Books, FailHealth, FailTranscription, FailShutdown;
    FailHealthKeeps(a, fault);
    FailTranscriptionKeeps(FailHealth(a, fault), fault, removal);
    FailShutdownKeeps(FailTranscription(FailHealth(a, fault), fault, removal), fault);
  }

  lemma BooksOnlySlots(a: Actor, b: Actor)
    requires b.replies == a.replies && b.health == a.health && b.transcription == a.transcription
        && b.shutdown == a.shutdown
    ensures Books(b) == Books(a)
  {
    hide Replied;
  }

  lemma FailProcessKeeps(a: Actor, fault: Fault, removal: Removal)
    ensures Books(FailProcess(a, fault, removal)) == Books(a)
  {
    hide Books, FailAll;
    FailAllKeeps(a, fault, removal);
    BooksOnlySlots(FailAll(a, fault, removal), FailProcess(a, fault, removal));
  }

  /** Failing the process empties every slot. */
  lemma FailAllEmpties(a: Actor, fault: Fault, removal: Removal)
    ensures var b := FailAll(a, fault, removal);
            NothingPending(b)
            && b == a.(health := None, transcription := None, shutdown := None, files := b.files,
                       replies := b.replies)
  {
    hide FailHealth, FailTranscription, FailShutdown;
    FailHealthFields(a, fault);
    FailTranscriptionFields(FailHealth(a, fault), fault, removal);
    FailShutdownFields(FailTranscription(FailHealth(a, fault), fault, removal), fault);
  }

  lemma FailHealthFields(a: Actor, fault: Fault)
    ensures FailHealth(a, fault) == a.(health := None, replies := FailHealth(a, fault).replies)
  {
  }

  lemma FailTranscriptionFields(a: Actor, fault: Fault, removal: Removal)
    ensures var b := FailTranscription(a, fault, removal);
            b == a.(transcription := None, files := b.files, replies := b.replies)
  {
  }

  lemma FailShutdownFields(a: Actor, fault: Fault)
    ensures FailShutdown(a, fault) == a.(shutdown := None, replies := FailShutdown(a, fault).replies)
  {
  }

  // ---------------------------------------------------------------- commands

  lemma StartHealthAdds(a: Actor, c: Config, engine: Wire.Engine, ticket: Ticket, w: World)
    ensures Books(StartHealth(a, c, engine, ticket, w)) == Books(a) + multiset{ticket}
  {
    hide Books, Answer, FailProcess;
    var b, a1 := StartHealth(a, c, engine, ticket, w), a.(process := true);
    if a.shutdown.Some? || a.health.Some? || a.transcription.Some? || (!a.process && w.spawning.Some?) {
      AnswerAdds(a, ticket, Failed(SupervisorClosed));
      AnswerAdds(a, ticket, Failed(Busy));
      AnswerAdds(a, ticket, Failed(Or(w.spawning, Busy)));
    } else if w.sending.Some? {
      BooksOnlySlots(a, a1);
      AnswerAdds(a1, ticket, Failed(w.sending.value));
      FailProcessKeeps(Answer(a1, ticket, Failed(w.sending.value)), w.sending.value, w.removal);
    } else {
      Emptied(b);
      BooksOnlySlots(a, b.(health := None));
    }
  }

  lemma SendTranscriptionAdds(a: Actor, c: Config, request: Request, ticket: Ticket, w: World)
    requires a.transcription.None?
    ensures Books(SendTranscription(a, c, request, ticket, w)) == Books(a) + multiset{ticket}
  {
    hide Books, Answer, FailProcess, WithoutGrant;
    var b, a1 := SendTranscription(a, c, request, ticket, w), a.(files := a.files + {ticket});
    BooksOnlySlots(a, a1);
    if w.sending.Some? {
      var outcome := Failed(Or(RemovalFault(w.removal), w.sending.value));
      GrantAside(a1, ticket, w.removal);
      AnswerAdds(WithoutGrant(a1, ticket, w.removal), ticket, outcome);
      FailProcessKeeps(Answer(WithoutGrant(a1, ticket, w.removal), ticket, outcome), w.sending.value, w.removal);
    } else {
      Emptied(b);
      BooksOnlySlots(a, b.(transcription := None));
      assert TranscriptionHeld(b) == multiset{ticket};
    }
  }

  lemma StartTranscriptionAdds(a: Actor, c: Config, request: Request, ticket: Ticket, w: World)
    ensures Books(StartTranscription(a, c, request, ticket, w)) == Books(a) + multiset{ticket}
  {
    hide Books, SendTranscription;
    var a1 := a.(process := true);
    BooksOnlySlots(a, a1);
    BooksOnlySlots(a, a1.(files := a1.files + {ticket}));
    BooksOnlySlots(a, a1.(files := a1.files + {ticket}, unreported := a1.unreported + {ticket}));
    if a.transcription.None? {
      SendTranscriptionAdds(a1, c, request, ticket, w);
    }
    forall b: Actor, o ensures Books(Answer(b, ticket, o)) == Books(b) + multiset{ticket} {
      AnswerAdds(b, ticket, o);
    }
  }

  lemma CancelTranscriptionAdds(a: Actor, c: Config, id: Wire.Uuid, ticket: Ticket, w: World)
    ensures Books(CancelTranscription(a, c, id, ticket, w)) == Books(a) + multiset{ticket}
  {
    hide Books, Answer, FailProcess;
    var b := CancelTranscription(a, c, id, ticket, w);
    if a.transcription.None? || a.transcription.value.request.id != id {
      AnswerAdds(a, ticket, Done);
    } else if a.transcription.value.cancelTicket.Some? {
      AnswerAdds(a, ticket, Failed(CancelPending));
    } else if w.sending.Some? {
      AnswerAdds(a, ticket, Failed(w.sending.value));
      FailProcessKeeps(Answer(a, ticket, Failed(w.sending.value)), w.sending.value, w.removal);
    } else {
      Emptied(a);
      Emptied(b);
      BooksOnlySlots(a.(transcription := None), b.(transcription := None));
    }
  }

  lemma StartShutdownAdds(a: Actor, c: Config, close: bool, ticket: Ticket, w: World)
    requires Slots(a) && a.phase != Returned
    ensures Books(StartShutdown(a, c, close, ticket, w).0) == Books(a) + multiset{ticket}
  {
    hide Books, Answer, FailProcess, FailHealth;
    var b, a1 := StartShutdown(a, c, close, ticket, w).0, FailHealth(a, SupervisorClosed);
    if a.shutdown.Some? || (!close && (a.health.Some? || a.transcription.Some?)) || !a.process {
      AnswerAdds(a, ticket, Failed(SupervisorClosed));
      AnswerAdds(a, ticket, Failed(Busy));
      AnswerAdds(a, ticket, Done);
    } else {
      FailHealthKeeps(a, SupervisorClosed);
      FailHealthFields(a, SupervisorClosed);
      if w.sending.Some? {
        AnswerAdds(a1, ticket, Failed(w.sending.value));
        FailProcessKeeps(Answer(a1, ticket, Failed(w.sending.value)), w.sending.value, w.removal);
      } else {
        var b1 := b.(shutdown := None);
        Emptied(b);
        Emptied(b1);
        Emptied(a1);
        BooksOnlySlots(a1.(transcription := None), b1.(transcription := None));
        assert TranscriptionHeld(b1) == TranscriptionHeld(a1);
      }
    }
  }

  // ---------------------------------------------------------------- messages and deadlines

  lemma CompleteHealthKeeps(a: Actor, id: Option<Wire.Uuid>, engine: Wire.Engine, model: string,
                            status: HealthStatus, removal: Removal)
    ensures Books(CompleteHealth(a, id, engine, model, status, removal)) == Books(a)
  {
    hide Books, Answer, FailProcess;
    if a.health.None? {
      FailProcessKeeps(a, ProtocolViolated, removal);
    } else {
      var p, a1 := a.health.value, a.(health := None);
      Emptied(a);
      AnswerAdds(a1, p.ticket, Failed(ProtocolViolated));
      FailProcessKeeps(Answer(a1, p.ticket, Failed(ProtocolViolated)), ProtocolViolated, removal);
      AnswerAdds(a1, p.ticket, HealthIs(status));
    }
  }

  lemma ConcludeThenFailKeeps(a: Actor, outcome: Outcome, forCancel: Outcome, fault: Fault, removal: Removal)
    requires a.transcription.Some?
    ensures Books(FailProcess(Conclude(a, outcome, forCancel, removal), fault, removal)) == Books(a)
  {
    hide Books, Conclude, FailProcess;
    ConcludeKeeps(a, outcome, forCancel, removal);
    FailProcessKeeps(Conclude(a, outcome, forCancel, removal), fault, removal);
  }

  lemma CompleteTranscriptionKeeps(a: Actor, m: Message, removal: Removal)
    requires m.Transcript?
    ensures Books(CompleteTranscription(a, m, removal)) == Books(a)
  {
    hide Books, Conclude, FailProcess;
    if a.transcription.None? {
      FailProcessKeeps(a, ProtocolViolated, removal);
    } else {
      ConcludeThenFailKeeps(a, Failed(ProtocolViolated), Failed(ProtocolViolated), ProtocolViolated, removal);
      ConcludeKeeps(a, Text(a.transcription.value.request, m.text), Done, removal);
    }
  }

  lemma CompleteCancelledKeeps(a: Actor, session: Wire.Uuid, id: Wire.Uuid, removal: Removal)
    ensures Books(CompleteCancelled(a, session, id, removal)) == Books(a)
  {
    hide Books, Conclude, FailProcess;
    if a.transcription.None? {
      FailProcessKeeps(a, ProtocolViolated, removal);
    } else {
      ConcludeThenFailKeeps(a, Failed(ProtocolViolated), Failed(ProtocolViolated), ProtocolViolated, removal);
      ConcludeKeeps(a, Failed(Or(a.transcription.value.terminalFault, WasCancelled)), Done, removal);
    }
  }

  lemma CompleteErrorKeeps(a: Actor, m: Message, removal: Removal)
    requires m.WorkerError?
    ensures Books(CompleteError(a, m, removal)) == Books(a)
  {
    hide Books, Conclude, FailProcess, Answer, MapWorkerError;
    var mapped := MapWorkerError(m.code, m.retryable, m.key);
    if ConcernsTranscription(a, m.errorSession, m.errorRequest) {
      var outcome := Failed(Or(a.transcription.value.terminalFault, mapped));
      ConcludeKeeps(a, outcome, Failed(mapped), removal);
      ConcludeThenFailKeeps(a, outcome, Failed(mapped), mapped, removal);
    } else if ConcernsHealth(a, m.errorSession, m.errorRequest) {
      Emptied(a);
      AnswerAdds(a.(health := None), a.health.value.ticket, Failed(mapped));
      FailProcessKeeps(Answer(a.(health := None), a.health.value.ticket, Failed(mapped)), mapped, removal);
    } else {
      FailProcessKeeps(a, ProtocolViolated, removal);
    }
  }

  lemma CompleteShutdownKeeps(a: Actor, removal: Removal)
    ensures Books(CompleteShutdown(a, removal)) == Books(a)
  {
    hide Books, Conclude, FailProcess, Answer;
    if a.shutdown.None? {
      FailProcessKeeps(a, ProtocolViolated, removal);
    } else {
      var s, a1 := a.shutdown.value, a.(shutdown := None);
      Emptied(a);
      if a1.transcription.Some? {
        ConcludeKeeps(a1, Failed(SupervisorClosed), Done, removal);
      }
      var a2 := if a1.transcription.Some? then Conclude(a1, Failed(SupervisorClosed), Done, removal) else a1;
      AnswerAdds(a2, s.ticket, Done);
      BooksOnlySlots(Answer(a2, s.ticket, Done), CompleteShutdown(a, removal));
    }
  }

  lemma ReceiveKeeps(a: Actor, d: Delivery, removal: Removal)
    ensures Books(Receive(a, d, removal)) == Books(a)
  {
    hide Books, FailProcess, CompleteHealth, CompleteTranscription, CompleteCancelled, CompleteError, CompleteShutdown;
    FailProcessKeeps(a, ProtocolViolated, removal);
    if a.process && d.Delivered? && d.allowed {
      match d.message
      case HealthResult(id, engine, model, status) => CompleteHealthKeeps(a, id, engine, model, status, removal);
      case Transcript(_, _, _, _, _) => CompleteTranscriptionKeeps(a, d.message, removal);
      case Cancelled(session, id) => CompleteCancelledKeeps(a, session, id, removal);
      case WorkerError(_, _, _, _, _, _) => CompleteErrorKeeps(a, d.message, removal);
      case ShutdownComplete => CompleteShutdownKeeps(a, removal);
      case Ready =>
    }
  }

  lemma CancelForDeadlineKeeps(a: Actor, c: Config, w: World)
    requires a.transcription.Some?
    ensures Books(CancelForDeadline(a, c, w)) == Books(a)
  {
    hide Books, FailProcess;
    if w.sending.Some? {
      FailProcessKeeps(a, w.sending.value, w.removal);
    } else {
      var b := CancelForDeadline(a, c, w);
      Emptied(a);
      Emptied(b);
      BooksOnlySlots(a.(transcription := None), b.(transcription := None));
    }
  }

  lemma EnforceKeeps(a: Actor, c: Config, w: World)
    ensures Books(EnforceDeadlines(a, c, w)) == Books(a)
  {
    hide Books, FailProcess, FailHealth, CancelForDeadline;
    if HealthExpired(a) {
      FailHealthKeeps(a, TimedOut);
      FailProcessKeeps(FailHealth(a, TimedOut), TimedOut, w.removal);
    } else {
      if RequestExpired(a) {
        CancelForDeadlineKeeps(a, c, w);
      }
      FailProcessKeeps(if RequestExpired(a) then CancelForDeadline(a, c, w) else a, TimedOut, w.removal);
    }
  }

  // ---------------------------------------------------------------- steps and runs

  lemma HandleAdds(a: Actor, c: Config, command: Command, w: World)
    requires Slots(a) && a.phase != Returned
    ensures Books(Handle(a, c, command, w).0) == Books(a) + multiset{a.issued}
  {
    hide Books, StartHealth, StartTranscription, CancelTranscription, StartShutdown;
    var a1 := a.(issued := a.issued + 1);
    BooksOnlySlots(a, a1);
    match command
    case Health(engine) => StartHealthAdds(a1, c, engine, a.issued, w);
    case Transcribe(request) => StartTranscriptionAdds(a1, c, request, a.issued, w);
    case Cancel(id) => CancelTranscriptionAdds(a1, c, id, a.issued, w);
    case Shutdown(close) => StartShutdownAdds(a1, c, close, a.issued, w);
  }

  lemma LeaveKeeps(a: Actor, removal: Removal)
    ensures Books(Leave(a, removal)) == Books(a)
  {
    hide Books;
    BooksOnlySlots(a, Leave(a, removal));
  }
}
