/** The audio grants on disk are the pending request's and those whose failed
    removal was reported. */
module SupervisorGrants {
  import opened Wrappers
  import Wire = WorkerProtocol
  import opened Supervisor
  import opened SupervisorBooks
  import opened SupervisorRuns

  /** The caller of the request was told that its audio could not be removed. */
  predicate RemovalReported(a: Actor, ticket: Ticket) {
    Reply(ticket, Failed(CleanupFailed)) in a.replies
  }

  predicate Pending(a: Actor, ticket: Ticket) {
    a.phase != Returned && a.transcription.Some? && a.transcription.value.ticket == ticket
  }

  /** Why the audio of this request is still on disk. */
  predicate Known(a: Actor, ticket: Ticket) {
    Pending(a, ticket) || RemovalReported(a, ticket) || ticket in a.unreported
  }

  /** A transcript, or the success of an accepted cancellation, is only ever
      answered once the request's audio is gone. */
  ghost predicate Honest(a: Actor) {
    forall r :: r in a.replies ==>
      && r.ticket < a.issued
      && (r.outcome.Text? ==> r.ticket !in a.files)
      && (r.outcome == Done && r.ticket in a.cancels ==> a.cancels[r.ticket] !in a.files)
  }

  ghost predicate Tracked(a: Actor) {
    && (forall t :: t in a.cancels ==> t < a.issued && a.cancels[t] < a.issued)
    && (a.health.Some? ==> a.health.value.ticket < a.issued && a.health.value.ticket !in a.cancels)
    && (a.shutdown.Some? ==> a.shutdown.value.ticket < a.issued && a.shutdown.value.ticket !in a.cancels)
    && (a.transcription.Some? ==>
          var p := a.transcription.value;
          && p.ticket < a.issued && p.ticket !in a.cancels
          && (p.cancelTicket.Some?
              ==> p.cancelTicket.value in a.cancels && a.cancels[p.cancelTicket.value] == p.ticket))
  }

  /** Every grant file belongs to the pending request, was reported, or was left in
      silence, `but` one that is about to be reported. */
  ghost predicate Accounted(a: Actor, but: set<Ticket>) {
    forall f :: f in a.files && f !in but ==> f < a.issued && Known(a, f)
  }

  ghost predicate Grants(a: Actor) {
    && Honest(a) && Tracked(a) && Accounted(a, {})
    && (a.transcription.Some? && a.phase != Returned ==> a.transcription.value.ticket in a.files)
  }

  // ---------------------------------------------------------------- answering

  /** An answer that says nothing about a file that is still there. */
  predicate Sound(a: Actor, ticket: Ticket, outcome: Outcome) {
    && ticket < a.issued
    && (outcome.Text? ==> ticket !in a.files)
    && (outcome == Done && ticket in a.cancels ==> a.cancels[ticket] !in a.files)
  }

  lemma AnswerKeeps(a: Actor, ticket: Ticket, outcome: Outcome, but: set<Ticket>)
    requires Honest(a) && Tracked(a) && Accounted(a, but) && Sound(a, ticket, outcome)
    ensures var b := Answer(a, ticket, outcome);
            && Honest(b) && Tracked(b)
            && Accounted(b, if outcome == Failed(CleanupFailed) then but - {ticket} else but)
  {
    var b := Answer(a, ticket, outcome);
    forall f ensures RemovalReported(a, f) ==> RemovalReported(b, f) {
    }
    assert b.replies[|b.replies| - 1] == Reply(ticket, outcome);
    if outcome == Failed(CleanupFailed) {
      assert RemovalReported(b, ticket);
    }
  }

  lemma AnswerIfAnyKeeps(a: Actor, ticket: Option<Ticket>, outcome: Outcome, but: set<Ticket>)
    requires Honest(a) && Tracked(a) && Accounted(a, but) && (ticket.Some? ==> Sound(a, ticket.value, outcome))
    requires ticket.Some? && outcome == Failed(CleanupFailed) ==> ticket.value !in but
    ensures var b := AnswerIfAny(a, ticket, outcome); Honest(b) && Tracked(b) && Accounted(b, but)
  {
    if ticket.Some? {
      AnswerKeeps(a, ticket.value, outcome, but);
      assert ticket.value !in but ==> but - {ticket.value} == but;
    }
  }

  /** The grant of a request that is no longer pending: gone, or about to be reported. */
  lemma GrantTaken(a: Actor, removal: Removal)
    requires Grants(a) && a.transcription.Some?
    ensures var p := a.transcription.value;
            var b := WithoutGrant(a.(transcription := None), p.ticket, removal);
            && Honest(b) && Tracked(b)
            && Accounted(b, if removal == Stuck then {p.ticket} else {})
            && (removal != Stuck ==> p.ticket !in b.files)
  {
    var p := a.transcription.value;
    var b := WithoutGrant(a.(transcription := None), p.ticket, removal);
    assert b.replies == a.replies && b.files <= a.files;
    forall f | f in b.files && f != p.ticket ensures f < b.issued && Known(b, f) {
      assert Known(a, f);
    }
  }

  lemma ConcludeKeepsGrants(a: Actor, outcome: Outcome, forCancel: Outcome, removal: Removal)
    requires Grants(a) && a.transcription.Some? && outcome != Done && !forCancel.Text?
    ensures Grants(Conclude(a, outcome, forCancel, removal))
  {
    hide Answer, WithoutGrant, Accounted, Honest, Tracked;
    var p, failed := a.transcription.value, RemovalFault(removal);
    var a1 := WithoutGrant(a.(transcription := None), p.ticket, removal);
    var first := if failed.Some? then Failed(failed.value) else outcome;
    var second := if failed.Some? then Failed(failed.value) else forCancel;
    var but := if removal == Stuck then {p.ticket} else {};
    PendingTracked(a);
    GrantTaken(a, removal);
    GrantFields(a, p.ticket, removal);
    AnswerKeeps(a1, p.ticket, first, but);
    AnswerFields(a1, p.ticket, first);
    var a2 := Answer(a1, p.ticket, first);
    assert but - {p.ticket} == {};
    assert first != Failed(CleanupFailed) ==> but == {};
    assert Accounted(a2, {});
    if p.cancelTicket.Some? {
      assert second == Done ==> removal == Removed && p.ticket !in a2.files;
      assert !second.Text?;
      assert Sound(a2, p.cancelTicket.value, second);
    }
    AnswerIfAnyKeeps(a2, p.cancelTicket, second, {});
    ConcludeFields(a, outcome, forCancel, removal);
  }

  lemma PendingTracked(a: Actor)
    requires Tracked(a) && a.transcription.Some?
    ensures var p := a.transcription.value;
            && p.ticket < a.issued && p.ticket !in a.cancels
            && (p.cancelTicket.Some? ==> p.cancelTicket.value in a.cancels && p.cancelTicket.value < a.issued
                                         && a.cancels[p.cancelTicket.value] == p.ticket)
  {
  }

  lemma GrantFields(a: Actor, grant: Ticket, removal: Removal)
    ensures var b := WithoutGrant(a.(transcription := None), grant, removal);
            b == a.(transcription := None, files := b.files)
  {
  }

  lemma FailTranscriptionKeepsGrants(a: Actor, fault: Fault, removal: Removal)
    requires Grants(a)
    ensures Grants(FailTranscription(a, fault, removal))
  {
    hide Answer, WithoutGrant, Accounted, Honest, Tracked;
    if a.transcription.Some? {
      var p, terminal := a.transcription.value, Failed(Or(RemovalFault(removal), fault));
      var a1 := WithoutGrant(a.(transcription := None), p.ticket, removal);
      var but := if removal == Stuck then {p.ticket} else {};
      assert removal == Stuck ==> terminal == Failed(CleanupFailed);
      assert terminal.Failed?;
      hide Or, RemovalFault;
      PendingTracked(a);
      GrantTaken(a, removal);
      GrantFields(a, p.ticket, removal);
      assert p.cancelTicket.Some? ==> p.cancelTicket.value !in but;
      AnswerIfAnyKeeps(a1, p.cancelTicket, terminal, but);
      var a2 := AnswerIfAny(a1, p.cancelTicket, terminal);
      assert a2.issued == a1.issued && a2.cancels == a1.cancels by {
        if p.cancelTicket.Some? { AnswerFields(a1, p.cancelTicket.value, terminal); }
      }
      AnswerKeeps(a2, p.ticket, terminal, but);
      assert but - {p.ticket} == {};
      FailTranscriptionFields(a, fault, removal);
    }
  }

  lemma FailHealthKeepsGrants(a: Actor, fault: Fault)
    requires Grants(a)
    ensures Grants(FailHealth(a, fault))
  {
    if a.health.Some? {
      AnswerHealthKeeps(a, Failed(fault));
    }
  }

  lemma AnswerHealthKeeps(a: Actor, outcome: Outcome)
    requires Grants(a) && a.health.Some? && !outcome.Text?
    ensures Grants(Answer(a.(health := None), a.health.value.ticket, outcome))
  {
    var a1 := a.(health := None);
    assert Grants(a1) by { SlotGone(a, a1); }
    AnswerKeeps(a1, a.health.value.ticket, outcome, {});
    AnswerFields(a1, a.health.value.ticket, outcome);
    assert {} - {a.health.value.ticket} == {};
  }

  /** Only the grants, the pending transcription, and what was said about them matter. */
  lemma SlotGone(a: Actor, b: Actor)
    requires Grants(a)
    requires b.files == a.files && b.transcription == a.transcription && b.replies == a.replies
        && b.cancels == a.cancels
    requires b.issued == a.issued && (b.health == a.health || b.health.None?)
        && (b.shutdown == a.shutdown || b.shutdown.None?)
    requires b.unreported == a.unreported && (b.phase == a.phase || (b.phase != Returned && a.phase != Returned))
    ensures Grants(b)
  {
    forall f | f in b.files ensures f < b.issued && Known(b, f) {
      assert Known(a, f);
    }
  }

  lemma AnswerShutdownKeeps(a: Actor, outcome: Outcome)
    requires Grants(a) && a.shutdown.Some? && !outcome.Text?
    ensures Grants(Answer(a.(shutdown := None), a.shutdown.value.ticket, outcome))
  {
    var a1 := a.(shutdown := None);
    assert Grants(a1) by { SlotGone(a, a1); }
    AnswerKeeps(a1, a.shutdown.value.ticket, outcome, {});
    AnswerFields(a1, a.shutdown.value.ticket, outcome);
    assert {} - {a.shutdown.value.ticket} == {};
  }

  lemma FailAllKeepsGrants(a: Actor, fault: Fault, removal: Removal)
    requires Grants(a)
    ensures Grants(FailAll(a, fault, removal))
  {
    hide Grants, FailHealth, FailTranscription, Answer;
    var a1 := FailHealth(a, fault);
    var a2 := FailTranscription(a1, fault, removal);
    FailHealthKeepsGrants(a, fault);
    FailTranscriptionKeepsGrants(a1, fault, removal);
    if a2.shutdown.Some? {
      AnswerShutdownKeeps(a2, Failed(fault));
    }
  }

  lemma FailProcessKeepsGrants(a: Actor, fault: Fault, removal: Removal)
    requires Grants(a)
    ensures Grants(FailProcess(a, fault, removal))
  {
    hide FailAll;
    FailAllKeepsGrants(a, fault, removal);
    SlotGone(FailAll(a, fault, removal), FailProcess(a, fault, removal));
  }

  lemma ConcludeThenFailKeepsGrants(a: Actor, outcome: Outcome, forCancel: Outcome, fault: Fault, removal: Removal)
    requires Grants(a) && a.transcription.Some? && outcome != Done && !forCancel.Text?
    ensures Grants(FailProcess(Conclude(a, outcome, forCancel, removal), fault, removal))
  {
    hide Grants, Conclude, FailProcess;
    ConcludeKeepsGrants(a, outcome, forCancel, removal);
    FailProcessKeepsGrants(Conclude(a, outcome, forCancel, removal), fault, removal);
  }

  // ---------------------------------------------------------------- messages and deadlines

  lemma CompleteHealthKeepsGrants(a: Actor, id: Option<Wire.Uuid>, engine: Wire.Engine, model: string,
                                  status: HealthStatus, removal: Removal)
    requires Grants(a)
    ensures Grants(CompleteHealth(a, id, engine, model, status, removal))
  {
    hide Grants, Answer, FailProcess;
    FailProcessKeepsGrants(a, ProtocolViolated, removal);
    if a.health.Some? {
      var p, a1 := a.health.value, a.(health := None);
      AnswerHealthKeeps(a, Failed(ProtocolViolated));
      FailProcessKeepsGrants(Answer(a1, p.ticket, Failed(ProtocolViolated)), ProtocolViolated, removal);
      AnswerHealthKeeps(a, HealthIs(status));
    }
  }

  lemma CompleteErrorKeepsGrants(a: Actor, m: Message, removal: Removal)
    requires Grants(a) && m.WorkerError?
    ensures Grants(CompleteError(a, m, removal))
  {
    hide Grants, Conclude, FailProcess, Answer, MapWorkerError;
    var mapped := MapWorkerError(m.code, m.retryable, m.key);
    FailProcessKeepsGrants(a, ProtocolViolated, removal);
    if ConcernsTranscription(a, m.errorSession, m.errorRequest) {
      var outcome := Failed(Or(a.transcription.value.terminalFault, mapped));
      ConcludeKeepsGrants(a, outcome, Failed(mapped), removal);
      FailProcessKeepsGrants(Conclude(a, outcome, Failed(mapped), removal), mapped, removal);
    } else if ConcernsHealth(a, m.errorSession, m.errorRequest) {
      var a1 := Answer(a.(health := None), a.health.value.ticket, Failed(mapped));
      AnswerHealthKeeps(a, Failed(mapped));
      FailProcessKeepsGrants(a1, mapped, removal);
    }
  }

  lemma CompleteShutdownKeepsGrants(a: Actor, removal: Removal)
    requires Grants(a)
    ensures Grants(CompleteShutdown(a, removal))
  {
    hide Grants, Conclude, FailProcess, Answer;
    FailProcessKeepsGrants(a, ProtocolViolated, removal);
    if a.shutdown.Some? {
      var a1 := a.(shutdown := None);
      var a2 := if a1.transcription.Some? then Conclude(a1, Failed(SupervisorClosed), Done, removal) else a1;
      var a2' := if a.transcription.Some? then Conclude(a, Failed(SupervisorClosed), Done, removal) else a;
      if a.transcription.Some? {
        ConcludeKeepsGrants(a, Failed(SupervisorClosed), Done, removal);
        ConcludeFields(a, Failed(SupervisorClosed), Done, removal);
        ConcludeSkipsShutdown(a, Failed(SupervisorClosed), Done, removal);
      }
      assert a2 == a2'.(shutdown := None) && a2'.shutdown == a.shutdown;
      AnswerShutdownKeeps(a2', Done) by { ShutdownIsNoCancel(a2'); }
      SlotGone(Answer(a2, a.shutdown.value.ticket, Done), CompleteShutdown(a, removal)) by {
        AnswerFields(a2, a.shutdown.value.ticket, Done);
      }
    }
  }

  lemma ShutdownIsNoCancel(a: Actor)
    requires Grants(a) && a.shutdown.Some?
    ensures a.shutdown.value.ticket !in a.cancels
  {
  }

  lemma ConcludeSkipsShutdown(a: Actor, outcome: Outcome, forCancel: Outcome, removal: Removal)
    requires a.transcription.Some?
    ensures Conclude(a.(shutdown := None), outcome, forCancel, removal)
        == Conclude(a, outcome, forCancel, removal).(shutdown := None)
  {
  }

  lemma ReceiveKeepsGrants(a: Actor, d: Delivery, removal: Removal)
    requires Grants(a)
    ensures Grants(Receive(a, d, removal))
  {
    hide Grants, FailProcess, CompleteHealth, CompleteError, CompleteShutdown, Conclude;
    FailProcessKeepsGrants(a, ProtocolViolated, removal);
    if a.process && d.Delivered? && d.allowed {
      if a.transcription.Some? {
        ConcludeThenFailKeepsGrants(a, Failed(ProtocolViolated), Failed(ProtocolViolated), ProtocolViolated, removal);
      }
      match d.message
      case HealthResult(id, engine, model, status) => CompleteHealthKeepsGrants(a, id, engine, model, status, removal);
      case Transcript(_, _, _, _, text) =>
        if a.transcription.Some? {
          ConcludeKeepsGrants(a, Text(a.transcription.value.request, text), Done, removal);
        }
      case Cancelled(session, id) =>
        if a.transcription.Some? {
          ConcludeKeepsGrants(a, Failed(Or(a.transcription.value.terminalFault, WasCancelled)), Done, removal);
        }
      case WorkerError(_, _, _, _, _, _) => CompleteErrorKeepsGrants(a, d.message, removal);
      case ShutdownComplete => CompleteShutdownKeepsGrants(a, removal);
      case Ready =>
    }
  }

  /** Changing the pending request's timer leaves its grant alone. */
  lemma RetimedKeepsGrants(a: Actor, b: Actor)
    requires Grants(a) && a.transcription.Some? && b.transcription.Some?
    requires SamePending(a.transcription.value, b.transcription.value)
    requires b.files == a.files && b.replies == a.replies && b.cancels == a.cancels && b.issued == a.issued
    requires b.health == a.health && b.shutdown == a.shutdown && b.phase == a.phase && b.unreported == a.unreported
    ensures Grants(b)
  {
    forall f | f in b.files ensures f < b.issued && Known(b, f) {
      assert Known(a, f);
    }
  }

  lemma EnforceKeepsGrants(a: Actor, c: Config, w: World)
    requires Grants(a)
    ensures Grants(EnforceDeadlines(a, c, w))
  {
    hide Grants, FailProcess, FailHealth;
    if HealthExpired(a) {
      FailHealthKeepsGrants(a, TimedOut);
      FailProcessKeepsGrants(FailHealth(a, TimedOut), TimedOut, w.removal);
    } else {
      var a1 := if RequestExpired(a) then CancelForDeadline(a, c, w) else a;
      if RequestExpired(a) {
        if w.sending.Some? {
          FailProcessKeepsGrants(a, w.sending.value, w.removal);
        } else {
          RetimedKeepsGrants(a, a1);
        }
      }
      FailProcessKeepsGrants(a1, TimedOut, w.removal);
    }
  }

  // ---------------------------------------------------------------- commands

  /** The ticket of the command at hand has left no trace yet. */
  ghost predicate Unused(a: Actor, ticket: Ticket) {
    && ticket < a.issued && ticket !in a.files && ticket !in a.cancels
    && (forall t :: t in a.cancels ==> a.cancels[t] != ticket)
    && (forall r :: r in a.replies ==> r.ticket != ticket)
    && (a.health.Some? ==> a.health.value.ticket != ticket)
    && (a.shutdown.Some? ==> a.shutdown.value.ticket != ticket)
    && (a.transcription.Some? ==> a.transcription.value.ticket != ticket)
  }

  lemma NewTicket(a: Actor)
    requires Grants(a)
    ensures Grants(a.(issued := a.issued + 1)) && Unused(a.(issued := a.issued + 1), a.issued)
  {
    var b := a.(issued := a.issued + 1);
    forall f | f in b.files ensures f < a.issued && Known(b, f) {
      assert Known(a, f);
    }
  }

  lemma RefuseKeepsGrants(a: Actor, ticket: Ticket, outcome: Outcome)
    requires Grants(a) && Unused(a, ticket) && !outcome.Text?
    ensures Grants(Answer(a, ticket, outcome))
  {
    AnswerKeeps(a, ticket, outcome, {});
    AnswerFields(a, ticket, outcome);
    assert {} - {ticket} == {};
  }

  lemma Started(a: Actor, ticket: Ticket)
    requires Grants(a) && Unused(a, ticket)
    ensures Grants(a.(process := true)) && Unused(a.(process := true), ticket)
  {
    SlotGone(a, a.(process := true));
  }

  lemma StartHealthKeepsGrants(a: Actor, c: Config, engine: Wire.Engine, ticket: Ticket, w: World)
    requires Grants(a) && Unused(a, ticket)
    ensures Grants(StartHealth(a, c, engine, ticket, w))
  {
    hide Answer, FailProcess;
    var a1, b := a.(process := true), StartHealth(a, c, engine, ticket, w);
    if a.shutdown.Some? || a.health.Some? || a.transcription.Some? || (!a.process && w.spawning.Some?) {
      RefuseKeepsGrants(a, ticket, Failed(SupervisorClosed));
      RefuseKeepsGrants(a, ticket, Failed(Busy));
      RefuseKeepsGrants(a, ticket, Failed(Or(w.spawning, Busy)));
    } else if w.sending.Some? {
      Started(a, ticket);
      RefuseKeepsGrants(a1, ticket, Failed(w.sending.value));
      FailProcessKeepsGrants(Answer(a1, ticket, Failed(w.sending.value)), w.sending.value, w.removal);
    } else {
      forall f | f in b.files ensures f < b.issued && Known(b, f) {
        assert Known(a, f);
      }
    }
  }

  /** A grant that was made and could not be taken back is reported at once. */
  lemma BrokenGrantKeeps(a: Actor, ticket: Ticket, removal: Removal, fault: Fault)
    requires Grants(a) && Unused(a, ticket)
    ensures Grants(Answer(WithoutGrant(a.(files := a.files + {ticket}), ticket, removal), ticket,
                          Failed(Or(RemovalFault(removal), fault))))
  {
    var a1 := WithoutGrant(a.(files := a.files + {ticket}), ticket, removal);
    var outcome := Failed(Or(RemovalFault(removal), fault));
    assert a1 == a.(files := a1.files) && a1.files <= a.files + {ticket} && (removal != Stuck ==> a1.files == a.files);
    forall f | f in a1.files && f != ticket ensures f < a1.issued && Known(a1, f) {
      assert Known(a, f);
    }
    AnswerKeeps(a1, ticket, outcome, if removal == Stuck then {ticket} else {});
    AnswerFields(a1, ticket, outcome);
    assert {ticket} - {ticket} == {} && {} - {ticket} == {};
  }

  lemma SendTranscriptionKeepsGrants(a: Actor, c: Config, request: Request, ticket: Ticket, w: World)
    requires Grants(a) && Unused(a, ticket) && a.transcription.None? && a.phase != Returned
    ensures Grants(SendTranscription(a, c, request, ticket, w))
  {
    hide Answer, FailProcess;
    var b := SendTranscription(a, c, request, ticket, w);
    if w.sending.Some? {
      hide Grants, WithoutGrant;
      BrokenGrantKeeps(a, ticket, w.removal, w.sending.value);
      FailProcessKeepsGrants(Answer(WithoutGrant(a.(files := a.files + {ticket}), ticket, w.removal), ticket,
                                    Failed(Or(RemovalFault(w.removal), w.sending.value))), w.sending.value, w.removal);
    } else {
      forall f | f in b.files ensures f < b.issued && Known(b, f) {
        assert f != ticket ==> Known(a, f);
      }
    }
  }

  lemma StartTranscriptionKeepsGrants(a: Actor, c: Config, request: Request, ticket: Ticket, w: World)
    requires Grants(a) && Unused(a, ticket) && a.phase != Returned
    ensures Grants(StartTranscription(a, c, request, ticket, w))
  {
    hide Answer, SendTranscription, Grants, Unused;
    var a1 := a.(process := true);
    Started(a, ticket);
    forall o: Outcome | !o.Text? ensures Grants(Answer(a, ticket, o)) && Grants(Answer(a1, ticket, o)) {
      RefuseKeepsGrants(a, ticket, o);
      RefuseKeepsGrants(a1, ticket, o);
    }
    if a.transcription.None? {
      SendTranscriptionKeepsGrants(a1, c, request, ticket, w);
      BrokenGrantKeeps(a1, ticket, Stuck, ArtifactUnusable);
      AbandonedKeeps(a1, ticket);
    }
  }

  /** A copy that was abandoned leaves its audio on the silent side of the account. */
  lemma AbandonedKeeps(a: Actor, ticket: Ticket)
    requires Grants(a) && Unused(a, ticket)
    ensures Grants(Answer(a.(files := a.files + {ticket}, unreported := a.unreported + {ticket}), ticket,
                          Failed(ArtifactUnusable)))
  {
    var a1 := a.(files := a.files + {ticket}, unreported := a.unreported + {ticket});
    forall f | f in a1.files ensures f < a1.issued && Known(a1, f) {
      assert f != ticket ==> Known(a, f);
    }
    AnswerKeeps(a1, ticket, Failed(ArtifactUnusable), {});
    AnswerFields(a1, ticket, Failed(ArtifactUnusable));
  }

  lemma CancelTranscriptionKeepsGrants(a: Actor, c: Config, id: Wire.Uuid, ticket: Ticket, w: World)
    requires Grants(a) && Unused(a, ticket)
    ensures Grants(CancelTranscription(a, c, id, ticket, w))
  {
    hide Answer, FailProcess;
    var b := CancelTranscription(a, c, id, ticket, w);
    if a.transcription.None? || a.transcription.value.request.id != id {
      RefuseKeepsGrants(a, ticket, Done);
    } else if a.transcription.value.cancelTicket.Some? {
      RefuseKeepsGrants(a, ticket, Failed(CancelPending));
    } else if w.sending.Some? {
      RefuseKeepsGrants(a, ticket, Failed(w.sending.value));
      FailProcessKeepsGrants(Answer(a, ticket, Failed(w.sending.value)), w.sending.value, w.removal);
    } else {
      forall f | f in b.files ensures f < b.issued && Known(b, f) {
        assert Known(a, f);
      }
    }
  }

  lemma StartShutdownKeepsGrants(a: Actor, c: Config, close: bool, ticket: Ticket, w: World)
    requires Grants(a) && Unused(a, ticket)
    ensures Grants(StartShutdown(a, c, close, ticket, w).0)
  {
    hide Answer, FailProcess, FailHealth;
    var a1, b := FailHealth(a, SupervisorClosed), StartShutdown(a, c, close, ticket, w).0;
    if a.shutdown.Some? || (!close && (a.health.Some? || a.transcription.Some?)) || !a.process {
      RefuseKeepsGrants(a, ticket, Failed(SupervisorClosed));
      RefuseKeepsGrants(a, ticket, Failed(Busy));
      RefuseKeepsGrants(a, ticket, Done);
    } else {
      FailHealthKeepsGrants(a, SupervisorClosed);
      FailHealthUnused(a, ticket);
      FailHealthFields(a, SupervisorClosed);
      if w.sending.Some? {
        RefuseKeepsGrants(a1, ticket, Failed(w.sending.value));
        FailProcessKeepsGrants(Answer(a1, ticket, Failed(w.sending.value)), w.sending.value, w.removal);
      } else {
        ShuttingDownKeepsGrants(a1, b, ticket);
      }
    }
  }

  lemma FailHealthUnused(a: Actor, ticket: Ticket)
    requires Unused(a, ticket)
    ensures Unused(FailHealth(a, SupervisorClosed), ticket)
  {
  }

  lemma ShuttingDownKeepsGrants(a: Actor, b: Actor, ticket: Ticket)
    requires Grants(a) && Unused(a, ticket) && a.health.None?
    requires b.shutdown.Some? && b.shutdown.value.ticket == ticket
        && b == a.(shutdown := b.shutdown, transcription := b.transcription, now := b.now)
    requires b.transcription.Some? == a.transcription.Some?
    requires a.transcription.Some? ==> SamePending(a.transcription.value, b.transcription.value)
    ensures Grants(b)
  {
    forall f | f in b.files ensures f < b.issued && Known(b, f) {
      assert Known(a, f);
    }
  }

  // ---------------------------------------------------------------- every run

  lemma HandleKeepsGrants(a: Actor, c: Config, command: Command, w: World)
    requires Grants(a) && a.phase != Returned
    ensures Grants(Handle(a, c, command, w).0)
  {
    hide StartHealth, StartTranscription, CancelTranscription, StartShutdown, Honest, Accounted, Unused;
    var a1 := a.(issued := a.issued + 1);
    NewTicket(a);
    match command
    case Health(engine) => StartHealthKeepsGrants(a1, c, engine, a.issued, w);
    case Transcribe(request) => StartTranscriptionKeepsGrants(a1, c, request, a.issued, w);
    case Cancel(id) => CancelTranscriptionKeepsGrants(a1, c, id, a.issued, w);
    case Shutdown(close) => StartShutdownKeepsGrants(a1, c, close, a.issued, w);
  }

  lemma LeaveKeepsGrants(a: Actor, removal: Removal)
    requires Grants(a)
    ensures Grants(Leave(a, removal))
  {
    var b := Leave(a, removal);
    assert b.files <= a.files && b.replies == a.replies;
    forall f | f in b.files ensures f < b.issued && Known(b, f) {
      assert Known(a, f);
    }
  }

  lemma NextKeepsGrants(a: Actor, c: Config, step: Step)
    requires Grants(a)
    ensures Grants(Next(a, c, step))
  {
    hide Grants, Receive, EnforceDeadlines, Handle, FailAll, Leave;
    match step
    case Tick(elapsed) => SlotGone(a, Next(a, c, step));
    case Deliver(d, removal) => ReceiveKeepsGrants(a, d, removal);
    case Sweep(w) =>
      LeaveKeepsGrants(a, w.removal);
      EnforceKeepsGrants(a, c, w);
      if a.phase == Draining && !a.closed {
        EnforceMoves(a, c, w);
        SlotGone(EnforceDeadlines(a, c, w), Next(a, c, step));
      }
    case Idle =>
      if a.phase == Receiving {
        SlotGone(a, Next(a, c, step));
      }
    case Dequeue(command, w) =>
      if a.phase == Receiving {
        HandleKeepsGrants(a, c, command, w);
        var b := Handle(a, c, command, w).0;
        LeaveKeepsGrants(b, w.removal);
        HandleKeepsPhase(a, c, command, w);
        SlotGone(b, b.(phase := Draining));
      }
    case Disconnect(removal) =>
      FailAllKeepsGrants(a, SupervisorClosed, removal);
      LeaveKeepsGrants(FailAll(a, SupervisorClosed, removal), removal);
  }

  lemma HandleKeepsPhase(a: Actor, c: Config, command: Command, w: World)
    ensures Handle(a, c, command, w).0.phase == a.phase
  {
    hide StartHealth, StartTranscription, CancelTranscription, StartShutdown;
    var a1 := a.(issued := a.issued + 1);
    match command
    case Health(engine) => StartHealthMoves(a1, c, engine, a.issued, w);
    case Transcribe(request) => StartTranscriptionMoves(a1, c, request, a.issued, w);
    case Cancel(id) => CancelTranscriptionMoves(a1, c, id, a.issued, w);
    case Shutdown(close) => StartShutdownMoves(a1, c, close, a.issued, w);
  }

  lemma {:induction false} RunKeepsGrants(a: Actor, c: Config, steps: seq<Step>)
    requires Grants(a)
    ensures Grants(Run(a, c, steps))
    decreases |steps|
  {
    hide Grants, Next;
    if steps != [] {
      NextKeepsGrants(a, c, steps[0]);
      RunKeepsGrants(Next(a, c, steps[0]), c, steps[1..]);
    }
  }
}
