/** What each command is answered at once, what its slot holds when it is taken on, and
    what the messages of the worker tell whom. */
module SupervisorAnswers {
  import opened Wrappers
  import Wire = WorkerProtocol
  import opened Supervisor
  import opened SupervisorBooks
  import opened SupervisorRuns
  import opened SupervisorReplies
  import opened SupervisorTimers

  /** To what was said before, an answer to this ticket was added. */
  predicate Tells(before: seq<Reply>, after: seq<Reply>, ticket: Ticket, outcome: Outcome) {
    |after| > |before| && after[..|before|] == before && Reply(ticket, outcome) in after[|before|..]
  }

  lemma AnswerTells(before: seq<Reply>, b: Actor, ticket: Ticket, outcome: Outcome)
    requires |b.replies| >= |before| && b.replies[..|before|] == before
    ensures Tells(before, Answer(b, ticket, outcome).replies, ticket, outcome)
  {
    var after := Answer(b, ticket, outcome).replies;
    assert after[|before|..][|b.replies| - |before|] == Reply(ticket, outcome);
    assert after[..|before|] == b.replies[..|before|];
  }

  /** What was told stays told when the process fails. */
  lemma FailureKeepsTold(before: seq<Reply>, b: Actor, fault: Fault, removal: Removal, ticket: Ticket, outcome: Outcome)
    requires Tells(before, b.replies, ticket, outcome)
    ensures Tells(before, FailProcess(b, fault, removal).replies, ticket, outcome)
    ensures NothingPending(FailProcess(b, fault, removal)) && !FailProcess(b, fault, removal).process
  {
    hide FailProcess;
    FailureAppends(b, fault, removal);
    FailProcessTears(b, fault, removal);
    var after := FailProcess(b, fault, removal).replies;
    var i :| 0 <= i < |b.replies[|before|..]| && b.replies[|before|..][i] == Reply(ticket, outcome);
    assert after[|before|..][i] == after[..|b.replies|][|before| + i];
    assert after[..|before|] == after[..|b.replies|][..|before|];
  }

  /** Answering and then failing the process, as far as this caller is concerned. */
  lemma AnsweredThenFailed(before: seq<Reply>, b: Actor, fault: Fault, removal: Removal, ticket: Ticket,
                           outcome: Outcome)
    requires |b.replies| >= |before| && b.replies[..|before|] == before
    ensures var d := FailProcess(Answer(b, ticket, outcome), fault, removal);
            Tells(before, d.replies, ticket, outcome) && NothingPending(d) && !d.process
  {
    AnswerTells(before, b, ticket, outcome);
    FailureKeepsTold(before, Answer(b, ticket, outcome), fault, removal, ticket, outcome);
  }

  lemma FailureAppends(a: Actor, fault: Fault, removal: Removal)
    ensures var b := FailProcess(a, fault, removal); |b.replies| >= |a.replies| && b.replies[..|a.replies|] == a.replies
  {
    hide FailHealth, FailTranscription, FailShutdown;
    var a1 := FailHealth(a, fault);
    var a2 := FailTranscription(a1, fault, removal);
    assert a1.replies[..|a.replies|] == a.replies && |a1.replies| >= |a.replies| by { FailHealthAppends(a, fault); }
    assert a2.replies[..|a1.replies|] == a1.replies && |a2.replies| >= |a1.replies| by {
      FailTranscriptionAppends(a1, fault, removal);
    }
    var a3 := FailShutdown(a2, fault);
    assert a3.replies[..|a2.replies|] == a2.replies && |a3.replies| >= |a2.replies| by {
      FailShutdownAppends(a2, fault);
    }
    assert a2.replies[..|a.replies|] == a2.replies[..|a1.replies|][..|a.replies|];
    assert a3.replies[..|a.replies|] == a3.replies[..|a2.replies|][..|a.replies|];
  }

  lemma FailHealthAppends(a: Actor, fault: Fault)
    ensures var b := FailHealth(a, fault); |b.replies| >= |a.replies| && b.replies[..|a.replies|] == a.replies
  {
  }

  lemma FailTranscriptionAppends(a: Actor, fault: Fault, removal: Removal)
    ensures var b := FailTranscription(a, fault, removal);
            |b.replies| >= |a.replies| && b.replies[..|a.replies|] == a.replies
  {
  }

  lemma FailShutdownAppends(a: Actor, fault: Fault)
    ensures var b := FailShutdown(a, fault); |b.replies| >= |a.replies| && b.replies[..|a.replies|] == a.replies
  {
  }

  // ---------------------------------------------------------------- commands

  /** There is a process, or one can be started. */
  predicate CanStart(a: Actor, w: World) {
    a.process || w.spawning.None?
  }

  predicate SlotsKept(a: Actor, b: Actor) {
    b.health == a.health && b.transcription == a.transcription && b.shutdown == a.shutdown
    && b.process == a.process && b.files == a.files && b.now == a.now
  }

  /** A health check is taken on exactly when nothing is pending, a worker is there, and
      the message gets through; otherwise its caller learns why. */
  lemma HealthAnswered(a: Actor, c: Config, engine: Wire.Engine, w: World)
    requires a.phase == Receiving
    ensures var b := Next(a, c, Dequeue(Health(engine), w));
            && (a.shutdown.Some? ==> Tells(a.replies, b.replies, a.issued, Failed(SupervisorClosed)))
            && (a.shutdown.None? && !NothingPending(a) ==> Tells(a.replies, b.replies, a.issued, Failed(Busy)))
            && (NothingPending(a) && !CanStart(a, w)
                ==> Tells(a.replies, b.replies, a.issued, Failed(w.spawning.value)))
            && (!NothingPending(a) || !CanStart(a, w) ==> SlotsKept(a, b))
    ensures NothingPending(a) && CanStart(a, w) ==>
              var b := Next(a, c, Dequeue(Health(engine), w));
              if w.sending.Some? then
                Tells(a.replies, b.replies, a.issued, Failed(w.sending.value)) && !b.process && NothingPending(b)
              else
                && b.replies == a.replies && b.process && b.transcription.None? && b.shutdown.None? && b.health.Some?
                && b.now == a.now + w.lag
                && var p := b.health.value;
                   && p.id == w.newId && p.engine == engine && p.ticket == a.issued && p.acceptedAt == b.now
                   && p.model == if engine == Wire.Qwen then c.qwenModel else c.whisperModel
  {
    hide FailProcess, Tells;
    var a1 := a.(issued := a.issued + 1);
    forall o ensures Tells(a.replies, Answer(a1, a.issued, o).replies, a.issued, o) {
      AnswerTells(a.replies, a1, a.issued, o);
    }
    if w.sending.Some? {
      AnsweredThenFailed(a.replies, a1.(process := true), w.sending.value, w.removal, a.issued,
                         Failed(w.sending.value));
    }
  }

  /** What is wrong with the audio before anything is sent. */
  function AudioFault(w: World): Option<Fault> {
    match (w.source, w.copying)
    case (Absent, _) => Some(ArtifactMissing)
    case (Refused(fault), _) => Some(fault)
    case (Found, Copied) => None
    case (Found, BrokenOff(removed)) => if removed then Some(ArtifactUnusable) else Some(CleanupFailed)
    case (Found, _) => Some(ArtifactUnusable)
  }

  /** A transcription is refused at once while something is pending, without a worker,
      and where its audio cannot be copied. */
  lemma TranscriptionRefused(a: Actor, c: Config, request: Request, w: World)
    requires a.phase == Receiving
    ensures var b := Next(a, c, Dequeue(Transcribe(request), w));
            && (a.shutdown.Some? ==> Tells(a.replies, b.replies, a.issued, Failed(SupervisorClosed)))
            && (a.shutdown.None? && !NothingPending(a) ==> Tells(a.replies, b.replies, a.issued, Failed(Busy)))
            && (NothingPending(a) && !CanStart(a, w)
                ==> Tells(a.replies, b.replies, a.issued, Failed(w.spawning.value)))
            && (!NothingPending(a) || !CanStart(a, w) ==> SlotsKept(a, b))
            && (NothingPending(a) && CanStart(a, w) && AudioFault(w).Some? ==>
                  && Tells(a.replies, b.replies, a.issued, Failed(AudioFault(w).value))
                  && b.process && NothingPending(b))
  {
    hide SendTranscription, Tells;
    var a1 := a.(issued := a.issued + 1);
    forall b: Actor, o | b.replies == a.replies ensures Tells(a.replies, Answer(b, a.issued, o).replies, a.issued, o) {
      AnswerTells(a.replies, b, a.issued, o);
    }
  }

  /** Otherwise it is sent, and taken on exactly when the message gets through. */
  lemma TranscriptionSent(a: Actor, c: Config, request: Request, w: World)
    requires a.phase == Receiving && NothingPending(a) && CanStart(a, w) && AudioFault(w).None?
    ensures var b := Next(a, c, Dequeue(Transcribe(request), w));
            if w.sending.Some? then
              && Tells(a.replies, b.replies, a.issued,
                       Failed(if w.removal == Removed then w.sending.value else CleanupFailed))
              && !b.process && NothingPending(b)
            else
              && b.replies == a.replies && b.process && b.health.None? && b.shutdown.None? && b.transcription.Some?
              && b.files == a.files + {a.issued} && b.now == a.now + w.lag
              && var p := b.transcription.value;
                 && p.request == request && p.ticket == a.issued && p.acceptedAt == b.now
                 && p.model == (if request.engine == Wire.Qwen then c.qwenModel else c.whisperModel)
                 && p.cancelDeadline.None? && p.terminalFault.None? && p.cancelTicket.None?
  {
    hide FailProcess, Tells, Answer;
    if w.sending.Some? {
      var a2 := a.(issued := a.issued + 1, process := true, files := a.files + {a.issued});
      AnsweredThenFailed(a.replies, WithoutGrant(a2, a.issued, w.removal), w.sending.value, w.removal, a.issued,
                         Failed(if w.removal == Removed then w.sending.value else CleanupFailed));
    }
  }

  predicate Mine(a: Actor, id: Wire.Uuid) {
    a.transcription.Some? && a.transcription.value.request.id == id
  }

  /** A cancellation of anything but the pending request succeeds at once. The first one
      of the pending request is taken on if the message gets through, and then nothing
      but the request's fate and timer changes. */
  lemma CancelAnswered(a: Actor, c: Config, id: Wire.Uuid, w: World)
    requires a.phase == Receiving
    ensures var b := Next(a, c, Dequeue(Cancel(id), w));
            && (!Mine(a, id) ==> Tells(a.replies, b.replies, a.issued, Done) && SlotsKept(a, b))
            && (Mine(a, id) && a.transcription.value.cancelTicket.Some?
                ==> Tells(a.replies, b.replies, a.issued, Failed(CancelPending)) && SlotsKept(a, b))
    ensures Mine(a, id) && a.transcription.value.cancelTicket.None? ==>
              var b := Next(a, c, Dequeue(Cancel(id), w));
              if w.sending.Some? then
                Tells(a.replies, b.replies, a.issued, Failed(w.sending.value)) && !b.process && NothingPending(b)
              else
                && b.replies == a.replies && b.process == a.process && b.files == a.files
                && b.health == a.health && b.shutdown == a.shutdown && b.now == a.now + w.lag && b.transcription.Some?
                && var p, q := a.transcription.value, b.transcription.value;
                   && q == p.(cancelTicket := Some(a.issued), terminalFault := Some(WasCancelled),
                              cancelDeadline := q.cancelDeadline)
                   && q.cancelDeadline.Some? && StandsAt(c, q.cancelDeadline.value, b.now, c.cancelTimeout)
  {
    hide FailProcess, Tells;
    var a1 := a.(issued := a.issued + 1);
    AnswerTells(a.replies, a1, a.issued, Done);
    AnswerTells(a.replies, a1, a.issued, Failed(CancelPending));
    if w.sending.Some? {
      AnsweredThenFailed(a.replies, a1, w.sending.value, w.removal, a.issued, Failed(w.sending.value));
    }
  }

  /** Another shutdown is pending, or this one may not interrupt what is. */
  predicate Blocked(a: Actor, close: bool) {
    a.shutdown.Some? || (!close && !NothingPending(a))
  }

  /** A shutdown that closes may interrupt, any other needs an idle worker. Without a
      worker it is done at once, and returns if it closes. */
  lemma ShutdownAnswered(a: Actor, c: Config, close: bool, w: World)
    requires a.phase == Receiving
    ensures var b := Next(a, c, Dequeue(Shutdown(close), w));
            && (a.shutdown.Some? ==> Tells(a.replies, b.replies, a.issued, Failed(SupervisorClosed)))
            && (a.shutdown.None? && Blocked(a, close) ==> Tells(a.replies, b.replies, a.issued, Failed(Busy)))
            && (!Blocked(a, close) && !a.process ==> Tells(a.replies, b.replies, a.issued, Done))
            && (Blocked(a, close) ==> SlotsKept(a, b))
            && (b.phase == Returned <==> !Blocked(a, close) && close && (!a.process || w.sending.Some?))
  {
    hide FailProcess, Tells, FailHealth;
    var a1 := a.(issued := a.issued + 1);
    AnswerTells(a.replies, a1, a.issued, Failed(SupervisorClosed));
    AnswerTells(a.replies, a1, a.issued, Failed(Busy));
    AnswerTells(a.replies, a1, a.issued, Done);
  }

  /** With a worker it is sent. */
  lemma ShutdownSent(a: Actor, c: Config, close: bool, w: World)
    requires a.phase == Receiving && !Blocked(a, close) && a.process
    ensures var b := Next(a, c, Dequeue(Shutdown(close), w));
            if w.sending.Some? then
              Tells(a.replies, b.replies, a.issued, Failed(w.sending.value)) && !b.process && NothingPending(b)
            else ShutdownTaken(a, b, close, a.now + w.lag)
  {
    hide FailProcess, Tells, FailHealth, Answer;
    var a1 := a.(issued := a.issued + 1);
    FailHealthFields(a1, SupervisorClosed);
    FailHealthAppends(a1, SupervisorClosed);
    HealthToldClosed(a, a1);
    if w.sending.Some? {
      AnsweredThenFailed(a.replies, FailHealth(a1, SupervisorClosed), w.sending.value, w.removal, a.issued,
                         Failed(w.sending.value));
    }
  }

  lemma HealthToldClosed(a: Actor, a1: Actor)
    requires a1 == a.(issued := a1.issued)
    ensures a.health.Some? ==> Tells(a.replies, FailHealth(a1, SupervisorClosed).replies, a.health.value.ticket,
                                     Failed(SupervisorClosed))
    ensures a.health.None? ==> FailHealth(a1, SupervisorClosed).replies == a.replies
  {
    if a.health.Some? {
      AnswerTells(a.replies, a1.(health := None), a.health.value.ticket, Failed(SupervisorClosed));
    }
  }

  /** A pending health check is told, a pending request gets the shutdown's timer and
      will be told of it. */
  predicate ShutdownTaken(a: Actor, b: Actor, close: bool, at: Time) {
    && b.process && b.health.None? && b.shutdown.Some? && b.now == at
    && b.shutdown.value.ticket == a.issued && b.shutdown.value.close == close && b.shutdown.value.acceptedAt == at
    && (if a.health.Some?
        then Tells(a.replies, b.replies, a.health.value.ticket, Failed(SupervisorClosed))
        else b.replies == a.replies)
    && (a.transcription.None? <==> b.transcription.None?)
    && (a.transcription.Some? ==>
          b.transcription.value == a.transcription.value.(terminalFault := Some(SupervisorClosed),
                                                          cancelDeadline := Some(b.shutdown.value.deadline)))
  }

  // ---------------------------------------------------------------- messages

  /** The fault a worker's error stands for. */
  lemma WorkerErrorMeans(code: Wire.ErrorCode, retryable: bool, key: string)
    ensures var fault := MapWorkerError(code, retryable, key);
            && (fault == TimedOut <==> key == "worker.error.deadline_exceeded")
            && (fault.NoSpeech? <==> && code == Wire.InferenceFailed
                                     && key in {"worker.qwen.empty_transcript", "worker.whisper.empty_transcript"})
            && (fault.NoSpeech? ==> fault == NoSpeech(key))
            && (fault != TimedOut && !fault.NoSpeech? ==> fault == Fault.Reported(code, key, retryable))
  {
  }

  /** What the request and its cancellation are told when the request ends. */
  lemma ConcludeTells(a: Actor, outcome: Outcome, forCancel: Outcome, removal: Removal)
    requires a.transcription.Some?
    ensures var p, b := a.transcription.value, Conclude(a, outcome, forCancel, removal);
            && Tells(a.replies, b.replies, p.ticket, if removal == Removed then outcome else Failed(CleanupFailed))
            && (p.cancelTicket.Some? ==>
                  Tells(a.replies, b.replies, p.cancelTicket.value,
                        if removal == Removed then forCancel else Failed(CleanupFailed)))
            && b.transcription.None? && b.health == a.health && b.shutdown == a.shutdown && b.process == a.process
            && b.files == if removal == Stuck then a.files else a.files - {p.ticket}
  {
    var p, b := a.transcription.value, Conclude(a, outcome, forCancel, removal);
    assert b.replies[..|a.replies|] == a.replies;
    assert b.replies[|a.replies|..][0]
        == Reply(p.ticket, if removal == Removed then outcome else Failed(CleanupFailed));
    if p.cancelTicket.Some? {
      assert b.replies[|a.replies|..][1]
          == Reply(p.cancelTicket.value, if removal == Removed then forCancel else Failed(CleanupFailed));
    }
  }

  /** A pending health check is answered with the worker's status exactly by a result
      that the guard allows and that is about this check, engine and model. */
  lemma HealthAnsweredIff(a: Actor, d: Delivery, removal: Removal, status: HealthStatus)
    requires a.process && a.health.Some?
    requires forall r :: r in a.replies ==> r.ticket != a.health.value.ticket
    requires a.transcription.None? && (a.shutdown.Some? ==> a.shutdown.value.ticket != a.health.value.ticket)
    ensures var p := a.health.value;
            Reply(p.ticket, HealthIs(status)) in Receive(a, d, removal).replies
            <==> d.Delivered? && d.allowed && d.message == HealthResult(Some(p.id), p.engine, p.model, status)
  {
    hide FailProcess, MapWorkerError;
    forall b: Actor, fault, r: Reply | r.outcome.HealthIs?
      ensures r in FailProcess(b, fault, removal).replies <==> r in b.replies {
      FailProcessOnlyFails(b, fault, removal);
    }
  }

  /** The confirmation of a cancellation ends the pending request with what was decided
      about it: the timeout, the shutdown, or that it was cancelled. */
  lemma CancelledTells(a: Actor, m: Message, removal: Removal)
    requires a.process && a.transcription.Some? && m.Cancelled?
    requires m.session == a.transcription.value.request.session && m.id == a.transcription.value.request.id
    ensures var p, b := a.transcription.value, Receive(a, Delivered(m, true), removal);
            var fate := if p.terminalFault.Some? then p.terminalFault.value else WasCancelled;
            && Tells(a.replies, b.replies, p.ticket, Failed(if removal == Removed then fate else CleanupFailed))
            && b.transcription.None? && b.process && b.health == a.health && b.shutdown == a.shutdown
  {
    hide Conclude, Tells;
    var p := a.transcription.value;
    ConcludeTells(a, Failed(Or(p.terminalFault, WasCancelled)), Done, removal);
  }

  /** An error about the pending request ends it: with what was decided about it before,
      otherwise with the error itself, which its cancellation is told in any case. Only
      a fatal one also ends the process. */
  lemma ErrorTells(a: Actor, m: Message, removal: Removal)
    requires a.process && a.transcription.Some? && m.WorkerError?
    requires m.errorSession == Some(a.transcription.value.request.session)
    requires m.errorRequest == Some(a.transcription.value.request.id)
    ensures var p, b := a.transcription.value, Receive(a, Delivered(m, true), removal);
            var meant := MapWorkerError(m.code, m.retryable, m.key);
            var fate := if p.terminalFault.Some? then p.terminalFault.value else meant;
            && Tells(a.replies, b.replies, p.ticket, Failed(if removal == Removed then fate else CleanupFailed))
            && (p.cancelTicket.Some? ==>
                  Tells(a.replies, b.replies, p.cancelTicket.value,
                        Failed(if removal == Removed then meant else CleanupFailed)))
            && b.transcription.None? && (b.process <==> !m.fatal)
            && (!m.fatal ==> b.health == a.health && b.shutdown == a.shutdown)
  {
    hide Conclude, Tells, FailProcess, MapWorkerError;
    var p, meant := a.transcription.value, MapWorkerError(m.code, m.retryable, m.key);
    var fate := Failed(Or(p.terminalFault, meant));
    ConcludeTells(a, fate, Failed(meant), removal);
    var b := Conclude(a, fate, Failed(meant), removal);
    if m.fatal {
      FailureKeepsTold(a.replies, b, meant, removal, p.ticket,
                       if removal == Removed then fate else Failed(CleanupFailed));
      if p.cancelTicket.Some? {
        FailureKeepsTold(a.replies, b, meant, removal, p.cancelTicket.value,
                         Failed(if removal == Removed then meant else CleanupFailed));
      }
    }
  }

  /** The end of a shutdown tells everyone: a pending request that the supervisor is
      closed, its cancellation and the shutdown that they succeeded. */
  lemma ShutdownCompleteTells(a: Actor, removal: Removal)
    requires a.process && a.shutdown.Some? && a.health.None?
    ensures var b := Receive(a, Delivered(ShutdownComplete, true), removal);
            && NothingPending(b) && !b.process && b.closed == a.shutdown.value.close
            && Tells(a.replies, b.replies, a.shutdown.value.ticket, Done)
            && (a.transcription.Some? ==>
                  && Tells(a.replies, b.replies, a.transcription.value.ticket,
                           Failed(if removal == Removed then SupervisorClosed else CleanupFailed))
                  && (a.transcription.value.cancelTicket.Some? ==>
                        Tells(a.replies, b.replies, a.transcription.value.cancelTicket.value,
                              if removal == Removed then Done else Failed(CleanupFailed))))
  {
    hide Conclude, Tells;
    var a1 := a.(shutdown := None);
    if a.transcription.Some? {
      ConcludeTells(a1, Failed(SupervisorClosed), Done, removal);
      var a2 := Conclude(a1, Failed(SupervisorClosed), Done, removal);
      ToldAndMore(a.replies, a2, a.shutdown.value.ticket, a.transcription.value.ticket,
                  Failed(if removal == Removed then SupervisorClosed else CleanupFailed));
      if a.transcription.value.cancelTicket.Some? {
        ToldAndMore(a.replies, a2, a.shutdown.value.ticket, a.transcription.value.cancelTicket.value,
                    if removal == Removed then Done else Failed(CleanupFailed));
      }
    } else {
      AnswerTells(a.replies, a1, a.shutdown.value.ticket, Done);
    }
  }

  lemma ToldAndMore(before: seq<Reply>, b: Actor, ticket: Ticket, told: Ticket, outcome: Outcome)
    requires Tells(before, b.replies, told, outcome)
    ensures Tells(before, Answer(b, ticket, Done).replies, told, outcome)
    ensures Tells(before, Answer(b, ticket, Done).replies, ticket, Done)
  {
    AnswerTells(before, b, ticket, Done);
    var after := Answer(b, ticket, Done).replies;
    var i :| 0 <= i < |b.replies[|before|..]| && b.replies[|before|..][i] == Reply(told, outcome);
    assert after[|before|..][i] == Reply(told, outcome);
  }

  // ---------------------------------------------------------------- messages that are out of place

  /** A lost pipe, a message the guard refuses, and one that nothing pending waits for
      fail the process as a violation of the protocol; an error also if it names another
      session or request than the pending one. */
  lemma StrayMessageFails(a: Actor, d: Delivery, removal: Removal)
    requires a.process
    requires || d.Broken? || !d.allowed || d.message.Ready?
             || (d.message.HealthResult? && a.health.None?)
             || (d.message.Transcript? && a.transcription.None?)
             || (d.message.Cancelled? && a.transcription.None?)
             || (d.message.ShutdownComplete? && a.shutdown.None?)
             || (d.message.WorkerError?
                 && (a.transcription.Some? ==>
                       d.message.errorSession != Some(a.transcription.value.request.session)
                       || d.message.errorRequest != Some(a.transcription.value.request.id))
                 && (a.health.Some? ==>
                       d.message.errorSession.Some? || d.message.errorRequest != Some(a.health.value.id)))
    ensures Receive(a, d, removal) == FailProcess(a, ProtocolViolated, removal)
  {
    hide FailProcess, MapWorkerError;
  }

  /** A transcript after an accepted cancellation, or of another session, request,
      engine or model, and the confirmed cancellation of another request, end the pending
      request and everything else as a violation. */
  lemma MismatchFails(a: Actor, m: Message, removal: Removal)
    requires a.process && a.transcription.Some?
    requires var p := a.transcription.value;
             || (m.Transcript? && (p.cancelTicket.Some? || m.session != p.request.session || m.id != p.request.id
                                   || m.engine != p.request.engine || m.model != p.model))
             || (m.Cancelled? && (m.session != p.request.session || m.id != p.request.id))
    ensures var p, b := a.transcription.value, Receive(a, Delivered(m, true), removal);
            var told := Failed(if removal == Removed then ProtocolViolated else CleanupFailed);
            && NothingPending(b) && !b.process
            && Tells(a.replies, b.replies, p.ticket, told)
            && (p.cancelTicket.Some? ==> Tells(a.replies, b.replies, p.cancelTicket.value, told))
  {
    hide Conclude, Tells, FailProcess;
    var p, fault := a.transcription.value, Failed(ProtocolViolated);
    var told := Failed(if removal == Removed then ProtocolViolated else CleanupFailed);
    ConcludeTells(a, fault, fault, removal);
    var b := Conclude(a, fault, fault, removal);
    FailureKeepsTold(a.replies, b, ProtocolViolated, removal, p.ticket, told);
    if p.cancelTicket.Some? {
      FailureKeepsTold(a.replies, b, ProtocolViolated, removal, p.cancelTicket.value, told);
    }
  }

  /** So does a health result about another check, engine or model. */
  lemma HealthMismatchFails(a: Actor, m: Message, removal: Removal)
    requires a.process && a.health.Some? && m.HealthResult?
    requires m.about != Some(a.health.value.id) || m.engine != a.health.value.engine || m.model != a.health.value.model
    ensures var b := Receive(a, Delivered(m, true), removal);
            && NothingPending(b) && !b.process
            && Tells(a.replies, b.replies, a.health.value.ticket, Failed(ProtocolViolated))
  {
    hide Tells, FailProcess;
    AnsweredThenFailed(a.replies, a.(health := None), ProtocolViolated, removal, a.health.value.ticket,
                       Failed(ProtocolViolated));
  }

  /** An error about the pending health check alone would be passed on, but see the guard. */
  lemma HealthErrorTells(a: Actor, m: Message, removal: Removal)
    requires a.process && a.health.Some? && m.WorkerError? && a.transcription.None?
    requires m.errorSession.None? && m.errorRequest == Some(a.health.value.id)
    ensures var b, meant := Receive(a, Delivered(m, true), removal), MapWorkerError(m.code, m.retryable, m.key);
            && Tells(a.replies, b.replies, a.health.value.ticket, Failed(meant)) && b.health.None?
            && (b.process <==> !m.fatal)
  {
    hide Tells, FailProcess, MapWorkerError;
    var meant := MapWorkerError(m.code, m.retryable, m.key);
    AnswerTells(a.replies, a.(health := None), a.health.value.ticket, Failed(meant));
    AnsweredThenFailed(a.replies, a.(health := None), meant, removal, a.health.value.ticket, Failed(meant));
  }
}
