/** When a request gets its transcript, and when a cancellation succeeds. */
module SupervisorReplies {
  import opened Wrappers
  import opened Supervisor

  /** The reply says nothing about this ticket yet. */
  ghost predicate Silent(replies: seq<Reply>, ticket: Ticket) {
    forall r :: r in replies ==> r.ticket != ticket
  }

  /** The message is the transcript of exactly this request. */
  predicate TranscribesRequest(p: PendingTranscription, d: Delivery) {
    && d.Delivered? && d.allowed && d.message.Transcript?
    && d.message.session == p.request.session && d.message.id == p.request.id
    && d.message.engine == p.request.engine && d.message.model == p.model
  }

  /** The message confirms the cancellation of exactly this request. */
  predicate ConfirmsCancel(a: Actor, p: PendingTranscription, d: Delivery) {
    && d.Delivered? && d.allowed
    && (|| (d.message.Cancelled? && d.message.session == p.request.session && d.message.id == p.request.id)
        || (d.message.ShutdownComplete? && a.shutdown.Some?))
  }

  // ---------------------------------------------------------------- what failing never says

  /** Nothing already said is lost, and everything added is a failure. */
  ghost predicate OnlyFailures(before: seq<Reply>, after: seq<Reply>) {
    && (forall r :: r in before ==> r in after)
    && (forall r :: r in after && r !in before ==> r.outcome.Failed?)
  }

  lemma OneMoreFailure(before: seq<Reply>, after: seq<Reply>, ticket: Ticket, fault: Fault)
    requires OnlyFailures(before, after)
    ensures OnlyFailures(before, after + [Reply(ticket, Failed(fault))])
  {
  }

  lemma FailTranscriptionOnlyFails(a: Actor, fault: Fault, removal: Removal)
    ensures OnlyFailures(a.replies, FailTranscription(a, fault, removal).replies)
  {
    hide OnlyFailures;
    assert OnlyFailures(a.replies, a.replies) by { SameReplies(a.replies); }
    if a.transcription.Some? {
      var p, terminal := a.transcription.value, Or(RemovalFault(removal), fault);
      var told :=
        if p.cancelTicket.Some? then a.replies + [Reply(p.cancelTicket.value, Failed(terminal))] else a.replies;
      if p.cancelTicket.Some? {
        OneMoreFailure(a.replies, a.replies, p.cancelTicket.value, terminal);
      }
      OneMoreFailure(a.replies, told, p.ticket, terminal);
    }
  }

  lemma SameReplies(replies: seq<Reply>)
    ensures OnlyFailures(replies, replies)
  {
  }

  lemma FailProcessOnlyFails(a: Actor, fault: Fault, removal: Removal)
    ensures OnlyFailures(a.replies, FailProcess(a, fault, removal).replies)
  {
    hide FailTranscription;
    var a1 := FailHealth(a, fault);
    var a2 := FailTranscription(a1, fault, removal);
    FailTranscriptionOnlyFails(a1, fault, removal);
    hide FailHealth;
    assert OnlyFailures(a.replies, a1.replies) by { FailHealthOnlyFails(a, fault); }
    assert OnlyFailures(a.replies, a2.replies);
    if a2.shutdown.Some? {
      OneMoreFailure(a.replies, a2.replies, a2.shutdown.value.ticket, fault);
    }
    hide OnlyFailures;
  }

  lemma FailHealthOnlyFails(a: Actor, fault: Fault)
    ensures OnlyFailures(a.replies, FailHealth(a, fault).replies)
  {
  }

  /** Concluding tells the request first and its cancellation second. */
  lemma ConcludeSays(a: Actor, outcome: Outcome, forCancel: Outcome, removal: Removal)
    requires a.transcription.Some?
    ensures var p := a.transcription.value;
            var first := Reply(p.ticket, if removal == Removed then outcome else Failed(CleanupFailed));
            Conclude(a, outcome, forCancel, removal).replies
            == if p.cancelTicket.None? then a.replies + [first]
               else
                 a.replies + [first]
                 + [Reply(p.cancelTicket.value, if removal == Removed then forCancel else Failed(CleanupFailed))]
  {
  }

  // ---------------------------------------------------------------- transcripts

  lemma TextAfterConclude(a: Actor, outcome: Outcome, forCancel: Outcome, removal: Removal, reply: Reply)
    requires a.transcription.Some? && reply !in a.replies && reply.outcome.Text? && !forCancel.Text?
    ensures reply in Conclude(a, outcome, forCancel, removal).replies
       <==> removal == Removed && reply == Reply(a.transcription.value.ticket, outcome)
  {
    hide Conclude;
    ConcludeSays(a, outcome, forCancel, removal);
  }

  lemma TextAfterFail(b: Actor, fault: Fault, removal: Removal, reply: Reply)
    requires reply.outcome.Text?
    ensures reply in FailProcess(b, fault, removal).replies <==> reply in b.replies
  {
    hide FailProcess;
    FailProcessOnlyFails(b, fault, removal);
  }

  /** A transcript is handed out exactly when the worker sent the transcript of the
      pending request, nobody's cancellation of it was accepted, and its audio could
      be removed; it carries the worker's text and goes to the request's caller. */
  lemma TranscriptAnsweredIff(a: Actor, d: Delivery, removal: Removal, reply: Reply)
    requires a.process && reply.outcome.Text? && reply !in a.replies
    ensures reply in Receive(a, d, removal).replies
       <==> && a.transcription.Some? && TranscribesRequest(a.transcription.value, d)
            && a.transcription.value.cancelTicket.None? && removal == Removed
            && reply == Reply(a.transcription.value.ticket, Text(a.transcription.value.request, d.message.text))
  {
    hide FailProcess, Conclude, MapWorkerError;
    forall b: Actor, fault ensures reply in FailProcess(b, fault, removal).replies <==> reply in b.replies {
      TextAfterFail(b, fault, removal, reply);
    }
    forall b: Actor, o, o': Outcome | b.transcription.Some? && b.replies == a.replies && !o'.Text?
      ensures reply in Conclude(b, o, o', removal).replies
          <==> removal == Removed && reply == Reply(b.transcription.value.ticket, o) {
      TextAfterConclude(b, o, o', removal, reply);
    }
  }

  // ---------------------------------------------------------------- cancellations

  lemma DoneAfterConclude(a: Actor, outcome: Outcome, forCancel: Outcome, removal: Removal, ticket: Ticket)
    requires a.transcription.Some? && Silent(a.replies, ticket) && outcome != Done
    ensures Reply(ticket, Done) in Conclude(a, outcome, forCancel, removal).replies
       <==> removal == Removed && forCancel == Done && a.transcription.value.cancelTicket == Some(ticket)
  {
    hide Conclude;
    ConcludeSays(a, outcome, forCancel, removal);
  }

  /** An accepted cancellation succeeds exactly when the worker confirms it, or
      completes the shutdown, and the request's audio could be removed. */
  lemma CancelSucceedsIff(a: Actor, d: Delivery, removal: Removal, ticket: Ticket)
    requires a.process && a.transcription.Some? && a.transcription.value.cancelTicket == Some(ticket)
    requires Silent(a.replies, ticket) && (a.shutdown.Some? ==> a.shutdown.value.ticket != ticket)
    ensures Reply(ticket, Done) in Receive(a, d, removal).replies
       <==> ConfirmsCancel(a, a.transcription.value, d) && removal == Removed
  {
    hide FailProcess, Conclude, MapWorkerError;
    forall b: Actor, fault
      ensures Reply(ticket, Done) in FailProcess(b, fault, removal).replies <==> Reply(ticket, Done) in b.replies {
      FailProcessOnlyFails(b, fault, removal);
    }
    forall b: Actor, o: Outcome, o': Outcome
      | b.transcription == a.transcription && b.replies == a.replies && o != Done
      ensures Reply(ticket, Done) in Conclude(b, o, o', removal).replies <==> removal == Removed && o' == Done {
      DoneAfterConclude(b, o, o', removal, ticket);
    }
  }
}
