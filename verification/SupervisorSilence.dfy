/** Audio that stays on disk although nobody was told: exactly when that happens. */
module SupervisorSilence {
  import opened Wrappers
  import Wire = WorkerProtocol
  import opened Supervisor
  import opened SupervisorBooks
  import opened SupervisorRuns
  import opened SupervisorEnd
  import opened SupervisorGrants

  // ---------------------------------------------------------------- what a step leaves alone

  /** The request is not the pending one. */
  predicate Aside(a: Actor, t: Ticket) {
    a.transcription.Some? ==> a.transcription.value.ticket != t
  }

  /** The request stays aside, its file stays, and so does everything said. */
  ghost predicate Leaves(a: Actor, b: Actor, t: Ticket) {
    Aside(b, t) && (t in a.files ==> t in b.files) && (forall r :: r in a.replies ==> r in b.replies)
  }

  lemma LeavesOn(a: Actor, b: Actor, c: Actor, t: Ticket)
    requires Leaves(a, b, t) && Leaves(b, c, t)
    ensures Leaves(a, c, t)
  {
  }

  lemma AnswerLeaves(a: Actor, ticket: Ticket, outcome: Outcome, t: Ticket)
    requires Aside(a, t)
    ensures Leaves(a, Answer(a, ticket, outcome), t)
  {
  }

  lemma FailTranscriptionLeaves(a: Actor, fault: Fault, removal: Removal, t: Ticket)
    requires Aside(a, t)
    ensures Leaves(a, FailTranscription(a, fault, removal), t)
  {
  }

  lemma FailAllLeaves(a: Actor, fault: Fault, removal: Removal, t: Ticket)
    requires Aside(a, t)
    ensures Leaves(a, FailAll(a, fault, removal), t)
  {
    var a1 := FailHealth(a, fault);
    var a2 := FailTranscription(a1, fault, removal);
    assert Leaves(a, a1, t);
    FailTranscriptionLeaves(a1, fault, removal, t);
    hide FailHealth, FailTranscription;
    LeavesOn(a, a1, a2, t);
    assert Leaves(a2, FailShutdown(a2, fault), t);
    LeavesOn(a, a2, FailShutdown(a2, fault), t);
  }

  lemma FailProcessLeaves(a: Actor, fault: Fault, removal: Removal, t: Ticket)
    requires Aside(a, t)
    ensures Leaves(a, FailProcess(a, fault, removal), t)
  {
    hide FailAll;
    FailAllLeaves(a, fault, removal, t);
  }

  lemma ConcludeLeaves(a: Actor, outcome: Outcome, forCancel: Outcome, removal: Removal, t: Ticket)
    requires Aside(a, t) && a.transcription.Some?
    ensures Leaves(a, Conclude(a, outcome, forCancel, removal), t)
  {
  }

  lemma FailedLeaves(a: Actor, b: Actor, fault: Fault, removal: Removal, t: Ticket)
    requires Leaves(a, b, t)
    ensures Leaves(a, FailProcess(b, fault, removal), t)
  {
    hide FailProcess;
    FailProcessLeaves(b, fault, removal, t);
    LeavesOn(a, b, FailProcess(b, fault, removal), t);
  }

  lemma CompleteErrorLeaves(a: Actor, m: Message, removal: Removal, t: Ticket)
    requires Aside(a, t) && m.WorkerError?
    ensures Leaves(a, CompleteError(a, m, removal), t)
  {
    hide FailProcess, Conclude, MapWorkerError;
    var mapped := MapWorkerError(m.code, m.retryable, m.key);
    FailedLeaves(a, a, ProtocolViolated, removal, t);
    if ConcernsTranscription(a, m.errorSession, m.errorRequest) {
      var outcome := Failed(Or(a.transcription.value.terminalFault, mapped));
      ConcludeLeaves(a, outcome, Failed(mapped), removal, t);
      FailedLeaves(a, Conclude(a, outcome, Failed(mapped), removal), mapped, removal, t);
    } else if ConcernsHealth(a, m.errorSession, m.errorRequest) {
      var b := Answer(a.(health := None), a.health.value.ticket, Failed(mapped));
      assert Leaves(a, b, t);
      FailedLeaves(a, b, mapped, removal, t);
    }
  }

  lemma CompleteShutdownLeaves(a: Actor, removal: Removal, t: Ticket)
    requires Aside(a, t)
    ensures Leaves(a, CompleteShutdown(a, removal), t)
  {
    hide FailProcess, Conclude;
    FailedLeaves(a, a, ProtocolViolated, removal, t);
    var a1 := a.(shutdown := None);
    if a1.transcription.Some? {
      ConcludeLeaves(a1, Failed(SupervisorClosed), Done, removal, t);
    }
  }

  lemma ReceiveLeaves(a: Actor, d: Delivery, removal: Removal, t: Ticket)
    requires Aside(a, t)
    ensures Leaves(a, Receive(a, d, removal), t)
  {
    hide FailProcess, Conclude, CompleteError, CompleteShutdown;
    forall b: Actor, fault | Leaves(a, b, t) ensures Leaves(a, FailProcess(b, fault, removal), t) {
      FailedLeaves(a, b, fault, removal, t);
    }
    forall o, o' | a.transcription.Some? ensures Leaves(a, Conclude(a, o, o', removal), t) {
      ConcludeLeaves(a, o, o', removal, t);
    }
    if d.Delivered? && d.message.WorkerError? {
      CompleteErrorLeaves(a, d.message, removal, t);
    } else if d.Delivered? && d.message.ShutdownComplete? {
      CompleteShutdownLeaves(a, removal, t);
    }
  }

  lemma EnforceLeaves(a: Actor, c: Config, w: World, t: Ticket)
    requires Aside(a, t)
    ensures Leaves(a, EnforceDeadlines(a, c, w), t)
  {
    hide FailProcess;
    forall b: Actor, fault | Leaves(a, b, t) ensures Leaves(a, FailProcess(b, fault, w.removal), t) {
      FailedLeaves(a, b, fault, w.removal, t);
    }
  }

  lemma StartTranscriptionLeaves(a: Actor, c: Config, request: Request, ticket: Ticket, w: World, t: Ticket)
    requires Aside(a, t) && t != ticket
    ensures Leaves(a, StartTranscription(a, c, request, ticket, w), t)
  {
    hide FailProcess;
    if a.transcription.None? && w.sending.Some? {
      var b := WithoutGrant(a.(process := true, files := a.files + {ticket}), ticket, w.removal);
      var b1 := Answer(b, ticket, Failed(Or(RemovalFault(w.removal), w.sending.value)));
      assert Leaves(a, b1, t);
      FailedLeaves(a, b1, w.sending.value, w.removal, t);
    }
  }

  lemma StartShutdownLeaves(a: Actor, c: Config, close: bool, ticket: Ticket, w: World, t: Ticket)
    requires Aside(a, t)
    ensures Leaves(a, StartShutdown(a, c, close, ticket, w).0, t)
  {
    hide FailProcess;
    var a1 := FailHealth(a, SupervisorClosed);
    assert Leaves(a, a1, t);
    if w.sending.Some? {
      var b := Answer(a1, ticket, Failed(w.sending.value));
      assert Leaves(a, b, t);
      FailedLeaves(a, b, w.sending.value, w.removal, t);
    }
  }

  lemma HandleLeaves(a: Actor, c: Config, command: Command, w: World, t: Ticket)
    requires Aside(a, t) && t != a.issued
    ensures Leaves(a, Handle(a, c, command, w).0, t)
  {
    hide FailProcess, StartTranscription, StartShutdown;
    var a1 := a.(issued := a.issued + 1);
    assert Leaves(a, a1, t);
    match command
    case Transcribe(request) => StartTranscriptionLeaves(a1, c, request, a.issued, w, t);
    case Shutdown(close) => StartShutdownLeaves(a1, c, close, a.issued, w, t);
    case _ =>
      forall b: Actor, fault | Leaves(a, b, t) ensures Leaves(a, FailProcess(b, fault, w.removal), t) {
        FailedLeaves(a, b, fault, w.removal, t);
      }
  }

  lemma NextLeaves(a: Actor, c: Config, step: Step, t: Ticket)
    requires Aside(a, t) && t != a.issued
    ensures Leaves(a, Next(a, c, step), t)
  {
    hide Receive, EnforceDeadlines, Handle, FailAll;
    match step
    case Deliver(d, removal) => ReceiveLeaves(a, d, removal, t);
    case Sweep(w) => EnforceLeaves(a, c, w, t);
    case Dequeue(command, w) => HandleLeaves(a, c, command, w, t);
    case Disconnect(removal) => FailAllLeaves(a, SupervisorClosed, removal, t);
    case Tick(_) =>
    case Idle =>
  }

  // ---------------------------------------------------------------- one answer each

  lemma {:induction false} AnsweredOften(replies: seq<Reply>, r: Reply)
    requires r in replies
    ensures Replied(replies)[r.ticket] >= 1
    decreases |replies|
  {
    var n := |replies| - 1;
    if replies[n] != r {
      AnsweredOften(replies[..n], r);
    }
  }

  lemma {:induction false} AnsweredTwice(replies: seq<Reply>, r: Reply, r': Reply)
    requires r in replies && r' in replies && r != r' && r.ticket == r'.ticket
    ensures Replied(replies)[r.ticket] >= 2
    decreases |replies|
  {
    var n := |replies| - 1;
    if replies[n] == r {
      AnsweredOften(replies[..n], r');
    } else if replies[n] == r' {
      AnsweredOften(replies[..n], r);
    } else {
      AnsweredTwice(replies[..n], r, r');
    }
  }

  // ---------------------------------------------------------------- what silence leaves

  /** The audio the step leaves on disk without telling anyone: a copy abandoned off
      unix, or the stuck grant of a late request dropped at the return. */
  function LeftInSilence(a: Actor, step: Step): set<Ticket> {
    match step
    case Dequeue(Transcribe(_), w) => if a.phase == Receiving && CopiesInSilence(a, w) then {a.issued} else {}
    case Sweep(w) =>
      if a.phase == Draining && a.closed && a.transcription.Some? && w.removal == Stuck
      then {a.transcription.value.ticket} else {}
    case _ => {}
  }

  lemma HandleSilence(a: Actor, c: Config, command: Command, w: World)
    requires a.phase == Receiving
    ensures Handle(a, c, command, w).0.unreported == a.unreported + LeftInSilence(a, Dequeue(command, w))
  {
    hide StartHealth, StartTranscription, CancelTranscription, StartShutdown;
    var a1 := a.(issued := a.issued + 1);
    match command
    case Health(engine) => StartHealthMoves(a1, c, engine, a.issued, w);
    case Transcribe(request) => StartTranscriptionMoves(a1, c, request, a.issued, w);
    case Cancel(id) => CancelTranscriptionMoves(a1, c, id, a.issued, w);
    case Shutdown(close) => StartShutdownMoves(a1, c, close, a.issued, w);
  }

  lemma SilenceIs(a: Actor, c: Config, step: Step)
    requires Invariant(a)
    ensures Next(a, c, step).unreported == a.unreported + LeftInSilence(a, step)
  {
    hide Receive, EnforceDeadlines, Handle, FailAll, Books;
    match step
    case Deliver(d, removal) =>
      if a.phase == Draining {
        ReceiveMoves(a, d, removal);
      }
    case Sweep(w) => EnforceMoves(a, c, w);
    case Dequeue(command, w) =>
      if a.phase == Receiving {
        HandleSilence(a, c, command, w);
        HandleKeepsSlots(a, c, command, w);
      }
    case Disconnect(removal) => FailAllEmpties(a, SupervisorClosed, removal);
    case Tick(_) =>
    case Idle =>
  }

  /** No step of the run leaves audio in silence. */
  predicate NeverSilent(a: Actor, c: Config, steps: seq<Step>)
    decreases |steps|
  {
    steps == [] || (LeftInSilence(a, steps[0]) == {} && NeverSilent(Next(a, c, steps[0]), c, steps[1..]))
  }

  lemma {:induction false} UnreportedIff(a: Actor, c: Config, steps: seq<Step>)
    requires Invariant(a)
    ensures a.unreported <= Run(a, c, steps).unreported
    ensures Run(a, c, steps).unreported == {} <==> a.unreported == {} && NeverSilent(a, c, steps)
    decreases |steps|
  {
    if steps != [] {
      NextKeepsInvariant(a, c, steps[0]);
      SilenceIs(a, c, steps[0]);
      hide Next, Invariant, LeftInSilence;
      UnreportedIff(Next(a, c, steps[0]), c, steps[1..]);
    }
  }

  /** Whoever's audio was left in silence was told only that it could not be used, or
      still waits at the return, and the file is there. */
  ghost predicate LeftThere(a: Actor) {
    forall t :: t in a.unreported ==>
      && t in a.files && t < a.issued
      && (|| Reply(t, Failed(ArtifactUnusable)) in a.replies
          || (a.phase == Returned && a.transcription.Some? && a.transcription.value.ticket == t))
  }

  /** As every command is answered at most once, nobody was told of such a file. */
  lemma NobodyTold(a: Actor, t: Ticket)
    requires Invariant(a) && LeftThere(a) && t in a.unreported
    ensures t in a.files && !Pending(a, t) && !RemovalReported(a, t)
    ensures a.phase != Returned ==> Reply(t, Failed(ArtifactUnusable)) in a.replies && Aside(a, t)
  {
    IssuedOnce(a.issued, t);
    var told, hidden := Reply(t, Failed(CleanupFailed)), Reply(t, Failed(ArtifactUnusable));
    if hidden in a.replies {
      AnsweredOften(a.replies, hidden);
    }
    if told in a.replies {
      AnsweredOften(a.replies, told);
      if hidden in a.replies {
        AnsweredTwice(a.replies, told, hidden);
      }
    }
    hide Replied;
  }

  lemma AbandonsThere(a: Actor, c: Config, request: Request, w: World)
    requires a.phase == Receiving && CopiesInSilence(a, w)
    ensures var b := Next(a, c, Dequeue(Transcribe(request), w));
            a.issued in b.files && Reply(a.issued, Failed(ArtifactUnusable)) in b.replies && b.issued == a.issued + 1
  {
  }

  lemma NextIssued(a: Actor, c: Config, step: Step)
    requires Invariant(a)
    ensures Next(a, c, step).issued >= a.issued
  {
    hide Receive, EnforceDeadlines, Handle, FailAll, Books;
    match step
    case Deliver(d, removal) =>
      if a.phase == Draining {
        ReceiveMoves(a, d, removal);
      }
    case Sweep(w) => EnforceMoves(a, c, w);
    case Dequeue(command, w) =>
      if a.phase == Receiving {
        HandleKeepsSlots(a, c, command, w);
      }
    case Disconnect(removal) => FailAllEmpties(a, SupervisorClosed, removal);
    case Tick(_) =>
    case Idle =>
  }

  lemma NextLeftThere(a: Actor, c: Config, step: Step)
    requires Invariant(a) && Grants(a) && LeftThere(a)
    ensures LeftThere(Next(a, c, step))
  {
    var b := Next(a, c, step);
    SilenceIs(a, c, step);
    NextIssued(a, c, step);
    if a.phase == Returned {
      assert b == a;
    } else {
      forall t | t in b.unreported
        ensures t in b.files && t < b.issued
        ensures Reply(t, Failed(ArtifactUnusable)) in b.replies
             || (b.phase == Returned && b.transcription.Some? && b.transcription.value.ticket == t) {
        if t in a.unreported {
          NobodyTold(a, t);
          NextLeaves(a, c, step, t);
        } else if step.Dequeue? {
          AbandonsThere(a, c, step.command.request, step.world);
        } else {
          DroppedThere(a, c, step.world);
        }
      }
    }
  }

  lemma DroppedThere(a: Actor, c: Config, w: World)
    requires Grants(a) && a.phase == Draining && a.closed && a.transcription.Some? && w.removal == Stuck
    ensures var b := Next(a, c, Sweep(w));
            && a.transcription.value.ticket in b.files && a.transcription.value.ticket < b.issued
            && b.phase == Returned && b.transcription == a.transcription
  {
  }

  lemma {:induction false} RunLeftThere(a: Actor, c: Config, steps: seq<Step>)
    requires Invariant(a) && Grants(a) && LeftThere(a)
    ensures LeftThere(Run(a, c, steps))
    decreases |steps|
  {
    hide Invariant, Grants, LeftThere, Next;
    if steps != [] {
      NextKeepsInvariant(a, c, steps[0]);
      NextKeepsGrants(a, c, steps[0]);
      NextLeftThere(a, c, steps[0]);
      RunLeftThere(Next(a, c, steps[0]), c, steps[1..]);
    }
  }

  /** At every point of every run the grant directory holds the pending request's
      audio, audio whose failed removal was reported to its request, and audio nobody
      was told of; of the last there is none exactly if no copy was abandoned off unix
      and no late request dropped with a stuck grant. Nobody who was told of a
      transcript, or of the success of a cancellation that was accepted, has audio
      left there. */
  lemma GrantAccounting(c: Config, steps: seq<Step>)
    ensures var a := Run(START, c, steps);
            && ((forall f :: f in a.files ==> Pending(a, f) || RemovalReported(a, f)) <==> NeverSilent(START, c, steps))
            && (forall f :: f in a.files ==> (f in a.unreported <==> !Pending(a, f) && !RemovalReported(a, f)))
            && a.unreported <= a.files
            && (a.transcription.Some? && a.phase != Returned ==> a.transcription.value.ticket in a.files)
            && (forall r :: r in a.replies && r.outcome.Text? ==> r.ticket !in a.files)
            && (forall r ::
                  r in a.replies && r.outcome == Done && r.ticket in a.cancels
                  ==> a.cancels[r.ticket] !in a.files)
  {
    hide Next, NeverSilent;
    StartInvariant();
    RunKeepsInvariant(START, c, steps);
    RunKeepsGrants(START, c, steps);
    RunLeftThere(START, c, steps);
    UnreportedIff(START, c, steps);
    var a := Run(START, c, steps);
    hide Invariant, Pending, RemovalReported;
    forall t | t in a.unreported ensures t in a.files && !Pending(a, t) && !RemovalReported(a, t) {
      NobodyTold(a, t);
    }
    assert forall f :: f in a.files ==> Known(a, f);
  }

  /** The shortest such run: the copy is broken off outside unix, and the caller
      learns only that the audio could not be used. */
  lemma AbandonedCopyIsUnreported(c: Config, request: Request)
    ensures var w := World(None, Found, Abandoned(true), None, Removed, 1, 0);
            var a := Run(START, c, [Sweep(w), Dequeue(Transcribe(request), w)]);
            a.files == {0} && !Pending(a, 0) && a.replies == [Reply(0, Failed(ArtifactUnusable))]
  {
    var w := World(None, Found, Abandoned(true), None, Removed, 1, 0);
    var steps := [Sweep(w), Dequeue(Transcribe(request), w)];
    var a1 := START.(phase := Receiving);
    assert Next(START, c, steps[0]) == a1;
    var a2 := Next(a1, c, steps[1]);
    assert steps[1..] == [steps[1]] && steps[1..][1..] == [];
    assert Run(a2, c, []) == a2;
    assert Run(a1, c, steps[1..]) == a2;
  }

  /** And the shortest one for a late request: its grant cannot be removed at the
      return, and its caller hears nothing at all. */
  lemma LateGrantIsUnreported(c: Config, request: Request)
    ensures var late := World(None, Found, Copied, None, Stuck, 1, 0);
            var a := Run(START, c, ClosingSteps(c, request) + [Dequeue(Transcribe(request), late), Sweep(late)]);
            && a.phase == Returned && a.files == {2} && !Pending(a, 2)
            && forall r :: r in a.replies ==> r.ticket != 2
  {
    var late, a := World(None, Found, Copied, None, Stuck, 1, 0), ClosedItself(c);
    var steps := [Dequeue(Transcribe(request), late), Sweep(late)];
    var b := Next(a, c, steps[0]);
    assert b.closed && b.phase == Draining && b.files == {2} && b.replies == a.replies;
    assert b.transcription.Some? && b.transcription.value.ticket == 2;
    var end := b.(process := false, phase := Returned, unreported := {2});
    assert Next(b, c, steps[1]) == end;
    ClosedByDeadline(c, request, steps);
    RunPrefix(a, end, c, steps, 2, [a, b, end]);
  }
}
