/** The supervisor as it runs: each method updates the slots in the order the
    actor does, and is proved equal to the corresponding step. */
module SupervisorActor {
  import opened Wrappers
  import Wire = WorkerProtocol
  import opened Supervisor
  import opened SupervisorBooks
  import opened SupervisorRuns

  /** One turn of the loop: what the worker had to say, what the outside answers,
      and whether a command arrived within the poll interval. */
  datatype Arrival = Nothing | Arrived(command: Command, world: World) | Hangup(removal: Removal)

  datatype Round = Round(elapsed: nat, output: seq<(Delivery, Removal)>, world: World, waited: nat, arrival: Arrival)

  function OutputSteps(output: seq<(Delivery, Removal)>): seq<Step> {
    if output == [] then [] else [Deliver(output[0].0, output[0].1)] + OutputSteps(output[1..])
  }

  function ArrivalStep(arrival: Arrival): Step {
    match arrival
    case Nothing => Idle
    case Arrived(command, w) => Dequeue(command, w)
    case Hangup(removal) => Disconnect(removal)
  }

  function RoundSteps(r: Round): seq<Step> {
    [Tick(r.elapsed)] + OutputSteps(r.output) + [Sweep(r.world), Tick(r.waited), ArrivalStep(r.arrival)]
  }

  class SupervisorActor {
    const config: Config
    var process: bool
    var pendingHealth: Option<PendingHealth>
    var pendingTranscription: Option<PendingTranscription>
    var pendingShutdown: Option<PendingShutdown>
    var closed: bool
    var now: Time
    var files: set<Ticket>
    var issued: nat
    var replies: seq<Reply>
    ghost var phase: Phase
    ghost var enforcedAt: Time
    ghost var cancels: map<Ticket, Ticket>
    ghost var unreported: set<Ticket>

    ghost function Value(): Actor
      reads this
    {
      Actor(process, pendingHealth, pendingTranscription, pendingShutdown, closed, phase, now, enforcedAt,
            files, issued, cancels, unreported, replies)
    }

    constructor (config: Config)
      ensures Value() == START && this.config == config
    {
      this.config := config;
      process, pendingHealth, pendingTranscription, pendingShutdown, closed := false, None, None, None, false;
      now, files, issued, replies := 0, {}, 0, [];
      phase, enforcedAt, cancels, unreported := Draining, 0, map[], {};
    }

    // -------------------------------------------------------------- responses and grants

    method Complete(ticket: Ticket, outcome: Outcome)
      modifies this`replies
      ensures Value() == Answer(old(Value()), ticket, outcome)
    {
      replies := replies + [Reply(ticket, outcome)];
    }

    method CompleteIfAny(ticket: Option<Ticket>, outcome: Outcome)
      modifies this`replies
      ensures Value() == AnswerIfAny(old(Value()), ticket, outcome)
    {
      if ticket.Some? {
        Complete(ticket.value, outcome);
      }
    }

    method Revoke(grant: Ticket, removal: Removal) returns (failed: Option<Fault>)
      modifies this`files
      ensures Value() == WithoutGrant(old(Value()), grant, removal)
      ensures failed == RemovalFault(removal)
    {
      match removal {
        case Removed =>
          files := files - {grant};
          return None;
        case RemovedLate =>
          files := files - {grant};
        case Stuck =>
      }
      return Some(CleanupFailed);
    }

    // -------------------------------------------------------------- failing

    method FailPendingHealth(fault: Fault)
      modifies this
      ensures Value() == FailHealth(old(Value()), fault)
    {
      if pendingHealth.Some? {
        var pending := pendingHealth.value;
        pendingHealth := None;
        Complete(pending.ticket, Failed(fault));
      }
    }

    method FailPendingTranscription(fault: Fault, removal: Removal)
      modifies this
      ensures Value() == FailTranscription(old(Value()), fault, removal)
    {
      hide Answer, AnswerIfAny, WithoutGrant;
      if pendingTranscription.Some? {
        var pending := pendingTranscription.value;
        pendingTranscription := None;
        var failed := Revoke(pending.ticket, removal);
        var terminal := Or(failed, fault);
        CompleteIfAny(pending.cancelTicket, Failed(terminal));
        Complete(pending.ticket, Failed(terminal));
      }
    }

    method FailEverything(fault: Fault, removal: Removal)
      modifies this
      ensures Value() == FailAll(old(Value()), fault, removal)
    {
      hide FailHealth, FailTranscription;
      FailPendingHealth(fault);
      FailPendingTranscription(fault, removal);
      if pendingShutdown.Some? {
        var pending := pendingShutdown.value;
        pendingShutdown := None;
        Complete(pending.ticket, Failed(fault));
      }
    }

    method Fail(fault: Fault, removal: Removal)
      modifies this
      ensures Value() == FailProcess(old(Value()), fault, removal)
    {
      hide FailAll;
      FailAllEmpties(Value(), fault, removal);
      var closing := pendingShutdown.Some? && pendingShutdown.value.close;
      FailEverything(fault, removal);
      process := false;
      if closing {
        closed := true;
      }
    }

    // -------------------------------------------------------------- commands

    method BeginHealth(engine: Wire.Engine, ticket: Ticket, w: World)
      modifies this
      ensures Value() == StartHealth(old(Value()), config, engine, ticket, w)
    {
      hide FailProcess;
      if pendingShutdown.Some? {
        Complete(ticket, Failed(SupervisorClosed));
        return;
      }
      if pendingHealth.Some? || pendingTranscription.Some? {
        Complete(ticket, Failed(Busy));
        return;
      }
      if !process && w.spawning.Some? {
        Complete(ticket, Failed(w.spawning.value));
        return;
      }
      process := true;
      if w.sending.Some? {
        Complete(ticket, Failed(w.sending.value));
        Fail(w.sending.value, w.removal);
        return;
      }
      now := now + w.lag;
      pendingHealth := Some(PendingHealth(w.newId, engine, ModelOf(config, engine), now,
                                          DeadlineAfter(config, now, config.healthTimeout), ticket));
    }

    /** With the audio copied: sends the request, or takes the grant back. */
    method SendRequest(request: Request, ticket: Ticket, w: World)
      modifies this
      ensures Value() == SendTranscription(old(Value()), config, request, ticket, w)
    {
      hide FailProcess, Answer, WithoutGrant;
      files := files + {ticket};
      if w.sending.Some? {
        var failed := Revoke(ticket, w.removal);
        Complete(ticket, Failed(Or(failed, w.sending.value)));
        Fail(w.sending.value, w.removal);
        return;
      }
      now := now + w.lag;
      pendingTranscription := Some(PendingTranscription(
        request, ModelOf(config, request.engine), now, DeadlineAfter(config, now, request.deadlineMs),
        None, None, None, ticket));
    }

    method BeginTranscription(request: Request, ticket: Ticket, w: World)
      modifies this
      ensures Value() == StartTranscription(old(Value()), config, request, ticket, w)
    {
      hide FailProcess, Answer, WithoutGrant, SendTranscription;
      if pendingShutdown.Some? {
        Complete(ticket, Failed(SupervisorClosed));
        return;
      }
      if pendingTranscription.Some? || pendingHealth.Some? {
        Complete(ticket, Failed(Busy));
        return;
      }
      if !process && w.spawning.Some? {
        Complete(ticket, Failed(w.spawning.value));
        return;
      }
      process := true;
      match w.source {
        case Absent =>
          Complete(ticket, Failed(ArtifactMissing));
          return;
        case Refused(fault) =>
          Complete(ticket, Failed(fault));
          return;
        case Found =>
      }
      if w.copying == NotCreated || w.copying == BrokenOff(true) || w.copying == Abandoned(false) {
        Complete(ticket, Failed(ArtifactUnusable));
        return;
      }
      if w.copying == Abandoned(true) {
        files, unreported := files + {ticket}, unreported + {ticket};
        Complete(ticket, Failed(ArtifactUnusable));
        return;
      }
      if w.copying == BrokenOff(false) {
        files := files + {ticket};
        Complete(ticket, Failed(CleanupFailed));
        return;
      }
      SendRequest(request, ticket, w);
    }

    method BeginCancel(id: Wire.Uuid, ticket: Ticket, w: World)
      modifies this
      ensures Value() == CancelTranscription(old(Value()), config, id, ticket, w)
    {
      hide FailProcess;
      if pendingTranscription.None? || pendingTranscription.value.request.id != id {
        Complete(ticket, Done);
        return;
      }
      if pendingTranscription.value.cancelTicket.Some? {
        Complete(ticket, Failed(CancelPending));
        return;
      }
      if w.sending.Some? {
        Complete(ticket, Failed(w.sending.value));
        Fail(w.sending.value, w.removal);
        return;
      }
      now := now + w.lag;
      cancels := cancels[ticket := pendingTranscription.value.ticket];
      pendingTranscription := Some(pendingTranscription.value.(
        cancelDeadline := Some(DeadlineAfter(config, now, config.cancelTimeout)),
        terminalFault := Some(WasCancelled),
        cancelTicket := Some(ticket)));
    }

    method BeginShutdown(close: bool, ticket: Ticket, w: World) returns (stop: bool)
      modifies this
      ensures (Value(), stop) == StartShutdown(old(Value()), config, close, ticket, w)
    {
      hide FailProcess, Answer;
      if pendingShutdown.Some? {
        Complete(ticket, Failed(SupervisorClosed));
        return false;
      }
      if !close && (pendingHealth.Some? || pendingTranscription.Some?) {
        Complete(ticket, Failed(Busy));
        return false;
      }
      if !process {
        Complete(ticket, Done);
        return close;
      }
      if pendingHealth.Some? {
        var health := pendingHealth.value;
        pendingHealth := None;
        Complete(health.ticket, Failed(SupervisorClosed));
      }
      if w.sending.Some? {
        Complete(ticket, Failed(w.sending.value));
        Fail(w.sending.value, w.removal);
        return close;
      }
      now := now + w.lag;
      var deadline := DeadlineAfter(config, now, config.shutdownTimeout);
      if pendingTranscription.Some? {
        pendingTranscription := Some(pendingTranscription.value.(
          terminalFault := Some(SupervisorClosed), cancelDeadline := Some(deadline)));
      }
      pendingShutdown := Some(PendingShutdown(now, deadline, close, ticket));
      return false;
    }

    method HandleCommand(command: Command, w: World) returns (stop: bool)
      modifies this
      ensures (Value(), stop) == Handle(old(Value()), config, command, w)
    {
      hide StartHealth, StartTranscription, CancelTranscription, StartShutdown;
      var ticket := issued;
      issued := issued + 1;
      stop := false;
      match command {
        case Health(engine) => BeginHealth(engine, ticket, w);
        case Transcribe(request) => BeginTranscription(request, ticket, w);
        case Cancel(id) => BeginCancel(id, ticket, w);
        case Shutdown(close) => stop := BeginShutdown(close, ticket, w);
      }
    }

    // -------------------------------------------------------------- messages

    /** Takes the pending transcription and tells its callers. */
    method ConcludeTranscription(outcome: Outcome, forCancel: Outcome, removal: Removal)
      requires pendingTranscription.Some?
      modifies this
      ensures Value() == Conclude(old(Value()), outcome, forCancel, removal)
    {
      var pending := pendingTranscription.value;
      pendingTranscription := None;
      var failed := Revoke(pending.ticket, removal);
      Complete(pending.ticket, if failed.Some? then Failed(failed.value) else outcome);
      CompleteIfAny(pending.cancelTicket, if failed.Some? then Failed(failed.value) else forCancel);
    }

    method OnHealthResult(id: Option<Wire.Uuid>, engine: Wire.Engine, model: string, status: HealthStatus,
                          removal: Removal)
      modifies this
      ensures Value() == CompleteHealth(old(Value()), id, engine, model, status, removal)
    {
      hide FailProcess, Answer;
      if pendingHealth.None? {
        Fail(ProtocolViolated, removal);
        return;
      }
      var pending := pendingHealth.value;
      pendingHealth := None;
      if id != Some(pending.id) || engine != pending.engine || model != pending.model {
        Complete(pending.ticket, Failed(ProtocolViolated));
        Fail(ProtocolViolated, removal);
        return;
      }
      Complete(pending.ticket, HealthIs(status));
    }

    method OnTranscript(m: Message, removal: Removal)
      requires m.Transcript?
      modifies this
      ensures Value() == CompleteTranscription(old(Value()), m, removal)
    {
      hide FailProcess, Conclude;
      if pendingTranscription.None? {
        Fail(ProtocolViolated, removal);
        return;
      }
      var pending := pendingTranscription.value;
      if pending.cancelTicket.Some? || m.session != pending.request.session || m.id != pending.request.id
         || m.engine != pending.request.engine || m.model != pending.model {
        ConcludeTranscription(Failed(ProtocolViolated), Failed(ProtocolViolated), removal);
        Fail(ProtocolViolated, removal);
        return;
      }
      ConcludeTranscription(Text(pending.request, m.text), Done, removal);
    }

    method OnCancelled(session: Wire.Uuid, id: Wire.Uuid, removal: Removal)
      modifies this
      ensures Value() == CompleteCancelled(old(Value()), session, id, removal)
    {
      hide FailProcess, Conclude;
      if pendingTranscription.None? {
        Fail(ProtocolViolated, removal);
        return;
      }
      var pending := pendingTranscription.value;
      if session != pending.request.session || id != pending.request.id {
        ConcludeTranscription(Failed(ProtocolViolated), Failed(ProtocolViolated), removal);
        Fail(ProtocolViolated, removal);
        return;
      }
      ConcludeTranscription(Failed(Or(pending.terminalFault, WasCancelled)), Done, removal);
    }

    method OnWorkerError(m: Message, removal: Removal)
      requires m.WorkerError?
      modifies this
      ensures Value() == CompleteError(old(Value()), m, removal)
    {
      hide FailProcess, Conclude, MapWorkerError, Answer;
      var mapped := MapWorkerError(m.code, m.retryable, m.key);
      if pendingTranscription.Some? && m.errorSession == Some(pendingTranscription.value.request.session)
         && m.errorRequest == Some(pendingTranscription.value.request.id) {
        ConcludeTranscription(Failed(Or(pendingTranscription.value.terminalFault, mapped)), Failed(mapped), removal);
      } else if pendingHealth.Some? && m.errorSession.None? && m.errorRequest == Some(pendingHealth.value.id) {
        var pending := pendingHealth.value;
        pendingHealth := None;
        Complete(pending.ticket, Failed(mapped));
      } else {
        Fail(ProtocolViolated, removal);
        return;
      }
      if m.fatal {
        Fail(mapped, removal);
      }
    }

    method OnShutdownComplete(removal: Removal)
      modifies this
      ensures Value() == CompleteShutdown(old(Value()), removal)
    {
      hide FailProcess, Conclude;
      if pendingShutdown.None? {
        Fail(ProtocolViolated, removal);
        return;
      }
      var shutdown := pendingShutdown.value;
      pendingShutdown := None;
      if pendingTranscription.Some? {
        ConcludeTranscription(Failed(SupervisorClosed), Done, removal);
      }
      Complete(shutdown.ticket, Done);
      process := false;
      closed := shutdown.close;
    }

    method HandleDelivery(d: Delivery, removal: Removal)
      requires process
      modifies this
      ensures Value() == Receive(old(Value()), d, removal)
    {
      hide FailProcess, CompleteHealth, CompleteTranscription, CompleteCancelled, CompleteError, CompleteShutdown;
      if d.Broken? || !d.allowed {
        Fail(ProtocolViolated, removal);
        return;
      }
      match d.message {
        case HealthResult(id, engine, model, status) => OnHealthResult(id, engine, model, status, removal);
        case Transcript(_, _, _, _, _) => OnTranscript(d.message, removal);
        case Cancelled(session, id) => OnCancelled(session, id, removal);
        case WorkerError(_, _, _, _, _, _) => OnWorkerError(d.message, removal);
        case ShutdownComplete => OnShutdownComplete(removal);
        case Ready => Fail(ProtocolViolated, removal);
      }
    }

    /** Takes the worker's messages until there are no more, or no process. */
    method DrainWorkerOutput(output: seq<(Delivery, Removal)>)
      requires phase == Draining
      modifies this
      ensures Value() == Run(old(Value()), config, OutputSteps(output))
      ensures phase == Draining
    {
      hide Receive;
      var i := 0;
      assert output[0..] == output;
      while i < |output| && process
        invariant 0 <= i <= |output| && phase == Draining
        invariant Run(Value(), config, OutputSteps(output[i..])) == Run(old(Value()), config, OutputSteps(output))
      {
        ghost var before := Value();
        assert output[i..][1..] == output[i + 1..];
        RunFirst(before, config, Deliver(output[i].0, output[i].1), OutputSteps(output[i + 1..]));
        HandleDelivery(output[i].0, output[i].1);
        ReceivePhase(before, output[i].0, output[i].1);
        i := i + 1;
      }
      if i == |output| {
        assert output[i..] == [];
      } else {
        NothingToDrain(Value(), config, output[i..]);
      }
    }

    // -------------------------------------------------------------- deadlines

    method CancelExpiredRequest(w: World)
      requires pendingTranscription.Some?
      modifies this
      ensures Value() == CancelForDeadline(old(Value()), config, w)
    {
      hide FailProcess;
      if w.sending.Some? {
        Fail(w.sending.value, w.removal);
        return;
      }
      now := now + w.lag;
      pendingTranscription := Some(pendingTranscription.value.(
        terminalFault := Some(TimedOut),
        cancelDeadline := Some(DeadlineAfter(config, now, config.cancelTimeout))));
    }

    method Enforce(w: World)
      modifies this
      ensures Value() == EnforceDeadlines(old(Value()), config, w)
    {
      hide FailProcess, CancelForDeadline;
      var start := now;
      if pendingHealth.Some? && start >= pendingHealth.value.deadline {
        var pending := pendingHealth.value;
        pendingHealth := None;
        Complete(pending.ticket, Failed(TimedOut));
        Fail(TimedOut, w.removal);
        return;
      }
      if pendingTranscription.Some? && start >= pendingTranscription.value.deadline
         && pendingTranscription.value.cancelDeadline.None? {
        CancelExpiredRequest(w);
      }
      if pendingTranscription.Some? && pendingTranscription.value.cancelDeadline.Some?
         && start >= pendingTranscription.value.cancelDeadline.value {
        Fail(TimedOut, w.removal);
        return;
      }
      if pendingShutdown.Some? && start >= pendingShutdown.value.deadline {
        Fail(TimedOut, w.removal);
      }
    }

    // -------------------------------------------------------------- the loop

    /** The actor is dropped: its process ends, and so does a grant it still holds. */
    method LeaveLoop(removal: Removal)
      modifies this
      ensures Value() == Leave(old(Value()), removal)
      ensures phase == Returned
    {
      process := false;
      if pendingTranscription.Some? {
        if removal != Stuck {
          files := files - {pendingTranscription.value.ticket};
        } else {
          unreported := unreported + {pendingTranscription.value.ticket};
        }
      }
      phase := Returned;
    }

    method HandleArrival(arrival: Arrival)
      requires phase == Receiving
      modifies this
      ensures Value() == Next(old(Value()), config, ArrivalStep(arrival))
      ensures phase == Draining || phase == Returned
    {
      hide Handle, FailAll;
      match arrival {
        case Nothing =>
          phase := Draining;
        case Arrived(command, w) =>
          var stop := HandleCommand(command, w);
          if stop {
            LeaveLoop(w.removal);
          } else {
            phase := Draining;
          }
        case Hangup(removal) =>
          FailEverything(SupervisorClosed, removal);
          LeaveLoop(removal);
      }
    }

    method RunRound(r: Round)
      requires phase == Draining
      modifies this
      ensures Value() == Run(old(Value()), config, RoundSteps(r))
      ensures phase == Draining || phase == Returned
    {
      hide EnforceDeadlines, Handle, FailAll, Run, RoundSteps, Leave, ArrivalStep;
      ghost var v0 := Value();
      now := now + r.elapsed;
      ghost var v1 := Value();
      DrainWorkerOutput(r.output);
      ghost var v2 := Value();
      RoundUnfolds(v0, v1, v2, config, r);
      if closed {
        LeaveLoop(r.world.removal);
        ReturnedStays(Value(), config, Tick(r.waited));
        ReturnedStays(Value(), config, ArrivalStep(r.arrival));
        return;
      }
      Enforce(r.world);
      EnforceMoves(v2, config, r.world);
      phase, enforcedAt := Receiving, v2.now;
      now := now + r.waited;
      HandleArrival(r.arrival);
    }
  }

  lemma RunFirst(a: Actor, c: Config, step: Step, rest: seq<Step>)
    ensures Run(a, c, [step] + rest) == Run(Next(a, c, step), c, rest)
  {
    assert ([step] + rest)[1..] == rest;
  }

  lemma {:induction false} RunConcat(a: Actor, c: Config, first: seq<Step>, second: seq<Step>)
    ensures Run(a, c, first + second) == Run(Run(a, c, first), c, second)
    decreases |first|
  {
    if first == [] {
      assert first + second == second;
    } else {
      assert (first + second)[1..] == first[1..] + second;
      RunConcat(Next(a, c, first[0]), c, first[1..], second);
    }
  }

  /** A round's steps, once the worker's output is drained. */
  lemma RoundUnfolds(a: Actor, b: Actor, d: Actor, c: Config, r: Round)
    requires a.phase == Draining
    requires b == Next(a, c, Tick(r.elapsed)) && d == Run(b, c, OutputSteps(r.output))
    ensures Run(a, c, RoundSteps(r))
         == Next(Next(Next(d, c, Sweep(r.world)), c, Tick(r.waited)), c, ArrivalStep(r.arrival))
  {
    hide Next;
    var tail := [Sweep(r.world), Tick(r.waited), ArrivalStep(r.arrival)];
    RunConcat(a, c, [Tick(r.elapsed)] + OutputSteps(r.output), tail);
    RunFirst(a, c, Tick(r.elapsed), OutputSteps(r.output));
    assert tail[1..] == [Tick(r.waited), ArrivalStep(r.arrival)];
    assert tail[1..][1..] == [ArrivalStep(r.arrival)];
    assert tail[1..][1..][1..] == [];
    assert Run(d, c, tail) == Run(Next(d, c, Sweep(r.world)), c, tail[1..]);
    assert Run(Next(d, c, Sweep(r.world)), c, tail[1..])
        == Run(Next(Next(d, c, Sweep(r.world)), c, Tick(r.waited)), c, tail[1..][1..]);
  }

  lemma ReturnedStays(a: Actor, c: Config, step: Step)
    requires a.phase == Returned
    ensures Next(a, c, step) == a
  {
  }

  lemma ReceivePhase(a: Actor, d: Delivery, removal: Removal)
    ensures Receive(a, d, removal).phase == a.phase
  {
    hide FailProcess, Conclude, Answer, MapWorkerError;
    forall b: Actor, fault ensures FailProcess(b, fault, removal).phase == b.phase {
      FailProcessTears(b, fault, removal);
    }
    forall b: Actor, t, o ensures Answer(b, t, o).phase == b.phase {
      AnswerFields(b, t, o);
    }
    forall b: Actor, o, o' | b.transcription.Some? ensures Conclude(b, o, o', removal).phase == b.phase {
      ConcludeFields(b, o, o', removal);
    }
  }

  lemma {:induction false} NothingToDrain(a: Actor, c: Config, output: seq<(Delivery, Removal)>)
    requires !a.process
    ensures Run(a, c, OutputSteps(output)) == a
    decreases |output|
  {
    if output != [] {
      RunFirst(a, c, Deliver(output[0].0, output[0].1), OutputSteps(output[1..]));
      NothingToDrain(a, c, output[1..]);
    }
  }
}
