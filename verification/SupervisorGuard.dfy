/** The supervisor together with the protocol guard of its worker process: which
    commands and which messages the guard refuses. */
module SupervisorGuard {
  import opened Wrappers
  import opened Bytes
  import Wire = WorkerProtocol
  import Worker = WorkerRuntime
  import opened Supervisor
  import opened SupervisorBooks
  import opened SupervisorRuns
  import opened SupervisorReplies

  // ---------------------------------------------------------------- the guard's side of each step

  /** The actor, and the guard of its process while there is one. */
  datatype Guarded = Guarded(actor: Actor, guard: Wire.State)

  /** The guard after a handshake. */
  const SERVING: Wire.State := Wire.State(Wire.Serving, [Wire.CONTRACT_VERSION], Worker.ALL_CAPABILITIES,
                                          Some(Wire.CONTRACT_VERSION), {})

  const GUARDED_START: Guarded := Guarded(START, Wire.FRESH)

  /** An envelope to the worker; its id is random and only has to be non-nil. */
  function Stamped(session: Option<Wire.Uuid>, request: Option<Wire.Uuid>, m: Wire.CoreMessage): Wire.CoreEnvelope {
    Wire.CoreEnvelope(Wire.Header(Wire.CONTRACT_VERSION, 1, session, request, true), m)
  }

  function IdsOf(r: Request): Wire.Ids {
    Wire.Ids(r.session, r.id)
  }

  /** What else a transcription request says: whether its audio format is complete,
      and the language hint. */
  datatype Form = Form(formatComplete: bool, hint: Option<string>)

  function CancelOf(r: Request): Wire.CoreEnvelope {
    Stamped(Some(r.session), Some(r.id), Wire.Cancel(IdsOf(r)))
  }

  /** The envelope that a command would send. */
  function EnvelopeOf(a: Actor, c: Config, command: Command, form: Form, w: World): Option<Wire.CoreEnvelope> {
    match command
    case Health(engine) => Some(Stamped(None, Some(w.newId), Wire.HealthCheck(ModelOf(c, engine))))
    case Transcribe(r) =>
      Some(Stamped(Some(r.session), Some(r.id),
                   Wire.Transcribe(IdsOf(r), ModelOf(c, r.engine), form.formatComplete, r.deadlineMs, form.hint)))
    case Cancel(_) => if a.transcription.Some? then Some(CancelOf(a.transcription.value.request)) else None
    case Shutdown(_) => Some(Stamped(None, None, Wire.Shutdown(c.shutdownTimeout)))
  }

  /** The command gets as far as sending its envelope. */
  predicate Sends(a: Actor, command: Command, w: World) {
    match command
    case Health(_) => NothingPending(a) && (a.process || w.spawning.None?)
    case Transcribe(_) =>
      NothingPending(a) && (a.process || w.spawning.None?) && w.source == Found && w.copying == Copied
    case Cancel(id) =>
      && a.transcription.Some? && a.transcription.value.request.id == id && a.transcription.value.cancelTicket.None?
    case Shutdown(close) => a.shutdown.None? && (close || NothingPending(a)) && a.process
  }

  /** The guard of the process, or of the one that would be started. */
  function GuardOf(g: Guarded): Wire.State {
    if g.actor.process then g.guard else SERVING
  }

  /** The guard is asked before anything is written to the pipe. */
  function Verdict(guard: Wire.State, e: Option<Wire.CoreEnvelope>, pipe: Option<Fault>): Option<Fault> {
    if e.Some? && Wire.ObserveCore(guard, e.value).error.Some? then Some(ProtocolViolated) else pipe
  }

  /** What comes out of the pipe; `engine` and `status` are fields the guard does not look at. */
  datatype Arrival = Lost | Arrived(envelope: Wire.WorkerEnvelope, engine: Wire.Engine, status: HealthStatus)

  function MessageOf(e: Wire.WorkerEnvelope, engine: Wire.Engine, status: HealthStatus): Message {
    match e.message
    case Ready(_, _, _, _, _, _) => Ready
    case HealthResult(model, _, _, _) => HealthResult(e.header.request, engine, model, status)
    case Transcript(ids, model, text, _) => Transcript(ids.session, ids.request, engine, model, text)
    case Cancelled(ids) => Cancelled(ids.session, ids.request)
    case Error(code, retryable, fatal, key) =>
      WorkerError(e.header.session, e.header.request, code, retryable, fatal, key)
    case ShutdownComplete(_) => ShutdownComplete
  }

  predicate Allowed(guard: Wire.State, e: Wire.WorkerEnvelope) {
    Wire.ObserveWorker(guard, e).error.None?
  }

  /** As the actor's steps, but the guard decides what may pass; in a world `sending`
      is only what the pipe does. */
  datatype GuardedStep =
    | Tick(elapsed: nat)
    | Arrive(arrival: Arrival, removal: Removal)
    | Sweep(world: World)
    | Idle
    | Dequeue(command: Command, form: Form, world: World)
    | Disconnect(removal: Removal)

  function DeliveryOf(g: Guarded, arrival: Arrival): Delivery {
    match arrival
    case Lost => Broken
    case Arrived(e, engine, status) => Delivered(MessageOf(e, engine, status), Allowed(g.guard, e))
  }

  /** The actor's step, with the guard's verdicts filled in. */
  function StepOf(g: Guarded, c: Config, step: GuardedStep): Step {
    match step
    case Tick(elapsed) => Step.Tick(elapsed)
    case Arrive(arrival, removal) => Deliver(DeliveryOf(g, arrival), removal)
    case Sweep(w) =>
      var e := if g.actor.transcription.Some? then Some(CancelOf(g.actor.transcription.value.request)) else None;
      Step.Sweep(w.(sending := Verdict(GuardOf(g), e, w.sending)))
    case Idle => Step.Idle
    case Dequeue(command, form, w) =>
      Step.Dequeue(command, w.(sending := Verdict(GuardOf(g), EnvelopeOf(g.actor, c, command, form, w), w.sending)))
    case Disconnect(removal) => Step.Disconnect(removal)
  }

  function GuardAfter(g: Guarded, c: Config, step: GuardedStep): Wire.State {
    match step
    case Arrive(Arrived(e, _, _), _) =>
      if g.actor.process && g.actor.phase == Draining then Wire.ObserveWorker(g.guard, e).state else g.guard
    case Dequeue(command, form, w) =>
      if g.actor.phase != Receiving then g.guard
      else if Sends(g.actor, command, w)
      then Wire.ObserveCore(GuardOf(g), EnvelopeOf(g.actor, c, command, form, w).value).state
      else GuardOf(g)
    case Sweep(w) =>
      if g.actor.phase == Draining && !g.actor.closed && !HealthExpired(g.actor) && RequestExpired(g.actor)
      then Wire.ObserveCore(GuardOf(g), CancelOf(g.actor.transcription.value.request)).state
      else g.guard
    case _ => g.guard
  }

  function GuardedNext(g: Guarded, c: Config, step: GuardedStep): Guarded {
    Guarded(Next(g.actor, c, StepOf(g, c, step)), GuardAfter(g, c, step))
  }

  function GuardedRun(g: Guarded, c: Config, steps: seq<GuardedStep>): Guarded
    decreases |steps|
  {
    if steps == [] then g else GuardedRun(GuardedNext(g, c, steps[0]), c, steps[1..])
  }

  /** A handshake that succeeds leaves the guard serving, with nothing active. */
  lemma HandshakeServes(coreVersion: string, e: Wire.WorkerEnvelope)
    requires e.message.Ready?
    ensures var hello := Wire.Hello(coreVersion, [Wire.CONTRACT_VERSION], Worker.ALL_CAPABILITIES);
            var o := Wire.ObserveCore(Wire.FRESH, Stamped(None, None, hello));
            var o' := Wire.ObserveWorker(o.state, e);
            o.error.None? && o'.error.None? ==> o'.state == SERVING
  {
  }

  /** A command that does not send does not depend on the pipe; one that does ends the
      process if the guard or the pipe refuses. */
  lemma SendsIff(a: Actor, c: Config, command: Command, w: World, fault: Fault)
    requires Slots(a) && a.phase != Returned
    ensures !Sends(a, command, w) ==> Handle(a, c, command, w.(sending := Some(fault))) == Handle(a, c, command, w)
    ensures Sends(a, command, w) ==> var b := Handle(a, c, command, w.(sending := Some(fault))).0;
                                     !b.process && NothingPending(b)
  {
    hide FailProcess;
    forall b: Actor, removal ensures Torn(b, FailProcess(b, fault, removal)) {
      FailProcessTears(b, fault, removal);
    }
  }

  // ---------------------------------------------------------------- guard and slots agree

  function ActiveOf(a: Actor): set<Wire.Ids> {
    if a.transcription.Some? then {IdsOf(a.transcription.value.request)} else {}
  }

  /** While there is a process, its guard serves exactly until a shutdown is pending,
      its one active request is the pending transcription, and a shutdown has taken
      over that one's timer. */
  ghost predicate Coupled(g: Guarded) {
    g.actor.process ==>
      && g.guard.phase == (if g.actor.shutdown.Some? then Wire.ShuttingDown else Wire.Serving)
      && g.guard.active == ActiveOf(g.actor)
      && (forall ids :: ids in ActiveOf(g.actor) ==> ids.session != Wire.NIL && ids.request != Wire.NIL)
      && TimerTakenOver(g.actor)
  }

  predicate TimerTakenOver(a: Actor) {
    a.shutdown.Some? && a.transcription.Some? ==> a.transcription.value.cancelDeadline.Some?
  }

  /** Exactly the messages that the guard lets through. */
  lemma AllowedIff(g: Guarded, e: Wire.WorkerEnvelope)
    requires Coupled(g) && g.actor.process && Wire.WorkerError(e).None?
    ensures Allowed(g.guard, e)
       <==> match e.message
            case HealthResult(_, _, _, _) => g.actor.shutdown.None?
            case Transcript(ids, _, _, _) => g.actor.shutdown.None? && ids in ActiveOf(g.actor)
            case Cancelled(ids) => ids in ActiveOf(g.actor)
            case Error(_, _, _, _) =>
              e.header.session.None? || Wire.Ids(e.header.session.value, e.header.request.value) in ActiveOf(g.actor)
            case ShutdownComplete(_) => g.actor.shutdown.Some?
            case Ready(_, _, _, _, _, _) => false
  {
  }

  /** Unfit values, and the cancellation of a request that a shutdown already ends. */
  predicate Unfit(a: Actor, c: Config, command: Command, form: Form, w: World) {
    match command
    case Health(engine) => w.newId == Wire.NIL || IsBlank(ModelOf(c, engine))
    case Transcribe(r) =>
      || r.session == Wire.NIL || r.id == Wire.NIL || IsBlank(ModelOf(c, r.engine))
      || !form.formatComplete || r.deadlineMs == 0 || Wire.BlankIfPresent(form.hint)
    case Cancel(_) => a.shutdown.Some?
    case Shutdown(_) => false
  }

  /** Exactly the commands that the guard refuses. */
  lemma RefusedIff(g: Guarded, c: Config, command: Command, form: Form, w: World)
    requires Coupled(g) && Slots(g.actor) && g.actor.phase == Receiving && Sends(g.actor, command, w)
    ensures Wire.ObserveCore(GuardOf(g), EnvelopeOf(g.actor, c, command, form, w).value).error.Some?
       <==> Unfit(g.actor, c, command, form, w)
  {
    if command.Cancel? {
      assert IdsOf(g.actor.transcription.value.request) in ActiveOf(g.actor);
    }
  }

  /** A process that was failed or shut down takes its guard with it. */
  lemma TornIsCoupled(a: Actor, b: Actor, guard: Wire.State)
    requires Torn(a, b)
    ensures Coupled(Guarded(b, guard))
  {
  }

  lemma ArriveKeepsCoupled(g: Guarded, c: Config, arrival: Arrival, removal: Removal)
    requires Coupled(g) && Invariant(g.actor) && g.actor.phase == Draining
    ensures Coupled(GuardedNext(g, c, Arrive(arrival, removal)))
  {
    hide FailProcess, CompleteHealth, CompleteTranscription, CompleteCancelled, CompleteError, CompleteShutdown, Books;
    var a := g.actor;
    FailProcessTears(a, ProtocolViolated, removal);
    if a.process && arrival.Arrived? && Allowed(g.guard, arrival.envelope) {
      var e, m := arrival.envelope, MessageOf(arrival.envelope, arrival.engine, arrival.status);
      match e.message
      case HealthResult(_, _, _, _) =>
        CompleteHealthMoves(a, m.about, m.engine, m.model, m.status, removal);
        CompleteHealthKeepsOthers(a, m.about, m.engine, m.model, m.status, removal);
      case Transcript(ids, _, _, _) => CompleteTranscriptionEnds(a, m, removal);
      case Cancelled(ids) => CompleteCancelledEnds(a, m.session, m.id, removal);
      case Error(_, _, _, _) => CompleteErrorEnds(a, m, removal);
      case ShutdownComplete(_) => CompleteShutdownMoves(a, removal);
      case Ready(_, _, _, _, _, _) =>
    }
  }

  lemma CompleteHealthKeepsOthers(a: Actor, id: Option<Wire.Uuid>, engine: Wire.Engine, model: string,
                                  status: HealthStatus, removal: Removal)
    ensures var b := CompleteHealth(a, id, engine, model, status, removal);
            Torn(a, b) || (b.process == a.process && b.transcription == a.transcription && b.shutdown == a.shutdown)
  {
    hide FailProcess;
    FailProcessTears(a, ProtocolViolated, removal);
    if a.health.Some? {
      FailProcessTears(Answer(a.(health := None), a.health.value.ticket, Failed(ProtocolViolated)), ProtocolViolated,
                       removal);
    }
  }

  /** The pending transcription is over, or everything is. */
  ghost predicate Ended(a: Actor, b: Actor) {
    Torn(a, b) || (b.process == a.process && b.transcription.None? && b.shutdown == a.shutdown)
  }

  lemma CompleteTranscriptionEnds(a: Actor, m: Message, removal: Removal)
    requires m.Transcript?
    ensures Ended(a, CompleteTranscription(a, m, removal))
  {
    hide FailProcess, Conclude;
    FailProcessTears(a, ProtocolViolated, removal);
    if a.transcription.Some? {
      ConcludeFields(a, Failed(ProtocolViolated), Failed(ProtocolViolated), removal);
      FailProcessTears(Conclude(a, Failed(ProtocolViolated), Failed(ProtocolViolated), removal), ProtocolViolated,
                       removal);
      ConcludeFields(a, Text(a.transcription.value.request, m.text), Done, removal);
    }
  }

  lemma CompleteCancelledEnds(a: Actor, session: Wire.Uuid, id: Wire.Uuid, removal: Removal)
    ensures Ended(a, CompleteCancelled(a, session, id, removal))
  {
    hide FailProcess, Conclude;
    FailProcessTears(a, ProtocolViolated, removal);
    if a.transcription.Some? {
      ConcludeFields(a, Failed(ProtocolViolated), Failed(ProtocolViolated), removal);
      FailProcessTears(Conclude(a, Failed(ProtocolViolated), Failed(ProtocolViolated), removal), ProtocolViolated,
                       removal);
      ConcludeFields(a, Failed(Or(a.transcription.value.terminalFault, WasCancelled)), Done, removal);
    }
  }

  predicate ConcernsAny(a: Actor, session: Option<Wire.Uuid>, request: Option<Wire.Uuid>) {
    ConcernsTranscription(a, session, request) || ConcernsHealth(a, session, request)
  }

  /** Unless an error is about the pending transcription, or about a health check, it fails the process. */
  lemma CompleteErrorEnds(a: Actor, m: Message, removal: Removal)
    requires m.WorkerError?
    ensures var b := CompleteError(a, m, removal);
            && (!ConcernsHealth(a, m.errorSession, m.errorRequest) ==> Ended(a, b))
            && (m.fatal || !ConcernsAny(a, m.errorSession, m.errorRequest) ==> Torn(a, b))
  {
    hide FailProcess, Conclude, Answer, MapWorkerError;
    var mapped := MapWorkerError(m.code, m.retryable, m.key);
    FailProcessTears(a, ProtocolViolated, removal);
    if ConcernsTranscription(a, m.errorSession, m.errorRequest) {
      var outcome := Failed(Or(a.transcription.value.terminalFault, mapped));
      ConcludeFields(a, outcome, Failed(mapped), removal);
      FailProcessTears(Conclude(a, outcome, Failed(mapped), removal), mapped, removal);
    } else if ConcernsHealth(a, m.errorSession, m.errorRequest) {
      AnswerFields(a.(health := None), a.health.value.ticket, Failed(mapped));
      FailProcessTears(Answer(a.(health := None), a.health.value.ticket, Failed(mapped)), mapped, removal);
    }
  }

  lemma SweepKeepsCoupled(g: Guarded, c: Config, w: World)
    requires Coupled(g) && Invariant(g.actor) && g.actor.phase == Draining
    ensures Coupled(GuardedNext(g, c, GuardedStep.Sweep(w)))
  {
    hide FailProcess, FailHealth, Books;
    var a, w' := g.actor, StepOf(g, c, GuardedStep.Sweep(w)).world;
    FailHealthFields(a, TimedOut);
    forall b: Actor, fault ensures Torn(b, FailProcess(b, fault, w.removal)) {
      FailProcessTears(b, fault, w.removal);
    }
  }

  lemma HealthKeepsCoupled(g: Guarded, c: Config, engine: Wire.Engine, form: Form, w: World)
    requires Coupled(g) && g.actor.phase == Receiving
    ensures Coupled(GuardedNext(g, c, GuardedStep.Dequeue(Health(engine), form, w)))
  {
    hide FailProcess;
    var fault := StepOf(g, c, GuardedStep.Dequeue(Health(engine), form, w)).world.sending;
    if fault.Some? {
      var b := Answer(g.actor.(issued := g.actor.issued + 1, process := true), g.actor.issued, Failed(fault.value));
      FailProcessTears(b, fault.value, w.removal);
    }
  }

  lemma TranscribeKeepsCoupled(g: Guarded, c: Config, request: Request, form: Form, w: World)
    requires Coupled(g) && g.actor.phase == Receiving
    ensures Coupled(GuardedNext(g, c, GuardedStep.Dequeue(Transcribe(request), form, w)))
  {
    hide FailProcess;
    forall b: Actor, fault ensures Torn(b, FailProcess(b, fault, w.removal)) {
      FailProcessTears(b, fault, w.removal);
    }
  }

  lemma CancelKeepsCoupled(g: Guarded, c: Config, id: Wire.Uuid, form: Form, w: World)
    requires Coupled(g) && g.actor.phase == Receiving
    ensures Coupled(GuardedNext(g, c, GuardedStep.Dequeue(Cancel(id), form, w)))
  {
    hide FailProcess;
    var a1 := g.actor.(issued := g.actor.issued + 1);
    var fault := StepOf(g, c, GuardedStep.Dequeue(Cancel(id), form, w)).world.sending;
    if fault.Some? {
      FailProcessTears(Answer(a1, g.actor.issued, Failed(fault.value)), fault.value, w.removal);
    }
  }

  /** The guard lets a shutdown through whenever one is sent. */
  lemma ShutdownSends(g: Guarded, c: Config, close: bool, form: Form, w: World)
    requires Coupled(g) && g.actor.phase == Receiving
    ensures var a, step := g.actor, GuardedStep.Dequeue(Shutdown(close), form, w);
            && StepOf(g, c, step).command == Shutdown(close) && StepOf(g, c, step).world.removal == w.removal
            && StepOf(g, c, step).world.lag == w.lag
            && GuardAfter(g, c, step) == (if a.shutdown.None? && (close || NothingPending(a)) && a.process
                                          then g.guard.(phase := Wire.ShuttingDown) else GuardOf(g))
  {
  }

  lemma ShutdownKeepsCoupled(g: Guarded, c: Config, close: bool, form: Form, w: World)
    requires Coupled(g) && g.actor.phase == Receiving
    ensures Coupled(GuardedNext(g, c, GuardedStep.Dequeue(Shutdown(close), form, w)))
  {
    hide FailProcess, FailHealth, Wire.ObserveWorker, Sends, EnvelopeOf, Verdict;
    FailHealthFields(g.actor.(issued := g.actor.issued + 1), SupervisorClosed);
    ShutdownSends(g, c, close, form, w);
    var a1 := FailHealth(g.actor.(issued := g.actor.issued + 1), SupervisorClosed);
    var fault := StepOf(g, c, GuardedStep.Dequeue(Shutdown(close), form, w)).world.sending;
    if fault.Some? {
      FailProcessTears(Answer(a1, g.actor.issued, Failed(fault.value)), fault.value, w.removal);
    }
  }

  lemma DequeueKeepsCoupled(g: Guarded, c: Config, command: Command, form: Form, w: World)
    requires Coupled(g) && g.actor.phase == Receiving
    ensures Coupled(GuardedNext(g, c, GuardedStep.Dequeue(command, form, w)))
  {
    hide Coupled, GuardedNext;
    match command
    case Health(engine) => HealthKeepsCoupled(g, c, engine, form, w);
    case Transcribe(request) => TranscribeKeepsCoupled(g, c, request, form, w);
    case Cancel(id) => CancelKeepsCoupled(g, c, id, form, w);
    case Shutdown(close) => ShutdownKeepsCoupled(g, c, close, form, w);
  }

  lemma NextKeepsCoupled(g: Guarded, c: Config, step: GuardedStep)
    requires Coupled(g) && Invariant(g.actor)
    ensures Coupled(GuardedNext(g, c, step))
  {
    hide Receive, EnforceDeadlines, Handle, FailAll, Books;
    match step
    case Arrive(arrival, removal) =>
      if g.actor.phase == Draining {
        ArriveKeepsCoupled(g, c, arrival, removal);
      }
    case Sweep(w) =>
      if g.actor.phase == Draining {
        SweepKeepsCoupled(g, c, w);
      }
    case Dequeue(command, form, w) =>
      if g.actor.phase == Receiving {
        DequeueKeepsCoupled(g, c, command, form, w);
      }
    case Disconnect(removal) =>
    case Tick(_) =>
    case Idle =>
  }

  // ---------------------------------------------------------------- every run

  function StepsOf(g: Guarded, c: Config, steps: seq<GuardedStep>): seq<Step>
    decreases |steps|
  {
    if steps == [] then [] else [StepOf(g, c, steps[0])] + StepsOf(GuardedNext(g, c, steps[0]), c, steps[1..])
  }

  lemma {:induction false} RunKeepsCoupled(g: Guarded, c: Config, steps: seq<GuardedStep>)
    requires Coupled(g) && Invariant(g.actor)
    ensures Coupled(GuardedRun(g, c, steps)) && Invariant(GuardedRun(g, c, steps).actor)
    ensures GuardedRun(g, c, steps).actor == Run(g.actor, c, StepsOf(g, c, steps))
    decreases |steps|
  {
    if steps != [] {
      NextKeepsCoupled(g, c, steps[0]);
      NextKeepsInvariant(g.actor, c, StepOf(g, c, steps[0]));
      RunKeepsCoupled(GuardedNext(g, c, steps[0]), c, steps[1..]);
    }
  }

  /** Every guarded run is a run of the actor, so all that holds of those holds here;
      and at every point the guard agrees with the slots. */
  lemma GuardAgrees(c: Config, steps: seq<GuardedStep>)
    ensures var g := GuardedRun(GUARDED_START, c, steps);
            && Coupled(g) && Invariant(g.actor)
            && g.actor == Run(START, c, StepsOf(GUARDED_START, c, steps))
  {
    StartInvariant();
    RunKeepsCoupled(GUARDED_START, c, steps);
  }

  // ---------------------------------------------------------------- what the guard decides

  /** At a point of a run at which the worker's messages are read. */
  ghost predicate Reading(g: Guarded) {
    Coupled(g) && Invariant(g.actor) && g.actor.process && g.actor.phase == Draining
  }

  /** A text is handed out exactly for a well formed transcript of the pending request
      that neither a cancellation nor a shutdown has overtaken, once its audio is gone. */
  lemma TextAnsweredIff(g: Guarded, c: Config, arrival: Arrival, removal: Removal, reply: Reply)
    requires Reading(g) && reply.outcome.Text? && reply !in g.actor.replies
    ensures reply in GuardedNext(g, c, Arrive(arrival, removal)).actor.replies
       <==> && arrival.Arrived? && arrival.envelope.message.Transcript? && Wire.WorkerError(arrival.envelope).None?
            && g.actor.transcription.Some? && g.actor.shutdown.None?
            && var p, m := g.actor.transcription.value, arrival.envelope.message;
               && m.ids == IdsOf(p.request) && arrival.engine == p.request.engine && m.model == p.model
               && p.cancelTicket.None? && removal == Removed
               && reply == Reply(p.ticket, Text(p.request, m.text))
  {
    var d := DeliveryOf(g, arrival);
    hide Receive, Invariant;
    TranscriptAnsweredIff(g.actor, d, removal, reply);
    if arrival.Arrived? && Wire.WorkerError(arrival.envelope).None? {
      AllowedIff(g, arrival.envelope);
      hide Coupled, Allowed;
    }
  }

  /** What ends a pending shutdown in failure: a lost pipe, a malformed message, an end
      of anything but the pending request, a fatal error or one about nothing, a health
      result, and a transcript, even of the pending request. */
  predicate FailsShutdown(a: Actor, arrival: Arrival) {
    arrival.Lost? || Wire.WorkerError(arrival.envelope).Some?
    || match arrival.envelope.message
       case Cancelled(ids) => ids !in ActiveOf(a)
       case Error(_, _, fatal, _) =>
         var h := arrival.envelope.header;
         h.session.None? || fatal || Wire.Ids(h.session.value, h.request.value) !in ActiveOf(a)
       case ShutdownComplete(_) => false
       case _ => true
  }

  ghost predicate ToldFailure(a: Actor, ticket: Ticket) {
    exists fault :: Reply(ticket, Failed(fault)) in a.replies
  }

  lemma FailingTellsShutdown(a: Actor, fault: Fault, removal: Removal)
    requires a.shutdown.Some?
    ensures var b := FailProcess(a, fault, removal); !b.process && ToldFailure(b, a.shutdown.value.ticket)
  {
    hide FailHealth, FailTranscription;
    FailHealthFields(a, fault);
    FailTranscriptionFields(FailHealth(a, fault), fault, removal);
    assert Reply(a.shutdown.value.ticket, Failed(fault)) in FailProcess(a, fault, removal).replies;
  }

  /** While a shutdown is pending, one message fails the process, and with it the
      shutdown's caller, exactly in these cases; a completion is success, and anything
      else leaves the shutdown pending. */
  lemma ShutdownFailsIff(g: Guarded, c: Config, arrival: Arrival, removal: Removal)
    requires Reading(g) && g.actor.shutdown.Some?
    ensures var a, b := g.actor, GuardedNext(g, c, Arrive(arrival, removal)).actor;
            if FailsShutdown(a, arrival) then !b.process && ToldFailure(b, a.shutdown.value.ticket)
            else if arrival.envelope.message.ShutdownComplete?
            then !b.process && Reply(a.shutdown.value.ticket, Done) in b.replies
            else b.process && b.shutdown == a.shutdown
  {
    hide FailProcess, CompleteTranscription, CompleteError, CompleteCancelled, CompleteHealth, Books;
    var a := g.actor;
    FailingTellsShutdown(a, ProtocolViolated, removal);
    if arrival.Arrived? && Wire.WorkerError(arrival.envelope).None? {
      var e, m := arrival.envelope, MessageOf(arrival.envelope, arrival.engine, arrival.status);
      AllowedIff(g, e);
      hide Allowed, Coupled;
      if e.message.Error? {
        ErrorInShutdown(a, m, removal);
      } else if e.message.Cancelled? && e.message.ids in ActiveOf(a) {
        CancelledInShutdown(a, m.session, m.id, removal);
      }
    }
  }

  lemma CancelledInShutdown(a: Actor, session: Wire.Uuid, id: Wire.Uuid, removal: Removal)
    requires Wire.Ids(session, id) in ActiveOf(a)
    ensures var b := CompleteCancelled(a, session, id, removal); b.process == a.process && b.shutdown == a.shutdown
  {
    hide FailProcess, Conclude;
    ConcludeFields(a, Failed(Or(a.transcription.value.terminalFault, WasCancelled)), Done, removal);
  }

  lemma ErrorInShutdown(a: Actor, m: Message, removal: Removal)
    requires m.WorkerError? && a.shutdown.Some? && a.health.None? && a.process
    ensures var b := CompleteError(a, m, removal);
            if ConcernsTranscription(a, m.errorSession, m.errorRequest) && !m.fatal
            then b.process && b.shutdown == a.shutdown
            else !b.process && ToldFailure(b, a.shutdown.value.ticket)
  {
    hide FailProcess, Conclude, MapWorkerError, ToldFailure;
    var mapped := MapWorkerError(m.code, m.retryable, m.key);
    if ConcernsTranscription(a, m.errorSession, m.errorRequest) {
      var outcome := Failed(Or(a.transcription.value.terminalFault, mapped));
      ConcludeFields(a, outcome, Failed(mapped), removal);
      FailingTellsShutdown(Conclude(a, outcome, Failed(mapped), removal), mapped, removal);
    } else {
      FailingTellsShutdown(a, ProtocolViolated, removal);
    }
  }

  /** A transcript or a health result that crosses a shutdown in the pipe fails the process. */
  lemma CrossingShutdownFails(g: Guarded, c: Config, arrival: Arrival, removal: Removal)
    requires Reading(g) && g.actor.shutdown.Some? && arrival.Arrived?
    requires arrival.envelope.message.Transcript? || arrival.envelope.message.HealthResult?
    ensures GuardedNext(g, c, Arrive(arrival, removal)).actor == FailProcess(g.actor, ProtocolViolated, removal)
  {
    if Wire.WorkerError(arrival.envelope).None? {
      AllowedIff(g, arrival.envelope);
    }
  }

  /** While a health check is pending, an error message of any kind fails the process:
      one that names only the health check is malformed to the guard, so the check is
      never answered with the worker's own error. */
  lemma HealthErrorFails(g: Guarded, c: Config, arrival: Arrival, removal: Removal)
    requires Reading(g) && g.actor.health.Some? && arrival.Arrived? && arrival.envelope.message.Error?
    ensures GuardedNext(g, c, Arrive(arrival, removal)).actor == FailProcess(g.actor, ProtocolViolated, removal)
  {
    hide FailProcess;
    if Wire.WorkerError(arrival.envelope).None? {
      AllowedIff(g, arrival.envelope);
    }
  }

  /** A command that is sent ends the process, although the pipe works, exactly if it is unfit. */
  lemma CommandFailsIff(g: Guarded, c: Config, command: Command, form: Form, w: World)
    requires Coupled(g) && Invariant(g.actor) && g.actor.phase == Receiving
    requires Sends(g.actor, command, w) && w.sending.None?
    ensures !GuardedNext(g, c, GuardedStep.Dequeue(command, form, w)).actor.process
       <==> Unfit(g.actor, c, command, form, w)
  {
    hide FailProcess, Books;
    RefusedIff(g, c, command, form, w);
    forall b: Actor, fault ensures Torn(b, FailProcess(b, fault, w.removal)) {
      FailProcessTears(b, fault, w.removal);
    }
  }

  /** The cancellation that a request's own deadline sends is never refused. */
  lemma DeadlineCancelPasses(g: Guarded)
    requires Coupled(g) && Invariant(g.actor) && g.actor.phase == Draining && RequestExpired(g.actor)
    ensures Wire.ObserveCore(GuardOf(g), CancelOf(g.actor.transcription.value.request)).error.None?
  {
    assert IdsOf(g.actor.transcription.value.request) in ActiveOf(g.actor);
  }

  // ---------------------------------------------------------------- a crossing

  const PROMPT: World := World(None, Found, Copied, None, Removed, 1, 0)

  const COMPLETE: Form := Form(true, None)

  /** A request, a closing shutdown, and the transcript that was on its way. */
  function CrossingSteps(r: Request, transcript: Wire.WorkerEnvelope): seq<GuardedStep> {
    [GuardedStep.Sweep(PROMPT), GuardedStep.Dequeue(Transcribe(r), COMPLETE, PROMPT),
     GuardedStep.Sweep(PROMPT), GuardedStep.Dequeue(Shutdown(true), COMPLETE, PROMPT),
     Arrive(Arrived(transcript, r.engine, Healthy), Removed)]
  }

  /** A transcript that is ready, and crosses a shutdown in the pipe, is lost: its
      caller and the shutdown's are both told of a protocol violation. */
  lemma TranscriptCrossesShutdown(c: Config, r: Request, transcript: Wire.WorkerEnvelope)
    requires !IsBlank(ModelOf(c, r.engine)) && 0 < r.deadlineMs <= c.lastInstant
    requires r.session != Wire.NIL && r.id != Wire.NIL && transcript.message.Transcript?
    ensures GuardedRun(GUARDED_START, c, CrossingSteps(r, transcript)).actor.replies
         == [Reply(0, Failed(ProtocolViolated)), Reply(1, Failed(ProtocolViolated))]
  {
    var steps := CrossingSteps(r, transcript);
    var p := PendingTranscription(r, ModelOf(c, r.engine), 0, r.deadlineMs, None, None, None, 0);
    var g1 := Guarded(START.(phase := Receiving), Wire.FRESH);
    assert GuardedNext(GUARDED_START, c, steps[0]) == g1;
    var serving := SERVING.(active := {IdsOf(r)});
    var g2 := Guarded(START.(process := true, transcription := Some(p), files := {0}, issued := 1), serving);
    RequestTaken(g1, g2, c, r, p);
    var g3 := g2.(actor := g2.actor.(phase := Receiving));
    assert GuardedNext(g2, c, steps[2]) == g3;
    ShutdownTaken(g3, c);
    var g4 := GuardedNext(g3, c, steps[3]);
    CrossedAnswers(g4, c, steps[4].arrival);
    var g5 := GuardedNext(g4, c, steps[4]);
    hide GuardedNext;
    GuardedFollows(GUARDED_START, g1, c, steps);
    GuardedFollows(g1, g2, c, steps[1..]);
    GuardedFollows(g2, g3, c, steps[1..][1..]);
    GuardedFollows(g3, g4, c, steps[1..][1..][1..]);
    GuardedFollows(g4, g5, c, steps[1..][1..][1..][1..]);
  }

  lemma RequestTaken(g1: Guarded, g2: Guarded, c: Config, r: Request, p: PendingTranscription)
    requires !IsBlank(ModelOf(c, r.engine)) && 0 < r.deadlineMs <= c.lastInstant
    requires r.session != Wire.NIL && r.id != Wire.NIL
    requires p == PendingTranscription(r, ModelOf(c, r.engine), 0, r.deadlineMs, None, None, None, 0)
    requires g1 == Guarded(START.(phase := Receiving), Wire.FRESH)
    requires g2 == Guarded(START.(process := true, transcription := Some(p), files := {0}, issued := 1),
                           SERVING.(active := {IdsOf(r)}))
    ensures GuardedNext(g1, c, GuardedStep.Dequeue(Transcribe(r), COMPLETE, PROMPT)) == g2
  {
  }

  /** The guard is shutting down; request 0 and shutdown 1 are pending, unanswered. */
  predicate BothPending(g: Guarded) {
    && g.actor.process && g.actor.phase == Draining && g.actor.replies == [] && g.guard.phase == Wire.ShuttingDown
    && g.actor.health.None? && g.actor.shutdown.Some? && g.actor.shutdown.value.ticket == 1
    && g.actor.transcription.Some? && g.actor.transcription.value.ticket == 0
    && g.actor.transcription.value.cancelTicket.None?
  }

  lemma ShutdownTaken(g: Guarded, c: Config)
    requires g.actor.process && g.actor.phase == Receiving && g.actor.issued == 1 && g.actor.replies == []
    requires g.actor.health.None? && g.actor.shutdown.None? && g.guard.phase == Wire.Serving
    requires g.actor.transcription.Some? && g.actor.transcription.value.ticket == 0
    requires g.actor.transcription.value.cancelTicket.None?
    ensures BothPending(GuardedNext(g, c, GuardedStep.Dequeue(Shutdown(true), COMPLETE, PROMPT)))
  {
  }

  lemma CrossedAnswers(g: Guarded, c: Config, arrival: Arrival)
    requires BothPending(g) && arrival.Arrived? && arrival.envelope.message.Transcript?
    ensures GuardedNext(g, c, Arrive(arrival, Removed)).actor.replies
         == [Reply(0, Failed(ProtocolViolated)), Reply(1, Failed(ProtocolViolated))]
  {
    assert !Allowed(g.guard, arrival.envelope);
  }

  lemma GuardedFollows(g: Guarded, g': Guarded, c: Config, steps: seq<GuardedStep>)
    requires steps != [] && GuardedNext(g, c, steps[0]) == g'
    ensures GuardedRun(g, c, steps) == GuardedRun(g', c, steps[1..])
  {
  }
}
