/** The worker's event loop: one inference at a time, with request deadlines,
    cancellation and graceful shutdown. */
module WorkerRuntime {
  import opened Wrappers
  import opened Bytes
  import opened WorkerProtocol

  datatype Active = Active(ids: Ids, model: string, cancelRequested: bool, timedOut: bool, stopped: bool)

  datatype RuntimeError = Protocol | Output | ShutdownTimeout | Input | UnexpectedInputClosure

  datatype Exit = Graceful | Failed(error: RuntimeError)

  datatype EngineTranscript = EngineTranscript(text: string, language: Option<string>)

  datatype EngineError = EngineError(code: ErrorCode, retryable: bool, key: string)

  /** What the reader, inference and timer threads send. An input comes with what
      the outside would answer: whether the audio artifact is there, and the
      engine's health. */
  datatype Event =
    | Received(envelope: CoreEnvelope, audio: bool, health: WorkerMessage)
    | InferenceFinished(ids: Ids, outcome: Result<EngineTranscript, EngineError>)
    | RequestDeadline(ids: Ids)
    | ShutdownDeadline
    | InputFailure
    | InputClosed

  datatype Config = Config(workerVersion: string, runtimeId: string, buildId: string, engines: seq<Engine>)

  /** What the configuration's constructor and the engines guarantee. */
  predicate ValidConfig(c: Config) {
    && !IsBlank(c.workerVersion) && !IsBlank(c.runtimeId) && !IsBlank(c.buildId)
    && c.engines != [] && AllDistinct(c.engines)
  }

  /** The loop's variables, the frames written so far, how many more the pipe
      will take, and the transcription requests the guard has accepted. */
  datatype Runtime = Runtime(
    guard: State,
    active: Option<Active>,
    shutdownRequested: bool,
    written: seq<WorkerEnvelope>,
    writable: nat,
    accepted: seq<Ids>,
    exit: Option<Exit>)

  function Start(writable: nat): Runtime {
    Runtime(FRESH, None, false, [], writable, [], None)
  }

  // ---------------------------------------------------------------- writing

  /** The envelope around a message; its id is random and only has to be non-nil. */
  function Stamped(session: Option<Uuid>, request: Option<Uuid>, message: WorkerMessage): WorkerEnvelope {
    WorkerEnvelope(Header(CONTRACT_VERSION, 1, session, request, true), message)
  }

  function About(ids: Ids, message: WorkerMessage): WorkerEnvelope {
    Stamped(Some(ids.session), Some(ids.request), message)
  }

  function WriteFrame(r: Runtime, e: WorkerEnvelope): Runtime {
    if r.writable == 0 then r.(exit := Some(Failed(Output)))
    else r.(written := r.written + [e], writable := r.writable - 1)
  }

  /** A message leaves only if it is well formed and the guard allows it now. */
  function Emit(r: Runtime, e: WorkerEnvelope): Runtime {
    var o := ObserveWorker(r.guard, e);
    if o.error.Some? then r.(guard := o.state, exit := Some(Failed(Protocol)))
    else WriteFrame(r.(guard := o.state), e)
  }

  /** Reports a fatal error and stops; before the hello the guard is not asked. */
  function EmitFatal(r: Runtime, code: ErrorCode, key: string, failure: RuntimeError): Runtime {
    var e := Stamped(None, None, Error(code, false, true, key));
    var r1 := if r.guard.phase == AwaitingHello then WriteFrame(r, e) else Emit(r, e);
    if r1.exit.Some? then r1 else r1.(exit := Some(Failed(failure)))
  }

  const PROTOCOL_REJECTED := "worker.error.protocol_rejected"
  const INVALID_FRAME := "worker.error.invalid_frame"
  const BUSY := "worker.error.busy"
  const AUDIO_UNAVAILABLE := "worker.error.audio_artifact_unavailable"
  const DEADLINE_EXCEEDED := "worker.error.deadline_exceeded"
  const SHUTDOWN_TIMEOUT := "worker.error.shutdown_timeout"

  const ALL_CAPABILITIES := [HealthChecks, FinalTranscripts, Cancellation, GracefulShutdown]

  // ---------------------------------------------------------------- one event

  function RejectionCode(error: ProtocolError): ErrorCode {
    if error.UnsupportedContractVersion? || error.NegotiationFailed? || error.MissingCapability?
    then ProtocolIncompatible else InvalidRequest
  }

  function Finish(r: Runtime, c: Config): Runtime {
    var r1 := Emit(r, Stamped(None, None, ShutdownComplete(c.workerVersion)));
    if r1.exit.Some? then r1 else r1.(exit := Some(Graceful))
  }

  function OnTranscribe(r: Runtime, ids: Ids, model: string, audio: bool): Runtime {
    var r1 := r.(accepted := r.accepted + [ids]);
    if r.active.Some? then Emit(r1, About(ids, Error(InvalidRequest, true, false, BUSY)))
    else if !audio then Emit(r1, About(ids, Error(InvalidRequest, false, false, AUDIO_UNAVAILABLE)))
    else r1.(active := Some(Active(ids, model, false, false, false)))
  }

  function Cancelling(a: Active): Active {
    a.(cancelRequested := true, stopped := true)
  }

  function OnReceived(r: Runtime, c: Config, e: CoreEnvelope, audio: bool, health: WorkerMessage): Runtime {
    var o := ObserveCore(r.guard, e);
    var r1 := r.(guard := o.state);
    if o.error.Some? then EmitFatal(r1, RejectionCode(o.error.value), PROTOCOL_REJECTED, Protocol)
    else match e.message
      case Hello(_, _, _) =>
        Emit(r1, Stamped(None, None,
                         Ready(CONTRACT_VERSION, c.workerVersion, c.engines, c.runtimeId, ALL_CAPABILITIES, c.buildId)))
      case HealthCheck(_) =>
        Emit(r1, Stamped(None, e.header.request, health))
      case Transcribe(ids, model, _, _, _) => OnTranscribe(r1, ids, model, audio)
      case Cancel(_) =>
        if r1.active.Some? then r1.(active := Some(Cancelling(r1.active.value))) else r1
      case Shutdown(_) =>
        var r2 := r1.(shutdownRequested := true);
        if r2.active.Some? then r2.(active := Some(Cancelling(r2.active.value))) else Finish(r2, c)
  }

  /** The terminal message of a request whose inference came back. */
  function Verdict(a: Active, outcome: Result<EngineTranscript, EngineError>): WorkerMessage {
    if a.cancelRequested then Cancelled(a.ids)
    else if a.timedOut then Error(InferenceFailed, true, false, DEADLINE_EXCEEDED)
    else match outcome
      case Ok(t) => Transcript(a.ids, a.model, t.text, t.language)
      case Err(e) => Error(e.code, e.retryable, false, e.key)
  }

  function OnFinished(r: Runtime, c: Config, ids: Ids, outcome: Result<EngineTranscript, EngineError>): Runtime {
    if r.active.None? || r.active.value.ids != ids then r
    else
      var r1 := Emit(r.(active := None), About(ids, Verdict(r.active.value, outcome)));
      if r1.exit.None? && r1.shutdownRequested then Finish(r1, c) else r1
  }

  function OnRequestDeadline(r: Runtime, ids: Ids): Runtime {
    if r.active.Some? && r.active.value.ids == ids
    then r.(active := Some(r.active.value.(timedOut := true, stopped := true)))
    else r
  }

  function OnShutdownDeadline(r: Runtime): Runtime {
    if r.active.None? then r
    else
      var r1 := Emit(r.(active := None),
                     About(r.active.value.ids, Error(CancellationFailed, true, true, SHUTDOWN_TIMEOUT)));
      if r1.exit.Some? then r1 else r1.(exit := Some(Failed(ShutdownTimeout)))
  }

  function OnInputClosed(r: Runtime): Runtime {
    if r.guard.phase == Closed then r.(exit := Some(Graceful))
    else r.(active := if r.active.Some? then Some(r.active.value.(stopped := true)) else None,
            exit := Some(Failed(UnexpectedInputClosure)))
  }

  function Step(r: Runtime, c: Config, event: Event): Runtime {
    if r.exit.Some? then r
    else match event
      case Received(e, audio, health) => OnReceived(r, c, e, audio, health)
      case InferenceFinished(ids, outcome) => OnFinished(r, c, ids, outcome)
      case RequestDeadline(ids) => OnRequestDeadline(r, ids)
      case ShutdownDeadline => OnShutdownDeadline(r)
      case InputFailure => EmitFatal(r, InvalidRequest, INVALID_FRAME, Input)
      case InputClosed => OnInputClosed(r)
  }

  function Run(r: Runtime, c: Config, events: seq<Event>): Runtime
    decreases |events|
  {
    if events == [] then r else Run(Step(r, c, events[0]), c, events[1..])
  }

  // ---------------------------------------------------------------- the invariant

  predicate Named(ids: Ids) {
    ids.session != NIL && ids.request != NIL
  }

  function ActiveIds(r: Runtime): set<Ids> {
    if r.active.Some? then {r.active.value.ids} else {}
  }

  /** What holds between two events while the loop runs. */
  ghost predicate Running(r: Runtime) {
    && r.exit.None?
    && r.guard.phase in {AwaitingHello, Serving, ShuttingDown}
    && r.guard.active == ActiveIds(r)
    && (r.active.Some? ==> Named(r.active.value.ids) && !IsBlank(r.active.value.model))
    && (r.guard.phase == ShuttingDown <==> r.shutdownRequested)
    && (r.shutdownRequested ==> r.active.Some? && r.active.value.cancelRequested)
    && (r.guard.phase == AwaitingHello ==> r.active.None? && r.written == [] && r.accepted == [])
  }

  /** The request that a written message is the last word on. */
  function Terminal(e: WorkerEnvelope): Option<Ids> {
    match e.message
    case Transcript(ids, _, _, _) => Some(ids)
    case Cancelled(ids) => Some(ids)
    case Error(_, _, _, _) =>
      if e.header.session.Some? && e.header.request.Some?
      then Some(Ids(e.header.session.value, e.header.request.value)) else None
    case _ => None
  }

  function Answers(e: WorkerEnvelope): multiset<Ids> {
    if Terminal(e).Some? then multiset{Terminal(e).value} else multiset{}
  }

  function Answered(written: seq<WorkerEnvelope>): multiset<Ids>
    decreases |written|
  {
    if written == [] then multiset{}
    else Answered(written[..|written| - 1]) + Answers(written[|written| - 1])
  }
}
