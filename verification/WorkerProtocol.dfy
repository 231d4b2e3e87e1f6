/** The lifecycle guard that both ends of the worker connection keep. */
module WorkerProtocol {
  import opened Wrappers
  import opened Bytes

  type Uuid = nat

  const NIL: Uuid := 0
  const CONTRACT_VERSION: nat := 1

  datatype Ids = Ids(session: Uuid, request: Uuid)

  datatype Engine = Qwen | Whisper

  datatype Capability = HealthChecks | FinalTranscripts | Cancellation | GracefulShutdown

  /** What every envelope carries. `utc` says whether `sent_at` is a UTC timestamp. */
  datatype Header = Header(version: nat, id: Uuid, session: Option<Uuid>, request: Option<Uuid>, utc: bool)

  datatype CoreMessage =
    | Hello(coreVersion: string, versions: seq<nat>, required: seq<Capability>)
    | HealthCheck(healthModel: string)
    | Transcribe(ids: Ids, model: string, formatComplete: bool, deadlineMs: nat, languageHint: Option<string>)
    | Cancel(ids: Ids)
    | Shutdown(graceMs: nat)

  datatype CoreEnvelope = CoreEnvelope(header: Header, message: CoreMessage)

  datatype ErrorCode =
    | ProtocolIncompatible | InvalidRequest | EngineUnavailable | ModelMissing
    | ModelIncompatible | InferenceFailed | CancellationFailed | Internal

  datatype WorkerMessage =
    | Ready(version: nat, workerVersion: string, engines: seq<Engine>, runtimeId: string,
            capabilities: seq<Capability>, buildId: string)
    | HealthResult(model: string, modelVersion: string, deviceClass: string, safeErrorCode: Option<string>)
    | Transcript(ids: Ids, model: string, text: string, language: Option<string>)
    | Cancelled(ids: Ids)
    | Error(code: ErrorCode, retryable: bool, fatal: bool, key: string)
    | ShutdownComplete(workerVersion: string)

  datatype WorkerEnvelope = WorkerEnvelope(header: Header, message: WorkerMessage)

  datatype ProtocolError =
    | UnsupportedContractVersion | NilIdentifier | MissingCorrelation | UnexpectedCorrelation
    | CorrelationMismatch | DuplicateRequestCorrelation | UnknownRequestCorrelation
    | InvalidField | DuplicateValue | UnexpectedMessage | NegotiationFailed | MissingCapability

  // ---------------------------------------------------------------- validation

  predicate AllDistinct<T(==)>(s: seq<T>) {
    forall i, j :: 0 <= i < j < |s| ==> s[i] != s[j]
  }

  predicate BlankIfPresent(text: Option<string>) {
    text.Some? && IsBlank(text.value)
  }

  function HeaderError(h: Header): Option<ProtocolError> {
    if h.version != CONTRACT_VERSION then Some(UnsupportedContractVersion)
    else if h.id == NIL || h.session == Some(NIL) || h.request == Some(NIL) then Some(NilIdentifier)
    else if !h.utc then Some(InvalidField)
    else None
  }

  function CorrelationError(h: Header, session: bool, request: bool): Option<ProtocolError> {
    if session && h.session.None? then Some(MissingCorrelation)
    else if !session && h.session.Some? then Some(UnexpectedCorrelation)
    else if request && h.request.None? then Some(MissingCorrelation)
    else if !request && h.request.Some? then Some(UnexpectedCorrelation)
    else None
  }

  /** Both ids present and equal to the payload's. */
  function IdsError(h: Header, ids: Ids): Option<ProtocolError> {
    if CorrelationError(h, true, true).Some? then CorrelationError(h, true, true)
    else if h.session != Some(ids.session) || h.request != Some(ids.request) then Some(CorrelationMismatch)
    else None
  }

  function CoreError(e: CoreEnvelope): Option<ProtocolError> {
    if HeaderError(e.header).Some? then HeaderError(e.header)
    else match e.message
      case Hello(coreVersion, versions, required) =>
        if CorrelationError(e.header, false, false).Some? then CorrelationError(e.header, false, false)
        else if IsBlank(coreVersion) then Some(InvalidField)
        else if CONTRACT_VERSION !in versions then Some(NegotiationFailed)
        else if !AllDistinct(versions) || !AllDistinct(required) then Some(DuplicateValue)
        else None
      case HealthCheck(model) =>
        if CorrelationError(e.header, false, true).Some? then CorrelationError(e.header, false, true)
        else if IsBlank(model) then Some(InvalidField)
        else None
      case Transcribe(ids, model, formatComplete, deadlineMs, hint) =>
        if IdsError(e.header, ids).Some? then IdsError(e.header, ids)
        else if IsBlank(model) || !formatComplete || deadlineMs == 0 || BlankIfPresent(hint) then Some(InvalidField)
        else None
      case Cancel(ids) => IdsError(e.header, ids)
      case Shutdown(_) => CorrelationError(e.header, false, false)
  }

  function WorkerError(e: WorkerEnvelope): Option<ProtocolError> {
    if HeaderError(e.header).Some? then HeaderError(e.header)
    else match e.message
      case Ready(version, workerVersion, engines, runtimeId, capabilities, buildId) =>
        if CorrelationError(e.header, false, false).Some? then CorrelationError(e.header, false, false)
        else if IsBlank(workerVersion) || IsBlank(runtimeId) || IsBlank(buildId) || version == 0 || engines == []
        then Some(InvalidField)
        else if !AllDistinct(engines) || !AllDistinct(capabilities) then Some(DuplicateValue)
        else None
      case HealthResult(model, modelVersion, deviceClass, safeErrorCode) =>
        if CorrelationError(e.header, false, true).Some? then CorrelationError(e.header, false, true)
        else if IsBlank(model) || IsBlank(modelVersion) || IsBlank(deviceClass) || BlankIfPresent(safeErrorCode)
        then Some(InvalidField)
        else None
      case Transcript(ids, model, text, language) =>
        if IdsError(e.header, ids).Some? then IdsError(e.header, ids)
        else if IsBlank(model) || IsBlank(text) || BlankIfPresent(language) then Some(InvalidField)
        else None
      case Cancelled(ids) => IdsError(e.header, ids)
      case Error(_, _, _, key) =>
        if e.header.session.Some? != e.header.request.Some? then Some(MissingCorrelation)
        else if IsBlank(key) then Some(InvalidField)
        else None
      case ShutdownComplete(workerVersion) =>
        if CorrelationError(e.header, false, false).Some? then CorrelationError(e.header, false, false)
        else if IsBlank(workerVersion) then Some(InvalidField)
        else None
  }

  // ---------------------------------------------------------------- the guard

  datatype Phase = AwaitingHello | AwaitingReady | Serving | ShuttingDown | Closed

  datatype State = State(
    phase: Phase,
    offered: seq<nat>,
    required: seq<Capability>,
    negotiated: Option<nat>,
    active: set<Ids>)

  datatype Outcome = Outcome(state: State, error: Option<ProtocolError>)

  const FRESH: State := State(AwaitingHello, [], [], None, {})

  function Accept(s: State): Outcome { Outcome(s, None) }

  function Refuse(s: State, error: ProtocolError): Outcome { Outcome(s, Some(error)) }

  function Complete(s: State, ids: Ids): Outcome {
    if ids in s.active then Accept(s.(active := s.active - {ids})) else Refuse(s, UnknownRequestCorrelation)
  }

  function ObserveCore(s: State, e: CoreEnvelope): Outcome {
    if CoreError(e).Some? then Outcome(s, CoreError(e))
    else match e.message
      case Hello(_, versions, required) =>
        if s.phase == AwaitingHello
        then Accept(s.(phase := AwaitingReady, offered := versions, required := required))
        else Refuse(s, UnexpectedMessage)
      case Shutdown(_) =>
        if s.phase == AwaitingReady || s.phase == Serving then Accept(s.(phase := ShuttingDown))
        else Refuse(s, UnexpectedMessage)
      case HealthCheck(_) =>
        if s.phase == Serving then Accept(s) else Refuse(s, UnexpectedMessage)
      case Transcribe(ids, _, _, _, _) =>
        if s.phase != Serving then Refuse(s, UnexpectedMessage)
        else if ids in s.active then Refuse(s, DuplicateRequestCorrelation)
        else Accept(s.(active := s.active + {ids}))
      case Cancel(ids) =>
        if s.phase != Serving then Refuse(s, UnexpectedMessage)
        else if ids in s.active then Accept(s)
        else Refuse(s, UnknownRequestCorrelation)
  }

  function ObserveWorker(s: State, e: WorkerEnvelope): Outcome {
    if WorkerError(e).Some? then Outcome(s, WorkerError(e))
    else match e.message
      case Ready(version, _, _, _, capabilities, _) =>
        if s.phase != AwaitingReady then Refuse(s, UnexpectedMessage)
        else if version !in s.offered then Refuse(s.(phase := Closed), NegotiationFailed)
        else if exists i :: 0 <= i < |s.required| && s.required[i] !in capabilities
        then Refuse(s.(phase := Closed), MissingCapability)
        else Accept(s.(phase := Serving, negotiated := Some(version)))
      case Error(_, _, fatal, _) =>
        if s.phase == AwaitingHello || s.phase == Closed then Refuse(s, UnexpectedMessage)
        else
          var o := if e.header.session.Some? && e.header.request.Some?
                   then Complete(s, Ids(e.header.session.value, e.header.request.value)) else Accept(s);
          if o.error.None? && fatal then Accept(o.state.(active := {}, phase := Closed)) else o
      case HealthResult(_, _, _, _) =>
        if s.phase == Serving then Accept(s) else Refuse(s, UnexpectedMessage)
      case Transcript(ids, _, _, _) =>
        if s.phase == Serving then Complete(s, ids) else Refuse(s, UnexpectedMessage)
      case Cancelled(ids) =>
        if s.phase == Serving || s.phase == ShuttingDown then Complete(s, ids) else Refuse(s, UnexpectedMessage)
      case ShutdownComplete(_) =>
        if s.phase == ShuttingDown then Accept(s.(active := {}, phase := Closed)) else Refuse(s, UnexpectedMessage)
  }

  class WorkerProtocolState {
    var phase: Phase
    var offered: seq<nat>
    var required: seq<Capability>
    var negotiated: Option<nat>
    var active: set<Ids>

    ghost function Value(): State
      reads this
    {
      State(phase, offered, required, negotiated, active)
    }

    constructor ()
      ensures Value() == FRESH
    {
      phase, offered, required, negotiated, active := AwaitingHello, [], [], None, {};
    }

    method CompleteActive(ids: Ids) returns (error: Option<ProtocolError>)
      modifies this
      ensures Outcome(Value(), error) == Complete(old(Value()), ids)
    {
      if ids !in active {
        return Some(UnknownRequestCorrelation);
      }
      active := active - {ids};
      return None;
    }

    method ObserveCoreMessage(e: CoreEnvelope) returns (error: Option<ProtocolError>)
      modifies this
      ensures Outcome(Value(), error) == ObserveCore(old(Value()), e)
    {
      error := CoreError(e);
      if error.Some? {
        return;
      }
      match e.message {
        case Hello(_, versions, capabilities) =>
          if phase == AwaitingHello {
            offered, required, phase := versions, capabilities, AwaitingReady;
            return None;
          }
        case Shutdown(_) =>
          if phase == AwaitingReady || phase == Serving {
            phase := ShuttingDown;
            return None;
          }
        case HealthCheck(_) =>
          if phase == Serving {
            return None;
          }
        case Transcribe(ids, _, _, _, _) =>
          if phase == Serving {
            if ids in active {
              return Some(DuplicateRequestCorrelation);
            }
            active := active + {ids};
            return None;
          }
        case Cancel(ids) =>
          if phase == Serving {
            return if ids in active then None else Some(UnknownRequestCorrelation);
          }
      }
      return Some(UnexpectedMessage);
    }

    method ObserveWorkerMessage(e: WorkerEnvelope) returns (error: Option<ProtocolError>)
      modifies this
      ensures Outcome(Value(), error) == ObserveWorker(old(Value()), e)
    {
      error := WorkerError(e);
      if error.Some? {
        return;
      }
      match e.message {
        case Ready(version, _, _, _, capabilities, _) =>
          if phase == AwaitingReady {
            if version !in offered {
              phase := Closed;
              return Some(NegotiationFailed);
            }
            if exists i :: 0 <= i < |required| && required[i] !in capabilities {
              phase := Closed;
              return Some(MissingCapability);
            }
            negotiated, phase := Some(version), Serving;
            return None;
          }
        case Error(_, _, fatal, _) =>
          if phase == AwaitingReady || phase == Serving || phase == ShuttingDown {
            if e.header.session.Some? && e.header.request.Some? {
              error := CompleteActive(Ids(e.header.session.value, e.header.request.value));
              if error.Some? {
                return;
              }
            }
            if fatal {
              active, phase := {}, Closed;
            }
            return None;
          }
        case HealthResult(_, _, _, _) =>
          if phase == Serving {
            return None;
          }
        case Transcript(ids, _, _, _) =>
          if phase == Serving {
            error := CompleteActive(ids);
            return;
          }
        case Cancelled(ids) =>
          if phase == Serving || phase == ShuttingDown {
            error := CompleteActive(ids);
            return;
          }
        case ShutdownComplete(_) =>
          if phase == ShuttingDown {
            active, phase := {}, Closed;
            return None;
          }
      }
      return Some(UnexpectedMessage);
    }
  }
}
