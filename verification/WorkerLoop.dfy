/** The event loop as it runs, proved to follow the step function event by event. */
module WorkerLoop {
  import opened Wrappers
  import opened WorkerProtocol
  import opened WorkerRuntime
  import opened WorkerAnswers
  import opened WorkerVerdicts

  class Worker {
    const config: Config
    const protocol: WorkerProtocolState
    var active: Option<Active>
    var shutdownRequested: bool
    var written: seq<WorkerEnvelope>
    var writable: nat
    ghost var accepted: seq<Ids>

    ghost function Value(exit: Option<Exit>): Runtime
      reads this, protocol
    {
      Runtime(protocol.Value(), active, shutdownRequested, written, writable, accepted, exit)
    }

    constructor (config: Config, writable: nat)
      ensures Value(None) == Start(writable) && this.config == config && fresh(protocol)
    {
      this.config := config;
      protocol := new WorkerProtocolState();
      active, shutdownRequested, written, this.writable, accepted := None, false, [], writable, [];
    }

    method Write(e: WorkerEnvelope) returns (failure: Option<Exit>)
      modifies this
      ensures Value(failure) == WriteFrame(old(Value(None)), e)
    {
      if writable == 0 {
        return Some(Failed(Output));
      }
      written, writable := written + [e], writable - 1;
      return None;
    }

    method EmitMessage(e: WorkerEnvelope) returns (failure: Option<Exit>)
      modifies this, protocol
      ensures Value(failure) == Emit(old(Value(None)), e)
    {
      hide ObserveWorker;
      var error := protocol.ObserveWorkerMessage(e);
      if error.Some? {
        return Some(Failed(Protocol));
      }
      failure := Write(e);
    }

    method EmitFatalError(code: ErrorCode, key: string, failure: RuntimeError) returns (exit: Option<Exit>)
      modifies this, protocol
      ensures Value(exit) == EmitFatal(old(Value(None)), code, key, failure)
    {
      hide ObserveWorker, WriteFrame, Emit;
      var e := Stamped(None, None, Error(code, false, true, key));
      if protocol.phase == AwaitingHello {
        exit := Write(e);
      } else {
        exit := EmitMessage(e);
      }
      if exit.None? {
        exit := Some(Failed(failure));
      }
    }

    method EmitShutdownComplete() returns (exit: Option<Exit>)
      modifies this, protocol
      ensures Value(exit) == Finish(old(Value(None)), config)
    {
      hide ObserveWorker;
      exit := EmitMessage(Stamped(None, None, ShutdownComplete(config.workerVersion)));
      if exit.None? {
        exit := Some(Graceful);
      }
    }

    method HandleTranscribe(ids: Ids, model: string, audio: bool) returns (exit: Option<Exit>)
      modifies this, protocol
      ensures Value(exit) == OnTranscribe(old(Value(None)), ids, model, audio)
    {
      hide ObserveWorker;
      accepted := accepted + [ids];
      if active.Some? {
        exit := EmitMessage(About(ids, Error(InvalidRequest, true, false, BUSY)));
        return;
      }
      if !audio {
        exit := EmitMessage(About(ids, Error(InvalidRequest, false, false, AUDIO_UNAVAILABLE)));
        return;
      }
      active := Some(Active(ids, model, false, false, false));
      return None;
    }

    /** An accepted cancellation always finds its request: the loop would stop
        dead if it did not. */
    method HandleCancel(ids: Ids)
      requires active.Some? && active.value.ids == ids
      modifies this`active
      ensures active == Some(Cancelling(old(active).value))
    {
      active := Some(active.value.(cancelRequested := true, stopped := true));
    }

    method HandleReceived(e: CoreEnvelope, audio: bool, health: WorkerMessage) returns (exit: Option<Exit>)
      requires Running(Value(None))
      modifies this, protocol
      ensures Value(exit) == OnReceived(old(Value(None)), config, e, audio, health)
    {
      hide ObserveWorker, Emit, EmitFatal, Finish, OnTranscribe, CoreError;
      assert e.message.Cancel? && ObserveCore(protocol.Value(), e).error.None? ==>
          (active.Some? && active.value.ids == e.message.ids) by {
        if e.message.Cancel? && ObserveCore(protocol.Value(), e).error.None? {
          CancelFindsRequest(Value(None), e);
        }
      }
      var error := protocol.ObserveCoreMessage(e);
      if error.Some? {
        exit := EmitFatalError(RejectionCode(error.value), PROTOCOL_REJECTED, Protocol);
        return;
      }
      match e.message {
        case Hello(_, _, _) =>
          exit := EmitMessage(Stamped(None, None, Ready(CONTRACT_VERSION, config.workerVersion, config.engines,
                                                        config.runtimeId, ALL_CAPABILITIES, config.buildId)));
        case HealthCheck(_) =>
          exit := EmitMessage(Stamped(None, e.header.request, health));
        case Transcribe(ids, model, _, _, _) =>
          exit := HandleTranscribe(ids, model, audio);
        case Cancel(ids) =>
          HandleCancel(ids);
          exit := None;
        case Shutdown(_) =>
          shutdownRequested := true;
          if active.Some? {
            HandleCancel(active.value.ids);
            exit := None;
          } else {
            exit := EmitShutdownComplete();
          }
      }
    }

    method HandleFinished(ids: Ids, outcome: Result<EngineTranscript, EngineError>) returns (exit: Option<Exit>)
      modifies this, protocol
      ensures Value(exit) == OnFinished(old(Value(None)), config, ids, outcome)
    {
      hide ObserveWorker, Emit, Finish;
      if active.None? || active.value.ids != ids {
        return None;
      }
      var completed := active.value;
      active := None;
      var message;
      if completed.cancelRequested {
        message := Cancelled(ids);
      } else if completed.timedOut {
        message := Error(InferenceFailed, true, false, DEADLINE_EXCEEDED);
      } else {
        match outcome {
          case Ok(t) => message := Transcript(ids, completed.model, t.text, t.language);
          case Err(e) => message := Error(e.code, e.retryable, false, e.key);
        }
      }
      exit := EmitMessage(About(ids, message));
      if exit.None? && shutdownRequested {
        exit := EmitShutdownComplete();
      }
    }

    method HandleShutdownDeadline() returns (exit: Option<Exit>)
      modifies this, protocol
      ensures Value(exit) == OnShutdownDeadline(old(Value(None)))
    {
      hide ObserveWorker, Emit;
      if active.None? {
        return None;
      }
      var ids := active.value.ids;
      active := None;
      exit := EmitMessage(About(ids, Error(CancellationFailed, true, true, SHUTDOWN_TIMEOUT)));
      if exit.None? {
        exit := Some(Failed(ShutdownTimeout));
      }
    }

    method Handle(event: Event) returns (exit: Option<Exit>)
      requires Running(Value(None))
      modifies this, protocol
      ensures Value(exit) == Step(old(Value(None)), config, event)
    {
      hide OnReceived, OnFinished, OnShutdownDeadline, EmitFatal, Running;
      match event {
        case Received(e, audio, health) => exit := HandleReceived(e, audio, health);
        case InferenceFinished(ids, outcome) => exit := HandleFinished(ids, outcome);
        case RequestDeadline(ids) =>
          if active.Some? && active.value.ids == ids {
            active := Some(active.value.(timedOut := true, stopped := true));
          }
          exit := None;
        case ShutdownDeadline => exit := HandleShutdownDeadline();
        case InputFailure => exit := EmitFatalError(InvalidRequest, INVALID_FRAME, Input);
        case InputClosed =>
          if protocol.phase == Closed {
            return Some(Graceful);
          }
          if active.Some? {
            active := Some(active.value.(stopped := true));
          }
          exit := Some(Failed(UnexpectedInputClosure));
      }
    }

    /** Serves the events that arrive until the loop ends. */
    method RunWorker(events: seq<Event>) returns (exit: Option<Exit>)
      requires ValidConfig(config) && HealthAnswered(events) && Value(None) == Start(writable)
      modifies this, protocol
      ensures Value(exit) == Run(old(Value(None)), config, events)
      ensures Balanced(Value(exit))
    {
      hide Step, Running, Owes;
      ghost var start := Value(None);
      StartBalanced(writable);
      var i := 0;
      exit := None;
      assert events[0..] == events;
      while i < |events| && exit.None?
        invariant 0 <= i <= |events|
        invariant Run(Value(exit), config, events[i..]) == Run(start, config, events)
        invariant Balanced(Value(exit))
      {
        BalancedRunning(Value(None));
        StepSettles(Value(None), config, events[i]);
        assert events[i..][1..] == events[i + 1..];
        exit := Handle(events[i]);
        i := i + 1;
      }
      if exit.Some? {
        StoppedStays(Value(exit), config, events[i..]);
      } else {
        assert events[i..] == [];
      }
    }
  }

  lemma StartBalanced(writable: nat)
    ensures Balanced(Start(writable))
  {
  }

  lemma BalancedRunning(r: Runtime)
    requires Balanced(r) && r.exit.None?
    ensures Running(r)
  {
  }
}
