/** What the worker writes in answer to each event, and what it remembers, while the pipe
    takes its messages. */
module WorkerResponses {
  import opened Wrappers
  import opened Bytes
  import opened WorkerProtocol
  import opened WorkerRuntime
  import opened WorkerAnswers

  /** The pipe takes what one event can write. */
  predicate Flowing(r: Runtime) {
    r.writable >= 2
  }

  /** Exactly this message was written, and the loop goes on. */
  predicate WroteOne(r: Runtime, r': Runtime, e: WorkerEnvelope) {
    r'.written == r.written + [e] && r'.exit.None?
  }

  predicate WroteNothing(r: Runtime, r': Runtime) {
    r'.written == r.written && r'.exit.None?
  }

  lemma Emits(r: Runtime, e: WorkerEnvelope)
    requires r.exit.None? && r.writable > 0 && ObserveWorker(r.guard, e).error.None?
    ensures var r' := Emit(r, e);
            && WroteOne(r, r', e)
            && r' == r.(guard := ObserveWorker(r.guard, e).state, written := r'.written, writable := r.writable - 1)
  {
  }

  /** An error about one request. */
  function Told(ids: Ids, m: WorkerMessage): WorkerEnvelope {
    WorkerEnvelope(Header(1, 1, Some(ids.session), Some(ids.request), true), m)
  }

  function Plain(m: WorkerMessage): WorkerEnvelope {
    WorkerEnvelope(Header(1, 1, None, None, true), m)
  }

  // ---------------------------------------------------------------- the greeting and health

  /** The first hello is answered with what the worker is and can do. */
  lemma HelloAnswered(r: Runtime, c: Config, e: CoreEnvelope, audio: bool, health: WorkerMessage)
    requires Running(r) && ValidConfig(c) && Flowing(r) && r.guard.phase == AwaitingHello
    requires CoreError(e).None? && e.message.Hello?
    ensures var r' := Step(r, c, Received(e, audio, health));
            && WroteOne(r, r',
                        Plain(Ready(1, c.workerVersion, c.engines, c.runtimeId,
                                    [HealthChecks, FinalTranscripts, Cancellation, GracefulShutdown], c.buildId)))
            && r'.guard.phase == Serving && r'.active.None?
  {
    hide ObserveWorker, Emit;
    var o := ObserveCore(r.guard, e);
    var r1 := r.(guard := o.state);
    var ready := Stamped(None, None, Ready(CONTRACT_VERSION, c.workerVersion, c.engines, c.runtimeId,
                                           ALL_CAPABILITIES, c.buildId));
    GuardsReady(o.state, c);
    Emits(r1, ready);
  }

  /** A health check is answered with what the engine says, about this check. */
  lemma HealthAnswered(r: Runtime, c: Config, e: CoreEnvelope, audio: bool, health: WorkerMessage)
    requires Running(r) && Flowing(r) && r.guard.phase == Serving && CoreError(e).None? && e.message.HealthCheck?
    requires health.HealthResult? && !HealthUnfit(e, health)
    ensures var r' := Step(r, c, Received(e, audio, health));
            && WroteOne(r, r', WorkerEnvelope(Header(1, 1, None, e.header.request, true), health))
            && r'.active == r.active && r'.guard == r.guard
  {
    hide ObserveWorker, Emit;
    GuardsHealth(r.guard, Stamped(None, e.header.request, health));
    Emits(r, Stamped(None, e.header.request, health));
  }

  // ---------------------------------------------------------------- requests

  /** A new request is taken on exactly when none is active and its audio is there;
      otherwise it is told that the worker is busy, or that the audio is not available. */
  lemma TranscribeAnswered(r: Runtime, c: Config, e: CoreEnvelope, audio: bool, health: WorkerMessage)
    requires Running(r) && Flowing(r) && r.guard.phase == Serving && CoreError(e).None? && e.message.Transcribe?
    requires e.message.ids !in ActiveIds(r)
    ensures var r', ids := Step(r, c, Received(e, audio, health)), e.message.ids;
            if r.active.Some? then
              && WroteOne(r, r', Told(ids, Error(InvalidRequest, true, false, "worker.error.busy")))
              && r'.active == r.active
            else if !audio then
              && WroteOne(r, r',
                          Told(ids, Error(InvalidRequest, false, false, "worker.error.audio_artifact_unavailable")))
              && r'.active.None?
            else
              WroteNothing(r, r') && r'.active == Some(Active(ids, e.message.model, false, false, false))
  {
    var ids := e.message.ids;
    var o := ObserveCore(r.guard, e);
    var r1 := r.(guard := o.state, accepted := r.accepted + [ids]);
    KeysNotBlank();
    NamedByHeader(e);
    hide Emit;
    if r.active.Some? || !audio {
      var m := if r.active.Some? then Error(InvalidRequest, true, false, BUSY)
               else Error(InvalidRequest, false, false, AUDIO_UNAVAILABLE);
      GuardsError(o.state, ids, InvalidRequest, r.active.Some?, false, m.key);
      Emits(r1, About(ids, m));
    }
  }

  lemma NamedByHeader(e: CoreEnvelope)
    requires CoreError(e).None? && (e.message.Transcribe? || e.message.Cancel?)
    ensures Named(e.message.ids)
  {
  }

  /** A cancellation marks the request and stops its inference, and is answered when that
      comes back. */
  lemma CancelMarks(r: Runtime, c: Config, e: CoreEnvelope, audio: bool, health: WorkerMessage)
    requires Running(r) && r.guard.phase == Serving && CoreError(e).None? && e.message.Cancel?
    requires r.active.Some? && e.message.ids == r.active.value.ids
    ensures var r' := Step(r, c, Received(e, audio, health));
            && WroteNothing(r, r')
            && r'.active == Some(r.active.value.(cancelRequested := true, stopped := true))
            && r'.shutdownRequested == r.shutdownRequested
  {
  }

  /** So does a request's own deadline, which marks a timeout; one that has no active
      request to it does nothing. */
  lemma DeadlineMarks(r: Runtime, c: Config, ids: Ids)
    requires Running(r)
    ensures var r' := Step(r, c, RequestDeadline(ids));
            && WroteNothing(r, r')
            && (ids in ActiveIds(r) ==> r' == r.(active := Some(r.active.value.(timedOut := true, stopped := true))))
            && (ids !in ActiveIds(r) ==> r' == r)
  {
  }

  // ---------------------------------------------------------------- verdicts

  /** What an inference that came back amounts to: a cancellation goes before a timeout,
      a timeout before the engine's own answer, and an engine's error is passed on as the
      engine put it. */
  lemma InferenceAnswered(r: Runtime, c: Config, outcome: Result<EngineTranscript, EngineError>)
    requires Running(r) && Flowing(r) && r.active.Some? && !r.shutdownRequested
    requires Presentable(Verdict(r.active.value, outcome))
    ensures var a, r' := r.active.value, Step(r, c, InferenceFinished(r.active.value.ids, outcome));
            && r'.active.None? && r'.exit.None?
            && (a.cancelRequested ==> WroteOne(r, r', Told(a.ids, Cancelled(a.ids))))
            && (!a.cancelRequested && a.timedOut ==>
                  WroteOne(r, r', Told(a.ids, Error(InferenceFailed, true, false, "worker.error.deadline_exceeded"))))
            && (!a.cancelRequested && !a.timedOut && outcome.Ok? ==>
                  WroteOne(r, r', Told(a.ids, Transcript(a.ids, a.model, outcome.value.text, outcome.value.language))))
            && (!a.cancelRequested && !a.timedOut && outcome.Err? ==>
                  WroteOne(r, r', Told(a.ids, Error(outcome.error.code, outcome.error.retryable, false,
                                                     outcome.error.key))))
  {
    var a := r.active.value;
    hide ObserveWorker, Emit, Presentable;
    GuardsVerdict(r, outcome);
    Emits(r.(active := None), About(a.ids, Verdict(a, outcome)));
  }

  /** The engine's own error is written exactly when the active request's inference comes
      back with it, with a key that is not blank, before a cancellation and a timeout. */
  lemma EngineErrorWrittenIff(r: Runtime, c: Config, ids: Ids, outcome: Result<EngineTranscript, EngineError>,
                              error: EngineError)
    requires Running(r) && Flowing(r) && !r.shutdownRequested
    requires error.key != "worker.error.deadline_exceeded"
    ensures Step(r, c, InferenceFinished(ids, outcome)).written
         == r.written + [Told(ids, Error(error.code, error.retryable, false, error.key))]
       <==> && r.active.Some? && r.active.value.ids == ids
            && !r.active.value.cancelRequested && !r.active.value.timedOut
            && outcome == Err(error) && !IsBlank(error.key)
  {
    var e := Told(ids, Error(error.code, error.retryable, false, error.key));
    assert (r.written + [e])[|r.written|] == e && |r.written + [e]| != |r.written|;
    if r.active.Some? && r.active.value.ids == ids {
      var v := Verdict(r.active.value, outcome);
      GuardsVerdict(r, outcome);
      var m := About(ids, v);
      assert (r.written + [m])[|r.written|] == m;
      if Presentable(v) {
        Emits(r.(active := None), m);
      }
      hide ObserveWorker;
    }
  }

  // ---------------------------------------------------------------- the end

  /** A shutdown with nothing running is complete at once; otherwise it cancels what runs. */
  lemma ShutdownAnswered(r: Runtime, c: Config, e: CoreEnvelope, audio: bool, health: WorkerMessage)
    requires Running(r) && ValidConfig(c) && Flowing(r) && r.guard.phase == Serving
    requires CoreError(e).None? && e.message.Shutdown?
    ensures var r' := Step(r, c, Received(e, audio, health));
            if r.active.None? then
              r'.written == r.written + [Plain(ShutdownComplete(c.workerVersion))] && r'.exit == Some(Graceful)
            else
              && WroteNothing(r, r') && r'.shutdownRequested
              && r'.active == Some(r.active.value.(cancelRequested := true, stopped := true))
  {
  }

  /** The inference that a shutdown waited for ends the loop: first the request is told,
      then the shutdown is complete. */
  lemma LastInferenceAnswered(r: Runtime, c: Config, outcome: Result<EngineTranscript, EngineError>)
    requires Running(r) && ValidConfig(c) && Flowing(r) && r.shutdownRequested
    ensures var a, r' := r.active.value, Step(r, c, InferenceFinished(r.active.value.ids, outcome));
            && r'.written == r.written + [Told(a.ids, Cancelled(a.ids))] + [Plain(ShutdownComplete(c.workerVersion))]
            && r'.exit == Some(Graceful)
  {
    var a := r.active.value;
    GuardsVerdict(r, outcome);
    Emits(r.(active := None), About(a.ids, Verdict(a, outcome)));
  }

  /** A request that outlasts the grace period is reported as fatal, and the loop fails. */
  lemma ShutdownDeadlineAnswered(r: Runtime, c: Config)
    requires Running(r) && Flowing(r)
    ensures var r' := Step(r, c, ShutdownDeadline);
            if r.active.None? then r' == r
            else
              && r'.written == r.written
                             + [Told(r.active.value.ids,
                                     Error(CancellationFailed, true, true, "worker.error.shutdown_timeout"))]
              && r'.exit == Some(Failed(ShutdownTimeout))
  {
    KeysNotBlank();
    if r.active.Some? {
      var ids := r.active.value.ids;
      GuardsError(r.guard, ids, CancellationFailed, true, true, SHUTDOWN_TIMEOUT);
      Emits(r.(active := None), About(ids, Error(CancellationFailed, true, true, SHUTDOWN_TIMEOUT)));
    }
  }

  /** Whatever the guard refuses is reported and ends the loop; the code tells an
      incompatible core from an invalid request. */
  lemma RefusalAnswered(r: Runtime, c: Config, e: CoreEnvelope, audio: bool, health: WorkerMessage)
    requires Running(r) && Flowing(r) && ObserveCore(r.guard, e).error.Some?
    ensures var r', why := Step(r, c, Received(e, audio, health)), ObserveCore(r.guard, e).error.value;
            var code := if why in {UnsupportedContractVersion, NegotiationFailed, MissingCapability}
                        then ProtocolIncompatible else InvalidRequest;
            && r'.written == r.written + [Plain(Error(code, false, true, "worker.error.protocol_rejected"))]
            && r'.exit == Some(Failed(Protocol))
  {
    KeysNotBlank();
    var o := ObserveCore(r.guard, e);
    assert o.state == r.guard;
    if r.guard.phase != AwaitingHello {
      GuardsFatal(r.guard, RejectionCode(o.error.value), PROTOCOL_REJECTED);
      Emits(r, Stamped(None, None, Error(RejectionCode(o.error.value), false, true, PROTOCOL_REJECTED)));
    }
  }

  /** So is an unreadable frame. An input that ends without a shutdown stops the
      inference and fails. */
  lemma InputLost(r: Runtime, c: Config)
    requires Running(r) && Flowing(r)
    ensures var r' := Step(r, c, InputFailure);
            && r'.written == r.written + [Plain(Error(InvalidRequest, false, true, "worker.error.invalid_frame"))]
            && r'.exit == Some(Failed(Input))
    ensures var r' := Step(r, c, InputClosed);
            && r'.written == r.written && r'.exit == Some(Failed(UnexpectedInputClosure))
            && (r.active.Some? ==> r'.active.Some? && r'.active.value.stopped)
  {
    KeysNotBlank();
    if r.guard.phase != AwaitingHello {
      GuardsFatal(r.guard, InvalidRequest, INVALID_FRAME);
      Emits(r, Stamped(None, None, Error(InvalidRequest, false, true, INVALID_FRAME)));
    }
  }
}
