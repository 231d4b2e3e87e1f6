/** Every accepted transcription request gets its one terminal message. */
module WorkerAnswers {
  import opened Wrappers
  import opened Bytes
  import opened WorkerProtocol
  import opened WorkerRuntime

  /** The accepted requests that have no terminal message yet. */
  ghost predicate Owes(accepted: seq<Ids>, written: seq<WorkerEnvelope>, unanswered: multiset<Ids>) {
    multiset(accepted) == Answered(written) + unanswered
  }

  /** How many requests a finished run may leave unanswered. */
  function Unanswerable(exit: Exit): nat {
    match exit
    case Graceful => 0
    case Failed(ShutdownTimeout) => 0
    case Failed(Output) => 2
    case Failed(_) => 1
  }

  /** The books: what is owed is exactly the active request while the loop runs,
      and bounded by the way it ended afterwards. */
  ghost predicate Balanced(r: Runtime) {
    if r.exit.None? then Running(r) && Owes(r.accepted, r.written, multiset(ActiveIds(r)))
    else exists unanswered :: Owes(r.accepted, r.written, unanswered) && |unanswered| <= Unanswerable(r.exit.value)
  }

  // ---------------------------------------------------------------- one message

  lemma AnsweredAppend(written: seq<WorkerEnvelope>, e: WorkerEnvelope)
    ensures Answered(written + [e]) == Answered(written) + Answers(e)
  {
    assert (written + [e])[..|written|] == written;
  }

  lemma KeysNotBlank()
    ensures !IsBlank(PROTOCOL_REJECTED) && !IsBlank(INVALID_FRAME) && !IsBlank(BUSY)
    ensures !IsBlank(AUDIO_UNAVAILABLE) && !IsBlank(DEADLINE_EXCEEDED) && !IsBlank(SHUTDOWN_TIMEOUT)
  {
    assert !IsWhitespace(PROTOCOL_REJECTED[0] as int) && !IsWhitespace(INVALID_FRAME[0] as int);
    assert !IsWhitespace(BUSY[0] as int) && !IsWhitespace(AUDIO_UNAVAILABLE[0] as int);
    assert !IsWhitespace(DEADLINE_EXCEEDED[0] as int) && !IsWhitespace(SHUTDOWN_TIMEOUT[0] as int);
  }

  // ---------------------------------------------------------------- what the guard lets through

  lemma GuardsFatal(guard: State, code: ErrorCode, key: string)
    requires guard.phase in {Serving, ShuttingDown} && !IsBlank(key)
    ensures ObserveWorker(guard, Stamped(None, None, Error(code, false, true, key))).error.None?
  {
  }

  lemma GuardsError(guard: State, ids: Ids, code: ErrorCode, retryable: bool, fatal: bool, key: string)
    requires guard.phase in {Serving, ShuttingDown} && !IsBlank(key) && Named(ids) && ids in guard.active
    ensures ObserveWorker(guard, About(ids, Error(code, retryable, fatal, key)))
         == Accept(if fatal then guard.(active := {}, phase := Closed) else guard.(active := guard.active - {ids}))
  {
  }

  /** A verdict that can be sent. */
  predicate Presentable(message: WorkerMessage) {
    match message
    case Transcript(_, _, text, language) => !IsBlank(text) && !BlankIfPresent(language)
    case Error(_, _, _, key) => !IsBlank(key)
    case _ => true
  }

  /** The guard lets every verdict through that can be sent: after a shutdown
      request only a cancellation can come up. */
  lemma GuardsVerdict(r: Runtime, outcome: Result<EngineTranscript, EngineError>)
    requires Running(r) && r.active.Some?
    ensures var a := r.active.value;
            var o := ObserveWorker(r.guard, About(a.ids, Verdict(a, outcome)));
            if Presentable(Verdict(a, outcome)) then o == Accept(r.guard.(active := {}))
            else o.error.Some? && o.state == r.guard
    ensures Answers(About(r.active.value.ids, Verdict(r.active.value, outcome))) == multiset{r.active.value.ids}
  {
    KeysNotBlank();
    assert r.guard.active - {r.active.value.ids} == {};
  }

  lemma GuardsHealth(guard: State, m: WorkerEnvelope)
    requires guard.phase == Serving && m.message.HealthResult?
    ensures ObserveWorker(guard, m) == Outcome(guard, WorkerError(m))
  {
  }

  lemma GuardsReady(guard: State, c: Config)
    requires ValidConfig(c) && guard.phase == AwaitingReady && CONTRACT_VERSION in guard.offered
    ensures ObserveWorker(guard,
                          Stamped(None, None,
                                  Ready(CONTRACT_VERSION, c.workerVersion, c.engines, c.runtimeId,
                                        ALL_CAPABILITIES, c.buildId)))
         == Accept(guard.(negotiated := Some(CONTRACT_VERSION), phase := Serving))
  {
    assert ALL_CAPABILITIES[0] == HealthChecks && ALL_CAPABILITIES[1] == FinalTranscripts
        && ALL_CAPABILITIES[2] == Cancellation && ALL_CAPABILITIES[3] == GracefulShutdown;
    forall capability: Capability ensures capability in ALL_CAPABILITIES {
      match capability
      case HealthChecks =>
      case FinalTranscripts =>
      case Cancellation =>
      case GracefulShutdown =>
    }
  }

  // ---------------------------------------------------------------- one message

  /** Emitting a message settles what it answers, unless the pipe is gone. */
  lemma EmitSettles(r: Runtime, e: WorkerEnvelope, before: multiset<Ids>, unanswered: multiset<Ids>)
    requires ObserveWorker(r.guard, e).error.None?
    requires r.exit.None? && Owes(r.accepted, r.written, before) && before == unanswered + Answers(e)
    ensures var r1 := Emit(r, e);
            if r1.exit.None? then Owes(r1.accepted, r1.written, unanswered)
                && r1 == r.(guard := ObserveWorker(r.guard, e).state, written := r1.written, writable := r1.writable)
            else r1.exit == Some(Failed(Output)) && Owes(r1.accepted, r1.written, before)
  {
    hide ObserveWorker, Answers, Answered;
    AnsweredAppend(r.written, e);
  }

  lemma Closes(r: Runtime, unanswered: multiset<Ids>)
    requires r.exit.Some? && Owes(r.accepted, r.written, unanswered) && |unanswered| <= Unanswerable(r.exit.value)
    ensures Balanced(r)
  {
  }

  lemma Accepting(accepted: seq<Ids>, written: seq<WorkerEnvelope>, owed: multiset<Ids>, ids: Ids)
    requires Owes(accepted, written, owed)
    ensures Owes(accepted + [ids], written, owed + multiset{ids})
  {
  }

  lemma OneOwed(r: Runtime)
    ensures |multiset(ActiveIds(r))| <= 1
  {
    assert multiset(ActiveIds(r)) == if r.active.Some? then multiset{r.active.value.ids} else multiset{};
  }

  lemma WritingFatal(r: Runtime, e: WorkerEnvelope, owed: multiset<Ids>)
    requires r.exit.None? && Owes(r.accepted, r.written, owed) && Terminal(e).None?
    ensures Owes(WriteFrame(r, e).accepted, WriteFrame(r, e).written, owed)
  {
    AnsweredAppend(r.written, e);
  }

  /** A fatal report answers nobody. */
  lemma FatalSettles(r: Runtime, code: ErrorCode, key: string, failure: RuntimeError)
    requires Running(r) && Owes(r.accepted, r.written, multiset(ActiveIds(r))) && !IsBlank(key)
    requires failure == Protocol || failure == Input
    ensures Balanced(EmitFatal(r, code, key, failure))
    ensures EmitFatal(r, code, key, failure).exit == Some(Failed(if r.writable > 0 then failure else Output))
  {
    hide ObserveWorker, Owes;
    OneOwed(r);
    var e := Stamped(None, None, Error(code, false, true, key));
    var owed := multiset(ActiveIds(r));
    var r1 := if r.guard.phase == AwaitingHello then WriteFrame(r, e) else Emit(r, e);
    assert owed + Answers(e) == owed;
    if r.guard.phase == AwaitingHello {
      WritingFatal(r, e, owed);
    } else {
      GuardsFatal(r.guard, code, key);
      EmitSettles(r, e, owed, owed);
    }
    assert Owes(r1.accepted, r1.written, owed) && (r1.exit.Some? ==> r1.exit == Some(Failed(Output)));
    var r2 := EmitFatal(r, code, key, failure);
    assert Owes(r2.accepted, r2.written, owed);
    Closes(r2, owed);
  }

  lemma FinishSettles(r: Runtime, c: Config)
    requires ValidConfig(c) && r.exit.None? && r.guard.phase == ShuttingDown && Owes(r.accepted, r.written, multiset{})
    ensures Balanced(Finish(r, c))
    ensures Finish(r, c).exit in {Some(Graceful), Some(Failed(Output))}
  {
    var e := Stamped(None, None, ShutdownComplete(c.workerVersion));
    assert multiset{} + Answers(e) == multiset{};
    EmitSettles(r, e, multiset{}, multiset{});
    Closes(Finish(r, c), multiset{});
  }

  // ---------------------------------------------------------------- one event

  lemma HelloSettles(r: Runtime, c: Config, e: CoreEnvelope, audio: bool, health: WorkerMessage)
    requires ValidConfig(c) && Balanced(r) && r.exit.None?
    requires e.message.Hello? && ObserveCore(r.guard, e).error.None?
    ensures Balanced(OnReceived(r, c, e, audio, health))
    ensures OnReceived(r, c, e, audio, health).exit != Some(Failed(Protocol))
  {
    var ready := Stamped(None, None,
                         Ready(CONTRACT_VERSION, c.workerVersion, c.engines, c.runtimeId, ALL_CAPABILITIES, c.buildId));
    var r1 := r.(guard := ObserveCore(r.guard, e).state);
    GuardsReady(r1.guard, c);
    assert multiset{} + Answers(ready) == multiset{};
    EmitSettles(r1, ready, multiset{}, multiset{});
    if Emit(r1, ready).exit.Some? {
      Closes(Emit(r1, ready), multiset{});
    }
  }

  lemma HealthSettles(r: Runtime, m: WorkerEnvelope)
    requires Running(r) && Owes(r.accepted, r.written, multiset(ActiveIds(r))) && r.guard.phase == Serving
        && m.message.HealthResult?
    ensures Balanced(Emit(r, m))
    ensures Emit(r, m).exit == Some(Failed(Protocol)) <==> WorkerError(m).Some?
  {
    hide ObserveWorker, WorkerError, Owes;
    var owed := multiset(ActiveIds(r));
    var r1 := Emit(r, m);
    GuardsHealth(r.guard, m);
    assert owed + Answers(m) == owed;
    if WorkerError(m).None? {
      EmitSettles(r, m, owed, owed);
    }
    if r1.exit.Some? {
      OneOwed(r);
      Closes(r1, owed);
    }
  }

  /** A refusal answers the request it refuses and nothing else. */
  lemma RefusalSettles(r: Runtime, r1: Runtime, ids: Ids, code: ErrorCode, retryable: bool, key: string)
    requires Running(r) && r.guard.phase == Serving && Owes(r.accepted, r.written, multiset(ActiveIds(r)))
    requires Named(ids) && !IsBlank(key) && ids !in r.guard.active
    requires r1 == r.(guard := r.guard.(active := r.guard.active + {ids}), accepted := r.accepted + [ids])
    ensures Balanced(Emit(r1, About(ids, Error(code, retryable, false, key))))
    ensures Emit(r1, About(ids, Error(code, retryable, false, key))).exit in {None, Some(Failed(Output))}
  {
    hide ObserveWorker, Owes;
    var e := About(ids, Error(code, retryable, false, key));
    var owed := multiset(ActiveIds(r));
    var r2 := Emit(r1, e);
    assert ObserveWorker(r1.guard, e) == Accept(r.guard) by {
      GuardsError(r1.guard, ids, code, retryable, false, key);
      assert r1.guard.active - {ids} == r.guard.active;
    }
    assert Answers(e) == multiset{ids};
    Accepting(r.accepted, r.written, owed, ids);
    EmitSettles(r1, e, owed + multiset{ids}, owed);
    hide Emit;
    if r2.exit.Some? {
      OneOwed(r);
      Closes(r2, owed + multiset{ids});
    } else {
      assert Running(r2) && ActiveIds(r2) == ActiveIds(r);
    }
  }

  lemma TranscribeSettles(r: Runtime, guard: State, ids: Ids, model: string, audio: bool)
    requires Running(r) && r.guard.phase == Serving && Owes(r.accepted, r.written, multiset(ActiveIds(r)))
    requires Named(ids) && ids !in r.guard.active && !IsBlank(model)
    requires guard == r.guard.(active := r.guard.active + {ids})
    ensures Balanced(OnTranscribe(r.(guard := guard), ids, model, audio))
    ensures OnTranscribe(r.(guard := guard), ids, model, audio).exit in {None, Some(Failed(Output))}
  {
    KeysNotBlank();
    var r1 := r.(guard := guard, accepted := r.accepted + [ids]);
    if r.active.Some? {
      RefusalSettles(r, r1, ids, InvalidRequest, true, BUSY);
    } else if !audio {
      RefusalSettles(r, r1, ids, InvalidRequest, false, AUDIO_UNAVAILABLE);
    }
  }

  /** An accepted cancellation finds the request it names active. */
  lemma CancelFindsRequest(r: Runtime, e: CoreEnvelope)
    requires Running(r) && e.message.Cancel? && ObserveCore(r.guard, e).error.None?
    ensures r.active.Some? && r.active.value.ids == e.message.ids && ObserveCore(r.guard, e).state == r.guard
  {
  }

  lemma ShutdownSettles(r: Runtime, c: Config, e: CoreEnvelope, audio: bool, health: WorkerMessage)
    requires ValidConfig(c) && Balanced(r) && r.exit.None?
    requires e.message.Shutdown? && ObserveCore(r.guard, e).error.None?
    ensures Balanced(OnReceived(r, c, e, audio, health))
    ensures OnReceived(r, c, e, audio, health).exit in {None, Some(Graceful), Some(Failed(Output))}
  {
    if r.active.None? {
      FinishSettles(r.(guard := ObserveCore(r.guard, e).state, shutdownRequested := true), c);
    }
  }

  /** The engine's health report would not pass the guard's own validation. */
  predicate HealthUnfit(e: CoreEnvelope, health: WorkerMessage) {
    WorkerError(Stamped(None, e.header.request, health)).Some?
  }

  lemma ReceivedSettles(r: Runtime, c: Config, e: CoreEnvelope, audio: bool, health: WorkerMessage)
    requires ValidConfig(c) && Balanced(r) && r.exit.None? && health.HealthResult?
    ensures Balanced(OnReceived(r, c, e, audio, health))
    ensures OnReceived(r, c, e, audio, health).exit == Some(Failed(Protocol))
       <==> if ObserveCore(r.guard, e).error.Some? then r.writable > 0
            else e.message.HealthCheck? && HealthUnfit(e, health)
  {
    hide ObserveWorker, OnTranscribe, EmitFatal, Emit, Finish, Owes;
    var o := ObserveCore(r.guard, e);
    if o.error.Some? {
      KeysNotBlank();
      FatalSettles(r, RejectionCode(o.error.value), PROTOCOL_REJECTED, Protocol);
    } else {
      match e.message
      case Hello(_, _, _) => HelloSettles(r, c, e, audio, health);
      case HealthCheck(_) => HealthSettles(r, Stamped(None, e.header.request, health));
      case Transcribe(ids, model, _, _, _) => TranscribeSettles(r, o.state, ids, model, audio);
      case Cancel(_) => CancelFindsRequest(r, e);
      case Shutdown(_) => ShutdownSettles(r, c, e, audio, health);
    }
  }

  lemma FinishedSettles(r: Runtime, c: Config, ids: Ids, outcome: Result<EngineTranscript, EngineError>)
    requires ValidConfig(c) && Running(r) && Owes(r.accepted, r.written, multiset(ActiveIds(r)))
    requires r.active.Some? && r.active.value.ids == ids
    ensures Balanced(OnFinished(r, c, ids, outcome))
    ensures OnFinished(r, c, ids, outcome).exit == Some(Failed(Protocol))
        <==> !Presentable(Verdict(r.active.value, outcome))
  {
    hide ObserveWorker, Verdict, Finish, Owes;
    var r0, e := r.(active := None), About(ids, Verdict(r.active.value, outcome));
    var r1 := Emit(r0, e);
    GuardsVerdict(r, outcome);
    assert Answers(e) == multiset{ids} == multiset(ActiveIds(r)) == multiset{} + multiset{ids};
    if Presentable(e.message) {
      EmitSettles(r0, e, multiset{ids}, multiset{});
    }
    hide Emit;
    if r1.exit.Some? {
      Closes(r1, multiset{ids});
    } else if r1.shutdownRequested {
      FinishSettles(r1, c);
    } else {
      assert multiset(ActiveIds(r1)) == multiset{} && Running(r1);
    }
  }

  lemma ShutdownDeadlineSettles(r: Runtime)
    requires Running(r) && Owes(r.accepted, r.written, multiset(ActiveIds(r))) && r.active.Some?
    ensures Balanced(OnShutdownDeadline(r))
    ensures OnShutdownDeadline(r).exit in {Some(Failed(ShutdownTimeout)), Some(Failed(Output))}
  {
    hide ObserveWorker, Owes;
    KeysNotBlank();
    var ids := r.active.value.ids;
    var r0, e := r.(active := None), About(ids, Error(CancellationFailed, true, true, SHUTDOWN_TIMEOUT));
    GuardsError(r.guard, ids, CancellationFailed, true, true, SHUTDOWN_TIMEOUT);
    assert Answers(e) == multiset{ids} == multiset(ActiveIds(r)) == multiset{} + multiset{ids};
    EmitSettles(r0, e, multiset{ids}, multiset{});
    Closes(OnShutdownDeadline(r), if Emit(r0, e).exit.Some? then multiset{ids} else multiset{});
  }

  /** The only ways to a protocol failure: the core sent something its guard
      refuses, or an engine returned a blank text or an unusable report. */
  predicate ProtocolBroken(r: Runtime, event: Event) {
    match event
    case Received(e, _, health) =>
      if ObserveCore(r.guard, e).error.Some? then r.writable > 0 else e.message.HealthCheck? && HealthUnfit(e, health)
    case InferenceFinished(ids, outcome) =>
      r.active.Some? && r.active.value.ids == ids && !Presentable(Verdict(r.active.value, outcome))
    case _ => false
  }

  /** The loop keeps its books over every event, and nothing else it emits is ever
      refused by its own guard. */
  lemma StepSettles(r: Runtime, c: Config, event: Event)
    requires ValidConfig(c) && Balanced(r) && (event.Received? ==> event.health.HealthResult?)
    ensures Balanced(Step(r, c, event))
    ensures r.exit.None? ==> (Step(r, c, event).exit == Some(Failed(Protocol)) <==> ProtocolBroken(r, event))
  {
    hide OnReceived, OnFinished, OnShutdownDeadline, EmitFatal, HealthUnfit, Presentable, Verdict, ObserveCore, Owes;
    if r.exit.None? {
      match event
      case Received(e, audio, health) => ReceivedSettles(r, c, e, audio, health);
      case InferenceFinished(ids, outcome) => FinishedStep(r, c, ids, outcome);
      case RequestDeadline(ids) =>
      case ShutdownDeadline => ShutdownDeadlineStep(r);
      case InputFailure =>
        KeysNotBlank();
        FatalSettles(r, InvalidRequest, INVALID_FRAME, Input);
      case InputClosed =>
        OneOwed(r);
        Closes(OnInputClosed(r), multiset(ActiveIds(r)));
    }
  }

  lemma FinishedStep(r: Runtime, c: Config, ids: Ids, outcome: Result<EngineTranscript, EngineError>)
    requires ValidConfig(c) && Balanced(r) && r.exit.None?
    ensures Balanced(OnFinished(r, c, ids, outcome))
    ensures OnFinished(r, c, ids, outcome).exit == Some(Failed(Protocol))
        <==> ProtocolBroken(r, InferenceFinished(ids, outcome))
  {
    hide Owes, ObserveWorker;
    if r.active.Some? && r.active.value.ids == ids {
      FinishedSettles(r, c, ids, outcome);
    }
  }

  lemma ShutdownDeadlineStep(r: Runtime)
    requires Balanced(r) && r.exit.None?
    ensures Balanced(OnShutdownDeadline(r))
    ensures OnShutdownDeadline(r).exit != Some(Failed(Protocol))
  {
    hide Owes, ObserveWorker;
    if r.active.Some? {
      ShutdownDeadlineSettles(r);
    }
  }

  // ---------------------------------------------------------------- every run

  ghost predicate HealthAnswered(events: seq<Event>) {
    forall i :: 0 <= i < |events| && events[i].Received? ==> events[i].health.HealthResult?
  }

  lemma {:induction false} RunSettles(r: Runtime, c: Config, events: seq<Event>)
    requires ValidConfig(c) && Balanced(r) && HealthAnswered(events)
    ensures Balanced(Run(r, c, events))
    decreases |events|
  {
    if events != [] {
      StepSettles(r, c, events[0]);
      RunSettles(Step(r, c, events[0]), c, events[1..]);
    }
  }

  /** Over every interleaving of input, inference, deadline and shutdown events,
      and however soon the pipe breaks: no request gets more terminal messages
      than times it was accepted, a graceful exit and a shutdown timeout leave no
      request without one, and while the loop runs only the active one waits. */
  lemma OneTerminalEach(c: Config, events: seq<Event>, writable: nat)
    requires ValidConfig(c) && HealthAnswered(events)
    ensures var r := Run(Start(writable), c, events);
            var owed := multiset(r.accepted) - Answered(r.written);
            && Answered(r.written) <= multiset(r.accepted)
            && (r.exit.None? ==> owed == multiset(ActiveIds(r)))
            && (r.exit.Some? ==> |owed| <= Unanswerable(r.exit.value))
  {
    RunSettles(Start(writable), c, events);
    var r := Run(Start(writable), c, events);
    if r.exit.Some? {
      var unanswered :| Owes(r.accepted, r.written, unanswered) && |unanswered| <= Unanswerable(r.exit.value);
      assert multiset(r.accepted) - Answered(r.written) == unanswered;
    } else {
      assert multiset(r.accepted) - Answered(r.written) == multiset(ActiveIds(r));
    }
  }
}
