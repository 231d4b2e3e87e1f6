/** What a request's terminal message can be, and how a worker's life ends. */
module WorkerVerdicts {
  import opened Wrappers
  import opened Bytes
  import opened WorkerProtocol
  import opened WorkerRuntime
  import opened WorkerAnswers

  /** The first last word on a request. */
  function FirstTerminal(written: seq<WorkerEnvelope>, ids: Ids): Option<WorkerMessage>
    decreases |written|
  {
    if written == [] then None
    else if Terminal(written[0]) == Some(ids) then Some(written[0].message)
    else FirstTerminal(written[1..], ids)
  }

  lemma {:induction false} FirstTerminalOfConcat(first: seq<WorkerEnvelope>, second: seq<WorkerEnvelope>, ids: Ids)
    ensures FirstTerminal(first + second, ids)
         == if FirstTerminal(first, ids).Some? then FirstTerminal(first, ids) else FirstTerminal(second, ids)
    decreases |first|
  {
    if first == [] {
      assert first + second == second;
    } else {
      assert (first + second)[1..] == first[1..] + second;
      FirstTerminalOfConcat(first[1..], second, ids);
    }
  }

  /** The request was cancelled, or its deadline passed, before its result came. */
  predicate Marked(r: Runtime, ids: Ids) {
    r.active.Some? && r.active.value.ids == ids && (r.active.value.cancelRequested || r.active.value.timedOut)
  }

  /** The messages the event added. */
  function Added(before: Runtime, after: Runtime): seq<WorkerEnvelope> {
    if |before.written| <= |after.written| then after.written[|before.written|..] else []
  }

  /** Neither a transcript nor, once cancelled, anything but the cancellation or
      the shutdown timeout. */
  predicate Withheld(message: Option<WorkerMessage>, cancelled: bool) {
    message.Some? ==>
      (!message.value.Transcript?
       && (cancelled ==> message.value.Cancelled? || (message.value.Error? && message.value.fatal)))
  }

  lemma {:induction false} WrittenGrows(r: Runtime, c: Config, events: seq<Event>)
    ensures r.written <= Run(r, c, events).written
    decreases |events|
  {
    if events != [] {
      StepWrites(r, c, events[0]);
      WrittenGrows(Step(r, c, events[0]), c, events[1..]);
    }
  }

  /** Writing one message at most adds it; then perhaps the shutdown's completion. */
  lemma EmitAdds(r: Runtime, e: WorkerEnvelope)
    ensures Emit(r, e).written == r.written || Emit(r, e).written == r.written + [e]
    ensures Emit(r, e).active == r.active && Emit(r, e).accepted == r.accepted
    ensures r.exit.None? && Emit(r, e).exit.None? ==> Emit(r, e).written == r.written + [e]
  {
    hide ObserveWorker;
  }

  lemma StepWrites(r: Runtime, c: Config, event: Event)
    ensures r.written <= Step(r, c, event).written
  {
    hide Emit, ObserveCore, Verdict;
    forall r0: Runtime, e ensures r0.written <= Emit(r0, e).written {
      EmitAdds(r0, e);
    }
  }

  lemma OneTerminal(e: WorkerEnvelope, ids: Ids)
    ensures FirstTerminal([e], ids) == if Terminal(e) == Some(ids) then Some(e.message) else None
    ensures FirstTerminal([], ids) == None
  {
    assert [e][1..] == [];
  }

  lemma AddsOne(r: Runtime, r1: Runtime, e: WorkerEnvelope, ids: Ids)
    requires r1.written == r.written || r1.written == r.written + [e]
    ensures Added(r, r1) == [] || Added(r, r1) == [e]
    ensures FirstTerminal(Added(r, r1), ids).Some?
        ==> Terminal(e) == Some(ids) && FirstTerminal(Added(r, r1), ids) == Some(e.message)
  {
    OneTerminal(e, ids);
  }

  /** One event: a marked request either stays marked without a terminal message,
      or gets one that is no transcript, or the worker is gone. */
  ghost predicate StaysWithheld(r: Runtime, r1: Runtime, ids: Ids, cancelled: bool) {
    && r.written <= r1.written
    && Withheld(FirstTerminal(Added(r, r1), ids), cancelled)
    && (FirstTerminal(Added(r, r1), ids).None? && r1.exit.None?
        ==> Marked(r1, ids) && (cancelled ==> r1.active.value.cancelRequested))
  }

  lemma MarkedEmit(r: Runtime, r0: Runtime, r1: Runtime, e: WorkerEnvelope, ids: Ids, cancelled: bool)
    requires Marked(r, ids) && (cancelled ==> r.active.value.cancelRequested)
    requires r0.active == r.active && r0.written == r.written && Terminal(e) != Some(ids)
    requires r1.written == Emit(r0, e).written && r1.active == r.active
    ensures StaysWithheld(r, r1, ids, cancelled)
  {
    hide Emit;
    EmitAdds(r0, e);
    AddsOne(r, r1, e, ids);
  }

  lemma MarkedReceived(r: Runtime, c: Config, e: CoreEnvelope, audio: bool, health: WorkerMessage, ids: Ids,
                       cancelled: bool)
    requires Running(r) && Marked(r, ids) && (cancelled ==> r.active.value.cancelRequested) && health.HealthResult?
    ensures StaysWithheld(r, OnReceived(r, c, e, audio, health), ids, cancelled)
  {
    hide Emit;
    var o := ObserveCore(r.guard, e);
    var r1, r2 := r.(guard := o.state), OnReceived(r, c, e, audio, health);
    if o.error.Some? {
      var report := Stamped(None, None, Error(RejectionCode(o.error.value), false, true, PROTOCOL_REJECTED));
      EmitAdds(r1, report);
      MarkedEmit(r, r1, r2, report, ids, cancelled);
    } else if e.message.HealthCheck? {
      EmitAdds(r1, Stamped(None, e.header.request, health));
      MarkedEmit(r, r1, r2, Stamped(None, e.header.request, health), ids, cancelled);
    } else if e.message.Transcribe? {
      var busy := About(e.message.ids, Error(InvalidRequest, true, false, BUSY));
      assert e.message.ids != ids;
      EmitAdds(r1.(accepted := r1.accepted + [e.message.ids]), busy);
      MarkedEmit(r, r1.(accepted := r1.accepted + [e.message.ids]), r2, busy, ids, cancelled);
    } else {
      assert r2.written == r.written;
      assert Added(r, r2) == [];
    }
  }

  lemma FinishAdds(r: Runtime, c: Config)
    ensures r.written <= Finish(r, c).written
  {
    hide ObserveWorker;
  }

  lemma MarkedFinished(r: Runtime, c: Config, done: Ids, outcome: Result<EngineTranscript, EngineError>, ids: Ids,
                       cancelled: bool)
    requires Running(r) && Marked(r, ids) && (cancelled ==> r.active.value.cancelRequested)
    ensures StaysWithheld(r, OnFinished(r, c, done, outcome), ids, cancelled)
  {
    hide ObserveWorker, Finish, Emit;
    var r2 := OnFinished(r, c, done, outcome);
    if done == ids {
      var e := About(ids, Verdict(r.active.value, outcome));
      var r1 := Emit(r.(active := None), e);
      EmitAdds(r.(active := None), e);
      AddsOne(r, r1, e, ids);
      if r1.exit.None? && r1.shutdownRequested {
        FinishAdds(r1, c);
        var rest := r2.written[|r1.written|..];
        assert Added(r, r2) == [e] + rest;
        FirstTerminalOfConcat([e], rest, ids);
        OneTerminal(e, ids);
      } else {
        OneTerminal(e, ids);
      }
    } else {
      assert Added(r, r2) == [];
    }
  }

  lemma MarkedStep(r: Runtime, c: Config, event: Event, ids: Ids, cancelled: bool)
    requires Running(r) && Marked(r, ids) && (cancelled ==> r.active.value.cancelRequested)
    requires event.Received? ==> event.health.HealthResult?
    ensures StaysWithheld(r, Step(r, c, event), ids, cancelled)
  {
    hide ObserveWorker, OnReceived, OnFinished, Emit;
    var r1 := Step(r, c, event);
    match event
    case Received(e, audio, health) => MarkedReceived(r, c, e, audio, health, ids, cancelled);
    case InferenceFinished(done, outcome) => MarkedFinished(r, c, done, outcome, ids, cancelled);
    case ShutdownDeadline =>
      var e := About(ids, Error(CancellationFailed, true, true, SHUTDOWN_TIMEOUT));
      EmitAdds(r.(active := None), e);
      AddsOne(r, r1, e, ids);
    case InputFailure =>
      var e := Stamped(None, None, Error(InvalidRequest, false, true, INVALID_FRAME));
      EmitAdds(r, e);
      MarkedEmit(r, r, r1, e, ids, cancelled);
    case RequestDeadline(_) => assert Added(r, r1) == [];
    case InputClosed => assert Added(r, r1) == [];
  }

  /** Whatever happens after a request was cancelled or timed out, and whatever the
      engine returns: its first terminal message is no transcript, and a cancelled
      request is told so unless the shutdown gives up on it. */
  lemma {:induction false} MarkedNeverTranscribed(r: Runtime, c: Config, events: seq<Event>, ids: Ids, cancelled: bool)
    requires ValidConfig(c) && HealthAnswered(events)
    requires Balanced(r) && r.exit.None? && Marked(r, ids) && (cancelled ==> r.active.value.cancelRequested)
    ensures Withheld(FirstTerminal(Added(r, Run(r, c, events)), ids), cancelled)
    decreases |events|
  {
    hide Step, Owes, FirstTerminal;
    if events == [] {
      OneTerminal(Stamped(None, None, ShutdownComplete("")), ids);
      assert Added(r, r) == [];
    } else {
      var r1, r2 := Step(r, c, events[0]), Run(r, c, events);
      MarkedStep(r, c, events[0], ids, cancelled);
      StepSettles(r, c, events[0]);
      WrittenGrows(r1, c, events[1..]);
      assert Added(r, r2) == Added(r, r1) + Added(r1, r2);
      FirstTerminalOfConcat(Added(r, r1), Added(r1, r2), ids);
      if r1.exit.Some? {
        StoppedStays(r1, c, events[1..]);
        assert Added(r1, r2) == [];
      } else if FirstTerminal(Added(r, r1), ids).None? {
        MarkedNeverTranscribed(r1, c, events[1..], ids, cancelled);
      }
    }
  }

  lemma {:induction false} StoppedStays(r: Runtime, c: Config, events: seq<Event>)
    requires r.exit.Some?
    ensures Run(r, c, events) == r
    decreases |events|
  {
    if events != [] {
      StoppedStays(r, c, events[1..]);
    }
  }

  lemma {:induction false} RunConcat(r: Runtime, c: Config, first: seq<Event>, second: seq<Event>)
    ensures Run(r, c, first + second) == Run(Run(r, c, first), c, second)
    decreases |first|
  {
    if first == [] {
      assert first + second == second;
    } else {
      assert (first + second)[1..] == first[1..] + second;
      RunConcat(Step(r, c, first[0]), c, first[1..], second);
    }
  }

  /** At any point of any run: once the cancellation of a request is accepted, or
      its deadline fires while it is active, its first terminal message from then
      on is no transcript. */
  lemma StoppedRequestHasNoTranscript(c: Config, writable: nat, before: seq<Event>, event: Event,
                                      after: seq<Event>, ids: Ids)
    requires ValidConfig(c) && HealthAnswered(before) && HealthAnswered([event]) && HealthAnswered(after)
    requires var r := Run(Start(writable), c, before);
             && r.exit.None? && r.active.Some? && r.active.value.ids == ids
             && (event == RequestDeadline(ids)
                 || (event.Received? && event.envelope.message.Cancel?
                     && ObserveCore(r.guard, event.envelope).error.None?))
    ensures var r := Run(Start(writable), c, before);
            var end := Run(Start(writable), c, before + [event] + after);
            Withheld(FirstTerminal(Added(r, end), ids), event.Received?)
  {
    hide FirstTerminal, Withheld, ObserveCore;
    var r := Run(Start(writable), c, before);
    RunSettles(Start(writable), c, before);
    assert HealthAnswered([event]) && [event][0] == event;
    StepSettles(r, c, event);
    var r1 := Step(r, c, event);
    assert Marked(r1, ids) && r1.written == r.written && r1.exit.None?;
    MarkedNeverTranscribed(r1, c, after, ids, event.Received?);
    RunConcat(Start(writable), c, before + [event], after);
    RunConcat(Start(writable), c, before, [event]);
    assert Run(r, c, [event]) == r1 by {
      assert [event][1..] == [];
    }
  }

  /** A transcript is written exactly when the inference of the active request comes
      back with a presentable text before the request was cancelled or timed out, and
      the pipe takes it; it carries the engine's text under the request's model. */
  lemma TranscriptWrittenIff(r: Runtime, c: Config, event: Event, e: WorkerEnvelope)
    requires Running(r) && e.message.Transcript? && (event.Received? ==> event.health.HealthResult?)
    ensures Step(r, c, event).written == r.written + [e]
       <==> && event.InferenceFinished? && r.active.Some? && r.active.value.ids == event.ids
            && !r.active.value.cancelRequested && !r.active.value.timedOut && event.outcome.Ok?
            && e == About(event.ids,
                          Transcript(event.ids, r.active.value.model, event.outcome.value.text,
                                     event.outcome.value.language))
            && Presentable(e.message) && r.writable >= 1
  {
    hide ObserveWorker, Presentable, OnFinished, Verdict;
    if event.InferenceFinished? {
      if r.active.Some? && r.active.value.ids == event.ids {
        var m := About(event.ids, Verdict(r.active.value, event.outcome));
        var written := Step(r, c, event).written;
        FinishedWrites(r, c, event.ids, event.outcome);
        VerdictIsTranscriptIff(r.active.value, event.outcome);
        assert r.written + [m] <= written ==> written[|r.written|] == m;
        assert (r.written + [e])[|r.written|] == e;
      } else {
        assert |r.written + [e]| != |r.written|;
        assert OnFinished(r, c, event.ids, event.outcome) == r by { NothingFinished(r, c, event.ids, event.outcome); }
      }
    } else {
      OthersWriteNoTranscript(r, c, event, e);
    }
  }

  lemma VerdictIsTranscriptIff(a: Active, outcome: Result<EngineTranscript, EngineError>)
    ensures Verdict(a, outcome).Transcript? <==> !a.cancelRequested && !a.timedOut && outcome.Ok?
    ensures Verdict(a, outcome).Transcript? ==>
        Verdict(a, outcome) == Transcript(a.ids, a.model, outcome.value.text, outcome.value.language)
  {
  }

  lemma NothingFinished(r: Runtime, c: Config, ids: Ids, outcome: Result<EngineTranscript, EngineError>)
    requires r.active.None? || r.active.value.ids != ids
    ensures OnFinished(r, c, ids, outcome) == r
  {
  }

  /** The verdict is written if it can be; after it perhaps the shutdown's completion,
      but then it was no transcript. */
  lemma FinishedWrites(r: Runtime, c: Config, ids: Ids, outcome: Result<EngineTranscript, EngineError>)
    requires Running(r) && r.active.Some? && r.active.value.ids == ids
    ensures var m := About(ids, Verdict(r.active.value, outcome));
            var written := OnFinished(r, c, ids, outcome).written;
            if Presentable(m.message) && r.writable >= 1
            then r.written + [m] <= written && (m.message.Transcript? ==> written == r.written + [m])
            else written == r.written
  {
    hide ObserveWorker, Presentable, Finish, Verdict;
    var m := About(ids, Verdict(r.active.value, outcome));
    var r1 := Emit(r.(active := None), m);
    GuardsVerdict(r, outcome);
    VerdictIsTranscriptIff(r.active.value, outcome);
    FinishAdds(r1, c);
  }

  lemma EmitsNoTranscript(r: Runtime, x: WorkerEnvelope, written: seq<WorkerEnvelope>, e: WorkerEnvelope)
    requires r.written == written && !x.message.Transcript? && e.message.Transcript?
    ensures Emit(r, x).written != written + [e] && WriteFrame(r, x).written != written + [e]
  {
    EmitAdds(r, x);
    hide Emit;
    assert (written + [x])[|written|] == x && (written + [e])[|written|] == e;
  }

  lemma OthersWriteNoTranscript(r: Runtime, c: Config, event: Event, e: WorkerEnvelope)
    requires !event.InferenceFinished? && e.message.Transcript? && (event.Received? ==> event.health.HealthResult?)
    ensures Step(r, c, event).written != r.written + [e]
  {
    hide Emit, WriteFrame, ObserveCore;
    forall r0: Runtime, x: WorkerEnvelope | r0.written == r.written && !x.message.Transcript?
      ensures Emit(r0, x).written != r.written + [e] && WriteFrame(r0, x).written != r.written + [e] {
      EmitsNoTranscript(r0, x, r.written, e);
    }
    assert |r.written + [e]| != |r.written|;
  }

  // ---------------------------------------------------------------- the end

  /** The loop ends gracefully exactly when a shutdown request finds nothing
      running, or the last inference comes back after it, and the pipe still takes
      the messages. Closing the input is never a graceful end. */
  lemma GracefulIff(r: Runtime, c: Config, event: Event)
    requires ValidConfig(c) && Running(r)
    ensures Step(r, c, event).exit == Some(Graceful)
       <==> || (event.Received? && event.envelope.message.Shutdown? && ObserveCore(r.guard, event.envelope).error.None?
                && r.active.None? && r.writable >= 1)
            || (event.InferenceFinished? && r.active.Some? && r.active.value.ids == event.ids
                && r.shutdownRequested && r.writable >= 2)
  {
    hide Verdict, ObserveWorker, Finish;
    if event.Received? {
      GracefulReceived(r, c, event);
    } else if event.InferenceFinished? && r.active.Some? && r.active.value.ids == event.ids {
      GuardsVerdict(r, event.outcome);
      if r.shutdownRequested {
        CancelledIsPresentable(r, event.outcome);
        FinishExit(Emit(r.(active := None), About(event.ids, Verdict(r.active.value, event.outcome))), c);
      }
    }
  }

  lemma FinishExit(r: Runtime, c: Config)
    requires ValidConfig(c) && (r.exit.None? ==> r.guard.phase == ShuttingDown)
    ensures r.exit.None? ==> Finish(r, c).exit == Some(if r.writable >= 1 then Graceful else Failed(Output))
  {
  }

  lemma CancelledIsPresentable(r: Runtime, outcome: Result<EngineTranscript, EngineError>)
    requires Running(r) && r.shutdownRequested
    ensures Presentable(Verdict(r.active.value, outcome))
  {
  }

  lemma GracefulReceived(r: Runtime, c: Config, event: Event)
    requires ValidConfig(c) && Running(r) && event.Received?
    ensures Step(r, c, event).exit == Some(Graceful)
       <==> event.envelope.message.Shutdown? && ObserveCore(r.guard, event.envelope).error.None?
            && r.active.None? && r.writable >= 1
  {
  }

  // ---------------------------------------------------------------- stale events

  /** A deadline or a result that arrives late touches the current request exactly
      when the two have the same ids. */
  lemma StaleEventIgnoredIff(r: Runtime, c: Config, stale: Ids, outcome: Result<EngineTranscript, EngineError>)
    requires Running(r) && r.active.Some? && !r.active.value.timedOut
    ensures Step(r, c, RequestDeadline(stale)) == r <==> stale != r.active.value.ids
    ensures Step(r, c, InferenceFinished(stale, outcome)) == r <==> stale != r.active.value.ids
  {
    if stale == r.active.value.ids {
      EmitAdds(r.(active := None), About(stale, Verdict(r.active.value, outcome)));
    }
  }

  /** Ids that come back do collide: a request that reuses the ids of one that was
      answered with a transcript is accepted, and the earlier request's timer then
      costs it its own transcript. */
  lemma ReusedIdsInheritTheDeadline(r: Runtime, c: Config, first: EngineTranscript, second: EngineTranscript,
                                    again: CoreEnvelope, health: WorkerMessage)
    requires Running(r) && r.active.Some? && r.guard.phase == Serving && r.writable >= 2
    requires !r.active.value.cancelRequested && !r.active.value.timedOut
    requires !IsBlank(first.text) && !BlankIfPresent(first.language)
    requires !IsBlank(second.text) && !BlankIfPresent(second.language)
    requires CoreError(again).None? && again.message.Transcribe? && again.message.ids == r.active.value.ids
    ensures var ids := r.active.value.ids;
            var r1 := Step(r, c, InferenceFinished(ids, Ok(first)));
            var r2 := Step(r1, c, Received(again, true, health));
            && r2.exit.None? && r2.accepted == r.accepted + [ids]
            && Verdict(r2.active.value, Ok(second)).Transcript?
            && Step(r2, c, RequestDeadline(ids)).active.Some?
            && Verdict(Step(r2, c, RequestDeadline(ids)).active.value, Ok(second))
               == Error(InferenceFailed, true, false, DEADLINE_EXCEEDED)
  {
    hide ObserveWorker;
    GuardsVerdict(r, Ok(first));
    var ids := r.active.value.ids;
    var r1 := Step(r, c, InferenceFinished(ids, Ok(first)));
    assert r1.exit.None? && r1.guard.active == {} && r1.active.None?;
    assert ObserveCore(r1.guard, again).error.None?;
  }
}
