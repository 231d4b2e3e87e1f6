/** Exactly which envelopes are well formed, which of them the protocol guard lets
    through in each phase, and what it remembers and answers. */
module ProtocolAnswers {
  import opened Wrappers
  import opened Bytes
  import opened WorkerProtocol

  // ---------------------------------------------------------------- well-formed envelopes

  /** The version of the contract, identifiers that are not nil, and a UTC timestamp. */
  predicate GoodHeader(h: Header) {
    h.version == 1 && h.id != 0 && h.session != Some(0) && h.request != Some(0) && h.utc
  }

  /** The header names this session and request, or exactly what the message needs. */
  predicate Names(h: Header, ids: Ids) {
    h.session == Some(ids.session) && h.request == Some(ids.request)
  }

  predicate Unnamed(h: Header) {
    h.session.None? && h.request.None?
  }

  lemma CoreWellFormedIff(e: CoreEnvelope)
    ensures CoreError(e).None?
       <==> GoodHeader(e.header)
            && match e.message
               case Hello(coreVersion, versions, required) =>
                 && Unnamed(e.header) && !IsBlank(coreVersion) && 1 in versions
                 && |Distinct(versions)| == |versions| && |Distinct(required)| == |required|
               case HealthCheck(model) => e.header.session.None? && e.header.request.Some? && !IsBlank(model)
               case Transcribe(ids, model, formatComplete, deadlineMs, hint) =>
                 && Names(e.header, ids) && !IsBlank(model) && formatComplete && deadlineMs > 0
                 && (hint.Some? ==> !IsBlank(hint.value))
               case Cancel(ids) => Names(e.header, ids)
               case Shutdown(_) => Unnamed(e.header)
  {
    if e.message.Hello? {
      DistinctIff(e.message.versions);
      DistinctIff(e.message.required);
    }
  }

  lemma WorkerWellFormedIff(e: WorkerEnvelope)
    ensures WorkerError(e).None?
       <==> GoodHeader(e.header)
            && match e.message
               case Ready(version, workerVersion, engines, runtimeId, capabilities, buildId) =>
                 && Unnamed(e.header) && version > 0 && engines != []
                 && !IsBlank(workerVersion) && !IsBlank(runtimeId) && !IsBlank(buildId)
                 && |Distinct(engines)| == |engines| && |Distinct(capabilities)| == |capabilities|
               case HealthResult(model, modelVersion, deviceClass, safeErrorCode) =>
                 && e.header.session.None? && e.header.request.Some?
                 && !IsBlank(model) && !IsBlank(modelVersion) && !IsBlank(deviceClass)
                 && (safeErrorCode.Some? ==> !IsBlank(safeErrorCode.value))
               case Transcript(ids, model, text, language) =>
                 && Names(e.header, ids) && !IsBlank(model) && !IsBlank(text)
                 && (language.Some? ==> !IsBlank(language.value))
               case Cancelled(ids) => Names(e.header, ids)
               case Error(_, _, _, key) => (e.header.session.Some? <==> e.header.request.Some?) && !IsBlank(key)
               case ShutdownComplete(workerVersion) => Unnamed(e.header) && !IsBlank(workerVersion)
  {
    if e.message.Ready? {
      DistinctIff(e.message.engines);
      DistinctIff(e.message.capabilities);
    }
  }

  function Distinct<T(==)>(s: seq<T>): set<T> {
    set x | x in s
  }

  /** No value comes twice exactly if there are as many values as elements. */
  lemma {:induction false} DistinctIff<T>(s: seq<T>)
    ensures AllDistinct(s) <==> |Distinct(s)| == |s|
    ensures |Distinct(s)| <= |s|
    decreases |s|
  {
    if s != [] {
      DistinctIff(s[1..]);
      assert s == [s[0]] + s[1..];
      assert Distinct(s) == {s[0]} + Distinct(s[1..]);
      assert forall i :: 0 <= i < |s[1..]| ==> s[1..][i] == s[i + 1];
      assert forall i :: 0 < i < |s| ==> s[i] == s[1..][i - 1];
      if s[0] in s[1..] {
        var j :| 0 <= j < |s[1..]| && s[1..][j] == s[0];
        assert s[j + 1] == s[0];
      }
    }
  }

  /** What is wrong with an envelope is told by its header first. */
  lemma HeaderErrorFirst(e: CoreEnvelope, m: WorkerEnvelope)
    requires m.header == e.header
    ensures var h := e.header;
            && (h.version != 1 ==> CoreError(e) == WorkerError(m) == Some(UnsupportedContractVersion))
            && (h.version == 1 && (h.id == 0 || h.session == Some(0) || h.request == Some(0))
                ==> CoreError(e) == WorkerError(m) == Some(NilIdentifier))
            && (h.version == 1 && h.id != 0 && h.session != Some(0) && h.request != Some(0) && !h.utc
                ==> CoreError(e) == WorkerError(m) == Some(InvalidField))
  {
  }

  /** Then by what it names: an id too few, too many, or another one. */
  lemma NamingErrors(e: CoreEnvelope)
    requires GoodHeader(e.header)
    ensures var h := e.header;
            && (e.message.Transcribe? || e.message.Cancel? ==>
                  if h.session.None? || h.request.None? then CoreError(e) == Some(MissingCorrelation)
                  else !Names(h, e.message.ids) ==> CoreError(e) == Some(CorrelationMismatch))
            && (e.message.HealthCheck? ==>
                  && (h.session.Some? ==> CoreError(e) == Some(UnexpectedCorrelation))
                  && (h.session.None? && h.request.None? ==> CoreError(e) == Some(MissingCorrelation)))
            && (e.message.Hello? || e.message.Shutdown? ==>
                  (!Unnamed(h) ==> CoreError(e) == Some(UnexpectedCorrelation)))
            && (e.message.Hello? && Unnamed(h) && !IsBlank(e.message.coreVersion) && 1 !in e.message.versions
                ==> CoreError(e) == Some(NegotiationFailed))
  {
  }

  /** For the worker's messages the same; an error may name a request or none, not half. */
  lemma WorkerNamingErrors(e: WorkerEnvelope)
    requires GoodHeader(e.header)
    ensures var h := e.header;
            && (e.message.Transcript? || e.message.Cancelled? ==>
                  if h.session.None? || h.request.None? then WorkerError(e) == Some(MissingCorrelation)
                  else !Names(h, e.message.ids) ==> WorkerError(e) == Some(CorrelationMismatch))
            && (e.message.HealthResult? ==>
                  && (h.session.Some? ==> WorkerError(e) == Some(UnexpectedCorrelation))
                  && (h.session.None? && h.request.None? ==> WorkerError(e) == Some(MissingCorrelation)))
            && (e.message.Ready? || e.message.ShutdownComplete? ==>
                  (!Unnamed(h) ==> WorkerError(e) == Some(UnexpectedCorrelation)))
            && (e.message.Error? ==>
                  (h.session.None? != h.request.None? ==> WorkerError(e) == Some(MissingCorrelation)))
  {
  }

  /** The header names what it has to. */
  predicate CoreNamed(e: CoreEnvelope) {
    match e.message
    case Transcribe(ids, _, _, _, _) => Names(e.header, ids)
    case Cancel(ids) => Names(e.header, ids)
    case HealthCheck(_) => e.header.session.None? && e.header.request.Some?
    case _ => Unnamed(e.header)
  }

  predicate WorkerNamed(e: WorkerEnvelope) {
    match e.message
    case Transcript(ids, _, _, _) => Names(e.header, ids)
    case Cancelled(ids) => Names(e.header, ids)
    case HealthResult(_, _, _, _) => e.header.session.None? && e.header.request.Some?
    case Error(_, _, _, _) => e.header.session.Some? <==> e.header.request.Some?
    case _ => Unnamed(e.header)
  }

  /** What is wrong with the content comes last: an invalid field, or in a greeting a
      version that is not offered or a value that comes twice. */
  lemma ContentErrors(e: CoreEnvelope, m: WorkerEnvelope)
    ensures GoodHeader(e.header) && CoreNamed(e) && CoreError(e).Some? ==>
              CoreError(e).value
              == if !e.message.Hello? || IsBlank(e.message.coreVersion) then InvalidField
                 else if 1 !in e.message.versions then NegotiationFailed
                 else DuplicateValue
    ensures GoodHeader(m.header) && WorkerNamed(m) && WorkerError(m).Some? ==>
              WorkerError(m).value
              == if m.message.Ready? && m.message.version > 0 && m.message.engines != []
                    && !IsBlank(m.message.workerVersion) && !IsBlank(m.message.runtimeId) && !IsBlank(m.message.buildId)
                 then DuplicateValue else InvalidField
  {
  }

  // ---------------------------------------------------------------- phases

  /** Core may greet once, then shut down at any time, and ask for work only while the
      worker serves; a request may be active once. */
  lemma CoreAllowedIff(s: State, e: CoreEnvelope)
    requires CoreError(e).None?
    ensures ObserveCore(s, e).error.None?
       <==> match e.message
            case Hello(_, _, _) => s.phase == AwaitingHello
            case HealthCheck(_) => s.phase == Serving
            case Transcribe(ids, _, _, _, _) => s.phase == Serving && ids !in s.active
            case Cancel(ids) => s.phase == Serving && ids in s.active
            case Shutdown(_) => s.phase == AwaitingReady || s.phase == Serving
  {
  }

  /** What is remembered of an allowed message; a refused one changes nothing. */
  lemma CoreMoves(s: State, e: CoreEnvelope)
    ensures var o := ObserveCore(s, e);
            && (o.error.Some? ==> o.state == s)
            && (o.error.None? ==>
                  match e.message
                  case Hello(_, versions, required) =>
                    o.state == s.(phase := AwaitingReady, offered := versions, required := required)
                  case Transcribe(ids, _, _, _, _) => o.state == s.(active := s.active + {ids})
                  case Shutdown(_) => o.state == s.(phase := ShuttingDown)
                  case _ => o.state == s)
  {
  }

  /** A well-formed message is refused as unexpected, unless it is a request that is
      active already, or a cancellation of one that is not. */
  lemma CoreRefusals(s: State, e: CoreEnvelope)
    requires CoreError(e).None? && ObserveCore(s, e).error.Some?
    ensures ObserveCore(s, e).error.value
         == if e.message.Transcribe? && s.phase == Serving then DuplicateRequestCorrelation
            else if e.message.Cancel? && s.phase == Serving then UnknownRequestCorrelation
            else UnexpectedMessage
  {
  }

  /** A worker's greeting meets what core offered and requires. */
  predicate Meets(s: State, e: WorkerEnvelope) {
    e.message.Ready? && e.message.version in s.offered && forall c :: c in s.required ==> c in e.message.capabilities
  }

  predicate ConcernsActive(s: State, e: WorkerEnvelope) {
    e.header.session.Some? && e.header.request.Some?
    && Ids(e.header.session.value, e.header.request.value) in s.active
  }

  /** The worker may greet once it was greeted, report results while it serves, end an
      active request also during a shutdown, complete a shutdown, and report errors at
      any time between the greeting and the end. */
  lemma WorkerAllowedIff(s: State, e: WorkerEnvelope)
    requires WorkerError(e).None?
    ensures ObserveWorker(s, e).error.None?
       <==> match e.message
            case Ready(_, _, _, _, _, _) => s.phase == AwaitingReady && Meets(s, e)
            case HealthResult(_, _, _, _) => s.phase == Serving
            case Transcript(_, _, _, _) => s.phase == Serving && ConcernsActive(s, e)
            case Cancelled(_) => (s.phase == Serving || s.phase == ShuttingDown) && ConcernsActive(s, e)
            case Error(_, _, _, _) =>
              && (s.phase == AwaitingReady || s.phase == Serving || s.phase == ShuttingDown)
              && (Unnamed(e.header) || ConcernsActive(s, e))
            case ShutdownComplete(_) => s.phase == ShuttingDown
  {
    if e.message.Ready? && Meets(s, e) {
      assert forall i :: 0 <= i < |s.required| ==> s.required[i] in s.required;
    }
  }

  /** A request that is ended is no longer active; a fatal error and the end of a
      shutdown close the guard for good. */
  lemma WorkerMoves(s: State, e: WorkerEnvelope)
    requires ObserveWorker(s, e).error.None?
    ensures var s' := ObserveWorker(s, e).state;
            match e.message
            case Ready(version, _, _, _, _, _) => s' == s.(phase := Serving, negotiated := Some(version))
            case HealthResult(_, _, _, _) => s' == s
            case Transcript(ids, _, _, _) => s' == s.(active := s.active - {ids})
            case Cancelled(ids) => s' == s.(active := s.active - {ids})
            case Error(_, _, fatal, _) =>
              s' == if fatal then s.(phase := Closed, active := {})
                    else if Unnamed(e.header) then s
                    else s.(active := s.active - {Ids(e.header.session.value, e.header.request.value)})
            case ShutdownComplete(_) => s' == s.(phase := Closed, active := {})
  {
  }

  /** A greeting that does not meet core's terms closes the guard; every other refusal
      leaves it as it was. */
  lemma WorkerRefusals(s: State, e: WorkerEnvelope)
    requires WorkerError(e).None? && ObserveWorker(s, e).error.Some?
    ensures var o := ObserveWorker(s, e);
            if e.message.Ready? && s.phase == AwaitingReady then
              && o.state == s.(phase := Closed)
              && o.error.value == if e.message.version in s.offered then MissingCapability else NegotiationFailed
            else
              && o.state == s
              && (o.error.value == UnknownRequestCorrelation
                  <==> && !ConcernsActive(s, e)
                       && (|| (e.message.Transcript? && s.phase == Serving)
                           || (e.message.Cancelled? && s.phase in {Serving, ShuttingDown})
                           || (e.message.Error? && s.phase in {AwaitingReady, Serving, ShuttingDown})))
              && (o.error.value != UnknownRequestCorrelation ==> o.error.value == UnexpectedMessage)
  {
  }
}
