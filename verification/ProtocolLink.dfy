/** Both ends of the worker connection, each with its guard, and the two pipes between
    them: which messages one end may send and the other still refuses. */
module ProtocolLink {
  import opened Wrappers
  import opened WorkerProtocol

  /** The guards of core and worker, and what is on its way down and up. */
  datatype Link = Link(core: State, worker: State, down: seq<CoreEnvelope>, up: seq<WorkerEnvelope>, broken: bool)

  const OPEN: Link := Link(FRESH, FRESH, [], [], false)

  datatype Step = CoreSends(e: CoreEnvelope) | WorkerSends(m: WorkerEnvelope) | CoreReads | WorkerReads

  /** An end sends only what its own guard allows; the first refusal ends the connection. */
  function Next(l: Link, step: Step): Link {
    if l.broken then l
    else match step
      case CoreSends(e) =>
        var o := ObserveCore(l.core, e);
        if o.error.Some? then l else l.(core := o.state, down := l.down + [e])
      case WorkerSends(m) =>
        var o := ObserveWorker(l.worker, m);
        if o.error.Some? then l else l.(worker := o.state, up := l.up + [m])
      case CoreReads =>
        if l.up == [] then l
        else
          var o := ObserveWorker(l.core, l.up[0]);
          l.(core := o.state, up := l.up[1..], broken := o.error.Some?)
      case WorkerReads =>
        if l.down == [] then l
        else
          var o := ObserveCore(l.worker, l.down[0]);
          l.(worker := o.state, down := l.down[1..], broken := o.error.Some?)
  }

  function Run(l: Link, steps: seq<Step>): Link
    decreases |steps|
  {
    if steps == [] then l else Run(Next(l, steps[0]), steps[1..])
  }

  // ---------------------------------------------------------------- what the pipes hold

  /** The request that a message ends. */
  function EndOf(m: WorkerEnvelope): multiset<Ids> {
    match m.message
    case Transcript(ids, _, _, _) => multiset{ids}
    case Cancelled(ids) => multiset{ids}
    case Error(_, _, _, _) =>
      if m.header.session.Some? && m.header.request.Some?
      then multiset{Ids(m.header.session.value, m.header.request.value)} else multiset{}
    case _ => multiset{}
  }

  function StartOf(e: CoreEnvelope): multiset<Ids> {
    if e.message.Transcribe? then multiset{e.message.ids} else multiset{}
  }

  function Ended(up: seq<WorkerEnvelope>): multiset<Ids> {
    if up == [] then multiset{} else EndOf(up[0]) + Ended(up[1..])
  }

  function Started(down: seq<CoreEnvelope>): multiset<Ids> {
    if down == [] then multiset{} else StartOf(down[0]) + Started(down[1..])
  }

  /** No request is lost or doubled: what core waits for is running, on its way there,
      or on its way back; a worker that has closed runs nothing. */
  ghost predicate Accounted(l: Link) {
    if l.worker.phase == Closed then l.worker.active == {} && Ended(l.up) <= multiset(l.core.active)
    else multiset(l.core.active) == multiset(l.worker.active) + Started(l.down) + Ended(l.up)
  }

  /** How far the ends can be apart when nothing is on its way up. */
  predicate Level(core: Phase, worker: Phase) {
    match core
    case AwaitingHello => worker == AwaitingHello
    case AwaitingReady => worker == AwaitingHello || worker == AwaitingReady
    case Serving => worker == Serving
    case ShuttingDown => worker != Closed
    case Closed => worker == Closed
  }

  predicate Fatal(m: WorkerEnvelope) {
    m.message.Error? && m.message.fatal
  }

  /** The messages on their way up fit the phase core will be in when it reads them;
      only the last one can close the connection. */
  predicate UpFits(core: Phase, up: seq<WorkerEnvelope>, worker: Phase)
    decreases |up|
  {
    if up == [] then Level(core, worker)
    else
      && (core == AwaitingReady || core == Serving || core == ShuttingDown)
      && match up[0].message
         case Ready(_, _, _, _, _, _) =>
           core != Serving && UpFits(if core == AwaitingReady then Serving else core, up[1..], worker)
         case Error(_, _, fatal, _) =>
           if fatal then up[1..] == [] && worker == Closed else UpFits(core, up[1..], worker)
         case ShutdownComplete(_) => core == ShuttingDown && up[1..] == [] && worker == Closed
         case _ => core != AwaitingReady && UpFits(core, up[1..], worker)
  }

  predicate IsRequest(e: CoreEnvelope) {
    e.message.HealthCheck? || e.message.Transcribe? || e.message.Cancel?
  }

  /** Requests, and behind them a shutdown if core has sent one. */
  predicate Requests(down: seq<CoreEnvelope>, closing: bool) {
    if closing
    then down != [] && down[|down| - 1].message.Shutdown? && Requests(down[..|down| - 1], false)
    else forall i :: 0 <= i < |down| ==> IsRequest(down[i])
  }

  predicate DownFits(core: Phase, worker: Phase, down: seq<CoreEnvelope>)
    decreases |down|
  {
    match worker
    case AwaitingHello =>
      if core == AwaitingHello then down == []
      else down != [] && down[0].message.Hello? && DownFits(core, AwaitingReady, down[1..])
    case AwaitingReady =>
      || (core == AwaitingReady && down == [])
      || (core == ShuttingDown && |down| == 1 && down[0].message.Shutdown?)
    case Serving =>
      (core == AwaitingReady || core == Serving || core == ShuttingDown) && Requests(down, core == ShuttingDown)
    case ShuttingDown => core == ShuttingDown && down == []
    case Closed => true
  }

  predicate SameTerms(l: Link) {
    if l.worker.phase == AwaitingHello
    then l.down != [] && l.down[0].message.Hello? ==>
           l.down[0].message.versions == l.core.offered && l.down[0].message.required == l.core.required
    else l.worker.offered == l.core.offered && l.worker.required == l.core.required
  }

  /** A ready message on its way up meets what core asked for. */
  predicate Agrees(core: State, m: WorkerEnvelope) {
    m.message.Ready? ==>
      && m.message.version in core.offered
      && forall i :: 0 <= i < |core.required| ==> core.required[i] in m.message.capabilities
  }

  predicate WellFormed(l: Link) {
    && (forall i :: 0 <= i < |l.down| ==> CoreError(l.down[i]).None?)
    && (forall i :: 0 <= i < |l.up| ==> WorkerError(l.up[i]).None? && Agrees(l.core, l.up[i]))
    && (l.worker.phase == AwaitingHello ==> l.up == [] && l.worker.active == {})
  }

  ghost predicate Invariant(l: Link) {
    && WellFormed(l) && SameTerms(l) && Accounted(l)
    && UpFits(l.core.phase, l.up, l.worker.phase) && DownFits(l.core.phase, l.worker.phase, l.down)
  }

  // ---------------------------------------------------------------- who refuses what

  /** Core refuses a message that its worker was allowed to send exactly if it crossed
      core's shutdown: a greeting, a health result or a transcript. */
  lemma CoreRefusesIff(l: Link)
    requires Invariant(l) && l.up != []
    ensures ObserveWorker(l.core, l.up[0]).error.Some?
       <==> l.core.phase == ShuttingDown
            && (l.up[0].message.Ready? || l.up[0].message.HealthResult? || l.up[0].message.Transcript?)
  {
    assert Fits(l.core.phase, l.up[0]);
    assert Ended(l.up) == EndOf(l.up[0]) + Ended(l.up[1..]);
    assert EndOf(l.up[0]) <= multiset(l.core.active) by {
      hide Ended, EndOf, Started;
    }
    hide Accounted, UpFits, DownFits, SameTerms, Agrees, EndOf, ObserveWorker, WorkerError;
    FittingRefusedIff(l.core, l.up[0]);
  }

  /** The part of fitting that concerns one message. */
  predicate Fits(core: Phase, m: WorkerEnvelope) {
    && (core == AwaitingReady || core == Serving || core == ShuttingDown)
    && (m.message.Ready? ==> core != Serving)
    && (m.message.ShutdownComplete? ==> core == ShuttingDown)
    && (m.message.HealthResult? || m.message.Transcript? || m.message.Cancelled? ==> core != AwaitingReady)
  }

  lemma FittingRefusedIff(core: State, m: WorkerEnvelope)
    requires WorkerError(m).None? && Agrees(core, m) && Fits(core.phase, m) && EndOf(m) <= multiset(core.active)
    ensures ObserveWorker(core, m).error.Some?
       <==> core.phase == ShuttingDown && (m.message.Ready? || m.message.HealthResult? || m.message.Transcript?)
  {
    assert forall ids :: ids in EndOf(m) ==> ids in core.active;
  }

  /** The worker refuses a message that core was allowed to send exactly if it has
      closed the connection, or it is the cancellation of a request that it does not
      run any more. */
  lemma WorkerRefusesIff(l: Link)
    requires Invariant(l) && l.down != []
    ensures ObserveCore(l.worker, l.down[0]).error.Some?
       <==> l.worker.phase == Closed || (l.down[0].message.Cancel? && l.down[0].message.ids !in l.worker.active)
  {
    if l.worker.phase == Serving {
      FirstIsRequest(l.down, l.core.phase == ShuttingDown);
      ServingRefusesIff(l);
    } else {
      hide Accounted, Requests, UpFits, SameTerms;
    }
  }

  lemma ServingRefusesIff(l: Link)
    requires l.worker.phase == Serving && l.down != [] && CoreError(l.down[0]).None? && Accounted(l)
    requires IsRequest(l.down[0]) || l.down[0].message.Shutdown?
    ensures ObserveCore(l.worker, l.down[0]).error.Some?
       <==> l.down[0].message.Cancel? && l.down[0].message.ids !in l.worker.active
  {
    if l.down[0].message.Transcribe? {
      var ids := l.down[0].message.ids;
      assert Started(l.down) == multiset{ids} + Started(l.down[1..]);
      assert multiset(l.core.active)[ids] <= 1;
    }
    hide Accounted, Started, Ended;
  }

  lemma FirstIsRequest(down: seq<CoreEnvelope>, closing: bool)
    requires Requests(down, closing) && down != []
    ensures IsRequest(down[0]) || (closing && |down| == 1 && down[0].message.Shutdown?)
    ensures Requests(down[1..], closing) || (closing && |down| == 1)
  {
    if closing && |down| > 1 {
      assert down[..|down| - 1][0] == down[0];
      assert down[1..][..|down| - 2] == down[..|down| - 1][1..];
    }
  }

  // ---------------------------------------------------------------- every step

  lemma {:induction false} EndedAppend(up: seq<WorkerEnvelope>, m: WorkerEnvelope)
    ensures Ended(up + [m]) == Ended(up) + EndOf(m)
    decreases |up|
  {
    if up == [] {
      assert [m][1..] == [];
      assert up + [m] == [m];
    } else {
      assert (up + [m])[1..] == up[1..] + [m] && (up + [m])[0] == up[0];
      EndedAppend(up[1..], m);
    }
  }

  lemma {:induction false} StartedAppend(down: seq<CoreEnvelope>, e: CoreEnvelope)
    ensures Started(down + [e]) == Started(down) + StartOf(e)
    decreases |down|
  {
    if down == [] {
      assert [e][1..] == [];
      assert down + [e] == [e];
    } else {
      assert (down + [e])[1..] == down[1..] + [e] && (down + [e])[0] == down[0];
      StartedAppend(down[1..], e);
    }
  }

  /** A worker's message fits behind those on their way. */
  lemma {:induction false} UpFitsAppend(core: Phase, up: seq<WorkerEnvelope>, worker: State, m: WorkerEnvelope)
    requires UpFits(core, up, worker.phase) && ObserveWorker(worker, m).error.None?
    ensures UpFits(core, up + [m], ObserveWorker(worker, m).state.phase)
    decreases |up|
  {
    if up == [] {
      assert (up + [m])[1..] == [] && (up + [m])[0] == m;
    } else {
      assert (up + [m])[1..] == up[1..] + [m] && (up + [m])[0] == up[0];
      var next := if up[0].message.Ready? && core == AwaitingReady then Serving else core;
      hide ObserveWorker;
      if worker.phase == Closed {
        ClosedSendsNothing(worker, m);
      } else {
        UpFitsAppend(next, up[1..], worker, m);
      }
    }
  }

  lemma ClosedSendsNothing(worker: State, m: WorkerEnvelope)
    requires worker.phase == Closed
    ensures ObserveWorker(worker, m).error.Some?
  {
  }

  /** What fits a core that waits or serves also fits one that shuts down. */
  lemma {:induction false} UpFitsClosing(core: Phase, up: seq<WorkerEnvelope>, worker: Phase)
    requires UpFits(core, up, worker) && (core == AwaitingReady || core == Serving) && (worker != Closed || up != [])
    ensures UpFits(ShuttingDown, up, worker)
    decreases |up|
  {
    if up != [] && up[1..] != [] {
      UpFitsClosing(if up[0].message.Ready? then Serving else core, up[1..], worker);
    } else if up != [] && !Fatal(up[0]) {
      assert UpFits(if up[0].message.Ready? then Serving else core, [], worker);
    }
  }

  /** The worker hears of a shutdown, or of a greeting in front of one. */
  lemma {:induction false} UpFitsMoved(core: Phase, up: seq<WorkerEnvelope>, worker: Phase, worker': Phase)
    requires UpFits(core, up, worker) && worker != Closed && worker' != Closed
    requires core == ShuttingDown
    ensures UpFits(core, up, worker')
    decreases |up|
  {
    if up != [] {
      UpFitsMoved(core, up[1..], worker, worker');
    }
  }

  /** Only a worker that serves, or has closed, has something for a serving core. */
  lemma {:induction false} UpFitsServing(up: seq<WorkerEnvelope>, worker: Phase)
    requires UpFits(Serving, up, worker)
    ensures worker == Serving || worker == Closed
    decreases |up|
  {
    if up != [] && !Fatal(up[0]) {
      UpFitsServing(up[1..], worker);
    }
  }

  lemma OneMore(s: set<Ids>, ids: Ids)
    ensures ids !in s ==> multiset(s + {ids}) == multiset(s) + multiset{ids}
    ensures ids in s ==> multiset(s) == multiset(s - {ids}) + multiset{ids}
  {
    assert ids in s ==> (s - {ids}) + {ids} == s;
  }

  /** What an allowed message of core does to either guard's requests. */
  lemma CoreEffect(s: State, e: CoreEnvelope)
    requires ObserveCore(s, e).error.None?
    ensures var s' := ObserveCore(s, e).state;
            multiset(s'.active) == multiset(s.active) + StartOf(e) && (s'.phase == Closed ==> s.phase == Closed)
  {
    if e.message.Transcribe? {
      OneMore(s.active, e.message.ids);
    }
  }

  /** And what an allowed message of the worker does. */
  lemma WorkerEffect(s: State, m: WorkerEnvelope)
    requires ObserveWorker(s, m).error.None?
    ensures var s' := ObserveWorker(s, m).state;
            && s.phase != Closed
            && (s'.phase == Closed <==> Fatal(m) || m.message.ShutdownComplete?)
            && if s'.phase == Closed then s'.active == {} && EndOf(m) <= multiset(s.active)
               else multiset(s.active) == multiset(s'.active) + EndOf(m)
  {
    match m.message
    case Transcript(ids, _, _, _) => OneMore(s.active, ids);
    case Cancelled(ids) => OneMore(s.active, ids);
    case Error(_, _, _, _) =>
      if m.header.session.Some? && m.header.request.Some? {
        OneMore(s.active, Ids(m.header.session.value, m.header.request.value));
      }
    case _ =>
  }

  lemma AccountedStart(l: Link, e: CoreEnvelope)
    requires Accounted(l) && ObserveCore(l.core, e).error.None?
    ensures Accounted(l.(core := ObserveCore(l.core, e).state, down := l.down + [e]))
  {
    StartedAppend(l.down, e);
    CoreEffect(l.core, e);
    hide ObserveCore, Started, Ended, StartOf;
  }

  lemma DownFitsMore(core: State, worker: Phase, down: seq<CoreEnvelope>, e: CoreEnvelope)
    requires DownFits(core.phase, worker, down) && ObserveCore(core, e).error.None?
    requires IsRequest(e) ==> worker == Serving || worker == Closed
    requires e.message.Hello? ==> worker == AwaitingHello
    ensures DownFits(ObserveCore(core, e).state.phase, worker, down + [e])
  {
    assert (down + [e])[..|down|] == down;
    if worker == AwaitingHello && e.message.Shutdown? {
      assert (down + [e])[0] == down[0] && (down + [e])[1..] == [e];
    } else if worker == AwaitingHello {
      assert (down + [e])[1..] == [];
    }
  }

  lemma CoreSendsForm(l: Link, e: CoreEnvelope)
    requires WellFormed(l) && SameTerms(l) && ObserveCore(l.core, e).error.None?
    requires e.message.Hello? ==> l.up == [] && l.down == [] && l.worker.phase == AwaitingHello
    ensures var l' := l.(core := ObserveCore(l.core, e).state, down := l.down + [e]); WellFormed(l') && SameTerms(l')
  {
    assert l.down != [] ==> (l.down + [e])[0] == l.down[0];
    if !e.message.Hello? {
      var s := ObserveCore(l.core, e).state;
      assert s.offered == l.core.offered && s.required == l.core.required;
      assert forall m :: Agrees(s, m) <==> Agrees(l.core, m);
      hide Agrees;
    }
  }

  /** What core's end tells it about the worker's when it sends. */
  lemma CoreSendsWhen(l: Link, e: CoreEnvelope)
    requires ObserveCore(l.core, e).error.None?
    requires UpFits(l.core.phase, l.up, l.worker.phase) && DownFits(l.core.phase, l.worker.phase, l.down)
    ensures e.message.Hello? ==> l.up == [] && l.down == [] && l.worker.phase == AwaitingHello
    ensures IsRequest(e) ==> l.worker.phase == Serving || l.worker.phase == Closed
    ensures UpFits(ObserveCore(l.core, e).state.phase, l.up, l.worker.phase)
  {
    if e.message.Shutdown? {
      UpFitsClosing(l.core.phase, l.up, l.worker.phase);
    } else if !e.message.Hello? {
      UpFitsServing(l.up, l.worker.phase);
    }
  }

  lemma CoreSendsKeeps(l: Link, e: CoreEnvelope)
    requires Invariant(l) && !l.broken && ObserveCore(l.core, e).error.None?
    ensures Invariant(Next(l, CoreSends(e)))
  {
    hide ObserveCore, ObserveWorker, UpFits, DownFits, Accounted, WellFormed, SameTerms;
    CoreSendsWhen(l, e);
    AccountedStart(l, e);
    CoreSendsForm(l, e);
    DownFitsMore(l.core, l.worker.phase, l.down, e);
  }

  lemma AccountedEnd(l: Link, m: WorkerEnvelope)
    requires Accounted(l) && ObserveWorker(l.worker, m).error.None?
    ensures Accounted(l.(worker := ObserveWorker(l.worker, m).state, up := l.up + [m]))
  {
    EndedAppend(l.up, m);
    WorkerEffect(l.worker, m);
    hide ObserveWorker, Started, Ended, EndOf, Fatal;
  }

  lemma DownFitsWorker(core: Phase, worker: State, down: seq<CoreEnvelope>, m: WorkerEnvelope)
    requires DownFits(core, worker.phase, down) && ObserveWorker(worker, m).error.None?
    ensures DownFits(core, ObserveWorker(worker, m).state.phase, down)
  {
    if m.message.Ready? && down != [] {
      assert down[..0] == [] && down[..|down| - 1] == [];
    }
  }

  lemma WorkerSendsForm(l: Link, m: WorkerEnvelope)
    requires WellFormed(l) && SameTerms(l) && ObserveWorker(l.worker, m).error.None?
    ensures var l' := l.(worker := ObserveWorker(l.worker, m).state, up := l.up + [m]); WellFormed(l') && SameTerms(l')
  {
    var s := ObserveWorker(l.worker, m).state;
    assert Agrees(l.core, m) && WorkerError(m).None? && l.worker.phase != AwaitingHello && s.phase != AwaitingHello;
    assert s.offered == l.worker.offered && s.required == l.worker.required;
    hide Agrees, ObserveWorker, WorkerError, CoreError;
  }

  lemma WorkerSendsKeeps(l: Link, m: WorkerEnvelope)
    requires Invariant(l) && !l.broken && ObserveWorker(l.worker, m).error.None?
    ensures Invariant(Next(l, WorkerSends(m)))
  {
    hide ObserveCore, ObserveWorker, UpFits, DownFits, Accounted, WellFormed, SameTerms;
    AccountedEnd(l, m);
    UpFitsAppend(l.core.phase, l.up, l.worker, m);
    DownFitsWorker(l.core.phase, l.worker, l.down, m);
    WorkerSendsForm(l, m);
  }

  lemma TakeAway(a: multiset<Ids>, end: multiset<Ids>, b: multiset<Ids>, rest: multiset<Ids>)
    ensures a + end == b + (end + rest) ==> a == b + rest
    ensures end + rest <= a + end ==> rest <= a
  {
    if a + end == b + (end + rest) {
      forall ids ensures a[ids] == (b + rest)[ids] {
        assert (a + end)[ids] == (b + (end + rest))[ids];
      }
    }
    if end + rest <= a + end {
      forall ids ensures rest[ids] <= a[ids] {
        assert (end + rest)[ids] <= (a + end)[ids];
      }
    }
  }

  lemma AccountedRead(l: Link)
    requires Accounted(l) && l.up != [] && ObserveWorker(l.core, l.up[0]).error.None?
    requires Fatal(l.up[0]) || l.up[0].message.ShutdownComplete? ==> l.up[1..] == [] && l.worker.phase == Closed
    ensures Accounted(l.(core := ObserveWorker(l.core, l.up[0]).state, up := l.up[1..]))
  {
    assert Ended(l.up) == EndOf(l.up[0]) + Ended(l.up[1..]);
    assert l.up[1..] == [] ==> Ended(l.up[1..]) == multiset{};
    WorkerEffect(l.core, l.up[0]);
    hide ObserveWorker, Started, Ended, EndOf, Fatal;
    var core := ObserveWorker(l.core, l.up[0]).state;
    if core.phase != Closed {
      TakeAway(multiset(core.active), EndOf(l.up[0]), multiset(l.worker.active) + Started(l.down), Ended(l.up[1..]));
    }
  }

  lemma CoreReadsForm(l: Link)
    requires WellFormed(l) && SameTerms(l) && l.up != [] && ObserveWorker(l.core, l.up[0]).error.None?
    ensures var l' := l.(core := ObserveWorker(l.core, l.up[0]).state, up := l.up[1..]); WellFormed(l') && SameTerms(l')
  {
    var s := ObserveWorker(l.core, l.up[0]).state;
    assert s.offered == l.core.offered && s.required == l.core.required;
    assert forall m :: Agrees(s, m) <==> Agrees(l.core, m);
    hide Agrees, ObserveWorker, WorkerError, CoreError;
  }

  lemma CoreReadsFits(core: State, worker: Phase, up: seq<WorkerEnvelope>, down: seq<CoreEnvelope>)
    requires up != [] && worker != AwaitingHello && ObserveWorker(core, up[0]).error.None?
    requires UpFits(core.phase, up, worker) && DownFits(core.phase, worker, down)
    ensures Fatal(up[0]) || up[0].message.ShutdownComplete? ==> up[1..] == [] && worker == Closed
    ensures UpFits(ObserveWorker(core, up[0]).state.phase, up[1..], worker)
    ensures DownFits(ObserveWorker(core, up[0]).state.phase, worker, down)
  {
    if up[0].message.Ready? && core.phase == AwaitingReady {
      UpFitsServing(up[1..], worker);
    }
  }

  lemma CoreReadsKeeps(l: Link)
    requires Invariant(l) && !l.broken && l.up != [] && ObserveWorker(l.core, l.up[0]).error.None?
    ensures Invariant(Next(l, CoreReads))
  {
    assert l.worker.phase != AwaitingHello;
    hide ObserveCore, ObserveWorker, UpFits, DownFits, Accounted, WellFormed, SameTerms;
    CoreReadsFits(l.core, l.worker.phase, l.up, l.down);
    AccountedRead(l);
    CoreReadsForm(l);
  }

  lemma AccountedTaken(l: Link)
    requires Accounted(l) && l.down != [] && l.worker.phase != Closed && ObserveCore(l.worker, l.down[0]).error.None?
    ensures Accounted(l.(worker := ObserveCore(l.worker, l.down[0]).state, down := l.down[1..]))
  {
    assert Started(l.down) == StartOf(l.down[0]) + Started(l.down[1..]);
    CoreEffect(l.worker, l.down[0]);
    hide ObserveCore, Started, Ended, StartOf;
  }

  lemma WorkerReadsForm(l: Link)
    requires WellFormed(l) && SameTerms(l) && l.down != [] && ObserveCore(l.worker, l.down[0]).error.None?
    requires l.worker.phase == AwaitingHello ==> l.down[0].message.Hello?
    ensures var l' := l.(worker := ObserveCore(l.worker, l.down[0]).state, down := l.down[1..]);
            WellFormed(l') && SameTerms(l')
  {
    hide Agrees, WorkerError;
    assert ObserveCore(l.worker, l.down[0]).state.phase != AwaitingHello;
  }

  lemma WorkerReadsFits(core: Phase, worker: State, up: seq<WorkerEnvelope>, down: seq<CoreEnvelope>)
    requires down != [] && ObserveCore(worker, down[0]).error.None? && (worker.phase == AwaitingHello ==> up == [])
    requires UpFits(core, up, worker.phase) && DownFits(core, worker.phase, down)
    ensures worker.phase != Closed && (worker.phase == AwaitingHello ==> down[0].message.Hello?)
    ensures UpFits(core, up, ObserveCore(worker, down[0]).state.phase)
    ensures DownFits(core, ObserveCore(worker, down[0]).state.phase, down[1..])
  {
    if worker.phase == Serving {
      FirstIsRequest(down, core == ShuttingDown);
    }
    if down[0].message.Shutdown? && core == ShuttingDown && worker.phase != Closed {
      UpFitsMoved(core, up, worker.phase, ShuttingDown);
    }
  }

  lemma WorkerReadsKeeps(l: Link)
    requires Invariant(l) && !l.broken && l.down != [] && ObserveCore(l.worker, l.down[0]).error.None?
    ensures Invariant(Next(l, WorkerReads))
  {
    assert l.worker.phase == AwaitingHello ==> l.up == [];
    hide ObserveCore, ObserveWorker, UpFits, DownFits, Accounted, WellFormed, SameTerms;
    WorkerReadsFits(l.core.phase, l.worker, l.up, l.down);
    AccountedTaken(l);
    WorkerReadsForm(l);
  }

  lemma NextKeepsInvariant(l: Link, step: Step)
    requires Invariant(l) && !l.broken && !Next(l, step).broken
    ensures Invariant(Next(l, step))
  {
    hide Invariant, ObserveCore, ObserveWorker;
    match step
    case CoreSends(e) => if ObserveCore(l.core, e).error.None? { CoreSendsKeeps(l, e); }
    case WorkerSends(m) => if ObserveWorker(l.worker, m).error.None? { WorkerSendsKeeps(l, m); }
    case CoreReads => if l.up != [] { CoreReadsKeeps(l); }
    case WorkerReads => if l.down != [] { WorkerReadsKeeps(l); }
  }

  lemma {:induction false} RunKeepsInvariant(l: Link, steps: seq<Step>)
    requires Invariant(l) && !l.broken && !Run(l, steps).broken
    ensures Invariant(Run(l, steps))
    decreases |steps|
  {
    hide Invariant, Next;
    if steps != [] {
      if Next(l, steps[0]).broken {
        BrokenStays(Next(l, steps[0]), steps[1..]);
      } else {
        NextKeepsInvariant(l, steps[0]);
        RunKeepsInvariant(Next(l, steps[0]), steps[1..]);
      }
    }
  }

  lemma {:induction false} BrokenStays(l: Link, steps: seq<Step>)
    requires l.broken
    ensures Run(l, steps).broken
    decreases |steps|
  {
    if steps != [] {
      BrokenStays(Next(l, steps[0]), steps[1..]);
    }
  }

  /** The races of the protocol: a message read from a pipe. */
  predicate Crosses(l: Link, step: Step) {
    match step
    case CoreReads =>
      && l.up != [] && l.core.phase == ShuttingDown
      && (l.up[0].message.Ready? || l.up[0].message.HealthResult? || l.up[0].message.Transcript?)
    case WorkerReads =>
      && l.down != []
      && (l.worker.phase == Closed || (l.down[0].message.Cancel? && l.down[0].message.ids !in l.worker.active))
    case _ => false
  }

  predicate NeverCrosses(l: Link, steps: seq<Step>)
    decreases |steps|
  {
    steps == [] || (!Crosses(l, steps[0]) && NeverCrosses(Next(l, steps[0]), steps[1..]))
  }

  lemma {:induction false} BrokenIff(l: Link, steps: seq<Step>)
    requires Invariant(l) && !l.broken
    ensures Run(l, steps).broken <==> !NeverCrosses(l, steps)
    decreases |steps|
  {
    if steps != [] {
      StepBreaksIff(l, steps[0]);
      hide Invariant, Next, Crosses;
      if Next(l, steps[0]).broken {
        BrokenStays(Next(l, steps[0]), steps[1..]);
      } else {
        NextKeepsInvariant(l, steps[0]);
        BrokenIff(Next(l, steps[0]), steps[1..]);
      }
    }
  }

  lemma StepBreaksIff(l: Link, step: Step)
    requires Invariant(l) && !l.broken
    ensures Next(l, step).broken <==> Crosses(l, step)
  {
    if l.up != [] {
      CoreRefusesIff(l);
    }
    if l.down != [] {
      WorkerRefusesIff(l);
    }
    hide Invariant, ObserveCore, ObserveWorker;
  }

  lemma OpenInvariant()
    ensures Invariant(OPEN)
  {
  }

  /** Over every run of the two ends and the pipes, whatever they send and whenever they
      read, the guards part exactly if a message crosses core's shutdown, or the end of
      its request, or the worker's last word; and until then no request is lost. */
  lemma GuardsPartIff(steps: seq<Step>)
    ensures Run(OPEN, steps).broken <==> !NeverCrosses(OPEN, steps)
    ensures !Run(OPEN, steps).broken ==> Accounted(Run(OPEN, steps))
  {
    OpenInvariant();
    BrokenIff(OPEN, steps);
    if !Run(OPEN, steps).broken {
      RunKeepsInvariant(OPEN, steps);
    }
  }

  // ---------------------------------------------------------------- a race

  /** A greeting, a request, its transcript, and a cancellation sent before the
      transcript was read. */
  function CancelTooLate(hello: CoreEnvelope, ready: WorkerEnvelope, transcribe: CoreEnvelope,
                         transcript: WorkerEnvelope, cancel: CoreEnvelope): seq<Step> {
    [CoreSends(hello), WorkerReads, WorkerSends(ready), CoreReads, CoreSends(transcribe), WorkerReads,
     WorkerSends(transcript), CoreSends(cancel), WorkerReads]
  }

  /** It breaks the connection, though each end sent only what its guard allowed. */
  lemma CancelCrossesTranscript(hello: CoreEnvelope, ready: WorkerEnvelope, transcribe: CoreEnvelope,
                                transcript: WorkerEnvelope, cancel: CoreEnvelope)
    requires CoreError(hello).None? && CoreError(transcribe).None? && CoreError(cancel).None?
    requires WorkerError(ready).None? && WorkerError(transcript).None?
    requires hello.message.Hello? && ready.message.Ready? && ready.message.version in hello.message.versions
    requires forall i :: 0 <= i < |hello.message.required| ==> hello.message.required[i] in ready.message.capabilities
    requires transcribe.message.Transcribe? && transcript.message.Transcript? && cancel.message.Cancel?
    requires transcribe.message.ids == transcript.message.ids == cancel.message.ids
    ensures Run(OPEN, CancelTooLate(hello, ready, transcribe, transcript, cancel)).broken
  {
    var steps := CancelTooLate(hello, ready, transcribe, transcript, cancel);
    var ids := transcribe.message.ids;
    var asked := State(AwaitingReady, hello.message.versions, hello.message.required, None, {});
    var met := asked.(phase := Serving, negotiated := Some(ready.message.version));
    var busy := met.(active := {ids});
    var l1 := Link(asked, FRESH, [hello], [], false);
    var l2 := Link(asked, asked, [], [], false);
    var l3 := Link(asked, met, [], [ready], false);
    var l4 := Link(met, met, [], [], false);
    var l5 := Link(busy, met, [transcribe], [], false);
    var l6 := Link(busy, busy, [], [], false);
    var l7 := Link(busy, met, [], [transcript], false);
    var l8 := Link(busy, met, [cancel], [transcript], false);
    hide Next, CoreError, WorkerError;
    Greets(hello, ready, asked, met);
    Asks(met, busy, transcribe, transcript, cancel);
    Follows(steps, 0, OPEN, l1);
    Follows(steps, 1, l1, l2);
    Follows(steps, 2, l2, l3);
    Follows(steps, 3, l3, l4);
    Follows(steps, 4, l4, l5);
    Follows(steps, 5, l5, l6);
    Follows(steps, 6, l6, l7);
    Follows(steps, 7, l7, l8);
    Follows(steps, 8, l8, Next(l8, steps[8]));
    assert steps[0..] == steps && steps[9..] == [];
  }

  lemma Greets(hello: CoreEnvelope, ready: WorkerEnvelope, asked: State, met: State)
    requires CoreError(hello).None? && WorkerError(ready).None?
    requires hello.message.Hello? && ready.message.Ready? && ready.message.version in hello.message.versions
    requires forall i :: 0 <= i < |hello.message.required| ==> hello.message.required[i] in ready.message.capabilities
    requires asked == State(AwaitingReady, hello.message.versions, hello.message.required, None, {})
    requires met == asked.(phase := Serving, negotiated := Some(ready.message.version))
    ensures Next(OPEN, CoreSends(hello)) == Link(asked, FRESH, [hello], [], false)
    ensures Next(Link(asked, FRESH, [hello], [], false), WorkerReads) == Link(asked, asked, [], [], false)
    ensures Next(Link(asked, asked, [], [], false), WorkerSends(ready)) == Link(asked, met, [], [ready], false)
    ensures Next(Link(asked, met, [], [ready], false), CoreReads) == Link(met, met, [], [], false)
  {
    hide CoreError, WorkerError;
    assert [hello][1..] == [] && [ready][1..] == [] && [] + [hello] == [hello] && [] + [ready] == [ready];
  }

  lemma Asks(met: State, busy: State, transcribe: CoreEnvelope, transcript: WorkerEnvelope, cancel: CoreEnvelope)
    requires CoreError(transcribe).None? && CoreError(cancel).None? && WorkerError(transcript).None?
    requires transcribe.message.Transcribe? && transcript.message.Transcript? && cancel.message.Cancel?
    requires transcribe.message.ids == transcript.message.ids == cancel.message.ids
    requires met.phase == Serving && met.active == {} && busy == met.(active := {transcribe.message.ids})
    ensures Next(Link(met, met, [], [], false), CoreSends(transcribe)) == Link(busy, met, [transcribe], [], false)
    ensures Next(Link(busy, met, [transcribe], [], false), WorkerReads) == Link(busy, busy, [], [], false)
    ensures Next(Link(busy, busy, [], [], false), WorkerSends(transcript)) == Link(busy, met, [], [transcript], false)
    ensures Next(Link(busy, met, [], [transcript], false), CoreSends(cancel))
         == Link(busy, met, [cancel], [transcript], false)
    ensures Next(Link(busy, met, [cancel], [transcript], false), WorkerReads).broken
  {
    hide CoreError, WorkerError;
    var ids := transcribe.message.ids;
    assert met.active + {ids} == {ids} && busy.active - {ids} == {};
    assert met.(active := {ids}) == busy && busy.(active := {}) == met;
    assert [transcribe][1..] == [] && [] + [transcribe] == [transcribe] && [] + [transcript] == [transcript];
    assert [] + [cancel] == [cancel];
  }

  lemma Follows(steps: seq<Step>, i: nat, l: Link, l': Link)
    requires i < |steps| && Next(l, steps[i]) == l'
    ensures Run(l, steps[i..]) == Run(l', steps[i + 1..])
  {
    assert steps[i..][1..] == steps[i + 1..];
  }
}
