/** The actor that owns the worker process: three pending slots, deadlines,
    per-request audio grants, cancellation and shutdown. */
module Supervisor {
  import opened Wrappers
  import opened WorkerProtocol

  /** The caller's end of a command, in the order the commands are dequeued. */
  type Ticket = nat

  type Time = nat

  datatype Fault =
    | SupervisorClosed | Busy | TimedOut | ProtocolViolated | CancelPending | WasCancelled
    | ArtifactMissing | ArtifactUnusable | CleanupFailed | NoSpeech(key: string)
    | Reported(code: ErrorCode, key: string, retryable: bool)
    | Unavailable(reason: string)

  datatype HealthStatus = Healthy | Unhealthy | Missing | Incompatible

  datatype Request = Request(session: Uuid, id: Uuid, engine: Engine, deadlineMs: nat)

  datatype Outcome =
    | HealthIs(status: HealthStatus)
    | Text(request: Request, text: string)
    | Done
    | Failed(fault: Fault)

  datatype Reply = Reply(ticket: Ticket, outcome: Outcome)

  datatype Config = Config(
    qwenModel: string,
    whisperModel: string,
    healthTimeout: nat,
    cancelTimeout: nat,
    shutdownTimeout: nat,
    lastInstant: Time)

  datatype PendingHealth = PendingHealth(id: Uuid, engine: Engine, model: string, acceptedAt: Time, deadline: Time,
                                         ticket: Ticket)

  /** The audio grant's random name is stood for by the ticket of its request. */
  datatype PendingTranscription = PendingTranscription(
    request: Request,
    model: string,
    acceptedAt: Time,
    deadline: Time,
    cancelDeadline: Option<Time>,
    terminalFault: Option<Fault>,
    cancelTicket: Option<Ticket>,
    ticket: Ticket)

  datatype PendingShutdown = PendingShutdown(acceptedAt: Time, deadline: Time, close: bool, ticket: Ticket)

  /** Where the actor is in its loop. */
  datatype Phase = Draining | Receiving | Returned

  /** The actor, the grant files on disk, the clock, and what has been answered.
      `cancels` remembers which request an accepted cancellation was for, and
      `unreported` whose audio was left on disk without telling anyone. */
  datatype Actor = Actor(
    process: bool,
    health: Option<PendingHealth>,
    transcription: Option<PendingTranscription>,
    shutdown: Option<PendingShutdown>,
    closed: bool,
    phase: Phase,
    now: Time,
    enforcedAt: Time,
    files: set<Ticket>,
    issued: nat,
    cancels: map<Ticket, Ticket>,
    unreported: set<Ticket>,
    replies: seq<Reply>)

  const START: Actor := Actor(false, None, None, None, false, Draining, 0, 0, {}, 0, map[], {}, [])

  // ---------------------------------------------------------------- the outside world

  /** Removing a grant file: at once, only on the second attempt that dropping the
      grant makes, or not at all. The last two are reported as failed. */
  datatype Removal = Removed | RemovedLate | Stuck

  datatype Source = Found | Absent | Refused(fault: Fault)

  /** Copying the audio: done, refused before a file exists, or broken off, with the
      removal of what was copied reported; off unix a copy is abandoned instead, and
      nobody is told what it may have left. */
  datatype Copying = Copied | NotCreated | BrokenOff(removed: bool) | Abandoned(left: bool)

  /** What the outside answers during one step. */
  datatype World = World(
    spawning: Option<Fault>,  // starting the worker and its handshake
    source: Source,
    copying: Copying,
    sending: Option<Fault>,   // the guard's or the pipe's refusal
    removal: Removal,
    newId: Uuid,              // a new request id
    lag: nat)                 // time until the step reads the clock for a deadline

  datatype Command =
    | Health(engine: Engine)
    | Transcribe(request: Request)
    | Cancel(id: Uuid)
    | Shutdown(close: bool)

  datatype Message =
    | HealthResult(about: Option<Uuid>, engine: Engine, model: string, status: HealthStatus)
    | Transcript(session: Uuid, id: Uuid, engine: Engine, model: string, text: string)
    | Cancelled(session: Uuid, id: Uuid)
    | WorkerError(errorSession: Option<Uuid>, errorRequest: Option<Uuid>, code: ErrorCode, retryable: bool,
                  fatal: bool, key: string)
    | ShutdownComplete
    | Ready

  /** What the worker's reader delivers; `allowed` is the guard's verdict. */
  datatype Delivery = Broken | Delivered(message: Message, allowed: bool)

  function ModelOf(c: Config, e: Engine): string {
    if e == Qwen then c.qwenModel else c.whisperModel
  }

  function DeadlineAfter(c: Config, now: Time, duration: nat): (t: Time)
    ensures now <= t <= now + duration
  {
    if now + duration <= c.lastInstant then now + duration else now
  }

  function MapWorkerError(code: ErrorCode, retryable: bool, key: string): Fault {
    if key == "worker.error.deadline_exceeded" then TimedOut
    else if code == InferenceFailed
        && (key == "worker.qwen.empty_transcript" || key == "worker.whisper.empty_transcript")
    then NoSpeech(key)
    else Reported(code, key, retryable)
  }

  // ---------------------------------------------------------------- answering and failing

  function Or(first: Option<Fault>, second: Fault): Fault {
    if first.Some? then first.value else second
  }

  function Answer(a: Actor, ticket: Ticket, outcome: Outcome): Actor {
    a.(replies := a.replies + [Reply(ticket, outcome)])
  }

  function AnswerIfAny(a: Actor, ticket: Option<Ticket>, outcome: Outcome): Actor {
    if ticket.Some? then Answer(a, ticket.value, outcome) else a
  }

  function RemovalFault(removal: Removal): Option<Fault> {
    if removal == Removed then None else Some(CleanupFailed)
  }

  function WithoutGrant(a: Actor, grant: Ticket, removal: Removal): Actor {
    if removal == Stuck then a else a.(files := a.files - {grant})
  }

  function FailHealth(a: Actor, fault: Fault): Actor {
    if a.health.Some? then Answer(a.(health := None), a.health.value.ticket, Failed(fault)) else a
  }

  /** The caller of a cancellation is told first, then the request's. */
  function FailTranscription(a: Actor, fault: Fault, removal: Removal): Actor {
    if a.transcription.None? then a
    else
      var p, terminal := a.transcription.value, Or(RemovalFault(removal), fault);
      var a1 := WithoutGrant(a.(transcription := None), p.ticket, removal);
      Answer(AnswerIfAny(a1, p.cancelTicket, Failed(terminal)), p.ticket, Failed(terminal))
  }

  function FailShutdown(a: Actor, fault: Fault): Actor {
    if a.shutdown.Some? then Answer(a.(shutdown := None), a.shutdown.value.ticket, Failed(fault)) else a
  }

  function FailAll(a: Actor, fault: Fault, removal: Removal): Actor {
    FailShutdown(FailTranscription(FailHealth(a, fault), fault, removal), fault)
  }

  predicate Closing(a: Actor) {
    a.shutdown.Some? && a.shutdown.value.close
  }

  function FailProcess(a: Actor, fault: Fault, removal: Removal): Actor {
    FailAll(a, fault, removal).(process := false, closed := a.closed || Closing(a))
  }

  /** Ends the pending transcription with the given outcomes, or with the failed
      removal of its grant. */
  function Conclude(a: Actor, outcome: Outcome, forCancel: Outcome, removal: Removal): Actor
    requires a.transcription.Some?
  {
    var p, failed := a.transcription.value, RemovalFault(removal);
    var a1 := WithoutGrant(a.(transcription := None), p.ticket, removal);
    var a2 := Answer(a1, p.ticket, if failed.Some? then Failed(failed.value) else outcome);
    AnswerIfAny(a2, p.cancelTicket, if failed.Some? then Failed(failed.value) else forCancel)
  }

  // ---------------------------------------------------------------- commands

  function StartHealth(a: Actor, c: Config, engine: Engine, ticket: Ticket, w: World): Actor {
    if a.shutdown.Some? then Answer(a, ticket, Failed(SupervisorClosed))
    else if a.health.Some? || a.transcription.Some? then Answer(a, ticket, Failed(Busy))
    else if !a.process && w.spawning.Some? then Answer(a, ticket, Failed(w.spawning.value))
    else
      var a1 := a.(process := true);
      if w.sending.Some? then FailProcess(Answer(a1, ticket, Failed(w.sending.value)), w.sending.value, w.removal)
      else
        a1.(health := Some(PendingHealth(w.newId, engine, ModelOf(c, engine), a.now + w.lag,
                                         DeadlineAfter(c, a.now + w.lag, c.healthTimeout), ticket)),
            now := a.now + w.lag)
  }

  /** With the audio copied into the grant directory. */
  function SendTranscription(a: Actor, c: Config, request: Request, ticket: Ticket, w: World): Actor {
    var a1 := a.(files := a.files + {ticket});
    if w.sending.Some? then
      FailProcess(Answer(WithoutGrant(a1, ticket, w.removal), ticket,
                         Failed(Or(RemovalFault(w.removal), w.sending.value))),
                  w.sending.value, w.removal)
    else
      a1.(transcription := Some(PendingTranscription(request, ModelOf(c, request.engine), a.now + w.lag,
                                                     DeadlineAfter(c, a.now + w.lag, request.deadlineMs),
                                                     None, None, None, ticket)),
          now := a.now + w.lag)
  }

  function StartTranscription(a: Actor, c: Config, request: Request, ticket: Ticket, w: World): Actor {
    if a.shutdown.Some? then Answer(a, ticket, Failed(SupervisorClosed))
    else if a.transcription.Some? || a.health.Some? then Answer(a, ticket, Failed(Busy))
    else if !a.process && w.spawning.Some? then Answer(a, ticket, Failed(w.spawning.value))
    else
      var a1 := a.(process := true);
      match w.source
      case Absent => Answer(a1, ticket, Failed(ArtifactMissing))
      case Refused(fault) => Answer(a1, ticket, Failed(fault))
      case Found =>
        match w.copying
        case NotCreated => Answer(a1, ticket, Failed(ArtifactUnusable))
        case BrokenOff(true) => Answer(a1, ticket, Failed(ArtifactUnusable))
        case Abandoned(false) => Answer(a1, ticket, Failed(ArtifactUnusable))
        case Abandoned(true) =>
          Answer(a1.(files := a1.files + {ticket}, unreported := a1.unreported + {ticket}), ticket,
                 Failed(ArtifactUnusable))
        case BrokenOff(false) => Answer(a1.(files := a1.files + {ticket}), ticket, Failed(CleanupFailed))
        case Copied => SendTranscription(a1, c, request, ticket, w)
  }

  function CancelTranscription(a: Actor, c: Config, id: Uuid, ticket: Ticket, w: World): Actor {
    if a.transcription.None? || a.transcription.value.request.id != id then Answer(a, ticket, Done)
    else if a.transcription.value.cancelTicket.Some? then Answer(a, ticket, Failed(CancelPending))
    else if w.sending.Some? then FailProcess(Answer(a, ticket, Failed(w.sending.value)), w.sending.value, w.removal)
    else
      a.(transcription := Some(a.transcription.value.(
           cancelDeadline := Some(DeadlineAfter(c, a.now + w.lag, c.cancelTimeout)),
           terminalFault := Some(WasCancelled),
           cancelTicket := Some(ticket))),
         cancels := a.cancels[ticket := a.transcription.value.ticket],
         now := a.now + w.lag)
  }

  /** The actor and whether its loop stops. */
  function StartShutdown(a: Actor, c: Config, close: bool, ticket: Ticket, w: World): (Actor, bool) {
    if a.shutdown.Some? then (Answer(a, ticket, Failed(SupervisorClosed)), false)
    else if !close && (a.health.Some? || a.transcription.Some?) then (Answer(a, ticket, Failed(Busy)), false)
    else if !a.process then (Answer(a, ticket, Done), close)
    else
      var a1 := FailHealth(a, SupervisorClosed);
      if w.sending.Some? then
        (FailProcess(Answer(a1, ticket, Failed(w.sending.value)), w.sending.value, w.removal), close)
      else
        var deadline := DeadlineAfter(c, a.now + w.lag, c.shutdownTimeout);
        (a1.(transcription := if a1.transcription.None? then None
                              else Some(a1.transcription.value.(terminalFault := Some(SupervisorClosed),
                                                                cancelDeadline := Some(deadline))),
             shutdown := Some(PendingShutdown(a.now + w.lag, deadline, close, ticket)),
             now := a.now + w.lag),
         false)
  }

  function Handle(a: Actor, c: Config, command: Command, w: World): (Actor, bool) {
    var a1 := a.(issued := a.issued + 1);
    match command
    case Health(engine) => (StartHealth(a1, c, engine, a.issued, w), false)
    case Transcribe(request) => (StartTranscription(a1, c, request, a.issued, w), false)
    case Cancel(id) => (CancelTranscription(a1, c, id, a.issued, w), false)
    case Shutdown(close) => StartShutdown(a1, c, close, a.issued, w)
  }

  // ---------------------------------------------------------------- messages

  function CompleteHealth(a: Actor, id: Option<Uuid>, engine: Engine, model: string, status: HealthStatus,
                          removal: Removal): Actor {
    if a.health.None? then FailProcess(a, ProtocolViolated, removal)
    else
      var p, a1 := a.health.value, a.(health := None);
      if id != Some(p.id) || engine != p.engine || model != p.model
      then FailProcess(Answer(a1, p.ticket, Failed(ProtocolViolated)), ProtocolViolated, removal)
      else Answer(a1, p.ticket, HealthIs(status))
  }

  function CompleteTranscription(a: Actor, m: Message, removal: Removal): Actor
    requires m.Transcript?
  {
    if a.transcription.None? then FailProcess(a, ProtocolViolated, removal)
    else
      var p := a.transcription.value;
      if p.cancelTicket.Some? || m.session != p.request.session || m.id != p.request.id
         || m.engine != p.request.engine || m.model != p.model
      then FailProcess(Conclude(a, Failed(ProtocolViolated), Failed(ProtocolViolated), removal), ProtocolViolated,
                       removal)
      else Conclude(a, Text(p.request, m.text), Done, removal)
  }

  function CompleteCancelled(a: Actor, session: Uuid, id: Uuid, removal: Removal): Actor {
    if a.transcription.None? then FailProcess(a, ProtocolViolated, removal)
    else
      var p := a.transcription.value;
      if session != p.request.session || id != p.request.id
      then FailProcess(Conclude(a, Failed(ProtocolViolated), Failed(ProtocolViolated), removal), ProtocolViolated,
                       removal)
      else Conclude(a, Failed(Or(p.terminalFault, WasCancelled)), Done, removal)
  }

  predicate ConcernsTranscription(a: Actor, session: Option<Uuid>, request: Option<Uuid>) {
    a.transcription.Some? && session == Some(a.transcription.value.request.session)
    && request == Some(a.transcription.value.request.id)
  }

  predicate ConcernsHealth(a: Actor, session: Option<Uuid>, request: Option<Uuid>) {
    a.health.Some? && session.None? && request == Some(a.health.value.id)
  }

  function CompleteError(a: Actor, m: Message, removal: Removal): Actor
    requires m.WorkerError?
  {
    var mapped := MapWorkerError(m.code, m.retryable, m.key);
    if !ConcernsTranscription(a, m.errorSession, m.errorRequest) && !ConcernsHealth(a, m.errorSession, m.errorRequest)
    then FailProcess(a, ProtocolViolated, removal)
    else
      var a1 := if ConcernsTranscription(a, m.errorSession, m.errorRequest)
                then Conclude(a, Failed(Or(a.transcription.value.terminalFault, mapped)), Failed(mapped), removal)
                else Answer(a.(health := None), a.health.value.ticket, Failed(mapped));
      if m.fatal then FailProcess(a1, mapped, removal) else a1
  }

  function CompleteShutdown(a: Actor, removal: Removal): Actor {
    if a.shutdown.None? then FailProcess(a, ProtocolViolated, removal)
    else
      var s, a1 := a.shutdown.value, a.(shutdown := None);
      var a2 := if a1.transcription.Some? then Conclude(a1, Failed(SupervisorClosed), Done, removal) else a1;
      Answer(a2, s.ticket, Done).(process := false, closed := s.close)
  }

  /** One message taken from the reader; without a process there is none. */
  function Receive(a: Actor, d: Delivery, removal: Removal): Actor {
    if !a.process then a
    else if d.Broken? || !d.allowed then FailProcess(a, ProtocolViolated, removal)
    else match d.message
      case HealthResult(id, engine, model, status) => CompleteHealth(a, id, engine, model, status, removal)
      case Transcript(_, _, _, _, _) => CompleteTranscription(a, d.message, removal)
      case Cancelled(session, id) => CompleteCancelled(a, session, id, removal)
      case WorkerError(_, _, _, _, _, _) => CompleteError(a, d.message, removal)
      case ShutdownComplete => CompleteShutdown(a, removal)
      case Ready => FailProcess(a, ProtocolViolated, removal)
  }

  // ---------------------------------------------------------------- deadlines

  predicate HealthExpired(a: Actor) {
    a.health.Some? && a.now >= a.health.value.deadline
  }

  predicate RequestExpired(a: Actor) {
    a.transcription.Some? && a.transcription.value.cancelDeadline.None? && a.now >= a.transcription.value.deadline
  }

  predicate CancelExpired(a: Actor, now: Time) {
    a.transcription.Some? && a.transcription.value.cancelDeadline.Some?
        && now >= a.transcription.value.cancelDeadline.value
  }

  predicate ShutdownExpired(a: Actor, now: Time) {
    a.shutdown.Some? && now >= a.shutdown.value.deadline
  }

  function CancelForDeadline(a: Actor, c: Config, w: World): Actor
    requires a.transcription.Some?
  {
    if w.sending.Some? then FailProcess(a, w.sending.value, w.removal)
    else
      a.(transcription := Some(a.transcription.value.(
           terminalFault := Some(TimedOut),
           cancelDeadline := Some(DeadlineAfter(c, a.now + w.lag, c.cancelTimeout)))),
         now := a.now + w.lag)
  }

  /** Every comparison uses the clock as it was at the start. */
  function EnforceDeadlines(a: Actor, c: Config, w: World): Actor {
    if HealthExpired(a) then FailProcess(FailHealth(a, TimedOut), TimedOut, w.removal)
    else
      var a1 := if RequestExpired(a) then CancelForDeadline(a, c, w) else a;
      if CancelExpired(a1, a.now) || ShutdownExpired(a1, a.now) then FailProcess(a1, TimedOut, w.removal) else a1
  }

  // ---------------------------------------------------------------- the loop

  datatype Step =
    | Tick(elapsed: nat)
    | Deliver(delivery: Delivery, removal: Removal) // while draining the worker's output
    | Sweep(world: World)                           // nothing left: stop, or enforce the deadlines
    | Idle                                          // no command within the poll interval
    | Dequeue(command: Command, world: World)
    | Disconnect(removal: Removal)                  // every sender of commands is gone

  /** Leaving the loop: the process ends, and a pending grant is dropped in silence. */
  function Leave(a: Actor, removal: Removal): Actor {
    var a1 := if a.transcription.Some? then WithoutGrant(a, a.transcription.value.ticket, removal) else a;
    a1.(process := false, phase := Returned,
        unreported := if a.transcription.Some? && removal == Stuck
                      then a.unreported + {a.transcription.value.ticket} else a.unreported)
  }

  function Next(a: Actor, c: Config, step: Step): Actor {
    match step
    case Tick(elapsed) => if a.phase == Returned then a else a.(now := a.now + elapsed)
    case Deliver(d, removal) => if a.phase == Draining then Receive(a, d, removal) else a
    case Sweep(w) =>
      if a.phase != Draining then a
      else if a.closed then Leave(a, w.removal)
      else EnforceDeadlines(a, c, w).(phase := Receiving, enforcedAt := a.now)
    case Idle => if a.phase == Receiving then a.(phase := Draining) else a
    case Dequeue(command, w) =>
      if a.phase != Receiving then a
      else
        var (a1, stop) := Handle(a, c, command, w);
        if stop then Leave(a1, w.removal) else a1.(phase := Draining)
    case Disconnect(removal) =>
      if a.phase == Receiving then Leave(FailAll(a, SupervisorClosed, removal), removal) else a
  }

  function Run(a: Actor, c: Config, steps: seq<Step>): Actor
    decreases |steps|
  {
    if steps == [] then a else Run(Next(a, c, steps[0]), c, steps[1..])
  }
}
