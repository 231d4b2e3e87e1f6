/** Switching the LLM endpoint: one saga over the settings file and the encrypted
    secret store, with a possible failure at every step. */
module LlmConfiguration {
  import opened Wrappers
  import opened LlmEndpoints
  import opened SecretRecords

  /** A stored key, and the tenure of the endpoint in which it was saved. */
  datatype ApiKey = ApiKey(value: string, tenure: nat)

  /** The settings, the keys of the LLM namespace by endpoint (the fingerprint in a
      record's id is as good as the endpoint), and how often the endpoint changed. */
  datatype State = State(version: nat, llm: Option<Llm>, keys: map<Url, ApiKey>, tenure: nat)

  /** A store call: whether it took effect, and whether it reported success. A
      reported success is always real; a reported failure may be too. */
  datatype Effect = Effect(applied: bool, reported: bool)

  predicate Real(e: Effect) {
    e.reported ==> e.applied
  }

  datatype Idle = NoSession | SessionActive | ProbeFails

  datatype World = World(
    idle: Idle,
    loads: bool,
    inspected: Result<Material, SecretRecords.Error>, // the whole store, before
    candidateValid: bool,
    preDelete: Effect,
    replace: Effect,                                  // the settings
    postDelete: Effect,
    write: Effect,                                    // any change of the secrets
    after: Result<Material, SecretRecords.Error>)     // what inspecting finds afterwards

  predicate Truthful(w: World) {
    Real(w.preDelete) && Real(w.replace) && Real(w.postDelete) && Real(w.write)
  }

  datatype Fault =
    | Busy | RuntimeUnavailable | NotSetUp | NeedsRecovery | InvalidSecret | InvalidConfiguration
    | SecretVerificationFailed | VersionConflict | ResetNotNeeded | StoreFailed

  datatype Answer = Settings(version: nat, llm: Option<Llm>) | Status(material: Material) | Refused(fault: Fault)

  // ---------------------------------------------------------------- one call

  /** The endpoint that is current; None where none is configured or it is invalid. */
  function Current(llm: Option<Llm>): Option<Url> {
    if llm.None? then None else Endpoint(llm.value)
  }

  function IdleFault(idle: Idle): Option<Fault> {
    match idle
    case NoSession => None
    case SessionActive => Some(Busy)
    case ProbeFails => Some(RuntimeUnavailable)
  }

  /** Why the secrets must not be touched now. */
  function MutableFault(inspected: Result<Material, SecretRecords.Error>): Option<Fault> {
    match inspected
    case Err(_) => Some(StoreFailed)
    case Ok(RecoveryRequired) => Some(NeedsRecovery)
    case Ok(_) => None
  }

  function Deleted(s: State, endpoint: Option<Url>, e: Effect): State {
    if endpoint.Some? && e.applied then s.(keys := s.keys - {endpoint.value}) else s
  }

  /** The settings as replaced; a new endpoint starts a new tenure. */
  function Replaced(s: State, llm: Option<Llm>): State {
    s.(version := s.version + 1, llm := llm,
       tenure := if Current(llm) == Current(s.llm) then s.tenure else s.tenure + 1)
  }

  /** Whether the settings may be replaced at all. */
  function RequestFault(s: State, expected: nat, w: World): Option<Fault> {
    if IdleFault(w.idle).Some? then IdleFault(w.idle)
    else if !w.loads then Some(StoreFailed)
    else if s.version != expected then Some(VersionConflict)
    else None
  }

  function SetLlmSettings(s: State, expected: nat, llm: Option<Llm>, w: World): (State, Answer) {
    if RequestFault(s, expected, w).Some? then (s, Refused(RequestFault(s, expected, w).value))
    else if s.llm == llm then (s, Settings(s.version, s.llm))
    else if MutableFault(w.inspected).Some? then (s, Refused(MutableFault(w.inspected).value))
    else if llm.Some? && Endpoint(llm.value).None? then (s, Refused(InvalidConfiguration))
    else
      var from, to := Current(s.llm), Current(llm);
      var changed := from != to;
      var s1 := if changed then Deleted(s, to, w.preDelete) else s;
      if changed && to.Some? && !w.preDelete.reported then (s1, Refused(StoreFailed))
      else if !w.candidateValid then (s1, Refused(InvalidConfiguration))
      else
        var s2 := if w.replace.applied then Replaced(s1, llm) else s1;
        if !w.replace.reported then (s2, Refused(StoreFailed))
        else
          (if changed then Deleted(s2, from, w.postDelete) else s2, Settings(s2.version, s2.llm))
  }

  /** Visible ASCII only, so that it fits a header. */
  predicate ValidKey(value: string) {
    0 < |value| <= 8 * 1024 && forall i :: 0 <= i < |value| ==> 0x21 <= value[i] as int <= 0x7E
  }

  function SetApiKey(s: State, value: string, w: World): (State, Answer) {
    if !ValidKey(value) then (s, Refused(InvalidSecret))
    else if IdleFault(w.idle).Some? then (s, Refused(IdleFault(w.idle).value))
    else if !w.loads then (s, Refused(StoreFailed))
    else if s.llm.None? then (s, Refused(NotSetUp))
    else if Current(s.llm).None? then (s, Refused(InvalidConfiguration))
    else if MutableFault(w.inspected).Some? then (s, Refused(MutableFault(w.inspected).value))
    else
      var s1 := if w.write.applied then s.(keys := map[Current(s.llm).value := ApiKey(value, s.tenure)]) else s;
      if !w.write.reported then (s1, Refused(StoreFailed))
      else match w.after
        case Err(_) => (s1, Refused(StoreFailed))
        case Ok(Configured) => (s1, Status(Configured))
        case Ok(RecoveryRequired) => (s1, Refused(NeedsRecovery))
        case Ok(NotConfigured) => (s1, Refused(SecretVerificationFailed))
  }

  function WithoutKeys(s: State, e: Effect): State {
    if e.applied then s.(keys := map[]) else s
  }

  function DeleteApiKey(s: State, w: World): (State, Answer) {
    if IdleFault(w.idle).Some? then (s, Refused(IdleFault(w.idle).value))
    else match w.inspected
      case Err(_) => (s, Refused(StoreFailed))
      case Ok(RecoveryRequired) => (s, Refused(NeedsRecovery))
      case Ok(NotConfigured) => (s, Status(NotConfigured))
      case Ok(Configured) =>
        (WithoutKeys(s, w.write), if w.write.reported then Status(NotConfigured) else Refused(StoreFailed))
  }

  function ResetSecrets(s: State, w: World): (State, Answer) {
    if IdleFault(w.idle).Some? then (s, Refused(IdleFault(w.idle).value))
    else if w.inspected.Err? then (s, Refused(StoreFailed))
    else if w.inspected.value != RecoveryRequired then (s, Refused(ResetNotNeeded))
    else if !w.write.reported then (WithoutKeys(s, w.write), Refused(StoreFailed))
    else
      (WithoutKeys(s, w.write),
       if w.after.Err? then Refused(StoreFailed)
       else if w.after.value == NotConfigured then Status(NotConfigured)
       else Refused(SecretVerificationFailed))
  }

  // ---------------------------------------------------------------- the controller

  /** The controller with both stores; every call holds the operations lock. */
  class LlmConfigurationController {
    var version: nat
    var llm: Option<Llm>
    var keys: map<Url, ApiKey>
    var tenure: nat

    ghost function Value(): State
      reads this
    {
      State(version, llm, keys, tenure)
    }

    constructor (version: nat, llm: Option<Llm>, keys: map<Url, ApiKey>)
      ensures Value() == State(version, llm, keys, 0)
    {
      this.version, this.llm, this.keys, tenure := version, llm, keys, 0;
    }

    method DeleteKey(endpoint: Option<Url>, e: Effect)
      modifies this`keys
      ensures Value() == Deleted(old(Value()), endpoint, e)
    {
      if endpoint.Some? && e.applied {
        keys := keys - {endpoint.value};
      }
    }

    method ReplaceSettings(candidate: Option<Llm>, e: Effect)
      modifies this
      ensures Value() == if e.applied then Replaced(old(Value()), candidate) else old(Value())
    {
      if e.applied {
        if Current(candidate) != Current(llm) {
          tenure := tenure + 1;
        }
        version, llm := version + 1, candidate;
      }
    }

    method ChangeSettings(expected: nat, candidate: Option<Llm>, w: World) returns (answer: Answer)
      modifies this
      ensures (Value(), answer) == SetLlmSettings(old(Value()), expected, candidate, w)
    {
      hide Endpoint;
      if w.idle != NoSession {
        return Refused(if w.idle == SessionActive then Busy else RuntimeUnavailable);
      }
      if !w.loads {
        return Refused(StoreFailed);
      }
      if version != expected {
        return Refused(VersionConflict);
      }
      if llm == candidate {
        return Settings(version, llm);
      }
      var fault := MutableFault(w.inspected);
      if fault.Some? {
        return Refused(fault.value);
      }
      var from, to := Current(llm), Current(candidate);
      if candidate.Some? && to.None? {
        return Refused(InvalidConfiguration);
      }
      var changed := from != to;
      if changed && to.Some? {
        DeleteKey(to, w.preDelete);
        if !w.preDelete.reported {
          return Refused(StoreFailed);
        }
      }
      if !w.candidateValid {
        return Refused(InvalidConfiguration);
      }
      ReplaceSettings(candidate, w.replace);
      if !w.replace.reported {
        return Refused(StoreFailed);
      }
      answer := Settings(version, llm);
      if changed {
        DeleteKey(from, w.postDelete);
      }
    }

    method SaveKey(value: string, w: World) returns (answer: Answer)
      modifies this
      ensures (Value(), answer) == SetApiKey(old(Value()), value, w)
    {
      hide Endpoint;
      if !ValidKey(value) {
        return Refused(InvalidSecret);
      }
      if w.idle != NoSession {
        return Refused(if w.idle == SessionActive then Busy else RuntimeUnavailable);
      }
      if !w.loads {
        return Refused(StoreFailed);
      }
      if llm.None? {
        return Refused(NotSetUp);
      }
      var endpoint := Current(llm);
      if endpoint.None? {
        return Refused(InvalidConfiguration);
      }
      var fault := MutableFault(w.inspected);
      if fault.Some? {
        return Refused(fault.value);
      }
      if w.write.applied {
        keys := map[endpoint.value := ApiKey(value, tenure)];
      }
      if !w.write.reported {
        return Refused(StoreFailed);
      }
      match w.after {
        case Err(_) => answer := Refused(StoreFailed);
        case Ok(Configured) => answer := Status(Configured);
        case Ok(RecoveryRequired) => answer := Refused(NeedsRecovery);
        case Ok(NotConfigured) => answer := Refused(SecretVerificationFailed);
      }
    }

    method RemoveKey(w: World) returns (answer: Answer)
      modifies this
      ensures (Value(), answer) == DeleteApiKey(old(Value()), w)
    {
      if w.idle != NoSession {
        return Refused(if w.idle == SessionActive then Busy else RuntimeUnavailable);
      }
      match w.inspected {
        case Err(_) => return Refused(StoreFailed);
        case Ok(RecoveryRequired) => return Refused(NeedsRecovery);
        case Ok(NotConfigured) => return Status(NotConfigured);
        case Ok(Configured) =>
      }
      if w.write.applied {
        keys := map[];
      }
      return if w.write.reported then Status(NotConfigured) else Refused(StoreFailed);
    }

    method ResetUnrecoverable(w: World) returns (answer: Answer)
      modifies this
      ensures (Value(), answer) == ResetSecrets(old(Value()), w)
    {
      if w.idle != NoSession {
        return Refused(if w.idle == SessionActive then Busy else RuntimeUnavailable);
      }
      if w.inspected.Err? {
        return Refused(StoreFailed);
      }
      if w.inspected.value != RecoveryRequired {
        return Refused(ResetNotNeeded);
      }
      if w.write.applied {
        keys := map[];
      }
      if !w.write.reported || w.after.Err? {
        return Refused(StoreFailed);
      }
      return if w.after.value == NotConfigured then Status(NotConfigured) else Refused(SecretVerificationFailed);
    }
  }

  // ---------------------------------------------------------------- every run

  datatype Step =
    | Switch(expected: nat, llm: Option<Llm>, world: World)
    | Save(value: string, world: World)
    | Delete(world: World)
    | ResetAll(world: World)
    | OtherSettings // another controller's settings write bumps the version

  function Next(s: State, step: Step): State {
    match step
    case Switch(expected, llm, w) => SetLlmSettings(s, expected, llm, w).0
    case Save(value, w) => SetApiKey(s, value, w).0
    case Delete(w) => DeleteApiKey(s, w).0
    case ResetAll(w) => ResetSecrets(s, w).0
    case OtherSettings => s.(version := s.version + 1)
  }

  function Run(s: State, steps: seq<Step>): State
    decreases |steps|
  {
    if steps == [] then s else Run(Next(s, steps[0]), steps[1..])
  }

  predicate Genuine(step: Step) {
    step.OtherSettings? || Truthful(step.world)
  }

  ghost predicate AllGenuine(steps: seq<Step>) {
    forall i :: 0 <= i < |steps| ==> Genuine(steps[i])
  }

  /** The key of the current endpoint was saved in its current tenure, and no key is
      from the future. */
  ghost predicate InTenure(s: State) {
    forall e :: e in s.keys
        ==> s.keys[e].tenure <= s.tenure && (Current(s.llm) == Some(e) ==> s.keys[e].tenure == s.tenure)
  }

  lemma SwitchKeepsTenure(s: State, expected: nat, llm: Option<Llm>, w: World)
    requires InTenure(s) && Truthful(w)
    ensures InTenure(SetLlmSettings(s, expected, llm, w).0)
  {
    hide Endpoint;
  }

  lemma NextKeepsTenure(s: State, step: Step)
    requires InTenure(s) && Genuine(step)
    ensures InTenure(Next(s, step))
  {
    hide Endpoint, SetLlmSettings;
    if step.Switch? {
      SwitchKeepsTenure(s, step.expected, step.llm, step.world);
    }
  }

  lemma {:induction false} RunKeepsTenure(s: State, steps: seq<Step>)
    requires InTenure(s) && AllGenuine(steps)
    ensures InTenure(Run(s, steps))
    decreases |steps|
  {
    hide InTenure, Next;
    if steps != [] {
      assert Genuine(steps[0]);
      NextKeepsTenure(s, steps[0]);
      RunKeepsTenure(Next(s, steps[0]), steps[1..]);
    }
  }

  /** What a run starts from: a key is stored for the current endpoint or for none. */
  function Starting(version: nat, llm: Option<Llm>, key: Option<string>): State {
    if Current(llm).Some? && key.Some?
    then State(version, llm, map[Current(llm).value := ApiKey(key.value, 0)], 0)
    else State(version, llm, map[], 0)
  }

  /** Key tenure: over every run of endpoint switches, saves, deletes and resets,
      whichever steps fail and whether or not a failed step took effect, a key that
      is present for the current endpoint was saved in this endpoint's tenure. */
  lemma CurrentKeyWasSavedForIt(llm: Option<Llm>, version: nat, key: Option<string>, steps: seq<Step>, e: Url)
    requires AllGenuine(steps)
    requires var start := Starting(version, llm, key);
             var s := Run(start, steps);
             Current(s.llm) == Some(e) && e in s.keys
    ensures var start := Starting(version, llm, key);
            var s := Run(start, steps);
            s.keys[e].tenure == s.tenure
  {
    hide Endpoint, Next;
    var start := Starting(version, llm, key);
    RunKeepsTenure(start, steps);
  }

  lemma NextTenureMonotone(s: State, step: Step)
    ensures Next(s, step).tenure >= s.tenure
    ensures Next(s, step).tenure == s.tenure ==> Current(Next(s, step).llm) == Current(s.llm)
  {
    hide Endpoint;
  }

  lemma {:induction false} TenureMonotone(s: State, steps: seq<Step>)
    ensures Run(s, steps).tenure >= s.tenure
    ensures Run(s, steps).tenure == s.tenure ==> Current(Run(s, steps).llm) == Current(s.llm)
    decreases |steps|
  {
    hide Next, Current;
    if steps != [] {
      NextTenureMonotone(s, steps[0]);
      TenureMonotone(Next(s, steps[0]), steps[1..]);
    }
  }

  /** An orphan never silently reactivates: a key that is left behind for an endpoint
      that is not current is, whenever that endpoint has become current again, either
      gone or replaced by one saved since. */
  lemma OrphanNeverReactivates(s: State, steps: seq<Step>, e: Url)
    requires InTenure(s) && AllGenuine(steps)
    requires e in s.keys && Current(s.llm) != Some(e)
    ensures var s' := Run(s, steps);
            Current(s'.llm) == Some(e) && e in s'.keys ==> s'.keys[e].tenure > s.keys[e].tenure
  {
    hide Endpoint, Next;
    RunKeepsTenure(s, steps);
    TenureMonotone(s, steps);
  }

  // ---------------------------------------------------------------- what a switch does

  /** A switch that succeeds takes on the settings, and the endpoint that is then
      current has a key exactly when it was current before and had one: changing the
      model, or the spelling of the URL, keeps the key, and nothing else does. */
  lemma SwitchKeepsKeyIff(s: State, expected: nat, llm: Option<Llm>, w: World)
    requires Truthful(w) && SetLlmSettings(s, expected, llm, w).1.Settings?
    ensures var s' := SetLlmSettings(s, expected, llm, w).0;
            && s'.llm == llm
            && (Current(llm).Some? ==>
                  (Current(llm).value in s'.keys <==> Current(s.llm) == Current(llm) && Current(llm).value in s.keys))
            && (Current(s.llm) == Current(llm) ==> s'.keys == s.keys)
  {
    hide Endpoint;
  }

  /** A refused switch never touches the current endpoint's key, unless the settings
      did change in spite of the reported failure. */
  lemma RefusedSwitchKeepsKey(s: State, expected: nat, llm: Option<Llm>, w: World)
    requires SetLlmSettings(s, expected, llm, w).1.Refused? && Current(s.llm).Some?
    ensures var s' := SetLlmSettings(s, expected, llm, w).0; var e := Current(s.llm).value;
            && (e in s'.keys <==> e in s.keys) && (e in s.keys ==> s'.keys[e] == s.keys[e])
            && (s'.llm == s.llm || (w.replace.applied && !w.replace.reported && s'.llm == llm))
  {
    hide Endpoint;
  }

  /** Saving leaves one key in the namespace, the current endpoint's. */
  lemma SavedKeyIsTheOnlyOne(s: State, value: string, w: World)
    requires Truthful(w) && SetApiKey(s, value, w).1.Status?
    ensures var s' := SetApiKey(s, value, w).0;
            Current(s'.llm).Some? && s'.keys.Keys == {Current(s'.llm).value}
                && s'.keys[Current(s'.llm).value].value == value
  {
    hide Endpoint;
  }
}
