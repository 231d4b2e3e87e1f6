/** The use cases above the history file: listing it newest first and changing
    the policy that trims it. */
module HistoryControllers {
  import opened Wrappers
  import opened Bytes
  import opened Sorting
  import opened Uuids
  import opened HistoryStore
  import opened HistoryEviction
  import opened HistoryLife
  import L = LifecycleFence

  // ---------------------------------------------------------------- listing

  datatype Listed = Listed(id: Uuid, text: string, createdAt: nat)

  datatype Gate = Idle | Busy | RuntimeUnavailable | Quitting

  datatype HistoryError = HistoryGateClosed(gate: Gate) | HistoryPortFailed | InvalidRecord

  /** `into_record` over the whole file; one unreadable id fails the listing. */
  function ReadRecords(file: seq<Record>): Option<seq<Listed>> {
    if file == [] then Some([])
    else
      match (Parse(file[0].id), ReadRecords(file[1..]))
      case (Some(id), Some(rest)) => Some([Listed(id, file[0].text, file[0].createdAt)] + rest)
      case _ => None
  }

  /** Newest first; equal times by descending identity. */
  predicate ListedBefore(a: Listed, b: Listed) {
    a.createdAt > b.createdAt || (a.createdAt == b.createdAt && BytesLess(b.id, a.id))
  }

  /** No text is blank and no identity comes twice. */
  predicate Acceptable(records: seq<Listed>) {
    && (forall i :: 0 <= i < |records| ==> !IsBlank(records[i].text))
    && (forall i, j :: 0 <= i < j < |records| ==> records[i].id != records[j].id)
  }

  /** `validated_records`: refuses exactly the lists with a blank text or a
      repeated identity, and sorts the others. */
  method ValidatedRecords(records: seq<Listed>) returns (r: Result<seq<Listed>, HistoryError>)
    ensures r.Ok? <==> Acceptable(records)
    ensures r.Ok? ==> r.value == SortBy(ListedBefore, records)
    ensures r.Err? ==> r.error == InvalidRecord
  {
    var seen: set<Uuid> := {};
    for n := 0 to |records|
      invariant seen == set i | 0 <= i < n :: records[i].id
      invariant forall i :: 0 <= i < n ==> !IsBlank(records[i].text)
      invariant forall i, j :: 0 <= i < j < n ==> records[i].id != records[j].id
    {
      if IsBlank(records[n].text) || records[n].id in seen {
        return Err(InvalidRecord);
      }
      seen := seen + {records[n].id};
    }
    return Ok(SortBy(ListedBefore, records));
  }

  function Reversed<T>(s: seq<T>): seq<T> {
    if s == [] then [] else Reversed(s[1..]) + [s[0]]
  }

  lemma {:induction false} InsertLast(x: Listed, s: seq<Listed>)
    requires forall i :: 0 <= i < |s| ==> ListedBefore(s[i], x)
    ensures Insert(ListedBefore, x, s) == s + [x]
  {
    if s != [] {
      InsertLast(x, s[1..]);
      assert s == [s[0]] + s[1..];
    }
  }

  lemma {:induction false} ReversedElements<T>(s: seq<T>)
    ensures forall x :: x in Reversed(s) ==> x in s
  {
    if s != [] {
      ReversedElements(s[1..]);
    }
  }

  ghost predicate Canonical(file: seq<Record>) {
    forall i :: 0 <= i < |file| ==> exists u: Uuid :: file[i].id == Text(u)
  }

  lemma {:induction false} CanonicalFileIsReadable(file: seq<Record>)
    requires Canonical(file)
    ensures ReadRecords(file).Some? && |ReadRecords(file).value| == |file|
    ensures forall i :: 0 <= i < |file| ==> IsListed(ReadRecords(file).value[i], file[i])
  {
    if file != [] {
      var u: Uuid :| file[0].id == Text(u);
      TextRoundTrip(u);
      CanonicalFileIsReadable(file[1..]);
      ListedCons(Listed(u, file[0].text, file[0].createdAt), ReadRecords(file[1..]).value, file);
    }
  }

  lemma ListedCons(head: Listed, rest: seq<Listed>, file: seq<Record>)
    requires file != [] && IsListed(head, file[0]) && |rest| == |file| - 1
    requires forall i :: 0 <= i < |rest| ==> IsListed(rest[i], file[1..][i])
    ensures forall i :: 0 <= i < |file| ==> IsListed(([head] + rest)[i], file[i])
  {
    hide IsListed;
    forall i | 0 < i < |file| ensures IsListed(([head] + rest)[i], file[i]) {
      assert IsListed(rest[i - 1], file[1..][i - 1]);
    }
  }

  lemma OlderIsListedLater(a: Record, b: Record, x: Listed, y: Listed)
    requires Older(a, b) && IsListed(x, a) && IsListed(y, b)
    ensures ListedBefore(y, x)
  {
    TextOrderIsByteOrder(x.id, y.id);
  }

  lemma {:induction false} AscendingSortsToReverse(s: seq<Listed>)
    requires forall i, j :: 0 <= i < j < |s| ==> ListedBefore(s[j], s[i])
    ensures SortBy(ListedBefore, s) == Reversed(s)
  {
    if s != [] {
      AscendingSortsToReverse(s[1..]);
      ReversedElements(s[1..]);
      forall i | 0 <= i < |Reversed(s[1..])| ensures ListedBefore(Reversed(s[1..])[i], s[0]) {
        assert Reversed(s[1..])[i] in s[1..];
      }
      InsertLast(s[0], Reversed(s[1..]));
    }
  }

  /** The file order is the exact reverse of the listing order. */
  lemma SortedFileLists(file: seq<Record>)
    requires Canonical(file) && StrictlySorted(Older, file)
    ensures ReadRecords(file).Some?
    ensures SortBy(ListedBefore, ReadRecords(file).value) == Reversed(ReadRecords(file).value)
  {
    CanonicalFileIsReadable(file);
    var listed := ReadRecords(file).value;
    forall i, j | 0 <= i < j < |listed| ensures ListedBefore(listed[j], listed[i]) {
      OlderIsListedLater(file[i], file[j], listed[i], listed[j]);
    }
    AscendingSortsToReverse(listed);
  }

  ghost predicate IsListed(l: Listed, r: Record) {
    Text(l.id) == r.id && l.text == r.text && l.createdAt == r.createdAt
  }

  /** What the user sees of a file that only the store wrote, over any series of
      saves, enforcements and clearings: the exact reverse of the file, newest first;
      the list is accepted exactly if none of the texts it still holds is blank. */
  lemma ListingShowsNewestFirst(ops: seq<Op>)
    requires forall i :: 0 <= i < |ops| && ops[i].Saving? ==> exists u: Uuid :: ops[i].record.id == Text(u)
    ensures var file := Life(ops);
            var listed := ReadRecords(file);
            && listed.Some? && |listed.value| == |file|
            && (forall i :: 0 <= i < |file| ==> IsListed(listed.value[i], file[i]))
            && SortBy(ListedBefore, listed.value) == Reversed(listed.value)
            && (Acceptable(listed.value) <==> forall i :: 0 <= i < |file| ==> !IsBlank(file[i].text))
            && ((forall i :: 0 <= i < |ops| && ops[i].Saving? ==> !IsBlank(ops[i].record.text))
                ==> Acceptable(listed.value))
  {
    var file := Life(ops);
    LifeIsOrdered(ops);
    EverSavedIsSaved(ops);
    forall i | 0 <= i < |file| ensures exists k :: 0 <= k < |ops| && ops[k].Saving? && ops[k].record == file[i] {
      assert file[i] in Elements(file);
    }
    forall i | 0 <= i < |file| ensures exists u: Uuid :: file[i].id == Text(u) {
      var k :| 0 <= k < |ops| && ops[k].Saving? && ops[k].record == file[i];
    }
    CanonicalFileIsReadable(file);
    SortedFileLists(file);
    AcceptedIff(file, ReadRecords(file).value);
  }

  lemma AcceptedIff(file: seq<Record>, listed: seq<Listed>)
    requires UniqueIds(file) && |listed| == |file|
    requires forall i :: 0 <= i < |file| ==> IsListed(listed[i], file[i])
    ensures Acceptable(listed) <==> forall i :: 0 <= i < |file| ==> !IsBlank(file[i].text)
  {
    assert forall i :: 0 <= i < |file| ==> listed[i].text == file[i].text && Text(listed[i].id) == file[i].id;
  }

  // ---------------------------------------------------------------- settings

  datatype Settings = Settings(version: nat, policy: Policy)

  /** Which port calls succeed during one operation. */
  datatype Ports = Ports(load: bool, list: bool, replace: bool, enforce: bool)

  datatype SettingsError =
    | GateClosed(gate: Gate) | VersionConflict | ConfirmationRequired
    | RetentionConfirmationRequired | InvalidPolicy | PortFailed

  datatype Data = Data(settings: Settings, file: seq<Record>)

  type Outcome = (Data, Result<Settings, SettingsError>)

  predicate ValidPolicy(p: Policy) {
    p.limit != 0 && p.retentionDays != Some(0)
  }

  /** Compare and swap of the whole snapshot; a success counts the version up. */
  function Stored(s: Settings, policy: Policy): Settings {
    Settings(s.version + 1, policy)
  }

  /** The part every setter shares: the gate, the load and the version check. */
  function Refusal(d: Data, expected: nat, gate: Gate, ports: Ports): Option<SettingsError> {
    if gate != Idle then Some(GateClosed(gate))
    else if !ports.load then Some(PortFailed)
    else if d.settings.version != expected then Some(VersionConflict)
    else None
  }

  function SetEnabled(d: Data, expected: nat, enabled: bool, gate: Gate, ports: Ports): Outcome {
    var refusal := Refusal(d, expected, gate, ports);
    var policy := d.settings.policy.(enabled := enabled);
    if refusal.Some? then (d, Err(refusal.value))
    else if d.settings.policy.enabled == enabled then (d, Ok(d.settings))
    else if !ValidPolicy(policy) then (d, Err(InvalidPolicy))
    else if !ports.replace then (d, Err(PortFailed))
    else (d.(settings := Stored(d.settings, policy)), Ok(Stored(d.settings, policy)))
  }

  /** Store the new policy and, when asked, enforce it on the file. */
  function StoreAndEnforce(d: Data, policy: Policy, enforce: bool, now: nat, ports: Ports): Outcome {
    if !ports.replace then (d, Err(PortFailed))
    else
      var stored := Stored(d.settings, policy);
      if !enforce then (Data(stored, d.file), Ok(stored))
      else if policy.enabled && !ports.enforce then (Data(stored, d.file), Err(PortFailed))
      else (Data(stored, Enforce(d.file, policy, now, true).value), Ok(stored))
  }

  function SetLimit(d: Data, expected: nat, limit: nat, acknowledged: bool, now: nat,
                    gate: Gate, ports: Ports): Outcome
  {
    var refusal := Refusal(d, expected, gate, ports);
    var policy := d.settings.policy.(limit := limit);
    if refusal.Some? then (d, Err(refusal.value))
    else if d.settings.policy.limit == limit then (d, Ok(d.settings))
    else if policy.enabled && !(ports.list && ReadRecords(d.file).Some?) then (d, Err(PortFailed))
    else
      var trims := policy.enabled && |d.file| > limit;
      if trims && !acknowledged then (d, Err(ConfirmationRequired))
      else if !ValidPolicy(policy) then (d, Err(InvalidPolicy))
      else StoreAndEnforce(d, policy, trims, now, ports)
  }

  /** The confirmation is judged by the controller's clock, the trimming by the store's. */
  function SetRetentionDays(d: Data, expected: nat, retentionDays: Option<nat>, acknowledged: bool,
                            now: nat, storeNow: nat, gate: Gate, ports: Ports): Outcome
  {
    var refusal := Refusal(d, expected, gate, ports);
    var policy := d.settings.policy.(retentionDays := retentionDays);
    if refusal.Some? then (d, Err(refusal.value))
    else if d.settings.policy.retentionDays == retentionDays then (d, Ok(d.settings))
    else if !ValidPolicy(policy) then (d, Err(InvalidPolicy))
    else
      var asks := policy.enabled && retentionDays.Some?;
      if asks && !(ports.list && ReadRecords(d.file).Some?) then (d, Err(PortFailed))
      else if asks && !acknowledged && HasExpired(d.file, Cutoff(retentionDays, now)) then
        (d, Err(RetentionConfirmationRequired))
      else StoreAndEnforce(d, policy, asks, storeNow, ports)
  }

  predicate HasExpired(file: seq<Record>, cutoff: nat) {
    exists i :: 0 <= i < |file| && file[i].createdAt < cutoff
  }

  /** The file after a listing that loaded this policy, whether or not it could be shown. */
  function FileAfterListing(file: seq<Record>, loaded: Policy, now: nat, ports: Ports): seq<Record> {
    if loaded.enabled && ports.enforce then ApplyPolicy(file, loaded, now) else file
  }

  /** Both controllers over one settings snapshot and one history store. */
  class HistoryControllers {
    var settings: Settings
    const history: FileHistoryStore

    constructor (settings: Settings, history: FileHistoryStore)
      ensures this.settings == settings && this.history == history
    {
      this.settings := settings;
      this.history := history;
    }

    ghost function State(): Data
      reads this, history
    {
      Data(settings, history.file)
    }

    method ChangeEnabled(expected: nat, enabled: bool, gate: Gate, ports: Ports)
      returns (r: Result<Settings, SettingsError>)
      modifies this
      ensures (State(), r) == SetEnabled(old(State()), expected, enabled, gate, ports)
    {
      if gate != Idle {
        return Err(GateClosed(gate));
      }
      if !ports.load {
        return Err(PortFailed);
      }
      var current := settings;
      if current.version != expected {
        return Err(VersionConflict);
      }
      if current.policy.enabled == enabled {
        return Ok(current);
      }
      var candidate := current.policy.(enabled := enabled);
      if !ValidPolicy(candidate) {
        return Err(InvalidPolicy);
      }
      if !ports.replace {
        return Err(PortFailed);
      }
      settings := Settings(expected + 1, candidate);
      return Ok(settings);
    }

    method ChangeLimit(expected: nat, limit: nat, acknowledged: bool, now: nat, gate: Gate, ports: Ports)
      returns (r: Result<Settings, SettingsError>)
      modifies this, history
      ensures (State(), r) == SetLimit(old(State()), expected, limit, acknowledged, now, gate, ports)
    {
      if gate != Idle {
        return Err(GateClosed(gate));
      }
      if !ports.load {
        return Err(PortFailed);
      }
      var current := settings;
      if current.version != expected {
        return Err(VersionConflict);
      }
      if current.policy.limit == limit {
        return Ok(current);
      }
      var requiresTrim := false;
      if current.policy.enabled {
        var records := ReadRecords(history.file);
        if !ports.list || records.None? {
          return Err(PortFailed);
        }
        ReadLength(history.file);
        requiresTrim := |records.value| > limit;
      }
      if requiresTrim && !acknowledged {
        return Err(ConfirmationRequired);
      }
      var candidate := current.policy.(limit := limit);
      if !ValidPolicy(candidate) {
        return Err(InvalidPolicy);
      }
      if !ports.replace {
        return Err(PortFailed);
      }
      settings := Settings(expected + 1, candidate);
      if requiresTrim {
        var fence := new L.LifecycleFence();
        var enforced := history.EnforcePolicy(candidate, now, fence, true, ports.enforce);
        if enforced.Err? {
          return Err(PortFailed);
        }
      }
      return Ok(settings);
    }

    method ChangeRetentionDays(expected: nat, retentionDays: Option<nat>, acknowledged: bool,
                               now: nat, storeNow: nat, gate: Gate, ports: Ports)
      returns (r: Result<Settings, SettingsError>)
      modifies this, history
      ensures (State(), r) == SetRetentionDays(old(State()), expected, retentionDays, acknowledged,
                                               now, storeNow, gate, ports)
    {
      if gate != Idle {
        return Err(GateClosed(gate));
      }
      if !ports.load {
        return Err(PortFailed);
      }
      var current := settings;
      if current.version != expected {
        return Err(VersionConflict);
      }
      if current.policy.retentionDays == retentionDays {
        return Ok(current);
      }
      var candidate := current.policy.(retentionDays := retentionDays);
      if !ValidPolicy(candidate) {
        return Err(InvalidPolicy);
      }
      var requiresTrim := false;
      if candidate.enabled && retentionDays.Some? {
        if !ports.list || ReadRecords(history.file).None? {
          return Err(PortFailed);
        }
        requiresTrim := HasExpired(history.file, Cutoff(retentionDays, now));
      }
      if requiresTrim && !acknowledged {
        return Err(RetentionConfirmationRequired);
      }
      if !ports.replace {
        return Err(PortFailed);
      }
      settings := Settings(expected + 1, candidate);
      if candidate.enabled && candidate.retentionDays.Some? {
        var fence := new L.LifecycleFence();
        var enforced := history.EnforcePolicy(candidate, storeNow, fence, true, ports.enforce);
        if enforced.Err? {
          return Err(PortFailed);
        }
      }
      return Ok(settings);
    }

    /** The first half of a listing: the policy to apply. The configuration gate is
        not held, so settings changes and saves may come before the second half. */
    method LoadForListing(quitting: bool, ports: Ports) returns (r: Result<Policy, HistoryError>)
      ensures quitting ==> r == Err(HistoryGateClosed(Quitting))
      ensures r.Ok? <==> !quitting && ports.load
      ensures r.Ok? ==> r.value == settings.policy
    {
      if quitting {
        return Err(HistoryGateClosed(Quitting));
      }
      if !ports.load {
        return Err(HistoryPortFailed);
      }
      return Ok(settings.policy);
    }

    /** The second half: the loaded policy is applied before rows are exposed. */
    method FinishListing(loaded: Policy, now: nat, ports: Ports) returns (r: Result<seq<Listed>, HistoryError>)
      modifies history
      ensures history.file == FileAfterListing(old(history.file), loaded, now, ports)
      ensures r.Ok? <==> && (!loaded.enabled || ports.enforce) && ports.list
                         && ReadRecords(history.file).Some? && Acceptable(ReadRecords(history.file).value)
      ensures r.Ok? ==> r.value == SortBy(ListedBefore, ReadRecords(history.file).value)
    {
      if loaded.enabled {
        var fence := new L.LifecycleFence();
        var enforced := history.EnforcePolicy(loaded, now, fence, true, ports.enforce);
        if enforced.Err? {
          return Err(HistoryPortFailed);
        }
      }
      var records := ReadRecords(history.file);
      if !ports.list || records.None? {
        return Err(HistoryPortFailed);
      }
      r := ValidatedRecords(records.value);
    }

    /** Both halves with nothing in between. */
    method ShowList(quitting: bool, now: nat, ports: Ports) returns (r: Result<seq<Listed>, HistoryError>)
      modifies history
      ensures history.file == if quitting || !ports.load then old(history.file)
                              else FileAfterListing(old(history.file), settings.policy, now, ports)
      ensures quitting ==> r == Err(HistoryGateClosed(Quitting))
      ensures r.Ok? <==> && !quitting && ports.load && (!settings.policy.enabled || ports.enforce) && ports.list
                         && ReadRecords(history.file).Some? && Acceptable(ReadRecords(history.file).value)
      ensures r.Ok? ==> r.value == SortBy(ListedBefore, ReadRecords(history.file).value)
      ensures settings == old(settings)
    {
      var loaded := LoadForListing(quitting, ports);
      if loaded.Err? {
        return Err(loaded.error);
      }
      r := FinishListing(loaded.value, now, ports);
    }

    /** Clears everything and reports how many records there were. */
    method ClearAll(gate: Gate, ports: Ports) returns (r: Result<nat, HistoryError>)
      modifies history
      ensures r.Ok? ==> gate == Idle && r.value == |old(history.file)| && history.file == []
      ensures r.Err? ==> history.file == old(history.file)
      ensures gate != Idle ==> r == Err(HistoryGateClosed(gate))
      ensures settings == old(settings)
    {
      if gate != Idle {
        return Err(HistoryGateClosed(gate));
      }
      var records := ReadRecords(history.file);
      if !ports.list || records.None? {
        return Err(HistoryPortFailed);
      }
      var valid := ValidatedRecords(records.value);
      if valid.Err? {
        return Err(valid.error);
      }
      ReadLength(history.file);
      var cleared := history.ClearAll(ports.enforce);
      return if cleared.Ok? then Ok(|records.value|) else Err(HistoryPortFailed);
    }
  }

  lemma {:induction false} ReadLength(file: seq<Record>)
    requires ReadRecords(file).Some?
    ensures |ReadRecords(file).value| == |file|
  {
    if file != [] {
      ReadLength(file[1..]);
    }
  }
}
