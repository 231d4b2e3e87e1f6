/** Exactly when the history's settings change, what a confirmed change removes, and what
    the store answers to a save. */
module HistoryAnswers {
  import opened Wrappers
  import opened Bytes
  import opened HistoryStore
  import opened HistoryEviction
  import opened HistoryControllers
  import Uuids

  // ---------------------------------------------------------------- the clock

  /** A retention of `days` reaches back that many times 86 400 000 milliseconds, and
      not before the beginning of time. */
  lemma CutoffInMilliseconds(days: nat, now: nat)
    ensures Cutoff(Some(days), now) == if now <= days * 86_400_000 then 0 else now - days * 86_400_000
    ensures Cutoff(None, now) == 0
  {
  }

  /** So a record made at `createdAt` has expired exactly when it is older than that. */
  lemma ExpiredIff(file: seq<Record>, days: nat, now: nat)
    ensures HasExpired(file, Cutoff(Some(days), now))
       <==> exists r :: r in file && r.createdAt + days * 86_400_000 < now
  {
    CutoffInMilliseconds(days, now);
    if HasExpired(file, Cutoff(Some(days), now)) {
      var i :| 0 <= i < |file| && file[i].createdAt < Cutoff(Some(days), now);
      assert file[i] in file;
    }
  }

  // ---------------------------------------------------------------- settings

  /** Nothing is being done, the settings load, and the caller has seen their version. */
  predicate Current(d: Data, expected: nat, gate: Gate, ports: Ports) {
    gate == Idle && ports.load && d.settings.version == expected
  }

  /** The records can be read and counted. */
  predicate Countable(d: Data, ports: Ports) {
    ports.list && ReadRecords(d.file).Some?
  }

  predicate Overfull(d: Data, limit: nat) {
    d.settings.policy.enabled && |d.file| > limit
  }

  /** A new limit is accepted exactly when the request is current, the records can be
      counted if saving is on, more of them than the limit are confirmed to go, the
      policy is valid, and the ports that are needed work. */
  lemma LimitChangesIff(d: Data, expected: nat, limit: nat, acknowledged: bool, now: nat, gate: Gate, ports: Ports)
    ensures SetLimit(d, expected, limit, acknowledged, now, gate, ports).1.Ok?
       <==> && Current(d, expected, gate, ports)
            && (|| limit == d.settings.policy.limit
                || (&& (d.settings.policy.enabled ==> Countable(d, ports))
                    && limit > 0 && d.settings.policy.retentionDays != Some(0) && ports.replace
                    && (Overfull(d, limit) ==> acknowledged && ports.enforce)))
  {
    hide ReadRecords;
  }

  /** It asks for a confirmation exactly when saving is on and records would go. */
  lemma LimitAsksIff(d: Data, expected: nat, limit: nat, acknowledged: bool, now: nat, gate: Gate, ports: Ports)
    ensures SetLimit(d, expected, limit, acknowledged, now, gate, ports).1 == Err(ConfirmationRequired)
       <==> && Current(d, expected, gate, ports) && limit != d.settings.policy.limit
            && Countable(d, ports) && Overfull(d, limit) && !acknowledged
  {
    hide ReadRecords;
  }

  /** A change that succeeds stores the limit under the next version, and leaves exactly
      the newest unexpired records if there were more than the limit, all of them
      otherwise. */
  lemma ConfirmedLimitTrims(d: Data, expected: nat, limit: nat, acknowledged: bool, now: nat, gate: Gate, ports: Ports)
    requires UniqueIds(d.file) && SetLimit(d, expected, limit, acknowledged, now, gate, ports).1.Ok?
    ensures var (d', r) := SetLimit(d, expected, limit, acknowledged, now, gate, ports);
            var was := d.settings;
            && r.value == d'.settings
            && (limit == was.policy.limit ==> d' == d)
            && (limit != was.policy.limit ==>
                  && d'.settings == Settings(was.version + 1, was.policy.(limit := limit))
                  && (Overfull(d, limit) ==>
                        && |d'.file| <= limit
                        && Elements(d'.file) == Newest(Elements(d.file), limit, Cutoff(was.policy.retentionDays, now)))
                  && (!Overfull(d, limit) ==> d'.file == d.file))
  {
    hide ReadRecords;
    PolicyKeepsNewest(d.file, d.settings.policy.(limit := limit), now);
    hide Retain;
  }

  /** Why a limit is refused otherwise. Once the settings are stored they stay, even if
      the trimming then fails. */
  lemma LimitRefusals(d: Data, expected: nat, limit: nat, acknowledged: bool, now: nat, gate: Gate, ports: Ports)
    ensures var (d', r) := SetLimit(d, expected, limit, acknowledged, now, gate, ports);
            && (gate != Idle ==> r == Err(GateClosed(gate)))
            && (gate == Idle && !ports.load ==> r == Err(PortFailed))
            && (gate == Idle && ports.load && d.settings.version != expected ==> r == Err(VersionConflict))
            && (Current(d, expected, gate, ports) && limit != d.settings.policy.limit ==>
                  && (d.settings.policy.enabled && !Countable(d, ports) ==> r == Err(PortFailed))
                  && ((d.settings.policy.enabled ==> Countable(d, ports)) && (Overfull(d, limit) ==> acknowledged)
                      && (limit == 0 || d.settings.policy.retentionDays == Some(0))
                      ==> r == Err(InvalidPolicy))
                  && ((d.settings.policy.enabled ==> Countable(d, ports)) && (Overfull(d, limit) ==> acknowledged)
                      && limit > 0 && d.settings.policy.retentionDays != Some(0)
                      && (!ports.replace || (Overfull(d, limit) && !ports.enforce))
                      ==> r == Err(PortFailed)))
            && (r.Err? ==> d'.file == d.file)
            && (r.Err? && d' != d ==>
                  r == Err(PortFailed) && Overfull(d, limit) && acknowledged && !ports.enforce
                  && d'.settings.policy == d.settings.policy.(limit := limit))
  {
    hide ReadRecords;
  }

  predicate Asks(d: Data, days: Option<nat>) {
    d.settings.policy.enabled && days.Some?
  }

  /** A new retention is accepted under the same conditions, only that what has to be
      confirmed are records that have expired by the controller's clock. */
  lemma RetentionChangesIff(d: Data, expected: nat, days: Option<nat>, acknowledged: bool,
                            now: nat, storeNow: nat, gate: Gate, ports: Ports)
    ensures SetRetentionDays(d, expected, days, acknowledged, now, storeNow, gate, ports).1.Ok?
       <==> && Current(d, expected, gate, ports)
            && (|| days == d.settings.policy.retentionDays
                || (&& days != Some(0) && d.settings.policy.limit > 0 && ports.replace
                    && (Asks(d, days) ==>
                          && Countable(d, ports) && ports.enforce
                          && (acknowledged || !HasExpired(d.file, Cutoff(days, now))))))
  {
    hide ReadRecords, HasExpired, ApplyPolicy;
  }

  lemma RetentionAsksIff(d: Data, expected: nat, days: Option<nat>, acknowledged: bool,
                         now: nat, storeNow: nat, gate: Gate, ports: Ports)
    ensures SetRetentionDays(d, expected, days, acknowledged, now, storeNow, gate, ports).1
            == Err(RetentionConfirmationRequired)
       <==> && Current(d, expected, gate, ports) && days != d.settings.policy.retentionDays
            && days != Some(0) && d.settings.policy.limit > 0
            && Asks(d, days) && Countable(d, ports) && !acknowledged && HasExpired(d.file, Cutoff(days, now))
  {
    hide ReadRecords, HasExpired, ApplyPolicy;
  }

  /** It then stores the retention and, with saving on, applies the whole policy by the
      store's clock; without a retention, or with saving off, it leaves the file alone. */
  lemma ConfirmedRetentionTrims(d: Data, expected: nat, days: Option<nat>, acknowledged: bool,
                                now: nat, storeNow: nat, gate: Gate, ports: Ports)
    requires UniqueIds(d.file)
    requires SetRetentionDays(d, expected, days, acknowledged, now, storeNow, gate, ports).1.Ok?
    ensures var (d', r) := SetRetentionDays(d, expected, days, acknowledged, now, storeNow, gate, ports);
            var was := d.settings;
            && r.value == d'.settings
            && (days == was.policy.retentionDays ==> d' == d)
            && (days != was.policy.retentionDays ==>
                  && d'.settings == Settings(was.version + 1, was.policy.(retentionDays := days))
                  && (Asks(d, days) ==>
                        Elements(d'.file) == Newest(Elements(d.file), was.policy.limit, Cutoff(days, storeNow)))
                  && (!Asks(d, days) ==> d'.file == d.file))
  {
    hide ReadRecords, HasExpired;
    PolicyKeepsNewest(d.file, d.settings.policy.(retentionDays := days), storeNow);
    hide ApplyPolicy;
  }

  lemma RetentionRefusals(d: Data, expected: nat, days: Option<nat>, acknowledged: bool,
                          now: nat, storeNow: nat, gate: Gate, ports: Ports)
    ensures var (d', r) := SetRetentionDays(d, expected, days, acknowledged, now, storeNow, gate, ports);
            && (gate != Idle ==> r == Err(GateClosed(gate)))
            && (gate == Idle && !ports.load ==> r == Err(PortFailed))
            && (gate == Idle && ports.load && d.settings.version != expected ==> r == Err(VersionConflict))
            && (Current(d, expected, gate, ports) && days != d.settings.policy.retentionDays ==>
                  && (days == Some(0) || d.settings.policy.limit == 0 ==> r == Err(InvalidPolicy))
                  && (days != Some(0) && d.settings.policy.limit > 0 && Asks(d, days) && !Countable(d, ports)
                      ==> r == Err(PortFailed))
                  && (days != Some(0) && d.settings.policy.limit > 0
                      && (Asks(d, days) ==> Countable(d, ports) && acknowledged)
                      && (!ports.replace || (Asks(d, days) && !ports.enforce))
                      ==> r == Err(PortFailed)))
            && (r.Err? ==> d'.file == d.file)
            && (r.Err? && d' != d ==>
                  r == Err(PortFailed) && Asks(d, days) && !ports.enforce
                  && d'.settings.policy == d.settings.policy.(retentionDays := days))
  {
    hide ReadRecords, HasExpired, ApplyPolicy;
  }

  /** Saving is switched exactly when the request is current and either it is so
      already or the policy is valid and can be stored; the file is never touched. */
  lemma EnablingIff(d: Data, expected: nat, enabled: bool, gate: Gate, ports: Ports)
    ensures var (d', r) := SetEnabled(d, expected, enabled, gate, ports);
            && (r.Ok? <==> && Current(d, expected, gate, ports)
                           && (|| enabled == d.settings.policy.enabled
                               || (d.settings.policy.limit > 0 && d.settings.policy.retentionDays != Some(0)
                                   && ports.replace)))
            && d'.file == d.file
            && (r.Ok? ==> r.value == d'.settings && d'.settings.policy == d.settings.policy.(enabled := enabled))
            && (d'.settings.version == if r.Ok? && enabled != d.settings.policy.enabled
                                       then d.settings.version + 1 else d.settings.version)
            && (gate != Idle ==> r == Err(GateClosed(gate)))
            && (gate == Idle && ports.load && d.settings.version != expected ==> r == Err(VersionConflict))
            && (r.Err? ==> d' == d)
            && (Current(d, expected, gate, ports) && r.Err? ==>
                  r == Err(if d.settings.policy.limit == 0 || d.settings.policy.retentionDays == Some(0)
                           then InvalidPolicy else PortFailed))
            && (gate == Idle && !ports.load ==> r == Err(PortFailed))
  {
  }

  // ---------------------------------------------------------------- saves

  /** A save is refused as a conflict exactly when the id is there with other content,
      and by the fence exactly when that is closed before the write. */
  lemma SaveAnswers(file: seq<Record>, record: Record, policy: Policy, now: nat, fenceOpen: bool)
    requires UniqueIds(file)
    ensures var r := Save(file, record, policy, now, fenceOpen);
            var clash := exists q :: q in file && q.id == record.id && q != record;
            && (!policy.enabled ==> r == Ok(file))
            && (policy.enabled && clash ==> r == Err(RecordIdConflict))
            && (policy.enabled && !clash && !fenceOpen ==> r == Err(LifecycleInvalidated))
            && (policy.enabled && !clash && fenceOpen ==>
                  && r.Ok?
                  && Elements(r.value) == Newest(Elements(file) + {record}, policy.limit,
                                                 Cutoff(policy.retentionDays, now)))
  {
    var existing := FindId(file, record.id);
    if q :| q in file && q.id == record.id && q != record {
      SameIdSame(file, q, existing.value);
    }
    var records := if existing.Some? then file else file + [record];
    if existing.None? {
      forall i, j | 0 <= i < j < |records| ensures records[i].id != records[j].id {
      }
    }
    if existing.None? || existing.value == record {
      assert Elements(records) == Elements(file) + {record};
      PolicyKeepsNewest(records, policy, now);
    }
    hide ApplyPolicy;
  }

  /** Enforcing is refused by the closed fence alone. */
  lemma EnforceAnswers(file: seq<Record>, policy: Policy, now: nat, fenceOpen: bool)
    requires UniqueIds(file)
    ensures var r := Enforce(file, policy, now, fenceOpen);
            && (!policy.enabled ==> r == Ok(file))
            && (policy.enabled && !fenceOpen ==> r == Err(LifecycleInvalidated))
            && (policy.enabled && fenceOpen ==>
                  && r.Ok?
                  && Elements(r.value) == Newest(Elements(file), policy.limit, Cutoff(policy.retentionDays, now)))
  {
    PolicyKeepsNewest(file, policy, now);
    hide ApplyPolicy;
  }

  lemma SameIdSame(file: seq<Record>, q: Record, p: Record)
    requires UniqueIds(file) && q in file && p in file && q.id == p.id
    ensures q == p
  {
    var i :| 0 <= i < |file| && file[i] == q;
    var j :| 0 <= j < |file| && file[j] == p;
  }

  // ---------------------------------------------------------------- listings

  /** Later records come first, and of the same time those with the greater text of
      their identity. */
  lemma ListedBeforeIff(a: Listed, b: Listed)
    ensures ListedBefore(a, b)
       <==> a.createdAt > b.createdAt
            || (a.createdAt == b.createdAt && StringLess(Uuids.Text(b.id), Uuids.Text(a.id)))
    ensures !ListedBefore(a, a)
  {
    Uuids.TextOrderIsByteOrder(b.id, a.id);
    Uuids.TextOrderIsByteOrder(a.id, a.id);
    StringOrder(Uuids.Text(a.id), Uuids.Text(a.id), "");
    hide Uuids.Text;
  }

  function IdsListed(records: seq<Listed>): set<Uuids.Uuid> {
    set l | l in records :: l.id
  }

  lemma AcceptableCons(records: seq<Listed>)
    requires records != []
    ensures Acceptable(records)
       <==> !IsBlank(records[0].text) && records[0].id !in IdsListed(records[1..]) && Acceptable(records[1..])
  {
    hide IsBlank;
    var head, tail := records[0], records[1..];
    assert forall i :: 0 <= i < |tail| ==> tail[i] == records[i + 1];
    assert forall i :: 0 < i < |records| ==> records[i] == tail[i - 1] && tail[i - 1].id in IdsListed(tail);
    if head.id in IdsListed(tail) {
      var l :| l in tail && l.id == head.id;
      var j :| 0 <= j < |tail| && tail[j] == l;
      assert records[j + 1].id == records[0].id;
    }
  }

  /** A list is accepted exactly if no text in it is blank and it has as many identities
      as records. */
  lemma {:induction false} AcceptableIff(records: seq<Listed>)
    ensures Acceptable(records)
       <==> (forall l :: l in records ==> !IsBlank(l.text)) && |IdsListed(records)| == |records|
    ensures |IdsListed(records)| <= |records|
    decreases |records|
  {
    if records != [] {
      var head, tail := records[0], records[1..];
      AcceptableIff(tail);
      AcceptableCons(records);
      hide Acceptable, IsBlank;
      assert records == [head] + tail;
      assert IdsListed(records) == {head.id} + IdsListed(tail);
    }
  }
}
