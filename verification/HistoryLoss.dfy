/** Which settings changes can cost the user records that nobody confirmed losing. */
module HistoryLoss {
  import opened Wrappers
  import opened Sorting
  import opened HistoryStore
  import opened HistoryEviction
  import opened HistoryControllers
  import Uuids

  /** Enforcing this policy now would remove nothing. */
  predicate Settled(file: seq<Record>, policy: Policy, now: nat) {
    |file| <= policy.limit && !HasExpired(file, Cutoff(policy.retentionDays, now))
  }

  lemma {:induction false} DistinctCount(records: seq<Record>)
    requires UniqueIds(records)
    ensures |Elements(records)| == |records|
  {
    if records != [] {
      DistinctCount(records[1..]);
      assert Elements(records) == {records[0]} + Elements(records[1..]);
      forall j | 0 <= j < |records[1..]| ensures records[1..][j] != records[0] {
        assert records[1..][j] == records[j + 1];
      }
    }
  }

  /** Enforcement removes nothing exactly when the history is within its limit
      and nothing in it has expired. */
  lemma EnforcementKeepsAllIff(records: seq<Record>, policy: Policy, now: nat)
    requires UniqueIds(records)
    ensures Elements(ApplyPolicy(records, policy, now)) == Elements(records) <==> Settled(records, policy, now)
  {
    var kept := ApplyPolicy(records, policy, now);
    var all, cutoff := Elements(records), Cutoff(policy.retentionDays, now);
    PolicyKeepsNewest(records, policy, now);
    OlderIsStrictOrder();
    DistinctCount(records);
    if Settled(records, policy, now) {
      forall r | r in all ensures r in Newest(all, policy.limit, cutoff) {
        ProperSubsetSmaller(NewerThan(all, r), all);
      }
    }
    ElementCount(kept);
    forall i | 0 <= i < |records| ensures records[i].createdAt < cutoff ==> records[i] !in Elements(kept) {
      assert records[i] in all;
    }
  }

  /** Raising or lowering the limit without confirmation never touches the file. */
  lemma UnconfirmedLimitKeepsFile(d: Data, expected: nat, limit: nat, now: nat, gate: Gate, ports: Ports)
    ensures SetLimit(d, expected, limit, false, now, gate, ports).0.file == d.file
  {
  }

  /** A retention change that succeeds without confirmation keeps every record
      exactly when it changes nothing, enforces nothing, or the history was within
      its limit; with two clock readings nothing may expire between them either. */
  lemma UnconfirmedRetentionKeepsAllIff(d: Data, expected: nat, retentionDays: Option<nat>,
                                        now: nat, storeNow: nat, gate: Gate, ports: Ports)
    requires UniqueIds(d.file)
    requires SetRetentionDays(d, expected, retentionDays, false, now, storeNow, gate, ports).1.Ok?
    ensures var d' := SetRetentionDays(d, expected, retentionDays, false, now, storeNow, gate, ports).0;
            var policy := d.settings.policy.(retentionDays := retentionDays);
            Elements(d'.file) == Elements(d.file)
            <==> retentionDays == d.settings.policy.retentionDays || !policy.enabled || retentionDays.None?
                 || (|d.file| <= policy.limit && (now == storeNow || Settled(d.file, policy, storeNow)))
  {
    EnforcementKeepsAllIff(d.file, d.settings.policy.(retentionDays := retentionDays), storeNow);
  }

  // ---------------------------------------------------------------- runs without confirmation

  /** A listing carries the policy that it loaded, a save that of its session. */
  datatype Change =
    | Enabling(enabled: bool)
    | Limiting(limit: nat)
    | Retaining(days: Option<nat>)
    | Listing(loaded: Policy)
    | Saving(record: Record, snapshot: Policy)

  /** One action that confirms no loss: the version it expects, the clock as the
      controller and then the store read it, and what answers it. */
  datatype Action = Action(change: Change, expected: nat, now: nat, storeNow: nat, gate: Gate, ports: Ports)

  function Apply(d: Data, a: Action): Data {
    match a.change
    case Enabling(enabled) => SetEnabled(d, a.expected, enabled, a.gate, a.ports).0
    case Limiting(limit) => SetLimit(d, a.expected, limit, false, a.now, a.gate, a.ports).0
    case Retaining(days) => SetRetentionDays(d, a.expected, days, false, a.now, a.storeNow, a.gate, a.ports).0
    case Listing(loaded) =>
      if a.gate == Quitting || !a.ports.load then d
      else d.(file := FileAfterListing(d.file, loaded, a.storeNow, a.ports))
    case Saving(record, snapshot) =>
      var saved := Save(d.file, record, snapshot, a.storeNow, a.gate != Quitting);
      if saved.Ok? && a.ports.enforce then d.(file := saved.value) else d
  }

  function ApplyAll(d: Data, actions: seq<Action>): Data
    decreases |actions|
  {
    if actions == [] then d else ApplyAll(Apply(d, actions[0]), actions[1..])
  }

  /** The action gets as far as applying a policy to the file. */
  predicate Enforces(d: Data, a: Action) {
    match a.change
    case Retaining(days) =>
      && Refusal(d, a.expected, a.gate, a.ports).None?
      && d.settings.policy.retentionDays != days && days.Some? && days != Some(0)
      && d.settings.policy.enabled && d.settings.policy.limit != 0
      && a.ports.list && ReadRecords(d.file).Some? && !HasExpired(d.file, Cutoff(days, a.now))
      && a.ports.replace && a.ports.enforce
    case Listing(loaded) => a.gate != Quitting && a.ports.load && loaded.enabled && a.ports.enforce
    case Saving(record, snapshot) =>
      && snapshot.enabled && FindId(d.file, record.id) in {None, Some(record)}
      && a.gate != Quitting && a.ports.enforce
    case _ => false
  }

  function PolicyAt(d: Data, a: Action): Policy {
    match a.change
    case Retaining(days) => d.settings.policy.(retentionDays := days)
    case Listing(loaded) => loaded
    case Saving(_, snapshot) => snapshot
    case _ => d.settings.policy
  }

  function CutoffAt(d: Data, a: Action): nat {
    Cutoff(PolicyAt(d, a).retentionDays, a.storeNow)
  }

  /** The records the policy is applied to: a save adds its own, unless it is a retry. */
  function Candidates(d: Data, a: Action): seq<Record> {
    if a.change.Saving? && FindId(d.file, a.change.record.id).None? then d.file + [a.change.record] else d.file
  }

  lemma ApplyFile(d: Data, a: Action)
    ensures Apply(d, a).file
         == if Enforces(d, a) then ApplyPolicy(Candidates(d, a), PolicyAt(d, a), a.storeNow) else d.file
    ensures Enforces(d, a) && a.change.Retaining? ==> Apply(d, a).settings.policy == PolicyAt(d, a)
    ensures a.change.Listing? || a.change.Saving? ==> Apply(d, a).settings == d.settings
  {
    hide ApplyPolicy, HasExpired, ReadRecords, FindId;
  }

  lemma CandidatesUnique(d: Data, a: Action)
    requires UniqueIds(d.file)
    ensures UniqueIds(Candidates(d, a))
    ensures Elements(d.file) <= Elements(Candidates(d, a))
  {
    forall i, j | 0 <= i < j < |Candidates(d, a)| ensures Candidates(d, a)[i].id != Candidates(d, a)[j].id {
    }
  }

  lemma ActionKeepsIff(d: Data, a: Action)
    requires UniqueIds(d.file)
    ensures UniqueIds(Apply(d, a).file) && Elements(Apply(d, a).file) <= Elements(Candidates(d, a))
    ensures Enforces(d, a) ==>
              Elements(Apply(d, a).file) == Newest(Elements(Candidates(d, a)), PolicyAt(d, a).limit, CutoffAt(d, a))
    ensures Enforces(d, a) ==>
              (Elements(Apply(d, a).file) == Elements(Candidates(d, a))
               <==> Settled(Candidates(d, a), PolicyAt(d, a), a.storeNow))
  {
    hide Apply, Enforces, ApplyPolicy, Candidates;
    ApplyFile(d, a);
    CandidatesUnique(d, a);
    KeptIdsUnique(Candidates(d, a), PolicyAt(d, a), a.storeNow);
    PolicyKeepsNewest(Candidates(d, a), PolicyAt(d, a), a.storeNow);
    EnforcementKeepsAllIff(Candidates(d, a), PolicyAt(d, a), a.storeNow);
  }

  /** Whenever an action of the run applies a policy, it has nothing to remove. */
  predicate EnforcesOnlySettled(d: Data, actions: seq<Action>)
    decreases |actions|
  {
    actions == []
    || ((Enforces(d, actions[0]) ==> Settled(Candidates(d, actions[0]), PolicyAt(d, actions[0]), actions[0].storeNow))
        && EnforcesOnlySettled(Apply(d, actions[0]), actions[1..]))
  }

  /** No action of the run removes a record, not even the one it saves. */
  predicate LosesNothing(d: Data, actions: seq<Action>)
    decreases |actions|
  {
    actions == []
    || ((Enforces(d, actions[0]) ==> Elements(Candidates(d, actions[0])) <= Elements(Apply(d, actions[0]).file))
        && LosesNothing(Apply(d, actions[0]), actions[1..]))
  }

  predicate NoSaves(actions: seq<Action>) {
    forall i :: 0 <= i < |actions| ==> !actions[i].change.Saving?
  }

  /** Over any run of unconfirmed actions, with any clock readings, failures and stale
      policies, nothing is ever removed exactly when no action came upon records over
      its limit or with something expired among them; and if nothing was saved on the
      way, that is when the file still holds every record in the end. */
  lemma {:induction false} RunKeepsAllIff(d: Data, actions: seq<Action>)
    requires UniqueIds(d.file)
    ensures LosesNothing(d, actions) <==> EnforcesOnlySettled(d, actions)
    ensures NoSaves(actions) ==>
              && Elements(ApplyAll(d, actions).file) <= Elements(d.file)
              && (Elements(ApplyAll(d, actions).file) == Elements(d.file) <==> EnforcesOnlySettled(d, actions))
    decreases |actions|
  {
    if actions != [] {
      ApplyFile(d, actions[0]);
      hide Apply, Enforces, Settled, ApplyPolicy;
      ActionKeepsIff(d, actions[0]);
      RunKeepsAllIff(Apply(d, actions[0]), actions[1..]);
      if NoSaves(actions) {
        assert Candidates(d, actions[0]) == d.file;
      }
    }
  }

  // ---------------------------------------------------------------- the fate of one record

  /** The action stores the record, perhaps as a retry. */
  predicate Stores(d: Data, a: Action, r: Record) {
    Enforces(d, a) && a.change.Saving? && a.change.record == r
  }

  /** The policy applied finds the record expired, or enough newer ones to fill its limit. */
  predicate Drops(d: Data, a: Action, r: Record) {
    && Enforces(d, a)
    && (r.createdAt < CutoffAt(d, a) || |NewerThan(Elements(Candidates(d, a)), r)| >= PolicyAt(d, a).limit)
  }

  /** Where the stores and the drops of the run leave the record. */
  predicate Remains(there: bool, d: Data, actions: seq<Action>, r: Record)
    decreases |actions|
  {
    if actions == [] then there
    else Remains((there || Stores(d, actions[0], r)) && !Drops(d, actions[0], r), Apply(d, actions[0]), actions[1..], r)
  }

  lemma ActionFate(d: Data, a: Action, r: Record)
    requires UniqueIds(d.file)
    ensures r in Apply(d, a).file <==> (r in d.file || Stores(d, a, r)) && !Drops(d, a, r)
  {
    ActionKeepsIff(d, a);
    ApplyFile(d, a);
    hide Apply, ApplyPolicy, CutoffAt;
    assert r in Apply(d, a).file <==> r in Elements(Apply(d, a).file);
    if Enforces(d, a) {
      CandidatesHold(d, a, r);
    }
  }

  lemma CandidatesHold(d: Data, a: Action, r: Record)
    requires Enforces(d, a)
    ensures r in Elements(Candidates(d, a)) <==> r in d.file || Stores(d, a, r)
  {
  }

  /** Over any run whatever, a record is in the file in the end exactly if it was there
      or stored, and not dropped since. */
  lemma {:induction false} FateIff(d: Data, actions: seq<Action>, r: Record)
    requires UniqueIds(d.file)
    ensures r in ApplyAll(d, actions).file <==> Remains(r in d.file, d, actions, r)
    decreases |actions|
  {
    if actions != [] {
      ActionFate(d, actions[0], r);
      ActionKeepsIff(d, actions[0]);
      hide Apply, Stores, Drops;
      FateIff(Apply(d, actions[0]), actions[1..], r);
    }
  }

  // ---------------------------------------------------------------- what a run can lose

  predicate WithinLimit(d: Data) {
    d.settings.policy.enabled ==> |d.file| <= d.settings.policy.limit
  }

  /** Switching saving on over more records than the stored limit. */
  predicate EnablesOverLimit(d: Data, a: Action) {
    && a.change == Enabling(true) && Refusal(d, a.expected, a.gate, a.ports).None?
    && !d.settings.policy.enabled && ValidPolicy(d.settings.policy) && a.ports.replace
    && |d.file| > d.settings.policy.limit
  }

  /** A session that still saves under an earlier policy, over the stored limit. */
  predicate SavesOverLimit(d: Data, a: Action) {
    a.change.Saving? && d.settings.policy.enabled && |Apply(d, a).file| > d.settings.policy.limit
  }

  /** The limit of an enabled policy is exceeded only by switching it on over too much,
      or by a save under a looser policy. */
  lemma WithinLimitIff(d: Data, a: Action)
    requires UniqueIds(d.file) && WithinLimit(d)
    ensures WithinLimit(Apply(d, a)) <==> !EnablesOverLimit(d, a) && !SavesOverLimit(d, a)
    ensures SavesOverLimit(d, a) ==> PolicyAt(d, a).limit > d.settings.policy.limit
  {
    hide ApplyPolicy, HasExpired, ReadRecords, Elements;
    ApplyFile(d, a);
    ActionKeepsIff(d, a);
    KeptWithinLimit(Candidates(d, a), PolicyAt(d, a), a.storeNow);
    hide Enforces, FindId;
  }

  lemma KeptWithinLimit(file: seq<Record>, policy: Policy, now: nat)
    ensures |ApplyPolicy(file, policy, now)| <= policy.limit && |ApplyPolicy(file, policy, now)| <= |file|
  {
    RetainShorter(file, Cutoff(policy.retentionDays, now));
    var unexpired := Retain(file, Cutoff(policy.retentionDays, now));
    SortElements(Older, unexpired);
    assert |multiset(SortBy(Older, unexpired))| == |multiset(unexpired)|;
  }

  lemma {:induction false} RetainShorter(file: seq<Record>, cutoff: nat)
    ensures |Retain(file, cutoff)| <= |file|
  {
    if file != [] {
      RetainShorter(file[1..], cutoff);
    }
  }

  /** Saves and listings work with the stored policy: no setting was changed since
      their session began or their policy was loaded. */
  predicate UpToDate(d: Data, a: Action) {
    a.change.Saving? || a.change.Listing? ==> PolicyAt(d, a) == d.settings.policy
  }

  predicate OrdinaryRun(d: Data, actions: seq<Action>)
    decreases |actions|
  {
    actions == []
    || (UpToDate(d, actions[0]) && !EnablesOverLimit(d, actions[0])
        && OrdinaryRun(Apply(d, actions[0]), actions[1..]))
  }

  predicate Expires(d: Data, a: Action, r: Record) {
    Enforces(d, a) && r.createdAt < CutoffAt(d, a)
  }

  /** A new and newer record is saved into a full history of which this is the oldest. */
  predicate PushedOut(d: Data, a: Action, r: Record) {
    && Enforces(d, a) && a.change.Saving? && FindId(d.file, a.change.record.id).None?
    && |d.file| == PolicyAt(d, a).limit && Older(r, a.change.record)
    && (forall i :: 0 <= i < |d.file| ==> !Older(d.file[i], r))
  }

  /** At some point of the run the record had expired or was pushed out. */
  predicate OutlivedIn(d: Data, actions: seq<Action>, r: Record)
    decreases |actions|
  {
    actions != []
    && (Expires(d, actions[0], r) || PushedOut(d, actions[0], r) || OutlivedIn(Apply(d, actions[0]), actions[1..], r))
  }

  lemma NewerInFile(file: seq<Record>, r: Record)
    requires UniqueIds(file) && r in file
    ensures |NewerThan(Elements(file), r)| <= |file| - 1
    ensures |NewerThan(Elements(file), r)| == |file| - 1 <==> forall i :: 0 <= i < |file| ==> !Older(file[i], r)
  {
    var all, newer := Elements(file), NewerThan(Elements(file), r);
    DistinctCount(file);
    OlderIsStrictOrder();
    assert r in all && r !in newer;
    assert |all - {r}| == |file| - 1;
    SubsetSmaller(newer, all - {r});
    if newer == all - {r} {
      forall i | 0 <= i < |file| ensures !Older(file[i], r) {
        assert file[i] in all && (file[i] == r || file[i] in newer);
      }
    } else {
      ProperSubsetSmaller(newer, all - {r});
      OldestHasAllNewer(file, r);
    }
  }

  lemma NewerWithOneMore(all: set<Record>, x: Record, r: Record)
    requires x !in all
    ensures |NewerThan(all + {x}, r)| == |NewerThan(all, r)| + if Older(r, x) then 1 else 0
  {
    assert NewerThan(all + {x}, r) == NewerThan(all, r) + if Older(r, x) then {x} else {};
  }

  lemma NewerInFull(d: Data, a: Action, r: Record)
    requires UniqueIds(d.file) && r in d.file && Enforces(d, a) && |d.file| <= PolicyAt(d, a).limit
    ensures |NewerThan(Elements(Candidates(d, a)), r)| >= PolicyAt(d, a).limit <==> PushedOut(d, a, r)
  {
    NewerInFile(d.file, r);
    if a.change.Saving? && FindId(d.file, a.change.record.id).None? {
      var x := a.change.record;
      assert x !in Elements(d.file);
      assert Elements(Candidates(d, a)) == Elements(d.file) + {x};
      hide NewerThan, Enforces, Candidates;
      NewerWithOneMore(Elements(d.file), x, r);
    }
  }

  lemma OldestHasAllNewer(file: seq<Record>, r: Record)
    requires UniqueIds(file) && r in file && NewerThan(Elements(file), r) != Elements(file) - {r}
    ensures exists i :: 0 <= i < |file| && Older(file[i], r)
  {
    OlderIsStrictOrder();
    RecordsOrdered(file);
    var q :| q in Elements(file) && q != r && !Older(r, q);
    var i :| 0 <= i < |file| && file[i] == q;
    var j :| 0 <= j < |file| && file[j] == r;
    assert Older(q, r);
  }

  lemma OrdinaryLimit(d: Data, a: Action)
    requires WithinLimit(d) && UpToDate(d, a) && Enforces(d, a)
    ensures |d.file| <= PolicyAt(d, a).limit
  {
  }

  /** Starting within the limit, and as long as saving is never switched on over more
      records than the limit and no policy is stale, a record is lost exactly when it
      expires or a save into a full history pushes it out as the oldest; a lost record
      comes back only if it is saved again. */
  lemma {:induction false} RunLosesOnlyOutlived(d: Data, actions: seq<Action>, r: Record)
    requires UniqueIds(d.file) && WithinLimit(d) && OrdinaryRun(d, actions) && r in d.file
    requires forall i :: 0 <= i < |actions| && actions[i].change.Saving? ==> actions[i].change.record != r
    ensures r !in ApplyAll(d, actions).file <==> OutlivedIn(d, actions, r)
    decreases |actions|
  {
    if actions != [] {
      var a := actions[0];
      var d' := Apply(d, a);
      ActionKeepsIff(d, a);
      ActionFate(d, a, r);
      WithinLimitIff(d, a);
      if Enforces(d, a) {
        OrdinaryLimit(d, a);
        NewerInFull(d, a, r);
      }
      assert r !in d'.file <==> Expires(d, a, r) || PushedOut(d, a, r);
      hide Apply, Enforces, Candidates, CutoffAt, PushedOut, Expires, UpToDate, EnablesOverLimit, Drops;
      if r in d'.file {
        RunLosesOnlyOutlived(d', actions[1..], r);
      } else {
        StaysLost(d', actions[1..], r);
      }
    }
  }

  lemma {:induction false} StaysLost(d: Data, actions: seq<Action>, r: Record)
    requires UniqueIds(d.file) && r !in d.file
    requires forall i :: 0 <= i < |actions| && actions[i].change.Saving? ==> actions[i].change.record != r
    ensures r !in ApplyAll(d, actions).file
    decreases |actions|
  {
    if actions != [] {
      ActionFate(d, actions[0], r);
      ActionKeepsIff(d, actions[0]);
      hide Apply, Enforces, Drops;
      StaysLost(Apply(d, actions[0]), actions[1..], r);
    }
  }

  // ---------------------------------------------------------------- the exception is real

  const WORKING: Ports := Ports(true, true, true, true)

  function Click(d: Data, change: Change, now: nat): Action {
    Action(change, d.settings.version, now, now, Idle, WORKING)
  }

  /** Switching saving on over a history that the stored policy would trim. */
  predicate EnablesUnsettled(d: Data, now: nat) {
    !d.settings.policy.enabled && ValidPolicy(d.settings.policy) && !Settled(d.file, d.settings.policy, now)
  }

  /** After such a switch the next listing loses a record that nobody confirmed, and
      without it the listing loses none. */
  lemma EnablingThenListing(d: Data, now: nat)
    requires UniqueIds(d.file) && !d.settings.policy.enabled && ValidPolicy(d.settings.policy)
    ensures var d1 := Apply(d, Click(d, Enabling(true), now));
            var d2 := Apply(d1, Click(d1, Listing(d1.settings.policy), now));
            Elements(d2.file) == Elements(d.file) <==> !EnablesUnsettled(d, now)
  {
    var d1 := Apply(d, Click(d, Enabling(true), now));
    ActionKeepsIff(d1, Click(d1, Listing(d1.settings.policy), now));
  }

  /** Such a switch is reachable by three ordinary, unconfirmed changes, and the
      listing that follows loses the older of two records the store had written. */
  lemma LossWithoutConfirmation(u: Uuids.Uuid, v: Uuids.Uuid, now: nat)
    requires u != v
    ensures var older, newer := Record(Uuids.Text(u), "x", 1), Record(Uuids.Text(v), "y", 2);
            var d := Data(Settings(0, Policy(true, 2, None)), [older, newer]);
            WithinLimit(d) && UniqueIds(d.file) && ApplyAll(d, SwitchedOffAndOn(now)).file == [newer]
  {
    Uuids.TextRoundTrip(u);
    Uuids.TextRoundTrip(v);
    ThreeChangesAndAListing(Record(Uuids.Text(u), "x", 1), Record(Uuids.Text(v), "y", 2), now);
  }

  function SwitchedOffAndOn(now: nat): seq<Action> {
    [Action(Enabling(false), 0, now, now, Idle, WORKING), Action(Limiting(1), 1, now, now, Idle, WORKING),
     Action(Enabling(true), 2, now, now, Idle, WORKING),
     Action(Listing(Policy(true, 1, None)), 3, now, now, Idle, WORKING)]
  }

  lemma ThreeChangesAndAListing(older: Record, newer: Record, now: nat)
    requires older.id != newer.id && older.createdAt < newer.createdAt
    ensures var d := Data(Settings(0, Policy(true, 2, None)), [older, newer]);
            WithinLimit(d) && UniqueIds(d.file) && ApplyAll(d, SwitchedOffAndOn(now)).file == [newer]
  {
    var file, actions := [older, newer], SwitchedOffAndOn(now);
    var d := Data(Settings(0, Policy(true, 2, None)), file);
    var d1 := Data(Settings(1, Policy(false, 2, None)), file);
    var d2 := Data(Settings(2, Policy(false, 1, None)), file);
    var d3 := Data(Settings(3, Policy(true, 1, None)), file);
    assert Apply(d, actions[0]) == d1;
    assert Apply(d1, actions[1]) == d2;
    assert Apply(d2, actions[2]) == d3;
    NewestOfTwo(older, newer, Policy(true, 1, None), now);
    assert Apply(d3, actions[3]).file == [newer];
    hide Apply;
    Follows(d, d1, actions);
    Follows(d1, d2, actions[1..]);
    Follows(d2, d3, actions[1..][1..]);
    Follows(d3, Apply(d3, actions[3]), actions[1..][1..][1..]);
  }

  lemma Follows(d: Data, d': Data, actions: seq<Action>)
    requires actions != [] && Apply(d, actions[0]) == d'
    ensures ApplyAll(d, actions) == ApplyAll(d', actions[1..])
  {
  }

  /** A listing that loaded its policy before the limit was raised and a record saved
      trims the history to the old limit, without anyone's confirmation. */
  lemma StaleListingLoses(u: Uuids.Uuid, v: Uuids.Uuid, now: nat)
    requires u != v
    ensures var older, newer := Record(Uuids.Text(u), "x", 1), Record(Uuids.Text(v), "y", 2);
            var loaded := Policy(true, 1, None);
            var d := Data(Settings(0, loaded), [older]);
            WithinLimit(d) && ApplyAll(d, RaisedAndSaved(newer, loaded, now)).file == [newer]
  {
    Uuids.TextRoundTrip(u);
    Uuids.TextRoundTrip(v);
    RaisedThenTrimmed(Record(Uuids.Text(u), "x", 1), Record(Uuids.Text(v), "y", 2), now);
  }

  lemma RaisedThenTrimmed(older: Record, newer: Record, now: nat)
    requires older.createdAt < newer.createdAt && older.id != newer.id && ReadRecords([older]).Some?
    ensures var loaded := Policy(true, 1, None);
            ApplyAll(Data(Settings(0, loaded), [older]), RaisedAndSaved(newer, loaded, now)).file == [newer]
  {
    var loaded, raised := Policy(true, 1, None), Policy(true, 2, None);
    var actions := RaisedAndSaved(newer, loaded, now);
    var d := Data(Settings(0, loaded), [older]);
    var d1 := Data(Settings(1, raised), [older]);
    var d2 := Data(Settings(1, raised), [older, newer]);
    hide SortBy, Retain;
    assert Apply(d, actions[0]) == d1;
    BothKept(older, newer, raised, now);
    assert Apply(d1, actions[1]) == d2;
    NewestOfTwo(older, newer, loaded, now);
    assert Apply(d2, actions[2]).file == [newer];
    hide Apply;
    Follows(d, d1, actions);
    Follows(d1, d2, actions[1..]);
    Follows(d2, Apply(d2, actions[2]), actions[1..][1..]);
  }

  function RaisedAndSaved(newer: Record, loaded: Policy, now: nat): seq<Action> {
    [Action(Limiting(2), 0, now, now, Idle, WORKING),
     Action(Saving(newer, Policy(true, 2, None)), 1, now, now, Idle, WORKING),
     Action(Listing(loaded), 1, now, now, Idle, WORKING)]
  }

  lemma BothKept(older: Record, newer: Record, policy: Policy, now: nat)
    requires older.createdAt < newer.createdAt && older.id != newer.id
    requires policy.limit == 2 && policy.retentionDays == None && policy.enabled
    ensures Save([older], newer, policy, now, true) == Ok([older, newer])
  {
    var file := [older, newer];
    assert [older] + [newer] == file && file[1..] == [newer] && file[1..][1..] == [];
    assert [older][1..] == [];
    assert Retain(file[1..], 0) == [newer];
    assert Retain(file, 0) == file;
    assert SortBy(Older, file[1..]) == [newer];
    assert SortBy(Older, file) == file;
  }

  lemma NewestOfTwo(older: Record, newer: Record, policy: Policy, now: nat)
    requires older.createdAt < newer.createdAt && policy.limit == 1 && policy.retentionDays == None
    ensures ApplyPolicy([older, newer], policy, now) == [newer]
  {
    var file := [older, newer];
    assert file[1..] == [newer] && file[1..][1..] == [];
    assert Retain(file[1..], 0) == [newer];
    assert Retain(file, 0) == file;
    assert SortBy(Older, file[1..]) == [newer];
    assert SortBy(Older, file) == file;
  }
}
