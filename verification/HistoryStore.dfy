/** The history file: saves and policy enforcement rewrite one array of records. */
module HistoryStore {
  import opened Wrappers
  import opened Sorting
  import L = LifecycleFence

  const HISTORY_DAY_MS: nat := 24 * 60 * 60 * 1000

  /** One element of the JSON array. */
  datatype Record = Record(id: string, text: string, createdAt: nat)

  datatype Policy = Policy(enabled: bool, limit: nat, retentionDays: Option<nat>)

  datatype StoreError = RecordIdConflict | LifecycleInvalidated | ReadFailed | WriteFailed | RecordIdInvalid

  // ---------------------------------------------------------------- order of records

  predicate StringLess(s: string, t: string) {
    t != "" && (s == "" || s[0] < t[0] || (s[0] == t[0] && StringLess(s[1..], t[1..])))
  }

  /** Oldest first; equal times are ordered by identity. */
  predicate Older(a: Record, b: Record) {
    a.createdAt < b.createdAt || (a.createdAt == b.createdAt && StringLess(a.id, b.id))
  }

  lemma {:induction false} StringOrder(s: string, t: string, u: string)
    ensures !StringLess(s, s)
    ensures s == t || StringLess(s, t) || StringLess(t, s)
    ensures StringLess(s, t) && StringLess(t, u) ==> StringLess(s, u)
    decreases |s| + |t| + |u|
  {
    if s != "" && t != "" && u != "" {
      StringOrder(s[1..], t[1..], u[1..]);
      assert s[0] == t[0] && s[1..] == t[1..] ==> s == t by {
        assert s == [s[0]] + s[1..] && t == [t[0]] + t[1..];
      }
    } else if s != "" && t != "" {
      StringOrder(s[1..], t[1..], "");
      assert s[0] == t[0] && s[1..] == t[1..] ==> s == t by {
        assert s == [s[0]] + s[1..] && t == [t[0]] + t[1..];
      }
    } else if s != "" {
      StringOrder(s[1..], "", "");
    }
  }

  predicate UniqueIds(records: seq<Record>) {
    forall i, j :: 0 <= i < j < |records| ==> records[i].id != records[j].id
  }

  lemma RecordsOrdered(records: seq<Record>)
    requires UniqueIds(records)
    ensures Orders(Older, records)
  {
    forall x: Record ensures !Older(x, x) {
      StringOrder(x.id, x.id, x.id);
    }
    forall x, y, z | Older(x, y) && Older(y, z) ensures Older(x, z) {
      StringOrder(x.id, y.id, z.id);
    }
    forall i, j | 0 <= i < j < |records|
      ensures Older(records[i], records[j]) || Older(records[j], records[i])
    {
      StringOrder(records[i].id, records[j].id, "");
    }
  }

  // ---------------------------------------------------------------- policy

  /** Saturating arithmetic: a retention longer than the clock expires nothing. */
  function Cutoff(retentionDays: Option<nat>, now: nat): nat {
    match retentionDays
    case None => 0
    case Some(days) => if now >= days * HISTORY_DAY_MS then now - days * HISTORY_DAY_MS else 0
  }

  function Retain(records: seq<Record>, cutoff: nat): seq<Record> {
    if records == [] then []
    else (if records[0].createdAt >= cutoff then [records[0]] else []) + Retain(records[1..], cutoff)
  }

  /** `apply_limit`: sort, then drain the excess from the front. */
  function ApplyLimit(records: seq<Record>, limit: nat): seq<Record> {
    var sorted := SortBy(Older, records);
    SortElements(Older, records);
    assert |sorted| == |multiset(sorted)|;
    if |sorted| > limit then sorted[|sorted| - limit..] else sorted
  }

  function ApplyPolicy(records: seq<Record>, policy: Policy, now: nat): seq<Record> {
    ApplyLimit(Retain(records, Cutoff(policy.retentionDays, now)), policy.limit)
  }

  // ---------------------------------------------------------------- the file operations

  function FindId(records: seq<Record>, id: string): (r: Option<Record>)
    ensures r.Some? <==> exists i :: 0 <= i < |records| && records[i].id == id
    ensures r.Some? ==> r.value in records && r.value.id == id
  {
    if records == [] then None
    else if records[0].id == id then Some(records[0])
    else
      var r := FindId(records[1..], id);
      assert r.Some? ==> exists i :: 0 <= i < |records[1..]| && records[1..][i].id == id && records[i + 1].id == id;
      r
  }

  /** `save_with_policy` on the parsed file; `fenceOpen` is whether the lifecycle
      still grants a commit when the write is due. */
  function Save(file: seq<Record>, record: Record, policy: Policy, now: nat, fenceOpen: bool)
    : (r: Result<seq<Record>, StoreError>)
  {
    if !policy.enabled then Ok(file)
    else
      var existing := FindId(file, record.id);
      if existing.Some? && existing.value != record then Err(RecordIdConflict)
      else if !fenceOpen then Err(LifecycleInvalidated)
      else Ok(ApplyPolicy(if existing.Some? then file else file + [record], policy, now))
  }

  function Enforce(file: seq<Record>, policy: Policy, now: nat, fenceOpen: bool)
    : (r: Result<seq<Record>, StoreError>)
  {
    if !policy.enabled then Ok(file)
    else if !fenceOpen then Err(LifecycleInvalidated)
    else Ok(ApplyPolicy(file, policy, now))
  }

  /** Only the file and its I/O; the guard of the lifecycle fence is held across each write. */
  class FileHistoryStore {
    var file: seq<Record>

    constructor ()
      ensures file == []
    {
      file := [];
    }

    method SaveWithPolicy(record: Record, policy: Policy, now: nat, fence: L.LifecycleFence,
                          readable: bool, writable: bool)
      returns (r: Result<(), StoreError>)
      requires fence as object != this
      modifies this, fence
      ensures r.Ok? <==> !policy.enabled
                         || (readable && writable && Save(old(file), record, policy, now, old(fence.open)).Ok?)
      ensures r.Ok? ==> Save(old(file), record, policy, now, old(fence.open)) == Ok(file)
      ensures r.Err? ==> file == old(file)
      ensures r.Err? && readable && Save(old(file), record, policy, now, old(fence.open)).Err?
              ==> r.error == Save(old(file), record, policy, now, old(fence.open)).error
      ensures fence.open == old(fence.open) && fence.inFlight == old(fence.inFlight)
    {
      if !policy.enabled {
        return Ok(());
      }
      if !readable {
        return Err(ReadFailed);
      }
      var records := file;
      var existing := FindId(records, record.id);
      if existing.Some? {
        if existing.value == record {
          records := ApplyPolicy(records, policy, now);
        } else {
          return Err(RecordIdConflict);
        }
      } else {
        records := records + [record];
        records := ApplyPolicy(records, policy, now);
      }
      var guarded := fence.BeginCommit();
      if !guarded {
        return Err(LifecycleInvalidated);
      }
      if writable {
        file := records;
      }
      var _ := fence.DropGuard();
      return if writable then Ok(()) else Err(WriteFailed);
    }

    method EnforcePolicy(policy: Policy, now: nat, fence: L.LifecycleFence, readable: bool, writable: bool)
      returns (r: Result<(), StoreError>)
      requires fence as object != this
      modifies this, fence
      ensures r.Ok? <==> !policy.enabled || (readable && old(fence.open) && writable)
      ensures r.Ok? ==> Enforce(old(file), policy, now, old(fence.open)) == Ok(file)
      ensures r.Err? ==> file == old(file)
      ensures readable && r.Err? && !old(fence.open) ==> r.error == LifecycleInvalidated
      ensures fence.open == old(fence.open) && fence.inFlight == old(fence.inFlight)
    {
      if !policy.enabled {
        return Ok(());
      }
      if !readable {
        return Err(ReadFailed);
      }
      var records := ApplyPolicy(file, policy, now);
      var guarded := fence.BeginCommit();
      if !guarded {
        return Err(LifecycleInvalidated);
      }
      if writable {
        file := records;
      }
      var _ := fence.DropGuard();
      return if writable then Ok(()) else Err(WriteFailed);
    }

    method ClearAll(writable: bool) returns (r: Result<(), StoreError>)
      modifies this
      ensures r.Ok? <==> writable
      ensures file == if writable then [] else old(file)
    {
      if !writable {
        return Err(WriteFailed);
      }
      file := [];
      return Ok(());
    }
  }
}
