/** The store as it runs: an instance's key and cache, and the disk it shares with
    every other instance. Each method is proved equal to its operation. */
module SecretStore {
  import opened Wrappers
  import opened SecretRecords
  import opened SecretOperations

  class SharedDisk {
    var rows: map<string, Row>
    var key: KeyFile

    ghost function Value(): Disk
      reads this
    {
      Disk(rows, key)
    }

    constructor (rows: map<string, Row>, key: KeyFile)
      ensures Value() == Disk(rows, key)
    {
      this.rows, this.key := rows, key;
    }
  }

  class LocalEncryptedSecretStore {
    const disk: SharedDisk
    var master: MasterKey
    var cache: map<string, Cached>

    ghost function Value(): Instance
      reads this
    {
      Instance(master, cache)
    }

    constructor (disk: SharedDisk)
      ensures this.disk == disk && Value() == Opened(disk.Value())
    {
      this.disk := disk;
      master, cache := LoadMasterKey(disk.key), map[];
    }

    // -------------------------------------------------------------- inspecting

    /** Authenticates one record without exposing it, reloading a changed key once. */
    method InspectMaterial(id: string) returns (result: Result<Material, Error>)
      modifies this`master
      ensures (master, result) == InspectRow(old(master), disk.key, id, Lookup(disk.rows, id))
    {
      if id !in disk.rows {
        return Ok(NotConfigured);
      }
      if disk.rows[id].Malformed? {
        return Classify(EnvelopeUnsupported);
      }
      if VerifyKey(disk.key, master).Some? {
        master := LoadMasterKey(disk.key);
        var current := VerifyKey(disk.key, master);
        if current.Some? {
          return Classify(current.value);
        }
      }
      match Decrypt(master, id, disk.rows[id].record) {
        case Ok(_) => result := Ok(Configured);
        case Err(error) => result := Classify(error);
      }
    }

    method InspectAllMaterial(order: seq<string>, budget: nat) returns (result: Result<Material, Error>)
      modifies this`master
      ensures (master, result) == InspectAll(old(master), disk.Value(), order, budget)
    {
      hide InspectRow;
      if budget == 0 {
        return Err(DatabaseReadFailed);
      }
      if order == [] {
        return Ok(NotConfigured);
      }
      ghost var d := disk.Value();
      var i, lost := 0, false;
      assert order[0..] == order;
      while i < |order|
        invariant 0 <= i <= |order| && i <= budget && disk.Value() == d
        invariant Scan(master, d, order[i..], budget - i, lost) == Scan(old(master), d, order, budget, false)
      {
        assert order[i..][1..] == order[i + 1..];
        if i == budget {
          return Err(DatabaseReadFailed);
        }
        var one := InspectMaterial(order[i]);
        if one.Err? {
          return one;
        }
        lost := lost || one == Ok(RecoveryRequired);
        i := i + 1;
      }
      assert order[i..] == [];
      return Ok(if lost then RecoveryRequired else Configured);
    }

    method VerifyAllRecords(order: seq<string>, budget: nat) returns (failure: Option<Error>)
      ensures failure == VerifyAll(master, disk.rows, order, 0, budget)
    {
      hide Decrypt, ValidId;
      var i := 0;
      assert order[0..] == order;
      while i < |order|
        invariant 0 <= i <= |order| && i <= budget
        invariant VerifyAll(master, disk.rows, order[i..], i, budget - i)
            == VerifyAll(master, disk.rows, order, 0, budget)
      {
        assert order[i..][1..] == order[i + 1..];
        if i == budget {
          return Some(DatabaseReadFailed);
        }
        if i + 1 > MAX_RECORDS {
          return Some(RecordLimitExceeded);
        }
        if order[i] !in disk.rows || disk.rows[order[i]].Malformed? {
          return Some(EnvelopeUnsupported);
        }
        if !ValidId(order[i]) {
          return Some(IdInvalid);
        }
        var plaintext := Decrypt(master, order[i], disk.rows[order[i]].record);
        if plaintext.Err? {
          return Some(plaintext.error);
        }
        i := i + 1;
      }
      assert order[i..] == [];
      return None;
    }

    // -------------------------------------------------------------- the key for a write

    method EnsureMasterKey(order: seq<string>, id: string, w: World)
      returns (failure: Option<Error>, ghost files: seq<KeyFile>)
      modifies this`master, disk`key
      ensures Ensured(master, disk.key, failure, files) == EnsureKey(old(master), old(disk.Value()), order, id, w)
    {
      hide VerifyAll, VerifyKey;
      files := [disk.key];
      if master.Available? {
        if VerifyKey(disk.key, master).Some? {
          master := LoadMasterKey(disk.key);
        }
      } else {
        master := LoadMasterKey(disk.key);
      }
      if w.budget == 0 {
        return Some(DatabaseReadFailed), files;
      }
      if disk.rows != map[] {
        if !master.Available? {
          return Some(KeyUnavailable), files;
        }
        failure := VerifyAllRecords(order, w.budget);
        if failure.None? && |disk.rows| >= MAX_RECORDS && id !in disk.rows {
          failure := Some(RecordLimitExceeded);
        }
        return failure, files;
      }
      if master.Available? {
        return None, files;
      }
      if master.Unavailable? && !master.recoverableWhenEmpty {
        return Some(KeyUnavailable), files;
      }
      if w.newKey.None? {
        return Some(RandomUnavailable), files;
      }
      if w.keyWriteLeaves.Some? {
        disk.key := w.keyWriteLeaves.value;
        master := LoadMasterKey(disk.key);
        return Some(w.keyWriteError), files + w.halfWritten + [disk.key];
      }
      disk.key := Holds(w.newKey.value);
      master := Available(w.newKey.value);
      return None, files + w.halfWritten + [disk.key];
    }

    // -------------------------------------------------------------- reading

    method IsSecretConfigured(id: string, w: World) returns (answer: Answer)
      modifies this
      ensures Outcome(Value(), disk.Value(), answer, [disk.Value()])
          == IsConfigured(old(Value()), old(disk.Value()), id, w)
    {
      if !ValidId(id) {
        cache := map[];
        return Failed(IdInvalid);
      }
      if w.budget == 0 {
        cache := map[];
        return Failed(DatabaseReadFailed);
      }
      return Flag(id in disk.rows);
    }

    method InspectSecret(id: string, w: World) returns (answer: Answer)
      modifies this
      ensures Outcome(Value(), disk.Value(), answer, [disk.Value()]) == Inspect(old(Value()), old(disk.Value()), id, w)
    {
      hide InspectRow;
      if !ValidId(id) {
        cache := map[];
        return Failed(IdInvalid);
      }
      if w.budget == 0 {
        cache := map[];
        return Failed(DatabaseReadFailed);
      }
      var result := InspectMaterial(id);
      match result {
        case Ok(NotConfigured) => cache := cache - {id};
        case Ok(Configured) =>
        case Ok(RecoveryRequired) => cache := map[];
        case Err(error) =>
          cache := map[];
          return Failed(error);
      }
      return MaterialIs(result.value);
    }

    method InspectWholeStore(order: seq<string>, w: World) returns (answer: Answer)
      modifies this
      ensures Outcome(Value(), disk.Value(), answer, [disk.Value()])
          == InspectStore(old(Value()), old(disk.Value()), order, w)
    {
      hide InspectAll;
      var result := InspectAllMaterial(order, w.budget);
      match result {
        case Ok(Configured) =>
        case Ok(_) => cache := map[];
        case Err(error) =>
          cache := map[];
          return Failed(error);
      }
      return MaterialIs(result.value);
    }

    method ReadSecret(id: string, w: World) returns (answer: Answer)
      modifies this
      ensures Outcome(Value(), disk.Value(), answer, [disk.Value()]) == Read(old(Value()), old(disk.Value()), id, w)
    {
      hide Decrypt, VerifyKey, ValidId;
      if !ValidId(id) {
        cache := map[];
        return Failed(IdInvalid);
      }
      if w.budget == 0 {
        cache := map[];
        return Failed(DatabaseReadFailed);
      }
      if id !in disk.rows {
        cache := cache - {id};
        return Found(None);
      }
      if disk.rows[id].Malformed? {
        cache := map[];
        return Failed(EnvelopeUnsupported);
      }
      var record := disk.rows[id].record;
      var mismatch := VerifyKey(disk.key, master);
      if mismatch.Some? {
        cache := map[];
        master := LoadMasterKey(disk.key);
        return Failed(mismatch.value);
      }
      if id in cache && cache[id].record == record {
        return Found(Some(cache[id].plaintext));
      }
      cache := cache - {id};
      var plaintext := Decrypt(master, id, record);
      if plaintext.Err? {
        cache := map[];
        return Failed(plaintext.error);
      }
      cache := cache[id := Cached(plaintext.value, record)];
      return Found(Some(plaintext.value));
    }

    // -------------------------------------------------------------- writing

    /** Seals the value, deletes the rows that give way, and commits both. */
    method Commit(failure: Option<Error>, ghost files: seq<KeyFile>, gone: set<string>, id: string, value: string,
                  w: World, ghost before: Disk)
      returns (answer: Answer, ghost trail: seq<Disk>)
      requires cache == map[] && before.rows == disk.rows
      modifies this, disk
      ensures Outcome(Value(), disk.Value(), answer, trail)
           == WriteSealed(Ensured(old(master), old(disk.key), failure, files), before, before.rows - gone, id, value, w)
    {
      hide VerifyKey, Trail;
      trail := Trail(before, files);
      if failure.Some? {
        return Failed(failure.value), trail;
      }
      var mismatch := VerifyKey(disk.key, master);
      if mismatch.Some? {
        master := LoadMasterKey(disk.key);
        return Failed(mismatch.value), trail;
      }
      if w.newNonce.None? {
        return Failed(RandomUnavailable), trail;
      }
      KeyAtHand(disk.key, master);
      var record := Seal(master.key, w.newNonce.value, id, value);
      if !w.writes {
        return Failed(DatabaseWriteFailed), trail;
      }
      if !w.commits {
        return Failed(DatabaseCommitFailed), trail;
      }
      disk.rows := (disk.rows - gone)[id := Stored(record)];
      cache := map[id := Cached(value, record)];
      return Done, trail + [disk.Value()];
    }

    method ReplaceSecret(order: seq<string>, id: string, value: string, w: World)
      returns (answer: Answer, ghost trail: seq<Disk>)
      modifies this, disk
      ensures Outcome(Value(), disk.Value(), answer, trail)
          == Replace(old(Value()), old(disk.Value()), order, id, value, w)
    {
      hide EnsureKey, WriteSealed, ValidId, ValidValue;
      ghost var d := disk.Value();
      cache := map[];
      if !ValidId(id) {
        return Failed(IdInvalid), [d];
      }
      if !ValidValue(value) {
        return Failed(ValueInvalid), [d];
      }
      if !w.begins {
        return Failed(DatabaseWriteFailed), [d];
      }
      var failure, files := EnsureMasterKey(order, id, w);
      answer, trail := Commit(failure, files, {}, id, value, w, d);
      assert d.rows - {} == d.rows;
    }

    method ReplaceSecretNamespace(order: seq<string>, ns: string, id: string, value: string, w: World)
      returns (answer: Answer, ghost trail: seq<Disk>)
      modifies this, disk
      ensures Outcome(Value(), disk.Value(), answer, trail)
          == ReplaceNamespace(old(Value()), old(disk.Value()), order, ns, id, value, w)
    {
      hide EnsureKey, WriteSealed, ValidId, ValidValue, InspectAll, Selected;
      ghost var d := disk.Value();
      cache := map[];
      if !ValidId(ns) || !ValidId(id) {
        return Failed(IdInvalid), [d];
      }
      if !ValidValue(value) {
        return Failed(ValueInvalid), [d];
      }
      if !(ns <= id) {
        return Failed(NamespaceMismatch), [d];
      }
      if !w.begins {
        return Failed(DatabaseWriteFailed), [d];
      }
      var result := InspectAllMaterial(order, w.budget);
      if result.Err? {
        return Failed(result.error), [d];
      }
      if result == Ok(RecoveryRequired) {
        return Failed(ResetRequired), [d];
      }
      var failure, files := EnsureMasterKey(order, id, w);
      answer, trail := Commit(failure, files, Selected(disk.rows, ns, Some(id)), id, value, w, d);
    }

    /** Deletes rows and commits. */
    method RemoveRows(ids: set<string>, failure: Error, success: Answer, w: World)
      returns (answer: Answer, ghost trail: seq<Disk>)
      requires cache == map[]
      modifies disk
      ensures Outcome(Value(), disk.Value(), answer, trail)
          == Remove(master, old(disk.Value()), ids, failure, success, w)
    {
      ghost var d := disk.Value();
      if !w.writes {
        return Failed(failure), [d];
      }
      if !w.commits {
        return Failed(DatabaseCommitFailed), [d];
      }
      disk.rows := disk.rows - ids;
      return success, [d, disk.Value()];
    }

    method ResetUnrecoverableStore(order: seq<string>, w: World) returns (answer: Answer, ghost trail: seq<Disk>)
      modifies this, disk
      ensures Outcome(Value(), disk.Value(), answer, trail) == ResetStore(old(Value()), old(disk.Value()), order, w)
    {
      hide InspectAll;
      cache := map[];
      if !w.begins {
        return Failed(DatabaseResetFailed), [disk.Value()];
      }
      var result := InspectAllMaterial(order, w.budget);
      if result.Err? {
        return Failed(result.error), [disk.Value()];
      }
      if result != Ok(RecoveryRequired) {
        return Failed(ResetNotRequired), [disk.Value()];
      }
      answer, trail := RemoveRows(disk.rows.Keys, DatabaseResetFailed, Done, w);
    }

    method ResetUnrecoverable(order: seq<string>, id: string, w: World) returns (answer: Answer, ghost trail: seq<Disk>)
      modifies this, disk
      ensures Outcome(Value(), disk.Value(), answer, trail) == Reset(old(Value()), old(disk.Value()), order, id, w)
    {
      hide ResetStore;
      if !ValidId(id) {
        cache := map[];
        return Failed(IdInvalid), [disk.Value()];
      }
      answer, trail := ResetUnrecoverableStore(order, w);
    }

    method DeleteSecret(id: string, w: World) returns (answer: Answer, ghost trail: seq<Disk>)
      modifies this, disk
      ensures Outcome(Value(), disk.Value(), answer, trail) == Delete(old(Value()), old(disk.Value()), id, w)
    {
      hide InspectRow, ValidId;
      cache := map[];
      if !ValidId(id) {
        return Failed(IdInvalid), [disk.Value()];
      }
      if !w.begins {
        return Failed(DatabaseDeleteFailed), [disk.Value()];
      }
      if w.budget == 0 {
        return Failed(DatabaseReadFailed), [disk.Value()];
      }
      var result := InspectMaterial(id);
      if result.Err? {
        return Failed(result.error), [disk.Value()];
      }
      if result == Ok(RecoveryRequired) {
        return Failed(ResetRequired), [disk.Value()];
      }
      answer, trail := RemoveRows({id}, DatabaseDeleteFailed, Done, w);
    }

    method DeleteSecretNamespace(order: seq<string>, ns: string, w: World)
      returns (answer: Answer, ghost trail: seq<Disk>)
      modifies this, disk
      ensures Outcome(Value(), disk.Value(), answer, trail)
          == DeleteNamespace(old(Value()), old(disk.Value()), order, ns, w)
    {
      hide InspectAll, ValidId, Selected;
      cache := map[];
      if !ValidId(ns) {
        return Failed(IdInvalid), [disk.Value()];
      }
      if !w.begins {
        return Failed(DatabaseDeleteFailed), [disk.Value()];
      }
      var result := InspectAllMaterial(order, w.budget);
      if result.Err? {
        return Failed(result.error), [disk.Value()];
      }
      if result == Ok(RecoveryRequired) {
        return Failed(ResetRequired), [disk.Value()];
      }
      var gone := Selected(disk.rows, ns, None);
      answer, trail := RemoveRows(gone, DatabaseDeleteFailed, Removed(|gone|), w);
    }
  }

  lemma KeyAtHand(file: KeyFile, master: MasterKey)
    requires VerifyKey(file, master).None?
    ensures master.Available?
  {
  }
}
