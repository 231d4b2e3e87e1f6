/** The operations of the local encrypted secret store, each one step under the
    writer lock, with the states the disk passes through. */
module SecretOperations {
  import opened Wrappers
  import LikePattern
  import opened SecretRecords

  datatype Disk = Disk(rows: map<string, Row>, key: KeyFile)

  datatype Cached = Cached(plaintext: string, record: Record)

  datatype Instance = Instance(master: MasterKey, cache: map<string, Cached>)

  /** What the outside answers during one operation: whether the database lets a
      transaction begin, write and commit, how many rows a scan gets before a read
      fails, the random key and nonce, what the key file looks like while it is
      being written, and what a failed write leaves there. */
  datatype World = World(
    begins: bool,
    budget: nat,
    writes: bool,
    commits: bool,
    newKey: Option<Key>,
    newNonce: Option<Nonce>,
    halfWritten: seq<KeyFile>,
    keyWriteLeaves: Option<KeyFile>,
    keyWriteError: Error)

  datatype Answer =
    | Found(value: Option<string>)
    | Flag(configured: bool)
    | MaterialIs(material: Material)
    | Done
    | Removed(count: nat)
    | Failed(error: Error)

  /** The new instance and disk, the answer, and every state the disk was in. */
  datatype Outcome = Outcome(inst: Instance, disk: Disk, answer: Answer, trail: seq<Disk>)

  /** The ids of the rows, in the order a scan meets them. */
  ghost predicate Enumerates(order: seq<string>, rows: map<string, Row>) {
    && (forall i, j :: 0 <= i < j < |order| ==> order[i] != order[j])
    && (forall i :: 0 <= i < |order| ==> order[i] in rows)
    && (forall id :: id in rows ==> id in order)
  }

  function Opened(d: Disk): Instance {
    Instance(LoadMasterKey(d.key), map[])
  }

  function Lookup(rows: map<string, Row>, id: string): Option<Row> {
    if id in rows then Some(rows[id]) else None
  }

  function Unchanged(inst: Instance, d: Disk, answer: Answer): Outcome {
    Outcome(inst, d, answer, [d])
  }

  /** A failed operation leaves no plaintext behind. */
  function Failing(master: MasterKey, d: Disk, error: Error): Outcome {
    Unchanged(Instance(master, map[]), d, Failed(error))
  }

  // ---------------------------------------------------------------- scans

  /** Inspects every row; the first error that proves nothing ends the scan. */
  function Scan(master: MasterKey, d: Disk, order: seq<string>, budget: nat, lost: bool)
      : (MasterKey, Result<Material, Error>)
    decreases |order|
  {
    if order == [] then (master, Ok(if lost then RecoveryRequired else Configured))
    else if budget == 0 then (master, Err(DatabaseReadFailed))
    else
      var (current, result) := InspectRow(master, d.key, order[0], Lookup(d.rows, order[0]));
      if result.Err? then (current, result)
      else Scan(current, d, order[1..], budget - 1, lost || result == Ok(RecoveryRequired))
  }

  function InspectAll(master: MasterKey, d: Disk, order: seq<string>, budget: nat)
      : (MasterKey, Result<Material, Error>) {
    if budget == 0 then (master, Err(DatabaseReadFailed))
    else if order == [] then (master, Ok(NotConfigured))
    else Scan(master, d, order, budget, false)
  }

  /** Opens every row with the key; at most 256 rows may be there. */
  function VerifyAll(master: MasterKey, rows: map<string, Row>, order: seq<string>, verified: nat, budget: nat)
      : Option<Error>
    decreases |order|
  {
    if order == [] then None
    else if budget == 0 then Some(DatabaseReadFailed)
    else if verified + 1 > MAX_RECORDS then Some(RecordLimitExceeded)
    else if Lookup(rows, order[0]) == None || Lookup(rows, order[0]) == Some(Malformed) then Some(EnvelopeUnsupported)
    else if !ValidId(order[0]) then Some(IdInvalid)
    else match Decrypt(master, order[0], rows[order[0]].record)
      case Err(error) => Some(error)
      case Ok(_) => VerifyAll(master, rows, order[1..], verified + 1, budget - 1)
  }

  // ---------------------------------------------------------------- reading operations

  function IsConfigured(inst: Instance, d: Disk, id: string, w: World): Outcome {
    if !ValidId(id) then Failing(inst.master, d, IdInvalid)
    else if w.budget == 0 then Failing(inst.master, d, DatabaseReadFailed)
    else Unchanged(inst, d, Flag(id in d.rows))
  }

  function Inspect(inst: Instance, d: Disk, id: string, w: World): Outcome {
    if !ValidId(id) then Failing(inst.master, d, IdInvalid)
    else if w.budget == 0 then Failing(inst.master, d, DatabaseReadFailed)
    else
      var (master, result) := InspectRow(inst.master, d.key, id, Lookup(d.rows, id));
      match result
      case Err(error) => Failing(master, d, error)
      case Ok(NotConfigured) => Unchanged(Instance(master, inst.cache - {id}), d, MaterialIs(NotConfigured))
      case Ok(Configured) => Unchanged(Instance(master, inst.cache), d, MaterialIs(Configured))
      case Ok(RecoveryRequired) => Unchanged(Instance(master, map[]), d, MaterialIs(RecoveryRequired))
  }

  function InspectStore(inst: Instance, d: Disk, order: seq<string>, w: World): Outcome {
    var (master, result) := InspectAll(inst.master, d, order, w.budget);
    match result
    case Err(error) => Failing(master, d, error)
    case Ok(Configured) => Unchanged(Instance(master, inst.cache), d, MaterialIs(Configured))
    case Ok(material) => Unchanged(Instance(master, map[]), d, MaterialIs(material))
  }

  /** A readable row that the cache does not answer for. */
  function ReadUncached(master: MasterKey, cache: map<string, Cached>, d: Disk, id: string, r: Record): Outcome {
    match Decrypt(master, id, r)
    case Err(error) => Failing(master, d, error)
    case Ok(value) => Unchanged(Instance(master, cache[id := Cached(value, r)]), d, Found(Some(value)))
  }

  function Read(inst: Instance, d: Disk, id: string, w: World): Outcome {
    if !ValidId(id) then Failing(inst.master, d, IdInvalid)
    else if w.budget == 0 then Failing(inst.master, d, DatabaseReadFailed)
    else if id !in d.rows then Unchanged(Instance(inst.master, inst.cache - {id}), d, Found(None))
    else if d.rows[id].Malformed? then Failing(inst.master, d, EnvelopeUnsupported)
    else if VerifyKey(d.key, inst.master).Some? then
      Failing(LoadMasterKey(d.key), d, VerifyKey(d.key, inst.master).value)
    else
      var r := d.rows[id].record;
      if id in inst.cache && inst.cache[id].record == r
      then Unchanged(inst, d, Found(Some(inst.cache[id].plaintext)))
      else ReadUncached(inst.master, inst.cache - {id}, d, id, r)
  }

  // ---------------------------------------------------------------- the key for a write

  /** The key an instance holds afterwards, the key file, why it failed, and the
      states the key file went through. */
  datatype Ensured = Ensured(master: MasterKey, file: KeyFile, failure: Option<Error>, files: seq<KeyFile>)

  function Refreshed(master: MasterKey, file: KeyFile): MasterKey {
    if master.Available? && VerifyKey(file, master).None? then master else LoadMasterKey(file)
  }

  /** With no rows a key may be made up, unless the path holds something that is
      not a plain file. */
  function CreateKey(master: MasterKey, file: KeyFile, w: World): Ensured {
    if master.Unavailable? && !master.recoverableWhenEmpty then Ensured(master, file, Some(KeyUnavailable), [file])
    else if w.newKey.None? then Ensured(master, file, Some(RandomUnavailable), [file])
    else if w.keyWriteLeaves.Some? then
      Ensured(LoadMasterKey(w.keyWriteLeaves.value), w.keyWriteLeaves.value, Some(w.keyWriteError),
              [file] + w.halfWritten + [w.keyWriteLeaves.value])
    else
      Ensured(Available(w.newKey.value), Holds(w.newKey.value), None, [file] + w.halfWritten + [Holds(w.newKey.value)])
  }

  function EnsureKey(stale: MasterKey, d: Disk, order: seq<string>, id: string, w: World): Ensured {
    var master := Refreshed(stale, d.key);
    if w.budget == 0 then Ensured(master, d.key, Some(DatabaseReadFailed), [d.key])
    else if d.rows == map[] then
      if master.Available? then Ensured(master, d.key, None, [d.key]) else CreateKey(master, d.key, w)
    else if !master.Available? then Ensured(master, d.key, Some(KeyUnavailable), [d.key])
    else
      var failure := VerifyAll(master, d.rows, order, 0, w.budget);
      if failure.Some? then Ensured(master, d.key, failure, [d.key])
      else if |d.rows| >= MAX_RECORDS && id !in d.rows then Ensured(master, d.key, Some(RecordLimitExceeded), [d.key])
      else Ensured(master, d.key, None, [d.key])
  }

  // ---------------------------------------------------------------- writing operations

  function Trail(d: Disk, files: seq<KeyFile>): seq<Disk> {
    seq(|files|, i requires 0 <= i < |files| => d.(key := files[i]))
  }

  /** Seals the value and commits it over `kept`, the rows that stay. */
  function WriteSealed(k: Ensured, d: Disk, kept: map<string, Row>, id: string, value: string, w: World): Outcome {
    var now, trail := d.(key := k.file), Trail(d, k.files);
    if k.failure.Some? then Outcome(Instance(k.master, map[]), now, Failed(k.failure.value), trail)
    else if VerifyKey(k.file, k.master).Some? then
      Outcome(Instance(LoadMasterKey(k.file), map[]), now, Failed(VerifyKey(k.file, k.master).value), trail)
    else if w.newNonce.None? then Outcome(Instance(k.master, map[]), now, Failed(RandomUnavailable), trail)
    else if !w.writes then Outcome(Instance(k.master, map[]), now, Failed(DatabaseWriteFailed), trail)
    else if !w.commits then Outcome(Instance(k.master, map[]), now, Failed(DatabaseCommitFailed), trail)
    else
      var r := Seal(k.master.key, w.newNonce.value, id, value);
      var after := Disk(kept[id := Stored(r)], k.file);
      Outcome(Instance(k.master, map[id := Cached(value, r)]), after, Done, trail + [after])
  }

  function Replace(inst: Instance, d: Disk, order: seq<string>, id: string, value: string, w: World): Outcome {
    if !ValidId(id) then Failing(inst.master, d, IdInvalid)
    else if !ValidValue(value) then Failing(inst.master, d, ValueInvalid)
    else if !w.begins then Failing(inst.master, d, DatabaseWriteFailed)
    else WriteSealed(EnsureKey(inst.master, d, order, id, w), d, d.rows, id, value, w)
  }

  /** The rows whose id the namespace pattern selects, `but` one. */
  function Selected(rows: map<string, Row>, ns: string, but: Option<string>): set<string> {
    set id | id in rows && LikePattern.InNamespace(ns, id) && Some(id) != but
  }

  function ReplaceNamespace(inst: Instance, d: Disk, order: seq<string>, ns: string, id: string, value: string,
                            w: World): Outcome {
    if !ValidId(ns) || !ValidId(id) then Failing(inst.master, d, IdInvalid)
    else if !ValidValue(value) then Failing(inst.master, d, ValueInvalid)
    else if !(ns <= id) then Failing(inst.master, d, NamespaceMismatch)
    else if !w.begins then Failing(inst.master, d, DatabaseWriteFailed)
    else
      var (master, result) := InspectAll(inst.master, d, order, w.budget);
      match result
      case Err(error) => Failing(master, d, error)
      case Ok(RecoveryRequired) => Failing(master, d, ResetRequired)
      case Ok(_) =>
        WriteSealed(EnsureKey(master, d, order, id, w), d, d.rows - Selected(d.rows, ns, Some(id)), id, value, w)
  }

  /** Deletes rows and commits; the cache was cleared before. */
  function Remove(master: MasterKey, d: Disk, ids: set<string>, failure: Error, answer: Answer, w: World): Outcome {
    if !w.writes then Failing(master, d, failure)
    else if !w.commits then Failing(master, d, DatabaseCommitFailed)
    else
      var after := d.(rows := d.rows - ids);
      Outcome(Instance(master, map[]), after, answer, [d, after])
  }

  /** Resets need proof, inside the transaction, that something is lost for good. */
  function ResetStore(inst: Instance, d: Disk, order: seq<string>, w: World): Outcome {
    if !w.begins then Failing(inst.master, d, DatabaseResetFailed)
    else
      var (master, result) := InspectAll(inst.master, d, order, w.budget);
      match result
      case Err(error) => Failing(master, d, error)
      case Ok(RecoveryRequired) => Remove(master, d, d.rows.Keys, DatabaseResetFailed, Done, w)
      case Ok(_) => Failing(master, d, ResetNotRequired)
  }

  function Reset(inst: Instance, d: Disk, order: seq<string>, id: string, w: World): Outcome {
    if !ValidId(id) then Failing(inst.master, d, IdInvalid) else ResetStore(inst, d, order, w)
  }

  function Delete(inst: Instance, d: Disk, id: string, w: World): Outcome {
    if !ValidId(id) then Failing(inst.master, d, IdInvalid)
    else if !w.begins then Failing(inst.master, d, DatabaseDeleteFailed)
    else if w.budget == 0 then Failing(inst.master, d, DatabaseReadFailed)
    else
      var (master, result) := InspectRow(inst.master, d.key, id, Lookup(d.rows, id));
      match result
      case Err(error) => Failing(master, d, error)
      case Ok(RecoveryRequired) => Failing(master, d, ResetRequired)
      case Ok(_) => Remove(master, d, {id}, DatabaseDeleteFailed, Done, w)
  }

  function DeleteNamespace(inst: Instance, d: Disk, order: seq<string>, ns: string, w: World): Outcome {
    if !ValidId(ns) then Failing(inst.master, d, IdInvalid)
    else if !w.begins then Failing(inst.master, d, DatabaseDeleteFailed)
    else
      var (master, result) := InspectAll(inst.master, d, order, w.budget);
      match result
      case Err(error) => Failing(master, d, error)
      case Ok(RecoveryRequired) => Failing(master, d, ResetRequired)
      case Ok(_) =>
        var gone := Selected(d.rows, ns, None);
        Remove(master, d, gone, DatabaseDeleteFailed, Removed(|gone|), w)
  }

  // ---------------------------------------------------------------- any operation

  datatype Operation =
    | DoIsConfigured(id: string)
    | DoInspect(id: string)
    | DoInspectStore
    | DoRead(id: string)
    | DoReplace(id: string, value: string)
    | DoReplaceNamespace(ns: string, id: string, value: string)
    | DoReset(id: string)
    | DoResetStore
    | DoDelete(id: string)
    | DoDeleteNamespace(ns: string)

  predicate Mutates(op: Operation) {
    !op.DoIsConfigured? && !op.DoInspect? && !op.DoInspectStore? && !op.DoRead?
  }

  function Perform(inst: Instance, d: Disk, op: Operation, order: seq<string>, w: World): Outcome {
    match op
    case DoIsConfigured(id) => IsConfigured(inst, d, id, w)
    case DoInspect(id) => Inspect(inst, d, id, w)
    case DoInspectStore => InspectStore(inst, d, order, w)
    case DoRead(id) => Read(inst, d, id, w)
    case DoReplace(id, value) => Replace(inst, d, order, id, value, w)
    case DoReplaceNamespace(ns, id, value) => ReplaceNamespace(inst, d, order, ns, id, value, w)
    case DoReset(id) => Reset(inst, d, order, id, w)
    case DoResetStore => ResetStore(inst, d, order, w)
    case DoDelete(id) => Delete(inst, d, id, w)
    case DoDeleteNamespace(ns) => DeleteNamespace(inst, d, order, ns, w)
  }
}
