/** Exactly when the secret store accepts a value, and what it answers otherwise, told
    over the rows, the key file and what the outside does. */
module SecretAnswers {
  import opened Wrappers
  import LikePattern
  import opened SecretRecords
  import opened SecretOperations
  import opened SecretGuarantees
  import opened SecretTheorems

  // ---------------------------------------------------------------- what is valid

  predicate Printable(c: char) {
    '!' <= c <= '~'
  }

  lemma {:induction false} AsciiLength(s: string)
    requires forall i :: 0 <= i < |s| ==> s[i] as int < 0x80
    ensures Utf8Length(s) == |s|
    decreases |s|
  {
    if s != [] {
      AsciiLength(s[1..]);
    }
  }

  /** Of printable ASCII an id has 1 to 128 characters. */
  lemma PrintableIdIff(id: string)
    requires forall i :: 0 <= i < |id| ==> Printable(id[i])
    ensures ValidId(id) <==> 1 <= |id| <= 128
  {
    AsciiLength(id);
  }

  /** Control characters and white space, of ASCII or not, are never part of an id. */
  lemma NoBlankIds(id: string, i: nat)
    requires i < |id| && id[i] in {'\0', '\t', '\n', '\r', ' ', '\U{7F}', '\U{85}', '\U{A0}', '\U{2028}', '\U{3000}'}
    ensures !ValidId(id)
  {
  }

  /** Of ASCII a value has 1 to 65536 characters, none of them NUL. */
  lemma AsciiValueIff(value: string)
    requires forall i :: 0 <= i < |value| ==> value[i] as int < 0x80
    ensures ValidValue(value) <==> 1 <= |value| <= 65536 && forall i :: 0 <= i < |value| ==> value[i] as int != 0
  {
    AsciiLength(value);
  }

  /** Beyond ASCII the limits count UTF-8 bytes: a character takes up to four. */
  lemma {:induction false} WideLength(c: char, n: nat)
    ensures Utf8Length(seq(n, i => c))
         == n * (if c as int < 128 then 1 else if c as int < 2048 then 2 else if c as int < 65536 then 3 else 4)
  {
    if n > 0 {
      var s := seq(n, i => c);
      assert s[1..] == seq(n - 1, i => c);
      WideLength(c, n - 1);
    }
  }

  // ---------------------------------------------------------------- writes

  /** Every row has a valid id and opens under the key in the file, and there are at
      most 256. */
  ghost predicate Sound(d: Disk) {
    && d.key.Holds? && |d.rows| <= 256
    && forall i :: i in d.rows ==> ValidId(i) && d.rows[i].Stored? && Opens(d.key.key, i, d.rows[i].record)
  }

  /** A good key is in the file; or there is nothing, or a plain file of whatever
      content, in whose place a new key can be written. */
  predicate KeyAtHand(file: KeyFile, w: World) {
    || file.Holds?
    || (file in {Absent, WrongFormat, UnknownVersion, WrongPermissions, Unreadable}
        && w.newKey.Some? && w.keyWriteLeaves.None?)
  }

  /** The store can take a record of this id. */
  ghost predicate HasRoom(d: Disk, id: string, w: World) {
    if d.rows == map[] then KeyAtHand(d.key, w) else Sound(d) && (id in d.rows || |d.rows| < 256)
  }

  ghost predicate Cooperates(w: World, rows: nat) {
    w.begins && w.budget > 0 && w.budget >= rows && w.newNonce.Some? && w.writes && w.commits
  }

  lemma RefreshedIff(stale: MasterKey, file: KeyFile)
    ensures Refreshed(stale, file).Available? <==> file.Holds?
    ensures file.Holds? ==> Refreshed(stale, file) == Available(file.key)
    ensures !file.Holds? ==> Refreshed(stale, file) == LoadMasterKey(file)
  {
  }

  lemma EnsuredIff(stale: MasterKey, d: Disk, order: seq<string>, id: string, w: World)
    requires Enumerates(order, d.rows)
    ensures EnsureKey(stale, d, order, id, w).failure.None?
       <==> w.budget > 0 && (d.rows == map[] || w.budget >= |d.rows|) && HasRoom(d, id, w)
  {
    RefreshedIff(stale, d.key);
    OrderCounts(order, d.rows);
    var master := Refreshed(stale, d.key);
    if d.rows == map[] {
      hide VerifyAll;
    } else if master.Available? {
      VerifyVerdict(master, d.rows, order, 0, w.budget);
      hide VerifyAll, Opens, ValidId, Refreshed;
      if VerifyAll(master, d.rows, order, 0, w.budget).None? {
        forall i | i in d.rows ensures ValidId(i) && d.rows[i].Stored? && Opens(master.key, i, d.rows[i].record) {
          var n :| 0 <= n < |order| && order[n] == i;
        }
      }
    }
  }

  lemma WriteSealedIff(k: Ensured, d: Disk, kept: map<string, Row>, id: string, value: string, w: World)
    requires Ready(k, d, id)
    ensures WriteSealed(k, d, kept, id, value, w).answer == Done
       <==> k.failure.None? && w.newNonce.Some? && w.writes && w.commits
  {
    hide Trail, Seal, AllOpen;
  }

  /** A value is accepted exactly when id and value are valid, the outside cooperates,
      and the store has room for the record: with no rows, a key is at hand or can be
      made; with some, every one opens under the key in the file, and the id is one of
      them or there are fewer than 256. */
  lemma ReplaceCommitsIff(inst: Instance, d: Disk, order: seq<string>, id: string, value: string, w: World)
    requires Enumerates(order, d.rows)
    ensures Replace(inst, d, order, id, value, w).answer == Done
       <==> ValidId(id) && ValidValue(value) && Cooperates(w, |d.rows|) && HasRoom(d, id, w)
  {
    hide ValidId, ValidValue, EnsureKey, WriteSealed, HasRoom, Ready;
    EnsuredKey(inst.master, d, order, id, w);
    EnsuredIff(inst.master, d, order, id, w);
    WriteSealedIff(EnsureKey(inst.master, d, order, id, w), d, d.rows, id, value, w);
  }

  /** What has room also passes the inspection of the whole store. */
  lemma RoomPassesInspection(master: MasterKey, d: Disk, order: seq<string>, id: string, w: World)
    requires Enumerates(order, d.rows) && HasRoom(d, id, w) && w.budget > 0 && w.budget >= |d.rows|
    ensures var result := InspectAll(master, d, order, w.budget).1; result.Ok? && result != Ok(RecoveryRequired)
  {
    InspectVerdict(master, d, order, w.budget);
    AuthenticatesIff(d);
    hide Judged, Lost, Opens, InspectAll, ValidId;
  }

  /** For a namespace the same, and the id has to start with it. */
  lemma ReplaceNamespaceCommitsIff(inst: Instance, d: Disk, order: seq<string>, ns: string, id: string,
                                   value: string, w: World)
    requires Enumerates(order, d.rows)
    ensures ReplaceNamespace(inst, d, order, ns, id, value, w).answer == Done
       <==> && ValidId(ns) && |ns| <= |id| && id[..|ns|] == ns
            && ValidId(id) && ValidValue(value) && Cooperates(w, |d.rows|) && HasRoom(d, id, w)
  {
    hide ValidId, ValidValue, EnsureKey, WriteSealed, HasRoom, Ready, InspectAll, Enumerates;
    var master := InspectAll(inst.master, d, order, w.budget).0;
    if w.budget > 0 && w.budget >= |d.rows| && HasRoom(d, id, w) {
      RoomPassesInspection(inst.master, d, order, id, w);
    }
    EnsuredKey(master, d, order, id, w);
    EnsuredIff(master, d, order, id, w);
    EmptyCount(d.rows);
    var gone := Selected(d.rows, ns, Some(id));
    hide Selected;
    WriteSealedIff(EnsureKey(master, d, order, id, w), d, d.rows - gone, id, value, w);
  }

  lemma EmptyCount(rows: map<string, Row>)
    ensures rows == map[] ==> |rows| == 0
  {
  }

  /** Everything before the store is looked at is fine. */
  ghost predicate Admitted(id: string, value: string, w: World) {
    ValidId(id) && ValidValue(value) && w.begins && w.budget > 0
  }

  /** Why a value is refused: the first of these that applies. */
  lemma ReplaceRefusals(inst: Instance, d: Disk, order: seq<string>, id: string, value: string, w: World)
    requires Enumerates(order, d.rows)
    ensures var a := Replace(inst, d, order, id, value, w).answer;
            && (!ValidId(id) ==> a == Failed(IdInvalid))
            && (ValidId(id) && !ValidValue(value) ==> a == Failed(ValueInvalid))
            && (ValidId(id) && ValidValue(value) && !w.begins ==> a == Failed(DatabaseWriteFailed))
            && (ValidId(id) && ValidValue(value) && w.begins && w.budget == 0 ==> a == Failed(DatabaseReadFailed))
            && (Admitted(id, value, w) && d.rows != map[] && !d.key.Holds? ==> a == Failed(KeyUnavailable))
            && (Admitted(id, value, w) && Sound(d) && id !in d.rows && |d.rows| == 256 && w.budget >= 256
                ==> a == Failed(RecordLimitExceeded))
            && (Admitted(id, value, w) && d.rows == map[] && d.key in {Directory, Link, StatFails}
                ==> a == Failed(KeyUnavailable))
            && (Admitted(id, value, w) && d.rows == map[] && !d.key.Holds? && d.key !in {Directory, Link, StatFails}
                ==> (w.newKey.None? ==> a == Failed(RandomUnavailable))
                    && (w.newKey.Some? && w.keyWriteLeaves.Some? ==> a == Failed(w.keyWriteError)))
            && (Admitted(id, value, w) && w.budget >= |d.rows| && HasRoom(d, id, w) ==>
                  && (w.newNonce.None? ==> a == Failed(RandomUnavailable))
                  && (w.newNonce.Some? && !w.writes ==> a == Failed(DatabaseWriteFailed))
                  && (w.newNonce.Some? && w.writes && !w.commits ==> a == Failed(DatabaseCommitFailed)))
  {
    hide ValidId, ValidValue, Trail, Seal;
    RefreshedIff(inst.master, d.key);
    OrderCounts(order, d.rows);
    if Admitted(id, value, w) {
      EnsuredIff(inst.master, d, order, id, w);
      EnsuredKey(inst.master, d, order, id, w);
      FullStore(inst.master, d, order, id, w);
      hide VerifyAll, Refreshed, HasRoom, Sound, AllOpen;
    }
  }

  lemma FullStore(stale: MasterKey, d: Disk, order: seq<string>, id: string, w: World)
    requires Enumerates(order, d.rows)
    ensures Sound(d) && id !in d.rows && |d.rows| == 256 && w.budget >= 256 ==>
              EnsureKey(stale, d, order, id, w).failure == Some(RecordLimitExceeded)
  {
    RefreshedIff(stale, d.key);
    OrderCounts(order, d.rows);
    if Sound(d) && d.rows != map[] {
      VerifyVerdict(Refreshed(stale, d.key), d.rows, order, 0, w.budget);
    }
  }

  // ---------------------------------------------------------------- where a scan stops

  /** What is wrong with a row that should open under the key. */
  function RowFault(key: Key, id: string, row: Row): Option<Error> {
    if row.Malformed? then Some(EnvelopeUnsupported)
    else if !ValidId(id) then Some(IdInvalid)
    else if row.record.envelope != V1AesGcm then Some(EnvelopeUnsupported)
    else
      match row.record.ciphertext
      case Foreign(_) => Some(AuthenticationFailed)
      case Sealed(k, nonce, i, plaintext) =>
        if k != key || nonce != row.record.nonce || i != id then Some(AuthenticationFailed)
        else if plaintext.NotUtf8? then Some(PlaintextInvalid)
        else None
  }

  lemma RowFaultIff(key: Key, id: string, row: Row)
    ensures RowFault(key, id, row).None? <==> ValidId(id) && row.Stored? && Opens(key, id, row.record)
    ensures row.Stored? && ValidId(id) ==>
              var result := Decrypt(Available(key), id, row.record);
              if result.Ok? then RowFault(key, id, row).None? else RowFault(key, id, row) == Some(result.error)
  {
    hide ValidId;
  }

  /** The first row that is wrong decides; so do the 257th and the end of the budget. */
  lemma {:induction false} VerifyStops(key: Key, rows: map<string, Row>, order: seq<string>, verified: nat,
                                       budget: nat, n: nat)
    requires n < |order| && verified + n <= 256 && n <= budget
    requires forall i :: 0 <= i < |order| ==> order[i] in rows
    requires forall i :: 0 <= i < n ==> RowFault(key, order[i], rows[order[i]]).None?
    ensures var failure := VerifyAll(Available(key), rows, order, verified, budget);
            && (n == budget ==> failure == Some(DatabaseReadFailed))
            && (n < budget && verified + n == 256 ==> failure == Some(RecordLimitExceeded))
            && (n < budget && verified + n < 256 && RowFault(key, order[n], rows[order[n]]).Some?
                ==> failure == RowFault(key, order[n], rows[order[n]]))
    decreases n
  {
    hide ValidId, RowFault, Decrypt;
    RowFaultIff(key, order[0], rows[order[0]]);
    RowFaultShape(key, order[0], rows[order[0]]);
    if n > 0 {
      assert forall i :: 0 <= i < |order[1..]| ==> order[1..][i] == order[i + 1];
      VerifyStops(key, rows, order[1..], verified + 1, budget - 1, n - 1);
    }
  }

  lemma RowFaultShape(key: Key, id: string, row: Row)
    ensures row.Malformed? ==> RowFault(key, id, row) == Some(EnvelopeUnsupported)
    ensures row.Stored? && !ValidId(id) ==> RowFault(key, id, row) == Some(IdInvalid)
  {
  }

  /** Inspecting the whole store fails with the error of the first row that cannot be
      judged, or where the budget ends. */
  lemma {:induction false} ScanStops(master: MasterKey, d: Disk, order: seq<string>, budget: nat, lost: bool, n: nat)
    requires n < |order| && n <= budget && forall i :: 0 <= i < |order| ==> order[i] in d.rows
    requires forall i :: 0 <= i < n ==> Judged(d, order[i])
    ensures var result := Scan(master, d, order, budget, lost).1;
            && (n == budget ==> result == Err(DatabaseReadFailed))
            && (n < budget && !Judged(d, order[n]) ==> result == Standing(d.key, order[n], d.rows[order[n]]))
    decreases n
  {
    hide InspectRow, Standing;
    if budget > 0 {
      InspectIsFresh(master, d.key, order[0], d.rows[order[0]]);
    }
    if n > 0 {
      var (current, result) := InspectRow(master, d.key, order[0], Lookup(d.rows, order[0]));
      assert Judged(d, order[0]);
      assert forall i :: 0 <= i < |order[1..]| ==> order[1..][i] == order[i + 1];
      ScanStops(current, d, order[1..], budget - 1, lost || result == Ok(RecoveryRequired), n - 1);
    }
  }

  lemma InspectStops(inst: Instance, d: Disk, order: seq<string>, w: World, n: nat)
    requires Enumerates(order, d.rows) && n <= w.budget && n <= |order|
    requires forall i :: 0 <= i < n ==> Judged(d, order[i])
    ensures var a := InspectStore(inst, d, order, w).answer;
            && (w.budget == 0 || (n == w.budget && n < |order|) ==> a == Failed(DatabaseReadFailed))
            && (n < w.budget && n < |order| && !Judged(d, order[n])
                ==> a == Failed(RowError(d.key, d.rows[order[n]])))
  {
    hide Standing, Judged;
    if n < |order| && w.budget > 0 {
      ScanStops(inst.master, d, order, w.budget, false, n);
      if n < w.budget && !Judged(d, order[n]) {
        UnjudgedError(d, order[n]);
      }
    }
  }

  /** Why a row cannot be judged: its shape, the key file, or its envelope. */
  function RowError(file: KeyFile, row: Row): Error {
    if row.Malformed? || file.Holds? then EnvelopeUnsupported else KeyFileError(file).value
  }

  lemma UnjudgedError(d: Disk, id: string)
    requires id in d.rows && !Judged(d, id)
    ensures Standing(d.key, id, d.rows[id]) == Err(RowError(d.key, d.rows[id]))
  {
  }

  // ---------------------------------------------------------------- reads

  /** Reading finds nothing exactly where there is no row. */
  lemma ReadNothingIff(inst: Instance, d: Disk, id: string, w: World)
    ensures Read(inst, d, id, w).answer == Found(None) <==> ValidId(id) && w.budget > 0 && id !in d.rows
    ensures id !in Read(inst, d, id, w).inst.cache || id in d.rows
  {
    hide ValidId;
  }

  /** Any instance gives a value exactly when it holds the key that is in the file right
      now and the row is well formed: from its cache if that has this very record, and
      otherwise if the record opens, the sealed text. */
  lemma ReadValueIff(inst: Instance, d: Disk, id: string, value: string, w: World)
    ensures Read(inst, d, id, w).answer == Found(Some(value))
       <==> && ValidId(id) && w.budget > 0 && id in d.rows && d.rows[id].Stored?
            && d.key.Holds? && inst.master == Available(d.key.key)
            && var r := d.rows[id].record;
               if id in inst.cache && inst.cache[id].record == r then value == inst.cache[id].plaintext
               else Opens(d.key.key, id, r) && value == r.ciphertext.plaintext.text
  {
    hide ValidId;
  }

  /** The error that reading a key file gives to a store opened on it. */
  function KeyFileError(file: KeyFile): Option<Error> {
    match file
    case Holds(_) => None
    case Absent => Some(KeyMissing)
    case WrongFormat => Some(KeyFormatInvalid)
    case UnknownVersion => Some(KeyVersionUnsupported)
    case WrongPermissions => Some(KeyPermissionInvalid)
    case Unreadable => Some(KeyReadFailed)
    case StatFails => Some(KeyReadFailed)
    case Directory => Some(KeyFileInvalid)
    case Link => Some(KeyFileInvalid)
  }

  /** Why a store just opened cannot read a record. */
  lemma FreshReadRefusals(d: Disk, id: string, w: World)
    ensures var a := Read(Opened(d), d, id, w).answer;
            && (!ValidId(id) ==> a == Failed(IdInvalid))
            && (ValidId(id) && w.budget == 0 ==> a == Failed(DatabaseReadFailed))
            && (ValidId(id) && w.budget > 0 && id in d.rows ==>
                  if d.rows[id].Malformed? then a == Failed(EnvelopeUnsupported)
                  else if !d.key.Holds? then a == Failed(KeyFileError(d.key).value)
                  else if Opens(d.key.key, id, d.rows[id].record) then a.Found?
                  else if d.rows[id].record.envelope != V1AesGcm then a == Failed(EnvelopeUnsupported)
                  else a == Failed(AuthenticationFailed) || a == Failed(PlaintextInvalid))
  {
    hide ValidId;
  }

  /** What an instance that has a key learns when the file is looked at again. */
  function StaleError(file: KeyFile): Error {
    match file
    case Holds(_) => KeyChanged
    case Absent => KeyMissing
    case WrongFormat => KeyFormatInvalid
    case Directory => KeyFormatInvalid
    case UnknownVersion => KeyVersionUnsupported
    case WrongPermissions => KeyPermissionInvalid
    case Unreadable => KeyReadFailed
    case Link => KeyReadFailed
    case StatFails => KeyReadFailed
  }

  /** An instance whose key is no longer the one in the file refuses once, and has
      loaded whatever the file holds by then. */
  lemma StaleReadRefused(inst: Instance, d: Disk, id: string, w: World)
    requires ValidId(id) && w.budget > 0 && id in d.rows && d.rows[id].Stored?
    requires inst.master.Available? && d.key != Holds(inst.master.key)
    ensures Read(inst, d, id, w).answer == Failed(StaleError(d.key))
    ensures Read(inst, d, id, w).inst == Opened(d)
  {
    hide ValidId;
  }

  /** Inspecting a record, with any instance. */
  lemma InspectAnswersIff(inst: Instance, d: Disk, id: string, w: World)
    requires ValidId(id) && w.budget > 0
    ensures var a := Inspect(inst, d, id, w).answer;
            && (a == MaterialIs(NotConfigured) <==> id !in d.rows)
            && (a == MaterialIs(Configured)
                <==> id in d.rows && d.rows[id].Stored? && d.key.Holds? && Opens(d.key.key, id, d.rows[id].record))
            && (a == MaterialIs(RecoveryRequired)
                <==> && id in d.rows && d.rows[id].Stored?
                     && (d.key in {Absent, WrongFormat}
                         || (d.key.Holds? && d.rows[id].record.envelope == V1AesGcm
                             && !Opens(d.key.key, id, d.rows[id].record))))
  {
    hide ValidId, InspectRow, Standing, Opens;
    if id in d.rows {
      InspectIsFresh(inst.master, d.key, id, d.rows[id]);
      ConfiguredIff(d.key, id, d.rows[id]);
      LostIff(d.key, id, d.rows[id]);
      FoundIsConfigured(inst.master, d.key, id, d.rows[id]);
    } else {
      NoRowNotConfigured(inst.master, d.key, id);
    }
  }

  /** Inspecting the whole store: loss is reported exactly when it is proven. */
  lemma InspectStoreAnswersIff(inst: Instance, d: Disk, order: seq<string>, w: World)
    requires Enumerates(order, d.rows)
    ensures var a := InspectStore(inst, d, order, w).answer;
            && (a == MaterialIs(NotConfigured) <==> w.budget > 0 && d.rows == map[])
            && (a == MaterialIs(RecoveryRequired) <==> w.budget >= |d.rows| && LossProven(d))
            && (a == MaterialIs(Configured)
                <==> w.budget > 0 && w.budget >= |d.rows| && d.rows != map[] && Authenticates(d))
  {
    InspectVerdict(inst.master, d, order, w.budget);
    AuthenticatesIff(d);
    hide InspectAll, Judged, Lost, Authenticates;
    if id :| id in d.rows {
      assert |d.rows| == |d.rows.Keys| > 0;
    }
  }

  /** Whether a record is there, readable or not. */
  lemma ConfiguredAnswersIff(inst: Instance, d: Disk, id: string, w: World, configured: bool)
    ensures IsConfigured(inst, d, id, w).answer == Flag(configured)
       <==> ValidId(id) && w.budget > 0 && (configured <==> id in d.rows)
  {
    hide ValidId;
  }

  // ---------------------------------------------------------------- deletes and resets

  /** Why a delete is refused; a lost record asks for a reset instead. */
  lemma DeleteRefusals(inst: Instance, d: Disk, id: string, w: World)
    ensures var a := Delete(inst, d, id, w).answer;
            && (!ValidId(id) ==> a == Failed(IdInvalid))
            && (ValidId(id) && !w.begins ==> a == Failed(DatabaseDeleteFailed))
            && (ValidId(id) && w.begins && w.budget == 0 ==> a == Failed(DatabaseReadFailed))
            && (ValidId(id) && w.begins && w.budget > 0 ==>
                  if id in d.rows && Lost(d, id) then a == Failed(ResetRequired)
                  else if id in d.rows && !Judged(d, id) then a == Failed(RowError(d.key, d.rows[id]))
                  else if !w.writes then a == Failed(DatabaseDeleteFailed)
                  else if !w.commits then a == Failed(DatabaseCommitFailed)
                  else a == Done)
  {
    hide ValidId, InspectRow, Standing;
    if id in d.rows {
      InspectIsFresh(inst.master, d.key, id, d.rows[id]);
      FoundIsConfigured(inst.master, d.key, id, d.rows[id]);
      if !Judged(d, id) {
        UnjudgedError(d, id);
      }
    } else {
      NoRowNotConfigured(inst.master, d.key, id);
    }
  }

  lemma DeleteNamespaceRefusals(inst: Instance, d: Disk, order: seq<string>, ns: string, w: World)
    requires Enumerates(order, d.rows)
    ensures var a := DeleteNamespace(inst, d, order, ns, w).answer;
            && (!ValidId(ns) ==> a == Failed(IdInvalid))
            && (ValidId(ns) && !w.begins ==> a == Failed(DatabaseDeleteFailed))
            && (ValidId(ns) && w.begins && w.budget == 0 ==> a == Failed(DatabaseReadFailed))
            && (ValidId(ns) && w.begins && w.budget > 0 && w.budget >= |d.rows| ==>
                  && (LossProven(d) ==> a == Failed(ResetRequired))
                  && (Authenticates(d) && !w.writes ==> a == Failed(DatabaseDeleteFailed))
                  && (Authenticates(d) && w.writes && !w.commits ==> a == Failed(DatabaseCommitFailed)))
  {
    hide ValidId, InspectAll, LikePattern.InNamespace;
    InspectVerdict(inst.master, d, order, w.budget);
    AuthenticatesIff(d);
    NoBudgetNoScan(inst.master, d, order);
    hide Judged, Lost, Authenticates;
  }

  lemma NoBudgetNoScan(master: MasterKey, d: Disk, order: seq<string>)
    ensures InspectAll(master, d, order, 0) == (master, Err(DatabaseReadFailed))
  {
  }

  /** Why a reset is refused. Only the id is looked at before the store. */
  lemma ResetRefusals(inst: Instance, d: Disk, order: seq<string>, id: string, w: World)
    requires Enumerates(order, d.rows)
    ensures var a := Reset(inst, d, order, id, w).answer;
            && (!ValidId(id) ==> a == Failed(IdInvalid))
            && (ValidId(id) ==> a == ResetStore(inst, d, order, w).answer)
    ensures var a := ResetStore(inst, d, order, w).answer;
            && (!w.begins ==> a == Failed(DatabaseResetFailed))
            && (w.begins && w.budget == 0 ==> a == Failed(DatabaseReadFailed))
            && (w.begins && w.budget > 0 && w.budget >= |d.rows| ==>
                  && (Authenticates(d) ==> a == Failed(ResetNotRequired))
                  && (LossProven(d) && !w.writes ==> a == Failed(DatabaseResetFailed))
                  && (LossProven(d) && w.writes && !w.commits ==> a == Failed(DatabaseCommitFailed)))
  {
    hide ValidId, InspectAll;
    InspectVerdict(inst.master, d, order, w.budget);
    AuthenticatesIff(d);
    NoBudgetNoScan(inst.master, d, order);
    hide Judged, Lost, Authenticates;
  }

  // ---------------------------------------------------------------- what an instance remembers

  /** The cache keeps what it has while nothing is wrong, drops what is not there any
      more, learns what is read and written, and is emptied by everything else. */
  lemma CacheAfter(inst: Instance, d: Disk, op: Operation, order: seq<string>, w: World)
    ensures var o := Perform(inst, d, op, order, w);
            && (o.answer.Failed? ==> o.inst.cache == map[])
            && (o.answer == MaterialIs(RecoveryRequired) ==> o.inst.cache == map[])
            && (o.answer == MaterialIs(Configured) || o.answer.Flag? ==> o.inst.cache == inst.cache)
            && (op.DoInspect? && o.answer == MaterialIs(NotConfigured) ==> o.inst.cache == inst.cache - {op.id})
            && (op.DoInspectStore? && o.answer == MaterialIs(NotConfigured) ==> o.inst.cache == map[])
            && (op.DoRead? && o.answer == Found(None) ==> o.inst.cache == inst.cache - {op.id})
            && (op.DoRead? && o.answer.Found? && o.answer.value.Some? ==>
                  && op.id in d.rows && d.rows[op.id].Stored?
                  && o.inst.cache == inst.cache[op.id := Cached(o.answer.value.value, d.rows[op.id].record)])
            && (Mutates(op) && !op.DoReplace? && !op.DoReplaceNamespace? ==> o.inst.cache == map[])
  {
    hide ValidId, ValidValue, InspectRow, InspectAll, EnsureKey, LikePattern.InNamespace, VerifyKey, Decrypt;
    match op
    case DoReplace(id, value) => WriteCaches(EnsureKey(inst.master, d, order, id, w), d, d.rows, id, value, w);
    case DoReplaceNamespace(ns, id, value) =>
      var k := EnsureKey(InspectAll(inst.master, d, order, w.budget).0, d, order, id, w);
      WriteCaches(k, d, d.rows - Selected(d.rows, ns, Some(id)), id, value, w);
    case DoRead(id) => ReadCaches(inst, d, id, w);
    case _ =>
  }

  lemma WriteCaches(k: Ensured, d: Disk, kept: map<string, Row>, id: string, value: string, w: World)
    ensures var o := WriteSealed(k, d, kept, id, value, w);
            (o.answer.Failed? ==> o.inst.cache == map[]) && (o.answer.Failed? || o.answer == Done)
  {
  }

  lemma ReadCaches(inst: Instance, d: Disk, id: string, w: World)
    ensures var o := Read(inst, d, id, w);
            && (o.answer.Failed? ==> o.inst.cache == map[])
            && (o.answer == Found(None) ==> o.inst.cache == inst.cache - {id})
            && (o.answer.Found? && o.answer.value.Some? ==>
                  && id in d.rows && d.rows[id].Stored?
                  && o.inst.cache == inst.cache[id := Cached(o.answer.value.value, d.rows[id].record)])
            && (o.answer.Failed? || o.answer.Found?)
  {
    hide ValidId, VerifyKey, Decrypt;
  }
}
