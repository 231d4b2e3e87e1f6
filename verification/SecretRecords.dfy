/** The encrypted records, the installation key file, and what reading them can
    give. Encryption is ideal: a sealed text opens only under its own key, nonce
    and record id. */
module SecretRecords {
  import opened Wrappers
  import opened Bytes

  type Key = nat
  type Nonce = nat

  datatype Plaintext = Text(text: string) | NotUtf8

  datatype Ciphertext = Sealed(key: Key, nonce: Nonce, id: string, plaintext: Plaintext) | Foreign(tag: nat)

  datatype Envelope = V1AesGcm | OtherEnvelope(tag: nat)

  datatype Record = Record(envelope: Envelope, nonce: Nonce, ciphertext: Ciphertext)

  /** A database row; a malformed one has columns of impossible length. */
  datatype Row = Stored(record: Record) | Malformed

  /** The path of the key file. A regular file holds a key, or fails to be read. */
  datatype KeyFile =
    | Absent
    | Holds(key: Key)
    | WrongFormat | UnknownVersion | WrongPermissions | Unreadable
    | Directory | Link
    | StatFails

  datatype Error =
    | IdInvalid | ValueInvalid | NamespaceMismatch
    | KeyMissing | KeyFormatInvalid | KeyVersionUnsupported | KeyPermissionInvalid | KeyReadFailed
    | KeyFileInvalid | KeyUnavailable | KeyChanged | KeyWriteFailed
    | AuthenticationFailed | PlaintextInvalid | EnvelopeUnsupported | RecordLimitExceeded
    | ResetRequired | ResetNotRequired | RandomUnavailable
    | DatabaseReadFailed | DatabaseWriteFailed | DatabaseCommitFailed | DatabaseDeleteFailed | DatabaseResetFailed

  /** What an instance knows about the key. */
  datatype MasterKey = Missing | Available(key: Key) | Unavailable(error: Error, recoverableWhenEmpty: bool)

  datatype Material = NotConfigured | Configured | RecoveryRequired

  const MAX_RECORDS: nat := 256
  const MAX_ID_LENGTH: nat := 128
  const MAX_VALUE_LENGTH: nat := 64 * 1024

  // ---------------------------------------------------------------- validation

  function Utf8Width(c: char): nat {
    var n := c as int;
    if n < 0x80 then 1 else if n < 0x800 then 2 else if n < 0x10000 then 3 else 4
  }

  function Utf8Length(s: string): nat {
    if s == [] then 0 else Utf8Width(s[0]) + Utf8Length(s[1..])
  }

  predicate IsControl(c: char) {
    c as int < 0x20 || 0x7F <= c as int < 0xA0
  }

  predicate ValidId(id: string) {
    id != [] && Utf8Length(id) <= MAX_ID_LENGTH
    && forall i :: 0 <= i < |id| ==> !IsControl(id[i]) && !IsWhitespace(id[i] as int)
  }

  predicate ValidValue(value: string) {
    value != [] && Utf8Length(value) <= MAX_VALUE_LENGTH && '\0' !in value
  }

  // ---------------------------------------------------------------- the key

  /** Reading the file. A directory opens and has the wrong shape; a link does not open. */
  function ReadKeyFile(file: KeyFile): Result<Key, Error> {
    match file
    case Holds(key) => Ok(key)
    case Absent => Err(KeyMissing)
    case WrongFormat => Err(KeyFormatInvalid)
    case Directory => Err(KeyFormatInvalid)
    case UnknownVersion => Err(KeyVersionUnsupported)
    case WrongPermissions => Err(KeyPermissionInvalid)
    case _ => Err(KeyReadFailed)
  }

  predicate IsRegular(file: KeyFile) {
    file.Holds? || file.WrongFormat? || file.UnknownVersion? || file.WrongPermissions? || file.Unreadable?
  }

  function LoadMasterKey(file: KeyFile): MasterKey {
    if file == Absent then Missing
    else if file == StatFails then Unavailable(KeyReadFailed, false)
    else if !IsRegular(file) then Unavailable(KeyFileInvalid, false)
    else match ReadKeyFile(file)
      case Ok(key) => Available(key)
      case Err(error) => Unavailable(error, true)
  }

  function AvailableKey(master: MasterKey): Result<Key, Error> {
    match master
    case Available(key) => Ok(key)
    case Missing => Err(KeyMissing)
    case Unavailable(error, _) => Err(error)
  }

  /** None when the instance's key is the one in the file right now. */
  function VerifyKey(file: KeyFile, master: MasterKey): Option<Error> {
    if AvailableKey(master).Err? then Some(AvailableKey(master).error)
    else match ReadKeyFile(file)
      case Err(error) => Some(error)
      case Ok(key) => if key == master.key then None else Some(KeyChanged)
  }

  // ---------------------------------------------------------------- one record

  /** The record opens under the key, as a record of this id. */
  predicate Opens(key: Key, id: string, r: Record) {
    && r.envelope == V1AesGcm && r.ciphertext.Sealed?
    && r.ciphertext.key == key && r.ciphertext.nonce == r.nonce && r.ciphertext.id == id
    && r.ciphertext.plaintext.Text?
  }

  function Decrypt(master: MasterKey, id: string, r: Record): (result: Result<string, Error>)
    ensures result.Ok? <==> master.Available? && Opens(master.key, id, r)
    ensures result.Ok? ==> result.value == r.ciphertext.plaintext.text
  {
    if r.envelope != V1AesGcm then Err(EnvelopeUnsupported)
    else match AvailableKey(master)
      case Err(error) => Err(error)
      case Ok(key) =>
        if r.ciphertext.Foreign? || r.ciphertext.key != key || r.ciphertext.nonce != r.nonce || r.ciphertext.id != id
        then Err(AuthenticationFailed)
        else match r.ciphertext.plaintext
          case Text(text) => Ok(text)
          case NotUtf8 => Err(PlaintextInvalid)
  }

  function Seal(key: Key, nonce: Nonce, id: string, value: string): (r: Record)
    ensures Opens(key, id, r) && r.ciphertext.plaintext == Text(value) && r.nonce == nonce
  {
    Record(V1AesGcm, nonce, Sealed(key, nonce, id, Text(value)))
  }

  /** Errors that prove the old value is gone for good. */
  predicate ProvesLoss(error: Error) {
    error.KeyMissing? || error.KeyFormatInvalid? || error.AuthenticationFailed? || error.PlaintextInvalid?
  }

  function Classify(error: Error): Result<Material, Error> {
    if ProvesLoss(error) then Ok(RecoveryRequired) else Err(error)
  }

  /** Authenticates one row, reloading a changed key once. `row` is None where the
      id has no row. */
  function InspectRow(master: MasterKey, file: KeyFile, id: string, row: Option<Row>)
      : (MasterKey, Result<Material, Error>) {
    if row.None? then (master, Ok(NotConfigured))
    else if row.value.Malformed? then (master, Classify(EnvelopeUnsupported))
    else
      var current := if VerifyKey(file, master).Some? then LoadMasterKey(file) else master;
      if VerifyKey(file, current).Some? then (current, Classify(VerifyKey(file, current).value))
      else match Decrypt(current, id, row.value.record)
        case Ok(_) => (current, Ok(Configured))
        case Err(error) => (current, Classify(error))
  }

  /** What a freshly opened store finds in the row. */
  function Standing(file: KeyFile, id: string, row: Row): Result<Material, Error> {
    InspectRow(LoadMasterKey(file), file, id, Some(row)).1
  }

  lemma FreshKeyVerifies(file: KeyFile)
    ensures file.Holds? ==> VerifyKey(file, LoadMasterKey(file)).None? && LoadMasterKey(file) == Available(file.key)
    ensures !file.Holds? ==> VerifyKey(file, LoadMasterKey(file)).Some?
    ensures !file.Holds? ==> LoadMasterKey(file).Missing? || LoadMasterKey(file).Unavailable?
  {
  }

  /** However stale the instance's key is, inspecting a row finds what a freshly
      opened store would find. */
  lemma InspectIsFresh(master: MasterKey, file: KeyFile, id: string, row: Row)
    ensures InspectRow(master, file, id, Some(row)).1 == Standing(file, id, row)
    ensures InspectRow(master, file, id, Some(row)).1 == Ok(Configured) ==>
        file.Holds? && InspectRow(master, file, id, Some(row)).0 == Available(file.key)
    ensures InspectRow(master, file, id, Some(row)).0 in {master, LoadMasterKey(file)}
  {
    FreshKeyVerifies(file);
  }

  /** A row is readable exactly when the file holds the key it opens under. */
  lemma ConfiguredIff(file: KeyFile, id: string, row: Row)
    ensures Standing(file, id, row) == Ok(Configured) <==> file.Holds? && row.Stored? && Opens(file.key, id, row.record)
  {
    FreshKeyVerifies(file);
  }

  /** A row counts as lost exactly when it is well formed and the key file is gone
      or garbled, or a good key does not authenticate it or finds no text in it. */
  lemma LostIff(file: KeyFile, id: string, row: Row)
    ensures Standing(file, id, row) == Ok(RecoveryRequired)
       <==> row.Stored? && (file == Absent || file == WrongFormat
                            || (file.Holds? && row.record.envelope == V1AesGcm && !Opens(file.key, id, row.record)))
  {
    FreshKeyVerifies(file);
  }
}
