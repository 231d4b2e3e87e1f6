/** Many store instances over one disk, with key files replaced and records
    corrupted from outside: what a cached read is worth. */
module SecretCoherence {
  import opened Wrappers
  import opened SecretRecords
  import opened SecretOperations
  import opened SecretGuarantees
  import opened SecretTheorems

  /** The disk, every instance that is open, and the nonces drawn so far. */
  datatype System = System(disk: Disk, instances: seq<Instance>, used: set<Nonce>)

  datatype Step =
    | Open
    | Call(n: nat, op: Operation, order: seq<string>, w: World)
    | Crash(n: nat, op: Operation, order: seq<string>, w: World, at: nat) // the process dies in between
    | Tamper(id: string, row: Row)
    | Drop(id: string)
    | SetKeyFile(file: KeyFile)

  /** The row opens under some key, as a record of its id. */
  predicate Openable(id: string, row: Row) {
    row.Stored? && row.record.ciphertext.Sealed? && Opens(row.record.ciphertext.key, id, row.record)
  }

  function KeyOf(row: Row): Key
    requires row.Stored? && row.record.ciphertext.Sealed?
  {
    row.record.ciphertext.key
  }

  /** Draws are fresh; tampering may write anything but a record that opens. */
  ghost predicate Legal(s: System, step: Step) {
    match step
    case Open => true
    case Call(n, _, order, w) => n < |s.instances| && Enumerates(order, s.disk.rows)
        && (w.newNonce.Some? ==> w.newNonce.value !in s.used)
    case Crash(n, op, order, w, at) =>
      && n < |s.instances| && Enumerates(order, s.disk.rows) && (w.newNonce.Some? ==> w.newNonce.value !in s.used)
      && at < |Perform(s.instances[n], s.disk, op, order, w).trail|
    case Tamper(id, row) => !Openable(id, row)
    case Drop(_) => true
    case SetKeyFile(_) => true
  }

  function Drawn(w: World): set<Nonce> {
    if w.newNonce.Some? then {w.newNonce.value} else {}
  }

  const DEAD: Instance := Instance(Missing, map[])

  ghost function Next(s: System, step: Step): System {
    if !Legal(s, step) then s
    else match step
      case Open => s.(instances := s.instances + [Opened(s.disk)])
      case Call(n, op, order, w) =>
        var o := Perform(s.instances[n], s.disk, op, order, w);
        System(o.disk, s.instances[n := o.inst], s.used + Drawn(w))
      case Crash(n, op, order, w, at) =>
        var o := Perform(s.instances[n], s.disk, op, order, w);
        System(o.trail[at], s.instances[n := DEAD], s.used + Drawn(w))
      case Tamper(id, row) => s.(disk := s.disk.(rows := s.disk.rows[id := row]))
      case Drop(id) => s.(disk := s.disk.(rows := s.disk.rows - {id}))
      case SetKeyFile(file) => s.(disk := s.disk.(key := file))
  }

  ghost function Run(s: System, steps: seq<Step>): System
    decreases |steps|
  {
    if steps == [] then s else Run(Next(s, steps[0]), steps[1..])
  }

  function NoncesOn(rows: map<string, Row>): set<Nonce> {
    set id | id in rows && rows[id].Stored? :: rows[id].record.nonce
  }

  function Start(d: Disk): System {
    System(d, [], NoncesOn(d.rows))
  }

  // ---------------------------------------------------------------- the invariant

  /** The records that a caller can name and some key opens all share that key. */
  ghost predicate SingleKey(rows: map<string, Row>) {
    forall i, j :: i in rows && j in rows && ValidId(i) && ValidId(j) && Openable(i, rows[i]) && Openable(j, rows[j])
        ==> KeyOf(rows[i]) == KeyOf(rows[j])
  }

  ghost predicate NoncesUsed(rows: map<string, Row>, used: set<Nonce>) {
    forall id :: id in rows && Openable(id, rows[id]) ==> rows[id].record.nonce in used
  }

  /** What was cached was read from a real record under a key at hand, and while that
      record is still on disk the instance holds its key. */
  ghost predicate CacheSound(inst: Instance, rows: map<string, Row>, used: set<Nonce>) {
    forall id :: id in inst.cache ==>
      var c := inst.cache[id];
      && inst.master.Available?
      && ValidId(id) && Openable(id, Stored(c.record)) && c.record.ciphertext.plaintext == Text(c.plaintext)
      && c.record.nonce in used
      && (Lookup(rows, id) == Some(Stored(c.record)) ==> inst.master == Available(KeyOf(Stored(c.record))))
  }

  ghost predicate Invariant(s: System) {
    && SingleKey(s.disk.rows)
    && NoncesUsed(s.disk.rows, s.used)
    && forall n :: 0 <= n < |s.instances| ==> CacheSound(s.instances[n], s.disk.rows, s.used)
  }

  /** Records whose nonce was drawn before do not come back. */
  ghost predicate NothingRevived(rows: map<string, Row>, rows': map<string, Row>, used: set<Nonce>) {
    forall id :: id in rows' && Openable(id, rows'[id]) && rows'[id].record.nonce in used
        ==> Lookup(rows, id) == Some(rows'[id])
  }

  lemma OthersStaySound(inst: Instance, rows: map<string, Row>, rows': map<string, Row>, used: set<Nonce>,
                        used': set<Nonce>)
    requires CacheSound(inst, rows, used) && NothingRevived(rows, rows', used) && used <= used'
    ensures CacheSound(inst, rows', used')
  {
    hide ValidId, Opens;
  }

  lemma FewerRows(rows: map<string, Row>, rows': map<string, Row>, used: set<Nonce>)
    requires forall id :: id in rows' && Openable(id, rows'[id]) ==> Lookup(rows, id) == Some(rows'[id])
    ensures SingleKey(rows) ==> SingleKey(rows')
    ensures NoncesUsed(rows, used) ==> NoncesUsed(rows', used)
    ensures NothingRevived(rows, rows', used)
  {
    hide ValidId, Opens;
  }

  /** A record sealed under a nonce never drawn before, over some of the old rows. */
  lemma OneNewRow(rows: map<string, Row>, rows': map<string, Row>, id: string, key: Key, nonce: Nonce, used: set<Nonce>)
    requires id in rows' && rows'[id].Stored? && rows'[id].record.nonce == nonce && nonce !in used
    requires forall i :: i in rows' && i != id ==> Lookup(rows, i) == Some(rows'[i])
    requires AllOpen(rows', key) && NoncesUsed(rows, used)
    ensures SingleKey(rows') && NoncesUsed(rows', used + {nonce}) && NothingRevived(rows, rows', used)
  {
    hide ValidId;
  }

  // ---------------------------------------------------------------- one operation

  lemma EmptySound(master: MasterKey, rows: map<string, Row>, used: set<Nonce>)
    ensures CacheSound(Instance(master, map[]), rows, used)
  {
  }

  lemma UncachedSound(inst: Instance, id: string, rows: map<string, Row>, used: set<Nonce>)
    requires CacheSound(inst, rows, used)
    ensures CacheSound(Instance(inst.master, inst.cache - {id}), rows, used)
  {
    hide ValidId, Openable;
  }

  lemma InspectKeeps(inst: Instance, d: Disk, id: string, w: World, used: set<Nonce>)
    requires CacheSound(inst, d.rows, used) && SingleKey(d.rows)
    ensures CacheSound(Inspect(inst, d, id, w).inst, d.rows, used)
  {
    hide ValidId, InspectRow, Standing, CacheSound, Openable, SingleKey;
    var o := Inspect(inst, d, id, w);
    EmptySound(inst.master, d.rows, used);
    EmptySound(o.inst.master, d.rows, used);
    if ValidId(id) && w.budget > 0 {
      if id !in d.rows {
        NoRowNotConfigured(inst.master, d.key, id);
        UncachedSound(inst, id, d.rows, used);
      } else {
        FoundIsConfigured(inst.master, d.key, id, d.rows[id]);
        InspectIsFresh(inst.master, d.key, id, d.rows[id]);
        ConfiguredIff(d.key, id, d.rows[id]);
        if o.answer == MaterialIs(Configured) {
          RekeyedSound(inst, d, id, used);
        }
      }
    }
  }

  /** The hard case: the key was reloaded and the cache kept. A record that opens
      under the new key vouches for every cached record that is still on disk. */
  lemma RekeyedSound(inst: Instance, d: Disk, id: string, used: set<Nonce>)
    requires CacheSound(inst, d.rows, used) && SingleKey(d.rows)
    requires ValidId(id) && id in d.rows && d.rows[id].Stored? && d.key.Holds?
        && Opens(d.key.key, id, d.rows[id].record)
    ensures CacheSound(Instance(Available(d.key.key), inst.cache), d.rows, used)
  {
    hide ValidId;
    assert Openable(id, d.rows[id]) && KeyOf(d.rows[id]) == d.key.key;
  }

  lemma {:induction false} ScanHoldsKey(master: MasterKey, d: Disk, order: seq<string>, budget: nat, lost: bool)
    requires forall i :: 0 <= i < |order| ==> order[i] in d.rows
    requires d.key.Holds?
    ensures Scan(master, d, order, budget, lost).0 in {master, Available(d.key.key)}
    ensures order != [] && Scan(master, d, order, budget, lost).1 == Ok(Configured)
        ==> Scan(master, d, order, budget, lost).0 == Available(d.key.key)
    decreases |order|
  {
    hide InspectRow, Standing;
    if order != [] && budget > 0 {
      var id := order[0];
      var (current, result) := InspectRow(master, d.key, id, Lookup(d.rows, id));
      FreshKeyVerifies(d.key);
      InspectIsFresh(master, d.key, id, d.rows[id]);
      FoundIsConfigured(master, d.key, id, d.rows[id]);
      assert forall i :: 0 <= i < |order[1..]| ==> order[1..][i] == order[i + 1];
      if result.Ok? {
        assert result.value.NotConfigured? || result.value.Configured? || result.value.RecoveryRequired?;
        assert result == Ok(Configured) ==> current == Available(d.key.key);
        var some := lost || result == Ok(RecoveryRequired);
        ScanHoldsKey(current, d, order[1..], budget - 1, some);
        ScanVerdict(current, d, order[1..], budget - 1, some);
      }
    }
  }

  lemma InspectStoreKeeps(inst: Instance, d: Disk, order: seq<string>, w: World, used: set<Nonce>)
    requires CacheSound(inst, d.rows, used) && Enumerates(order, d.rows)
    ensures CacheSound(InspectStore(inst, d, order, w).inst, d.rows, used)
  {
    hide InspectAll, CacheSound;
    var o := InspectStore(inst, d, order, w);
    EmptySound(o.inst.master, d.rows, used);
    if o.answer == MaterialIs(Configured) {
      InspectVerdict(inst.master, d, order, w.budget);
      AuthenticatesIff(d);
      OrderCounts(order, d.rows);
      ConfiguredStore(inst, d, order, w);
      AllRekeyedSound(inst, d, used);
    }
  }

  lemma ConfiguredStore(inst: Instance, d: Disk, order: seq<string>, w: World)
    requires Enumerates(order, d.rows) && order != [] && d.key.Holds?
    requires InspectAll(inst.master, d, order, w.budget).1 == Ok(Configured)
    ensures InspectAll(inst.master, d, order, w.budget).0 == Available(d.key.key)
  {
    hide Scan;
    ScanHoldsKey(inst.master, d, order, w.budget, false);
  }

  lemma AllRekeyedSound(inst: Instance, d: Disk, used: set<Nonce>)
    requires CacheSound(inst, d.rows, used) && d.key.Holds? && AllOpen(d.rows, d.key.key)
    ensures CacheSound(Instance(Available(d.key.key), inst.cache), d.rows, used)
  {
    hide ValidId;
  }

  lemma ReadKeeps(inst: Instance, d: Disk, id: string, w: World, used: set<Nonce>)
    requires CacheSound(inst, d.rows, used) && NoncesUsed(d.rows, used)
    ensures CacheSound(Read(inst, d, id, w).inst, d.rows, used)
  {
    hide ValidId, VerifyKey;
    var o := Read(inst, d, id, w);
    UncachedSound(inst, id, d.rows, used);
  }

  lemma ReaderKeeps(inst: Instance, d: Disk, op: Operation, order: seq<string>, w: World, used: set<Nonce>)
    requires CacheSound(inst, d.rows, used) && NoncesUsed(d.rows, used) && SingleKey(d.rows)
    requires !Mutates(op) && Enumerates(order, d.rows)
    ensures var o := Perform(inst, d, op, order, w); CacheSound(o.inst, d.rows, used) && o.disk == d && o.trail == [d]
  {
    hide CacheSound, ValidId, InspectRow, InspectAll, VerifyKey, Decrypt;
    match op
    case DoIsConfigured(id) => EmptySound(inst.master, d.rows, used);
    case DoInspect(id) => InspectKeeps(inst, d, id, w, used);
    case DoInspectStore => InspectStoreKeeps(inst, d, order, w, used);
    case DoRead(id) => ReadKeeps(inst, d, id, w, used);
  }

  /** What a mutation does to the records and to its own instance's cache. */
  ghost predicate Mutated(o: Outcome, rows: map<string, Row>, used: set<Nonce>, used': set<Nonce>) {
    && SingleKey(o.disk.rows) && NoncesUsed(o.disk.rows, used') && NothingRevived(rows, o.disk.rows, used)
    && CacheSound(o.inst, o.disk.rows, used')
  }

  lemma WrittenMutated(o: Outcome, d: Disk, kept: map<string, Row>, id: string, value: string,
                       nonce: Option<Nonce>, used: set<Nonce>)
    requires Written(d, o.disk, kept, id, value, o.inst, nonce) && nonce.Some? && nonce.value !in used && ValidId(id)
    requires forall i :: i in kept ==> Lookup(d.rows, i) == Some(kept[i])
    requires NoncesUsed(d.rows, used)
    ensures Mutated(o, d.rows, used, used + {nonce.value})
  {
    hide ValidId;
    OneNewRow(d.rows, o.disk.rows, id, o.disk.key.key, nonce.value, used);
  }

  lemma ReplaceMutates(inst: Instance, d: Disk, order: seq<string>, id: string, value: string, w: World,
                       used: set<Nonce>)
    requires Enumerates(order, d.rows) && NoncesUsed(d.rows, used) && (w.newNonce.Some? ==> w.newNonce.value !in used)
    requires Replace(inst, d, order, id, value, w).answer == Done
    ensures Mutated(Replace(inst, d, order, id, value, w), d.rows, used, used + Drawn(w))
  {
    hide EnsureKey, WriteSealed, Mutated, ValidId, ValidValue, NoncesUsed, AllOpen, Passes;
    WriteSealedKeeps(inst.master, d, order, {}, id, value, w);
    assert d.rows - {} == d.rows;
    WrittenMutated(Replace(inst, d, order, id, value, w), d, d.rows, id, value, w.newNonce, used);
  }

  lemma ReplaceNamespaceMutates(inst: Instance, d: Disk, order: seq<string>, ns: string, id: string, value: string,
                                w: World, used: set<Nonce>)
    requires Enumerates(order, d.rows) && NoncesUsed(d.rows, used) && (w.newNonce.Some? ==> w.newNonce.value !in used)
    requires ReplaceNamespace(inst, d, order, ns, id, value, w).answer == Done
    ensures Mutated(ReplaceNamespace(inst, d, order, ns, id, value, w), d.rows, used, used + Drawn(w))
  {
    ReplaceNamespaceWrites(inst, d, order, ns, id, value, w);
    hide EnsureKey, WriteSealed, InspectAll, Mutated, ValidId, NoncesUsed, AllOpen, Passes, Selected, ReplaceNamespace;
    var gone := Selected(d.rows, ns, Some(id));
    NotSelected(d.rows, ns, id);
    WriteSealedKeeps(InspectAll(inst.master, d, order, w.budget).0, d, order, gone, id, value, w);
    WrittenMutated(ReplaceNamespace(inst, d, order, ns, id, value, w), d, d.rows - gone, id, value, w.newNonce, used);
  }

  lemma WriterMutates(inst: Instance, d: Disk, op: Operation, order: seq<string>, w: World, used: set<Nonce>)
    requires (op.DoReplace? || op.DoReplaceNamespace?) && Enumerates(order, d.rows)
    requires SingleKey(d.rows) && NoncesUsed(d.rows, used) && (w.newNonce.Some? ==> w.newNonce.value !in used)
    ensures Mutated(Perform(inst, d, op, order, w), d.rows, used, used + Drawn(w))
  {
    hide Replace, ReplaceNamespace, Mutated, SingleKey, NoncesUsed, Passes;
    WriterKeeps(inst, d, op, order, w);
    var o := Perform(inst, d, op, order, w);
    if o.answer.Failed? {
      UntouchedMutated(o, d, used, used + Drawn(w));
    } else if op.DoReplace? {
      ReplaceMutates(inst, d, order, op.id, op.value, w, used);
    } else {
      ReplaceNamespaceMutates(inst, d, order, op.ns, op.id, op.value, w, used);
    }
  }

  lemma UntouchedMutated(o: Outcome, d: Disk, used: set<Nonce>, used': set<Nonce>)
    requires o.inst.cache == map[] && used <= used' && SingleKey(d.rows) && NoncesUsed(d.rows, used)
    requires forall id :: id in o.disk.rows ==> Lookup(d.rows, id) == Some(o.disk.rows[id])
    ensures Mutated(o, d.rows, used, used')
  {
    hide ValidId, Opens;
    FewerRows(d.rows, o.disk.rows, used);
  }

  lemma MutatorMutates(inst: Instance, d: Disk, op: Operation, order: seq<string>, w: World, used: set<Nonce>)
    requires Mutates(op) && Enumerates(order, d.rows)
    requires SingleKey(d.rows) && NoncesUsed(d.rows, used) && (w.newNonce.Some? ==> w.newNonce.value !in used)
    ensures Mutated(Perform(inst, d, op, order, w), d.rows, used, used + Drawn(w))
  {
    hide Perform, Mutated, SingleKey, NoncesUsed, Passes;
    if op.DoReplace? || op.DoReplaceNamespace? {
      WriterMutates(inst, d, op, order, w, used);
    } else {
      RemoverKeeps(inst, d, op, order, w);
      RemoverClears(inst, d, op, order, w);
      UntouchedMutated(Perform(inst, d, op, order, w), d, used, used + Drawn(w));
    }
  }

  lemma RemoverClears(inst: Instance, d: Disk, op: Operation, order: seq<string>, w: World)
    requires Mutates(op) && !op.DoReplace? && !op.DoReplaceNamespace?
    ensures Perform(inst, d, op, order, w).inst.cache == map[]
  {
    hide InspectAll, InspectRow, Selected, ValidId;
  }

  // ---------------------------------------------------------------- every run

  lemma CallKeepsInvariant(s: System, n: nat, op: Operation, order: seq<string>, w: World)
    requires Invariant(s) && Legal(s, Call(n, op, order, w))
    ensures var o := Perform(s.instances[n], s.disk, op, order, w);
            && SingleKey(o.disk.rows) && NoncesUsed(o.disk.rows, s.used + Drawn(w))
            && NothingRevived(s.disk.rows, o.disk.rows, s.used)
            && CacheSound(o.inst, o.disk.rows, s.used + Drawn(w))
  {
    hide Perform, SingleKey, NoncesUsed, CacheSound, NothingRevived;
    var inst := s.instances[n];
    if Mutates(op) {
      MutatorMutates(inst, s.disk, op, order, w, s.used);
    } else {
      ReaderKeeps(inst, s.disk, op, order, w, s.used);
      SameRows(s.disk.rows, s.used, s.used + Drawn(w), Perform(inst, s.disk, op, order, w).inst);
    }
  }

  lemma SameRows(rows: map<string, Row>, used: set<Nonce>, used': set<Nonce>, inst: Instance)
    requires used <= used' && NoncesUsed(rows, used) && CacheSound(inst, rows, used)
    ensures NoncesUsed(rows, used') && NothingRevived(rows, rows, used) && CacheSound(inst, rows, used')
  {
    hide ValidId, Opens;
  }

  /** Everybody's caches after the rows changed. */
  lemma AllStaySound(s: System, s': System, n: nat)
    requires Invariant(s) && s.used <= s'.used && |s'.instances| == |s.instances|
    requires NothingRevived(s.disk.rows, s'.disk.rows, s.used)
    requires SingleKey(s'.disk.rows) && NoncesUsed(s'.disk.rows, s'.used)
    requires forall i :: 0 <= i < |s.instances| && i != n ==> s'.instances[i] == s.instances[i]
    requires n < |s'.instances| ==> CacheSound(s'.instances[n], s'.disk.rows, s'.used)
    ensures Invariant(s')
  {
    hide SingleKey, NoncesUsed, CacheSound, NothingRevived;
    forall i | 0 <= i < |s'.instances| ensures CacheSound(s'.instances[i], s'.disk.rows, s'.used) {
      if i != n {
        OthersStaySound(s.instances[i], s.disk.rows, s'.disk.rows, s.used, s'.used);
      }
    }
  }

  lemma CrashKeepsInvariant(s: System, n: nat, op: Operation, order: seq<string>, w: World, at: nat)
    requires Invariant(s) && Legal(s, Crash(n, op, order, w, at))
    ensures Invariant(Next(s, Crash(n, op, order, w, at)))
  {
    hide Perform, SingleKey, NoncesUsed, CacheSound, NothingRevived;
    var inst := s.instances[n];
    var o := Perform(inst, s.disk, op, order, w);
    var s' := Next(s, Crash(n, op, order, w, at));
    CallKeepsInvariant(s, n, op, order, w);
    EmptySound(Missing, s'.disk.rows, s'.used);
    EmptySound(Missing, s.disk.rows, s.used);
    SameRows(s.disk.rows, s.used, s'.used, DEAD);
    if Mutates(op) {
      FailedMutationChangesNothing(inst, s.disk, op, order, w);
    } else {
      ReaderKeeps(inst, s.disk, op, order, w, s.used);
    }
    assert s'.disk.rows == s.disk.rows || s'.disk.rows == o.disk.rows;
    AllStaySound(s, s', n);
  }

  lemma OutsideKeepsInvariant(s: System, step: Step)
    requires Invariant(s) && Legal(s, step) && (step.Tamper? || step.Drop? || step.SetKeyFile?)
    ensures Invariant(Next(s, step))
  {
    hide SingleKey, NoncesUsed, CacheSound, NothingRevived;
    var s' := Next(s, step);
    assert forall id ::
        id in s'.disk.rows && Openable(id, s'.disk.rows[id])
        ==> Lookup(s.disk.rows, id) == Some(s'.disk.rows[id]);
    hide Openable;
    FewerRows(s.disk.rows, s'.disk.rows, s.used);
    AllStaySound(s, s', |s.instances|);
  }

  lemma NextKeepsInvariant(s: System, step: Step)
    requires Invariant(s)
    ensures Invariant(Next(s, step))
  {
    hide Perform, SingleKey, NoncesUsed, CacheSound, NothingRevived, Openable;
    if Legal(s, step) {
      match step
      case Open => EmptySound(Opened(s.disk).master, s.disk.rows, s.used);
      case Call(n, op, order, w) =>
        CallKeepsInvariant(s, n, op, order, w);
        AllStaySound(s, Next(s, step), n);
      case Crash(n, op, order, w, at) => CrashKeepsInvariant(s, n, op, order, w, at);
      case Tamper(_, _) => OutsideKeepsInvariant(s, step);
      case Drop(_) => OutsideKeepsInvariant(s, step);
      case SetKeyFile(_) => OutsideKeepsInvariant(s, step);
    }
  }

  lemma {:induction false} RunKeepsInvariant(s: System, steps: seq<Step>)
    requires Invariant(s)
    ensures Invariant(Run(s, steps))
    decreases |steps|
  {
    hide Next, Invariant;
    if steps != [] {
      NextKeepsInvariant(s, steps[0]);
      RunKeepsInvariant(Next(s, steps[0]), steps[1..]);
    }
  }

  lemma StartInvariant(d: Disk)
    requires SingleKey(d.rows)
    ensures Invariant(Start(d))
  {
    hide ValidId, Opens;
  }

  /** If this instance answers the read at all, then as a freshly opened store would. */
  ghost predicate Coherent(s: System, n: nat, id: string, w: World) {
    n < |s.instances| && Read(s.instances[n], s.disk, id, w).answer.Found?
    ==> Read(Opened(s.disk), s.disk, id, w).answer == Read(s.instances[n], s.disk, id, w).answer
  }

  lemma SoundReadIsFresh(inst: Instance, d: Disk, id: string, w: World, used: set<Nonce>)
    requires CacheSound(inst, d.rows, used) && Read(inst, d, id, w).answer.Found?
    ensures Read(Opened(d), d, id, w).answer == Read(inst, d, id, w).answer
  {
    hide ValidId;
    FreshKeyVerifies(d.key);
  }

  /** From a disk whose readable records share a key, in every reachable state of
      any number of instances, every answered read is what a store opened at that
      moment, with nothing cached, would answer. */
  lemma ReadsAreCoherent(d: Disk, steps: seq<Step>, n: nat, id: string, w: World)
    requires SingleKey(d.rows)
    ensures Coherent(Run(Start(d), steps), n, id, w)
  {
    hide Next, Read;
    var s := Run(Start(d), steps);
    StartInvariant(d);
    RunKeepsInvariant(Start(d), steps);
    if n < |s.instances| && Read(s.instances[n], s.disk, id, w).answer.Found? {
      SoundReadIsFresh(s.instances[n], s.disk, id, w, s.used);
    }
  }

  ghost predicate CoherentFrom(d: Disk) {
    forall steps: seq<Step>, n: nat, id: string, w: World :: Coherent(Run(Start(d), steps), n, id, w)
  }

  /** Nothing drawn, nothing written. */
  const QUIET: World := World(true, 1, false, false, None, None, [], None, KeyWriteFailed)

  /** Two readable records under different keys, and the key file swapped from one
      key to the other: inspecting the second record reloads the key, and the first
      is then still served from the cache though it no longer opens. */
  function SwapSteps(order: seq<string>, n: nat, i: string, k: Key, j: string, l: Key): seq<Step> {
    [SetKeyFile(Holds(k)), Open, Call(n, DoRead(i), order, QUIET), SetKeyFile(Holds(l)),
     Call(n, DoInspect(j), order, QUIET)]
  }

  lemma MixedKeysAreIncoherent(s: System, order: seq<string>, i: string, j: string)
    requires Enumerates(order, s.disk.rows)
    requires i in s.disk.rows && j in s.disk.rows && ValidId(i) && ValidId(j)
    requires Openable(i, s.disk.rows[i]) && Openable(j, s.disk.rows[j])
        && KeyOf(s.disk.rows[i]) != KeyOf(s.disk.rows[j])
    ensures var n := |s.instances|;
            !Coherent(Run(s, SwapSteps(order, n, i, KeyOf(s.disk.rows[i]), j, KeyOf(s.disk.rows[j]))), n, i, QUIET)
  {
    hide ValidId, Enumerates;
    var d, n, others := s.disk, |s.instances|, s.instances;
    var k, l := KeyOf(d.rows[i]), KeyOf(d.rows[j]);
    var r, text := d.rows[i].record, d.rows[i].record.ciphertext.plaintext.text;
    var d1, d2 := d.(key := Holds(k)), d.(key := Holds(l));
    var fresh0 := Instance(Available(k), map[]);
    var holding := Instance(Available(k), map[i := Cached(text, r)]);
    var rekeyed := Instance(Available(l), map[i := Cached(text, r)]);
    var s1 := s.(disk := d1);
    assert Next(s, SetKeyFile(Holds(k))) == s1;
    var s2 := s1.(instances := others + [fresh0]);
    assert Next(s1, Open) == s2;
    var s3 := s1.(instances := others + [holding]);
    assert Read(fresh0, d1, i, QUIET) == Unchanged(holding, d1, Found(Some(text)));
    assert s2.instances[n] == fresh0 && (others + [fresh0])[n := holding] == others + [holding];
    assert Next(s2, Call(n, DoRead(i), order, QUIET)) == s3;
    var s4 := s3.(disk := d2);
    assert Next(s3, SetKeyFile(Holds(l))) == s4;
    var s5 := s4.(instances := others + [rekeyed]);
    assert Inspect(holding, d2, j, QUIET) == Unchanged(rekeyed, d2, MaterialIs(Configured));
    assert s4.instances[n] == holding && (others + [holding])[n := rekeyed] == others + [rekeyed];
    assert Next(s4, Call(n, DoInspect(j), order, QUIET)) == s5;
    assert s5.instances[n] == rekeyed;
    assert Read(rekeyed, d2, i, QUIET).answer == Found(Some(text));
    assert Read(Opened(d2), d2, i, QUIET).answer == Failed(AuthenticationFailed);
    SwapRuns(s, s1, s2, s3, s4, s5, SwapSteps(order, n, i, k, j, l));
  }

  lemma SwapRuns(s0: System, s1: System, s2: System, s3: System, s4: System, s5: System, steps: seq<Step>)
    requires |steps| == 5
    requires Next(s0, steps[0]) == s1 && Next(s1, steps[1]) == s2 && Next(s2, steps[2]) == s3
    requires Next(s3, steps[3]) == s4 && Next(s4, steps[4]) == s5
    ensures Run(s0, steps) == s5
  {
    hide Next;
    var t1 := steps[1..];
    var t2 := t1[1..];
    var t3 := t2[1..];
    var t4 := t3[1..];
    assert Run(s0, steps) == Run(s1, t1);
    assert Run(s1, t1) == Run(s2, t2);
    assert Run(s2, t2) == Run(s3, t3);
    assert Run(s3, t3) == Run(s4, t4);
    assert t4[1..] == [];
  }

  /** So cached reads can be trusted over every run exactly when the disk at hand
      did not already mix keys. */
  lemma CoherentIffSingleKey(d: Disk, order: seq<string>)
    requires Enumerates(order, d.rows)
    ensures CoherentFrom(d) <==> SingleKey(d.rows)
  {
    hide Coherent, Run, ValidId, Opens;
    if SingleKey(d.rows) {
      forall steps, n: nat, id, w ensures Coherent(Run(Start(d), steps), n, id, w) {
        ReadsAreCoherent(d, steps, n, id, w);
      }
    } else {
      var i, j :| i in d.rows && j in d.rows && ValidId(i) && ValidId(j) && Openable(i, d.rows[i])
          && Openable(j, d.rows[j])
               && KeyOf(d.rows[i]) != KeyOf(d.rows[j]);
      MixedKeysAreIncoherent(Start(d), order, i, j);
    }
  }

  /** A refused read leaves the instance as good as new: asking again gives what a
      freshly opened store gives, whatever that is. */
  lemma SecondReadIsFresh(d: Disk, steps: seq<Step>, n: nat, id: string, w: World)
    requires SingleKey(d.rows) && n < |Run(Start(d), steps).instances| && w.budget > 0
    ensures var s := Run(Start(d), steps);
            var again := Read(s.instances[n], s.disk, id, w).inst;
            Read(again, s.disk, id, w).answer == Read(Opened(s.disk), s.disk, id, w).answer
  {
    hide Next;
    var s := Run(Start(d), steps);
    StartInvariant(d);
    RunKeepsInvariant(Start(d), steps);
    var inst := s.instances[n];
    ReadKeeps(inst, s.disk, id, w, s.used);
    var again := Read(inst, s.disk, id, w).inst;
    if Read(again, s.disk, id, w).answer.Found? {
      SoundReadIsFresh(again, s.disk, id, w, s.used);
    } else {
      RefusedTwice(inst, s.disk, id, w);
    }
  }

  lemma RefusedTwice(inst: Instance, d: Disk, id: string, w: World)
    requires w.budget > 0 && Read(Read(inst, d, id, w).inst, d, id, w).answer.Failed?
    ensures Read(Read(inst, d, id, w).inst, d, id, w).answer == Read(Opened(d), d, id, w).answer
  {
    hide ValidId;
    FreshKeyVerifies(d.key);
  }

  // ---------------------------------------------------------------- old records put back

  /** From outside, a record that opens (an old one, say) is put on disk. */
  function Restored(s: System, id: string, row: Row): System
    requires row.Stored?
  {
    s.(disk := s.disk.(rows := s.disk.rows[id := row]), used := s.used + {row.record.nonce})
  }

  ghost predicate CoherentOnwards(s: System) {
    forall steps: seq<Step>, n: nat, id: string, w: World :: Coherent(Run(s, steps), n, id, w)
  }

  /** Every instance that still caches this very record holds its key. */
  ghost predicate NoStaleCopy(s: System, id: string, row: Row)
    requires Openable(id, row)
  {
    forall n :: 0 <= n < |s.instances| && id in s.instances[n].cache && s.instances[n].cache[id].record == row.record
        ==> s.instances[n].master == Available(KeyOf(row))
  }

  lemma InvariantIsCoherent(s: System)
    requires Invariant(s)
    ensures CoherentOnwards(s)
  {
    hide Next, Read, Invariant;
    forall steps: seq<Step>, n: nat, id: string, w: World ensures Coherent(Run(s, steps), n, id, w) {
      var end := Run(s, steps);
      RunKeepsInvariant(s, steps);
      SoundInstance(end, n);
      if n < |end.instances| && Read(end.instances[n], end.disk, id, w).answer.Found? {
        SoundReadIsFresh(end.instances[n], end.disk, id, w, end.used);
      }
    }
  }

  lemma SoundInstance(s: System, n: nat)
    requires Invariant(s)
    ensures n < |s.instances| ==> CacheSound(s.instances[n], s.disk.rows, s.used)
  {
  }

  lemma RestoredInvariant(s: System, id: string, row: Row)
    requires Invariant(s) && Openable(id, row) && SingleKey(Restored(s, id, row).disk.rows) && NoStaleCopy(s, id, row)
    ensures Invariant(Restored(s, id, row))
  {
    hide ValidId, Opens;
    var s' := Restored(s, id, row);
    forall n | 0 <= n < |s'.instances| ensures CacheSound(s'.instances[n], s'.disk.rows, s'.used) {
      assert CacheSound(s.instances[n], s.disk.rows, s.used);
    }
  }

  /** A stale copy is served as soon as the key file holds the instance's key. */
  lemma StaleCopyIsServed(s: System, id: string, row: Row, n: nat)
    requires Invariant(s) && Openable(id, row)
    requires n < |s.instances| && id in s.instances[n].cache && s.instances[n].cache[id].record == row.record
    requires s.instances[n].master != Available(KeyOf(row))
    ensures !CoherentOnwards(Restored(s, id, row))
  {
    hide ValidId;
    var s' := Restored(s, id, row);
    var inst := s.instances[n];
    assert CacheSound(inst, s.disk.rows, s.used);
    var step := SetKeyFile(Holds(inst.master.key));
    var end := Next(s', step);
    assert Run(s', [step]) == end by {
      assert [step][1..] == [];
    }
    assert Read(inst, end.disk, id, QUIET).answer == Found(Some(inst.cache[id].plaintext));
    assert Read(Opened(end.disk), end.disk, id, QUIET).answer == Failed(AuthenticationFailed);
    assert !Coherent(Run(s', [step]), n, id, QUIET);
  }

  /** Putting a record back that opens leaves every later answered read, over every
      run, what a freshly opened store would answer, exactly if the readable records
      then still share a key and no instance caches that record under another one. */
  lemma RestoringIsHarmlessIff(s: System, id: string, row: Row, order: seq<string>)
    requires Invariant(s) && Openable(id, row) && Enumerates(order, Restored(s, id, row).disk.rows)
    ensures CoherentOnwards(Restored(s, id, row))
       <==> SingleKey(Restored(s, id, row).disk.rows) && NoStaleCopy(s, id, row)
  {
    var s' := Restored(s, id, row);
    if !SingleKey(s'.disk.rows) {
      var i, j :| i in s'.disk.rows && j in s'.disk.rows && ValidId(i) && ValidId(j)
               && Openable(i, s'.disk.rows[i]) && Openable(j, s'.disk.rows[j])
               && KeyOf(s'.disk.rows[i]) != KeyOf(s'.disk.rows[j]);
      hide Coherent, Run, ValidId, Openable;
      MixedKeysAreIncoherent(s', order, i, j);
    } else if !NoStaleCopy(s, id, row) {
      var n :| 0 <= n < |s.instances| && id in s.instances[n].cache && s.instances[n].cache[id].record == row.record
            && s.instances[n].master != Available(KeyOf(row));
      StaleCopyIsServed(s, id, row, n);
    } else {
      hide Invariant, SingleKey, NoStaleCopy, CoherentOnwards;
      RestoredInvariant(s, id, row);
      InvariantIsCoherent(s');
    }
  }
}
