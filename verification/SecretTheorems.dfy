/** The store's promises about its writes: one key, no loss on failure, crash
    safety, justified resets, and no unreadable record deleted. */
module SecretTheorems {
  import opened Wrappers
  import LikePattern
  import opened SecretRecords
  import opened SecretOperations
  import opened SecretGuarantees

  // ---------------------------------------------------------------- one key

  /** Whatever was on disk before: after a successful replace every record opens
      under the one key in the key file, there are at most 256 records, and only the
      named record changed. */
  lemma ReplaceLeavesOneKey(inst: Instance, d: Disk, order: seq<string>, id: string, value: string, w: World)
    requires Enumerates(order, d.rows)
    requires Replace(inst, d, order, id, value, w).answer == Done
    ensures var o := Replace(inst, d, order, id, value, w);
            && o.disk.key.Holds? && AllOpen(o.disk.rows, o.disk.key.key) && |o.disk.rows| <= MAX_RECORDS
            && id in o.disk.rows && o.disk.rows == d.rows[id := o.disk.rows[id]]
            && o.disk.rows[id].record.ciphertext.plaintext == Text(value)
            && (d.rows != map[] ==> o.disk.key == d.key)
  {
    hide EnsureKey, WriteSealed;
    WriteSealedKeeps(inst.master, d, order, {}, id, value, w);
    assert d.rows - {} == d.rows;
  }

  /** A namespace replacement that gets that far is the sealed write over the rows
      the pattern spares. */
  lemma ReplaceNamespaceWrites(inst: Instance, d: Disk, order: seq<string>, ns: string, id: string, value: string,
                               w: World)
    requires !ReplaceNamespace(inst, d, order, ns, id, value, w).answer.Failed?
    ensures ValidId(id) && ns <= id
    ensures ReplaceNamespace(inst, d, order, ns, id, value, w)
         == WriteSealed(EnsureKey(InspectAll(inst.master, d, order, w.budget).0, d, order, id, w), d,
                        d.rows - Selected(d.rows, ns, Some(id)), id, value, w)
  {
    hide EnsureKey, WriteSealed, InspectAll, Selected, ValidId, ValidValue;
  }

  /** The same for a whole namespace: exactly the named record is left in it, and
      no record outside it is touched. */
  lemma ReplaceNamespaceLeavesOne(inst: Instance, d: Disk, order: seq<string>, ns: string, id: string,
                                  value: string, w: World)
    requires Enumerates(order, d.rows)
    requires ReplaceNamespace(inst, d, order, ns, id, value, w).answer == Done
    ensures var o := ReplaceNamespace(inst, d, order, ns, id, value, w);
            && o.disk.key.Holds? && AllOpen(o.disk.rows, o.disk.key.key) && |o.disk.rows| <= MAX_RECORDS
            && (forall i :: i in o.disk.rows && LikePattern.InNamespace(ns, i) <==> i == id)
            && (forall i :: !LikePattern.InNamespace(ns, i) ==> Lookup(o.disk.rows, i) == Lookup(d.rows, i))
            && id in o.disk.rows && o.disk.rows[id].Stored?
            && o.disk.rows[id].record.ciphertext.plaintext == Text(value)
  {
    ReplaceNamespaceWrites(inst, d, order, ns, id, value, w);
    hide EnsureKey, WriteSealed, InspectAll, LikePattern.InNamespace, Opens, ReplaceNamespace;
    var master := InspectAll(inst.master, d, order, w.budget).0;
    var gone := Selected(d.rows, ns, Some(id));
    WriteSealedKeeps(master, d, order, gone, id, value, w);
    LikePattern.StartsWithIsSelected(ns, id);
    var o := ReplaceNamespace(inst, d, order, ns, id, value, w);
    assert o.disk.rows == (d.rows - gone)[id := o.disk.rows[id]];
    forall i | i in o.disk.rows && LikePattern.InNamespace(ns, i) ensures i == id {
      assert i != id ==> i in d.rows && i !in gone;
    }
  }

  // ---------------------------------------------------------------- failures and crashes

  lemma RemovePasses(master: MasterKey, d: Disk, ids: set<string>, failure: Error, answer: Answer, w: World)
    requires !answer.Failed?
    ensures var o := Remove(master, d, ids, failure, answer, w);
            && (o.answer.Failed? ==> o.disk == d && o.inst.cache == map[])
            && (!o.answer.Failed? ==> o.disk == d.(rows := d.rows - ids) && o.inst.cache == map[])
            && Passes(d, o)
  {
  }

  lemma FailingPasses(master: MasterKey, d: Disk, error: Error)
    ensures Passes(d, Failing(master, d, error))
  {
  }

  lemma WriterKeeps(inst: Instance, d: Disk, op: Operation, order: seq<string>, w: World)
    requires (op.DoReplace? || op.DoReplaceNamespace?) && Enumerates(order, d.rows)
    ensures var o := Perform(inst, d, op, order, w);
            (o.answer.Failed? ==> o.disk.rows == d.rows && o.inst.cache == map[])
            && (o.answer.Failed? || o.answer == Done) && Passes(d, o)
  {
    hide EnsureKey, WriteSealed, InspectAll, Passes, Selected, ValidId, ValidValue, Written, Enumerates;
    forall m, e ensures Passes(d, Failing(m, d, e)) {
      FailingPasses(m, d, e);
    }
    match op
    case DoReplace(id, value) =>
      WriteSealedKeeps(inst.master, d, order, {}, id, value, w);
      assert d.rows - {} == d.rows;
    case DoReplaceNamespace(ns, id, value) =>
      NotSelected(d.rows, ns, id);
      WriteSealedKeeps(InspectAll(inst.master, d, order, w.budget).0, d, order, Selected(d.rows, ns, Some(id)), id,
                       value, w);
  }

  lemma NotSelected(rows: map<string, Row>, ns: string, id: string)
    ensures id !in Selected(rows, ns, Some(id))
  {
  }

  lemma RemoverKeeps(inst: Instance, d: Disk, op: Operation, order: seq<string>, w: World)
    requires Mutates(op) && !op.DoReplace? && !op.DoReplaceNamespace?
    ensures var o := Perform(inst, d, op, order, w);
            && (o.answer.Failed? ==> o.disk == d && o.inst.cache == map[])
            && (!o.answer.Failed? ==>
                  o.disk.key == d.key
                  && forall id :: id in o.disk.rows ==> Lookup(d.rows, id) == Some(o.disk.rows[id]))
            && Passes(d, o)
  {
    hide InspectAll, InspectRow, Passes, Selected, ValidId, Remove;
    forall m, e ensures Passes(d, Failing(m, d, e)) {
      FailingPasses(m, d, e);
    }
    var all := InspectAll(inst.master, d, order, w.budget).0;
    RemovePasses(all, d, d.rows.Keys, DatabaseResetFailed, Done, w);
    if op.DoDelete? {
      RemovePasses(InspectRow(inst.master, d.key, op.id, Lookup(d.rows, op.id)).0, d, {op.id},
                   DatabaseDeleteFailed, Done, w);
    } else if op.DoDeleteNamespace? {
      var gone := Selected(d.rows, op.ns, None);
      RemovePasses(all, d, gone, DatabaseDeleteFailed, Removed(|gone|), w);
    }
  }

  /** A mutation that fails, for whatever reason, leaves every record as it was and
      no plaintext in the cache; and on the way the key file is only ever touched
      while there are no records. */
  lemma FailedMutationChangesNothing(inst: Instance, d: Disk, op: Operation, order: seq<string>, w: World)
    requires Mutates(op) && Enumerates(order, d.rows)
    ensures var o := Perform(inst, d, op, order, w);
            (o.answer.Failed? ==> o.disk.rows == d.rows && o.inst.cache == map[]) && Passes(d, o)
  {
    hide Perform, Passes;
    if op.DoReplace? || op.DoReplaceNamespace? {
      WriterKeeps(inst, d, op, order, w);
    } else {
      RemoverKeeps(inst, d, op, order, w);
    }
  }

  lemma DoneAuthenticates(inst: Instance, d: Disk, op: Operation, order: seq<string>, w: World)
    requires Mutates(op) && Enumerates(order, d.rows) && Authenticates(d)
    requires !Perform(inst, d, op, order, w).answer.Failed?
    ensures Authenticates(Perform(inst, d, op, order, w).disk)
  {
    hide Replace, ReplaceNamespace, Reset, ResetStore, Delete, DeleteNamespace, Opens, Passes, Authenticates;
    if op.DoReplace? {
      WriterKeeps(inst, d, op, order, w);
      ReplaceLeavesOneKey(inst, d, order, op.id, op.value, w);
      OneKeyAuthenticates(Perform(inst, d, op, order, w).disk);
    } else if op.DoReplaceNamespace? {
      WriterKeeps(inst, d, op, order, w);
      ReplaceNamespaceLeavesOne(inst, d, order, op.ns, op.id, op.value, w);
      OneKeyAuthenticates(Perform(inst, d, op, order, w).disk);
    } else {
      RemoverKeeps(inst, d, op, order, w);
      FewerAuthenticates(d, Perform(inst, d, op, order, w).disk);
    }
  }

  lemma OneKeyAuthenticates(d: Disk)
    requires d.key.Holds? && AllOpen(d.rows, d.key.key)
    ensures Authenticates(d)
  {
  }

  lemma FewerAuthenticates(d: Disk, d': Disk)
    requires Authenticates(d) && d'.key == d.key
    requires forall id :: id in d'.rows ==> Lookup(d.rows, id) == Some(d'.rows[id])
    ensures Authenticates(d')
  {
    hide Opens;
    if d.rows == map[] {
      assert d'.rows == map[];
    }
  }

  /** Crash safety: stop any mutation in any of the states the disk goes through;
      a store whose records all opened still opens. */
  lemma CrashLeavesReadableStore(inst: Instance, d: Disk, op: Operation, order: seq<string>, w: World, at: nat)
    requires Mutates(op) && Enumerates(order, d.rows) && Authenticates(d)
    requires at < |Perform(inst, d, op, order, w).trail|
    ensures Authenticates(Perform(inst, d, op, order, w).trail[at])
  {
    hide Perform, Opens;
    var o := Perform(inst, d, op, order, w);
    FailedMutationChangesNothing(inst, d, op, order, w);
    if !o.answer.Failed? {
      DoneAuthenticates(inst, d, op, order, w);
    }
    assert o.trail[at].rows == d.rows || o.trail[at] == o.disk;
    assert o.trail[at].key == d.key || d.rows == map[];
    assert o.disk == o.trail[|o.trail| - 1] && (o.disk.key == d.key || d.rows == map[]);
  }

  // ---------------------------------------------------------------- resets

  /** Some record is lost for good and nothing about the others is in doubt. */
  ghost predicate LossProven(d: Disk) {
    (exists id :: id in d.rows && Lost(d, id)) && forall id :: id in d.rows ==> Judged(d, id)
  }

  /** A reset commits exactly when, inside the writer lock, the loss is proven (and
      the database cooperates); it then removes every record and keeps the key file.
      However stale the caller's view, a healthy or doubtful store is never reset. */
  lemma ResetCommitsIff(inst: Instance, d: Disk, order: seq<string>, w: World)
    requires Enumerates(order, d.rows)
    ensures var o := ResetStore(inst, d, order, w);
            && (o.answer == Done <==> LossProven(d) && w.begins && w.budget >= |d.rows| && w.writes && w.commits)
            && o.disk == if o.answer == Done then d.(rows := map[]) else d
  {
    hide InspectAll, Judged, Lost;
    InspectVerdict(inst.master, d, order, w.budget);
    assert d.rows - d.rows.Keys == map[];
    if id :| id in d.rows && Lost(d, id) {
      assert d.rows.Keys != {} && |d.rows| == |d.rows.Keys| > 0;
    }
  }

  predicate KeyGone(d: Disk) {
    d.key == Absent || d.key == WrongFormat
  }

  /** A good key, and a record of the envelope it knows. */
  predicate KeyKnows(d: Disk, id: string)
    requires id in d.rows && d.rows[id].Stored?
  {
    d.key.Holds? && d.rows[id].record.envelope == V1AesGcm
  }

  /** Loss is proven exactly when there are records, all well formed, and the key
      file is gone or garbled, or it holds a key and some record of a known envelope
      does not open while all others do. */
  lemma LossProvenIff(d: Disk)
    ensures LossProven(d)
       <==> && d.rows != map[] && (forall id :: id in d.rows ==> d.rows[id].Stored?)
            && (|| KeyGone(d)
                || (d.key.Holds? && (forall id :: id in d.rows ==> d.rows[id].record.envelope == V1AesGcm)
                    && exists id :: id in d.rows && !Opens(d.key.key, id, d.rows[id].record)))
  {
    forall id | id in d.rows
      ensures Lost(d, id) <==>
          (d.rows[id].Stored? && (KeyGone(d) || (KeyKnows(d, id) && !Opens(d.key.key, id, d.rows[id].record))))
      ensures Judged(d, id) <==> (d.rows[id].Stored? && (KeyGone(d) || KeyKnows(d, id)))
    {
      LostIff(d.key, id, d.rows[id]);
      JudgedIff(d, id);
    }
    hide Lost, Judged, Opens;
    assert d.rows != map[] <==> exists id :: id in d.rows;
  }

  lemma JudgedIff(d: Disk, id: string)
    requires id in d.rows
    ensures Judged(d, id) <==> (d.rows[id].Stored? && (KeyGone(d) || KeyKnows(d, id)))
  {
    FreshKeyVerifies(d.key);
  }

  /** A record of an unknown envelope, perhaps a newer application's, is meant to
      survive a reset. It is erased exactly when the key file is gone or garbled and
      every other row is well formed too (and the database cooperates). */
  lemma UnknownEnvelopeErasedIff(inst: Instance, d: Disk, order: seq<string>, id: string, w: World)
    requires Enumerates(order, d.rows)
    requires id in d.rows && d.rows[id].Stored? && d.rows[id].record.envelope != V1AesGcm
    ensures var o := ResetStore(inst, d, order, w);
            && (id !in o.disk.rows <==> o.answer == Done)
            && (o.answer == Done
                <==> && KeyGone(d) && (forall i :: i in d.rows ==> d.rows[i].Stored?)
                     && w.begins && w.budget >= |d.rows| && w.writes && w.commits)
  {
    hide LossProven, ResetStore;
    ResetCommitsIff(inst, d, order, w);
    LossProvenIff(d);
  }

  /** The smallest such disk: one record of another version and no key file. */
  lemma UnknownEnvelopeErased(id: string, tag: nat, text: string)
    ensures var d := Disk(map[id := Stored(Record(OtherEnvelope(tag), 0, Sealed(1, 0, id, Text(text))))], Absent);
            var w := World(true, 1, true, true, None, None, [], None, KeyWriteFailed);
            && ResetStore(Opened(d), d, [id], w).answer == Done
            && ResetStore(Opened(d), d, [id], w).disk.rows == map[]
  {
    var d := Disk(map[id := Stored(Record(OtherEnvelope(tag), 0, Sealed(1, 0, id, Text(text))))], Absent);
    var w := World(true, 1, true, true, None, None, [], None, KeyWriteFailed);
    assert d.rows.Keys == {id};
    UnknownEnvelopeErasedIff(Opened(d), d, [id], id, w);
    ResetCommitsIff(Opened(d), d, [id], w);
  }

  /** Nothing fails, and randomness is at hand. */
  predicate Willing(w: World) {
    w.begins && w.budget >= 1 && w.writes && w.commits && w.newKey.Some? && w.newNonce.Some? && w.keyWriteLeaves.None?
  }

  /** Recovery makes progress: from any store whose loss is proven, and however
      stale the instance, resetting, storing a value and reading it back works. */
  lemma RecoverySucceeds(inst: Instance, d: Disk, order: seq<string>, id: string, value: string, w: World, w': World)
    requires Enumerates(order, d.rows) && LossProven(d)
    requires Willing(w) && w.budget >= |d.rows| && Willing(w') && ValidId(id) && ValidValue(value)
    ensures var o1 := ResetStore(inst, d, order, w);
            var o2 := Replace(o1.inst, o1.disk, [], id, value, w');
            && o1.answer == Done && o2.answer == Done
            && Read(o2.inst, o2.disk, id, w').answer == Found(Some(value))
            && Read(Opened(o2.disk), o2.disk, id, w').answer == Found(Some(value))
  {
    hide ValidId, ValidValue;
    ResetCommitsIff(inst, d, order, w);
    LossProvenIff(d);
    var o1 := ResetStore(inst, d, order, w);
    EmptyStoreTakesValue(o1.inst, o1.disk, id, value, w');
  }

  /** With no records any key file state that proved the loss is taken over. */
  lemma EmptyStoreTakesValue(inst: Instance, d: Disk, id: string, value: string, w: World)
    requires d.rows == map[] && (d.key == Absent || d.key == WrongFormat || d.key.Holds?)
    requires Willing(w) && ValidId(id) && ValidValue(value)
    ensures var o := Replace(inst, d, [], id, value, w);
            && o.answer == Done
            && Read(o.inst, o.disk, id, w).answer == Found(Some(value))
            && Read(Opened(o.disk), o.disk, id, w).answer == Found(Some(value))
  {
    hide ValidId, ValidValue, Trail;
    FreshKeyVerifies(d.key);
    var k := EnsureKey(inst.master, d, [], id, w);
    assert k.failure.None? && k.master.Available? && k.file == Holds(k.master.key);
    var o := Replace(inst, d, [], id, value, w);
    assert o.disk.rows == map[id := Stored(Seal(k.master.key, w.newNonce.value, id, value))];
  }

  // ---------------------------------------------------------------- deletes

  /** A delete commits exactly when the record is absent or readable: an unreadable
      record is never deleted one by one. */
  lemma DeleteCommitsIff(inst: Instance, d: Disk, id: string, w: World)
    requires ValidId(id)
    ensures var o := Delete(inst, d, id, w);
            && (o.answer == Done
                <==> w.begins && w.budget > 0 && w.writes && w.commits
                     && (id in d.rows
                         ==> d.key.Holds? && d.rows[id].Stored? && Opens(d.key.key, id, d.rows[id].record)))
            && o.disk == if o.answer == Done then d.(rows := d.rows - {id}) else d
  {
    hide ValidId, Standing, InspectRow, Opens;
    if id in d.rows {
      InspectIsFresh(inst.master, d.key, id, d.rows[id]);
      ConfiguredIff(d.key, id, d.rows[id]);
      FoundIsConfigured(inst.master, d.key, id, d.rows[id]);
    } else {
      NoRowNotConfigured(inst.master, d.key, id);
    }
  }

  lemma FoundIsConfigured(master: MasterKey, file: KeyFile, id: string, row: Row)
    ensures InspectRow(master, file, id, Some(row)).1 != Ok(NotConfigured)
  {
  }

  lemma NoRowNotConfigured(master: MasterKey, file: KeyFile, id: string)
    ensures InspectRow(master, file, id, None) == (master, Ok(NotConfigured))
  {
  }

  /** A namespace delete commits exactly when every record of the store is readable;
      it removes what the pattern selects, counts it, and touches nothing else. */
  lemma DeleteNamespaceCommitsIff(inst: Instance, d: Disk, order: seq<string>, ns: string, w: World)
    requires ValidId(ns) && Enumerates(order, d.rows)
    ensures var o := DeleteNamespace(inst, d, order, ns, w);
            && (!o.answer.Failed?
                <==> w.begins && w.budget > 0 && w.budget >= |d.rows| && w.writes && w.commits && Authenticates(d))
            && (!o.answer.Failed? ==>
                  && o.answer == Removed(|Selected(d.rows, ns, None)|)
                  && (forall id ::
                        Lookup(o.disk.rows, id)
                        == if LikePattern.InNamespace(ns, id) then None else Lookup(d.rows, id)))
            && (o.answer.Failed? ==> o.disk == d)
  {
    hide ValidId, InspectAll, LikePattern.InNamespace;
    InspectVerdict(inst.master, d, order, w.budget);
    AuthenticatesIff(d);
  }

  lemma AuthenticatesIff(d: Disk)
    ensures Authenticates(d) <==> forall id :: id in d.rows ==> Judged(d, id) && !Lost(d, id)
  {
    forall id | id in d.rows
      ensures Judged(d, id) && !Lost(d, id)
              <==> d.key.Holds? && d.rows[id].Stored? && Opens(d.key.key, id, d.rows[id].record) {
      JudgedIff(d, id);
      LostIff(d.key, id, d.rows[id]);
      ConfiguredIff(d.key, id, d.rows[id]);
    }
    hide Judged, Lost, Opens;
    assert d.rows != map[] ==> exists id :: id in d.rows;
  }
}
