/** What each operation of the secret store guarantees, from any disk state. */
module SecretGuarantees {
  import opened Wrappers
  import opened SecretRecords
  import opened SecretOperations

  // ---------------------------------------------------------------- scans

  lemma {:induction false} OrderCounts(order: seq<string>, rows: map<string, Row>)
    requires Enumerates(order, rows)
    ensures |order| == |rows| && (order == [] <==> rows == map[])
    decreases |order|
  {
    if order == [] {
      assert rows.Keys == {};
    } else {
      var rest := rows - {order[0]};
      assert forall i :: 0 <= i < |order[1..]| ==> order[1..][i] == order[i + 1];
      forall id | id in rest ensures id in order[1..] {
        var i :| 0 <= i < |order| && order[i] == id;
        assert order[1..][i - 1] == id;
      }
      OrderCounts(order[1..], rest);
      assert rest.Keys == rows.Keys - {order[0]};
      assert |rest| == |rest.Keys| && |rows| == |rows.Keys|;
    }
  }

  /** Nothing about the row is beyond judging. */
  predicate Judged(d: Disk, id: string) {
    id in d.rows && Standing(d.key, id, d.rows[id]).Ok?
  }

  predicate Lost(d: Disk, id: string) {
    id in d.rows && Standing(d.key, id, d.rows[id]) == Ok(RecoveryRequired)
  }

  /** A scan's verdict does not depend on the instance's key or on the order. */
  lemma {:induction false} ScanVerdict(master: MasterKey, d: Disk, order: seq<string>, budget: nat, lost: bool)
    requires forall i :: 0 <= i < |order| ==> order[i] in d.rows
    ensures Scan(master, d, order, budget, lost).1.Ok?
       <==> budget >= |order| && forall i :: 0 <= i < |order| ==> Judged(d, order[i])
    ensures Scan(master, d, order, budget, lost).1 == Ok(RecoveryRequired)
       <==> Scan(master, d, order, budget, lost).1.Ok? && (lost || exists i :: 0 <= i < |order| && Lost(d, order[i]))
    ensures Scan(master, d, order, budget, lost).1.Ok? ==>
        Scan(master, d, order, budget, lost).1 in {Ok(RecoveryRequired), Ok(Configured)}
    decreases |order|
  {
    hide InspectRow, Standing;
    if order != [] && budget > 0 {
      var id := order[0];
      var (current, result) := InspectRow(master, d.key, id, Lookup(d.rows, id));
      InspectIsFresh(master, d.key, id, d.rows[id]);
      assert forall i :: 0 <= i < |order[1..]| ==> order[1..][i] == order[i + 1];
      if result.Ok? {
        ScanVerdict(current, d, order[1..], budget - 1, lost || result == Ok(RecoveryRequired));
        ScanStep(d, order);
      }
    }
  }

  lemma ScanStep(d: Disk, order: seq<string>)
    requires order != []
    ensures (forall i :: 0 <= i < |order| ==> Judged(d, order[i]))
       <==> Judged(d, order[0]) && forall i :: 0 <= i < |order[1..]| ==> Judged(d, order[1..][i])
    ensures (exists i :: 0 <= i < |order| && Lost(d, order[i]))
       <==> Lost(d, order[0]) || exists i :: 0 <= i < |order[1..]| && Lost(d, order[1..][i])
  {
    hide Judged, Lost;
    assert forall i :: 0 <= i < |order[1..]| ==> order[1..][i] == order[i + 1];
    forall i | 0 <= i < |order| ensures i == 0 || order[i] == order[1..][i - 1] {
    }
    if i :| 0 <= i < |order| && Lost(d, order[i]) {
      assert i == 0 || Lost(d, order[1..][i - 1]);
    }
    if i :| 0 <= i < |order[1..]| && Lost(d, order[1..][i]) {
      assert Lost(d, order[i + 1]);
    }
  }

  /** A whole scan, told over the rows: it may give any verdict only if every row
      can be judged, and asks for recovery exactly if some row is lost. */
  lemma InspectVerdict(master: MasterKey, d: Disk, order: seq<string>, budget: nat)
    requires Enumerates(order, d.rows)
    ensures var result := InspectAll(master, d, order, budget).1;
            && (result.Ok? <==> budget > 0 && budget >= |d.rows| && forall id :: id in d.rows ==> Judged(d, id))
            && (result == Ok(RecoveryRequired) <==> result.Ok? && exists id :: id in d.rows && Lost(d, id))
            && (result == Ok(NotConfigured) <==> budget > 0 && d.rows == map[])
  {
    OrderCounts(order, d.rows);
    ScanVerdict(master, d, order, budget, false);
    hide Judged, Lost, Scan;
    assert forall i :: 0 <= i < |order| ==> order[i] in d.rows;
    assert forall id :: id in d.rows ==> id in order;
    if forall i :: 0 <= i < |order| ==> Judged(d, order[i]) {
      forall id | id in d.rows ensures Judged(d, id) {
        var i :| 0 <= i < |order| && order[i] == id;
      }
    }
    if id :| id in d.rows && Lost(d, id) {
      var i :| 0 <= i < |order| && order[i] == id;
      assert Lost(d, order[i]);
    }
  }

  /** All rows open under the instance's key, and there is room for them. */
  lemma {:induction false} VerifyVerdict(master: MasterKey, rows: map<string, Row>, order: seq<string>,
                                         verified: nat, budget: nat)
    requires master.Available? && forall i :: 0 <= i < |order| ==> order[i] in rows
    ensures VerifyAll(master, rows, order, verified, budget).None?
       <==> || order == []
            || (budget >= |order| && verified + |order| <= MAX_RECORDS
                && forall i :: 0 <= i < |order| ==>
                     ValidId(order[i]) && rows[order[i]].Stored? && Opens(master.key, order[i], rows[order[i]].record))
    decreases |order|
  {
    hide ValidId, Decrypt, Opens;
    if order != [] {
      assert forall i :: 0 <= i < |order[1..]| ==> order[1..][i] == order[i + 1];
      assert forall i :: 1 <= i < |order| ==> order[i] == order[1..][i - 1];
      if rows[order[0]].Stored? {
        DecryptOpens(master, order[0], rows[order[0]].record);
      }
      if budget > 0 {
        VerifyVerdict(master, rows, order[1..], verified + 1, budget - 1);
      }
    }
  }

  lemma DecryptOpens(master: MasterKey, id: string, r: Record)
    ensures Decrypt(master, id, r).Ok? <==> master.Available? && Opens(master.key, id, r)
  {
  }

  // ---------------------------------------------------------------- one key

  ghost predicate AllOpen(rows: map<string, Row>, key: Key) {
    forall id :: id in rows ==> rows[id].Stored? && Opens(key, id, rows[id].record)
  }

  /** A store that opens: no record, or a good key file that opens every record. */
  ghost predicate Authenticates(d: Disk) {
    d.rows == map[] || (d.key.Holds? && AllOpen(d.rows, d.key.key))
  }

  /** What ensuring the key promises the write that follows. */
  ghost predicate Ready(k: Ensured, d: Disk, id: string) {
    && |k.files| > 0 && k.files[0] == d.key && k.files[|k.files| - 1] == k.file
    && (d.rows != map[] ==> k.files == [d.key] && k.file == d.key)
    && (k.failure.None? ==>
          && k.master.Available? && k.file == Holds(k.master.key)
          && AllOpen(d.rows, k.master.key)
          && |d.rows| <= MAX_RECORDS && (id in d.rows || |d.rows| < MAX_RECORDS))
  }

  lemma EnsuredKey(stale: MasterKey, d: Disk, order: seq<string>, id: string, w: World)
    requires Enumerates(order, d.rows)
    ensures Ready(EnsureKey(stale, d, order, id, w), d, id)
  {
    hide ValidId, Opens;
    var master := Refreshed(stale, d.key);
    OrderCounts(order, d.rows);
    FreshKeyVerifies(d.key);
    assert master.Available? ==> d.key == Holds(master.key);
    if d.rows != map[] && master.Available? {
      VerifyVerdict(master, d.rows, order, 0, w.budget);
      hide VerifyAll;
      if VerifyAll(master, d.rows, order, 0, w.budget).None? {
        forall i | i in d.rows ensures d.rows[i].Stored? && Opens(master.key, i, d.rows[i].record) {
          var n :| 0 <= n < |order| && order[n] == i;
        }
      }
    }
  }

  lemma Inserted(rows: map<string, Row>, id: string, row: Row)
    ensures |rows[id := row]| == if id in rows then |rows| else |rows| + 1
  {
    assert rows[id := row].Keys == rows.Keys + {id};
    assert |rows| == |rows.Keys| && |rows[id := row]| == |rows[id := row].Keys|;
  }

  lemma Fewer(rows: map<string, Row>, ids: set<string>)
    ensures |rows - ids| <= |rows|
  {
    assert (rows - ids).Keys == rows.Keys - ids;
    SubsetCount(rows.Keys - ids, rows.Keys);
    assert |rows| == |rows.Keys| && |rows - ids| == |(rows - ids).Keys|;
  }

  lemma {:induction false} SubsetCount(a: set<string>, b: set<string>)
    requires a <= b
    ensures |a| <= |b|
    decreases a
  {
    if a != {} {
      var x :| x in a;
      SubsetCount(a - {x}, b - {x});
    }
  }

  /** What a finished write did. */
  ghost predicate Written(d: Disk, after: Disk, kept: map<string, Row>, id: string, value: string, inst: Instance,
                          nonce: Option<Nonce>) {
    && after.key.Holds? && AllOpen(after.rows, after.key.key) && |after.rows| <= MAX_RECORDS
    && (d.rows != map[] ==> after.key == d.key)
    && id in after.rows && after.rows[id].Stored? && after.rows[id].record.ciphertext.plaintext == Text(value)
    && after.rows == kept[id := after.rows[id]]
    && nonce == Some(after.rows[id].record.nonce)
    && inst == Instance(Available(after.key.key), map[id := Cached(value, after.rows[id].record)])
  }

  lemma DoneWrites(k: Ensured, d: Disk, gone: set<string>, id: string, value: string, w: World)
    requires Ready(k, d, id) && id !in gone
    ensures var o := WriteSealed(k, d, d.rows - gone, id, value, w);
            o.answer == Done ==> Written(d, o.disk, d.rows - gone, id, value, o.inst, w.newNonce)
  {
    hide Trail, Opens;
    var o := WriteSealed(k, d, d.rows - gone, id, value, w);
    if o.answer == Done {
      Fewer(d.rows, gone);
      WrittenFits(d.rows, gone, id);
      Inserted(d.rows - gone, id, o.disk.rows[id]);
      SealOpens(k.master.key, w.newNonce.value, id, value);
    }
  }

  lemma SealOpens(key: Key, nonce: Nonce, id: string, value: string)
    ensures Opens(key, id, Seal(key, nonce, id, value))
        && Seal(key, nonce, id, value).ciphertext.plaintext == Text(value)
    ensures Seal(key, nonce, id, value).nonce == nonce
  {
  }

  lemma WritePasses(k: Ensured, d: Disk, kept: map<string, Row>, id: string, value: string, w: World)
    requires Ready(k, d, id)
    ensures var o := WriteSealed(k, d, kept, id, value, w);
            && Passes(d, o)
            && (o.answer != Done ==> o.answer.Failed? && o.disk.rows == d.rows && o.inst.cache == map[])
  {
    hide Trail, Passes, Seal, VerifyKey;
    var o := WriteSealed(k, d, kept, id, value, w);
    assert o.answer != Done ==> o.trail == Trail(d, k.files) && o.disk.rows == d.rows;
    TrailPasses(d, k.files, o);
  }

  lemma WriteSealedKeeps(inst: MasterKey, d: Disk, order: seq<string>, gone: set<string>, id: string,
                         value: string, w: World)
    requires Enumerates(order, d.rows) && id !in gone
    ensures var o := WriteSealed(EnsureKey(inst, d, order, id, w), d, d.rows - gone, id, value, w);
            && (o.answer == Done ==> Written(d, o.disk, d.rows - gone, id, value, o.inst, w.newNonce))
            && (o.answer != Done ==> o.answer.Failed? && o.disk.rows == d.rows && o.inst.cache == map[])
            && Passes(d, o)
  {
    hide EnsureKey, WriteSealed, Passes, Written;
    EnsuredKey(inst, d, order, id, w);
    DoneWrites(EnsureKey(inst, d, order, id, w), d, gone, id, value, w);
    WritePasses(EnsureKey(inst, d, order, id, w), d, d.rows - gone, id, value, w);
  }

  lemma WrittenFits(rows: map<string, Row>, gone: set<string>, id: string)
    requires id !in gone && |rows| <= MAX_RECORDS && (id in rows || |rows| < MAX_RECORDS)
    ensures id in rows - gone || |rows - gone| < MAX_RECORDS
  {
    Fewer(rows, gone);
  }

  // ---------------------------------------------------------------- the states in between

  /** The disk starts where it was, ends where it is, and on the way only the key
      file changes, and that only while there are no records. */
  ghost predicate Passes(d: Disk, o: Outcome) {
    && |o.trail| > 0 && o.trail[0] == d && o.trail[|o.trail| - 1] == o.disk
    && (forall i :: 0 <= i < |o.trail| ==> o.trail[i].rows == d.rows || o.trail[i] == o.disk)
    && (forall i :: 0 <= i < |o.trail| ==> o.trail[i].key == d.key || d.rows == map[])
  }

  lemma TrailPasses(d: Disk, files: seq<KeyFile>, o: Outcome)
    requires |files| > 0 && files[0] == d.key
    requires d.rows != map[] ==> files == [d.key]
    requires o.disk.key == files[|files| - 1]
    requires o.trail == (if o.answer == Done then Trail(d, files) + [o.disk] else Trail(d, files))
    requires o.answer != Done ==> o.disk.rows == d.rows
    ensures Passes(d, o)
  {
    var t := Trail(d, files);
    assert forall i :: 0 <= i < |files| ==> t[i] == d.(key := files[i]);
    assert forall i :: 0 <= i < |t| ==> o.trail[i] == t[i];
    if o.answer == Done {
      assert forall i :: 0 <= i < |o.trail| ==> i == |t| || o.trail[i] == t[i];
    }
  }
}
