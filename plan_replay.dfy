/**
 * What executing a plan does to the rows of the table, keyed by primary
 * key: a delete step removes its keys, an update step writes each record's
 * non-key fields over the existing row with the record's key, an insert
 * step adds each record as a new row, and schema steps leave the row
 * values as they are.  The central property: when no columns were added,
 * dropped or renamed, replaying the plan over the baseline's rows gives
 * the current rows.
 */
module PlanReplay {
  import opened Wrappers
  import opened Dicts
  import opened Values
  import opened Frames
  import opened PkUtils
  import opened ChangeTracking
  import opened ExecutionPlans

  /** The table as the database holds it: the non-key fields of each row, by key. */
  type Table = map<Key, Record>

  /** The key a record names: its key fields, in key-column order. */
  function DecodeKey(names: seq<string>, rec: Record): (k: Key)
    ensures |k| == |names|
  {
    seq(|names|, j requires 0 <= j < |names| => Lookup(rec, names[j]))
  }

  /** The fields of a record that are not key fields. */
  function DataPart(names: seq<string>, rec: Record): (r: Record)
    ensures r.Keys == rec.Keys - ColumnSet(names)
  {
    map c | c in rec && c !in names :: rec[c]
  }

  /** `UPDATE ... WHERE key = ...` per record, in list order; a key that is not there matches nothing. */
  function ApplyUpdates(t: Table, names: seq<string>, recs: seq<Record>): Table
    decreases |recs|
  {
    if |recs| == 0 then t
    else
      var k := DecodeKey(names, recs[0]);
      ApplyUpdates(if k in t then t[k := t[k] + DataPart(names, recs[0])] else t, names, recs[1..])
  }

  /** `INSERT` per record, in list order. */
  function ApplyInserts(t: Table, names: seq<string>, recs: seq<Record>): Table
    decreases |recs|
  {
    if |recs| == 0 then t
    else ApplyInserts(t[DecodeKey(names, recs[0]) := DataPart(names, recs[0])], names, recs[1..])
  }

  /** `DELETE ... WHERE key IN keys` */
  function DeleteKeys(t: Table, keys: seq<Key>): Table {
    map k | k in t && k !in keys :: t[k]
  }

  /** Each row of `t` whose key `m` holds, with `m`'s fields written over it. */
  function Patched(t: Table, m: Table): Table {
    map k | k in t :: if k in m then t[k] + m[k] else t[k]
  }

  /** The rows of `f` with the keys `keys`. */
  function RowsOf(f: Frame, keys: set<Key>): Table
    requires keys <= LabelSet(f)
  {
    map k | k in keys :: RowData(f, k)
  }

  function ApplyStep(t: Table, names: seq<string>, s: PlanStep): Table {
    match s.data
    case SchemaData(_) => t
    case KeyList(keys) => DeleteKeys(t, keys)
    case RecordList(recs) =>
      if s.operationType == UpdateOp then ApplyUpdates(t, names, recs)
      else if s.operationType == InsertOp then ApplyInserts(t, names, recs)
      else t
  }

  /** The steps executed one after the other, in plan order. */
  function Replay(t: Table, names: seq<string>, steps: seq<PlanStep>): Table
    decreases |steps|
  {
    if |steps| == 0 then t else Replay(ApplyStep(t, names, steps[0]), names, steps[1..])
  }

  lemma {:induction false} ReplayConcat(t: Table, names: seq<string>, a: seq<PlanStep>, b: seq<PlanStep>)
    ensures Replay(t, names, a + b) == Replay(Replay(t, names, a), names, b)
    decreases |a|
  {
    if |a| == 0 {
      assert a + b == b;
    } else {
      assert (a + b)[1..] == a[1..] + b;
      ReplayConcat(ApplyStep(t, names, a[0]), names, a[1..], b);
    }
  }

  lemma ReplayOne(t: Table, names: seq<string>, s: PlanStep)
    ensures Replay(t, names, [s]) == ApplyStep(t, names, s)
  {
    assert [s][1..] == [];
  }

  lemma RecordStep(t: Table, names: seq<string>, s: PlanStep)
    requires s.data.RecordList?
    ensures s.operationType == UpdateOp ==> ApplyStep(t, names, s) == ApplyUpdates(t, names, s.data.records)
    ensures s.operationType == InsertOp ==> ApplyStep(t, names, s) == ApplyInserts(t, names, s.data.records)
  {
  }

  /** Schema steps leave the row values as they are. */
  lemma {:induction false} ReplaySchema(t: Table, names: seq<string>, s: seq<PlanStep>)
    requires forall x :: x in s ==> x.data.SchemaData?
    ensures Replay(t, names, s) == t
    decreases |s|
  {
    if |s| > 0 {
      assert s[0] in s;
      ReplaySchema(t, names, s[1..]);
    }
  }

  lemma SchemaStepsAreSchema(renamed: Dict<string, string>, drops: seq<string>, adds: seq<string>,
                             altered: Dict<string, string>, current: Frame)
    ensures forall x :: x in SchemaSteps(renamed, drops, adds, altered, current) ==> x.data.SchemaData?
  {
    RenameStepsAt(renamed);
    DropStepsAt(drops);
    AddStepsAt(adds, current);
    AlterStepsAt(altered);
  }

  // ---------------------------------------------------------------------------
  // The effect of a list of records, given as a map from key to non-key fields

  /** The records name distinct keys, and `m` maps each key to its record's non-key fields. */
  predicate Patches(names: seq<string>, recs: seq<Record>, m: Table) {
    && (forall i, j :: 0 <= i < j < |recs| ==> DecodeKey(names, recs[i]) != DecodeKey(names, recs[j]))
    && (forall i :: 0 <= i < |recs| ==>
          DecodeKey(names, recs[i]) in m && m[DecodeKey(names, recs[i])] == DataPart(names, recs[i]))
    && m.Keys == DecodedKeys(names, recs)
  }

  function DecodedKeys(names: seq<string>, recs: seq<Record>): set<Key> {
    set i | 0 <= i < |recs| :: DecodeKey(names, recs[i])
  }

  lemma PatchesTail(names: seq<string>, recs: seq<Record>, m: Table)
    requires |recs| > 0 && Patches(names, recs, m)
    ensures Patches(names, recs[1..], m - {DecodeKey(names, recs[0])})
  {
    var k0 := DecodeKey(names, recs[0]);
    var rest := recs[1..];
    var m' := m - {k0};
    forall i | 0 <= i < |rest| ensures DecodeKey(names, rest[i]) in m' && m'[DecodeKey(names, rest[i])] == DataPart(names, rest[i]) {
      assert rest[i] == recs[i + 1];
    }
    forall k | k in m' ensures k in DecodedKeys(names, rest) {
      var i :| 0 <= i < |recs| && DecodeKey(names, recs[i]) == k;
      assert i > 0 && rest[i - 1] == recs[i];
    }
  }

  /** An update step writes each record's fields over the row with its key, and adds no row. */
  lemma {:induction false} UpdatesEffect(t: Table, names: seq<string>, recs: seq<Record>, m: Table)
    requires Patches(names, recs, m)
    ensures ApplyUpdates(t, names, recs) == Patched(t, m)
    decreases |recs|
  {
    if |recs| == 0 {
      assert m.Keys == {};
    } else {
      var k0 := DecodeKey(names, recs[0]);
      var t' := if k0 in t then t[k0 := t[k0] + DataPart(names, recs[0])] else t;
      var m' := m - {k0};
      PatchesTail(names, recs, m);
      UpdatesEffect(t', names, recs[1..], m');
      ApplyPatch(t, m, k0);
    }
  }

  /** Inserting one entry of `m` first, then the rest of `m`, is inserting `m`. */
  lemma MovePatch(t: Table, m: Table, k0: Key)
    requires k0 in m
    ensures t[k0 := m[k0]] + (m - {k0}) == t + m
  {
  }

  /** Patching one key of `m` first, then the rest of `m`, is patching with `m`. */
  lemma ApplyPatch(t: Table, m: Table, k0: Key)
    requires k0 in m
    ensures var t' := if k0 in t then t[k0 := t[k0] + m[k0]] else t;
      var m' := m - {k0};
      Patched(t', m') == Patched(t, m)
  {
  }

  /** An insert step adds each record's fields as the row with its key. */
  lemma {:induction false} InsertsEffect(t: Table, names: seq<string>, recs: seq<Record>, m: Table)
    requires Patches(names, recs, m)
    ensures ApplyInserts(t, names, recs) == t + m
    decreases |recs|
  {
    if |recs| == 0 {
      assert m.Keys == {};
      assert t + m == t;
    } else {
      var k0 := DecodeKey(names, recs[0]);
      var t' := t[k0 := DataPart(names, recs[0])];
      var m' := m - {k0};
      PatchesTail(names, recs, m);
      InsertsEffect(t', names, recs[1..], m');
      MovePatch(t, m, k0);
    }
  }

  /**
   * A change record decodes to the change's key and carries its new data as
   * the non-key fields, when the key has one value per key column and the
   * data holds no key column.
   */
  lemma ChangeRecordDecodes(pk: PrimaryKey, rc: RowChange)
    requires Distinct(NormalizePrimaryKey(pk)) && |rc.primaryKeyValue| == |NormalizePrimaryKey(pk)|
    requires rc.newData.Some? && rc.newData.value.Keys !! ColumnSet(NormalizePrimaryKey(pk))
    ensures DecodeKey(NormalizePrimaryKey(pk), ChangeRecord(pk, rc)) == rc.primaryKeyValue
    ensures DataPart(NormalizePrimaryKey(pk), ChangeRecord(pk, rc)) == rc.newData.value
  {
    var names := NormalizePrimaryKey(pk);
    var k := rc.primaryKeyValue;
    ZipMapAt(names, k);
    ZipMapKeys(names, k);
    var rec := ChangeRecord(pk, rc);
    forall j | 0 <= j < |names| ensures DecodeKey(names, rec)[j] == k[j] {
      assert names[j] !in rc.newData.value;
    }
  }

  // ---------------------------------------------------------------------------
  // Replaying the plan

  /** `OfType` keeps at most one change per key. */
  lemma {:induction false} OfTypeDistinct(s: seq<RowChange>, t: ChangeType)
    requires DistinctKeys(s)
    ensures DistinctKeys(OfType(s, t))
    decreases |s|
  {
    if |s| > 0 {
      OfTypeDistinct(s[1..], t);
      var r := OfType(s[1..], t);
      forall x | x in r ensures x.primaryKeyValue != s[0].primaryKeyValue {
        var i :| 0 <= i < |s[1..]| && s[1..][i] == x;
        assert s[i + 1] == x;
      }
    }
  }

  /** The assumptions under which the plan is replayed: the key decodes back, and the columns did not change. */
  predicate ReplayableViews(pk: PrimaryKey, cv: Frame, ov: Frame) {
    var names := NormalizePrimaryKey(pk);
    && Distinct(names)
    && ColumnSet(cv.columns) == ColumnSet(ov.columns)
    && ColumnSet(cv.columns) !! ColumnSet(names)
    && forall k :: k in LabelSet(cv) ==> |k| == |names|
  }

  /** The records of the changes of one kind, with the map they patch the table with. */
  lemma RecordsPatch(pk: PrimaryKey, changes: seq<RowChange>, cv: Frame, ov: Frame, t: ChangeType, keys: set<Key>)
    requires ReplayableViews(pk, cv, ov) && Realizes(changes, Diff(cv, ov)) && t in {Insert, Update}
    requires keys == set k | k in Diff(cv, ov) && Diff(cv, ov)[k].changeType == t
    requires keys <= LabelSet(cv)
    ensures Patches(NormalizePrimaryKey(pk), ChangeRecords(pk, OfType(changes, t)), RowsOf(cv, keys))
  {
    var s := OfType(changes, t);
    OfTypeDistinct(changes, t);
    KeysOfType(changes, Diff(cv, ov), t);
    forall i | 0 <= i < |s| ensures s[i] in changes && s[i].changeType == t {
      assert s[i] in s;
    }
    RecordsOfChanges(pk, changes, cv, ov, s, t, keys);
  }

  lemma RecordsOfChanges(pk: PrimaryKey, changes: seq<RowChange>, cv: Frame, ov: Frame, s: seq<RowChange>,
                         t: ChangeType, keys: set<Key>)
    requires ReplayableViews(pk, cv, ov) && Realizes(changes, Diff(cv, ov)) && t in {Insert, Update}
    requires forall i :: 0 <= i < |s| ==> s[i] in changes && s[i].changeType == t
    requires DistinctKeys(s) && keys == KeySet(s) && keys <= LabelSet(cv)
    ensures Patches(NormalizePrimaryKey(pk), ChangeRecords(pk, s), RowsOf(cv, keys))
  {
    var names := NormalizePrimaryKey(pk);
    var recs := ChangeRecords(pk, s);
    forall i | 0 <= i < |s|
      ensures DecodeKey(names, recs[i]) == s[i].primaryKeyValue
      ensures DataPart(names, recs[i]) == RowData(cv, s[i].primaryKeyValue)
    {
      RecordOfChange(pk, changes, cv, ov, s[i]);
    }
  }

  lemma RecordOfChange(pk: PrimaryKey, changes: seq<RowChange>, cv: Frame, ov: Frame, x: RowChange)
    requires ReplayableViews(pk, cv, ov) && Realizes(changes, Diff(cv, ov))
    requires x in changes && x.changeType in {Insert, Update}
    ensures x.primaryKeyValue in LabelSet(cv)
    ensures DecodeKey(NormalizePrimaryKey(pk), ChangeRecord(pk, x)) == x.primaryKeyValue
    ensures DataPart(NormalizePrimaryKey(pk), ChangeRecord(pk, x)) == RowData(cv, x.primaryKeyValue)
  {
    ChangeNewData(changes, cv, ov, x);
    assert RowData(cv, x.primaryKeyValue).Keys == ColumnSet(cv.columns);
    ChangeRecordDecodes(pk, x);
  }

  /** An insert or update of the diff carries the whole current row when both sides have the same columns. */
  lemma ChangeNewData(changes: seq<RowChange>, cv: Frame, ov: Frame, x: RowChange)
    requires Realizes(changes, Diff(cv, ov)) && x in changes && x.changeType in {Insert, Update}
    requires ColumnSet(cv.columns) == ColumnSet(ov.columns)
    ensures x.primaryKeyValue in LabelSet(cv) && x.newData == Some(RowData(cv, x.primaryKeyValue))
  {
    var d := Diff(cv, ov);
    var k := x.primaryKeyValue;
    var j :| 0 <= j < |changes| && changes[j] == x;
    assert d[k] == x;
    DiffClassification(cv, ov);
    if x.changeType == Update {
      RestrictAll(RowData(cv, k), CommonColumns(cv, ov));
    }
  }

  lemma RestrictAll(rec: Record, cols: set<string>)
    requires rec.Keys <= cols
    ensures Restrict(rec, cols) == rec
  {
  }

  lemma KeysOfMembers(s: seq<RowChange>)
    ensures forall k :: k in KeysOf(s) <==> k in KeySet(s)
  {
    forall k | k in KeySet(s) ensures k in KeysOf(s) {
      var i :| 0 <= i < |s| && s[i].primaryKeyValue == k;
      assert KeysOf(s)[i] == k;
    }
  }

  /** Deleting the keys listed in `keys` keeps the rows whose key is not in `gone`. */
  lemma DropRows(f: Frame, keys: seq<Key>, gone: set<Key>, kept: set<Key>)
    requires forall k :: k in keys <==> k in gone
    requires kept == LabelSet(f) - gone
    ensures DeleteKeys(KeyedRecords(f), keys) == RowsOf(f, kept)
  {
    KeyedRecordsAt(f);
  }

  /** `o` patched with `m` is `c`, when `m` holds `c`'s rows and every other row of `o` is already `c`'s. */
  lemma PatchRows(o: Table, c: Table, m: Table)
    requires o.Keys == c.Keys && m.Keys <= o.Keys
    requires forall k :: k in m ==> m[k] == c[k] && o[k].Keys <= c[k].Keys
    requires forall k :: k in o && k !in m ==> o[k] == c[k]
    ensures Patched(o, m) == c
  {
    forall k | k in m ensures o[k] + m[k] == c[k] {
      assert (o[k] + m[k]).Keys == c[k].Keys;
    }
  }

  lemma RowsUnion(f: Frame, a: set<Key>, b: set<Key>)
    requires a <= LabelSet(f) && b <= LabelSet(f)
    ensures RowsOf(f, a) + RowsOf(f, b) == RowsOf(f, a + b)
  {
  }

  lemma KeyedRecordsAt(f: Frame)
    ensures KeyedRecords(f) == RowsOf(f, LabelSet(f))
  {
  }

  /** A shared key that the diff does not update has the same row on both sides. */
  lemma UnchangedRow(cv: Frame, ov: Frame, k: Key)
    requires k in LabelSet(cv) && k in LabelSet(ov) && k !in Updated(cv, ov)
    requires ColumnSet(cv.columns) == ColumnSet(ov.columns)
    ensures RowData(ov, k) == RowData(cv, k)
  {
    var c, o := RowData(cv, k), RowData(ov, k);
    assert c.Keys == ColumnSet(cv.columns) == o.Keys == CommonColumns(cv, ov);
    assert !RowsDiffer(c, o, CommonColumns(cv, ov));
    forall x | x in c ensures c[x] == o[x] {
      assert !Differs(Lookup(c, x), Lookup(o, x));
    }
  }

  /** The baseline rows of the keys both sides have: the table once the deletes ran. */
  function SharedBaselineRows(cv: Frame, ov: Frame): Table {
    RowsOf(ov, LabelSet(ov) * LabelSet(cv))
  }

  /** The current rows of the keys both sides have: the table once the updates ran. */
  function SharedCurrentRows(cv: Frame, ov: Frame): Table {
    RowsOf(cv, LabelSet(ov) * LabelSet(cv))
  }

  lemma DeletePhase(changes: seq<RowChange>, cv: Frame, ov: Frame, names: seq<string>)
    requires Realizes(changes, Diff(cv, ov))
    ensures Replay(KeyedRecords(ov), names, DeleteSteps(OfType(changes, Delete))) == SharedBaselineRows(cv, ov)
  {
    var del := OfType(changes, Delete);
    KeysOfType(changes, Diff(cv, ov), Delete);
    KindKeys(cv, ov);
    KeysOfMembers(del);
    var t0 := KeyedRecords(ov);
    DropRows(ov, KeysOf(del), LabelSet(ov) - LabelSet(cv), LabelSet(ov) * LabelSet(cv));
    if |del| > 0 {
      ReplayOne(t0, names, DeleteSteps(del)[0]);
    }
  }

  lemma UpdatePhase(pk: PrimaryKey, changes: seq<RowChange>, cv: Frame, ov: Frame)
    requires ReplayableViews(pk, cv, ov) && Realizes(changes, Diff(cv, ov))
    ensures Replay(SharedBaselineRows(cv, ov), NormalizePrimaryKey(pk), UpdateSteps(ChangeRecords(pk, OfType(changes, Update))))
         == SharedCurrentRows(cv, ov)
  {
    var names := NormalizePrimaryKey(pk);
    var L := LabelSet(ov) * LabelSet(cv);
    var o := SharedBaselineRows(cv, ov);
    var c := SharedCurrentRows(cv, ov);
    var u := Updated(cv, ov);
    var m := RowsOf(cv, u);
    var recs := ChangeRecords(pk, OfType(changes, Update));
    KindKeys(cv, ov);
    RecordsPatch(pk, changes, cv, ov, Update, u);
    UpdatesEffect(o, names, recs, m);
    forall k | k in m ensures o[k].Keys <= c[k].Keys {
      assert RowData(ov, k).Keys == ColumnSet(ov.columns) && RowData(cv, k).Keys == ColumnSet(cv.columns);
    }
    forall k | k in o && k !in m ensures o[k] == c[k] {
      UnchangedRow(cv, ov, k);
    }
    PatchRows(o, c, m);
    assert ApplyUpdates(o, names, recs) == c;
    if |recs| > 0 {
      var s := UpdateSteps(recs)[0];
      assert UpdateSteps(recs) == [s];
      ReplayOne(o, names, s);
      RecordStep(o, names, s);
    } else {
      assert m.Keys == {};
      assert Patched(o, m) == o;
    }
  }

  lemma InsertPhase(pk: PrimaryKey, changes: seq<RowChange>, cv: Frame, ov: Frame)
    requires ReplayableViews(pk, cv, ov) && Realizes(changes, Diff(cv, ov))
    ensures Replay(SharedCurrentRows(cv, ov), NormalizePrimaryKey(pk), InsertSteps(pk, OfType(changes, Insert)))
         == KeyedRecords(cv)
  {
    var names := NormalizePrimaryKey(pk);
    var c := SharedCurrentRows(cv, ov);
    var newKeys := LabelSet(cv) - LabelSet(ov);
    var m := RowsOf(cv, newKeys);
    var ins := OfType(changes, Insert);
    KindKeys(cv, ov);
    RecordsPatch(pk, changes, cv, ov, Insert, newKeys);
    InsertsEffect(c, names, ChangeRecords(pk, ins), m);
    KeyedRecordsAt(cv);
    RowsUnion(cv, LabelSet(ov) * LabelSet(cv), newKeys);
    assert LabelSet(ov) * LabelSet(cv) + newKeys == LabelSet(cv);
    if |ins| > 0 {
      var s := InsertSteps(pk, ins)[0];
      assert InsertSteps(pk, ins) == [s];
      ReplayOne(c, names, s);
      RecordStep(c, names, s);
    } else {
      assert m.Keys == {};
      assert c + m == c;
    }
  }

  /**
   * With no column added, dropped or renamed, executing the plan (deletes,
   * then updates, then inserts, after the type changes) over the baseline's
   * rows reproduces the current rows.
   */
  lemma ReplayReproducesCurrent(pk: PrimaryKey, altered: Dict<string, string>, changes: seq<RowChange>,
                                current: Frame, cv: Frame, ov: Frame)
    requires ReplayableViews(pk, cv, ov) && Realizes(changes, Diff(cv, ov))
    ensures Replay(KeyedRecords(ov), NormalizePrimaryKey(pk),
                   PlanSteps(pk, [], [], [], altered, changes, current, ChangeRecords(pk, OfType(changes, Update))))
         == KeyedRecords(cv)
  {
    var names := NormalizePrimaryKey(pk);
    var recs := ChangeRecords(pk, OfType(changes, Update));
    var sc := SchemaSteps([], [], [], altered, current);
    var del := DeleteSteps(OfType(changes, Delete));
    var upd := UpdateSteps(recs);
    var ins := InsertSteps(pk, OfType(changes, Insert));
    PlanInPriorityOrder(pk, [], [], [], altered, changes, current, recs);
    assert PlanSteps(pk, [], [], [], altered, changes, current, recs) == sc + del + upd + ins;
    var t0 := KeyedRecords(ov);
    ReplayConcat(t0, names, sc + del + upd, ins);
    ReplayConcat(t0, names, sc + del, upd);
    ReplayConcat(t0, names, sc, del);
    SchemaStepsAreSchema([], [], [], altered, current);
    ReplaySchema(t0, names, sc);
    DeletePhase(changes, cv, ov, names);
    UpdatePhase(pk, changes, cv, ov);
    InsertPhase(pk, changes, cv, ov);
  }

  /**
   * The same for a plan built from the tracker's changes: with no column
   * added, dropped or renamed, the plan is built without error and
   * executing it over the baseline's keyed rows gives the current keyed rows.
   */
  lemma PlanReplaysToCurrent(pk: PrimaryKey, altered: Dict<string, string>, changes: seq<RowChange>,
                             current: Frame, original: Frame, originalIndex: set<Key>, ks: seq<Key>)
    requires ValidKey(pk) && KeyedView(current, pk).Some? && KeyedView(original, pk).Some?
    requires ReplayableViews(pk, KeyedView(current, pk).value, KeyedView(original, pk).value)
    requires Realizes(changes, ExpectedChanges(pk, current, original))
    requires forall i :: 0 <= i < |ks| ==> ks[i] in ExistingKeys(current, pk, originalIndex)
    ensures var r := Plan(pk, [], [], [], altered, changes, current, {}, originalIndex, ks);
      && r.Ok?
      && Replay(KeyedRecords(KeyedView(original, pk).value), NormalizePrimaryKey(pk), r.value)
         == KeyedRecords(KeyedView(current, pk).value)
  {
    var cv, ov := KeyedView(current, pk).value, KeyedView(original, pk).value;
    assert ExpectedChanges(pk, current, original) == Diff(cv, ov);
    var recs := ChangeRecords(pk, OfType(changes, Update));
    assert UpdateRecords(pk, OfType(changes, Update), {}, current, originalIndex, ks) == Ok(recs);
    PlanOfRecords(pk, [], [], [], altered, changes, current, {}, originalIndex, ks);
    ReplayReproducesCurrent(pk, altered, changes, current, cv, ov);
  }
}
