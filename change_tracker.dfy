/**
 * The change tracker: a baseline snapshot of a table, an append-only log of
 * the operations applied to it, column bookkeeping, and a row diff of the
 * current data against the baseline.
 */
module ChangeTracking {
  import opened Wrappers
  import opened Dicts
  import opened Values
  import opened Frames
  import opened PkUtils

  datatype ChangeType = Insert | Update | Delete | ColumnAdd | ColumnDrop | ColumnRename

  /** What `update_where` assigns to a column: a value, or a function applied to each selected cell. */
  datatype Assigned = Constant(value: Value) | Computed(fn: Value -> Value)

  /** The positional arguments the table front end records with an operation. */
  datatype Arg =
    | NameArg(name: string)
    | ValueArg(value: Value)
    | PkValueArg(pkValue: PkValue)
    | FieldsArg(fields: Dict<string, Value>)
    | AssignmentsArg(assignments: Dict<string, Assigned>)
    | ConditionArg(mask: seq<bool>)
    | CountArg(count: nat)
    | KeyArg(pk: PrimaryKey)
    | DtypeArg(dtype: Option<string>)

  /** One logged call; keyword arguments and the wall-clock timestamp are not modelled. */
  datatype Operation = Operation(operationType: string, methodName: string, args: seq<Arg>)

  /** A change to one row: `oldData` for deletes and updates, `newData` for inserts and updates. */
  datatype RowChange = RowChange(changeType: ChangeType, primaryKeyValue: Key, oldData: Option<Record>, newData: Option<Record>)

  /** A composite key names at least one column. */
  predicate ValidKey(pk: PrimaryKey) {
    pk.Composite? ==> |pk.names| >= 1
  }

  /** Where `compute_row_changes` finds the key among the columns (checked first). */
  predicate KeyInColumns(f: Frame, pk: PrimaryKey) {
    match pk
    case Single(name) => name in f.columns
    case Composite(names) => AllColumns(f, names)
  }

  /** Where `compute_row_changes` finds the key in the index: a composite key needs a MultiIndex. */
  predicate KeyInIndex(f: Frame, pk: PrimaryKey) {
    match pk
    case Single(name) => IndexName(f) == Some(name)
    case Composite(names) => IsMultiIndex(f) && AllIndexNames(f, names)
  }

  /**
   * The frame the diff reads rows from: `set_index(key)` when the key is
   * among the columns, the frame itself when its index holds the key, and
   * nothing when the key is in neither place.
   */
  function KeyedView(f: Frame, pk: PrimaryKey): (v: Option<Frame>)
    requires ValidKey(pk)
    ensures v.Some? <==> KeyInColumns(f, pk) || KeyInIndex(f, pk)
    ensures v.Some? ==> |v.value.rows| == |f.rows|
    ensures v.Some? && KeyInColumns(f, pk) ==>
      var cols := NormalizePrimaryKey(pk);
      && (forall i :: 0 <= i < |f.rows| ==> v.value.rows[i].indexLabel == KeyOf(f.rows[i], cols))
      && (forall c :: c in v.value.columns <==> c in f.columns && c !in cols)
    ensures v.Some? && !KeyInColumns(f, pk) ==> v.value == f
  {
    if KeyInColumns(f, pk) then Some(SetIndex(f, NormalizePrimaryKey(pk)))
    else if KeyInIndex(f, pk) then Some(f)
    else None
  }

  /**
   * The keys the diff sees are the keys `extract_pk_values` reports, except
   * for a one-column composite key held in a MultiIndex, which that helper
   * treats as a flat-index key.
   */
  lemma ViewKeysAreKeyValues(f: Frame, pk: PrimaryKey)
    requires ValidKey(pk) && KeyedView(f, pk).Some?
    requires pk.Single? || |pk.names| >= 2 || KeyInColumns(f, pk)
    ensures LabelSet(KeyedView(f, pk).value) == ExtractPkValues(f, pk)
  {
    var v := KeyedView(f, pk).value;
    var cols := NormalizePrimaryKey(pk);
    if KeyInColumns(f, pk) {
      assert LocatePrimaryKey(f, pk).inColumns;
      forall k | k in ColumnKeys(f, cols) ensures k in LabelSet(v) {
        var i :| 0 <= i < |f.rows| && k == KeyOf(f.rows[i], cols);
        assert v.rows[i].indexLabel == k;
      }
    } else {
      assert !LocatePrimaryKey(f, pk).inColumns && LocatePrimaryKey(f, pk).inIndex;
    }
  }

  /** `current_df.loc[key].to_dict()`: the record of the first row carrying the key. */
  function RowData(v: Frame, k: Key): Record
    requires k in LabelSet(v)
  {
    RowRecord(v, FirstWithLabel(v.rows, k))
  }

  /** `set(current_df.columns) & set(original_df.columns)` */
  function CommonColumns(c: Frame, o: Frame): set<string> {
    (set x | x in c.columns) * (set x | x in o.columns)
  }

  function Restrict(rec: Record, cols: set<string>): (r: Record)
    ensures r.Keys == rec.Keys * cols
    ensures forall x :: x in r ==> r[x] == rec[x]
  {
    map x | x in rec && x in cols :: rec[x]
  }

  function Lookup(rec: Record, c: string): Value {
    if c in rec then rec[c] else Null
  }

  /** Some column of `cols` differs, a missing value on both sides counting as equal. */
  predicate RowsDiffer(cur: Record, orig: Record, cols: set<string>) {
    exists x :: x in cols && Differs(Lookup(cur, x), Lookup(orig, x))
  }

  /** The keys of both frames whose rows differ in some common column. */
  function Updated(c: Frame, o: Frame): set<Key> {
    set k | k in LabelSet(c) * LabelSet(o) && RowsDiffer(RowData(c, k), RowData(o, k), CommonColumns(c, o))
  }

  function ChangeFor(c: Frame, o: Frame, k: Key): RowChange
    requires k in LabelSet(c) + LabelSet(o)
  {
    if k !in LabelSet(o) then RowChange(Insert, k, None, Some(RowData(c, k)))
    else if k !in LabelSet(c) then RowChange(Delete, k, Some(RowData(o, k)), None)
    else
      var common := CommonColumns(c, o);
      RowChange(Update, k, Some(Restrict(RowData(o, k), common)), Some(Restrict(RowData(c, k), common)))
  }

  /** The row diff of a current view against a baseline view, by key. */
  function Diff(c: Frame, o: Frame): map<Key, RowChange> {
    map k | k in DiffKeys(c, o) :: ChangeFor(c, o, k)
  }

  /**
   * What the diff holds: new keys are inserts carrying the new row, vanished
   * keys are deletes carrying the old row, and shared keys whose shared
   * columns differ are updates carrying those columns only, before and after.
   */
  lemma DiffClassification(c: Frame, o: Frame)
    ensures var m := Diff(c, o);
      && (forall k :: k in m ==> m[k].primaryKeyValue == k)
      && (forall k :: (k in m && m[k].changeType == Insert) <==> k in LabelSet(c) && k !in LabelSet(o))
      && (forall k :: (k in m && m[k].changeType == Delete) <==> k in LabelSet(o) && k !in LabelSet(c))
      && (forall k :: (k in m && m[k].changeType == Update) <==>
            k in LabelSet(c) && k in LabelSet(o) && RowsDiffer(RowData(c, k), RowData(o, k), CommonColumns(c, o)))
      && (forall k :: k in m ==> m[k].changeType in {Insert, Delete, Update})
      && (forall k :: k in m && m[k].changeType == Insert ==> m[k].oldData.None? && m[k].newData == Some(RowData(c, k)))
      && (forall k :: k in m && m[k].changeType == Delete ==> m[k].oldData == Some(RowData(o, k)) && m[k].newData.None?)
      && (forall k :: k in m && m[k].changeType == Update ==>
            && m[k].oldData.Some? && m[k].newData.Some?
            && m[k].oldData.value.Keys == m[k].newData.value.Keys == CommonColumns(c, o))
  {
  }

  function DiffKeys(c: Frame, o: Frame): set<Key> {
    (LabelSet(c) - LabelSet(o)) + (LabelSet(o) - LabelSet(c)) + Updated(c, o)
  }

  /** What `compute_row_changes` leaves in `row_changes`: nothing when either frame lacks the key. */
  function ExpectedChanges(pk: PrimaryKey, current: Frame, original: Frame): (m: map<Key, RowChange>)
    requires ValidKey(pk)
    ensures KeyedView(current, pk).None? || KeyedView(original, pk).None? ==> m == map[]
  {
    var cv := KeyedView(current, pk);
    var ov := KeyedView(original, pk);
    if cv.None? || ov.None? then map[] else Diff(cv.value, ov.value)
  }

  function KeySet(s: seq<RowChange>): set<Key> {
    set i | 0 <= i < |s| :: s[i].primaryKeyValue
  }

  /** Each key receives at most one change. */
  predicate DistinctKeys(s: seq<RowChange>) {
    forall i, j :: 0 <= i < j < |s| ==> s[i].primaryKeyValue != s[j].primaryKeyValue
  }

  /** The values of a dictionary keyed by `primaryKeyValue` hold exactly the entries of `m`. */
  predicate Realizes(s: seq<RowChange>, m: map<Key, RowChange>) {
    DistinctKeys(s) && KeySet(s) == m.Keys && Matches(s, m)
  }

  function Rank(t: ChangeType): nat {
    match t
    case Insert => 0
    case Delete => 1
    case _ => 2
  }

  /** Inserts are entered first, then deletes, then updates. */
  predicate Grouped(s: seq<RowChange>) {
    forall i, j :: 0 <= i < j < |s| ==> Rank(s[i].changeType) <= Rank(s[j].changeType)
  }

  /** `[rc for rc in changes if rc.change_type == t]` */
  function OfType(s: seq<RowChange>, t: ChangeType): (r: seq<RowChange>)
    ensures |r| <= |s|
    ensures forall x :: x in r <==> x in s && x.changeType == t
  {
    if |s| == 0 then []
    else (if s[0].changeType == t then [s[0]] else []) + OfType(s[1..], t)
  }

  /** The kind of each change, in order. */
  function Kinds(s: seq<RowChange>): (ks: seq<ChangeType>)
    ensures |ks| == |s| && forall i :: 0 <= i < |s| ==> ks[i] == s[i].changeType
  {
    seq(|s|, i requires 0 <= i < |s| => s[i].changeType)
  }

  /** The changes of one kind are as many as the occurrences of that kind. */
  lemma {:induction false} OfTypeCount(s: seq<RowChange>, t: ChangeType)
    ensures |OfType(s, t)| == multiset(Kinds(s))[t]
  {
    if |s| > 0 {
      OfTypeCount(s[1..], t);
      assert Kinds(s) == [s[0].changeType] + Kinds(s[1..]);
    }
  }

  lemma KeySetAppend(s: seq<RowChange>, x: RowChange)
    ensures KeySet(s + [x]) == KeySet(s) + {x.primaryKeyValue}
  {
    var t := s + [x];
    assert t[|s|] == x;
    forall k | k in KeySet(s) ensures k in KeySet(t) {
      var i :| 0 <= i < |s| && s[i].primaryKeyValue == k;
      assert t[i] == s[i];
    }
  }

  /** Inserts, deletes and updates together account for every change. */
  lemma {:induction false} KindCounts(s: seq<RowChange>)
    requires forall i :: 0 <= i < |s| ==> s[i].changeType in {Insert, Delete, Update}
    ensures |OfType(s, Insert)| + |OfType(s, Update)| + |OfType(s, Delete)| == |s|
  {
    if |s| > 0 {
      KindCounts(s[1..]);
    }
  }

  /** The keys of the changes of one kind, in a dictionary that realizes a diff. */
  lemma {:induction false} KeysOfType(s: seq<RowChange>, m: map<Key, RowChange>, t: ChangeType)
    requires Realizes(s, m)
    ensures KeySet(OfType(s, t)) == set k | k in m && m[k].changeType == t
  {
    var r := OfType(s, t);
    forall k | k in KeySet(r) ensures k in m && m[k].changeType == t {
      var i :| 0 <= i < |r| && r[i].primaryKeyValue == k;
      assert r[i] in s;
      var j :| 0 <= j < |s| && s[j] == r[i];
    }
    forall k | k in m && m[k].changeType == t ensures k in KeySet(r) {
      var j :| 0 <= j < |s| && s[j].primaryKeyValue == k;
      assert s[j] in r;
      var i :| 0 <= i < |r| && r[i] == s[j];
    }
  }

  /**
   * `track_column_addition` as written: only a name outside the baseline is
   * touched; it becomes added and is discarded from `dropped`, which holds
   * only baseline names, so a dropped baseline column stays dropped.
   */
  function AfterAdditionAsWritten(original: set<string>, added: set<string>, dropped: set<string>, name: string): (r: (set<string>, set<string>))
    ensures name in original ==> r == (added, dropped)
    ensures name !in original ==> r.0 == added + {name} && r.1 == dropped - {name}
  {
    if name !in original then (added + {name}, dropped - {name}) else (added, dropped)
  }

  /**
   * As written, re-adding a dropped baseline column leaves it among the
   * dropped columns, so the plan still drops it.
   */
  lemma ReaddedBaselineStaysDropped()
    ensures var r := AfterAdditionAsWritten({"email"}, {}, {"email"}, "email");
      "email" in r.1 && "email" !in r.0
  {
  }

  /**
   * `track_column_addition` as its comment intends: a new name becomes
   * added, and a re-added name is no longer dropped.
   */
  function AfterAddition(original: set<string>, added: set<string>, dropped: set<string>, name: string): (r: (set<string>, set<string>))
    ensures r.1 == dropped - {name}
    ensures name in original ==> r.0 == added
    ensures name !in original ==> r.0 == added + {name}
  {
    (if name !in original then added + {name} else added, dropped - {name})
  }

  /** `track_column_drop`: a baseline column becomes dropped; any name stops being added. */
  function AfterDrop(original: set<string>, added: set<string>, dropped: set<string>, name: string): (r: (set<string>, set<string>))
    ensures r.0 == added - {name}
    ensures name in original ==> r.1 == dropped + {name}
    ensures name !in original ==> r.1 == dropped
  {
    if name in original then (added - {name}, dropped + {name}) else (added - {name}, dropped)
  }

  /** `set(df.columns)` */
  function ColumnSet(cols: seq<string>): set<string> {
    set c | c in cols
  }

  /** The column bookkeeping invariant: added names are new, dropped names are baseline names. */
  predicate ColumnsConsistent(original: set<string>, added: set<string>, dropped: set<string>) {
    added !! original && dropped <= original
  }

  /** Both bookkeeping steps keep the invariant. */
  lemma BookkeepingPreserved(original: set<string>, added: set<string>, dropped: set<string>, name: string)
    requires ColumnsConsistent(original, added, dropped)
    ensures var r := AfterAddition(original, added, dropped, name); ColumnsConsistent(original, r.0, r.1)
    ensures var r := AfterDrop(original, added, dropped, name); ColumnsConsistent(original, r.0, r.1)
    ensures var r := AfterAddition(original, added, dropped, name); r.0 !! r.1
  {
  }

  /** Adding and then dropping a column that is not in the baseline leaves no trace. */
  lemma AddThenDropLeavesNoTrace(original: set<string>, added: set<string>, dropped: set<string>, name: string)
    requires ColumnsConsistent(original, added, dropped)
    requires name !in original && name !in added
    ensures var a := AfterAddition(original, added, dropped, name);
      AfterDrop(original, a.0, a.1, name) == (added, dropped)
  {
    var a := AfterAddition(original, added, dropped, name);
    assert a.0 - {name} == added;
    assert a.1 == dropped;
  }

  /** Dropping and then re-adding a baseline column that was kept leaves no trace. */
  lemma DropThenReaddLeavesNoTrace(original: set<string>, added: set<string>, dropped: set<string>, name: string)
    requires ColumnsConsistent(original, added, dropped)
    requires name in original && name !in dropped
    ensures var d := AfterDrop(original, added, dropped, name);
      AfterAddition(original, d.0, d.1, name) == (added, dropped)
  {
    var d := AfterDrop(original, added, dropped, name);
    assert d.0 == added;
    assert d.1 - {name} == dropped;
  }

  /** Counts reported by `get_summary`. */
  datatype Summary = Summary(
    totalOperations: nat, inserts: nat, updates: nat, deletes: nat,
    columnsAdded: nat, columnsDropped: nat, columnsRenamed: nat, columnsTypeChanged: nat,
    hasChanges: bool)

  class ChangeTracker {
    var primaryKey: PrimaryKey
    var originalData: Frame
    var originalColumns: set<string>
    var operations: seq<Operation>
    var rowChanges: seq<RowChange>
    var addedColumns: set<string>
    var droppedColumns: set<string>
    var renamedColumns: Dict<string, string>
    var alteredColumnTypes: Dict<string, string>
    var originalIndex: set<Key>

    predicate Valid()
      reads this
    {
      && ValidKey(primaryKey)
      && originalColumns == ColumnSet(originalData.columns)
      && ColumnsConsistent(originalColumns, addedColumns, droppedColumns)
      && UniqueKeys(renamedColumns)
      && UniqueKeys(alteredColumnTypes)
      && DistinctKeys(rowChanges)
      && forall i :: 0 <= i < |rowChanges| ==> rowChanges[i].changeType in {Insert, Delete, Update}
    }

    /** A fresh tracker: the data is the baseline and nothing is tracked yet. */
    constructor (pk: PrimaryKey, data: Frame)
      requires ValidKey(pk)
      ensures Valid()
      ensures primaryKey == pk && originalData == data
      ensures originalColumns == ColumnSet(data.columns)
      ensures operations == [] && rowChanges == []
      ensures addedColumns == {} && droppedColumns == {}
      ensures renamedColumns == [] && alteredColumnTypes == []
      ensures originalIndex == ExtractPkValues(data, pk)
      ensures !HasChanges()
    {
      primaryKey := pk;
      originalData := data;
      originalColumns := ColumnSet(data.columns);
      operations := [];
      rowChanges := [];
      addedColumns := {};
      droppedColumns := {};
      renamedColumns := [];
      alteredColumnTypes := [];
      originalIndex := ExtractPkValues(data, pk);
    }

    /** `record_operation`: exactly one entry is appended to the log, and nothing else changes. */
    method RecordOperation(methodName: string, args: seq<Arg>)
      modifies this
      ensures operations == old(operations) + [Operation("method_call", methodName, args)]
      ensures primaryKey == old(primaryKey) && originalData == old(originalData)
      ensures originalColumns == old(originalColumns) && originalIndex == old(originalIndex)
      ensures rowChanges == old(rowChanges)
      ensures addedColumns == old(addedColumns) && droppedColumns == old(droppedColumns)
      ensures renamedColumns == old(renamedColumns) && alteredColumnTypes == old(alteredColumnTypes)
      ensures old(Valid()) ==> Valid() && HasChanges() == old(HasChanges())
    {
      operations := operations + [Operation("method_call", methodName, args)];
    }

    method TrackColumnAddition(name: string)
      requires Valid()
      modifies this
      ensures Valid()
      ensures (addedColumns, droppedColumns) == AfterAddition(originalColumns, old(addedColumns), old(droppedColumns), name)
      ensures primaryKey == old(primaryKey) && originalData == old(originalData)
      ensures originalColumns == old(originalColumns) && originalIndex == old(originalIndex)
      ensures operations == old(operations) && rowChanges == old(rowChanges)
      ensures renamedColumns == old(renamedColumns) && alteredColumnTypes == old(alteredColumnTypes)
    {
      BookkeepingPreserved(originalColumns, addedColumns, droppedColumns, name);
      if name !in originalColumns {
        addedColumns := addedColumns + {name};
      }
      droppedColumns := droppedColumns - {name};
    }

    method TrackColumnDrop(name: string)
      requires Valid()
      modifies this
      ensures Valid()
      ensures (addedColumns, droppedColumns) == AfterDrop(originalColumns, old(addedColumns), old(droppedColumns), name)
      ensures primaryKey == old(primaryKey) && originalData == old(originalData)
      ensures originalColumns == old(originalColumns) && originalIndex == old(originalIndex)
      ensures operations == old(operations) && rowChanges == old(rowChanges)
      ensures renamedColumns == old(renamedColumns) && alteredColumnTypes == old(alteredColumnTypes)
    {
      BookkeepingPreserved(originalColumns, addedColumns, droppedColumns, name);
      if name in originalColumns {
        droppedColumns := droppedColumns + {name};
        addedColumns := addedColumns - {name};
      } else {
        addedColumns := addedColumns - {name};
      }
    }

    /** `renamed_columns[old] = new`: a later rename of the same name overwrites; chains are kept as given. */
    method TrackColumnRename(oldName: string, newName: string)
      requires Valid()
      modifies this
      ensures Valid()
      ensures renamedColumns == Put(old(renamedColumns), oldName, newName)
      ensures Get(renamedColumns, oldName) == Some(newName)
      ensures forall n :: n != oldName ==> Get(renamedColumns, n) == Get(old(renamedColumns), n)
      ensures primaryKey == old(primaryKey) && originalData == old(originalData)
      ensures originalColumns == old(originalColumns) && originalIndex == old(originalIndex)
      ensures operations == old(operations) && rowChanges == old(rowChanges)
      ensures addedColumns == old(addedColumns) && droppedColumns == old(droppedColumns)
      ensures alteredColumnTypes == old(alteredColumnTypes)
    {
      PutUniqueKeys(renamedColumns, oldName, newName);
      PutGet(renamedColumns, oldName, newName);
      renamedColumns := Put(renamedColumns, oldName, newName);
    }

    /** `altered_column_types[name] = new_type`, the type given by its name. */
    method TrackColumnTypeChange(name: string, newType: string)
      requires Valid()
      modifies this
      ensures Valid()
      ensures alteredColumnTypes == Put(old(alteredColumnTypes), name, newType)
      ensures Get(alteredColumnTypes, name) == Some(newType)
      ensures primaryKey == old(primaryKey) && originalData == old(originalData)
      ensures originalColumns == old(originalColumns) && originalIndex == old(originalIndex)
      ensures operations == old(operations) && rowChanges == old(rowChanges)
      ensures addedColumns == old(addedColumns) && droppedColumns == old(droppedColumns)
      ensures renamedColumns == old(renamedColumns)
    {
      PutUniqueKeys(alteredColumnTypes, name, newType);
      PutGet(alteredColumnTypes, name, newType);
      alteredColumnTypes := Put(alteredColumnTypes, name, newType);
    }

    /**
     * `compute_row_changes`: `row_changes` is rebuilt from scratch as the
     * diff of the current data against the baseline, inserts first, then
     * deletes, then updates.
     */
    method ComputeRowChanges(current: Frame)
      requires Valid()
      modifies this
      ensures Valid()
      ensures Realizes(rowChanges, ExpectedChanges(primaryKey, current, originalData))
      ensures Grouped(rowChanges)
      ensures primaryKey == old(primaryKey) && originalData == old(originalData)
      ensures originalColumns == old(originalColumns) && originalIndex == old(originalIndex)
      ensures operations == old(operations)
      ensures addedColumns == old(addedColumns) && droppedColumns == old(droppedColumns)
      ensures renamedColumns == old(renamedColumns) && alteredColumnTypes == old(alteredColumnTypes)
    {
      rowChanges := [];
      var cv := KeyedView(current, primaryKey);
      if cv.None? {
        return;
      }
      var ov := KeyedView(originalData, primaryKey);
      if ov.None? {
        return;
      }
      var c, o := cv.value, ov.value;
      ghost var m := Diff(c, o);
      DiffEntries(c, o);
      var inserts := AppendInserts(c, o, m);
      var deletes := AppendDeletes(c, o, m);
      var updates := AppendUpdates(c, o, m);
      Combine(inserts, deletes, updates, m);
      rowChanges := inserts + deletes + updates;
    }

    /** `get_inserts`: the inserts among the changes, in dictionary order. */
    function GetInserts(): (r: seq<RowChange>)
      reads this
      ensures forall x :: x in r <==> x in rowChanges && x.changeType == Insert
    {
      OfType(rowChanges, Insert)
    }

    function GetUpdates(): (r: seq<RowChange>)
      reads this
      ensures forall x :: x in r <==> x in rowChanges && x.changeType == Update
    {
      OfType(rowChanges, Update)
    }

    function GetDeletes(): (r: seq<RowChange>)
      reads this
      ensures forall x :: x in r <==> x in rowChanges && x.changeType == Delete
    {
      OfType(rowChanges, Delete)
    }

    /** `has_changes`: any row change or column bookkeeping; the operation log alone does not count. */
    predicate HasChanges()
      requires Valid()
      reads this
      ensures HasChanges() <==>
        |GetInserts()| + |GetUpdates()| + |GetDeletes()| + |addedColumns| + |droppedColumns|
        + |renamedColumns| + |alteredColumnTypes| > 0
    {
      KindCounts(rowChanges);
      |rowChanges| > 0 || |addedColumns| > 0 || |droppedColumns| > 0
      || |renamedColumns| > 0 || |alteredColumnTypes| > 0
    }

    /** `reset`: a new baseline, and every collection emptied. */
    method Reset(newData: Frame)
      requires Valid()
      modifies this
      ensures Valid()
      ensures primaryKey == old(primaryKey) && originalData == newData
      ensures originalColumns == ColumnSet(newData.columns)
      ensures operations == [] && rowChanges == []
      ensures addedColumns == {} && droppedColumns == {}
      ensures renamedColumns == [] && alteredColumnTypes == []
      ensures originalIndex == ExtractPkValues(newData, primaryKey)
      ensures !HasChanges()
    {
      originalData := newData;
      originalColumns := ColumnSet(newData.columns);
      operations := [];
      rowChanges := [];
      addedColumns := {};
      droppedColumns := {};
      renamedColumns := [];
      alteredColumnTypes := [];
      originalIndex := ExtractPkValues(newData, primaryKey);
    }

    /**
     * `get_summary`: the row counts add up to the number of row changes, and
     * `has_changes` holds exactly when some count other than the operation
     * count is non-zero.
     */
    function GetSummary(): (s: Summary)
      requires Valid()
      reads this
      ensures s.inserts + s.updates + s.deletes == |rowChanges|
      ensures s.inserts == multiset(Kinds(rowChanges))[Insert]
      ensures s.updates == multiset(Kinds(rowChanges))[Update]
      ensures s.deletes == multiset(Kinds(rowChanges))[Delete]
      ensures s.columnsAdded == |addedColumns| && s.columnsDropped == |droppedColumns|
      ensures s.columnsRenamed == |renamedColumns| && s.columnsTypeChanged == |alteredColumnTypes|
      ensures s.totalOperations == |operations|
      ensures s.hasChanges <==>
        s.inserts + s.updates + s.deletes + s.columnsAdded + s.columnsDropped
        + s.columnsRenamed + s.columnsTypeChanged > 0
    {
      KindCounts(rowChanges);
      OfTypeCount(rowChanges, Insert);
      OfTypeCount(rowChanges, Update);
      OfTypeCount(rowChanges, Delete);
      Summary(|operations|, |GetInserts()|, |GetUpdates()|, |GetDeletes()|,
              |addedColumns|, |droppedColumns|, |renamedColumns|, |alteredColumnTypes|,
              HasChanges())
    }
  }

  /** Every entry is the change `m` assigns to its key. */
  predicate Matches(s: seq<RowChange>, m: map<Key, RowChange>) {
    forall i :: 0 <= i < |s| ==> s[i].primaryKeyValue in m && m[s[i].primaryKeyValue] == s[i]
  }

  predicate AllOfType(s: seq<RowChange>, t: ChangeType) {
    forall i :: 0 <= i < |s| ==> s[i].changeType == t
  }

  /** Appending the entry of a key not yet present keeps the entries distinct, uniform and matching. */
  lemma Extend(s: seq<RowChange>, m: map<Key, RowChange>, x: RowChange)
    requires DistinctKeys(s) && Matches(s, m) && AllOfType(s, x.changeType)
    requires x.primaryKeyValue in m && m[x.primaryKeyValue] == x && x.primaryKeyValue !in KeySet(s)
    ensures DistinctKeys(s + [x]) && Matches(s + [x], m) && AllOfType(s + [x], x.changeType)
    ensures KeySet(s + [x]) == KeySet(s) + {x.primaryKeyValue}
  {
    KeySetAppend(s, x);
    var t := s + [x];
    forall i | 0 <= i < |s| ensures s[i].primaryKeyValue != x.primaryKeyValue {
      assert s[i].primaryKeyValue in KeySet(s);
    }
    assert forall i :: 0 <= i < |s| ==> t[i] == s[i];
  }

  /** The insert loop of `compute_row_changes`: one insert per key new since the baseline. */
  method AppendInserts(c: Frame, o: Frame, ghost m: map<Key, RowChange>) returns (inserts: seq<RowChange>)
    requires forall k :: k in LabelSet(c) && k !in LabelSet(o) ==>
      k in m && m[k] == RowChange(Insert, k, None, Some(RowData(c, k)))
    ensures DistinctKeys(inserts) && Matches(inserts, m) && AllOfType(inserts, Insert)
    ensures KeySet(inserts) == LabelSet(c) - LabelSet(o)
  {
    var inserted := LabelSet(c) - LabelSet(o);
    inserts := [];
    var todo := inserted;
    while todo != {}
      invariant todo <= inserted
      invariant KeySet(inserts) == inserted - todo
      invariant DistinctKeys(inserts) && Matches(inserts, m) && AllOfType(inserts, Insert)
      decreases |todo|
    {
      var k :| k in todo;
      inserts, todo := InsertStep(c, m, inserted, inserts, todo, k);
    }
  }

  /** One pass of the insert loop: the insert of `k`, which is still to do, is appended. */
  method InsertStep(c: Frame, ghost m: map<Key, RowChange>, ghost inserted: set<Key>,
                    inserts: seq<RowChange>, todo: set<Key>, k: Key) returns (inserts': seq<RowChange>, todo': set<Key>)
    requires k in todo && todo <= inserted && KeySet(inserts) == inserted - todo
    requires k in LabelSet(c) && k in m && m[k] == RowChange(Insert, k, None, Some(RowData(c, k)))
    requires DistinctKeys(inserts) && Matches(inserts, m) && AllOfType(inserts, Insert)
    ensures todo' == todo - {k} && todo' <= inserted && KeySet(inserts') == inserted - todo'
    ensures DistinctKeys(inserts') && Matches(inserts', m) && AllOfType(inserts', Insert)
  {
    var rc := RowChange(Insert, k, None, Some(RowData(c, k)));
    Extend(inserts, m, rc);
    inserts' := inserts + [rc];
    todo' := todo - {k};
  }

  /** The delete loop of `compute_row_changes`: one delete per baseline key that is gone. */
  method AppendDeletes(c: Frame, o: Frame, ghost m: map<Key, RowChange>) returns (deletes: seq<RowChange>)
    requires forall k :: k in LabelSet(o) && k !in LabelSet(c) ==>
      k in m && m[k] == RowChange(Delete, k, Some(RowData(o, k)), None)
    ensures DistinctKeys(deletes) && Matches(deletes, m) && AllOfType(deletes, Delete)
    ensures KeySet(deletes) == LabelSet(o) - LabelSet(c)
  {
    var deleted := LabelSet(o) - LabelSet(c);
    deletes := [];
    var todo := deleted;
    while todo != {}
      invariant todo <= deleted
      invariant KeySet(deletes) == deleted - todo
      invariant DistinctKeys(deletes) && Matches(deletes, m) && AllOfType(deletes, Delete)
      decreases |todo|
    {
      var k :| k in todo;
      deletes, todo := DeleteStep(o, m, deleted, deletes, todo, k);
    }
  }

  /** One pass of the delete loop: the delete of `k`, which is still to do, is appended. */
  method DeleteStep(o: Frame, ghost m: map<Key, RowChange>, ghost deleted: set<Key>,
                    deletes: seq<RowChange>, todo: set<Key>, k: Key) returns (deletes': seq<RowChange>, todo': set<Key>)
    requires k in todo && todo <= deleted && KeySet(deletes) == deleted - todo
    requires k in LabelSet(o) && k in m && m[k] == RowChange(Delete, k, Some(RowData(o, k)), None)
    requires DistinctKeys(deletes) && Matches(deletes, m) && AllOfType(deletes, Delete)
    ensures todo' == todo - {k} && todo' <= deleted && KeySet(deletes') == deleted - todo'
    ensures DistinctKeys(deletes') && Matches(deletes', m) && AllOfType(deletes', Delete)
  {
    var rc := RowChange(Delete, k, Some(RowData(o, k)), None);
    Extend(deletes, m, rc);
    deletes' := deletes + [rc];
    todo' := todo - {k};
  }

  /** The columns of `a` that `b` also has. */
  function CommonColumnList(a: seq<string>, b: seq<string>): (r: seq<string>)
    ensures forall x :: x in r <==> x in a && x in b
  {
    if |a| == 0 then []
    else (if a[0] in b then [a[0]] else []) + CommonColumnList(a[1..], b)
  }

  /** The column loop: whether some common column differs, both-missing counting as equal. */
  method CompareRows(cur: Record, orig: Record, cols: seq<string>) returns (isDifferent: bool)
    ensures isDifferent <==> RowsDiffer(cur, orig, set x | x in cols)
  {
    isDifferent := false;
    var j := 0;
    while j < |cols| && !isDifferent
      invariant 0 <= j <= |cols|
      invariant isDifferent ==> RowsDiffer(cur, orig, set x | x in cols)
      invariant !isDifferent ==> forall i :: 0 <= i < j ==> !Differs(Lookup(cur, cols[i]), Lookup(orig, cols[i]))
      decreases |cols| - j
    {
      var a, b := Lookup(cur, cols[j]), Lookup(orig, cols[j]);
      if IsNa(a) && IsNa(b) {
      } else if a != b {
        assert Differs(a, b) && cols[j] in set x | x in cols;
        isDifferent := true;
      }
      j := j + 1;
    }
  }

  /** One step of the update loop: whether the key's shared columns differ, and the update it records. */
  method UpdateFor(c: Frame, o: Frame, k: Key, common: set<string>, commonCols: seq<string>)
    returns (changed: bool, rc: RowChange)
    requires k in LabelSet(c) && k in LabelSet(o)
    requires (set x | x in commonCols) == common
    ensures changed <==> RowsDiffer(RowData(c, k), RowData(o, k), common)
    ensures rc == RowChange(Update, k, Some(Restrict(RowData(o, k), common)), Some(Restrict(RowData(c, k), common)))
  {
    var cur, orig := RowData(c, k), RowData(o, k);
    rc := RowChange(Update, k, Some(Restrict(orig, common)), Some(Restrict(cur, common)));
    if |commonCols| > 0 {
      changed := CompareRows(cur, orig, commonCols);
    } else {
      changed := false;
    }
  }

  /** The update loop of `compute_row_changes`: one update per shared key whose shared columns differ. */
  method AppendUpdates(c: Frame, o: Frame, ghost m: map<Key, RowChange>) returns (updates: seq<RowChange>)
    requires forall k :: k in LabelSet(c) && k in LabelSet(o) && RowsDiffer(RowData(c, k), RowData(o, k), CommonColumns(c, o)) ==>
      k in m && m[k] == RowChange(Update, k, Some(Restrict(RowData(o, k), CommonColumns(c, o))),
                                  Some(Restrict(RowData(c, k), CommonColumns(c, o))))
    ensures DistinctKeys(updates) && Matches(updates, m) && AllOfType(updates, Update)
    ensures KeySet(updates) == Updated(c, o)
  {
    var both := LabelSet(c) * LabelSet(o);
    var common := CommonColumns(c, o);
    var commonCols := CommonColumnList(c.columns, o.columns);
    assert (set x | x in commonCols) == common;
    updates := UpdateLoop(c, o, m, both, common, commonCols, Updated(c, o));
  }

  /** The loop of `AppendUpdates`, over the shared keys `both`, of which `updated` are the changed ones. */
  method UpdateLoop(c: Frame, o: Frame, ghost m: map<Key, RowChange>, both: set<Key>, common: set<string>,
                    commonCols: seq<string>, ghost updated: set<Key>) returns (updates: seq<RowChange>)
    requires (set x | x in commonCols) == common
    requires updated <= both
    requires forall k :: k in both ==> k in LabelSet(c) && k in LabelSet(o)
    requires forall k :: k in both ==> (k in updated <==> RowsDiffer(RowData(c, k), RowData(o, k), common))
    requires forall k :: k in updated ==>
      k in m && m[k] == RowChange(Update, k, Some(Restrict(RowData(o, k), common)), Some(Restrict(RowData(c, k), common)))
    ensures DistinctKeys(updates) && Matches(updates, m) && AllOfType(updates, Update)
    ensures KeySet(updates) == updated
  {
    updates := [];
    var todo := both;
    while todo != {}
      invariant todo <= both
      invariant KeySet(updates) == updated - todo
      invariant DistinctKeys(updates) && Matches(updates, m) && AllOfType(updates, Update)
      decreases |todo|
    {
      var k :| k in todo;
      var changed, rc := UpdateFor(c, o, k, common, commonCols);
      assert changed <==> k in updated;
      if changed {
        Extend(updates, m, rc);
        updates := updates + [rc];
      }
      TodoAdvance(KeySet(updates), updated, todo, k, changed);
      todo := todo - {k};
    }
  }

  /** One step of a loop that removes `k` from `todo` and collects it exactly when it is in `wanted`. */
  lemma TodoAdvance<K>(collected: set<K>, wanted: set<K>, todo: set<K>, k: K, taken: bool)
    requires k in todo && (taken <==> k in wanted)
    requires collected == (if taken then wanted - todo + {k} else wanted - todo)
    ensures collected == wanted - (todo - {k})
  {
  }

  /** The entries the diff holds, by kind. */
  lemma DiffEntries(c: Frame, o: Frame)
    ensures var m := Diff(c, o);
      && (forall k :: k in LabelSet(c) && k !in LabelSet(o) ==>
            k in m && m[k] == RowChange(Insert, k, None, Some(RowData(c, k))))
      && (forall k :: k in LabelSet(o) && k !in LabelSet(c) ==>
            k in m && m[k] == RowChange(Delete, k, Some(RowData(o, k)), None))
      && (forall k :: k in LabelSet(c) && k in LabelSet(o) && RowsDiffer(RowData(c, k), RowData(o, k), CommonColumns(c, o)) ==>
            k in m && m[k] == RowChange(Update, k, Some(Restrict(RowData(o, k), CommonColumns(c, o))),
                                        Some(Restrict(RowData(c, k), CommonColumns(c, o)))))
  {
  }

  /** Distinct entries of one kind per group, with disjoint keys, concatenate to a grouped realization. */
  lemma Combine(ins: seq<RowChange>, del: seq<RowChange>, upd: seq<RowChange>, m: map<Key, RowChange>)
    requires DistinctKeys(ins) && Matches(ins, m) && AllOfType(ins, Insert)
    requires DistinctKeys(del) && Matches(del, m) && AllOfType(del, Delete)
    requires DistinctKeys(upd) && Matches(upd, m) && AllOfType(upd, Update)
    requires KeySet(ins) !! KeySet(del) && KeySet(ins) !! KeySet(upd) && KeySet(del) !! KeySet(upd)
    requires KeySet(ins) + KeySet(del) + KeySet(upd) == m.Keys
    ensures Realizes(ins + del + upd, m) && Grouped(ins + del + upd)
  {
    var s := ins + del + upd;
    GroupedByKind(ins, del, upd);
    forall i | 0 <= i < |s|
      ensures s[i].primaryKeyValue in (if i < |ins| then KeySet(ins) else if i < |ins| + |del| then KeySet(del) else KeySet(upd))
    {
      if i < |ins| {
        assert s[i] == ins[i];
      } else if i < |ins| + |del| {
        assert s[i] == del[i - |ins|];
      } else {
        assert s[i] == upd[i - |ins| - |del|];
      }
    }
    forall k | k in m.Keys ensures k in KeySet(s) {
      if k in KeySet(ins) {
        var i :| 0 <= i < |ins| && ins[i].primaryKeyValue == k;
        assert s[i] == ins[i];
      } else if k in KeySet(del) {
        var i :| 0 <= i < |del| && del[i].primaryKeyValue == k;
        assert s[|ins| + i] == del[i];
      } else {
        var i :| 0 <= i < |upd| && upd[i].primaryKeyValue == k;
        assert s[|ins| + |del| + i] == upd[i];
      }
    }
  }

  /** Inserts, then deletes, then updates are grouped by kind. */
  lemma GroupedByKind(ins: seq<RowChange>, del: seq<RowChange>, upd: seq<RowChange>)
    requires AllOfType(ins, Insert) && AllOfType(del, Delete) && AllOfType(upd, Update)
    ensures Grouped(ins + del + upd)
  {
    var s := ins + del + upd;
    forall i | 0 <= i < |s|
      ensures s[i].changeType == (if i < |ins| then Insert else if i < |ins| + |del| then Delete else Update)
    {
      if i < |ins| {
        assert s[i] == ins[i];
      } else if i < |ins| + |del| {
        assert s[i] == del[i - |ins|];
      } else {
        assert s[i] == upd[i - |ins| - |del|];
      }
    }
  }

  /** The inserts the tracker reports are exactly the keys new since the baseline. */
  lemma InsertsAreNewKeys(s: seq<RowChange>, c: Frame, o: Frame)
    requires Realizes(s, Diff(c, o))
    ensures KeySet(OfType(s, Insert)) == LabelSet(c) - LabelSet(o)
    ensures KeySet(OfType(s, Delete)) == LabelSet(o) - LabelSet(c)
    ensures KeySet(OfType(s, Update)) == Updated(c, o)
  {
    var m := Diff(c, o);
    KindKeys(c, o);
    KeysOfType(s, m, Insert);
    KeysOfType(s, m, Delete);
    KeysOfType(s, m, Update);
  }

  /** The keys of the diff, by kind. */
  lemma KindKeys(c: Frame, o: Frame)
    ensures (set k | k in Diff(c, o) && Diff(c, o)[k].changeType == Insert) == LabelSet(c) - LabelSet(o)
    ensures (set k | k in Diff(c, o) && Diff(c, o)[k].changeType == Delete) == LabelSet(o) - LabelSet(c)
    ensures (set k | k in Diff(c, o) && Diff(c, o)[k].changeType == Update) == Updated(c, o)
  {
    DiffClassification(c, o);
  }

  /** A key column missing from either frame leaves no row changes. */
  lemma MissingKeyTracksNothing(pk: PrimaryKey, current: Frame, original: Frame, s: seq<RowChange>)
    requires ValidKey(pk)
    requires !(KeyInColumns(current, pk) || KeyInIndex(current, pk)) || !(KeyInColumns(original, pk) || KeyInIndex(original, pk))
    requires Realizes(s, ExpectedChanges(pk, current, original))
    ensures s == []
  {
    assert ExpectedChanges(pk, current, original) == map[];
    KeySetEmpty(s);
  }

  lemma KeySetEmpty(s: seq<RowChange>)
    ensures KeySet(s) == {} ==> s == []
  {
    if |s| > 0 {
      assert s[0].primaryKeyValue in KeySet(s);
    }
  }

  /** Comparing a frame with itself finds no change. */
  lemma SameDataNoChanges(pk: PrimaryKey, f: Frame)
    requires ValidKey(pk)
    ensures ExpectedChanges(pk, f, f) == map[]
  {
    var v := KeyedView(f, pk);
    if v.Some? {
      forall k | k in LabelSet(v.value)
        ensures !RowsDiffer(RowData(v.value, k), RowData(v.value, k), CommonColumns(v.value, v.value))
      {
      }
      assert Updated(v.value, v.value) == {};
      assert DiffKeys(v.value, v.value) == {};
      assert Diff(v.value, v.value).Keys == {};
      assert Diff(v.value, v.value) == map[];
      assert ExpectedChanges(pk, f, f) == Diff(v.value, v.value);
    }
  }
}
