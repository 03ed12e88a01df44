/**
 * The `TableDataFrame` front end: a table's data, its primary key and the
 * change tracker watching it.  Every editing method checks its arguments
 * first, leaves everything as it was when a check fails, and otherwise
 * logs the call, changes the data, and brings the tracker up to date.
 */
module TrackedDataFrames {
  import opened Wrappers
  import opened Dicts
  import opened Values
  import opened Frames
  import opened PkUtils
  import opened Exceptions
  import opened ChangeTracking
  import opened TableKeys
  import opened TableEdits
  import opened TableChecks

  /* ---------- the constructor's key ---------- */

  /** The named levels of an index, in order. */
  function NamedLevels(index: seq<Option<string>>): (names: seq<string>)
    ensures forall c :: c in names <==> Some(c) in index
  {
    if |index| == 0 then []
    else (if index[0].Some? then [index[0].value] else []) + NamedLevels(index[1..])
  }

  /**
   * The key inferred when none is given: a MultiIndex gives its named
   * levels (or `id` when none is named), a named flat index its name, any
   * other index `id`.
   */
  function InferKey(f: Frame): (pk: PrimaryKey)
    ensures ValidKey(pk)
    ensures pk.Composite? <==> IsMultiIndex(f)
    ensures IsMultiIndex(f) ==> forall c :: InIndexNames(f, c) ==> c in pk.names
    ensures forall c :: c in NormalizePrimaryKey(pk) ==> InIndexNames(f, c) || c == "id"
    ensures !IsMultiIndex(f) && IndexName(f).Some? && IndexName(f).value != "" ==> pk == Single(IndexName(f).value)
  {
    if IsMultiIndex(f) then
      var names := NamedLevels(f.index);
      Composite(if |names| > 0 then names else ["id"])
    else if IndexName(f).Some? && IndexName(f).value != "" then Single(IndexName(f).value)
    else Single("id")
  }

  /** The key given to the constructor, or the inferred one. */
  function ChosenKey(f: Frame, key: Option<PrimaryKey>): (pk: PrimaryKey)
    requires key.Some? ==> ValidKey(key.value)
    ensures ValidKey(pk)
  {
    if key.Some? then key.value else InferKey(f)
  }

  /** The constructor's move of the key into the index, when the key sits among the columns. */
  function PlaceKey(f: Frame, pk: PrimaryKey): Frame
    requires ValidKey(pk)
  {
    match pk
    case Composite(names) =>
      if (!IsMultiIndex(f) || f.index != Names(names)) && AllColumns(f, names) then SetIndex(f, names) else f
    case Single(n) =>
      if IndexName(f) != Some(n) && n in f.columns then SetIndex(f, [n]) else f
  }

  /**
   * After the constructor a key found among the columns is the index, each
   * row labelled by its key; a key not found there leaves the frame as given.
   */
  lemma PlaceKeyIndexes(f: Frame, pk: PrimaryKey)
    requires ValidKey(pk)
    ensures var cols := NormalizePrimaryKey(pk);
      AllColumns(f, cols) ==> PlaceKey(f, pk).index == Names(cols)
    ensures var cols := NormalizePrimaryKey(pk);
      AllColumns(f, cols) && PlaceKey(f, pk) != f ==>
        forall i :: 0 <= i < |f.rows| ==> PlaceKey(f, pk).rows[i].indexLabel == KeyOf(f.rows[i], cols)
    ensures !AllColumns(f, NormalizePrimaryKey(pk)) ==> PlaceKey(f, pk) == f
  {
    match pk
    case Single(n) =>
      assert NormalizePrimaryKey(pk) == [n];
      assert AllColumns(f, [n]) <==> n in f.columns by { assert [n][0] == n; }
      if IndexName(f) == Some(n) {
        assert f.index == [Some(n)] == Names([n]);
      } else if n in f.columns {
        var g := SetIndex(f, [n]);
        assert PlaceKey(f, pk) == g;
        assert g.index == Names([n]);
      }
    case Composite(names) =>
      if (!IsMultiIndex(f) || f.index != Names(names)) && AllColumns(f, names) {
        assert PlaceKey(f, pk) == SetIndex(f, names);
      }
  }

  /* ---------- the layout kept by the column editors ---------- */

  lemma AddColumnPlaced(f: Frame, cols: seq<string>, name: string, default: Value)
    requires Placed(f, cols)
    ensures Placed(AddColumn(f, name, default), cols)
  {
    var g := AddColumn(f, name, default);
    forall i, c | 0 <= i < |g.rows| && c in g.rows[i].cells ensures c in g.columns {
      assert g.rows[i].cells == f.rows[i].cells[name := default];
    }
  }

  lemma DropColumnPlaced(f: Frame, cols: seq<string>, name: string)
    requires Placed(f, cols)
    ensures Placed(DropColumn(f, name), cols)
  {
    var g := DropColumn(f, name);
    forall i, c | 0 <= i < |g.rows| && c in g.rows[i].cells ensures c in g.columns {
      assert g.rows[i].cells == f.rows[i].cells - {name};
    }
  }

  lemma RenameColumnPlaced(f: Frame, cols: seq<string>, cols': seq<string>, oldName: string, newName: string)
    requires Placed(f, cols) && |cols'| == |cols|
    ensures Placed(RenameColumn(f, oldName, newName), cols')
  {
    var g := RenameColumn(f, oldName, newName);
    forall i, c | 0 <= i < |g.rows| && c in g.rows[i].cells ensures c in g.columns {
      var cells := f.rows[i].cells;
      assert g.rows[i].cells == RenameCells(cells, oldName, newName);
      var src := if c == newName then oldName else c;
      assert src in cells;
      assert src in f.columns;
      var j :| 0 <= j < |f.columns| && f.columns[j] == src;
      assert g.columns[j] == c;
    }
  }

  lemma {:induction false} PresentFieldsNone<V>(row: Dict<string, V>, cols: seq<string>)
    requires forall j :: 0 <= j < |cols| ==> !HasKey(row, cols[j])
    ensures PresentFields(row, cols) == []
    decreases |cols|
  {
    if |cols| > 0 {
      PresentFieldsNone(row, cols[1..]);
    }
  }

  /* ---------- the assignment loop ---------- */

  /**
   * The `for col, value in updates.items()` loop of `update_row` and
   * `update_where`: each assignment in turn, applied to the selected rows.
   */
  method AssignEach(f: Frame, mask: seq<bool>, ups: Dict<string, Assigned>) returns (g: Frame)
    requires |mask| == |f.rows|
    ensures g == AssignAll(f, mask, ups)
  {
    g := f;
    var j := 0;
    while j < |ups|
      invariant 0 <= j <= |ups|
      invariant g == AssignAll(f, mask, ups[..j])
    {
      assert ups[..j + 1][..j] == ups[..j];
      g := SetWhere(g, mask, ups[j].0, ups[j].1);
      j := j + 1;
    }
    assert ups[..j] == ups;
  }

  const NotAutoIncrementMessage: string :=
    "' is not configured for auto-increment. Set auto_increment=True when creating the table."

  const ImmutableIndexMessage: string :=
    "Cannot modify index directly. Primary key values are immutable. " +
    "Use add_row() to create new records or delete_row() to remove records."

  /** `str(self.name)` in messages: a missing name prints as `None`. */
  function NameText(name: Option<string>): string {
    if name.Some? then name.value else "None"
  }

  class TableDataFrame {
    var name: Option<string>
    var hasEngine: bool
    var autoIncrement: bool
    var primaryKey: PrimaryKey
    var data: Frame
    const tracker: ChangeTracker

    /**
     * A valid key shared with the tracker, and data laid out for it: labels
     * fit the index, cells fit the columns, a MultiIndex has a level per key
     * column.
     */
    predicate Valid()
      reads this, tracker
    {
      && ValidKey(primaryKey)
      && tracker.Valid()
      && tracker.primaryKey == primaryKey
      && Placed(data, NormalizePrimaryKey(primaryKey))
    }

    /** The tracker's row changes are the diff of the current data against the baseline. */
    predicate Synced()
      reads this, tracker
    {
      && ValidKey(primaryKey)
      && Realizes(tracker.rowChanges, ExpectedChanges(primaryKey, data, tracker.originalData))
      && Grouped(tracker.rowChanges)
    }

    /** The table's settings and the tracker's baseline are as they were. */
    twostate predicate SameTable()
      reads this, tracker
    {
      && name == old(name) && hasEngine == old(hasEngine) && autoIncrement == old(autoIncrement)
      && tracker.originalData == old(tracker.originalData)
      && tracker.originalColumns == old(tracker.originalColumns)
      && tracker.originalIndex == old(tracker.originalIndex)
    }

    twostate predicate SameKey()
      reads this, tracker
    {
      primaryKey == old(primaryKey) && tracker.primaryKey == old(tracker.primaryKey)
    }

    /** The tracker's column bookkeeping is as it was. */
    twostate predicate SameColumnLog()
      reads tracker
    {
      && tracker.addedColumns == old(tracker.addedColumns)
      && tracker.droppedColumns == old(tracker.droppedColumns)
      && tracker.renamedColumns == old(tracker.renamedColumns)
      && tracker.alteredColumnTypes == old(tracker.alteredColumnTypes)
    }

    /** Nothing observable changed: what a failed check leaves. */
    twostate predicate Untouched()
      reads this, tracker
    {
      && SameTable() && SameKey() && SameColumnLog()
      && data == old(data)
      && tracker.operations == old(tracker.operations)
      && tracker.rowChanges == old(tracker.rowChanges)
    }

    /**
     * A table over `frame`: the key is the one given or the one inferred
     * from the index, it is moved into the index when it sits among the
     * columns, and a fresh tracker takes the result as its baseline.
     */
    constructor (tableName: Option<string>, frame: Frame, key: Option<PrimaryKey>, engine: bool, autoInc: bool)
      requires Wf(frame) && CellsInColumns(frame)
      requires key.Some? ==> ValidKey(key.value)
      requires Placed(PlaceKey(frame, ChosenKey(frame, key)), NormalizePrimaryKey(ChosenKey(frame, key)))
      ensures Valid() && Synced() && fresh(tracker)
      ensures name == tableName && hasEngine == engine && autoIncrement == autoInc
      ensures primaryKey == ChosenKey(frame, key)
      ensures data == PlaceKey(frame, primaryKey) && tracker.originalData == data
      ensures tracker.operations == [] && !tracker.HasChanges()
    {
      var pk := ChosenKey(frame, key);
      var placed := PlaceKey(frame, pk);
      SameDataNoChanges(pk, placed);
      name := tableName;
      hasEngine := engine;
      autoIncrement := autoInc;
      primaryKey := pk;
      data := placed;
      tracker := new ChangeTracker(pk, placed);
    }

    /**
     * `get_next_pk_value`: a database-backed table must allow
     * auto-increment; the value is then one past the larger of the local
     * and the database maximum, above every key the table holds.
     */
    function GetNextPkValue(dbMax: int): (r: Result<int, Exception>)
      reads this
      ensures r.Err? <==>
        (hasEngine && !autoIncrement) || primaryKey.Composite? ||
        (|data.rows| > 0 && KeyReadable(data, primaryKey.name) && !AllInts(KeyValuesRead(data, primaryKey.name)))
      ensures r.Ok? ==> r.value > dbMax
      ensures r.Ok? && KeyReadable(data, primaryKey.name) ==>
        forall i :: 0 <= i < |KeyValuesRead(data, primaryKey.name)| ==> KeyValuesRead(data, primaryKey.name)[i] != Int(r.value)
    {
      NextPkFresh(data, primaryKey, dbMax);
      if hasEngine && !autoIncrement then
        Err(ValueError("Table '" + NameText(name) + NotAutoIncrementMessage))
      else NextPk(data, primaryKey, dbMax)
    }

    /** Assigning the index always fails: key values are immutable. */
    method AssignIndex(attempted: string) returns (r: Result<(), Exception>)
      ensures r.Err? && r.error.Raised? && r.error.error.cls == DataValidation
      ensures r.error.error.details == DictDetails([("operation", "set_index"), ("attempted_value", attempted)])
    {
      r := Err(Error(DataValidation, ImmutableIndexMessage,
                     DictDetails([("operation", "set_index"), ("attempted_value", attempted)])));
    }

    /**
     * The data becomes `g` and the row changes are recomputed against the
     * baseline: the closing steps of every row editor.
     */
    method ReplaceData(g: Frame)
      requires Valid() && Placed(g, NormalizePrimaryKey(primaryKey))
      modifies this, tracker
      ensures Valid() && Synced() && data == g
      ensures SameTable() && SameKey() && SameColumnLog()
      ensures tracker.operations == old(tracker.operations)
    {
      data := g;
      tracker.ComputeRowChanges(data);
    }

    /** The call is logged, then the data becomes `g`: the tail of `update_row` and `update_where`. */
    method LogAndReplace(methodName: string, args: seq<Arg>, g: Frame)
      requires Valid() && Placed(g, NormalizePrimaryKey(primaryKey))
      modifies this, tracker
      ensures Valid() && Synced() && data == g
      ensures SameTable() && SameKey() && SameColumnLog()
      ensures tracker.operations == old(tracker.operations) + [Operation("method_call", methodName, args)]
    {
      tracker.RecordOperation(methodName, args);
      ReplaceData(g);
    }

    /**
     * `add_row`: the checks of `AddRowCheck`, then the filled-in row is
     * logged and appended (under its key when the key is the index).
     */
    method AddRow(row: Dict<string, Value>, validate: bool, autoIncrementKey: bool, dbMax: int)
      returns (r: Result<(), Exception>)
      requires Valid()
      modifies this, tracker
      ensures Valid() && SameTable() && SameKey() && SameColumnLog()
      ensures var check := AddRowCheck(old(data), primaryKey, row, validate, autoIncrementKey, dbMax);
        && (r.Err? <==> check.Err?)
        && (r.Err? ==> r.error == check.error && Untouched())
        && (r.Ok? ==> data == AppendRecord(old(data), NormalizePrimaryKey(primaryKey), check.value)
                      && tracker.operations == old(tracker.operations) + [Operation("method_call", "add_row", [FieldsArg(check.value)])] && Synced())
    {
      var cols := NormalizePrimaryKey(primaryKey);
      var check := AddRowCheck(data, primaryKey, row, validate, autoIncrementKey, dbMax);
      if check.Err? {
        return Err(check.error);
      }
      var filled := check.value;
      tracker.RecordOperation("add_row", [FieldsArg(filled)]);
      AppendPlaced(data, cols, filled);
      ReplaceData(AppendRecord(data, cols, filled));
      r := Ok(());
    }

    /**
     * `update_row`: no key column may be updated and some row must carry
     * the key; every row carrying it then takes the new values.
     */
    method UpdateRow(v: PkValue, updates: Dict<string, Value>) returns (r: Result<(), Exception>)
      requires Valid()
      modifies this, tracker
      ensures Valid() && SameTable() && SameKey() && SameColumnLog()
      ensures var check := UpdateRowCheck(old(data), NormalizePrimaryKey(primaryKey), v, updates);
        && (r.Err? <==> check.Err?)
        && (r.Err? ==> r.error == check.error && Untouched())
        && (r.Ok? ==> data == AssignAll(old(data), check.value, Constants(updates))
                      && tracker.operations == old(tracker.operations) + [Operation("method_call", "update_row", [PkValueArg(v), FieldsArg(updates)])] && Synced())
    {
      var cols := NormalizePrimaryKey(primaryKey);
      var check := UpdateRowCheck(data, cols, v, updates);
      if check.Err? {
        return Err(check.error);
      }
      var mask := check.value;
      var ups := Constants(updates);
      var g := AssignEach(data, mask, ups);
      AssignPlaced(data, mask, ups, cols);
      LogAndReplace("update_row", [PkValueArg(v), FieldsArg(updates)], g);
      r := Ok(());
    }

    /**
     * `update_where`: the assignments (or the single value for `column`)
     * must leave the key alone and name existing columns; they are then
     * applied to the selected rows in order.
     */
    method UpdateWhere(mask: seq<bool>, updates: Updates, column: Option<string>) returns (r: Result<(), Exception>)
      requires Valid() && |mask| == |data.rows|
      modifies this, tracker
      ensures Valid() && SameTable() && SameKey() && SameColumnLog()
      ensures var check := UpdateWhereCheck(old(data), NormalizePrimaryKey(primaryKey), updates, column);
        && (r.Err? <==> check.Err?)
        && (r.Err? ==> r.error == check.error && Untouched())
        && (r.Ok? ==> data == AssignAll(old(data), mask, check.value)
                      && tracker.operations == old(tracker.operations) + [Operation("method_call", "update_where", [ConditionArg(mask), AssignmentsArg(check.value)])] && Synced())
    {
      var cols := NormalizePrimaryKey(primaryKey);
      var check := UpdateWhereCheck(data, cols, updates, column);
      if check.Err? {
        return Err(check.error);
      }
      var ups := check.value;
      var g := AssignEach(data, mask, ups);
      AssignPlaced(data, mask, ups, cols);
      LogAndReplace("update_where", [ConditionArg(mask), AssignmentsArg(ups)], g);
      r := Ok(());
    }

    /** `delete_row`: some row must carry the key; every row carrying it is removed. */
    method DeleteRow(v: PkValue) returns (r: Result<(), Exception>)
      requires Valid()
      modifies this, tracker
      ensures Valid() && SameTable() && SameKey() && SameColumnLog()
      ensures var check := SelectRow(old(data), NormalizePrimaryKey(primaryKey), v);
        && (r.Err? <==> check.Err?)
        && (r.Err? ==> r.error == check.error && Untouched())
        && (r.Ok? ==> data == DeleteMatching(old(data), NormalizePrimaryKey(primaryKey), check.value)
                      && tracker.operations == old(tracker.operations) + [Operation("method_call", "delete_row", [PkValueArg(v)])] && Synced())
    {
      var cols := NormalizePrimaryKey(primaryKey);
      var check := SelectRow(data, cols, v);
      if check.Err? {
        return Err(check.error);
      }
      var mask := check.value;
      tracker.RecordOperation("delete_row", [PkValueArg(v)]);
      DeletePlaced(data, cols, mask);
      ReplaceData(DeleteMatching(data, cols, mask));
      r := Ok(());
    }

    /** `delete_where`: the selected rows are removed and their number returned. */
    method DeleteWhere(mask: seq<bool>) returns (deleted: nat)
      requires Valid() && |mask| == |data.rows|
      modifies this, tracker
      ensures Valid() && Synced() && SameTable() && SameKey() && SameColumnLog()
      ensures deleted == CountTrue(mask) && |data.rows| == |old(data.rows)| - deleted
      ensures data == DeleteMatching(old(data), NormalizePrimaryKey(primaryKey), mask)
      ensures tracker.operations == old(tracker.operations) + [Operation("method_call", "delete_where", [ConditionArg(mask)])]
    {
      tracker.RecordOperation("delete_where", [ConditionArg(mask)]);
      deleted := CountTrue(mask);
      var cols := NormalizePrimaryKey(primaryKey);
      DeleteCount(data, cols, mask);
      DeletePlaced(data, cols, mask);
      ReplaceData(DeleteMatching(data, cols, mask));
    }

    /**
     * `upsert_row`: every key column must be given; the row carrying the
     * key takes the other fields through `update_row`, and a new key is
     * added through `add_row` without the uniqueness check.
     */
    method UpsertRow(row: Dict<string, Value>) returns (r: Result<(), Exception>)
      requires Valid()
      modifies this, tracker
      ensures Valid() && SameTable() && SameKey() && SameColumnLog()
      ensures var res := UpsertResult(old(data), primaryKey, row);
        && (r.Err? <==> res.Err?)
        && (r.Err? ==> r.error == res.error && Untouched())
        && (r.Ok? ==> data == res.value && Synced())
      ensures r.Ok? ==>
        var cols := NormalizePrimaryKey(primaryKey);
        var m := PkMask(old(data), cols, FieldsPkValue(row, cols));
        if m.Ok? && AnyTrue(m.value) then tracker.operations == old(tracker.operations) + [Operation("method_call", "update_row", [PkValueArg(FieldsPkValue(row, cols)), FieldsArg(NonKeyFields(row, cols))])]
        else tracker.operations == old(tracker.operations) + [Operation("method_call", "add_row", [FieldsArg(AddRowCheck(old(data), primaryKey, row, false, false, 0).value)])]
    {
      var cols := NormalizePrimaryKey(primaryKey);
      var missing := MissingFields(row, cols);
      if |missing| > 0 {
        return Err(MissingKeyError(missing, cols));
      }
      var v := FieldsPkValue(row, cols);
      var m := PkCondition(data, cols, v);
      if m.Ok? && AnyTrue(m.value) {
        var rest := NonKeyFields(row, cols);
        PresentFieldsNone(rest, cols);
        assert UpdateRowCheck(data, cols, v, rest).value == m.value;
        r := UpdateRow(v, rest);
      } else {
        r := AddRow(row, false, false, 0);
      }
    }

    /**
     * `bulk_insert`: nothing happens for no rows; otherwise every row must
     * carry a complete key, distinct among the rows and (for a single key)
     * new to the table, and the rows are appended together.
     */
    method BulkInsert(rows: seq<Dict<string, Value>>) returns (r: Result<(), Exception>)
      requires Valid()
      modifies this, tracker
      ensures Valid() && SameTable() && SameKey() && SameColumnLog()
      ensures |rows| == 0 ==> r.Ok? && Untouched()
      ensures |rows| > 0 ==>
        var check := BulkInsertCheck(old(data), NormalizePrimaryKey(primaryKey), rows);
        && (r.Err? <==> check.Some?)
        && (r.Err? ==> r.error == check.value && Untouched())
        && (r.Ok? ==> data == BulkAppend(old(data), NormalizePrimaryKey(primaryKey), rows)
                      && tracker.operations == old(tracker.operations) + [Operation("method_call", "bulk_insert", [CountArg(|rows|)])]
                      && Synced())
    {
      if |rows| == 0 {
        return Ok(());
      }
      var cols := NormalizePrimaryKey(primaryKey);
      var check := BulkInsertCheck(data, cols, rows);
      if check.Some? {
        return Err(check.value);
      }
      tracker.RecordOperation("bulk_insert", [CountArg(|rows|)]);
      BulkPlaced(data, cols, rows);
      ReplaceData(BulkAppend(data, cols, rows));
      r := Ok(());
    }

    /**
     * `add_column_with_default`: a new column holding the default in every
     * row, recorded as an addition; the row changes are not recomputed. With
     * a dtype the column is then cast, `cast` being what the cast makes of
     * the default: a failed cast leaves the column uncast and unrecorded,
     * the call already logged.
     */
    method AddColumnWithDefault(colName: string, default: Value, dtype: Option<string>, cast: Result<Value, Exception>)
      returns (r: Result<(), Exception>)
      requires Valid()
      modifies this, tracker
      ensures Valid() && SameTable() && SameKey()
      ensures r.Err? <==> colName in old(data.columns) || (dtype.Some? && cast.Err?)
      ensures colName in old(data.columns) ==> r == Err(ColumnExistsError(colName)) && Untouched()
      ensures colName !in old(data.columns) ==>
        && data == AddColumn(old(data), colName, if dtype.Some? && cast.Ok? then cast.value else default)
        && tracker.operations == old(tracker.operations) + [Operation("method_call", "add_column_with_default", [NameArg(colName), ValueArg(default), DtypeArg(dtype)])]
        && tracker.rowChanges == old(tracker.rowChanges)
        && tracker.renamedColumns == old(tracker.renamedColumns)
        && tracker.alteredColumnTypes == old(tracker.alteredColumnTypes)
      ensures colName !in old(data.columns) && dtype.Some? && cast.Err? ==>
        && r == Err(cast.error)
        && tracker.addedColumns == old(tracker.addedColumns) && tracker.droppedColumns == old(tracker.droppedColumns)
      ensures r.Ok? ==>
        (tracker.addedColumns, tracker.droppedColumns) ==
        AfterAddition(tracker.originalColumns, old(tracker.addedColumns), old(tracker.droppedColumns), colName)
    {
      if colName in data.columns {
        return Err(ColumnExistsError(colName));
      }
      var cols, before := NormalizePrimaryKey(primaryKey), data;
      tracker.RecordOperation("add_column_with_default", [NameArg(colName), ValueArg(default), DtypeArg(dtype)]);
      AddColumnPlaced(data, cols, colName, default);
      data := AddColumn(data, colName, default);
      if dtype.Some? {
        if cast.Err? {
          return Err(cast.error);
        }
        AddColumnPlaced(before, cols, colName, cast.value);
        data := AddColumn(before, colName, cast.value);
      }
      tracker.TrackColumnAddition(colName);
      r := Ok(());
    }

    /** `drop_column_safe`: an existing column is removed and recorded as dropped. */
    method DropColumnSafe(colName: string) returns (r: Result<(), Exception>)
      requires Valid()
      modifies this, tracker
      ensures Valid() && SameTable() && SameKey()
      ensures r.Err? <==> colName !in old(data.columns)
      ensures r.Err? ==> r.error == NoColumnError(colName) && Untouched()
      ensures r.Ok? ==>
        && data == DropColumn(old(data), colName)
        && tracker.operations == old(tracker.operations) + [Operation("method_call", "drop_column_safe", [NameArg(colName)])]
        && (tracker.addedColumns, tracker.droppedColumns) ==
           AfterDrop(tracker.originalColumns, old(tracker.addedColumns), old(tracker.droppedColumns), colName)
        && tracker.rowChanges == old(tracker.rowChanges)
        && tracker.renamedColumns == old(tracker.renamedColumns)
        && tracker.alteredColumnTypes == old(tracker.alteredColumnTypes)
    {
      if colName !in data.columns {
        return Err(NoColumnError(colName));
      }
      tracker.RecordOperation("drop_column_safe", [NameArg(colName)]);
      DropColumnPlaced(data, NormalizePrimaryKey(primaryKey), colName);
      data := DropColumn(data, colName);
      tracker.TrackColumnDrop(colName);
      r := Ok(());
    }

    /**
     * `rename_column_safe`: an existing column takes a name no column has;
     * the rename is recorded, and a key naming the column follows it, in
     * the table and in the tracker alike.
     */
    method RenameColumnSafe(oldName: string, newName: string) returns (r: Result<(), Exception>)
      requires Valid()
      modifies this, tracker
      ensures Valid() && SameTable()
      ensures var e := RenameCheck(old(data), oldName, newName);
        && (r.Err? <==> e.Some?)
        && (r.Err? ==> r.error == e.value && Untouched())
        && (r.Ok? ==> data == RenameColumn(old(data), oldName, newName)
                      && primaryKey == RenameKey(old(primaryKey), oldName, newName)
                      && tracker.operations == old(tracker.operations) + [Operation("method_call", "rename_column_safe", [NameArg(oldName), NameArg(newName)])]
                      && tracker.renamedColumns == Put(old(tracker.renamedColumns), oldName, newName)
                      && tracker.rowChanges == old(tracker.rowChanges)
                      && tracker.addedColumns == old(tracker.addedColumns)
                      && tracker.droppedColumns == old(tracker.droppedColumns)
                      && tracker.alteredColumnTypes == old(tracker.alteredColumnTypes))
    {
      var e := RenameCheck(data, oldName, newName);
      if e.Some? {
        return Err(e.value);
      }
      tracker.RecordOperation("rename_column_safe", [NameArg(oldName), NameArg(newName)]);
      var renamedKey := RenameKey(primaryKey, oldName, newName);
      RenameKeyValid(primaryKey, oldName, newName);
      RenameColumnPlaced(data, NormalizePrimaryKey(primaryKey), NormalizePrimaryKey(renamedKey), oldName, newName);
      data := RenameColumn(data, oldName, newName);
      tracker.TrackColumnRename(oldName, newName);
      primaryKey := renamedKey;
      tracker.primaryKey := renamedKey;
      r := Ok(());
    }

    /**
     * `set_primary_key`: the new key columns must exist (and pass the
     * integrity check when validating); the key is switched, a named index
     * is reset into the columns, and the key becomes the index.  A reset
     * that clashes with a column fails after the key was switched.
     */
    method SetPrimaryKey(newKey: PrimaryKey, validate: bool) returns (r: Result<(), Exception>)
      requires Valid() && ValidKey(newKey)
      modifies this, tracker
      ensures SameTable() && SameColumnLog() && tracker.rowChanges == old(tracker.rowChanges)
      ensures var cols := NormalizePrimaryKey(newKey);
        var e := SetKeyCheck(old(data), cols, validate);
        && (e.Some? ==> r == Err(e.value) && Untouched() && Valid())
        && (e.None? ==> primaryKey == newKey && tracker.primaryKey == newKey)
        && (e.None? && KeyedFrame(old(data), cols).Err? ==>
              r == Err(KeyedFrame(old(data), cols).error) && data == old(data)
              && tracker.operations == old(tracker.operations))
        && (e.None? && KeyedFrame(old(data), cols).Ok? ==>
              r.Ok? && data == KeyedFrame(old(data), cols).value && Valid()
              && tracker.operations == old(tracker.operations) + [Operation("method_call", "set_primary_key", [KeyArg(old(primaryKey)), KeyArg(newKey)])])
    {
      var cols := NormalizePrimaryKey(newKey);
      var e := SetKeyCheck(data, cols, validate);
      if e.Some? {
        return Err(e.value);
      }
      KeyedFrameEffect(data, cols);
      var oldKey := primaryKey;
      var staged := data;
      if NeedsReset(data) {
        var reset := ResetIndex(data);
        if reset.Err? {
          // the key was already switched when the reset failed
          primaryKey := newKey;
          tracker.primaryKey := newKey;
          return Err(reset.error);
        }
        staged := reset.value;
      }
      var keyed := SetPkAsIndex(staged, cols);
      assert keyed == KeyedFrame(data, cols);
      primaryKey := newKey;
      tracker.primaryKey := newKey;
      data := keyed.value;
      tracker.RecordOperation("set_primary_key", [KeyArg(oldKey), KeyArg(newKey)]);
      r := Ok(());
    }
  }
}
