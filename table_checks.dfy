/**
 * What each row and schema editor of a tracked table checks before it
 * changes anything, with the error it raises, and what the checks buy:
 * a row added after the uniqueness check carries a fresh key and is found
 * again, updates leave keys alone, a deleted key is gone, a bulk insert's
 * keys are distinct and new, and `set_primary_key` indexes a present,
 * unique key.
 */
module TableChecks {
  import opened Wrappers
  import opened Dicts
  import opened Values
  import opened Text
  import opened Frames
  import opened PkUtils
  import opened Exceptions
  import opened ChangeTracking
  import opened TableKeys
  import opened TableEdits

  /* ---------- add_row ---------- */

  function MissingKeyError(missing: seq<string>, cols: seq<string>): Exception {
    Error(DataValidation, "Row data missing required primary key column(s): " + StringListRepr(missing),
          DictDetails([("missing", StringListRepr(missing)), ("primary_key", StringListRepr(cols))]))
  }

  /**
   * The row data with its key completed: unchanged when every key field is
   * there; with a generated key appended when auto-increment is asked for a
   * single-column key; otherwise the missing-key error.  A failing generator
   * is reported as a `DataValidationError`.
   */
  function FillKey(f: Frame, pk: PrimaryKey, row: Dict<string, Value>, autoIncrement: bool, dbMax: int)
    : (r: Result<Dict<string, Value>, Exception>)
    ensures r.Ok? ==> forall j :: 0 <= j < |NormalizePrimaryKey(pk)| ==> HasKey(r.value, NormalizePrimaryKey(pk)[j])
    ensures r.Ok? ==> row <= r.value
    ensures r.Err? ==> r.error.Raised? && r.error.error.cls == DataValidation
    ensures r.Ok? <==> |MissingFields(row, NormalizePrimaryKey(pk))| == 0 ||
                       (autoIncrement && |NormalizePrimaryKey(pk)| == 1 && NextPk(f, pk, dbMax).Ok?)
    ensures |MissingFields(row, NormalizePrimaryKey(pk))| == 0 ==> r == Ok(row)
  {
    var cols := NormalizePrimaryKey(pk);
    var missing := MissingFields(row, cols);
    if |missing| == 0 then Ok(row)
    else if autoIncrement && |cols| == 1 then
      match NextPk(f, pk, dbMax)
      case Err(e) =>
        Err(Error(DataValidation, "Auto-increment failed: " + ValueErrorText(e), DictDetails([("primary_key", cols[0])])))
      case Ok(n) =>
        var filled := row + [(cols[0], Int(n))];
        assert Keys(filled)[|row|] == cols[0];
        Ok(filled)
    else Err(MissingKeyError(missing, cols))
  }

  /** The first key column whose field is missing or null. */
  function FirstNullField(row: Dict<string, Value>, cols: seq<string>): (c: Option<string>)
    ensures c.None? <==> forall j :: 0 <= j < |cols| ==> !FieldValue(row, cols[j]).Null?
    ensures c.Some? ==> c.value in cols && FieldValue(row, c.value).Null?
  {
    if |cols| == 0 then None
    else if FieldValue(row, cols[0]).Null? then Some(cols[0])
    else FirstNullField(row, cols[1..])
  }

  function NullFieldError(c: string, row: Dict<string, Value>): Exception {
    Error(DataValidation, "Primary key column '" + c + "' cannot be null",
          DictDetails([("primary_key", c), ("row_data", DictRepr(row))]))
  }

  /**
   * The uniqueness test of `add_row`: a single key is looked up among its
   * column's values first, then among the index's; a composite key through
   * the row mask.
   */
  predicate KeyTaken(f: Frame, cols: seq<string>, row: Dict<string, Value>)
    requires |cols| >= 1
  {
    if |cols| == 1 then
      var v := FieldValue(row, cols[0]);
      if cols[0] in f.columns then exists i :: 0 <= i < |f.rows| && PandasEq(Cell(f.rows[i], cols[0]), v)
      else if IndexName(f) == Some(cols[0]) then exists i :: 0 <= i < |f.rows| && PandasEq(IndexValues(f)[i], v)
      else false
    else
      var m := PkMask(f, cols, Tuple(FieldsKey(row, cols)));
      m.Ok? && AnyTrue(m.value)
  }

  function TakenError(cols: seq<string>, row: Dict<string, Value>): Exception
    requires |cols| >= 1
  {
    if |cols| == 1 then
      var v := ValueStr(FieldValue(row, cols[0]));
      Error(DataValidation, "Primary key value " + v + " already exists",
            DictDetails([("primary_key", cols[0]), ("value", v)]))
    else
      var t := TupleRepr(FieldsKey(row, cols));
      Error(DataValidation, "Primary key combination " + t + " already exists",
            DictDetails([("primary_key", StringListRepr(cols)), ("value", t)]))
  }

  /** `add_row`'s checks in order: the key completed, no null key field, the key not yet taken. */
  function AddRowCheck(f: Frame, pk: PrimaryKey, row: Dict<string, Value>, validate: bool,
                       autoIncrement: bool, dbMax: int): (r: Result<Dict<string, Value>, Exception>)
    requires ValidKey(pk)
    ensures r.Ok? ==> row <= r.value
    ensures r.Ok? ==> forall j :: 0 <= j < |NormalizePrimaryKey(pk)| ==>
      HasKey(r.value, NormalizePrimaryKey(pk)[j]) && !FieldValue(r.value, NormalizePrimaryKey(pk)[j]).Null?
    ensures r.Err? ==> r.error.Raised? && r.error.error.cls == DataValidation
    ensures var cols, fill := NormalizePrimaryKey(pk), FillKey(f, pk, row, autoIncrement, dbMax);
      r.Ok? <==> fill.Ok? && FirstNullField(fill.value, cols).None? && !(validate && KeyTaken(f, cols, fill.value))
    ensures var cols, fill := NormalizePrimaryKey(pk), FillKey(f, pk, row, autoIncrement, dbMax);
      && (r.Ok? ==> r.value == fill.value)
      && (fill.Err? ==> r == Err(fill.error))
      && (fill.Ok? && FirstNullField(fill.value, cols).Some? ==>
            r == Err(NullFieldError(FirstNullField(fill.value, cols).value, fill.value)))
      && (fill.Ok? && FirstNullField(fill.value, cols).None? && r.Err? ==> r == Err(TakenError(cols, fill.value)))
  {
    var cols := NormalizePrimaryKey(pk);
    var fill := FillKey(f, pk, row, autoIncrement, dbMax);
    if fill.Err? then Err(fill.error)
    else
      var nul := FirstNullField(fill.value, cols);
      if nul.Some? then Err(NullFieldError(nul.value, fill.value))
      else if validate && KeyTaken(f, cols, fill.value) then Err(TakenError(cols, fill.value))
      else Ok(fill.value)
  }

  /**
   * A row that passed the uniqueness check carries a key no row of the
   * table carried, as the key lookups of the editors read it.
   */
  lemma AddedKeyFresh(f: Frame, pk: PrimaryKey, row: Dict<string, Value>, autoIncrement: bool, dbMax: int)
    requires ValidKey(pk) && Wf(f) && Unshadowed(f, NormalizePrimaryKey(pk))
    requires AddRowCheck(f, pk, row, true, autoIncrement, dbMax).Ok?
    ensures var cols := NormalizePrimaryKey(pk);
      var filled := AddRowCheck(f, pk, row, true, autoIncrement, dbMax).value;
      forall i :: 0 <= i < |f.rows| ==> !RowMatches(f, cols, FieldsPkValue(filled, cols), f.rows[i])
  {
    var cols := NormalizePrimaryKey(pk);
    var filled := AddRowCheck(f, pk, row, true, autoIncrement, dbMax).value;
    var v := FieldsPkValue(filled, cols);
    assert !KeyTaken(f, cols, filled);
    forall i | 0 <= i < |f.rows| ensures !RowMatches(f, cols, v, f.rows[i]) {
      if |cols| == 1 {
        var c := cols[0];
        if c !in f.columns && IndexName(f) == Some(c) {
          assert IndexValues(f)[i] == f.rows[i].indexLabel[0];
          assert !PandasEq(IndexValues(f)[i], v.value);
        } else if c in f.columns {
          assert !PandasEq(Cell(f.rows[i], c), v.value);
        }
      } else {
        var m := PkMask(f, cols, Tuple(FieldsKey(filled, cols)));
        assert m.Ok? && !m.value[i];
      }
    }
  }

  /**
   * `get_row` after a checked `add_row` returns the added row's record: the
   * new row is the only one carrying its key.
   */
  lemma AddedRowIsFound(f: Frame, pk: PrimaryKey, row: Dict<string, Value>, autoIncrement: bool, dbMax: int)
    requires ValidKey(pk) && Placed(f, NormalizePrimaryKey(pk)) && Unshadowed(f, NormalizePrimaryKey(pk))
    requires AddRowCheck(f, pk, row, true, autoIncrement, dbMax).Ok?
    ensures var cols := NormalizePrimaryKey(pk);
      var filled := AddRowCheck(f, pk, row, true, autoIncrement, dbMax).value;
      var g := AppendRecord(f, cols, filled);
      RowLookup(g, cols, FieldsPkValue(filled, cols)) == Ok(Some(RowRecord(g, g.rows[|f.rows|])))
  {
    var cols := NormalizePrimaryKey(pk);
    var filled := AddRowCheck(f, pk, row, true, autoIncrement, dbMax).value;
    var g := AppendRecord(f, cols, filled);
    var v := FieldsPkValue(filled, cols);
    AddedKeyFresh(f, pk, row, autoIncrement, dbMax);
    AppendedRowFound(f, cols, filled);
    RowLookupMeaning(g, cols, v);
    var i :| 0 <= i < |g.rows| && RowMatches(g, cols, v, g.rows[i]) &&
      (forall k :: 0 <= k < i ==> !RowMatches(g, cols, v, g.rows[k])) &&
      RowLookup(g, cols, v).value.value == RowRecord(g, g.rows[i]);
    assert i == |f.rows|;
  }

  /**
   * With auto-increment on a single key the row gets the generator's key,
   * which is above every key the table holds.
   */
  lemma AutoIncrementFillsNextKey(f: Frame, name: string, row: Dict<string, Value>, dbMax: int)
    requires !HasKey(row, name) && FillKey(f, Single(name), row, true, dbMax).Ok?
    ensures NextPk(f, Single(name), dbMax).Ok?
    ensures var n := NextPk(f, Single(name), dbMax).value;
      Get(FillKey(f, Single(name), row, true, dbMax).value, name) == Some(Int(n)) &&
      forall i :: 0 <= i < |f.rows| && KeyReadable(f, name) ==> KeyValuesRead(f, name)[i] != Int(n)
  {
    var n := NextPk(f, Single(name), dbMax).value;
    GetSnoc(row, name, Int(n), name);
    NextPkFresh(f, Single(name), dbMax);
  }

  /** Key values read from the index when one row labelled `[k]` is added after the others. */
  lemma {:induction false} IndexValuesSnoc(f: Frame, g: Frame, name: string, k: Value)
    requires IndexName(f) == Some(name) && g.index == f.index && |g.rows| == |f.rows| + 1
    requires forall i :: 0 <= i < |f.rows| ==> g.rows[i] == f.rows[i]
    requires g.rows[|f.rows|].indexLabel == [k]
    ensures KeyReadable(g, name) && KeyValuesRead(g, name) == KeyValuesRead(f, name) + [k]
  {
    assert KeyValuesRead(g, name) == IndexValues(g);
    assert IndexValues(g)[|f.rows|] == k;
  }

  /** Key values read from a column when one row holding `k` there is added after the others. */
  lemma {:induction false} ColumnValuesSnoc(f: Frame, g: Frame, name: string, k: Value)
    requires IndexName(f) != Some(name) && IndexName(g) != Some(name) && name in g.columns
    requires |g.rows| == |f.rows| + 1 && Cell(g.rows[|f.rows|], name) == k
    requires forall i :: 0 <= i < |f.rows| ==> g.rows[i].cells == f.rows[i].cells
    ensures KeyReadable(g, name) && KeyValuesRead(g, name) == KeyValuesRead(f, name) + [k]
  {
    var vs := ColumnValues(f, name);
    var ws := ColumnValues(g, name);
    forall i | 0 <= i < |f.rows|
      ensures ws[i] == vs[i]
    {
      assert Cell(g.rows[i], name) == Cell(f.rows[i], name);
    }
    assert ws == vs + [k];
  }

  /** The key values the generator reads after a row carrying key value `k` is appended. */
  lemma {:induction false} KeyValuesAppended(f: Frame, name: string, filled: Dict<string, Value>, k: Value)
    requires Placed(f, [name]) && FieldValue(filled, name) == k && HasKey(filled, name)
    requires KeyReadable(f, name) || |f.rows| == 0
    ensures KeyReadable(AppendRecord(f, [name], filled), name)
    ensures KeyValuesRead(AppendRecord(f, [name], filled), name) == KeyValuesRead(f, name) + [k]
  {
    var g := AppendRecord(f, [name], filled);
    AppendedRow(f, [name], filled);
    if KeyIsIndex(f, [name]) {
      assert !IsMultiIndex(f);
      assert FieldsKey(filled, [name]) == [k];
      IndexValuesSnoc(f, g, name, k);
    } else {
      assert Cell(g.rows[|f.rows|], name) == k;
      ColumnValuesSnoc(f, g, name, k);
    }
  }

  /**
   * Successive auto-increments give consecutive keys: once the row with the
   * generated key is appended, the generator yields the next integer.
   */
  lemma {:induction false} AutoIncrementConsecutive(f: Frame, name: string, row: Dict<string, Value>, dbMax: int)
    requires Placed(f, [name]) && !HasKey(row, name) && FillKey(f, Single(name), row, true, dbMax).Ok?
    requires KeyReadable(f, name) || |f.rows| == 0
    ensures NextPk(f, Single(name), dbMax).Ok?
    ensures NextPk(AppendRecord(f, [name], FillKey(f, Single(name), row, true, dbMax).value), Single(name), dbMax)
            == Ok(NextPk(f, Single(name), dbMax).value + 1)
  {
    AutoIncrementFillsNextKey(f, name, row, dbMax);
    AppendGeneratedKey(f, name, FillKey(f, Single(name), row, true, dbMax).value, dbMax, NextPk(f, Single(name), dbMax).value);
  }

  /** Appending a row that carries the generated key moves the generator one on. */
  lemma AppendGeneratedKey(f: Frame, name: string, filled: Dict<string, Value>, dbMax: int, n: int)
    requires Placed(f, [name]) && Get(filled, name) == Some(Int(n)) && NextPk(f, Single(name), dbMax) == Ok(n)
    requires KeyReadable(f, name) || |f.rows| == 0
    ensures NextPk(AppendRecord(f, [name], filled), Single(name), dbMax) == Ok(n + 1)
  {
    KeyValuesAppended(f, name, filled, Int(n));
    NextPkAfterGenerated(f, AppendRecord(f, [name], filled), name, dbMax, n);
  }

  /* ---------- update_row and update_where ---------- */

  function ImmutableKeyError(present: seq<string>, cols: seq<string>): Exception {
    Error(DataValidation,
          "Cannot update primary key column(s): " + StringListRepr(present) + ". Primary keys are immutable. " +
          "To change a primary key, delete the row and insert a new one with the desired key.",
          DictDetails([("attempted_pk_updates", StringListRepr(present)), ("primary_key", StringListRepr(cols))]))
  }

  function NotFoundError(v: PkValue): Exception {
    ValueError("No row found with primary key value: " + PkValueStr(v))
  }

  /** The rows carrying `v`, or the error of `update_row` and `delete_row` when none does. */
  function SelectRow(f: Frame, cols: seq<string>, v: PkValue): (r: Result<seq<bool>, Exception>)
    ensures r.Ok? ==> |r.value| == |f.rows| && AnyTrue(r.value)
    ensures r.Ok? ==> forall i :: 0 <= i < |f.rows| ==> r.value[i] == RowMatches(f, cols, v, f.rows[i])
    ensures r.Err? <==> KeyShapeError(cols, v).Some? || forall i :: 0 <= i < |f.rows| ==> !RowMatches(f, cols, v, f.rows[i])
  {
    match PkMask(f, cols, v)
    case Err(e) => Err(e)
    case Ok(m) =>
      if AnyTrue(m) then Ok(m)
      else
        assert forall i :: 0 <= i < |f.rows| ==> !m[i];
        Err(NotFoundError(v))
  }

  /** `update_row`'s checks: no key column among the updates, then a row carrying the key. */
  function UpdateRowCheck(f: Frame, cols: seq<string>, v: PkValue, updates: Dict<string, Value>)
    : (r: Result<seq<bool>, Exception>)
    ensures r.Ok? ==> |r.value| == |f.rows| && forall j :: 0 <= j < |cols| ==> !HasKey(updates, cols[j])
    ensures r.Ok? ==> forall i :: 0 <= i < |f.rows| ==> r.value[i] == RowMatches(f, cols, v, f.rows[i])
    ensures r.Ok? <==> (forall j :: 0 <= j < |cols| ==> !HasKey(updates, cols[j])) && KeyShapeError(cols, v).None? &&
                       exists i :: 0 <= i < |f.rows| && RowMatches(f, cols, v, f.rows[i])
    ensures (exists j :: 0 <= j < |cols| && HasKey(updates, cols[j])) ==>
            r == Err(ImmutableKeyError(PresentFields(updates, cols), cols))
  {
    var present := PresentFields(updates, cols);
    PresentFieldsEmpty(updates, cols);
    if |present| > 0 then Err(ImmutableKeyError(present, cols))
    else SelectRow(f, cols, v)
  }

  /**
   * `update_row` changes exactly the rows carrying the key: each updated
   * column takes its new value there, every other cell and every other row
   * is unchanged.
   */
  lemma UpdateRowEffect(f: Frame, cols: seq<string>, v: PkValue, updates: Dict<string, Value>)
    requires UniqueKeys(updates) && UpdateRowCheck(f, cols, v, updates).Ok?
    ensures var mask := UpdateRowCheck(f, cols, v, updates).value;
      var g := AssignAll(f, mask, Constants(updates));
      && |g.rows| == |f.rows|
      && (forall i, k :: 0 <= i < |f.rows| && RowMatches(f, cols, v, f.rows[i]) && 0 <= k < |updates| ==>
            Cell(g.rows[i], updates[k].0) == updates[k].1)
      && (forall i :: 0 <= i < |f.rows| && !RowMatches(f, cols, v, f.rows[i]) ==> g.rows[i] == f.rows[i])
      && (forall i, c :: 0 <= i < |f.rows| && !HasKey(updates, c) ==> Cell(g.rows[i], c) == Cell(f.rows[i], c))
  {
    UpdateMatchedRows(f, cols, v, UpdateRowCheck(f, cols, v, updates).value, updates);
  }

  /** Assigning constants under the mask of the rows carrying a key. */
  lemma UpdateMatchedRows(f: Frame, cols: seq<string>, v: PkValue, mask: seq<bool>, updates: Dict<string, Value>)
    requires UniqueKeys(updates) && |mask| == |f.rows|
    requires forall i :: 0 <= i < |f.rows| ==> mask[i] == RowMatches(f, cols, v, f.rows[i])
    ensures var g := AssignAll(f, mask, Constants(updates));
      && |g.rows| == |f.rows|
      && (forall i, k :: 0 <= i < |f.rows| && RowMatches(f, cols, v, f.rows[i]) && 0 <= k < |updates| ==>
            Cell(g.rows[i], updates[k].0) == updates[k].1)
      && (forall i :: 0 <= i < |f.rows| && !RowMatches(f, cols, v, f.rows[i]) ==> g.rows[i] == f.rows[i])
      && (forall i, c :: 0 <= i < |f.rows| && !HasKey(updates, c) ==> Cell(g.rows[i], c) == Cell(f.rows[i], c))
  {
    var ups := Constants(updates);
    assert UniqueKeys(ups);
    assert forall c :: HasKey(ups, c) == HasKey(updates, c);
    AssignAllSets(f, mask, ups);
    var g := AssignAll(f, mask, ups);
    forall i, k | 0 <= i < |f.rows| && RowMatches(f, cols, v, f.rows[i]) && 0 <= k < |updates|
      ensures Cell(g.rows[i], updates[k].0) == updates[k].1
    {
      assert mask[i] && ups[k] == (updates[k].0, Constant(updates[k].1));
    }
  }

  /** Neither `update_row` nor `update_where` changes which rows carry a key. */
  lemma UpdatesKeepKeys(f: Frame, cols: seq<string>, mask: seq<bool>, ups: Dict<string, Assigned>, w: PkValue)
    requires |mask| == |f.rows| && forall j :: 0 <= j < |cols| ==> !HasKey(ups, cols[j])
    ensures var g := AssignAll(f, mask, ups);
      forall i :: 0 <= i < |f.rows| ==> RowMatches(g, cols, w, g.rows[i]) == RowMatches(f, cols, w, f.rows[i])
  {
    forall i | 0 <= i < |f.rows| {
      AssignKeepsMatches(f, mask, ups, cols, w, i);
    }
  }

  /** The `updates` argument of `update_where`: a dictionary, or a single value or function. */
  datatype Updates = UpdateMap(assignments: Dict<string, Assigned>) | UpdateValue(single: Assigned)

  /** The first name that is not a column. */
  function FirstAbsentColumn(f: Frame, names: seq<string>): (c: Option<string>)
    ensures c.None? <==> forall j :: 0 <= j < |names| ==> names[j] in f.columns
    ensures c.Some? ==> c.value in names && c.value !in f.columns
  {
    if |names| == 0 then None
    else if names[0] !in f.columns then Some(names[0])
    else FirstAbsentColumn(f, names[1..])
  }

  const ColumnWithDictMessage: string := "When 'column' is specified, 'updates' should be a single value, not a dict"
  const NotDictMessage: string :=
    "'updates' must be a dictionary of {column: value_or_function} or a single value with column parameter"

  /** The assignments `update_where` is given, its shorthand form expanded. */
  function GivenUpdates(updates: Updates, column: Option<string>): (r: Result<Dict<string, Assigned>, Exception>)
    ensures r.Ok? <==> (column.Some? <==> updates.UpdateValue?)
    ensures r.Ok? && column.Some? ==> r.value == [(column.value, updates.single)]
    ensures r.Ok? && column.None? ==> r.value == updates.assignments
  {
    if column.Some? then
      if updates.UpdateMap? then Err(ValueError(ColumnWithDictMessage))
      else Ok([(column.value, updates.single)])
    else if updates.UpdateValue? then
      Err(ValueError(NotDictMessage))
    else Ok(updates.assignments)
  }

  /** No key column is assigned, and every assigned column exists. */
  function CheckAssignments(f: Frame, cols: seq<string>, ups: Dict<string, Assigned>): (r: Result<Dict<string, Assigned>, Exception>)
    ensures r.Ok? <==> (forall j :: 0 <= j < |cols| ==> !HasKey(ups, cols[j])) && forall k :: 0 <= k < |ups| ==> ups[k].0 in f.columns
    ensures r.Ok? ==> r.value == ups
  {
    var present := PresentFields(ups, cols);
    if |present| > 0 then
      assert present[0] in present;
      Err(ImmutableKeyError(present, cols))
    else
      var absent := FirstAbsentColumn(f, Keys(ups));
      assert forall k :: 0 <= k < |ups| ==> ups[k].0 == Keys(ups)[k];
      if absent.Some? then Err(ValueError("Column '" + absent.value + "' does not exist in DataFrame"))
      else Ok(ups)
  }

  /**
   * `update_where`'s checks: the shorthand form, a dictionary of updates, no
   * key column among them, every column present; the result is the
   * assignments to apply.
   */
  function UpdateWhereCheck(f: Frame, cols: seq<string>, updates: Updates, column: Option<string>)
    : (r: Result<Dict<string, Assigned>, Exception>)
    ensures r.Ok? ==> GivenUpdates(updates, column).Ok? && r.value == GivenUpdates(updates, column).value
    ensures r.Ok? ==> forall j :: 0 <= j < |cols| ==> !HasKey(r.value, cols[j])
    ensures r.Ok? ==> forall k :: 0 <= k < |r.value| ==> r.value[k].0 in f.columns
    ensures var given := GivenUpdates(updates, column);
      r.Ok? <==> given.Ok? && (forall j :: 0 <= j < |cols| ==> !HasKey(given.value, cols[j])) &&
                 forall k :: 0 <= k < |given.value| ==> given.value[k].0 in f.columns
    ensures GivenUpdates(updates, column).Err? ==> r == Err(GivenUpdates(updates, column).error)
  {
    match GivenUpdates(updates, column)
    case Err(e) => Err(e)
    case Ok(ups) => CheckAssignments(f, cols, ups)
  }

  /**
   * `update_where` changes exactly the selected rows: each assigned column
   * takes the assignment applied to its old cell there; the column list is
   * unchanged.
   */
  lemma UpdateWhereEffect(f: Frame, cols: seq<string>, mask: seq<bool>, updates: Updates, column: Option<string>)
    requires |mask| == |f.rows| && UpdateWhereCheck(f, cols, updates, column).Ok?
    requires UniqueKeys(UpdateWhereCheck(f, cols, updates, column).value)
    ensures var ups := UpdateWhereCheck(f, cols, updates, column).value;
      var g := AssignAll(f, mask, ups);
      && (forall c :: c in g.columns <==> c in f.columns)
      && (forall i, k :: 0 <= i < |f.rows| && mask[i] && 0 <= k < |ups| ==>
            Cell(g.rows[i], ups[k].0) == Apply(ups[k].1, Cell(f.rows[i], ups[k].0)))
      && (forall i :: 0 <= i < |f.rows| && !mask[i] ==> g.rows[i] == f.rows[i])
  {
    var ups := UpdateWhereCheck(f, cols, updates, column).value;
    AssignAllSets(f, mask, ups);
    var g := AssignAll(f, mask, ups);
    forall c ensures c in g.columns <==> c in f.columns {
      if HasKey(ups, c) {
        var k :| 0 <= k < |ups| && Keys(ups)[k] == c;
        assert ups[k].0 == c;
      }
    }
  }

  /* ---------- delete_row and delete_where ---------- */

  /**
   * `delete_row` removes every row carrying the key, and at least one:
   * afterwards no row carries it.
   */
  lemma DeleteRowEffect(f: Frame, cols: seq<string>, v: PkValue)
    requires SelectRow(f, cols, v).Ok?
    ensures var mask := SelectRow(f, cols, v).value;
      var g := DeleteMatching(f, cols, mask);
      && |g.rows| == |f.rows| - CountTrue(mask) < |f.rows|
      && forall i :: 0 <= i < |g.rows| ==> !RowMatches(g, cols, v, g.rows[i])
  {
    var mask := SelectRow(f, cols, v).value;
    DeleteCount(f, cols, mask);
    DeletedKeyGone(f, cols, v);
    CountPositive(mask);
  }

  lemma {:induction false} CountPositive(m: seq<bool>)
    requires AnyTrue(m)
    ensures CountTrue(m) > 0
  {
    if !m[0] {
      var j :| 0 <= j < |m| && m[j];
      assert m[1..][j - 1];
      CountPositive(m[1..]);
    }
  }

  /* ---------- upsert_row ---------- */

  /**
   * `upsert_row`: the missing-key error, or the frame after updating the
   * row carrying the key with the other fields, or after adding the row
   * unchecked.
   */
  function UpsertResult(f: Frame, pk: PrimaryKey, row: Dict<string, Value>): (r: Result<Frame, Exception>)
    requires ValidKey(pk)
  {
    var cols := NormalizePrimaryKey(pk);
    var missing := MissingFields(row, cols);
    if |missing| > 0 then Err(MissingKeyError(missing, cols))
    else
      var m := PkMask(f, cols, FieldsPkValue(row, cols));
      if m.Ok? && AnyTrue(m.value) then Ok(AssignAll(f, m.value, Constants(NonKeyFields(row, cols))))
      else
        match AddRowCheck(f, pk, row, false, false, 0)
        case Err(e) => Err(e)
        case Ok(filled) => Ok(AppendRecord(f, cols, filled))
  }

  /** After a successful upsert some row carries the key, with every other field as given. */
  lemma UpsertFindsKey(f: Frame, pk: PrimaryKey, row: Dict<string, Value>)
    requires ValidKey(pk) && Placed(f, NormalizePrimaryKey(pk)) && UniqueKeys(row)
    requires UpsertResult(f, pk, row).Ok?
    ensures var cols := NormalizePrimaryKey(pk);
      var g := UpsertResult(f, pk, row).value;
      exists i :: 0 <= i < |g.rows| && RowMatches(g, cols, FieldsPkValue(row, cols), g.rows[i]) &&
        forall k :: 0 <= k < |row| && row[k].0 !in cols ==> Cell(g.rows[i], row[k].0) == row[k].1
  {
    var cols := NormalizePrimaryKey(pk);
    var v := FieldsPkValue(row, cols);
    var m := PkMask(f, cols, v);
    assert KeyShapeError(cols, v).None?;
    if AnyTrue(m.value) {
      var i :| 0 <= i < |m.value| && m.value[i];
      UpsertUpdates(f, cols, row, m.value, i);
    } else {
      var filled := AddRowCheck(f, pk, row, false, false, 0).value;
      assert filled == row;
      UpsertAdds(f, cols, row);
    }
  }

  /** The update path of `upsert_row`: the selected row keeps its key and takes the other fields. */
  lemma UpsertUpdates(f: Frame, cols: seq<string>, row: Dict<string, Value>, mask: seq<bool>, i: nat)
    requires |mask| == |f.rows| && i < |f.rows| && mask[i] && UniqueKeys(row)
    requires RowMatches(f, cols, FieldsPkValue(row, cols), f.rows[i])
    ensures var g := AssignAll(f, mask, Constants(NonKeyFields(row, cols)));
      RowMatches(g, cols, FieldsPkValue(row, cols), g.rows[i]) &&
      forall k :: 0 <= k < |row| && row[k].0 !in cols ==> Cell(g.rows[i], row[k].0) == row[k].1
  {
    var rest := NonKeyFields(row, cols);
    WithoutUniqueKeys(row, set c | c in cols);
    var ups := Constants(rest);
    assert UniqueKeys(ups);
    AssignAllSets(f, mask, ups);
    AssignKeepsMatches(f, mask, ups, cols, FieldsPkValue(row, cols), i);
    var g := AssignAll(f, mask, ups);
    forall k | 0 <= k < |row| && row[k].0 !in cols ensures Cell(g.rows[i], row[k].0) == row[k].1 {
      var c := row[k].0;
      assert Keys(row)[k] == c;
      assert HasKey(rest, c);
      var p :| 0 <= p < |rest| && Keys(rest)[p] == c;
      GetAt(row, k);
      GetAt(rest, p);
      assert ups[p] == (c, Constant(rest[p].1));
    }
  }

  /** The insert path of `upsert_row`: the appended row carries the key and every other field. */
  lemma UpsertAdds(f: Frame, cols: seq<string>, row: Dict<string, Value>)
    requires |cols| >= 1 && Placed(f, cols) && UniqueKeys(row)
    requires forall j :: 0 <= j < |cols| ==> !FieldValue(row, cols[j]).Null?
    ensures var g := AppendRecord(f, cols, row);
      RowMatches(g, cols, FieldsPkValue(row, cols), g.rows[|f.rows|]) &&
      forall k :: 0 <= k < |row| && row[k].0 !in cols ==> Cell(g.rows[|f.rows|], row[k].0) == row[k].1
  {
    AppendedRowFound(f, cols, row);
    AppendedRow(f, cols, row);
    forall k | 0 <= k < |row| && row[k].0 !in cols ensures FieldValue(row, row[k].0) == row[k].1 {
      GetAt(row, k);
    }
  }

  /* ---------- bulk_insert ---------- */

  /** The first row lacking a key field, as the source's loop finds it. */
  function FirstIncompleteRow(rows: seq<Dict<string, Value>>, cols: seq<string>): (i: Option<nat>)
    ensures i.None? <==> forall k :: 0 <= k < |rows| ==> MissingFields(rows[k], cols) == []
    ensures i.Some? ==> i.value < |rows| && MissingFields(rows[i.value], cols) != [] &&
                        forall k :: 0 <= k < i.value ==> MissingFields(rows[k], cols) == []
  {
    if |rows| == 0 then None
    else if MissingFields(rows[0], cols) != [] then Some(0)
    else
      match FirstIncompleteRow(rows[1..], cols)
      case None => None
      case Some(j) => Some(j + 1)
  }

  /** Two new rows with the same key. */
  predicate BulkDuplicates(rows: seq<Dict<string, Value>>, cols: seq<string>) {
    exists a, b :: 0 <= a < b < |rows| && FieldsKey(rows[a], cols) == FieldsKey(rows[b], cols)
  }

  /** The values a single key already takes: from the index named after it, else from its column. */
  function ExistingKeyValues(f: Frame, c: string): set<Value> {
    if IndexName(f) == Some(c) then set i | 0 <= i < |f.rows| :: IndexValues(f)[i]
    else if c in f.columns then set i | 0 <= i < |f.rows| :: Cell(f.rows[i], c)
    else {}
  }

  function NewKeyValues(rows: seq<Dict<string, Value>>, c: string): set<Value> {
    set k | 0 <= k < |rows| :: FieldValue(rows[k], c)
  }

  /** The values the new rows give a single key, in row order. */
  function KeyColumnValues(rows: seq<Dict<string, Value>>, c: string): (vs: seq<Value>)
    ensures |vs| == |rows| && forall k :: 0 <= k < |rows| ==> vs[k] == FieldValue(rows[k], c)
  {
    seq(|rows|, k requires 0 <= k < |rows| => FieldValue(rows[k], c))
  }

  /**
   * The values of `vs` that lie in `keep`, each once, in the order they
   * first appear: the order in which the conflicts are listed.
   */
  function FirstAppearances(vs: seq<Value>, keep: set<Value>): (list: seq<Value>)
    ensures forall x :: x in list <==> x in vs && x in keep
    ensures forall a, b :: 0 <= a < b < |list| ==> list[a] != list[b]
    decreases |vs|
  {
    if |vs| == 0 then []
    else
      var front, x := vs[..|vs| - 1], vs[|vs| - 1];
      assert vs == front + [x];
      var prev := FirstAppearances(front, keep);
      if x in keep && x !in prev then prev + [x] else prev
  }

  /** The new key values some row of the table already carries, as `bulk_insert` reports them. */
  function KeyConflicts(f: Frame, rows: seq<Dict<string, Value>>, c: string): (list: seq<Value>)
    ensures forall x :: x in list <==> x in ExistingKeyValues(f, c) * NewKeyValues(rows, c)
    ensures forall a, b :: 0 <= a < b < |list| ==> list[a] != list[b]
  {
    var vs := KeyColumnValues(rows, c);
    var list := FirstAppearances(vs, ExistingKeyValues(f, c));
    assert forall x :: x in vs <==> x in NewKeyValues(rows, c) by {
      forall x ensures x in vs <==> x in NewKeyValues(rows, c) {
        if x in NewKeyValues(rows, c) {
          var k :| 0 <= k < |rows| && x == FieldValue(rows[k], c);
          assert vs[k] == x;
        }
      }
    }
    list
  }

  /** No conflict is listed exactly when no new key value is already taken. */
  lemma KeyConflictsEmpty(f: Frame, rows: seq<Dict<string, Value>>, c: string)
    ensures |KeyConflicts(f, rows, c)| == 0 <==> ExistingKeyValues(f, c) * NewKeyValues(rows, c) == {}
  {
    var list := KeyConflicts(f, rows, c);
    if |list| > 0 {
      assert list[0] in ExistingKeyValues(f, c) * NewKeyValues(rows, c);
    }
    if x :| x in ExistingKeyValues(f, c) * NewKeyValues(rows, c) {
      assert x in list;
    }
  }

  function IncompleteRowError(i: nat, missing: seq<string>): (e: Exception)
    ensures e.Raised? && e.error.cls == DataValidation
  {
    Error(DataValidation,
          "Row " + NatToString(i) + " missing required primary key column(s): " + StringListRepr(missing),
          DictDetails([("row_index", NatToString(i)), ("missing", StringListRepr(missing))]))
  }

  function BulkDuplicateError(cols: seq<string>): (e: Exception)
    requires |cols| >= 1
    ensures e.Raised? && e.error.cls == DataValidation
  {
    if |cols| == 1 then
      Error(DataValidation, "Bulk insert contains duplicate primary key values", ColumnDetails(cols[0]))
    else
      Error(DataValidation, "Bulk insert contains duplicate primary key combinations", ColumnsDetails(cols))
  }

  /** The count is of distinct conflicting values; at most ten of them are listed. */
  function BulkConflictError(conflicts: seq<Value>): (e: Exception)
    ensures e.Raised? && e.error.cls == DataValidation
  {
    var shown := if |conflicts| <= 10 then conflicts else conflicts[..10];
    Error(DataValidation,
          "Bulk insert contains " + NatToString(|conflicts|) + " primary key(s) that already exist",
          DictDetails([("conflicts", ListRepr(ValueReprs(shown)))]))
  }

  /**
   * `bulk_insert`'s checks in order: every row carries every key column,
   * no key is repeated among the rows, and a single key takes no value the
   * table already holds (a composite key is not checked against the table).
   */
  function BulkInsertCheck(f: Frame, cols: seq<string>, rows: seq<Dict<string, Value>>): (e: Option<Exception>)
    requires |cols| >= 1
    ensures e.None? <==> (forall k :: 0 <= k < |rows| ==> MissingFields(rows[k], cols) == []) &&
                         !BulkDuplicates(rows, cols) &&
                         (|cols| == 1 ==> ExistingKeyValues(f, cols[0]) * NewKeyValues(rows, cols[0]) == {})
    ensures e.Some? ==> e.value.Raised? && e.value.error.cls == DataValidation
    ensures FirstIncompleteRow(rows, cols).Some? ==>
              var i := FirstIncompleteRow(rows, cols).value;
              e == Some(IncompleteRowError(i, MissingFields(rows[i], cols)))
    ensures FirstIncompleteRow(rows, cols).None? && BulkDuplicates(rows, cols) ==> e == Some(BulkDuplicateError(cols))
    ensures FirstIncompleteRow(rows, cols).None? && !BulkDuplicates(rows, cols) && e.Some? ==>
              |cols| == 1 && e == Some(BulkConflictError(KeyConflicts(f, rows, cols[0])))
  {
    match FirstIncompleteRow(rows, cols)
    case Some(i) => Some(IncompleteRowError(i, MissingFields(rows[i], cols)))
    case None =>
      if BulkDuplicates(rows, cols) then Some(BulkDuplicateError(cols))
      else if |cols| == 1 then
        var conflicts := KeyConflicts(f, rows, cols[0]);
        KeyConflictsEmpty(f, rows, cols[0]);
        if |conflicts| > 0 then Some(BulkConflictError(conflicts)) else None
      else None
  }

  /** Rows that pass `bulk_insert`'s checks carry pairwise distinct keys. */
  lemma BulkKeysDistinct(f: Frame, cols: seq<string>, rows: seq<Dict<string, Value>>)
    requires |cols| >= 1 && BulkInsertCheck(f, cols, rows).None?
    ensures forall a, b :: 0 <= a < b < |rows| ==> FieldsPkValue(rows[a], cols) != FieldsPkValue(rows[b], cols)
  {
    forall a, b | 0 <= a < b < |rows| ensures FieldsPkValue(rows[a], cols) != FieldsPkValue(rows[b], cols) {
      assert KeyValue(FieldsPkValue(rows[a], cols)) == FieldsKey(rows[a], cols);
      assert KeyValue(FieldsPkValue(rows[b], cols)) == FieldsKey(rows[b], cols);
    }
  }

  /** A single key that passes `bulk_insert`'s checks is carried by none of the table's rows. */
  lemma BulkKeysFresh(f: Frame, c: string, rows: seq<Dict<string, Value>>)
    requires Wf(f) && BulkInsertCheck(f, [c], rows).None?
    ensures forall k, i :: 0 <= k < |rows| && 0 <= i < |f.rows| ==>
      !RowMatches(f, [c], FieldsPkValue(rows[k], [c]), f.rows[i])
  {
    BulkValuesDisjoint(f, c, rows);
    forall k, i | 0 <= k < |rows| && 0 <= i < |f.rows| ensures !RowMatches(f, [c], FieldsPkValue(rows[k], [c]), f.rows[i]) {
      var v := FieldValue(rows[k], c);
      assert v in NewKeyValues(rows, c);
      assert v !in ExistingKeyValues(f, c) by {
        assert v in ExistingKeyValues(f, c) ==> v in ExistingKeyValues(f, c) * NewKeyValues(rows, c);
      }
      AbsentValueUnmatched(f, c, v, i);
    }
  }

  lemma BulkValuesDisjoint(f: Frame, c: string, rows: seq<Dict<string, Value>>)
    requires BulkInsertCheck(f, [c], rows).None?
    ensures ExistingKeyValues(f, c) * NewKeyValues(rows, c) == {}
  {
    assert [c][0] == c;
  }

  /** A value the key does not take in the table matches no row. */
  lemma AbsentValueUnmatched(f: Frame, c: string, v: Value, i: nat)
    requires Wf(f) && i < |f.rows| && v !in ExistingKeyValues(f, c)
    ensures !RowMatches(f, [c], Scalar(v), f.rows[i])
  {
    if IndexName(f) == Some(c) {
      assert IndexValues(f)[i] in ExistingKeyValues(f, c);
      assert IndexValues(f)[i] == f.rows[i].indexLabel[0];
    } else if c in f.columns {
      assert Cell(f.rows[i], c) in ExistingKeyValues(f, c);
    }
  }

  /* ---------- Column edits ---------- */

  function ColumnExistsError(name: string): Exception {
    Error(Schema, "Column '" + name + "' already exists", ColumnDetails(name))
  }

  function NoColumnError(name: string): Exception {
    Error(Schema, "Column '" + name + "' does not exist", ColumnDetails(name))
  }

  /** `rename_column_safe`'s checks: the old name is a column, the new one is not. */
  function RenameCheck(f: Frame, oldName: string, newName: string): (e: Option<Exception>)
    ensures e.None? <==> oldName in f.columns && newName !in f.columns
  {
    if oldName !in f.columns then Some(NoColumnError(oldName))
    else if newName in f.columns then Some(ColumnExistsError(newName))
    else None
  }

  /** A rename keeps a valid key valid and never changes its length. */
  lemma RenameKeyValid(pk: PrimaryKey, oldName: string, newName: string)
    requires ValidKey(pk)
    ensures ValidKey(RenameKey(pk, oldName, newName))
    ensures |NormalizePrimaryKey(RenameKey(pk, oldName, newName))| == |NormalizePrimaryKey(pk)|
  {
  }

  /* ---------- set_primary_key ---------- */

  /** `set_primary_key`'s checks: every new key column exists, and, when validating, the key is present and unique. */
  const SetKeyMissingPrefix := "Cannot set primary key: column(s) "
  const DoNotExistSuffix := " do not exist"

  function SetKeyCheck(f: Frame, cols: seq<string>, validate: bool): (e: Option<Exception>)
    ensures e.None? ==> AllColumns(f, cols)
    ensures e.None? && validate ==> IntegrityIssues(f, cols) == []
    ensures e.None? <==> AllColumns(f, cols) && (validate ==> IntegrityIssues(f, cols) == [])
    ensures !AllColumns(f, cols) ==> e.Some? && e.value.Raised? && e.value.error.cls == Schema
    ensures AllColumns(f, cols) && e.Some? ==>
              e == Some(IntegrityResult(f, cols, true).error) && e.value.Raised? && e.value.error.cls == DataValidation
  {
    var missing := MissingColumns(f, cols);
    MissingColumnsEmpty(f, cols);
    if |missing| > 0 then
      Some(Error(Schema, SetKeyMissingPrefix + StringListRepr(missing) + DoNotExistSuffix,
                 ColumnsDetails(missing)))
    else if validate && IntegrityResult(f, cols, true).Err? then Some(IntegrityResult(f, cols, true).error)
    else None
  }

  /** No key column is missing exactly when every key column is in the frame. */
  lemma MissingColumnsEmpty(f: Frame, cols: seq<string>)
    ensures |MissingColumns(f, cols)| == 0 <==> AllColumns(f, cols)
  {
    var missing := MissingColumns(f, cols);
    if |missing| > 0 {
      assert missing[0] in missing;
    }
    if j :| 0 <= j < |cols| && cols[j] !in f.columns {
      assert cols[j] in missing;
    }
  }

  /** The index is reset first when it has a name or levels. */
  predicate NeedsReset(f: Frame) {
    IndexName(f).Some? || IsMultiIndex(f)
  }

  /** The frame `set_primary_key` leaves: a named index reset into the columns, then the key moved into the index. */
  function KeyedFrame(f: Frame, cols: seq<string>): Result<Frame, Exception>
    requires Wf(f)
  {
    var staged := if NeedsReset(f) then ResetIndex(f) else Ok(f);
    match staged
    case Err(e) => Err(e)
    case Ok(g) => SetPkAsIndex(g, cols)
  }

  /** The cells of a row with its index levels inserted: the levels are added, other cells kept. */
  lemma {:induction false} LevelCellsFacts(r: Row, names: seq<string>)
    requires |r.indexLabel| == |names|
    ensures forall c :: c in LevelCells(r, names) <==> c in r.cells || c in names
    ensures forall c :: c in r.cells && c !in names ==> LevelCells(r, names)[c] == r.cells[c]
    decreases |names|
  {
    if |names| > 0 {
      LevelCellsFacts(Row(r.indexLabel[1..], r.cells), names[1..]);
      assert forall c :: c in names <==> c == names[0] || c in names[1..];
    }
  }

  /**
   * Setting a present key as the index succeeds unless resetting a named
   * index would clash with a column; it then indexes every row by its key,
   * in order, and keeps the table's layout.
   */
  lemma KeyedFrameEffect(f: Frame, cols: seq<string>)
    requires Wf(f) && CellsInColumns(f) && |cols| >= 1 && AllColumns(f, cols)
    ensures KeyedFrame(f, cols).Err? <==>
            NeedsReset(f) && exists j :: 0 <= j < |f.index| && LevelColumn(f, j) in f.columns
    ensures KeyedFrame(f, cols).Ok? ==>
      var g := KeyedFrame(f, cols).value;
      && g.index == Names(cols) && |g.rows| == |f.rows| && Placed(g, cols)
      && forall i :: 0 <= i < |f.rows| ==> g.rows[i].indexLabel == KeyOf(f.rows[i], cols)
  {
    if NeedsReset(f) && ResetIndex(f).Ok? {
      var s := ResetIndex(f).value;
      var names := LevelColumns(f);
      assert AllColumns(s, cols);
      forall i | 0 <= i < |f.rows| ensures s.rows[i].cells == LevelCells(f.rows[i], names) {
      }
      forall i | 0 <= i < |f.rows| ensures KeyOf(s.rows[i], cols) == KeyOf(f.rows[i], cols) {
        LevelCellsFacts(f.rows[i], names);
        forall j | 0 <= j < |cols| ensures Cell(s.rows[i], cols[j]) == Cell(f.rows[i], cols[j]) {
          assert forall l :: 0 <= l < |names| ==> names[l] == LevelColumn(f, l) && names[l] !in f.columns;
          assert cols[j] !in names;
        }
      }
      assert CellsInColumns(s) by {
        forall i, c | 0 <= i < |s.rows| && c in s.rows[i].cells ensures c in s.columns {
          LevelCellsFacts(f.rows[i], names);
          assert c in f.rows[i].cells || c in names;
        }
      }
      SetIndexPlaced(s, cols);
    } else if !NeedsReset(f) {
      SetIndexPlaced(f, cols);
    }
  }

  lemma SetIndexPlaced(f: Frame, cols: seq<string>)
    requires |cols| >= 1 && CellsInColumns(f)
    ensures Placed(SetIndex(f, cols), cols)
  {
    var g := SetIndex(f, cols);
    forall i, c | 0 <= i < |g.rows| && c in g.rows[i].cells ensures c in g.columns {
      assert c in f.rows[i].cells && c !in cols;
    }
  }

  /** A key that can be set as the index lives in the columns only. */
  lemma KeyedKeyPlaced(f: Frame, cols: seq<string>)
    requires Wf(f) && CellsInColumns(f) && |cols| >= 1 && AllColumns(f, cols) && KeyedFrame(f, cols).Ok?
    ensures KeyPlaced(f, cols)
  {
    KeyedFrameEffect(f, cols);
    forall j | 0 <= j < |cols| ensures !InIndex(f, cols[j]) {
      assert forall l :: 0 <= l < |f.index| && f.index[l] == Some(cols[j]) ==> LevelColumn(f, l) == cols[j];
    }
  }

  /**
   * A key that passed the integrity check is, once set as the index, free
   * of nulls and distinct from row to row.
   */
  lemma ValidatedKeyIndexed(f: Frame, cols: seq<string>)
    requires Wf(f) && CellsInColumns(f) && |cols| >= 1
    requires SetKeyCheck(f, cols, true).None? && KeyedFrame(f, cols).Ok?
    ensures var g := KeyedFrame(f, cols).value;
      && (forall i, i' :: 0 <= i < i' < |g.rows| ==> g.rows[i].indexLabel != g.rows[i'].indexLabel)
      && (forall i :: 0 <= i < |g.rows| ==> |g.rows[i].indexLabel| == |cols|)
      && (forall i, j :: 0 <= i < |g.rows| && 0 <= j < |g.rows[i].indexLabel| ==> !g.rows[i].indexLabel[j].Null?)
  {
    assert AllColumns(f, cols) && IntegrityIssues(f, cols) == [];
    KeyedFrameEffect(f, cols);
    KeyedKeyPlaced(f, cols);
    IntegrityMatchesPrimaryKeyCheck(f, cols);
    assert KeyNullFree(f, cols) && KeyUnique(f, cols);
    var g := KeyedFrame(f, cols).value;
    forall i, i' | 0 <= i < i' < |g.rows| ensures g.rows[i].indexLabel != g.rows[i'].indexLabel {
      assert RowKey(f, cols, i) == g.rows[i].indexLabel;
      assert RowKey(f, cols, i') == g.rows[i'].indexLabel;
    }
    forall i, j | 0 <= i < |g.rows| && 0 <= j < |g.rows[i].indexLabel| ensures !g.rows[i].indexLabel[j].Null? {
      assert RowKey(f, cols, i) == g.rows[i].indexLabel;
    }
  }
}
