/**
 * How a tracked table finds, checks and generates primary-key values over
 * its frame: the row mask for a key value, the two integrity checks (the
 * raising `validate_primary_key` and the collecting `_validate_pk_integrity`),
 * `validate_data`, and the auto-increment key generator.
 */
module TableKeys {
  import opened Wrappers
  import opened Dicts
  import opened Values
  import opened Text
  import opened Frames
  import opened PkUtils
  import opened Exceptions

  /** The key a caller's value names: one component per key column. */
  function KeyValue(v: PkValue): Key {
    match v
    case Scalar(x) => [x]
    case Tuple(xs) => xs
  }

  /** `str(v)` of a key value as a caller passes it. */
  function PkValueStr(v: PkValue): string {
    match v
    case Scalar(x) => ValueStr(x)
    case Tuple(xs) => TupleRepr(xs)
  }

  /** A label equal to a tuple under pandas `==`: same length, each component equal and present. */
  predicate LabelMatches(lbl: Key, values: seq<Value>) {
    |lbl| == |values| && forall j :: 0 <= j < |values| ==> PandasEq(lbl[j], values[j])
  }

  /**
   * Where the row editors look for the key first: a flat index named after
   * the single key column, or a MultiIndex naming every key column.
   */
  predicate KeyIsIndex(f: Frame, cols: seq<string>) {
    (|cols| == 1 && IndexName(f) == Some(cols[0])) || (IsMultiIndex(f) && AllIndexNames(f, cols))
  }

  predicate AnyTrue(m: seq<bool>) {
    exists i :: 0 <= i < |m| && m[i]
  }

  /**
   * Whether row `r` of a frame with `f`'s index and columns carries key value
   * `v`.  A single key is read from a flat index of that name, else from its
   * column; a composite key from a MultiIndex naming every key column, else
   * from the columns.  A key found in neither place matches nothing.
   */
  predicate RowMatches(f: Frame, cols: seq<string>, v: PkValue, r: Row) {
    if |cols| == 1 then
      v.Scalar? &&
      if IndexName(f) == Some(cols[0]) then LabelMatches(r.indexLabel, [v.value])
      else cols[0] in f.columns && PandasEq(Cell(r, cols[0]), v.value)
    else
      v.Tuple? &&
      if IsMultiIndex(f) && AllIndexNames(f, cols) then LabelMatches(r.indexLabel, v.values)
      else AllColumns(f, cols) && LabelMatches(KeyOf(r, cols), v.values)
  }

  /** A composite key demands a tuple with one value per key column. */
  function KeyShapeError(cols: seq<string>, v: PkValue): (e: Option<Exception>)
    ensures e.Some? <==> |cols| != 1 && (v.Scalar? || |v.values| != |cols|)
    ensures e.Some? ==> e.value.ValueError?
  {
    if |cols| == 1 then None
    else if v.Scalar? then
      Some(ValueError("Composite key requires tuple/list of " + NatToString(|cols|) +
                      " values, got " + TypeName(v.value)))
    else if |v.values| != |cols| then
      Some(ValueError("Expected " + NatToString(|cols|) + " values for composite key " +
                      StringListRepr(cols) + ", got " + NatToString(|v.values|)))
    else None
  }

  /** `_get_pk_condition`: the mask of the rows whose key equals `v`. */
  function PkMask(f: Frame, cols: seq<string>, v: PkValue): (r: Result<seq<bool>, Exception>)
    ensures r.Ok? ==> |r.value| == |f.rows|
    ensures r.Ok? ==> forall i :: 0 <= i < |f.rows| ==> r.value[i] == RowMatches(f, cols, v, f.rows[i])
    ensures r.Err? <==> KeyShapeError(cols, v).Some?
  {
    if KeyShapeError(cols, v).Some? then Err(KeyShapeError(cols, v).value)
    else Ok(seq(|f.rows|, i requires 0 <= i < |f.rows| => RowMatches(f, cols, v, f.rows[i])))
  }

  /** `_get_pk_condition`, with its column-by-column conjunction for a composite key in the columns. */
  method PkCondition(f: Frame, cols: seq<string>, v: PkValue) returns (r: Result<seq<bool>, Exception>)
    ensures r == PkMask(f, cols, v)
  {
    var shape := KeyShapeError(cols, v);
    if shape.Some? {
      return Err(shape.value);
    }
    if |cols| == 1 {
      if IndexName(f) == Some(cols[0]) {
        r := Ok(seq(|f.rows|, i requires 0 <= i < |f.rows| => v.Scalar? && LabelMatches(f.rows[i].indexLabel, [v.value])));
      } else if cols[0] in f.columns {
        r := Ok(seq(|f.rows|, i requires 0 <= i < |f.rows| => v.Scalar? && PandasEq(Cell(f.rows[i], cols[0]), v.value)));
      } else {
        r := Ok(seq(|f.rows|, i requires 0 <= i < |f.rows| => false));
      }
    } else if IsMultiIndex(f) && AllIndexNames(f, cols) {
      r := Ok(seq(|f.rows|, i requires 0 <= i < |f.rows| => LabelMatches(f.rows[i].indexLabel, v.values)));
    } else if AllColumns(f, cols) {
      var condition := seq(|f.rows|, i requires 0 <= i < |f.rows| => true);
      var j := 0;
      while j < |cols|
        invariant 0 <= j <= |cols| && |condition| == |f.rows|
        invariant forall i :: 0 <= i < |f.rows| ==>
          condition[i] == (forall k :: 0 <= k < j ==> PandasEq(Cell(f.rows[i], cols[k]), v.values[k]))
      {
        condition := seq(|f.rows|, i requires 0 <= i < |f.rows| =>
                           condition[i] && PandasEq(Cell(f.rows[i], cols[j]), v.values[j]));
        j := j + 1;
      }
      r := Ok(condition);
    } else {
      r := Ok(seq(|f.rows|, i requires 0 <= i < |f.rows| => false));
    }
    assert |r.value| == |f.rows| && forall i :: 0 <= i < |f.rows| ==> r.value[i] == RowMatches(f, cols, v, f.rows[i]);
    assert r.value == PkMask(f, cols, v).value;
  }

  /** The first true entry of a mask, as `df[mask].iloc[0]` takes it. */
  function FirstTrue(m: seq<bool>): (i: nat)
    requires AnyTrue(m)
    ensures i < |m| && m[i] && forall k :: 0 <= k < i ==> !m[k]
  {
    if m[0] then 0 else (assert AnyTrue(m[1..]) by { var j :| 0 <= j < |m| && m[j]; assert m[1..][j - 1]; } 1 + FirstTrue(m[1..]))
  }

  /** `get_row`: the record of the first row carrying the key, or nothing. */
  function RowLookup(f: Frame, cols: seq<string>, v: PkValue): Result<Option<Record>, Exception> {
    match PkMask(f, cols, v)
    case Err(e) => Err(e)
    case Ok(m) => if AnyTrue(m) then Ok(Some(RowRecord(f, f.rows[FirstTrue(m)]))) else Ok(None)
  }

  method GetRow(f: Frame, cols: seq<string>, v: PkValue) returns (r: Result<Option<Record>, Exception>)
    ensures r == RowLookup(f, cols, v)
  {
    var condition := PkCondition(f, cols, v);
    if condition.Err? {
      return Err(condition.error);
    }
    if !AnyTrue(condition.value) {
      return Ok(None);
    }
    r := Ok(Some(RowRecord(f, f.rows[FirstTrue(condition.value)])));
  }

  /** `row_exists`: whether some row carries the key; a malformed composite value raises. */
  method RowExists(f: Frame, cols: seq<string>, v: PkValue) returns (r: Result<bool, Exception>)
    ensures r.Err? <==> KeyShapeError(cols, v).Some?
    ensures r.Ok? ==> (r.value <==> exists i :: 0 <= i < |f.rows| && RowMatches(f, cols, v, f.rows[i]))
  {
    var condition := PkCondition(f, cols, v);
    if condition.Err? {
      return Err(condition.error);
    }
    r := Ok(AnyTrue(condition.value));
  }

  /**
   * `get_row` finds a record exactly when `row_exists` holds, and the record
   * it returns is that of the first row carrying the key, with every column.
   */
  lemma RowLookupMeaning(f: Frame, cols: seq<string>, v: PkValue)
    requires KeyShapeError(cols, v).None?
    ensures RowLookup(f, cols, v).Ok?
    ensures RowLookup(f, cols, v).value.Some? <==> exists i :: 0 <= i < |f.rows| && RowMatches(f, cols, v, f.rows[i])
    ensures RowLookup(f, cols, v).value.Some? ==>
      exists i :: 0 <= i < |f.rows| && RowMatches(f, cols, v, f.rows[i]) &&
        (forall k :: 0 <= k < i ==> !RowMatches(f, cols, v, f.rows[k])) &&
        RowLookup(f, cols, v).value.value == RowRecord(f, f.rows[i])
  {
    var m := PkMask(f, cols, v).value;
    if AnyTrue(m) {
      var i := FirstTrue(m);
      assert RowMatches(f, cols, v, f.rows[i]);
    } else {
      forall i | 0 <= i < |f.rows| ensures !RowMatches(f, cols, v, f.rows[i]) {
        assert !m[i];
      }
    }
  }

  /** Neither a key column among the columns while the index also holds the key. */
  predicate Unshadowed(f: Frame, cols: seq<string>) {
    !(AllColumns(f, cols) && KeyIsIndex(f, cols))
  }

  /**
   * The row mask agrees with `extract_pk_values`: some row matches a complete
   * key value exactly when that value is among the table's key values.
   */
  lemma MaskFindsExtractedKeys(f: Frame, pk: PrimaryKey, v: PkValue)
    requires Wf(f)
    requires var cols := NormalizePrimaryKey(pk);
      |cols| >= 1 && Unshadowed(f, cols) && |KeyValue(v)| == |cols| && (|cols| == 1 <==> v.Scalar?)
    requires forall j :: 0 <= j < |KeyValue(v)| ==> !KeyValue(v)[j].Null?
    ensures PkMask(f, NormalizePrimaryKey(pk), v).Ok?
    ensures AnyTrue(PkMask(f, NormalizePrimaryKey(pk), v).value) <==> KeyValue(v) in ExtractPkValues(f, pk)
  {
    var cols := NormalizePrimaryKey(pk);
    var m := PkMask(f, cols, v).value;
    if AnyTrue(m) {
      var i :| 0 <= i < |m| && m[i];
      MaskHitExtracted(f, pk, v, i);
    }
    if KeyValue(v) in ExtractPkValues(f, pk) {
      ExtractedMaskHit(f, pk, v);
      var i :| 0 <= i < |f.rows| && RowMatches(f, cols, v, f.rows[i]);
      assert m[i];
    }
  }

  /** A row the mask selects carries one of the extracted key values. */
  lemma MaskHitExtracted(f: Frame, pk: PrimaryKey, v: PkValue, i: int)
    requires Wf(f)
    requires var cols := NormalizePrimaryKey(pk);
      |cols| >= 1 && Unshadowed(f, cols) && |KeyValue(v)| == |cols| && (|cols| == 1 <==> v.Scalar?)
    requires forall j :: 0 <= j < |KeyValue(v)| ==> !KeyValue(v)[j].Null?
    requires 0 <= i < |f.rows| && RowMatches(f, NormalizePrimaryKey(pk), v, f.rows[i])
    ensures KeyValue(v) in ExtractPkValues(f, pk)
  {
    var cols := NormalizePrimaryKey(pk);
    var k := KeyValue(v);
    if |cols| == 1 && IndexName(f) == Some(cols[0]) {
      assert f.rows[i].indexLabel == k;
    } else if |cols| == 1 {
      assert KeyOf(f.rows[i], cols) == k;
    } else if IsMultiIndex(f) && AllIndexNames(f, cols) {
      assert f.rows[i].indexLabel == k;
    } else {
      assert KeyOf(f.rows[i], cols) == k;
    }
  }

  /** An extracted key value is carried by some row the mask selects. */
  lemma ExtractedMaskHit(f: Frame, pk: PrimaryKey, v: PkValue)
    requires Wf(f)
    requires var cols := NormalizePrimaryKey(pk);
      |cols| >= 1 && Unshadowed(f, cols) && |KeyValue(v)| == |cols| && (|cols| == 1 <==> v.Scalar?)
    requires forall j :: 0 <= j < |KeyValue(v)| ==> !KeyValue(v)[j].Null?
    requires KeyValue(v) in ExtractPkValues(f, pk)
    ensures exists i :: 0 <= i < |f.rows| && RowMatches(f, NormalizePrimaryKey(pk), v, f.rows[i])
  {
    var cols := NormalizePrimaryKey(pk);
    var k := KeyValue(v);
    if |cols| == 1 && IndexName(f) == Some(cols[0]) {
      var i :| 0 <= i < |f.rows| && f.rows[i].indexLabel == k;
      assert RowMatches(f, cols, v, f.rows[i]);
    } else if IsMultiIndex(f) && AllIndexNames(f, cols) && |cols| > 1 {
      var i :| 0 <= i < |f.rows| && f.rows[i].indexLabel == k;
      assert RowMatches(f, cols, v, f.rows[i]);
    } else {
      var i :| 0 <= i < |f.rows| && KeyOf(f.rows[i], cols) == k;
      assert RowMatches(f, cols, v, f.rows[i]);
    }
  }

  /** `str(e)` of a `ValueError`. */
  function ValueErrorText(e: Exception): string {
    if e.ValueError? then e.msg else ""
  }

  function ColumnDetails(c: string): Details {
    DictDetails([("column", c)])
  }

  function ColumnsDetails(cols: seq<string>): Details {
    DictDetails([("columns", StringListRepr(cols))])
  }

  /* ---------- Missing key columns ---------- */

  /** A key column that is neither a column, nor the flat index's name, nor a MultiIndex level. */
  predicate KeyColumnMissing(f: Frame, c: string) {
    c !in f.columns && IndexName(f) != Some(c) && (IsMultiIndex(f) ==> !InIndexNames(f, c))
  }

  /** The key columns missing from the frame, in key order. */
  function MissingKeyColumns(f: Frame, cols: seq<string>): (missing: seq<string>)
    ensures forall c :: c in missing <==> c in cols && KeyColumnMissing(f, c)
    ensures |missing| == 0 <==> forall j :: 0 <= j < |cols| ==> !KeyColumnMissing(f, cols[j])
  {
    if |cols| == 0 then []
    else MissingKeyColumns(f, cols[..|cols| - 1]) +
         (if KeyColumnMissing(f, cols[|cols| - 1]) then [cols[|cols| - 1]] else [])
  }

  /** The loop that `validate_primary_key` and `validate_data` open with. */
  method FindMissingKeyColumns(f: Frame, cols: seq<string>) returns (missing: seq<string>)
    ensures missing == MissingKeyColumns(f, cols)
  {
    missing := [];
    for j := 0 to |cols|
      invariant missing == MissingKeyColumns(f, cols[..j])
    {
      assert cols[..j + 1][..j] == cols[..j];
      if cols[j] !in f.columns && IndexName(f) != Some(cols[j]) {
        if IsMultiIndex(f) {
          if !InIndexNames(f, cols[j]) {
            missing := missing + [cols[j]];
          }
        } else {
          missing := missing + [cols[j]];
        }
      }
    }
    assert cols[..|cols|] == cols;
  }

  /* ---------- Null checks ---------- */

  /** The first index level named `c`, as `index.names.index(c)` finds it. */
  function FirstLevel(names: seq<Option<string>>, c: string): (j: nat)
    requires Some(c) in names
    ensures j < |names| && names[j] == Some(c)
    ensures forall k :: 0 <= k < j ==> names[k] != Some(c)
  {
    if names[0] == Some(c) then 0 else 1 + FirstLevel(names[1..], c)
  }

  predicate ColumnHasNull(f: Frame, c: string) {
    exists i :: 0 <= i < |f.rows| && Cell(f.rows[i], c).Null?
  }

  /** `index.get_level_values(j).isnull().any()` */
  predicate LevelHasNull(f: Frame, j: nat) {
    exists i :: 0 <= i < |f.rows| && j < |f.rows[i].indexLabel| && f.rows[i].indexLabel[j].Null?
  }

  /** Whether the index holding key column `c` has a missing label component there. */
  predicate IndexKeyHasNull(f: Frame, c: string) {
    if IndexName(f) == Some(c) then LevelHasNull(f, 0)
    else IsMultiIndex(f) && InIndexNames(f, c) && LevelHasNull(f, FirstLevel(f.index, c))
  }

  function NullColumnError(c: string): Exception {
    Error(DataValidation, "Primary key column '" + c + "' contains null values", ColumnDetails(c))
  }

  function NullIndexError(c: string): Exception {
    Error(DataValidation, "Primary key '" + c + "' in index contains null values", ColumnDetails(c))
  }

  /** `validate_primary_key`'s null check of one key column: a column first, else the index. */
  function NullError(f: Frame, c: string): Option<Exception> {
    if c in f.columns then (if ColumnHasNull(f, c) then Some(NullColumnError(c)) else None)
    else if IndexKeyHasNull(f, c) then Some(NullIndexError(c))
    else None
  }

  /** The null error of the first key column that has one. */
  function FirstNullError(f: Frame, cols: seq<string>): (e: Option<Exception>)
    ensures e.None? <==> forall j :: 0 <= j < |cols| ==> NullError(f, cols[j]).None?
  {
    if |cols| == 0 then None
    else if NullError(f, cols[0]).Some? then NullError(f, cols[0])
    else FirstNullError(f, cols[1..])
  }

  /* ---------- Duplicate checks ---------- */

  /** `validate_primary_key`'s uniqueness check. */
  function DuplicateError(f: Frame, cols: seq<string>): Option<Exception> {
    if |cols| == 1 then
      var c := cols[0];
      if c in f.columns then
        if HasDuplicateKeys(f, [c]) then
          Some(Error(DataValidation, "Primary key column '" + c + "' contains duplicate values", ColumnDetails(c)))
        else None
      else if IndexName(f) == Some(c) && HasDuplicateLabels(f) then
        Some(Error(DataValidation, "Primary key in index '" + c + "' contains duplicate values", ColumnDetails(c)))
      else None
    else if AllColumns(f, cols) then
      if HasDuplicateKeys(f, cols) then
        Some(Error(DataValidation, "Primary key combination " + StringListRepr(cols) + " contains duplicate values",
                   ColumnsDetails(cols)))
      else None
    else if IsMultiIndex(f) && AllIndexNames(f, cols) && HasDuplicateLabels(f) then
      Some(Error(DataValidation, "Primary key combination in index " + StringListRepr(cols) +
                 " contains duplicate values", ColumnsDetails(cols)))
    else None
  }

  function DroppedKeyError(cols: seq<string>, missing: seq<string>): Exception {
    Error(Schema, "Primary key column(s) " + StringListRepr(missing) + " have been dropped from DataFrame",
          DictDetails([("primary_key", StringListRepr(cols)), ("missing", StringListRepr(missing))]))
  }

  /** `validate_primary_key`: missing columns, then nulls, then duplicates. */
  function PrimaryKeyCheck(f: Frame, cols: seq<string>): Result<bool, Exception> {
    var missing := MissingKeyColumns(f, cols);
    if |missing| > 0 then Err(DroppedKeyError(cols, missing))
    else if FirstNullError(f, cols).Some? then Err(FirstNullError(f, cols).value)
    else if DuplicateError(f, cols).Some? then Err(DuplicateError(f, cols).value)
    else Ok(true)
  }

  /** `validate_primary_key` as its loops run. */
  method ValidatePrimaryKey(f: Frame, cols: seq<string>) returns (r: Result<bool, Exception>)
    ensures r == PrimaryKeyCheck(f, cols)
  {
    var missing := FindMissingKeyColumns(f, cols);
    if |missing| > 0 {
      return Err(DroppedKeyError(cols, missing));
    }
    for j := 0 to |cols|
      invariant FirstNullError(f, cols) == FirstNullError(f, cols[j..])
    {
      assert cols[j..][1..] == cols[j + 1..];
      var c := cols[j];
      if c in f.columns {
        if ColumnHasNull(f, c) {
          return Err(NullColumnError(c));
        }
      } else if IndexName(f) == Some(c) {
        if LevelHasNull(f, 0) {
          return Err(NullIndexError(c));
        }
      } else if IsMultiIndex(f) && InIndexNames(f, c) {
        if LevelHasNull(f, FirstLevel(f.index, c)) {
          return Err(NullIndexError(c));
        }
      }
    }
    var dup := DuplicateError(f, cols);
    if dup.Some? {
      return Err(dup.value);
    }
    return Ok(true);
  }

  /* ---------- What the checks mean ---------- */

  /** `c` names the flat index or a level of a MultiIndex. */
  predicate InIndex(f: Frame, c: string) {
    IndexName(f) == Some(c) || (IsMultiIndex(f) && InIndexNames(f, c))
  }

  /**
   * The key has a single home: every key column is a column and none is in
   * the index, or the index is exactly the key's levels and no key column is
   * also a column.
   */
  predicate KeyPlaced(f: Frame, cols: seq<string>) {
    (AllColumns(f, cols) && forall j :: 0 <= j < |cols| ==> !InIndex(f, cols[j])) ||
    (f.index == Names(cols) && Distinct(cols) && forall j :: 0 <= j < |cols| ==> cols[j] !in f.columns)
  }

  /** The key of row `i`, read from its home. */
  function RowKey(f: Frame, cols: seq<string>, i: nat): Key
    requires i < |f.rows|
  {
    if AllColumns(f, cols) then KeyOf(f.rows[i], cols) else f.rows[i].indexLabel
  }

  predicate KeyNullFree(f: Frame, cols: seq<string>) {
    forall i, j :: 0 <= i < |f.rows| && 0 <= j < |RowKey(f, cols, i)| ==> !RowKey(f, cols, i)[j].Null?
  }

  predicate KeyUnique(f: Frame, cols: seq<string>) {
    forall i, i' :: 0 <= i < i' < |f.rows| ==> RowKey(f, cols, i) != RowKey(f, cols, i')
  }

  lemma PlacedNotMissing(f: Frame, cols: seq<string>)
    requires |cols| >= 1 && KeyPlaced(f, cols)
    ensures MissingKeyColumns(f, cols) == []
  {
    forall j | 0 <= j < |cols| ensures !KeyColumnMissing(f, cols[j]) {
      var c := cols[j];
      if !AllColumns(f, cols) {
        assert f.index[j] == Some(c);
        if |cols| == 1 {
          assert IndexName(f) == Some(c);
        }
      }
    }
  }

  /** A placed key's column `j` has a null exactly when some row key has a null at position `j`. */
  lemma NullErrorMeaning(f: Frame, cols: seq<string>, j: nat)
    requires Wf(f) && j < |cols| && KeyPlaced(f, cols)
    ensures NullError(f, cols[j]).None? <==> forall i :: 0 <= i < |f.rows| ==> !RowKey(f, cols, i)[j].Null?
  {
    var c := cols[j];
    if !AllColumns(f, cols) {
      assert c !in f.columns;
      if |cols| == 1 {
        assert IndexName(f) == Some(c) && j == 0;
      } else {
        assert IsMultiIndex(f) && f.index[j] == Some(c);
        assert FirstLevel(f.index, c) == j;
      }
      assert NullError(f, c).Some? <==> LevelHasNull(f, j);
      if LevelHasNull(f, j) {
        var i :| 0 <= i < |f.rows| && j < |f.rows[i].indexLabel| && f.rows[i].indexLabel[j].Null?;
        assert RowKey(f, cols, i)[j].Null?;
      }
    } else {
      forall i | 0 <= i < |f.rows| ensures RowKey(f, cols, i)[j] == Cell(f.rows[i], c) {
      }
    }
  }

  /** Under a single home, the duplicate check fails exactly when two row keys coincide. */
  lemma DuplicateErrorMeaning(f: Frame, cols: seq<string>)
    requires Wf(f) && |cols| >= 1 && KeyPlaced(f, cols)
    ensures DuplicateError(f, cols).None? <==> KeyUnique(f, cols)
  {
    if AllColumns(f, cols) {
      assert |cols| == 1 ==> cols == [cols[0]];
      assert forall i :: 0 <= i < |f.rows| ==> RowKey(f, cols, i) == KeyOf(f.rows[i], cols);
    } else {
      assert forall i :: 0 <= i < |f.rows| ==> RowKey(f, cols, i) == f.rows[i].indexLabel;
      assert cols[0] !in f.columns;
      if |cols| == 1 {
        assert IndexName(f) == Some(cols[0]);
      } else {
        assert IsMultiIndex(f);
        assert forall j :: 0 <= j < |cols| ==> f.index[j] == Some(cols[j]);
        assert AllIndexNames(f, cols);
      }
    }
  }

  /**
   * `validate_primary_key` succeeds exactly on a table whose row keys are
   * all present and pairwise distinct, whenever the key has a single home.
   */
  lemma PrimaryKeyCheckMeaning(f: Frame, cols: seq<string>)
    requires Wf(f) && |cols| >= 1 && KeyPlaced(f, cols)
    ensures PrimaryKeyCheck(f, cols).Ok? <==> KeyNullFree(f, cols) && KeyUnique(f, cols)
  {
    PlacedNotMissing(f, cols);
    DuplicateErrorMeaning(f, cols);
    forall j | 0 <= j < |cols| {
      NullErrorMeaning(f, cols, j);
    }
    assert forall i :: 0 <= i < |f.rows| ==> |RowKey(f, cols, i)| == |cols|;
    assert KeyNullFree(f, cols) <==>
      forall i, j :: 0 <= i < |f.rows| && 0 <= j < |cols| ==> !RowKey(f, cols, i)[j].Null?;
  }

  /* ---------- The collecting integrity check ---------- */

  /** One finding of `_validate_pk_integrity`: its raised and its listed message, and the details. */
  datatype Issue = Issue(raised: string, listed: string, details: Details)

  function SameIssue(message: string, details: Details): Issue {
    Issue(message, message, details)
  }

  /** The null finding for one key column: a null column first, else the index holding it. */
  function NullIssue(f: Frame, c: string): seq<Issue> {
    if c in f.columns && ColumnHasNull(f, c) then
      [SameIssue("Primary key column '" + c + "' contains null values", ColumnDetails(c))]
    else if IndexKeyHasNull(f, c) then
      [SameIssue("Primary key '" + c + "' in index contains null values", ColumnDetails(c))]
    else []
  }

  function NullIssues(f: Frame, cols: seq<string>): (issues: seq<Issue>)
    ensures |issues| == 0 <==> forall j :: 0 <= j < |cols| ==> NullIssue(f, cols[j]) == []
  {
    if |cols| == 0 then []
    else NullIssues(f, cols[..|cols| - 1]) + NullIssue(f, cols[|cols| - 1])
  }

  /** The uniqueness finding; the single- and composite-column messages depend on the mode. */
  function DuplicateIssues(f: Frame, cols: seq<string>): seq<Issue> {
    if |cols| == 1 then
      var c := cols[0];
      if c in f.columns then
        if HasDuplicateKeys(f, [c]) then
          [Issue("Column '" + c + "' contains duplicate values",
                 "Primary key column '" + c + "' contains duplicates", ColumnDetails(c))]
        else []
      else if IndexName(f) == Some(c) && HasDuplicateLabels(f) then
        [SameIssue("Primary key in index '" + c + "' contains duplicates", ColumnDetails(c))]
      else []
    else if AllColumns(f, cols) then
      if HasDuplicateKeys(f, cols) then
        [Issue("Column combination " + StringListRepr(cols) + " contains duplicate values",
               "Primary key combination " + StringListRepr(cols) + " contains duplicates", ColumnsDetails(cols))]
      else []
    else if IsMultiIndex(f) && AllIndexNames(f, cols) && HasDuplicateLabels(f) then
      [SameIssue("Primary key combination in index " + StringListRepr(cols) + " contains duplicates",
                 ColumnsDetails(cols))]
    else []
  }

  function IntegrityIssues(f: Frame, cols: seq<string>): seq<Issue> {
    NullIssues(f, cols) + DuplicateIssues(f, cols)
  }

  function Listed(issues: seq<Issue>): (msgs: seq<string>)
    ensures |msgs| == |issues|
  {
    seq(|issues|, i requires 0 <= i < |issues| => issues[i].listed)
  }

  /** `_validate_pk_integrity`: the first finding raised, or every finding listed. */
  function IntegrityResult(f: Frame, cols: seq<string>, raiseOnError: bool): Result<seq<string>, Exception> {
    var issues := IntegrityIssues(f, cols);
    if raiseOnError && |issues| > 0 then Err(Error(DataValidation, issues[0].raised, issues[0].details))
    else Ok(Listed(issues))
  }

  /** `_validate_pk_integrity` as its loop runs, returning at the first finding when raising. */
  method ValidatePkIntegrity(f: Frame, cols: seq<string>, raiseOnError: bool) returns (r: Result<seq<string>, Exception>)
    ensures r == IntegrityResult(f, cols, raiseOnError)
  {
    var issues: seq<Issue> := [];
    for j := 0 to |cols|
      invariant issues == NullIssues(f, cols[..j])
      invariant raiseOnError ==> issues == []
    {
      assert cols[..j + 1][..j] == cols[..j];
      var found := NullIssue(f, cols[j]);
      if raiseOnError && |found| > 0 {
        NullIssuesPrefix(f, cols, j + 1);
        return Err(Error(DataValidation, found[0].raised, found[0].details));
      }
      issues := issues + found;
    }
    assert cols[..|cols|] == cols;
    issues := issues + DuplicateIssues(f, cols);
    if raiseOnError && |issues| > 0 {
      return Err(Error(DataValidation, issues[0].raised, issues[0].details));
    }
    r := Ok(Listed(issues));
  }

  /** The findings of a prefix of the key columns come first. */
  lemma {:induction false} NullIssuesPrefix(f: Frame, cols: seq<string>, n: nat)
    requires n <= |cols|
    ensures NullIssues(f, cols[..n]) <= NullIssues(f, cols)
    decreases |cols|
  {
    if n < |cols| {
      assert cols[..|cols| - 1][..n] == cols[..n];
      NullIssuesPrefix(f, cols[..|cols| - 1], n);
    } else {
      assert cols[..n] == cols;
    }
  }

  /** The raising mode fails exactly when the collecting mode lists something, and then with the first finding. */
  lemma IntegrityModesAgree(f: Frame, cols: seq<string>)
    ensures IntegrityResult(f, cols, true).Err? <==> |IntegrityResult(f, cols, false).value| > 0
    ensures IntegrityResult(f, cols, true).Ok? ==> IntegrityResult(f, cols, true).value == []
  {
  }

  /** A placed key's null finding is the one `validate_primary_key` reports. */
  lemma NullIssueMatchesNullError(f: Frame, cols: seq<string>, j: nat)
    requires j < |cols| && KeyPlaced(f, cols)
    ensures NullIssue(f, cols[j]) == [] <==> NullError(f, cols[j]).None?
  {
  }

  /**
   * Whenever the key has a single home, the collecting check finds nothing
   * exactly when `validate_primary_key` accepts the table.
   */
  lemma IntegrityMatchesPrimaryKeyCheck(f: Frame, cols: seq<string>)
    requires Wf(f) && |cols| >= 1 && KeyPlaced(f, cols)
    ensures IntegrityIssues(f, cols) == [] <==> PrimaryKeyCheck(f, cols).Ok?
    ensures IntegrityIssues(f, cols) == [] <==> KeyNullFree(f, cols) && KeyUnique(f, cols)
  {
    PlacedNotMissing(f, cols);
    forall j | 0 <= j < |cols| {
      NullIssueMatchesNullError(f, cols, j);
    }
    assert DuplicateIssues(f, cols) == [] <==> DuplicateError(f, cols).None?;
    PrimaryKeyCheckMeaning(f, cols);
  }

  /* ---------- validate_data ---------- */

  function DroppedMessages(missing: seq<string>): seq<string> {
    if |missing| > 0 then ["Primary key column(s) " + StringListRepr(missing) + " have been dropped"] else []
  }

  function DuplicateNameMessages(columns: seq<string>): seq<string> {
    if Distinct(columns) then [] else ["DataFrame contains duplicate column names"]
  }

  /** `validate_data`: dropped key columns, the listed integrity findings, duplicate column names. */
  function ValidationErrors(f: Frame, cols: seq<string>): seq<string> {
    DroppedMessages(MissingKeyColumns(f, cols)) + Listed(IntegrityIssues(f, cols)) + DuplicateNameMessages(f.columns)
  }

  method ValidateData(f: Frame, cols: seq<string>) returns (errors: seq<string>)
    ensures errors == ValidationErrors(f, cols)
  {
    errors := [];
    var missing := FindMissingKeyColumns(f, cols);
    if |missing| > 0 {
      errors := errors + ["Primary key column(s) " + StringListRepr(missing) + " have been dropped"];
    }
    assert errors == DroppedMessages(missing);
    var pkErrors := ValidatePkIntegrity(f, cols, false);
    errors := errors + pkErrors.value;
    var duplicateNames := !Distinct(f.columns);
    if duplicateNames {
      errors := errors + ["DataFrame contains duplicate column names"];
    }
    assert errors == DroppedMessages(missing) + pkErrors.value + DuplicateNameMessages(f.columns);
  }

  /**
   * With a single home for the key, `validate_data` reports nothing exactly
   * when the row keys are present and distinct and no column name repeats.
   */
  lemma ValidationErrorsMeaning(f: Frame, cols: seq<string>)
    requires Wf(f) && |cols| >= 1 && KeyPlaced(f, cols)
    ensures ValidationErrors(f, cols) == [] <==>
            KeyNullFree(f, cols) && KeyUnique(f, cols) && Distinct(f.columns)
  {
    PlacedNotMissing(f, cols);
    IntegrityMatchesPrimaryKeyCheck(f, cols);
  }

  /** A dropped key column is always reported. */
  lemma DroppedKeyReported(f: Frame, cols: seq<string>, c: string)
    requires c in cols && KeyColumnMissing(f, c)
    ensures ValidationErrors(f, cols) != []
    ensures PrimaryKeyCheck(f, cols).Err? && PrimaryKeyCheck(f, cols).error.Raised?
    ensures PrimaryKeyCheck(f, cols).error.error.cls == Schema
  {
    assert c in MissingKeyColumns(f, cols);
  }

  /* ---------- Auto-increment ---------- */

  predicate AllInts(vs: seq<Value>) {
    forall i :: 0 <= i < |vs| ==> vs[i].Int?
  }

  function MaxInt(vs: seq<Value>): (m: int)
    requires |vs| > 0 && AllInts(vs)
    ensures forall i :: 0 <= i < |vs| ==> vs[i].i <= m
    ensures exists i :: 0 <= i < |vs| && vs[i].i == m
  {
    if |vs| == 1 then vs[0].i
    else
      var rest := MaxInt(vs[1..]);
      assert forall i :: 1 <= i < |vs| ==> vs[i] == vs[1..][i - 1];
      if vs[0].i >= rest then vs[0].i else rest
  }

  /** The flat index's labels as values. */
  function IndexValues(f: Frame): (vs: seq<Value>)
    ensures |vs| == |f.rows|
  {
    seq(|f.rows|, i requires 0 <= i < |f.rows| =>
          if |f.rows[i].indexLabel| > 0 then f.rows[i].indexLabel[0] else Null)
  }

  /** The values the generator reads the key from: the index named after it, else its column. */
  function KeyValuesRead(f: Frame, name: string): (vs: seq<Value>)
    ensures |vs| == |f.rows|
  {
    if IndexName(f) == Some(name) then IndexValues(f) else ColumnValues(f, name)
  }

  /** Whether the generator finds the key at all. */
  predicate KeyReadable(f: Frame, name: string) {
    IndexName(f) == Some(name) || name in f.columns
  }

  const NotIntegerKey := "Primary key must be integer type for auto-increment"

  /** The local maximum of `_generate_next_pk`: 0 for an empty table or a key found nowhere. */
  function LocalMax(f: Frame, name: string): Result<int, Exception> {
    if |f.rows| == 0 || !KeyReadable(f, name) then Ok(0)
    else if AllInts(KeyValuesRead(f, name)) then Ok(MaxInt(KeyValuesRead(f, name)))
    else Err(ValueError(NotIntegerKey))
  }

  /**
   * `_generate_next_pk`, with `dbMax` the database's maximum key (0 when there
   * is no engine, no table, or no row there).
   */
  function NextPk(f: Frame, pk: PrimaryKey, dbMax: int): Result<int, Exception> {
    if pk.Composite? then Err(ValueError("Auto-increment only works with single-column primary keys"))
    else
      match LocalMax(f, pk.name)
      case Err(e) => Err(e)
      case Ok(m) => Ok(if m >= dbMax then m + 1 else dbMax + 1)
  }

  /**
   * A generated key is above the database maximum and above every local key,
   * so it is fresh; it is one more than the larger of those, and the
   * generator fails only for a composite key or a non-integer local key.
   */
  lemma NextPkFresh(f: Frame, pk: PrimaryKey, dbMax: int)
    ensures NextPk(f, pk, dbMax).Err? <==>
            pk.Composite? || (|f.rows| > 0 && KeyReadable(f, pk.name) && !AllInts(KeyValuesRead(f, pk.name)))
    ensures NextPk(f, pk, dbMax).Ok? ==>
      var n := NextPk(f, pk, dbMax).value;
      var vs := KeyValuesRead(f, pk.name);
      n > dbMax &&
      (KeyReadable(f, pk.name) ==> forall i :: 0 <= i < |vs| ==> vs[i].i < n && vs[i] != Int(n)) &&
      (n - 1 == dbMax || (KeyReadable(f, pk.name) && exists i :: 0 <= i < |vs| && vs[i] == Int(n - 1)) ||
       ((|f.rows| == 0 || !KeyReadable(f, pk.name)) && n == 1))
  {
  }

  /**
   * Once the generated key `n` is the last value the generator reads and the
   * values before it are the ones it read before, it yields `n + 1`.
   */
  lemma {:induction false} NextPkAfterGenerated(f: Frame, g: Frame, name: string, dbMax: int, n: int)
    requires NextPk(f, Single(name), dbMax) == Ok(n)
    requires KeyReadable(f, name) || |f.rows| == 0
    requires KeyReadable(g, name) && KeyValuesRead(g, name) == KeyValuesRead(f, name) + [Int(n)]
    ensures NextPk(g, Single(name), dbMax) == Ok(n + 1)
  {
    NextPkFresh(f, Single(name), dbMax);
    var vs := KeyValuesRead(f, name);
    var ws := KeyValuesRead(g, name);
    assert forall i :: 0 <= i < |vs| ==> vs[i].Int? && vs[i].i < n;
    assert forall i :: 0 <= i < |ws| ==> ws[i].Int? && ws[i].i <= n by {
      forall i | 0 <= i < |ws|
        ensures ws[i].Int? && ws[i].i <= n
      {
        if i < |vs| { assert ws[i] == vs[i]; } else { assert ws[i] == Int(n); }
      }
    }
    assert ws[|vs|] == Int(n);
    assert MaxInt(ws) == n;
    assert LocalMax(g, name) == Ok(n);
  }

  /** An empty table with no database rows starts at 1. */
  lemma NextPkStartsAtOne(f: Frame, name: string)
    requires |f.rows| == 0
    ensures NextPk(f, Single(name), 0) == Ok(1)
  {
  }
}
