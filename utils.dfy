/** Small pure helpers: dtype classification, schema and table names, key placement, SQL checks. */
module Utils {
  import opened Wrappers
  import opened Dicts
  import opened Text
  import opened Values
  import opened Frames
  import opened Exceptions
  import opened PkUtils

  /** The Python types a pandas dtype maps to. */
  datatype PyType = PyInt | PyFloat | PyBool | PyStr

  /**
   * `pandas_dtype_to_python_type`, given the dtype by its `str` (or `None`):
   * the lower-cased name is checked for "int", then "float", then "bool";
   * anything else, and `None`, is `str`.
   */
  function PandasDtypeToPythonType(dtype: Option<string>): (t: PyType)
    ensures dtype.None? ==> t == PyStr
    ensures dtype.Some? ==>
      var name := Lower(dtype.value);
      && (t == PyInt <==> Contains(name, "int"))
      && (t == PyFloat <==> !Contains(name, "int") && Contains(name, "float"))
      && (t == PyBool <==> !Contains(name, "int") && !Contains(name, "float") && Contains(name, "bool"))
      && (t == PyStr <==> !Contains(name, "int") && !Contains(name, "float") && !Contains(name, "bool"))
  {
    if dtype.None? then PyStr
    else
      var name := Lower(dtype.value);
      if Contains(name, "int") then PyInt
      else if Contains(name, "float") then PyFloat
      else if Contains(name, "bool") then PyBool
      else PyStr
  }

  lemma ContainsAt(s: string, sub: string, i: nat)
    requires i + |sub| <= |s| && s[i..i + |sub|] == sub
    ensures Contains(s, sub)
  {
    assert s[i..][..|sub|] == sub;
  }

  /** A text lacking some character of `sub` does not hold `sub`. */
  lemma MissingChar(s: string, sub: string, j: nat)
    requires j < |sub| && sub[j] !in s
    ensures !Contains(s, sub)
  {
    forall i | 0 <= i <= |s| - |sub|
      ensures !StartsWith(s[i..], sub)
    {
      assert s[i + j] in s;
    }
  }

  /** Lower-casing twice is lower-casing once. */
  lemma LowerIdempotent(s: string)
    ensures Lower(Lower(s)) == Lower(s)
  {
    forall i | 0 <= i < |s|
      ensures Lower(Lower(s))[i] == Lower(s)[i]
    {
      assert Lower(s)[i] == LowerChar(s[i]);
    }
  }

  /** The dispatch ignores case: every dtype name maps as its lower-cased form does. */
  lemma {:induction false} DtypeIgnoresCase(name: string)
    ensures PandasDtypeToPythonType(Some(name)) == PandasDtypeToPythonType(Some(Lower(name)))
  {
    LowerIdempotent(name);
  }

  /** Nullable and numpy integer dtypes map to `int`. */
  lemma IntDtype()
    ensures PandasDtypeToPythonType(Some("Int64")) == PyInt
  {
    assert Lower("Int64") == "int64";
    ContainsAt("int64", "int", 0);
  }

  /** Float dtypes map to `float`. */
  lemma FloatDtype()
    ensures PandasDtypeToPythonType(Some("float64")) == PyFloat
  {
    assert Lower("float64") == "float64";
    MissingChar("float64", "int", 0);
    assert StartsWith("float64"[0..], "float");
  }

  /** The nullable boolean dtype maps to `bool`. */
  lemma BoolDtype()
    ensures PandasDtypeToPythonType(Some("boolean")) == PyBool
  {
    assert Lower("boolean") == "boolean";
    MissingChar("boolean", "int", 0);
    MissingChar("boolean", "float", 0);
    assert StartsWith("boolean"[0..], "bool");
  }

  /** The object dtype maps to `str`. */
  lemma ObjectDtype()
    ensures PandasDtypeToPythonType(Some("object")) == PyStr
  {
    assert Lower("object") == "object";
    MissingChar("object", "int", 0);
    MissingChar("object", "float", 0);
    MissingChar("object", "bool", 3);
  }

  /** `normalize_schema`: an empty or missing schema is `None`; any other is kept. */
  function NormalizeSchema(schema: Option<string>): (r: Option<string>)
    ensures r.None? <==> !Truthy(schema)
    ensures r.Some? ==> r == schema
  {
    if Truthy(schema) then schema else None
  }

  /** `get_table_reference`: "schema.table" when a schema is given, the bare name otherwise. */
  function GetTableReference(table: string, schema: Option<string>): (r: string)
    ensures Truthy(schema) ==> r == schema.value + "." + table
    ensures !Truthy(schema) ==> r == table
  {
    if Truthy(schema) then schema.value + "." + table else table
  }

  /** Normalizing the schema first never changes the reference. */
  lemma TableReferenceNormalized(table: string, schema: Option<string>)
    ensures GetTableReference(table, NormalizeSchema(schema)) == GetTableReference(table, schema)
    ensures NormalizeSchema(NormalizeSchema(schema)) == NormalizeSchema(schema)
  {
  }

  /** Whether `extract_primary_key_column` moves the index back into the columns. */
  predicate IndexHoldsKey(f: Frame, pk: PrimaryKey) {
    match pk
    case Single(name) => IndexName(f) == Some(name)
    case Composite(names) =>
      if IsMultiIndex(f) then forall j :: 0 <= j < |f.index| ==> f.index[j].Some? && f.index[j].value in names
      else IndexName(f).Some? && IndexName(f).value in names
  }

  /**
   * `extract_primary_key_column`: when the index holds the key (its name is
   * the key, or all its level names are key columns) the index is reset
   * into columns; otherwise the frame is returned unchanged.
   */
  function ExtractPrimaryKeyColumn(f: Frame, pk: PrimaryKey): (res: Result<Frame, Exception>)
    requires Wf(f)
    ensures !IndexHoldsKey(f, pk) ==> res == Ok(f)
    ensures IndexHoldsKey(f, pk) ==> res == ResetIndex(f)
  {
    match pk
    case Single(name) =>
      if IndexName(f) == Some(name) then ResetIndex(f) else Ok(f)
    case Composite(names) =>
      if IsMultiIndex(f) then
        if forall j :: 0 <= j < |f.index| ==> f.index[j].Some? && f.index[j].value in names then ResetIndex(f)
        else Ok(f)
      else if IndexName(f).Some? && IndexName(f).value in names then ResetIndex(f)
      else Ok(f)
  }

  /** After a single key is taken out of a flat index, it is a data column. */
  lemma ExtractedKeyIsColumn(f: Frame, name: string)
    requires Wf(f) && IndexName(f) == Some(name)
    requires ExtractPrimaryKeyColumn(f, Single(name)).Ok?
    ensures LocatePrimaryKey(ExtractPrimaryKeyColumn(f, Single(name)).value, Single(name)).inColumns
  {
    var g := ExtractPrimaryKeyColumn(f, Single(name)).value;
    assert LevelColumns(f)[0] == name;
    assert g.columns[0] == name;
  }

  /**
   * `validate_dataframe_for_sql`: a repeated index label is rejected first,
   * then a repeated column name; anything else, empty frames included, passes.
   */
  function ValidateDataFrameForSql(f: Frame): (res: Option<Exception>)
    ensures res.None? <==> !HasDuplicateLabels(f) && Distinct(f.columns)
    ensures HasDuplicateLabels(f) ==>
      res == Some(Error(DataValidation, "DataFrame index must have unique values for SQL operations", NoDetails))
    ensures !HasDuplicateLabels(f) && !Distinct(f.columns) ==>
      res == Some(Error(DataValidation, "DataFrame columns must have unique names for SQL operations", NoDetails))
  {
    if HasDuplicateLabels(f) then
      Some(Error(DataValidation, "DataFrame index must have unique values for SQL operations", NoDetails))
    else if !Distinct(f.columns) then
      Some(Error(DataValidation, "DataFrame columns must have unique names for SQL operations", NoDetails))
    else None
  }

  /** An empty frame with distinct columns always passes. */
  lemma EmptyFramePasses(index: seq<Option<string>>, columns: seq<string>)
    requires Distinct(columns)
    ensures ValidateDataFrameForSql(Frame(index, columns, [])).None?
  {
  }

  /**
   * `convert_numpy_types`: a numpy scalar becomes the Python value it holds.
   * Values here are already Python values, so the conversion is the identity.
   */
  function ConvertValue(v: Value): Value {
    v
  }

  /** `convert_record_types`: every value converted, keys and their order kept. */
  function ConvertRecordTypes(record: Dict<string, Value>): (r: Dict<string, Value>)
    ensures |r| == |record|
    ensures Keys(r) == Keys(record)
    ensures forall i :: 0 <= i < |record| ==> r[i].1 == ConvertValue(record[i].1)
  {
    seq(|record|, i requires 0 <= i < |record| => (record[i].0, ConvertValue(record[i].1)))
  }

  /** `convert_records_list`: every record converted, in order. */
  function ConvertRecordsList(records: seq<Dict<string, Value>>): (r: seq<Dict<string, Value>>)
    ensures |r| == |records|
    ensures forall i :: 0 <= i < |records| ==> r[i] == ConvertRecordTypes(records[i])
  {
    seq(|records|, i requires 0 <= i < |records| => ConvertRecordTypes(records[i]))
  }
}
