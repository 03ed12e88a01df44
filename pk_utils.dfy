/** Primary-key helpers shared by the tracker and the table front end. */
module PkUtils {
  import opened Wrappers
  import opened Values
  import opened Frames
  import opened Exceptions

  /** A primary key as the library is given it: one column name, or a list of names. */
  datatype PrimaryKey = Single(name: string) | Composite(names: seq<string>)

  /** A key value as a caller passes it: a scalar, or a tuple (or list) of values. */
  datatype PkValue = Scalar(value: Value) | Tuple(values: seq<Value>)

  /** `normalize_primary_key`: a name becomes a one-element list; a list is copied. */
  function NormalizePrimaryKey(pk: PrimaryKey): (cols: seq<string>)
    ensures pk.Single? ==> cols == [pk.name]
    ensures pk.Composite? ==> cols == pk.names
  {
    match pk
    case Single(name) => [name]
    case Composite(names) => names
  }


  datatype Location = Location(inColumns: bool, inIndex: bool)

  /** `locate_primary_key`: whether the key is among the columns, and whether it is the index. */
  function LocatePrimaryKey(f: Frame, pk: PrimaryKey): (loc: Location)
    ensures var cols := NormalizePrimaryKey(pk);
      && (loc.inColumns <==> AllColumns(f, cols))
      && (|cols| == 1 ==> (loc.inIndex <==> IndexName(f) == Some(cols[0])))
      && (|cols| != 1 ==> (loc.inIndex <==> IsMultiIndex(f) && AllIndexNames(f, cols)))
  {
    var cols := NormalizePrimaryKey(pk);
    var inColumns := forall j :: 0 <= j < |cols| ==> cols[j] in f.columns;
    var inIndex :=
      if |cols| == 1 then IndexName(f) == Some(cols[0])
      else IsMultiIndex(f) && forall j :: 0 <= j < |cols| ==> Some(cols[j]) in f.index;
    Location(inColumns, inIndex)
  }

  /**
   * `extract_pk_values`: the set of key values, read from the columns when
   * the key is there and from the index otherwise; empty when it is in
   * neither place.
   */
  function ExtractPkValues(f: Frame, pk: PrimaryKey): (ks: set<Key>)
    ensures var loc := LocatePrimaryKey(f, pk);
      && (loc.inColumns ==> ks == ColumnKeys(f, NormalizePrimaryKey(pk)))
      && (!loc.inColumns && loc.inIndex ==> ks == LabelSet(f))
      && (!loc.inColumns && !loc.inIndex ==> ks == {})
  {
    var cols := NormalizePrimaryKey(pk);
    if |cols| == 1 then
      if cols[0] in f.columns then
        assert forall i :: 0 <= i < |f.rows| ==> KeyOf(f.rows[i], cols) == [Cell(f.rows[i], cols[0])];
        set i | 0 <= i < |f.rows| :: [Cell(f.rows[i], cols[0])]
      else if IndexName(f) == Some(cols[0]) then LabelSet(f)
      else {}
    else if forall j :: 0 <= j < |cols| ==> cols[j] in f.columns then ColumnKeys(f, cols)
    else if IsMultiIndex(f) && forall j :: 0 <= j < |cols| ==> Some(cols[j]) in f.index then LabelSet(f)
    else {}
  }

  /**
   * Normalizing a normalized key changes nothing, so a key given as a name
   * or as its one-element list is located and read alike.
   */
  lemma NormalizeIdempotent(f: Frame, pk: PrimaryKey)
    ensures NormalizePrimaryKey(Composite(NormalizePrimaryKey(pk))) == NormalizePrimaryKey(pk)
    ensures LocatePrimaryKey(f, Composite(NormalizePrimaryKey(pk))) == LocatePrimaryKey(f, pk)
    ensures ExtractPkValues(f, Composite(NormalizePrimaryKey(pk))) == ExtractPkValues(f, pk)
  {
  }

  /** The key columns that are not data columns, in key order. */
  function MissingColumns(f: Frame, cols: seq<string>): (missing: seq<string>)
    ensures forall c :: c in missing <==> c in cols && c !in f.columns
    ensures |missing| <= |cols|
  {
    if |cols| == 0 then []
    else if cols[0] !in f.columns then [cols[0]] + MissingColumns(f, cols[1..])
    else MissingColumns(f, cols[1..])
  }

  /**
   * `set_pk_as_index`: `KeyError` naming every key column that is not a data
   * column; otherwise the key columns become the index.  An empty list of
   * columns makes pandas raise `ValueError`.
   */
  function SetPkAsIndex(f: Frame, cols: seq<string>): (res: Result<Frame, Exception>)
    ensures res.Err? && res.error.KeyError? <==> exists j :: 0 <= j < |cols| && cols[j] !in f.columns
    ensures res.Err? && res.error.KeyError? ==>
      res.error.msg == "Primary key columns not found in DataFrame: " + StringListRepr(MissingColumns(f, cols))
    ensures res.Ok? <==> |cols| >= 1 && AllColumns(f, cols)
    ensures res.Ok? ==> |cols| >= 1 && res.value == SetIndex(f, cols)
  {
    var missing := MissingColumns(f, cols);
    if |missing| > 0 then
      assert missing[0] in cols;
      Err(KeyError("Primary key columns not found in DataFrame: " + StringListRepr(missing)))
    else if |cols| == 0 then
      Err(ValueError("Must pass non-zero number of levels/codes"))
    else
      Ok(SetIndex(f, cols))
  }

  /**
   * Moving a key into the index keeps the set of key values: it is the same
   * whether read from the columns before or from the index after.
   */
  lemma SetPkAsIndexKeepsKeys(f: Frame, cols: seq<string>)
    requires SetPkAsIndex(f, cols).Ok?
    ensures var g := SetPkAsIndex(f, cols).value;
      && LocatePrimaryKey(g, Composite(cols)) == Location(false, true)
      && ExtractPkValues(g, Composite(cols)) == ExtractPkValues(f, Composite(cols))
  {
    var g := SetPkAsIndex(f, cols).value;
    assert cols[0] !in g.columns;
    assert forall j :: 0 <= j < |cols| ==> g.index[j] == Some(cols[j]);
    assert AllColumns(f, cols);
    assert LabelSet(g) == ColumnKeys(f, cols) by {
      forall k | k in ColumnKeys(f, cols) ensures k in LabelSet(g) {
        var i :| 0 <= i < |f.rows| && k == KeyOf(f.rows[i], cols);
        assert g.rows[i].indexLabel == k;
      }
    }
  }
}
