/**
 * The frames the row and column editors of a tracked table leave behind, as
 * functions of the frame before the edit, with what each edit keeps: rows
 * appended by `add_row` and `bulk_insert`, cells assigned by `update_row` and
 * `update_where`, rows removed by `delete_row` and `delete_where`, and the
 * column edits.
 */
module TableEdits {
  import opened Wrappers
  import opened Dicts
  import opened Values
  import opened Frames
  import opened PkUtils
  import opened ChangeTracking
  import opened TableKeys

  /** Every cell a row carries belongs to a listed column, as in any pandas frame. */
  predicate CellsInColumns(f: Frame) {
    forall i, c :: 0 <= i < |f.rows| && c in f.rows[i].cells ==> c in f.columns
  }

  /**
   * The layout a tracked table keeps: labels fit the index, cells fit the
   * columns, and a MultiIndex has one level per key column.
   */
  predicate Placed(f: Frame, cols: seq<string>) {
    Wf(f) && CellsInColumns(f) && (IsMultiIndex(f) ==> |f.index| == |cols|)
  }

  /** Two frames whose index names and columns agree read keys from the same place. */
  lemma SameLayoutSameMatches(f: Frame, g: Frame, cols: seq<string>, v: PkValue, r: Row)
    requires f.index == g.index && f.columns == g.columns
    ensures RowMatches(f, cols, v, r) == RowMatches(g, cols, v, r)
  {
  }

  /* ---------- Row data ---------- */

  /** `row_data.get(c)`, a missing field read as missing. */
  function FieldValue(row: Dict<string, Value>, c: string): Value {
    match Get(row, c)
    case Some(x) => x
    case None => Null
  }

  /** The key fields of a row, in key order. */
  function FieldsKey(row: Dict<string, Value>, cols: seq<string>): (k: Key)
    ensures |k| == |cols|
    ensures forall j :: 0 <= j < |cols| ==> k[j] == FieldValue(row, cols[j])
  {
    seq(|cols|, j requires 0 <= j < |cols| => FieldValue(row, cols[j]))
  }

  /** The key value a row's fields name: a scalar for one key column, a tuple otherwise. */
  function FieldsPkValue(row: Dict<string, Value>, cols: seq<string>): (v: PkValue)
    ensures KeyValue(v) == FieldsKey(row, cols)
  {
    if |cols| == 1 then Scalar(FieldValue(row, cols[0])) else Tuple(FieldsKey(row, cols))
  }

  /** `[c for c in pk_cols if c not in row]` */
  function MissingFields<V>(row: Dict<string, V>, cols: seq<string>): (missing: seq<string>)
    ensures forall c :: c in missing <==> c in cols && !HasKey(row, c)
  {
    if |cols| == 0 then []
    else (if HasKey(row, cols[0]) then [] else [cols[0]]) + MissingFields(row, cols[1..])
  }

  /** `[c for c in pk_cols if c in updates]` */
  function PresentFields<V>(row: Dict<string, V>, cols: seq<string>): (present: seq<string>)
    ensures forall c :: c in present <==> c in cols && HasKey(row, c)
  {
    if |cols| == 0 then []
    else (if HasKey(row, cols[0]) then [cols[0]] else []) + PresentFields(row, cols[1..])
  }

  /** No key column is present exactly when the row sets none of them. */
  lemma PresentFieldsEmpty<V>(row: Dict<string, V>, cols: seq<string>)
    ensures |PresentFields(row, cols)| == 0 <==> forall j :: 0 <= j < |cols| ==> !HasKey(row, cols[j])
  {
    var present := PresentFields(row, cols);
    if |present| > 0 {
      assert present[0] in present;
    }
    if j :| 0 <= j < |cols| && HasKey(row, cols[j]) {
      assert cols[j] in present;
    }
  }

  /** The row's fields other than the key columns. */
  function NonKeyFields<V>(row: Dict<string, V>, cols: seq<string>): Dict<string, V> {
    Without(row, set c | c in cols)
  }

  /* ---------- add_row ---------- */

  /** The one-row frame `add_row` appends: keyed like the table when its key is the index. */
  function NewRowFrame(f: Frame, cols: seq<string>, row: Dict<string, Value>): Frame {
    if KeyIsIndex(f, cols) then
      var rest := NonKeyFields(row, cols);
      Frame(Names(cols), Keys(rest), [Row(FieldsKey(row, cols), ToMap(rest))])
    else Frame([None], Keys(row), [Row([Int(0)], ToMap(row))])
  }

  /** `pd.concat` of the table and the new row; renumbered unless the key is the index. */
  function AppendRecord(f: Frame, cols: seq<string>, row: Dict<string, Value>): (g: Frame)
    ensures |g.rows| == |f.rows| + 1
    ensures forall i :: 0 <= i < |f.rows| ==> g.rows[i].cells == f.rows[i].cells
    ensures forall c :: c in f.columns ==> c in g.columns
  {
    if KeyIsIndex(f, cols) then Concat(f, NewRowFrame(f, cols, row))
    else ConcatIgnoreIndex(f, NewRowFrame(f, cols, row))
  }

  /**
   * The appended row carries every field of the row data, less the key
   * fields when the key is the index, where they form its label instead;
   * the table's own rows keep their labels when the key is the index.
   */
  lemma AppendedRow(f: Frame, cols: seq<string>, row: Dict<string, Value>)
    ensures var g := AppendRecord(f, cols, row);
      var last := g.rows[|f.rows|];
      && (forall c :: Cell(last, c) == if KeyIsIndex(f, cols) && c in cols then Null else FieldValue(row, c))
      && (KeyIsIndex(f, cols) ==> g.index == f.index && last.indexLabel == FieldsKey(row, cols) &&
                                  forall i :: 0 <= i < |f.rows| ==> g.rows[i] == f.rows[i])
      && (!KeyIsIndex(f, cols) ==> g.index == [None] && forall i :: 0 <= i < |f.rows| ==> g.rows[i].indexLabel == [Int(i)])
      && (forall c :: HasKey(row, c) && !(KeyIsIndex(f, cols) && c in cols) ==> c in g.columns)
  {
    var g := AppendRecord(f, cols, row);
    var last := g.rows[|f.rows|];
    if KeyIsIndex(f, cols) {
      var rest := NonKeyFields(row, cols);
      assert last == Row(FieldsKey(row, cols), ToMap(rest));
      forall c ensures Cell(last, c) == if c in cols then Null else FieldValue(row, c) {
        if c in ToMap(rest) {
          assert Get(rest, c) == Some(ToMap(rest)[c]);
        }
      }
    } else {
      assert last.cells == ToMap(row);
      forall c ensures Cell(last, c) == FieldValue(row, c) {
        if c in ToMap(row) {
          assert Get(row, c) == Some(ToMap(row)[c]);
        }
      }
    }
  }

  /** Appending a row keeps the table's layout. */
  lemma AppendPlaced(f: Frame, cols: seq<string>, row: Dict<string, Value>)
    requires |cols| >= 1 && Placed(f, cols)
    ensures Placed(AppendRecord(f, cols, row), cols)
  {
    var g := AppendRecord(f, cols, row);
    var n := NewRowFrame(f, cols, row);
    if KeyIsIndex(f, cols) {
      assert |f.index| == |cols|;
      assert g.rows == f.rows + n.rows;
    } else {
      assert g.rows == Positional(f.rows + n.rows);
    }
    forall i, c | 0 <= i < |g.rows| && c in g.rows[i].cells ensures c in g.columns {
      if i < |f.rows| {
        assert c in f.rows[i].cells;
      } else {
        assert c in n.rows[0].cells;
      }
    }
  }

  /**
   * After `add_row`, the new row carries its key, and each earlier row
   * carries it exactly when it did before.
   */
  lemma AppendedRowFound(f: Frame, cols: seq<string>, row: Dict<string, Value>)
    requires |cols| >= 1 && Placed(f, cols)
    requires forall j :: 0 <= j < |cols| ==> !FieldValue(row, cols[j]).Null?
    ensures var g := AppendRecord(f, cols, row);
      var v := FieldsPkValue(row, cols);
      && RowMatches(g, cols, v, g.rows[|f.rows|])
      && forall i :: 0 <= i < |f.rows| ==> RowMatches(g, cols, v, g.rows[i]) == RowMatches(f, cols, v, f.rows[i])
  {
    var g := AppendRecord(f, cols, row);
    var v := FieldsPkValue(row, cols);
    AppendedRow(f, cols, row);
    var last := g.rows[|f.rows|];
    forall j | 0 <= j < |cols| ensures HasKey(row, cols[j]) {
    }
    if KeyIsIndex(f, cols) {
      assert LabelMatches(last.indexLabel, KeyValue(v));
      if |cols| == 1 {
        assert IndexName(g) == Some(cols[0]);
      } else {
        assert |f.index| == |cols|;
        assert IsMultiIndex(g) && AllIndexNames(g, cols);
      }
    } else {
      assert IndexName(g) == None && !IsMultiIndex(g);
      assert AllColumns(g, cols);
      assert KeyOf(last, cols) == FieldsKey(row, cols);
      forall i | 0 <= i < |f.rows| ensures RowMatches(g, cols, v, g.rows[i]) == RowMatches(f, cols, v, f.rows[i]) {
        assert Cell(g.rows[i], cols[0]) == Cell(f.rows[i], cols[0]);
        assert KeyOf(g.rows[i], cols) == KeyOf(f.rows[i], cols);
        if !AllColumns(f, cols) {
          var j :| 0 <= j < |cols| && cols[j] !in f.columns;
          assert cols[j] !in f.rows[i].cells;
          assert KeyOf(f.rows[i], cols)[j] == Null;
        }
      }
    }
  }

  /* ---------- update_row and update_where ---------- */

  /** The new value of a selected cell. */
  function Apply(a: Assigned, current: Value): Value {
    match a
    case Constant(x) => x
    case Computed(fn) => fn(current)
  }

  /** A dictionary of plain values as assignments. */
  function Constants(d: Dict<string, Value>): (r: Dict<string, Assigned>)
    ensures |r| == |d| && forall k :: 0 <= k < |d| ==> r[k] == (d[k].0, Constant(d[k].1))
    ensures Keys(r) == Keys(d)
  {
    seq(|d|, k requires 0 <= k < |d| => (d[k].0, Constant(d[k].1)))
  }

  /**
   * `df.loc[mask, col] = value`, or `df.loc[mask, col].apply(fn)` stored back:
   * the selected rows get the new cell, a new column goes last.
   */
  function SetWhere(f: Frame, mask: seq<bool>, col: string, a: Assigned): (g: Frame)
    requires |mask| == |f.rows|
    ensures g.index == f.index && |g.rows| == |f.rows|
    ensures g.columns == if col in f.columns then f.columns else f.columns + [col]
    ensures forall i :: 0 <= i < |f.rows| ==> g.rows[i].indexLabel == f.rows[i].indexLabel
    ensures forall i :: 0 <= i < |f.rows| && !mask[i] ==> g.rows[i] == f.rows[i]
    ensures forall i, c :: 0 <= i < |f.rows| && mask[i] ==>
      Cell(g.rows[i], c) == if c == col then Apply(a, Cell(f.rows[i], col)) else Cell(f.rows[i], c)
    ensures forall i :: 0 <= i < |f.rows| ==> g.rows[i].cells.Keys <= f.rows[i].cells.Keys + {col}
  {
    Frame(f.index, if col in f.columns then f.columns else f.columns + [col],
          seq(|f.rows|, i requires 0 <= i < |f.rows| =>
                if mask[i] then Row(f.rows[i].indexLabel, f.rows[i].cells[col := Apply(a, Cell(f.rows[i], col))])
                else f.rows[i]))
  }

  /** Every assignment of `ups` applied in order to the selected rows. */
  function AssignAll(f: Frame, mask: seq<bool>, ups: Dict<string, Assigned>): (g: Frame)
    requires |mask| == |f.rows|
    ensures g.index == f.index && |g.rows| == |f.rows|
    ensures forall i :: 0 <= i < |f.rows| ==> g.rows[i].indexLabel == f.rows[i].indexLabel
    ensures forall i :: 0 <= i < |f.rows| && !mask[i] ==> g.rows[i] == f.rows[i]
    ensures forall c :: c in g.columns <==> c in f.columns || HasKey(ups, c)
    ensures forall i, c :: 0 <= i < |f.rows| && !HasKey(ups, c) ==> Cell(g.rows[i], c) == Cell(f.rows[i], c)
    ensures forall i, c :: 0 <= i < |f.rows| && c in g.rows[i].cells ==> c in f.rows[i].cells || HasKey(ups, c)
    decreases |ups|
  {
    if |ups| == 0 then f
    else
      var init := ups[..|ups| - 1];
      assert Keys(ups) == Keys(init) + [ups[|ups| - 1].0];
      SetWhere(AssignAll(f, mask, init), mask, ups[|ups| - 1].0, ups[|ups| - 1].1)
  }

  /** With distinct columns, each selected row's assigned cell is the assignment applied to its old cell. */
  lemma {:induction false} AssignAllSets(f: Frame, mask: seq<bool>, ups: Dict<string, Assigned>)
    requires |mask| == |f.rows| && UniqueKeys(ups)
    ensures forall i, k :: 0 <= i < |f.rows| && mask[i] && 0 <= k < |ups| ==>
      Cell(AssignAll(f, mask, ups).rows[i], ups[k].0) == Apply(ups[k].1, Cell(f.rows[i], ups[k].0))
    decreases |ups|
  {
    if |ups| > 0 {
      var n := |ups| - 1;
      var init := ups[..n];
      PrefixUniqueKeys(ups, n);
      PrefixLacksNext(ups, n);
      AssignAllSets(f, mask, init);
      var h := AssignAll(f, mask, init);
      var (col, a) := ups[n];
      var g := AssignAll(f, mask, ups);
      assert g == SetWhere(h, mask, col, a);
      forall i, k | 0 <= i < |f.rows| && mask[i] && 0 <= k < |ups|
        ensures Cell(g.rows[i], ups[k].0) == Apply(ups[k].1, Cell(f.rows[i], ups[k].0))
      {
        if k < n {
          assert Keys(ups)[k] != Keys(ups)[n];
          assert init[k] == ups[k];
          assert Cell(g.rows[i], ups[k].0) == Cell(h.rows[i], ups[k].0);
        } else {
          assert !HasKey(init, col);
          assert Cell(h.rows[i], col) == Cell(f.rows[i], col);
        }
      }
    }
  }

  /** Assignments that leave the key columns alone leave the key matches alone. */
  lemma AssignKeepsMatches(f: Frame, mask: seq<bool>, ups: Dict<string, Assigned>, cols: seq<string>, v: PkValue, i: nat)
    requires |mask| == |f.rows| && i < |f.rows|
    requires forall j :: 0 <= j < |cols| ==> !HasKey(ups, cols[j])
    ensures RowMatches(AssignAll(f, mask, ups), cols, v, AssignAll(f, mask, ups).rows[i]) == RowMatches(f, cols, v, f.rows[i])
  {
    var g := AssignAll(f, mask, ups);
    assert KeyOf(g.rows[i], cols) == KeyOf(f.rows[i], cols);
    assert AllColumns(g, cols) <==> AllColumns(f, cols);
  }

  /** Assigning cells keeps the table's layout. */
  lemma AssignPlaced(f: Frame, mask: seq<bool>, ups: Dict<string, Assigned>, cols: seq<string>)
    requires |mask| == |f.rows| && Placed(f, cols)
    ensures Placed(AssignAll(f, mask, ups), cols)
  {
  }

  /* ---------- delete_row and delete_where ---------- */

  /** The rows whose mask entry is false, in order. */
  function Kept(f: Frame, mask: seq<bool>): seq<Row>
    requires |mask| == |f.rows|
  {
    FilterRows(f.rows, Negate(mask))
  }

  /** `df[~mask]`, renumbered unless the key is the index. */
  function DeleteMatching(f: Frame, cols: seq<string>, mask: seq<bool>): (g: Frame)
    requires |mask| == |f.rows|
    ensures g.columns == f.columns && |g.rows| == |Kept(f, mask)|
    ensures KeyIsIndex(f, cols) ==> g == Frame(f.index, f.columns, Kept(f, mask))
    ensures !KeyIsIndex(f, cols) ==>
      g.index == [None] && forall i, c :: 0 <= i < |g.rows| ==> Cell(g.rows[i], c) == Cell(Kept(f, mask)[i], c)
  {
    var kept := Frame(f.index, f.columns, Kept(f, mask));
    if KeyIsIndex(f, cols) then kept else ResetIndexDrop(kept)
  }

  /** A row survives the filter exactly when some position holding it is kept. */
  lemma {:induction false} FilterRowsMembers(rows: seq<Row>, keep: seq<bool>, r: Row)
    requires |keep| == |rows|
    ensures r in FilterRows(rows, keep) <==> exists i :: 0 <= i < |rows| && keep[i] && rows[i] == r
    decreases |rows|
  {
    if |rows| > 0 {
      FilterRowsMembers(rows[1..], keep[1..], r);
      if exists i :: 0 <= i < |rows| && keep[i] && rows[i] == r {
        var i :| 0 <= i < |rows| && keep[i] && rows[i] == r;
        if i > 0 {
          assert keep[1..][i - 1] && rows[1..][i - 1] == r;
        }
      }
      if exists i :: 0 <= i < |rows| - 1 && keep[1..][i] && rows[1..][i] == r {
        var i :| 0 <= i < |rows| - 1 && keep[1..][i] && rows[1..][i] == r;
        assert keep[i + 1] && rows[i + 1] == r;
      }
    }
  }

  /**
   * Deleting the rows of a mask removes exactly those: the count drops by
   * the number selected, and the table keeps the unselected rows' cells in
   * their order.
   */
  lemma DeleteCount(f: Frame, cols: seq<string>, mask: seq<bool>)
    requires |mask| == |f.rows|
    ensures |DeleteMatching(f, cols, mask).rows| == |f.rows| - CountTrue(mask)
    ensures forall r :: r in Kept(f, mask) <==> exists i :: 0 <= i < |f.rows| && !mask[i] && f.rows[i] == r
  {
    FilterCount(f.rows, mask);
    forall r ensures r in Kept(f, mask) <==> exists i :: 0 <= i < |f.rows| && !mask[i] && f.rows[i] == r {
      FilterRowsMembers(f.rows, Negate(mask), r);
    }
  }

  /** Deleting keeps the table's layout. */
  lemma DeletePlaced(f: Frame, cols: seq<string>, mask: seq<bool>)
    requires |mask| == |f.rows| && Placed(f, cols)
    ensures Placed(DeleteMatching(f, cols, mask), cols)
  {
    var g := DeleteMatching(f, cols, mask);
    var kept := Kept(f, mask);
    forall i | 0 <= i < |kept| ensures kept[i] in f.rows && |kept[i].indexLabel| == |f.index| {
      assert kept[i] in kept;
    }
    forall i, c | 0 <= i < |g.rows| && c in g.rows[i].cells ensures c in g.columns {
      assert kept[i] in kept;
      if !KeyIsIndex(f, cols) {
        assert g.rows[i].cells == kept[i].cells;
      }
    }
  }

  /** After `delete_row(v)`, no row carries `v` any more. */
  lemma DeletedKeyGone(f: Frame, cols: seq<string>, v: PkValue)
    requires KeyShapeError(cols, v).None?
    ensures var mask := PkMask(f, cols, v).value;
      var g := DeleteMatching(f, cols, mask);
      forall i :: 0 <= i < |g.rows| ==> !RowMatches(g, cols, v, g.rows[i])
  {
    var mask := PkMask(f, cols, v).value;
    var g := DeleteMatching(f, cols, mask);
    var kept := Kept(f, mask);
    DeleteCount(f, cols, mask);
    forall i | 0 <= i < |g.rows| ensures !RowMatches(g, cols, v, g.rows[i]) {
      assert kept[i] in kept;
      var p :| 0 <= p < |f.rows| && !mask[p] && f.rows[p] == kept[i];
      if !KeyIsIndex(f, cols) {
        assert KeyOf(g.rows[i], cols) == KeyOf(kept[i], cols);
      }
    }
  }

  /* ---------- bulk_insert ---------- */

  /** Column names in order of first appearance across the rows, as `pd.DataFrame(rows)` lists them. */
  function AllFields(rows: seq<Dict<string, Value>>): (cs: seq<string>)
    ensures forall c :: c in cs <==> exists k :: 0 <= k < |rows| && HasKey(rows[k], c)
  {
    if |rows| == 0 then []
    else
      var init := rows[..|rows| - 1];
      var cs := MergeColumns(AllFields(init), Keys(rows[|rows| - 1]));
      assert forall c :: (exists k :: 0 <= k < |rows| && HasKey(rows[k], c)) ==> c in cs by {
        forall c | exists k :: 0 <= k < |rows| && HasKey(rows[k], c) ensures c in cs {
          var k :| 0 <= k < |rows| && HasKey(rows[k], c);
          if k < |rows| - 1 {
            assert HasKey(init[k], c);
          }
        }
      }
      assert forall c :: c in cs ==> exists k :: 0 <= k < |rows| && HasKey(rows[k], c) by {
        forall c | c in cs ensures exists k :: 0 <= k < |rows| && HasKey(rows[k], c) {
          if c in AllFields(init) {
            var k :| 0 <= k < |init| && HasKey(init[k], c);
            assert HasKey(rows[k], c);
          } else {
            assert HasKey(rows[|rows| - 1], c);
          }
        }
      }
      cs
  }

  /** `pd.DataFrame(rows)`: one positional row per dictionary, a field a row lacks read as missing. */
  function RowsFrame(rows: seq<Dict<string, Value>>): (g: Frame)
    ensures Wf(g) && |g.rows| == |rows| && g.index == [None]
    ensures forall k, c :: 0 <= k < |rows| ==> Cell(g.rows[k], c) == FieldValue(rows[k], c)
    ensures CellsInColumns(g)
  {
    var g := Frame([None], AllFields(rows), seq(|rows|, k requires 0 <= k < |rows| => Row([Int(k)], ToMap(rows[k]))));
    assert forall k, c :: 0 <= k < |rows| && c in ToMap(rows[k]) ==> Get(rows[k], c) == Some(ToMap(rows[k])[c]);
    assert forall k, c :: 0 <= k < |rows| && c in g.rows[k].cells ==> HasKey(rows[k], c);
    g
  }

  /** `pd.concat` of the table and the new rows, keyed like the table when its key is the index. */
  function BulkAppend(f: Frame, cols: seq<string>, rows: seq<Dict<string, Value>>): (g: Frame)
    requires |cols| >= 1
    ensures |g.rows| == |f.rows| + |rows|
    ensures forall i :: 0 <= i < |f.rows| ==> g.rows[i].cells == f.rows[i].cells
  {
    if KeyIsIndex(f, cols) then Concat(f, SetIndex(RowsFrame(rows), cols))
    else ConcatIgnoreIndex(f, RowsFrame(rows))
  }

  /** Appending rows in bulk keeps the table's layout. */
  lemma BulkPlaced(f: Frame, cols: seq<string>, rows: seq<Dict<string, Value>>)
    requires |cols| >= 1 && Placed(f, cols)
    ensures Placed(BulkAppend(f, cols, rows), cols)
  {
    var nf := RowsFrame(rows);
    if KeyIsIndex(f, cols) {
      var s := SetIndex(nf, cols);
      assert |f.index| == |cols|;
      forall k, c | 0 <= k < |s.rows| && c in s.rows[k].cells ensures c in s.columns {
        assert c in nf.rows[k].cells && c !in cols;
      }
      ConcatCells(f, s);
    } else {
      ConcatCells(f, nf);
    }
  }

  /** Concatenated frames whose cells fit their columns give one whose cells fit its columns. */
  lemma ConcatCells(f: Frame, g: Frame)
    requires CellsInColumns(f) && CellsInColumns(g)
    ensures CellsInColumns(Concat(f, g)) && CellsInColumns(ConcatIgnoreIndex(f, g))
  {
    var h := Concat(f, g);
    forall i, c | 0 <= i < |h.rows| && c in h.rows[i].cells ensures c in h.columns {
      if i >= |f.rows| {
        assert h.rows[i] == g.rows[i - |f.rows|];
      }
    }
    var p := ConcatIgnoreIndex(f, g);
    forall i, c | 0 <= i < |p.rows| && c in p.rows[i].cells ensures c in p.columns {
      assert p.rows[i].cells == h.rows[i].cells;
    }
  }

  /**
   * After `bulk_insert`, each inserted row with a complete key carries that
   * key, and each earlier row carries a key exactly when it did before.
   */
  lemma BulkRowsFound(f: Frame, cols: seq<string>, rows: seq<Dict<string, Value>>, k: nat, v: PkValue)
    requires |cols| >= 1 && Placed(f, cols) && k < |rows|
    requires forall j :: 0 <= j < |cols| ==> !FieldValue(rows[k], cols[j]).Null?
    ensures var g := BulkAppend(f, cols, rows);
      && RowMatches(g, cols, FieldsPkValue(rows[k], cols), g.rows[|f.rows| + k])
      && forall i :: 0 <= i < |f.rows| ==> RowMatches(g, cols, v, g.rows[i]) == RowMatches(f, cols, v, f.rows[i])
  {
    forall j | 0 <= j < |cols| ensures HasKey(rows[k], cols[j]) {
    }
    if KeyIsIndex(f, cols) {
      BulkRowsFoundIndexed(f, cols, rows, k, v);
    } else {
      BulkRowsFoundColumns(f, cols, rows, k, v);
    }
  }

  /** `BulkRowsFound` when the key is the index: the new rows are labelled by their keys. */
  lemma BulkRowsFoundIndexed(f: Frame, cols: seq<string>, rows: seq<Dict<string, Value>>, k: nat, v: PkValue)
    requires |cols| >= 1 && Placed(f, cols) && k < |rows| && KeyIsIndex(f, cols)
    requires forall j :: 0 <= j < |cols| ==> HasKey(rows[k], cols[j]) && !FieldValue(rows[k], cols[j]).Null?
    ensures var g := BulkAppend(f, cols, rows);
      && RowMatches(g, cols, FieldsPkValue(rows[k], cols), g.rows[|f.rows| + k])
      && forall i :: 0 <= i < |f.rows| ==> RowMatches(g, cols, v, g.rows[i]) == RowMatches(f, cols, v, f.rows[i])
  {
    var g := BulkAppend(f, cols, rows);
    var nf := RowsFrame(rows);
    var s := SetIndex(nf, cols);
    assert g.rows[|f.rows| + k] == s.rows[k];
    assert s.rows[k].indexLabel == KeyOf(nf.rows[k], cols) == FieldsKey(rows[k], cols);
    if |cols| > 1 {
      assert |f.index| == |cols|;
    }
    forall i | 0 <= i < |f.rows| ensures RowMatches(g, cols, v, g.rows[i]) == RowMatches(f, cols, v, f.rows[i]) {
      assert g.rows[i] == f.rows[i];
    }
  }

  /** `BulkRowsFound` when the key is among the columns: the new rows carry their keys as cells. */
  lemma BulkRowsFoundColumns(f: Frame, cols: seq<string>, rows: seq<Dict<string, Value>>, k: nat, v: PkValue)
    requires |cols| >= 1 && Placed(f, cols) && k < |rows| && !KeyIsIndex(f, cols)
    requires forall j :: 0 <= j < |cols| ==> HasKey(rows[k], cols[j]) && !FieldValue(rows[k], cols[j]).Null?
    ensures var g := BulkAppend(f, cols, rows);
      && RowMatches(g, cols, FieldsPkValue(rows[k], cols), g.rows[|f.rows| + k])
      && forall i :: 0 <= i < |f.rows| ==> RowMatches(g, cols, v, g.rows[i]) == RowMatches(f, cols, v, f.rows[i])
  {
    var g := BulkAppend(f, cols, rows);
    var nf := RowsFrame(rows);
    assert IndexName(g) == None && !IsMultiIndex(g);
    assert AllColumns(g, cols) by {
      forall j | 0 <= j < |cols| ensures cols[j] in g.columns {
        assert cols[j] in nf.columns;
      }
    }
    assert g.rows[|f.rows| + k].cells == nf.rows[k].cells;
    assert KeyOf(g.rows[|f.rows| + k], cols) == FieldsKey(rows[k], cols);
    forall i | 0 <= i < |f.rows| ensures RowMatches(g, cols, v, g.rows[i]) == RowMatches(f, cols, v, f.rows[i]) {
      ColumnKeyRowMatches(f, g, cols, v, i);
    }
  }

  /** A row whose cells are kept matches a key looked up among the columns as before. */
  lemma ColumnKeyRowMatches(f: Frame, g: Frame, cols: seq<string>, v: PkValue, i: nat)
    requires |cols| >= 1 && Placed(f, cols) && !KeyIsIndex(f, cols) && i < |f.rows| && i < |g.rows|
    requires IndexName(g) == None && !IsMultiIndex(g) && AllColumns(g, cols)
    requires g.rows[i].cells == f.rows[i].cells
    ensures RowMatches(g, cols, v, g.rows[i]) == RowMatches(f, cols, v, f.rows[i])
  {
    assert KeyOf(g.rows[i], cols) == KeyOf(f.rows[i], cols);
    if !AllColumns(f, cols) {
      var j :| 0 <= j < |cols| && cols[j] !in f.columns;
      assert cols[j] !in f.rows[i].cells;
      assert KeyOf(f.rows[i], cols)[j] == Null;
    }
  }

  /* ---------- Column edits ---------- */

  /** `df[name] = default`: a new last column holding the default in every row. */
  function AddColumn(f: Frame, name: string, default: Value): (g: Frame)
    ensures g.index == f.index && g.columns == f.columns + [name] && |g.rows| == |f.rows|
    ensures forall i :: 0 <= i < |f.rows| ==> g.rows[i].indexLabel == f.rows[i].indexLabel
    ensures forall i, c :: 0 <= i < |f.rows| ==> Cell(g.rows[i], c) == if c == name then default else Cell(f.rows[i], c)
  {
    Frame(f.index, f.columns + [name],
          seq(|f.rows|, i requires 0 <= i < |f.rows| => Row(f.rows[i].indexLabel, f.rows[i].cells[name := default])))
  }

  /** `df.drop(columns=[name])` */
  function DropColumn(f: Frame, name: string): (g: Frame)
    ensures g.index == f.index && g.columns == Remove(f.columns, [name]) && |g.rows| == |f.rows|
    ensures forall i :: 0 <= i < |f.rows| ==> g.rows[i].indexLabel == f.rows[i].indexLabel
    ensures forall i, c :: 0 <= i < |f.rows| ==> Cell(g.rows[i], c) == if c == name then Null else Cell(f.rows[i], c)
  {
    Frame(f.index, Remove(f.columns, [name]),
          seq(|f.rows|, i requires 0 <= i < |f.rows| => Row(f.rows[i].indexLabel, f.rows[i].cells - {name})))
  }

  function RenameIn(xs: seq<string>, oldName: string, newName: string): (r: seq<string>)
    ensures |r| == |xs| && forall j :: 0 <= j < |xs| ==> r[j] == if xs[j] == oldName then newName else xs[j]
  {
    seq(|xs|, j requires 0 <= j < |xs| => if xs[j] == oldName then newName else xs[j])
  }

  function RenameCells(cells: Record, oldName: string, newName: string): Record {
    if oldName in cells then (cells - {oldName, newName})[newName := cells[oldName]] else cells - {newName}
  }

  /** `df.rename(columns={old: new})`: the index is untouched. */
  function RenameColumn(f: Frame, oldName: string, newName: string): (g: Frame)
    ensures g.index == f.index && g.columns == RenameIn(f.columns, oldName, newName) && |g.rows| == |f.rows|
    ensures forall i :: 0 <= i < |f.rows| ==> g.rows[i].indexLabel == f.rows[i].indexLabel
    ensures forall i, c :: 0 <= i < |f.rows| ==>
      Cell(g.rows[i], c) == if c == newName then Cell(f.rows[i], oldName) else if c == oldName then Null else Cell(f.rows[i], c)
  {
    Frame(f.index, RenameIn(f.columns, oldName, newName),
          seq(|f.rows|, i requires 0 <= i < |f.rows| => Row(f.rows[i].indexLabel, RenameCells(f.rows[i].cells, oldName, newName))))
  }

  /** The key after a rename: a single key follows its column, a composite key its first occurrence. */
  function RenameKey(pk: PrimaryKey, oldName: string, newName: string): PrimaryKey {
    match pk
    case Single(n) => if n == oldName then Single(newName) else pk
    case Composite(ns) => if oldName in ns then Composite(ns[FirstIndex(ns, oldName) := newName]) else pk
  }

  function FirstIndex(xs: seq<string>, x: string): (j: nat)
    requires x in xs
    ensures j < |xs| && xs[j] == x && forall k :: 0 <= k < j ==> xs[k] != x
  {
    if xs[0] == x then 0 else 1 + FirstIndex(xs[1..], x)
  }

  /** Dropping a column just added gives the table back. */
  lemma DropUndoesAdd(f: Frame, name: string, default: Value)
    requires CellsInColumns(f) && name !in f.columns
    ensures DropColumn(AddColumn(f, name, default), name) == f
  {
    RemoveAbsent(f.columns, name);
    var g := DropColumn(AddColumn(f, name, default), name);
    forall i | 0 <= i < |f.rows| ensures g.rows[i] == f.rows[i] {
      assert name !in f.rows[i].cells;
      assert (f.rows[i].cells[name := default]) - {name} == f.rows[i].cells;
    }
  }

  lemma {:induction false} RemoveAbsent(xs: seq<string>, name: string)
    requires name !in xs
    ensures Remove(xs + [name], [name]) == xs
    decreases |xs|
  {
    if |xs| == 0 {
      assert Remove([name], [name]) == Remove([], [name]);
    } else {
      assert (xs + [name])[1..] == xs[1..] + [name];
      RemoveAbsent(xs[1..], name);
    }
  }

  /** Renaming a column newName a fresh name and back gives the table back. */
  lemma RenameRoundTrip(f: Frame, oldName: string, newName: string)
    requires CellsInColumns(f) && newName !in f.columns
    ensures RenameColumn(RenameColumn(f, oldName, newName), newName, oldName) == f
  {
    var g := RenameColumn(RenameColumn(f, oldName, newName), newName, oldName);
    assert g.columns == f.columns;
    forall i | 0 <= i < |f.rows| ensures g.rows[i] == f.rows[i] {
      var cells := f.rows[i].cells;
      assert newName !in cells;
      assert RenameCells(RenameCells(cells, oldName, newName), newName, oldName) == cells;
    }
  }

  /** A renamed key column still yields every row's key under the renamed key. */
  lemma RenameKeepsRowKeys(f: Frame, pk: PrimaryKey, oldName: string, newName: string)
    requires Distinct(NormalizePrimaryKey(pk)) && newName !in NormalizePrimaryKey(pk)
    requires CellsInColumns(f) && newName !in f.columns && oldName != newName
    ensures var g := RenameColumn(f, oldName, newName);
      var cols := NormalizePrimaryKey(pk);
      var cols' := NormalizePrimaryKey(RenameKey(pk, oldName, newName));
      forall i :: 0 <= i < |f.rows| ==> KeyOf(g.rows[i], cols') == KeyOf(f.rows[i], cols)
  {
    var g := RenameColumn(f, oldName, newName);
    var cols := NormalizePrimaryKey(pk);
    var cols' := NormalizePrimaryKey(RenameKey(pk, oldName, newName));
    assert |cols'| == |cols|;
    forall i, j | 0 <= i < |f.rows| && 0 <= j < |cols| ensures Cell(g.rows[i], cols'[j]) == Cell(f.rows[i], cols[j]) {
      assert newName !in f.rows[i].cells;
      if cols[j] == oldName {
        assert cols'[j] == newName;
      } else {
        assert cols'[j] == cols[j];
      }
    }
  }
}
