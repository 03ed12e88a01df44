/**
 * An abstraction of a pandas DataFrame: an index (one optional name per
 * level), an ordered column list, and rows carrying an index label and
 * their cells.  A cell that a row does not carry reads as missing.
 */
module Frames {
  import opened Wrappers
  import opened Values
  import Text
  import Exceptions

  datatype Row = Row(indexLabel: Key, cells: Record)

  /**
   * `index` has one entry per index level: one entry is a flat index
   * (`index.name`), more than one a MultiIndex (`index.names`).  A
   * RangeIndex is the unnamed flat index whose labels are the positions.
   */
  datatype Frame = Frame(index: seq<Option<string>>, columns: seq<string>, rows: seq<Row>)

  /** Every label has one component per index level. */
  predicate Wf(f: Frame) {
    |f.index| >= 1 && forall i :: 0 <= i < |f.rows| ==> |f.rows[i].indexLabel| == |f.index|
  }

  function Cell(r: Row, c: string): Value {
    if c in r.cells then r.cells[c] else Null
  }

  /** `df.index.name`: the name of a flat index; a MultiIndex has none. */
  function IndexName(f: Frame): Option<string> {
    if |f.index| == 1 then f.index[0] else None
  }

  predicate IsMultiIndex(f: Frame) {
    |f.index| > 1
  }

  /** `c in df.index.names` */
  predicate InIndexNames(f: Frame, c: string) {
    Some(c) in f.index
  }

  /** `df[c].values` */
  function ColumnValues(f: Frame, c: string): (vs: seq<Value>)
    ensures |vs| == |f.rows|
    ensures forall i :: 0 <= i < |f.rows| ==> vs[i] == Cell(f.rows[i], c)
  {
    seq(|f.rows|, i requires 0 <= i < |f.rows| => Cell(f.rows[i], c))
  }

  /** `df.index.values` */
  function Labels(f: Frame): (ls: seq<Key>)
    ensures |ls| == |f.rows|
    ensures forall i :: 0 <= i < |f.rows| ==> ls[i] == f.rows[i].indexLabel
  {
    seq(|f.rows|, i requires 0 <= i < |f.rows| => f.rows[i].indexLabel)
  }

  function LabelSet(f: Frame): set<Key> {
    set i | 0 <= i < |f.rows| :: f.rows[i].indexLabel
  }

  /** `row.to_dict()` of one row of `f`. */
  function RowRecord(f: Frame, r: Row): (rec: Record)
    ensures rec.Keys == set c | c in f.columns
    ensures forall c :: c in f.columns ==> rec[c] == Cell(r, c)
  {
    map c | c in f.columns :: Cell(r, c)
  }

  /** The values of `cols` in row `r`, in the order of `cols`. */
  function KeyOf(r: Row, cols: seq<string>): (k: Key)
    ensures |k| == |cols|
    ensures forall j :: 0 <= j < |cols| ==> k[j] == Cell(r, cols[j])
  {
    seq(|cols|, j requires 0 <= j < |cols| => Cell(r, cols[j]))
  }

  /** `{tuple(row) for row in df[cols].values}` */
  function ColumnKeys(f: Frame, cols: seq<string>): set<Key> {
    set i | 0 <= i < |f.rows| :: KeyOf(f.rows[i], cols)
  }

  predicate AllColumns(f: Frame, cols: seq<string>) {
    forall j :: 0 <= j < |cols| ==> cols[j] in f.columns
  }

  predicate AllIndexNames(f: Frame, cols: seq<string>) {
    forall j :: 0 <= j < |cols| ==> InIndexNames(f, cols[j])
  }

  /** `xs` without the elements of `drop`, order kept. */
  function Remove(xs: seq<string>, drop: seq<string>): (r: seq<string>)
    ensures forall c :: c in r <==> c in xs && c !in drop
    ensures |r| <= |xs|
  {
    if |xs| == 0 then []
    else if xs[0] in drop then Remove(xs[1..], drop)
    else [xs[0]] + Remove(xs[1..], drop)
  }

  /** `a` followed by the names of `b` not in `a`, each once, as pandas aligns columns. */
  function MergeColumns(a: seq<string>, b: seq<string>): (r: seq<string>)
    ensures forall c :: c in r <==> c in a || c in b
    ensures |r| >= |a| && r[..|a|] == a
    decreases |b|
  {
    if |b| == 0 then a
    else if b[0] in a then MergeColumns(a, b[1..])
    else MergeColumns(a + [b[0]], b[1..])
  }

  function Names(cols: seq<string>): (ns: seq<Option<string>>)
    ensures |ns| == |cols|
    ensures forall j :: 0 <= j < |cols| ==> ns[j] == Some(cols[j])
  {
    seq(|cols|, j requires 0 <= j < |cols| => Some(cols[j]))
  }

  /** Cells of `r` without the columns `drop`. */
  function DropCells(r: Record, drop: seq<string>): (s: Record)
    ensures s.Keys == r.Keys - set c | c in drop
    ensures forall c :: c in s ==> s[c] == r[c]
  {
    map c | c in r && c !in drop :: r[c]
  }

  /**
   * `df.set_index(cols)` for a non-empty list of columns known to exist: the
   * columns leave the column list and their values become the labels; the
   * old index is discarded.
   */
  function SetIndex(f: Frame, cols: seq<string>): (g: Frame)
    requires |cols| >= 1
    ensures g.index == Names(cols)
    ensures g.columns == Remove(f.columns, cols)
    ensures |g.rows| == |f.rows|
    ensures forall i :: 0 <= i < |f.rows| ==> g.rows[i].indexLabel == KeyOf(f.rows[i], cols)
    ensures forall i, c :: 0 <= i < |f.rows| && c in g.columns ==> Cell(g.rows[i], c) == Cell(f.rows[i], c)
    ensures Wf(g)
  {
    Frame(Names(cols), Remove(f.columns, cols),
          seq(|f.rows|, i requires 0 <= i < |f.rows| =>
                Row(KeyOf(f.rows[i], cols), DropCells(f.rows[i].cells, cols))))
  }

  /** Rows relabelled with their positions, as a fresh RangeIndex numbers them. */
  function Positional(rows: seq<Row>): (rs: seq<Row>)
    ensures |rs| == |rows|
    ensures forall i :: 0 <= i < |rows| ==> rs[i] == Row([Int(i)], rows[i].cells)
  {
    seq(|rows|, i requires 0 <= i < |rows| => Row([Int(i)], rows[i].cells))
  }

  /** `df.reset_index(drop=True)` */
  function ResetIndexDrop(f: Frame): (g: Frame)
    ensures g.index == [None] && g.columns == f.columns && |g.rows| == |f.rows|
    ensures forall i, c :: 0 <= i < |f.rows| ==> Cell(g.rows[i], c) == Cell(f.rows[i], c)
    ensures Wf(g)
  {
    Frame([None], f.columns, Positional(f.rows))
  }

  /** The column name `reset_index` gives to index level `j`. */
  function LevelColumn(f: Frame, j: nat): string
    requires j < |f.index|
  {
    if f.index[j].Some? then f.index[j].value
    else if |f.index| == 1 then "index"
    else "level_" + Text.IntToString(j)
  }

  function LevelColumns(f: Frame): (cs: seq<string>)
    ensures |cs| == |f.index|
  {
    seq(|f.index|, j requires 0 <= j < |f.index| => LevelColumn(f, j))
  }

  /** Cells of a row with the index levels inserted as columns. */
  function LevelCells(r: Row, names: seq<string>): (rec: Record)
    requires |r.indexLabel| == |names|
    decreases |names|
  {
    if |names| == 0 then r.cells
    else LevelCells(Row(r.indexLabel[1..], r.cells), names[1..])[names[0] := r.indexLabel[0]]
  }

  /** The last index level below `n` whose column name is taken; levels are inserted last to first. */
  function LastClash(f: Frame, n: nat): (j: nat)
    requires n <= |f.index|
    requires exists j :: 0 <= j < n && LevelColumn(f, j) in f.columns
    ensures j < n && LevelColumn(f, j) in f.columns
  {
    if LevelColumn(f, n - 1) in f.columns then n - 1 else LastClash(f, n - 1)
  }

  /**
   * `df.reset_index()`: every index level becomes a column, placed in front,
   * and the rows are renumbered.  A level whose name is already a column
   * raises `ValueError`.
   */
  function ResetIndex(f: Frame): (res: Result<Frame, Exceptions.Exception>)
    requires Wf(f)
    ensures res.Err? <==> exists j :: 0 <= j < |f.index| && LevelColumn(f, j) in f.columns
    ensures res.Ok? ==> res.value.columns == LevelColumns(f) + f.columns
    ensures res.Ok? ==> res.value.index == [None] && |res.value.rows| == |f.rows|
  {
    var names := LevelColumns(f);
    if exists j :: 0 <= j < |f.index| && LevelColumn(f, j) in f.columns then
      var j := LastClash(f, |f.index|);
      Err(Exceptions.ValueError("cannot insert " + LevelColumn(f, j) + ", already exists"))
    else
      Ok(Frame([None], names + f.columns,
               Positional(seq(|f.rows|, i requires 0 <= i < |f.rows| =>
                                Row(f.rows[i].indexLabel, LevelCells(f.rows[i], names))))))
  }

  /** `df[mask]`: the rows whose mask entry is true, labels kept. */
  function FilterRows(rows: seq<Row>, keep: seq<bool>): (rs: seq<Row>)
    requires |keep| == |rows|
    ensures |rs| <= |rows|
    ensures forall r :: r in rs ==> r in rows
    decreases |rows|
  {
    if |rows| == 0 then []
    else if keep[0] then [rows[0]] + FilterRows(rows[1..], keep[1..])
    else FilterRows(rows[1..], keep[1..])
  }

  function CountTrue(mask: seq<bool>): (n: nat)
    ensures n <= |mask|
  {
    if |mask| == 0 then 0 else (if mask[0] then 1 else 0) + CountTrue(mask[1..])
  }

  function Negate(mask: seq<bool>): (m: seq<bool>)
    ensures |m| == |mask| && forall i :: 0 <= i < |mask| ==> m[i] == !mask[i]
  {
    seq(|mask|, i requires 0 <= i < |mask| => !mask[i])
  }

  /** Filtering keeps exactly the rows whose mask entry is true. */
  lemma {:induction false} FilterCount(rows: seq<Row>, keep: seq<bool>)
    requires |keep| == |rows|
    ensures |FilterRows(rows, keep)| == CountTrue(keep)
    ensures |FilterRows(rows, Negate(keep))| == |rows| - CountTrue(keep)
    decreases |rows|
  {
    if |rows| > 0 {
      FilterCount(rows[1..], keep[1..]);
      assert Negate(keep)[1..] == Negate(keep[1..]);
    }
  }

  /** The first row carrying label `k`, as `.loc[k]` picks it in this model. */
  function FirstWithLabel(rows: seq<Row>, k: Key): (r: Row)
    requires exists i :: 0 <= i < |rows| && rows[i].indexLabel == k
    ensures r in rows && r.indexLabel == k
  {
    if rows[0].indexLabel == k then rows[0] else FirstWithLabel(rows[1..], k)
  }

  /** The frame as a map from label to row record. */
  function KeyedRecords(f: Frame): (m: map<Key, Record>)
    ensures m.Keys == LabelSet(f)
  {
    map k | k in LabelSet(f) :: RowRecord(f, FirstWithLabel(f.rows, k))
  }

  /** Rows built from dictionaries, with `cols` the column list they are aligned on. */
  function RowsFromRecords(recs: seq<Record>, labels: seq<Key>): (rs: seq<Row>)
    requires |labels| == |recs|
    ensures |rs| == |recs|
    ensures forall i :: 0 <= i < |recs| ==> rs[i] == Row(labels[i], recs[i])
  {
    seq(|recs|, i requires 0 <= i < |recs| => Row(labels[i], recs[i]))
  }

  /** `pd.concat([f, g])`: columns aligned, rows appended, labels kept. */
  function Concat(f: Frame, g: Frame): (h: Frame)
    ensures h.index == f.index
    ensures h.columns == MergeColumns(f.columns, g.columns)
    ensures h.rows == f.rows + g.rows
  {
    Frame(f.index, MergeColumns(f.columns, g.columns), f.rows + g.rows)
  }

  /** `pd.concat([f, g], ignore_index=True)`: as `Concat`, then renumbered. */
  function ConcatIgnoreIndex(f: Frame, g: Frame): (h: Frame)
    ensures h.index == [None]
    ensures h.columns == MergeColumns(f.columns, g.columns)
    ensures h.rows == Positional(f.rows + g.rows)
    ensures Wf(h)
  {
    Frame([None], MergeColumns(f.columns, g.columns), Positional(f.rows + g.rows))
  }

  /** True when some two rows carry the same value in each of `cols`. */
  predicate HasDuplicateKeys(f: Frame, cols: seq<string>) {
    exists i, j :: 0 <= i < j < |f.rows| && KeyOf(f.rows[i], cols) == KeyOf(f.rows[j], cols)
  }

  /** `df.index.duplicated().any()` */
  predicate HasDuplicateLabels(f: Frame) {
    exists i, j :: 0 <= i < j < |f.rows| && f.rows[i].indexLabel == f.rows[j].indexLabel
  }
}
