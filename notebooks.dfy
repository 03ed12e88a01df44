/**
 * The notebook builder of scripts/convert_source_to_notebooks.py.  The text of
 * a Python file with `# %%` cell markers is cut into lines; a marker line
 * starts a new code or markdown cell and belongs to no cell; every other line
 * goes to the cell being collected, which is emitted only when it has a line.
 * Each cell becomes a JSON object, and the cells are wrapped in a version-4
 * notebook object.
 */
module Notebooks {
  import opened Wrappers
  import opened Dicts
  import opened Text

  /** JSON values, as the notebook is written out; an object keeps its key order. */
  datatype Json = JNull | JInt(n: int) | JStr(s: string) | JArray(items: seq<Json>) | JObject(fields: Dict<string, Json>)

  datatype CellType = Code | Markdown

  /** The cell type a marker line starts; None for a line that is not a marker. */
  function MarkerOf(line: string): (t: Option<CellType>)
    ensures t == Some(Code) <==> Strip(line) == "# %%"
    ensures t == Some(Markdown) <==> Strip(line) == "# %% [markdown]"
  {
    var s := Strip(line);
    if s == "# %%" then Some(Code)
    else if s == "# %% [markdown]" then Some(Markdown)
    else None
  }

  // ---------------------------------------------------------------------------
  // Cutting the text into cells

  /** The lines of one cell and the type of the marker that opened it (None before any marker). */
  datatype Group = Group(cellType: Option<CellType>, lines: seq<string>)

  /** The parser's state: the cells emitted so far, and the type and lines of the cell being collected. */
  datatype Scan = Scan(done: seq<Group>, cellType: Option<CellType>, pending: seq<string>)

  /** The cells emitted so far, with the pending cell emitted if it has a line. */
  function Flush(s: Scan): seq<Group> {
    if |s.pending| > 0 then s.done + [Group(s.cellType, s.pending)] else s.done
  }

  /** One line of the loop. */
  function Step(s: Scan, line: string): Scan {
    match MarkerOf(line)
    case Some(t) => Scan(Flush(s), Some(t), [])
    case None => s.(pending := s.pending + [line])
  }

  /** The state after the loop has seen `lines`, in order. */
  function ScanLines(lines: seq<string>): Scan
    decreases |lines|
  {
    if |lines| == 0 then Scan([], None, [])
    else Step(ScanLines(lines[..|lines| - 1]), lines[|lines| - 1])
  }

  /** The cells of a file's text, as groups of lines. */
  function Groups(content: string): seq<Group> {
    Flush(ScanLines(Split(content, '\n')))
  }

  /** The lines that are not markers, in order. */
  function NonMarkers(lines: seq<string>): seq<string>
    decreases |lines|
  {
    if |lines| == 0 then []
    else NonMarkers(lines[..|lines| - 1]) + (if MarkerOf(lines[|lines| - 1]).None? then [lines[|lines| - 1]] else [])
  }

  predicate NoMarkers(lines: seq<string>) {
    forall i :: 0 <= i < |lines| ==> MarkerOf(lines[i]).None?
  }

  /** All lines of the groups, one group after the other. */
  function Flatten(gs: seq<Group>): seq<string>
    decreases |gs|
  {
    if |gs| == 0 then [] else Flatten(gs[..|gs| - 1]) + gs[|gs| - 1].lines
  }

  /** Every cell the loop emits has a line. */
  lemma {:induction false} ScanGroupsNonEmpty(lines: seq<string>)
    ensures forall k :: 0 <= k < |ScanLines(lines).done| ==> |ScanLines(lines).done[k].lines| > 0
    decreases |lines|
  {
    if |lines| > 0 {
      ScanGroupsNonEmpty(lines[..|lines| - 1]);
    }
  }

  lemma FlattenSnoc(gs: seq<Group>, g: Group)
    ensures Flatten(gs + [g]) == Flatten(gs) + g.lines
  {
    assert (gs + [g])[..|gs|] == gs;
  }

  /** The emitted cells and the pending lines hold the non-marker lines seen so far. */
  lemma {:induction false} ScanHoldsNonMarkers(lines: seq<string>)
    ensures Flatten(ScanLines(lines).done) + ScanLines(lines).pending == NonMarkers(lines)
    decreases |lines|
  {
    if |lines| > 0 {
      var init := lines[..|lines| - 1];
      var s := ScanLines(init);
      ScanHoldsNonMarkers(init);
      if MarkerOf(lines[|lines| - 1]).Some? && |s.pending| > 0 {
        FlattenSnoc(s.done, Group(s.cellType, s.pending));
      }
    }
  }

  lemma NoMarkersSnoc(lines: seq<string>)
    requires |lines| > 0
    ensures NoMarkers(lines) <==> NoMarkers(lines[..|lines| - 1]) && MarkerOf(lines[|lines| - 1]).None?
  {
    var init := lines[..|lines| - 1];
    assert forall i :: 0 <= i < |init| ==> init[i] == lines[i];
  }

  /** The collected cell is untyped exactly while no marker has been seen, and then nothing was emitted. */
  lemma {:induction false} ScanUntyped(lines: seq<string>)
    ensures ScanLines(lines).cellType.None? <==> NoMarkers(lines)
    ensures ScanLines(lines).cellType.None? ==> ScanLines(lines).done == [] && ScanLines(lines).pending == lines
    decreases |lines|
  {
    if |lines| > 0 {
      var init := lines[..|lines| - 1];
      var line := lines[|lines| - 1];
      ScanUntyped(init);
      NoMarkersSnoc(lines);
      var s := ScanLines(init);
      assert ScanLines(lines) == Step(s, line);
      if MarkerOf(line).None? {
        assert lines == init + [line];
      }
    }
  }

  /** Only the first emitted cell can be untyped, and only when the first line is not a marker. */
  lemma {:induction false} ScanTypedAfterFirst(lines: seq<string>)
    ensures var s := ScanLines(lines);
      forall k :: 0 <= k < |s.done| && s.done[k].cellType.None? ==> k == 0 && MarkerOf(lines[0]).None?
    decreases |lines|
  {
    if |lines| > 0 {
      var init := lines[..|lines| - 1];
      var s := ScanLines(init);
      ScanTypedAfterFirst(init);
      ScanUntyped(init);
      if |init| > 0 {
        assert lines[0] == init[0];
      }
    }
  }

  /** Every emitted cell has at least one line. */
  lemma GroupsNonEmpty(content: string)
    ensures forall g :: g in Groups(content) ==> |g.lines| > 0
  {
    ScanGroupsNonEmpty(Split(content, '\n'));
  }

  /** The cells hold exactly the lines that are not markers, in file order. */
  lemma GroupsHoldNonMarkers(content: string)
    ensures Flatten(Groups(content)) == NonMarkers(Split(content, '\n'))
  {
    var s := ScanLines(Split(content, '\n'));
    ScanHoldsNonMarkers(Split(content, '\n'));
    if |s.pending| > 0 {
      FlattenSnoc(s.done, Group(s.cellType, s.pending));
    }
  }

  /**
   * Only the first cell can be untyped, and only when the text does not
   * start with a marker; a text without markers is one untyped cell.
   */
  lemma GroupTypes(content: string)
    ensures var lines, gs := Split(content, '\n'), Groups(content);
      && (forall k :: 0 <= k < |gs| && gs[k].cellType.None? ==> k == 0 && MarkerOf(lines[0]).None?)
      && (NoMarkers(lines) ==> gs == [Group(None, lines)])
  {
    var lines := Split(content, '\n');
    var s := ScanLines(lines);
    ScanTypedAfterFirst(lines);
    ScanUntyped(lines);
    var gs := Flush(s);
    assert gs == Groups(content);
    forall k | 0 <= k < |gs| && gs[k].cellType.None?
      ensures k == 0 && MarkerOf(lines[0]).None?
    {
      if k == |s.done| {
        assert s.cellType.None?;
        assert NoMarkers(lines);
      }
    }
  }

  lemma {:induction false} NonMarkersAll(lines: seq<string>)
    requires NoMarkers(lines)
    ensures NonMarkers(lines) == lines
    decreases |lines|
  {
    if |lines| > 0 {
      NonMarkersAll(lines[..|lines| - 1]);
      assert lines == lines[..|lines| - 1] + [lines[|lines| - 1]];
    }
  }

  /** The JSON cells of a list of groups, in order. */
  function Cells(gs: seq<Group>): (r: seq<Json>)
    ensures |r| == |gs|
    decreases |gs|
  {
    if |gs| == 0 then [] else Cells(gs[..|gs| - 1]) + [CellJson(gs[|gs| - 1])]
  }

  lemma {:induction false} CellsAt(gs: seq<Group>, k: nat)
    requires k < |gs|
    ensures Cells(gs)[k] == CellJson(gs[k])
    decreases |gs|
  {
    if k < |gs| - 1 {
      CellsAt(gs[..|gs| - 1], k);
    }
  }

  /**
   * `parse_source_file` after the file is read: the loop over the lines,
   * emitting each finished cell, then the last one.
   */
  method ParseSourceFile(content: string) returns (cells: seq<Json>)
    ensures cells == Cells(Groups(content))
  {
    var lines := Split(content, '\n');
    ghost var done: seq<Group> := [];
    cells := [];
    var cellType: Option<CellType> := None;
    var pending: seq<string> := [];
    var i := 0;
    while i < |lines|
      invariant 0 <= i <= |lines|
      invariant Scan(done, cellType, pending) == ScanLines(lines[..i])
      invariant cells == Cells(done)
    {
      var line := lines[i];
      assert lines[..i + 1][..i] == lines[..i];
      ghost var before := Scan(done, cellType, pending);
      assert ScanLines(lines[..i + 1]) == Step(before, line);
      var marker := MarkerOf(line);
      if marker == Some(Code) {
        if |pending| > 0 {
          var cell := CreateCell(cellType, pending);
          assert (done + [Group(cellType, pending)])[..|done|] == done;
          cells, done := cells + [cell], done + [Group(cellType, pending)];
          pending := [];
        }
        cellType := Some(Code);
      } else if marker == Some(Markdown) {
        if |pending| > 0 {
          var cell := CreateCell(cellType, pending);
          assert (done + [Group(cellType, pending)])[..|done|] == done;
          cells, done := cells + [cell], done + [Group(cellType, pending)];
          pending := [];
        }
        cellType := Some(Markdown);
      } else {
        pending := pending + [line];
      }
      i := i + 1;
    }
    assert lines[..i] == lines;
    if |pending| > 0 {
      var cell := CreateCell(cellType, pending);
      assert (done + [Group(cellType, pending)])[..|done|] == done;
      cells, done := cells + [cell], done + [Group(cellType, pending)];
    }
  }

  // ---------------------------------------------------------------------------
  // One cell as JSON

  function CellTypeJson(t: Option<CellType>): Json {
    match t
    case None => JNull
    case Some(Code) => JStr("code")
    case Some(Markdown) => JStr("markdown")
  }

  /** A markdown line loses a leading "# ", or else a leading "#". */
  function CleanLine(line: string): string {
    if StartsWith(line, "# ") then line[2..]
    else if StartsWith(line, "#") then line[1..]
    else line
  }

  /** The markdown cleaning undoes exactly one of the prefixes "# ", "#" or nothing. */
  lemma CleanLineStripsPrefix(line: string)
    ensures StartsWith(line, "# ") ==> line == "# " + CleanLine(line)
    ensures !StartsWith(line, "# ") && StartsWith(line, "#") ==> line == "#" + CleanLine(line)
    ensures !StartsWith(line, "#") ==> CleanLine(line) == line
  {
    if StartsWith(line, "# ") {
      assert line == line[..2] + line[2..];
    } else if StartsWith(line, "#") {
      assert line == line[..1] + line[1..];
    }
  }

  function Cleaned(lines: seq<string>): (r: seq<string>)
    ensures |r| == |lines|
  {
    seq(|lines|, i requires 0 <= i < |lines| => CleanLine(lines[i]))
  }

  /** The parts of a split, each but the last followed by a newline. */
  function WithNewlines(parts: seq<string>): (r: seq<string>)
    requires |parts| >= 1
    ensures |r| == |parts|
  {
    seq(|parts| - 1, i requires 0 <= i < |parts| - 1 => parts[i] + "\n") + [parts[|parts| - 1]]
  }

  /** The `source` list of a cell body: its stripped text, line by line. */
  function SourceLines(content: string): seq<string> {
    var s := Strip(content);
    if s == "" then [] else WithNewlines(Split(s, '\n'))
  }

  function Strings(ss: seq<string>): (j: Json)
    ensures j.JArray? && |j.items| == |ss|
  {
    JArray(seq(|ss|, i requires 0 <= i < |ss| => JStr(ss[i])))
  }

  /** The `source` list of a cell: markdown lines are cleaned first. */
  function SourceOf(g: Group): Json {
    if g.cellType == Some(Markdown) then Strings(SourceLines(Join(Cleaned(g.lines), "\n")))
    else Strings(SourceLines(Join(g.lines, "\n")))
  }

  /** The keys of a cell's JSON object. */
  const CellTypeKey := "cell_type"
  const MetadataKey := "metadata"
  const ExecutionCountKey := "execution_count"
  const OutputsKey := "outputs"
  const SourceKey := "source"

  /** The keys of a cell, given its `source` list. */
  function CellFields(t: Option<CellType>, source: Json): Dict<string, Json> {
    var base := [(CellTypeKey, CellTypeJson(t)), (MetadataKey, JObject([]))];
    match t
    case None => base
    case Some(Code) => base + [(ExecutionCountKey, JNull), (OutputsKey, JArray([])), (SourceKey, source)]
    case Some(Markdown) => base + [(SourceKey, source)]
  }

  /** `create_cell(cell_type, lines)` */
  function CellJson(g: Group): Json {
    JObject(CellFields(g.cellType, SourceOf(g)))
  }

  /**
   * `create_cell`: the dictionary built key by key (each key is new, so each
   * assignment appends an entry), the markdown lines cleaned in a loop.
   */
  method CreateCell(cellType: Option<CellType>, lines: seq<string>) returns (cell: Json)
    ensures cell == CellJson(Group(cellType, lines))
  {
    var fields: Dict<string, Json> := [(CellTypeKey, CellTypeJson(cellType)), (MetadataKey, JObject([]))];
    if cellType == Some(Code) {
      fields := fields + [(ExecutionCountKey, JNull)];
      fields := fields + [(OutputsKey, JArray([]))];
      var content := Join(lines, "\n");
      fields := fields + [(SourceKey, Strings(SourceLines(content)))];
    } else if cellType == Some(Markdown) {
      var cleaned: seq<string> := [];
      var i := 0;
      while i < |lines|
        invariant 0 <= i <= |lines|
        invariant cleaned == Cleaned(lines[..i])
      {
        var line := lines[i];
        if StartsWith(line, "# ") {
          cleaned := cleaned + [line[2..]];
        } else if StartsWith(line, "#") {
          cleaned := cleaned + [line[1..]];
        } else {
          cleaned := cleaned + [line];
        }
        i := i + 1;
      }
      assert lines[..i] == lines;
      fields := fields + [(SourceKey, Strings(SourceLines(Join(cleaned, "\n"))))];
    }
    cell := JObject(fields);
  }

  /** The text of a list of strings put one after the other. */
  function Concat(ss: seq<string>): string
    decreases |ss|
  {
    if |ss| == 0 then "" else ss[0] + Concat(ss[1..])
  }

  lemma {:induction false} WithNewlinesJoin(parts: seq<string>)
    requires |parts| >= 1
    ensures Concat(WithNewlines(parts)) == Join(parts, "\n")
    decreases |parts|
  {
    if |parts| == 1 {
      assert WithNewlines(parts) == [parts[0]];
      assert Concat([parts[0]]) == parts[0] + Concat([]);
    } else {
      WithNewlinesJoin(parts[1..]);
      assert WithNewlines(parts) == [parts[0] + "\n"] + WithNewlines(parts[1..]);
      assert (([parts[0] + "\n"] + WithNewlines(parts[1..])))[1..] == WithNewlines(parts[1..]);
    }
  }

  /**
   * Joining `source` gives exactly the stripped cell text; every element but
   * the last ends in a newline, and the last holds no newline.
   */
  lemma SourceRoundTrip(content: string)
    ensures Concat(SourceLines(content)) == Strip(content)
    ensures var src := SourceLines(content);
      && (forall i :: 0 <= i < |src| - 1 ==> |src[i]| > 0 && src[i][|src[i]| - 1] == '\n')
      && (|src| > 0 ==> '\n' !in src[|src| - 1])
  {
    var s := Strip(content);
    if s != "" {
      var parts := Split(s, '\n');
      WithNewlinesJoin(parts);
      JoinSplit(s, '\n');
      SplitPartsFree(s, '\n');
      var src := WithNewlines(parts);
      forall i | 0 <= i < |src| - 1 ensures |src[i]| > 0 && src[i][|src[i]| - 1] == '\n' {
        assert src[i] == parts[i] + "\n";
      }
    }
  }

  /** A body that is all whitespace has an empty `source`, and only such a body. */
  lemma EmptySourceIffBlank(content: string)
    ensures SourceLines(content) == [] <==> AllSpace(content)
  {
    StripEmpty(content);
  }

  /** Every cell starts with its `cell_type` and an empty `metadata`. */
  lemma CellHeader(t: Option<CellType>, source: Json)
    ensures Get(CellFields(t, source), CellTypeKey) == Some(CellTypeJson(t))
    ensures Get(CellFields(t, source), MetadataKey) == Some(JObject([]))
  {
    assert Get(CellFields(t, source)[1..], MetadataKey) == Some(JObject([]));
  }

  /** A code cell has no execution count and no outputs. */
  lemma CodeCellShape(source: Json)
    ensures var fs := CellFields(Some(Code), source);
      && Keys(fs) == [CellTypeKey, MetadataKey, ExecutionCountKey, OutputsKey, SourceKey]
      && Get(fs, ExecutionCountKey) == Some(JNull)
      && Get(fs, OutputsKey) == Some(JArray([]))
  {
    var rest := [(ExecutionCountKey, JNull), (OutputsKey, JArray([])), (SourceKey, source)];
    assert CellFields(Some(Code), source)[1..][1..] == rest;
    assert Get(rest[1..], OutputsKey) == Some(JArray([]));
  }

  /** A code cell carries its `source`. */
  lemma CodeCellSource(source: Json)
    ensures Get(CellFields(Some(Code), source), SourceKey) == Some(source)
  {
    var rest := [(ExecutionCountKey, JNull), (OutputsKey, JArray([])), (SourceKey, source)];
    assert CellFields(Some(Code), source)[1..][1..] == rest;
    assert Get(rest[1..][1..], SourceKey) == Some(source);
  }

  /** A markdown cell holds only `cell_type`, `metadata` and its `source`. */
  lemma MarkdownCellShape(source: Json)
    ensures var fs := CellFields(Some(Markdown), source);
      Keys(fs) == [CellTypeKey, MetadataKey, SourceKey] && Get(fs, SourceKey) == Some(source)
  {
    assert Get(CellFields(Some(Markdown), source)[1..][1..], SourceKey) == Some(source);
  }

  /** A cell before any marker holds only `cell_type` (None) and `metadata`: no `source`. */
  lemma UntypedCellShape(source: Json)
    ensures var fs := CellFields(None, source);
      Keys(fs) == [CellTypeKey, MetadataKey] && Get(fs, CellTypeKey) == Some(JNull) && Get(fs, SourceKey).None?
  {
  }

  // ---------------------------------------------------------------------------
  // The notebook

  function KernelMetadata(): Json {
    JObject([
      ("kernelspec", JObject([("display_name", JStr("Python 3")), ("language", JStr("python")), ("name", JStr("python3"))])),
      ("language_info", JObject([
        ("codemirror_mode", JObject([("name", JStr("ipython")), ("version", JInt(3))])),
        ("file_extension", JStr(".py")),
        ("mimetype", JStr("text/x-python")),
        ("name", JStr("python")),
        ("nbconvert_exporter", JStr("python")),
        ("pygments_lexer", JStr("ipython3")),
        ("version", JStr("3.9.0"))]))])
  }

  /** The keys of the notebook object. */
  const CellsKey := "cells"
  const NbformatKey := "nbformat"
  const NbformatMinorKey := "nbformat_minor"

  /** The notebook object's keys around its cells and metadata, in the order they are written. */
  function NotebookFields(cells: seq<Json>, meta: Json): (fs: Dict<string, Json>)
    ensures Keys(fs) == [CellsKey, MetadataKey, NbformatKey, NbformatMinorKey]
    ensures Get(fs, CellsKey) == Some(JArray(cells))
    ensures Get(fs, MetadataKey) == Some(meta)
    ensures Get(fs, NbformatKey) == Some(JInt(4))
    ensures Get(fs, NbformatMinorKey) == Some(JInt(4))
  {
    var fs := [(CellsKey, JArray(cells)), (MetadataKey, meta), (NbformatKey, JInt(4)), (NbformatMinorKey, JInt(4))];
    assert |CellsKey| == 5 && |MetadataKey| == 8 && |NbformatKey| == 8 && |NbformatMinorKey| == 14;
    assert MetadataKey[0] == 'm' && NbformatKey[0] == 'n';
    assert fs[1..][1..][1..] == [(NbformatMinorKey, JInt(4))];
    fs
  }

  /** The notebook object `python_to_notebook` writes, around the parsed cells. */
  method PythonToNotebook(content: string) returns (notebook: Json)
    ensures notebook.JObject?
    ensures Keys(notebook.fields) == [CellsKey, MetadataKey, NbformatKey, NbformatMinorKey]
    ensures Get(notebook.fields, NbformatKey) == Some(JInt(4))
    ensures Get(notebook.fields, NbformatMinorKey) == Some(JInt(4))
    ensures Get(notebook.fields, MetadataKey) == Some(KernelMetadata())
    ensures Get(notebook.fields, CellsKey) == Some(JArray(Cells(Groups(content))))
  {
    var cells := ParseSourceFile(content);
    notebook := JObject(NotebookFields(cells, KernelMetadata()));
  }
}
