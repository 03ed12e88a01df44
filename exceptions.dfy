/**
 * The exception hierarchy: `PandalchemyError` with its context fields and
 * its line-by-line formatter, and `ConflictError` with its own formatter.
 */
module Exceptions {
  import opened Wrappers
  import opened Dicts
  import opened Text
  import opened Values

  /** The concrete class of a `PandalchemyError`. */
  datatype ErrorClass = Base | Schema | Transaction | DataValidation | Connection | ChangeTracking | Conflict

  /** `self.__class__.__name__` */
  function ClassName(c: ErrorClass): (name: string)
    ensures |name| > 0 && name[0] != ' '
  {
    match c
    case Base => "PandalchemyError"
    case Schema => "SchemaError"
    case Transaction => "TransactionError"
    case DataValidation => "DataValidationError"
    case Connection => "ConnectionError"
    case ChangeTracking => "ChangeTrackingError"
    case Conflict => "ConflictError"
  }

  /**
   * The `details` argument: `None`, a dictionary (whose values are shown
   * through their `str`), or any other object, given by its `str` and its
   * truth value.
   */
  datatype Details = NoDetails | DictDetails(entries: Dict<string, string>) | OtherDetails(text: string, truthy: bool)

  datatype PandalchemyError = PandalchemyError(
    cls: ErrorClass,
    message: string,
    details: Details,
    tableName: Option<string>,
    operation: Option<string>,
    affectedRows: seq<Key>,
    errorCode: Option<string>,
    suggestedFix: Option<string>)

  datatype ConflictError = ConflictError(
    base: PandalchemyError,
    primaryKey: Option<Key>,
    localChanges: Dict<string, Value>,
    remoteChanges: Dict<string, Value>,
    conflictingColumns: seq<string>)

  /** Everything an operation of the model can raise. */
  datatype Exception =
    | Raised(error: PandalchemyError)
    | Conflicted(conflict: ConflictError)
    | ValueError(msg: string)
    | KeyError(msg: string)
    | TypeError(msg: string)

  /** Truth value of an optional string: set and non-empty. */
  predicate Truthy(o: Option<string>) {
    o.Some? && o.value != ""
  }

  /** `PandalchemyError.__init__`: `affected_rows or []`, every other argument kept. */
  function NewError(
    cls: ErrorClass, message: string, details: Details, tableName: Option<string>,
    operation: Option<string>, affectedRows: Option<seq<Key>>, errorCode: Option<string>,
    suggestedFix: Option<string>): (e: PandalchemyError)
    ensures e.cls == cls && e.message == message && e.details == details
    ensures e.tableName == tableName && e.operation == operation
    ensures e.errorCode == errorCode && e.suggestedFix == suggestedFix
    ensures affectedRows.None? ==> e.affectedRows == []
    ensures affectedRows.Some? ==> e.affectedRows == affectedRows.value
  {
    PandalchemyError(cls, message, details, tableName, operation,
                     if affectedRows.Some? then affectedRows.value else [], errorCode, suggestedFix)
  }

  /** The short form used throughout the library: a message and details only. */
  function Error(cls: ErrorClass, message: string, details: Details): Exception {
    Raised(NewError(cls, message, details, None, None, None, None, None))
  }

  function Header(e: PandalchemyError): string {
    ClassName(e.cls) + ": " + e.message
  }

  function OptLine(field: Option<string>, prefix: string): seq<string> {
    if Truthy(field) then [prefix + field.value] else []
  }

  function TableLines(table: Option<string>): seq<string> {
    if Truthy(table) then ["  Table: '" + table.value + "'"] else []
  }

  const MaxShownRows := 5

  function AffectedLines(rows: seq<Key>): seq<string> {
    if |rows| == 0 then []
    else if |rows| <= MaxShownRows then ["  Affected Rows: " + ListRepr(KeyReprs(rows))]
    else ["  Affected Rows: " + IntToString(|rows|) + " rows (showing first 5: "
          + ListRepr(KeyReprs(rows[..MaxShownRows])) + "...)"]
  }

  function DetailEntryLine(entry: (string, string)): string {
    "    " + entry.0 + ": " + entry.1
  }

  function DetailLines(d: Details): seq<string> {
    match d
    case NoDetails => []
    case DictDetails(es) =>
      if |es| == 0 then []
      else ["  Details:"] + seq(|es|, i requires 0 <= i < |es| => DetailEntryLine(es[i]))
    case OtherDetails(text, truthy) => if truthy then ["  Details: " + text] else []
  }

  /** The lines `format_error` joins. */
  function ErrorLines(e: PandalchemyError): seq<string> {
    [Header(e)]
    + TableLines(e.tableName)
    + OptLine(e.operation, "  Operation: ")
    + AffectedLines(e.affectedRows)
    + OptLine(e.errorCode, "  Error Code: ")
    + OptLine(e.suggestedFix, "  Fix: ")
    + DetailLines(e.details)
  }

  /** `format_error()`, which `__str__` returns too. */
  function Formatted(e: PandalchemyError): string {
    Join(ErrorLines(e), "\n")
  }

  /** `format_error`: conditional appends to `lines`, then a join. */
  method FormatError(e: PandalchemyError) returns (s: string)
    ensures s == Formatted(e)
  {
    var lines := [Header(e)];
    if Truthy(e.tableName) {
      lines := lines + ["  Table: '" + e.tableName.value + "'"];
    }
    assert lines == [Header(e)] + TableLines(e.tableName);
    if Truthy(e.operation) {
      lines := lines + ["  Operation: " + e.operation.value];
    }
    assert lines == [Header(e)] + TableLines(e.tableName)
                    + OptLine(e.operation, "  Operation: ");
    if |e.affectedRows| > 0 {
      if |e.affectedRows| <= MaxShownRows {
        lines := lines + ["  Affected Rows: " + ListRepr(KeyReprs(e.affectedRows))];
      } else {
        lines := lines + ["  Affected Rows: " + IntToString(|e.affectedRows|) + " rows (showing first 5: "
                          + ListRepr(KeyReprs(e.affectedRows[..MaxShownRows])) + "...)"];
      }
    }
    ghost var prefix := [Header(e)] + TableLines(e.tableName)
                        + OptLine(e.operation, "  Operation: ")
                        + AffectedLines(e.affectedRows);
    assert lines == prefix;
    if Truthy(e.errorCode) {
      lines := lines + ["  Error Code: " + e.errorCode.value];
    }
    prefix := prefix + OptLine(e.errorCode, "  Error Code: ");
    assert lines == prefix;
    if Truthy(e.suggestedFix) {
      lines := lines + ["  Fix: " + e.suggestedFix.value];
    }
    prefix := prefix + OptLine(e.suggestedFix, "  Fix: ");
    assert lines == prefix;
    var detailLines := RenderDetails(e.details);
    lines := lines + detailLines;
    assert lines == ErrorLines(e);
    s := Join(lines, "\n");
  }

  /** The details block of `format_error`: a header and one line per dictionary entry. */
  method RenderDetails(d: Details) returns (lines: seq<string>)
    ensures lines == DetailLines(d)
  {
    lines := [];
    match d {
      case NoDetails =>
      case DictDetails(es) =>
        var detailStrs: seq<string> := [];
        for i := 0 to |es|
          invariant detailStrs == seq(i, j requires 0 <= j < i => DetailEntryLine(es[j]))
        {
          detailStrs := detailStrs + [DetailEntryLine(es[i])];
        }
        if |detailStrs| > 0 {
          lines := ["  Details:"] + detailStrs;
        }
      case OtherDetails(text, truthy) =>
        if truthy {
          lines := ["  Details: " + text];
        }
    }
  }

  function B(b: bool): nat {
    if b then 1 else 0
  }

  /**
   * Line layout of `format_error`: the header first, then each optional line
   * exactly when its field is set, in the order Table, Operation, Affected
   * Rows, Error Code, Fix (placed by `ErrorLineTail`), and the details last.
   */
  lemma ErrorLineLayout(e: PandalchemyError)
    ensures var L := ErrorLines(e);
      var t := B(Truthy(e.tableName));
      var o := B(Truthy(e.operation));
      var a := B(|e.affectedRows| > 0);
      var c := B(Truthy(e.errorCode));
      var f := B(Truthy(e.suggestedFix));
      && |L| == 1 + t + o + a + c + f + |DetailLines(e.details)|
      && L[0] == ClassName(e.cls) + ": " + e.message
      && (Truthy(e.tableName) ==> L[1] == "  Table: '" + e.tableName.value + "'")
      && (Truthy(e.operation) ==> L[1 + t] == "  Operation: " + e.operation.value)
      && L[1 + t + o + a + c + f..] == DetailLines(e.details)
  {
    LayoutOfSegments(e);
  }

  /** The Affected Rows, Error Code and Fix lines of `format_error`, after the Table and Operation lines. */
  lemma ErrorLineTail(e: PandalchemyError)
    ensures var L := ErrorLines(e);
      var t := B(Truthy(e.tableName));
      var o := B(Truthy(e.operation));
      var a := B(|e.affectedRows| > 0);
      var c := B(Truthy(e.errorCode));
      && |L| >= 1 + t + o + a + c + B(Truthy(e.suggestedFix))
      && (a == 1 ==> StartsWith(L[1 + t + o], "  Affected Rows: "))
      && (Truthy(e.errorCode) ==> L[1 + t + o + a] == "  Error Code: " + e.errorCode.value)
      && (Truthy(e.suggestedFix) ==> L[1 + t + o + a + c] == "  Fix: " + e.suggestedFix.value)
  {
    LayoutOfSegments(e);
  }

  lemma LayoutOfSegments(e: PandalchemyError)
    ensures var L := ErrorLines(e);
      var T, O, A := TableLines(e.tableName), OptLine(e.operation, "  Operation: "), AffectedLines(e.affectedRows);
      var C, F, D := OptLine(e.errorCode, "  Error Code: "), OptLine(e.suggestedFix, "  Fix: "), DetailLines(e.details);
      && |T| == B(Truthy(e.tableName)) && |O| == B(Truthy(e.operation)) && |A| == B(|e.affectedRows| > 0)
      && |C| == B(Truthy(e.errorCode)) && |F| == B(Truthy(e.suggestedFix))
      && (|A| > 0 ==> StartsWith(A[0], "  Affected Rows: "))
      && |L| == 1 + |T| + |O| + |A| + |C| + |F| + |D|
      && L[0] == Header(e)
      && (|T| > 0 ==> L[1] == T[0])
      && (|O| > 0 ==> L[1 + |T|] == O[0])
      && (|A| > 0 ==> L[1 + |T| + |O|] == A[0])
      && (|C| > 0 ==> L[1 + |T| + |O| + |A|] == C[0])
      && (|F| > 0 ==> L[1 + |T| + |O| + |A| + |C|] == F[0])
      && L[1 + |T| + |O| + |A| + |C| + |F|..] == D
  {
    AffectedLinePrefix(e.affectedRows);
    SegmentLayout(ErrorLines(e), Header(e), TableLines(e.tableName), OptLine(e.operation, "  Operation: "),
                  AffectedLines(e.affectedRows), OptLine(e.errorCode, "  Error Code: "),
                  OptLine(e.suggestedFix, "  Fix: "), DetailLines(e.details));
  }

  /** The Affected Rows segment: one line, opening with its label, exactly when there are rows. */
  lemma AffectedLinePrefix(rows: seq<Key>)
    ensures |AffectedLines(rows)| == B(|rows| > 0)
    ensures |rows| > 0 ==> StartsWith(AffectedLines(rows)[0], "  Affected Rows: ")
  {
    var p := "  Affected Rows: ";
    if 0 < |rows| <= MaxShownRows {
      var rest := ListRepr(KeyReprs(rows));
      assert (p + rest)[..|p|] == p;
    } else if |rows| > MaxShownRows {
      var rest := IntToString(|rows|) + " rows (showing first 5: " + ListRepr(KeyReprs(rows[..MaxShownRows])) + "...)";
      assert p + IntToString(|rows|) + " rows (showing first 5: " + ListRepr(KeyReprs(rows[..MaxShownRows])) + "...)"
          == p + rest;
      assert (p + rest)[..|p|] == p;
    }
  }

  /**
   * Past five rows only the count and the first five keys are shown: two
   * row lists of the same length that agree on their first five keys give
   * the same line.
   */
  lemma AffectedLinesTruncated(rows: seq<Key>, others: seq<Key>)
    requires |rows| > MaxShownRows && |others| == |rows| && others[..MaxShownRows] == rows[..MaxShownRows]
    ensures AffectedLines(others) == AffectedLines(rows)
  {
  }

  /** Where each segment of at most one line lands in `[h] + t + o + a + c + f + d`. */
  lemma SegmentLayout(L: seq<string>, h: string, t: seq<string>, o: seq<string>, a: seq<string>,
                      c: seq<string>, f: seq<string>, d: seq<string>)
    requires L == [h] + t + o + a + c + f + d
    ensures |L| == 1 + |t| + |o| + |a| + |c| + |f| + |d|
    ensures L[0] == h
    ensures |t| > 0 ==> L[1] == t[0]
    ensures |o| > 0 ==> L[1 + |t|] == o[0]
    ensures |a| > 0 ==> L[1 + |t| + |o|] == a[0]
    ensures |c| > 0 ==> L[1 + |t| + |o| + |a|] == c[0]
    ensures |f| > 0 ==> L[1 + |t| + |o| + |a| + |c|] == f[0]
    ensures L[1 + |t| + |o| + |a| + |c| + |f|..] == d
  {
    var p5 := [h] + t + o + a + c;
    assert L == p5 + f + d;
    assert |f| > 0 ==> L[|p5|] == f[0];
    var p4 := [h] + t + o + a;
    assert |c| > 0 ==> L[|p4|] == c[0];
    var p3 := [h] + t + o;
    assert |a| > 0 ==> L[|p3|] == a[0];
    var p2 := [h] + t;
    assert |o| > 0 ==> L[|p2|] == o[0];
  }

  /** A line of `lines` starts with `prefix`. */
  predicate HasLine(lines: seq<string>, prefix: string) {
    exists i :: 0 <= i < |lines| && StartsWith(lines[i], prefix)
  }

  lemma HasLineConcat(a: seq<string>, b: seq<string>, prefix: string)
    ensures HasLine(a + b, prefix) <==> HasLine(a, prefix) || HasLine(b, prefix)
  {
    if HasLine(a + b, prefix) {
      var i :| 0 <= i < |a + b| && StartsWith((a + b)[i], prefix);
      if i >= |a| { assert StartsWith(b[i - |a|], prefix); }
      else { assert StartsWith(a[i], prefix); }
    }
    if HasLine(b, prefix) {
      var i :| 0 <= i < |b| && StartsWith(b[i], prefix);
      assert (a + b)[|a| + i] == b[i];
    }
    if HasLine(a, prefix) {
      var i :| 0 <= i < |a| && StartsWith(a[i], prefix);
      assert (a + b)[i] == a[i];
    }
  }

  /** Which segment of `format_error`'s lines a line with a given prefix can come from. */
  lemma LinesBySegment(e: PandalchemyError, p: string)
    ensures HasLine(ErrorLines(e), p) <==>
      || HasLine([Header(e)], p)
      || HasLine(TableLines(e.tableName), p)
      || HasLine(OptLine(e.operation, "  Operation: "), p)
      || HasLine(AffectedLines(e.affectedRows), p)
      || HasLine(OptLine(e.errorCode, "  Error Code: "), p)
      || HasLine(OptLine(e.suggestedFix, "  Fix: "), p)
      || HasLine(DetailLines(e.details), p)
  {
    var H := [Header(e)];
    var T := TableLines(e.tableName);
    var O := OptLine(e.operation, "  Operation: ");
    var A := AffectedLines(e.affectedRows);
    var C := OptLine(e.errorCode, "  Error Code: ");
    var F := OptLine(e.suggestedFix, "  Fix: ");
    var D := DetailLines(e.details);
    assert ErrorLines(e) == H + T + O + A + C + F + D;
    HasLineConcat(H + T + O + A + C + F, D, p);
    HasLineConcat(H + T + O + A + C, F, p);
    HasLineConcat(H + T + O + A, C, p);
    HasLineConcat(H + T + O, A, p);
    HasLineConcat(H + T, O, p);
    HasLineConcat(H, T, p);
  }

  /**
   * A segment of at most one line, starting with `q`, has a line starting
   * with `p` exactly when it is not empty and `p` is `q`; it has none when
   * the two prefixes differ in their third character.
   */
  lemma OneLineSegment(seg: seq<string>, q: string, p: string)
    requires |seg| <= 1 && (|seg| == 1 ==> StartsWith(seg[0], q))
    requires |p| >= 3 && |q| >= 3
    ensures p[2] != q[2] ==> !HasLine(seg, p)
    ensures p == q ==> (HasLine(seg, p) <==> |seg| == 1)
  {
    if |seg| == 1 {
      assert seg[0][2] == q[2];
    }
  }

  /** No header or detail line starts with two spaces and a letter other than 'D'. */
  lemma HeaderAndDetailsLack(e: PandalchemyError, p: string)
    requires |p| >= 3 && p[..2] == "  " && p[2] != ' ' && p[2] != 'D'
    ensures !HasLine([Header(e)], p) && !HasLine(DetailLines(e.details), p)
  {
    assert Header(e)[0] != ' ';
    var L := DetailLines(e.details);
    forall i | 0 <= i < |L| ensures !StartsWith(L[i], p) {
      assert L[i][2] == ' ' || L[i][2] == 'D';
    }
  }

  /** The Table segment has a line opening with `p` only when `p` is its label, and then exactly when a table is set. */
  lemma TableSegment(table: Option<string>, p: string)
    requires |p| >= 3
    ensures p[2] != 'T' ==> !HasLine(TableLines(table), p)
    ensures p == "  Table: " ==> (HasLine(TableLines(table), p) <==> Truthy(table))
  {
    var T := TableLines(table);
    if |T| == 1 { assert StartsWith(T[0], "  Table: "); }
    OneLineSegment(T, "  Table: ", p);
  }

  /** The same for an optional line labelled `q`. */
  lemma OptSegment(field: Option<string>, q: string, p: string)
    requires |p| >= 3 && |q| >= 3
    ensures p[2] != q[2] ==> !HasLine(OptLine(field, q), p)
    ensures p == q ==> (HasLine(OptLine(field, q), p) <==> Truthy(field))
  {
    var O := OptLine(field, q);
    if |O| == 1 { assert O[0][..|q|] == q; }
    OneLineSegment(O, q, p);
  }

  /** The same for the Affected Rows segment. */
  lemma AffectedSegment(rows: seq<Key>, p: string)
    requires |p| >= 3
    ensures p[2] != 'A' ==> !HasLine(AffectedLines(rows), p)
    ensures p == "  Affected Rows: " ==> (HasLine(AffectedLines(rows), p) <==> |rows| > 0)
  {
    AffectedLinePrefix(rows);
    OneLineSegment(AffectedLines(rows), "  Affected Rows: ", p);
  }

  /** The facts every presence lemma needs, for one concrete prefix. */
  lemma SegmentFacts(e: PandalchemyError, p: string)
    requires |p| >= 3 && p[..2] == "  " && p[2] != ' ' && p[2] != 'D'
    ensures HasLine(ErrorLines(e), p) <==>
      || HasLine(TableLines(e.tableName), p)
      || HasLine(OptLine(e.operation, "  Operation: "), p)
      || HasLine(AffectedLines(e.affectedRows), p)
      || HasLine(OptLine(e.errorCode, "  Error Code: "), p)
      || HasLine(OptLine(e.suggestedFix, "  Fix: "), p)
    ensures p[2] != 'T' ==> !HasLine(TableLines(e.tableName), p)
    ensures p[2] != 'O' ==> !HasLine(OptLine(e.operation, "  Operation: "), p)
    ensures p[2] != 'A' ==> !HasLine(AffectedLines(e.affectedRows), p)
    ensures p[2] != 'E' ==> !HasLine(OptLine(e.errorCode, "  Error Code: "), p)
    ensures p[2] != 'F' ==> !HasLine(OptLine(e.suggestedFix, "  Fix: "), p)
    ensures p == "  Table: " ==> (HasLine(TableLines(e.tableName), p) <==> Truthy(e.tableName))
    ensures p == "  Operation: " ==> (HasLine(OptLine(e.operation, "  Operation: "), p) <==> Truthy(e.operation))
    ensures p == "  Affected Rows: " ==> (HasLine(AffectedLines(e.affectedRows), p) <==> |e.affectedRows| > 0)
    ensures p == "  Error Code: " ==> (HasLine(OptLine(e.errorCode, "  Error Code: "), p) <==> Truthy(e.errorCode))
    ensures p == "  Fix: " ==> (HasLine(OptLine(e.suggestedFix, "  Fix: "), p) <==> Truthy(e.suggestedFix))
  {
    LinesBySegment(e, p);
    HeaderAndDetailsLack(e, p);
    TableSegment(e.tableName, p);
    OptSegment(e.operation, "  Operation: ", p);
    AffectedSegment(e.affectedRows, p);
    OptSegment(e.errorCode, "  Error Code: ", p);
    OptSegment(e.suggestedFix, "  Fix: ", p);
  }

  /** The Table line of `format_error` is present exactly when a table name is set. */
  lemma TableLinePresent(e: PandalchemyError)
    ensures HasLine(ErrorLines(e), "  Table: ") <==> Truthy(e.tableName)
  {
    SegmentFacts(e, "  Table: ");
  }

  /** The Operation line is present exactly when an operation is set. */
  lemma OperationLinePresent(e: PandalchemyError)
    ensures HasLine(ErrorLines(e), "  Operation: ") <==> Truthy(e.operation)
  {
    SegmentFacts(e, "  Operation: ");
  }

  /** The Affected Rows line is present exactly when there are affected rows. */
  lemma AffectedRowsLinePresent(e: PandalchemyError)
    ensures HasLine(ErrorLines(e), "  Affected Rows: ") <==> |e.affectedRows| > 0
  {
    SegmentFacts(e, "  Affected Rows: ");
  }

  /** The Error Code line is present exactly when an error code is set. */
  lemma ErrorCodeLinePresent(e: PandalchemyError)
    ensures HasLine(ErrorLines(e), "  Error Code: ") <==> Truthy(e.errorCode)
  {
    SegmentFacts(e, "  Error Code: ");
  }

  /** The Fix line is present exactly when a suggested fix is set. */
  lemma FixLinePresent(e: PandalchemyError)
    ensures HasLine(ErrorLines(e), "  Fix: ") <==> Truthy(e.suggestedFix)
  {
    SegmentFacts(e, "  Fix: ");
  }

  /**
   * Details rendering: a non-empty dictionary ends the message with a
   * "  Details:" header and one "    k: v" line per entry, in order; any
   * other truthy object gives one "  Details: ..." line; an empty
   * dictionary, a falsy object or no details give no Details line at all.
   */
  lemma DetailsRendering(e: PandalchemyError)
    ensures var L := ErrorLines(e);
      && (e.details.DictDetails? && |e.details.entries| > 0 ==>
            var es := e.details.entries;
            && |L| >= |es| + 2
            && L[|L| - |es| - 1] == "  Details:"
            && forall i :: 0 <= i < |es| ==> L[|L| - |es| + i] == "    " + es[i].0 + ": " + es[i].1)
      && (e.details.OtherDetails? && e.details.truthy ==>
            L[|L| - 1] == "  Details: " + e.details.text)
      && (HasLine(L, "  Details") <==> |DetailLines(e.details)| > 0)
  {
    var P := [Header(e)] + TableLines(e.tableName) + OptLine(e.operation, "  Operation: ")
      + AffectedLines(e.affectedRows) + OptLine(e.errorCode, "  Error Code: ") + OptLine(e.suggestedFix, "  Fix: ");
    assert ErrorLines(e) == P + DetailLines(e.details);
    if e.details.DictDetails? && |e.details.entries| > 0 {
      DictDetailsTail(ErrorLines(e), P, e.details.entries);
    }
    DetailsPresence(e);
  }

  /** Lines ending in a dictionary's Details block carry its header and one line per entry. */
  lemma DictDetailsTail(L: seq<string>, prefix: seq<string>, es: seq<(string, string)>)
    requires |es| > 0 && |prefix| >= 1
    requires L == prefix + DetailLines(DictDetails(es))
    ensures |L| >= |es| + 2
    ensures L[|L| - |es| - 1] == "  Details:"
    ensures forall i :: 0 <= i < |es| ==> L[|L| - |es| + i] == "    " + es[i].0 + ": " + es[i].1
  {
    forall i | 0 <= i < |es| ensures L[|L| - |es| + i] == "    " + es[i].0 + ": " + es[i].1 {
      assert L[|L| - |es| + i] == DetailLines(DictDetails(es))[1 + i];
    }
  }

  /** A Details block, when there is one, opens with a line starting "  Details". */
  lemma DetailsSegment(d: Details)
    ensures HasLine(DetailLines(d), "  Details") <==> |DetailLines(d)| > 0
  {
    var D := DetailLines(d);
    if |D| > 0 {
      assert StartsWith(D[0], "  Details");
    }
  }

  /** Only the Details block writes a line starting "  Details". */
  lemma DetailsPresence(e: PandalchemyError)
    ensures HasLine(ErrorLines(e), "  Details") <==> |DetailLines(e.details)| > 0
  {
    var p := "  Details";
    LinesBySegment(e, p);
    assert !HasLine([Header(e)], p) by { assert Header(e)[0] != ' '; }
    TableSegment(e.tableName, p);
    OptSegment(e.operation, "  Operation: ", p);
    AffectedSegment(e.affectedRows, p);
    OptSegment(e.errorCode, "  Error Code: ", p);
    OptSegment(e.suggestedFix, "  Fix: ", p);
    DetailsSegment(e.details);
  }

  /**
   * `ConflictError.__init__`: the primary key, when given, is the error's one
   * affected row; missing change maps and column lists default to empty.
   */
  function NewConflictError(
    message: string, tableName: Option<string>, primaryKey: Option<Key>,
    localChanges: Option<Dict<string, Value>>, remoteChanges: Option<Dict<string, Value>>,
    conflictingColumns: Option<seq<string>>, details: Details, operation: Option<string>,
    errorCode: Option<string>, suggestedFix: Option<string>): (c: ConflictError)
    ensures c.base.cls == Conflict && c.base.message == message && c.base.tableName == tableName
    ensures c.base.details == details && c.base.operation == operation
    ensures c.base.errorCode == errorCode && c.base.suggestedFix == suggestedFix
    ensures primaryKey.Some? ==> c.base.affectedRows == [primaryKey.value]
    ensures primaryKey.None? ==> c.base.affectedRows == []
    ensures c.primaryKey == primaryKey
    ensures c.localChanges == (if localChanges.Some? then localChanges.value else [])
    ensures c.remoteChanges == (if remoteChanges.Some? then remoteChanges.value else [])
    ensures c.conflictingColumns == (if conflictingColumns.Some? then conflictingColumns.value else [])
  {
    var base := NewError(Conflict, message, details, tableName, operation,
                         if primaryKey.Some? then Some([primaryKey.value]) else None,
                         errorCode, suggestedFix);
    ConflictError(base, primaryKey,
                  if localChanges.Some? then localChanges.value else [],
                  if remoteChanges.Some? then remoteChanges.value else [],
                  if conflictingColumns.Some? then conflictingColumns.value else [])
  }

  function ListLine(present: bool, prefix: string, rest: string): seq<string> {
    if present then [prefix + rest] else []
  }

  /** A conflict line has a line opening with `p` only when `p` shares its label's third character; exactly when present if `p` is the label. */
  lemma ListSegment(present: bool, q: string, rest: string, p: string)
    requires |p| >= 3 && |q| >= 3
    ensures p[2] != q[2] ==> !HasLine(ListLine(present, q, rest), p)
    ensures p == q ==> (HasLine(ListLine(present, q, rest), p) <==> present)
  {
    var r := ListLine(present, q, rest);
    if present { assert (q + rest)[..|q|] == q; }
    OneLineSegment(r, q, p);
  }

  function PrimaryKeyLines(c: ConflictError): seq<string> {
    ListLine(c.primaryKey.Some?, "  Primary Key: ", KeyStr(if c.primaryKey.Some? then c.primaryKey.value else []))
  }

  function ColumnsLines(c: ConflictError): seq<string> {
    ListLine(|c.conflictingColumns| > 0, "  Conflicting Columns: ", StringListRepr(c.conflictingColumns))
  }

  function LocalLines(c: ConflictError): seq<string> {
    ListLine(|c.localChanges| > 0, "  Local Changes: ", DictRepr(c.localChanges))
  }

  function RemoteLines(c: ConflictError): seq<string> {
    ListLine(|c.remoteChanges| > 0, "  Remote Changes: ", DictRepr(c.remoteChanges))
  }

  /** The lines `ConflictError.format_error` joins. */
  function ConflictLines(c: ConflictError): seq<string> {
    [Header(c.base)]
    + TableLines(c.base.tableName)
    + PrimaryKeyLines(c)
    + ColumnsLines(c)
    + LocalLines(c)
    + RemoteLines(c)
    + OptLine(c.base.suggestedFix, "  Fix: ")
  }

  function ConflictFormatted(c: ConflictError): string {
    Join(ConflictLines(c), "\n")
  }

  /** `ConflictError.format_error`: conditional appends to `lines`, then a join. */
  method FormatConflictError(c: ConflictError) returns (s: string)
    ensures s == ConflictFormatted(c)
  {
    var lines := [Header(c.base)];
    if Truthy(c.base.tableName) {
      lines := lines + ["  Table: '" + c.base.tableName.value + "'"];
    }
    ghost var expected := [Header(c.base)] + TableLines(c.base.tableName);
    assert lines == expected;
    if c.primaryKey.Some? {
      lines := lines + ["  Primary Key: " + KeyStr(c.primaryKey.value)];
    }
    expected := expected + PrimaryKeyLines(c);
    assert lines == expected;
    if |c.conflictingColumns| > 0 {
      lines := lines + ["  Conflicting Columns: " + StringListRepr(c.conflictingColumns)];
    }
    expected := expected + ColumnsLines(c);
    assert lines == expected;
    if |c.localChanges| > 0 {
      lines := lines + ["  Local Changes: " + DictRepr(c.localChanges)];
    }
    expected := expected + LocalLines(c);
    assert lines == expected;
    if |c.remoteChanges| > 0 {
      lines := lines + ["  Remote Changes: " + DictRepr(c.remoteChanges)];
    }
    expected := expected + RemoteLines(c);
    assert lines == expected;
    if Truthy(c.base.suggestedFix) {
      lines := lines + ["  Fix: " + c.base.suggestedFix.value];
    }
    expected := expected + OptLine(c.base.suggestedFix, "  Fix: ");
    assert lines == expected;
    s := Join(lines, "\n");
  }

  /**
   * A line of a conflict message whose third character is none of the letters
   * that open the Table, Conflicting Columns, Local, Remote and Fix lines can
   * only be the Primary Key line.
   */
  lemma ConflictSegments(c: ConflictError, p: string)
    requires |p| >= 3 && p[..2] == "  " && p[2] !in " TCLRF"
    ensures HasLine(ConflictLines(c), p) <==> HasLine(PrimaryKeyLines(c), p)
  {
    var H := [Header(c.base)];
    var T := TableLines(c.base.tableName);
    var P := PrimaryKeyLines(c);
    var K := ColumnsLines(c);
    var L := LocalLines(c);
    var R := RemoteLines(c);
    var F := OptLine(c.base.suggestedFix, "  Fix: ");
    assert ConflictLines(c) == H + T + P + K + L + R + F;
    assert p[2] != 'T' && p[2] != 'C' && p[2] != 'L' && p[2] != 'R' && p[2] != 'F';
    assert !HasLine(H, p) by { assert Header(c.base)[0] != ' '; }
    assert !HasLine(T, p) by { TableSegment(c.base.tableName, p); }
    assert !HasLine(K, p) by {
      ListSegment(|c.conflictingColumns| > 0, "  Conflicting Columns: ", StringListRepr(c.conflictingColumns), p);
    }
    assert !HasLine(L, p) by { ListSegment(|c.localChanges| > 0, "  Local Changes: ", DictRepr(c.localChanges), p); }
    assert !HasLine(R, p) by { ListSegment(|c.remoteChanges| > 0, "  Remote Changes: ", DictRepr(c.remoteChanges), p); }
    assert !HasLine(F, p) by { OptSegment(c.base.suggestedFix, "  Fix: ", p); }
    OnlyMiddle(H, T, P, K, L, R, F, p);
  }

  lemma OnlyMiddle(H: seq<string>, T: seq<string>, P: seq<string>, K: seq<string>,
                   L: seq<string>, R: seq<string>, F: seq<string>, p: string)
    requires !HasLine(H, p) && !HasLine(T, p) && !HasLine(K, p)
    requires !HasLine(L, p) && !HasLine(R, p) && !HasLine(F, p)
    ensures HasLine(H + T + P + K + L + R + F, p) <==> HasLine(P, p)
  {
    HasLineConcat(H + T + P + K + L + R, F, p);
    HasLineConcat(H + T + P + K + L, R, p);
    HasLineConcat(H + T + P + K, L, p);
    HasLineConcat(H + T + P, K, p);
    HasLineConcat(H + T, P, p);
    HasLineConcat(H, T, p);
  }

  /**
   * A conflict message has a Primary Key line exactly when the key is set,
   * and never an Operation or a Details line, whatever the error holds.
   */
  lemma ConflictLinesShape(c: ConflictError)
    ensures HasLine(ConflictLines(c), "  Primary Key: ") <==> c.primaryKey.Some?
    ensures !HasLine(ConflictLines(c), "  Operation: ")
    ensures !HasLine(ConflictLines(c), "  Details")
  {
    var present, rest := c.primaryKey.Some?, KeyStr(if c.primaryKey.Some? then c.primaryKey.value else []);
    ConflictSegments(c, "  Primary Key: ");
    ConflictSegments(c, "  Operation: ");
    ConflictSegments(c, "  Details");
    ListSegment(present, "  Primary Key: ", rest, "  Primary Key: ");
    ListSegment(present, "  Primary Key: ", rest, "  Operation: ");
    ListSegment(present, "  Primary Key: ", rest, "  Details");
  }
}
