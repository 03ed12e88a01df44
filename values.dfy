/**
 * Cell values, primary-key values and records.  A `Value` abstracts what a
 * pandas cell can hold in this model; `Null` stands for both `None` and `NaN`.
 */
module Values {
  import opened Text

  datatype Value = Null | Int(i: int) | Str(s: string) | Bool(b: bool)

  /** A primary-key value: one component per key column (a scalar key has one). */
  type Key = seq<Value>

  /** A row as a dictionary from column name to value, as `to_dict()` gives it. */
  type Record = map<string, Value>

  /** `pd.isna(v)` */
  predicate IsNa(v: Value) {
    v.Null?
  }

  /**
   * The row diff's "values differ" test: two missing values count as equal,
   * anything else is compared with `!=`.
   */
  predicate Differs(a: Value, b: Value) {
    !(IsNa(a) && IsNa(b)) && a != b
  }

  /** An element of a pandas `==` mask: a missing value matches nothing. */
  predicate PandasEq(a: Value, b: Value) {
    !IsNa(a) && !IsNa(b) && a == b
  }

  /** `type(v).__name__` */
  function TypeName(v: Value): string {
    match v
    case Null => "NoneType"
    case Int(_) => "int"
    case Str(_) => "str"
    case Bool(_) => "bool"
  }

  /** `str(v)` */
  function ValueStr(v: Value): string {
    match v
    case Null => "None"
    case Int(i) => IntToString(i)
    case Str(s) => s
    case Bool(b) => if b then "True" else "False"
  }

  /** `repr(v)` */
  function ValueRepr(v: Value): string {
    if v.Str? then StrRepr(v.s) else ValueStr(v)
  }

  function ValueReprs(vs: seq<Value>): (r: seq<string>)
    ensures |r| == |vs|
  {
    seq(|vs|, i requires 0 <= i < |vs| => ValueRepr(vs[i]))
  }

  /** `repr` of a tuple of values. */
  function TupleRepr(vs: seq<Value>): string {
    if |vs| == 1 then "(" + ValueRepr(vs[0]) + ",)"
    else "(" + Join(ValueReprs(vs), ", ") + ")"
  }

  /** `str(k)` of a key: the scalar itself, or the tuple of a composite key. */
  function KeyStr(k: Key): string {
    if |k| == 1 then ValueStr(k[0]) else TupleRepr(k)
  }

  /** `repr(k)` of a key. */
  function KeyRepr(k: Key): string {
    if |k| == 1 then ValueRepr(k[0]) else TupleRepr(k)
  }

  function KeyReprs(ks: seq<Key>): (r: seq<string>)
    ensures |r| == |ks|
  {
    seq(|ks|, i requires 0 <= i < |ks| => KeyRepr(ks[i]))
  }

  /** `str(xs)` of a list of strings. */
  function StringListRepr(xs: seq<string>): string {
    ListRepr(seq(|xs|, i requires 0 <= i < |xs| => StrRepr(xs[i])))
  }

  /** `str(d)` of a dictionary from column name to value. */
  function DictRepr(d: seq<(string, Value)>): string {
    "{" + Join(seq(|d|, i requires 0 <= i < |d| => StrRepr(d[i].0) + ": " + ValueRepr(d[i].1)), ", ") + "}"
  }
}
