/**
 * The execution plan: the tracker's changes compiled into an ordered list of
 * steps (schema changes, then one batched delete, update and insert step),
 * sorted by priority.
 */
module ExecutionPlans {
  import opened Wrappers
  import opened Dicts
  import opened Values
  import opened Text
  import opened Frames
  import opened PkUtils
  import opened Exceptions
  import opened ChangeTracking

  datatype OperationType = SchemaChangeOp | InsertOp | UpdateOp | DeleteOp

  datatype SchemaChangeKind = AddColumn | DropColumn | RenameColumn | AlterColumnType

  /** The dtype of a column of the current data; which dtype pandas infers is not modelled. */
  datatype Dtype = DtypeOf(column: string)

  datatype SchemaChange = SchemaChange(
    changeType: SchemaChangeKind, columnName: string,
    newColumnName: Option<string>, columnType: Option<Dtype>, newColumnType: Option<string>)

  /** What a step carries: a schema change, the keys to delete, or the records to write. */
  datatype StepData = SchemaData(change: SchemaChange) | KeyList(keys: seq<Key>) | RecordList(records: seq<Record>)

  datatype PlanStep = PlanStep(operationType: OperationType, description: string, data: StepData, priority: int)

  // ---------------------------------------------------------------------------
  // The steps, one kind at a time

  function Quoted(s: string): string {
    "'" + s + "'"
  }

  function RenameStep(oldName: string, newName: string): PlanStep {
    PlanStep(SchemaChangeOp, "Rename column " + Quoted(oldName) + " to " + Quoted(newName),
      SchemaData(SchemaChange(RenameColumn, oldName, Some(newName), None, None)), 1)
  }

  function DropStep(name: string): PlanStep {
    PlanStep(SchemaChangeOp, "Drop column " + Quoted(name),
      SchemaData(SchemaChange(DropColumn, name, None, None, None)), 2)
  }

  /** An added column takes its dtype from the current data when the column is there. */
  function AddStep(name: string, current: Frame): PlanStep {
    var colType := if name in current.columns then Some(DtypeOf(name)) else None;
    PlanStep(SchemaChangeOp, "Add column " + Quoted(name),
      SchemaData(SchemaChange(AddColumn, name, None, colType, None)), 3)
  }

  function AlterStep(name: string, typeName: string): PlanStep {
    PlanStep(SchemaChangeOp, "Alter column " + Quoted(name) + " type to " + typeName,
      SchemaData(SchemaChange(AlterColumnType, name, None, None, Some(typeName))), 4)
  }

  function RenameSteps(renamed: Dict<string, string>): seq<PlanStep> {
    if |renamed| == 0 then []
    else RenameSteps(renamed[..|renamed| - 1]) + [RenameStep(renamed[|renamed| - 1].0, renamed[|renamed| - 1].1)]
  }

  function DropSteps(names: seq<string>): seq<PlanStep> {
    if |names| == 0 then [] else DropSteps(names[..|names| - 1]) + [DropStep(names[|names| - 1])]
  }

  function AddSteps(names: seq<string>, current: Frame): seq<PlanStep> {
    if |names| == 0 then [] else AddSteps(names[..|names| - 1], current) + [AddStep(names[|names| - 1], current)]
  }

  function AlterSteps(altered: Dict<string, string>): seq<PlanStep> {
    if |altered| == 0 then []
    else AlterSteps(altered[..|altered| - 1]) + [AlterStep(altered[|altered| - 1].0, altered[|altered| - 1].1)]
  }

  /** `_add_schema_changes`: renames, then drops, then additions, then type changes. */
  function SchemaSteps(renamed: Dict<string, string>, drops: seq<string>, adds: seq<string>,
                       altered: Dict<string, string>, current: Frame): seq<PlanStep> {
    RenameSteps(renamed) + DropSteps(drops) + AddSteps(adds, current) + AlterSteps(altered)
  }

  /** `[rc.primary_key_value for rc in changes]` */
  function KeysOf(s: seq<RowChange>): (ks: seq<Key>)
    ensures |ks| == |s| && forall i :: 0 <= i < |s| ==> ks[i] == s[i].primaryKeyValue
  {
    seq(|s|, i requires 0 <= i < |s| => s[i].primaryKeyValue)
  }

  /** `_add_deletes`: one batched step holding every deleted key, or none. */
  function DeleteSteps(deletes: seq<RowChange>): seq<PlanStep> {
    if |deletes| == 0 then []
    else [PlanStep(DeleteOp, "Delete " + IntToString(|deletes|) + " row(s)", KeyList(KeysOf(deletes)), 10)]
  }

  /** `dict(zip(names, values))`: the shorter side decides the length, a repeated name keeps its last value. */
  function ZipMap(names: seq<string>, vals: seq<Value>): (r: Record)
    ensures forall x :: x in r ==> x in names
  {
    if |names| == 0 || |vals| == 0 then map[]
    else map[names[0] := vals[0]] + ZipMap(names[1..], vals[1..])
  }

  /** The key fields of a record: `{pk: key}` for a single key, the key unpacked per column otherwise. */
  function KeyFields(pk: PrimaryKey, k: Key): Record {
    ZipMap(NormalizePrimaryKey(pk), k)
  }

  /** An insert or update record: the key fields, then the row's new data over them. */
  function ChangeRecord(pk: PrimaryKey, rc: RowChange): Record {
    KeyFields(pk, rc.primaryKeyValue) + (if rc.newData.Some? then rc.newData.value else map[])
  }

  function ChangeRecords(pk: PrimaryKey, s: seq<RowChange>): (recs: seq<Record>)
    ensures |recs| == |s| && forall i :: 0 <= i < |s| ==> recs[i] == ChangeRecord(pk, s[i])
  {
    seq(|s|, i requires 0 <= i < |s| => ChangeRecord(pk, s[i]))
  }

  /** A record that fills the added columns of an existing row: the key, then those added columns the data has. */
  function AddedColumnRecord(view: Frame, pk: PrimaryKey, k: Key, added: set<string>): Record
    requires k in LabelSet(view)
  {
    KeyFields(pk, k) + Restrict(RowData(view, k), added)
  }

  function AddedColumnRecords(view: Frame, pk: PrimaryKey, ks: seq<Key>, added: set<string>): (recs: seq<Record>)
    requires forall i :: 0 <= i < |ks| ==> ks[i] in LabelSet(view)
    ensures |recs| == |ks| && forall i :: 0 <= i < |ks| ==> recs[i] == AddedColumnRecord(view, pk, ks[i], added)
  {
    seq(|ks|, i requires 0 <= i < |ks| => AddedColumnRecord(view, pk, ks[i], added))
  }

  /** `current_keys & original_keys` of the added-column branch. */
  function ExistingKeys(current: Frame, pk: PrimaryKey, originalIndex: set<Key>): set<Key> {
    ExtractPkValues(current, pk) * originalIndex
  }

  lemma ExistingInView(current: Frame, pk: PrimaryKey, originalIndex: set<Key>)
    requires pk.Single? && KeyedView(current, pk).Some?
    ensures ExistingKeys(current, pk, originalIndex) <= LabelSet(KeyedView(current, pk).value)
  {
    ViewKeysAreKeyValues(current, pk);
  }

  /**
   * The update records of `_add_updates`: one per updated row; when columns
   * were added and no row was updated, one per existing key (taken in the
   * order `ks`), holding the key and the added columns.  On that path a
   * composite key fails, as the list of key names is checked for membership
   * in the columns, which needs a hashable value.
   */
  function UpdateRecords(pk: PrimaryKey, updates: seq<RowChange>, added: set<string>, current: Frame,
                         originalIndex: set<Key>, ks: seq<Key>): Result<seq<Record>, Exception>
    requires ValidKey(pk)
    requires forall i :: 0 <= i < |ks| ==> ks[i] in ExistingKeys(current, pk, originalIndex)
  {
    var recs := ChangeRecords(pk, updates);
    if |added| == 0 || |updates| > 0 then Ok(recs)
    else if pk.Composite? then Err(TypeError("unhashable type: 'list'"))
    else if KeyedView(current, pk).None? then Ok(recs)
    else
      ExistingInView(current, pk, originalIndex);
      Ok(recs + AddedColumnRecords(KeyedView(current, pk).value, pk, ks, added))
  }

  function UpdateSteps(records: seq<Record>): seq<PlanStep> {
    if |records| == 0 then []
    else [PlanStep(UpdateOp, "Update " + IntToString(|records|) + " row(s)", RecordList(records), 20)]
  }

  /** `_add_inserts`: one batched step with a record per inserted row, or none. */
  function InsertSteps(pk: PrimaryKey, inserts: seq<RowChange>): seq<PlanStep> {
    if |inserts| == 0 then []
    else [PlanStep(InsertOp, "Insert " + IntToString(|inserts|) + " row(s)", RecordList(ChangeRecords(pk, inserts)), 30)]
  }

  // ---------------------------------------------------------------------------
  // `steps.sort()`: a stable sort on the priority

  predicate Sorted(s: seq<PlanStep>) {
    forall i, j :: 0 <= i < j < |s| ==> s[i].priority <= s[j].priority
  }

  /** Puts `x` before the first step of `s` whose priority is at least its own. */
  function InsertByPriority(x: PlanStep, s: seq<PlanStep>): (r: seq<PlanStep>)
    ensures multiset(r) == multiset(s) + multiset{x}
  {
    if |s| == 0 || x.priority <= s[0].priority then [x] + s
    else
      assert s == [s[0]] + s[1..];
      [s[0]] + InsertByPriority(x, s[1..])
  }

  function SortByPriority(s: seq<PlanStep>): (r: seq<PlanStep>)
    ensures multiset(r) == multiset(s)
  {
    if |s| == 0 then []
    else
      assert s == [s[0]] + s[1..];
      InsertByPriority(s[0], SortByPriority(s[1..]))
  }

  predicate AtLeast(s: seq<PlanStep>, p: int) {
    forall i :: 0 <= i < |s| ==> s[i].priority >= p
  }

  lemma {:induction false} InsertAtLeast(x: PlanStep, s: seq<PlanStep>, p: int)
    requires AtLeast(s, p) && x.priority >= p
    ensures AtLeast(InsertByPriority(x, s), p)
    decreases |s|
  {
    if |s| > 0 && x.priority > s[0].priority {
      InsertAtLeast(x, s[1..], p);
    }
  }

  lemma {:induction false} InsertKeepsSorted(x: PlanStep, s: seq<PlanStep>)
    requires Sorted(s)
    ensures Sorted(InsertByPriority(x, s))
    decreases |s|
  {
    if |s| > 0 && x.priority > s[0].priority {
      InsertKeepsSorted(x, s[1..]);
      InsertAtLeast(x, s[1..], s[0].priority);
    }
  }

  /** The sort is `list.sort`: the result is ordered by priority and a permutation of its input. */
  lemma {:induction false} SortByPrioritySorts(s: seq<PlanStep>)
    ensures Sorted(SortByPriority(s)) && multiset(SortByPriority(s)) == multiset(s)
    decreases |s|
  {
    if |s| > 0 {
      SortByPrioritySorts(s[1..]);
      InsertKeepsSorted(s[0], SortByPriority(s[1..]));
    }
  }

  /** Being stable, the sort leaves a list that is already in priority order as it is. */
  lemma {:induction false} SortedUnchanged(s: seq<PlanStep>)
    requires Sorted(s)
    ensures SortByPriority(s) == s
    decreases |s|
  {
    if |s| > 0 {
      SortedUnchanged(s[1..]);
      assert s == [s[0]] + s[1..];
    }
  }

  // ---------------------------------------------------------------------------
  // The whole plan

  /** The plan before sorting, given the order the drops, additions and update records come in. */
  function UnsortedSteps(pk: PrimaryKey, renamed: Dict<string, string>, drops: seq<string>, adds: seq<string>,
                         altered: Dict<string, string>, changes: seq<RowChange>, current: Frame,
                         updateRecords: seq<Record>): seq<PlanStep> {
    SchemaSteps(renamed, drops, adds, altered, current)
    + DeleteSteps(OfType(changes, Delete))
    + UpdateSteps(updateRecords)
    + InsertSteps(pk, OfType(changes, Insert))
  }

  /** `xs` lists the elements of `s`, each once, in some order (the order a Python set is iterated in). */
  predicate Enumerates(xs: seq<string>, s: set<string>) {
    Distinct(xs) && ColumnSet(xs) == s
  }

  /** The dropped columns that get a drop step: those that are not a rename's old name. */
  function DropsToPlan(dropped: set<string>, renamed: Dict<string, string>): set<string> {
    dropped - ColumnSet(Keys(renamed))
  }

  /**
   * `ExecutionPlan(tracker, current)` once the tracker's changes are
   * recomputed: the sorted steps, or the error the update records raise.
   */
  function Plan(pk: PrimaryKey, renamed: Dict<string, string>, drops: seq<string>, adds: seq<string>,
                altered: Dict<string, string>, changes: seq<RowChange>, current: Frame,
                added: set<string>, originalIndex: set<Key>, ks: seq<Key>): Result<seq<PlanStep>, Exception>
    requires ValidKey(pk)
    requires forall i :: 0 <= i < |ks| ==> ks[i] in ExistingKeys(current, pk, originalIndex)
  {
    match UpdateRecords(pk, OfType(changes, Update), added, current, originalIndex, ks)
    case Err(e) => Err(e)
    case Ok(recs) => Ok(PlanSteps(pk, renamed, drops, adds, altered, changes, current, recs))
  }

  /** `_build_plan` once the update records are known: every kind of step, then the sort. */
  function PlanSteps(pk: PrimaryKey, renamed: Dict<string, string>, drops: seq<string>, adds: seq<string>,
                     altered: Dict<string, string>, changes: seq<RowChange>, current: Frame,
                     recs: seq<Record>): seq<PlanStep> {
    SortByPriority(UnsortedSteps(pk, renamed, drops, adds, altered, changes, current, recs))
  }

  // ---------------------------------------------------------------------------
  // Properties of the plan

  /** `[step for step in steps if step.operation_type == t]` */
  function StepsOfType(s: seq<PlanStep>, t: OperationType): (r: seq<PlanStep>)
    ensures |r| <= |s|
    ensures forall x :: x in r <==> x in s && x.operationType == t
  {
    if |s| == 0 then []
    else (if s[0].operationType == t then [s[0]] else []) + StepsOfType(s[1..], t)
  }

  lemma {:induction false} StepsOfTypeConcat(a: seq<PlanStep>, b: seq<PlanStep>, t: OperationType)
    ensures StepsOfType(a + b, t) == StepsOfType(a, t) + StepsOfType(b, t)
    decreases |a|
  {
    if |a| > 0 {
      var h := if a[0].operationType == t then [a[0]] else [];
      assert (a + b)[0] == a[0];
      assert (a + b)[1..] == a[1..] + b;
      assert StepsOfType(a + b, t) == h + StepsOfType(a[1..] + b, t);
      assert StepsOfType(a, t) == h + StepsOfType(a[1..], t);
      StepsOfTypeConcat(a[1..], b, t);
    } else {
      assert a + b == b;
    }
  }

  /** Every step of `s` has priority `p` and kind `t`. */
  predicate Uniform(s: seq<PlanStep>, t: OperationType, p: int) {
    forall i :: 0 <= i < |s| ==> s[i].operationType == t && s[i].priority == p
  }

  predicate AtMost(s: seq<PlanStep>, p: int) {
    forall i :: 0 <= i < |s| ==> s[i].priority <= p
  }

  lemma SortedAppendUniform(a: seq<PlanStep>, b: seq<PlanStep>, t: OperationType, p: int)
    requires Sorted(a) && AtMost(a, p) && Uniform(b, t, p)
    ensures Sorted(a + b) && AtMost(a + b, p)
  {
    var s := a + b;
    forall i, j | 0 <= i < j < |s| ensures s[i].priority <= s[j].priority {
      if j >= |a| {
        assert s[j] == b[j - |a|];
        if i >= |a| { assert s[i] == b[i - |a|]; } else { assert s[i] == a[i]; }
      } else {
        assert s[i] == a[i] && s[j] == a[j];
      }
    }
    forall i | 0 <= i < |s| ensures s[i].priority <= p {
      if i >= |a| { assert s[i] == b[i - |a|]; } else { assert s[i] == a[i]; }
    }
  }

  lemma {:induction false} UniformOfType(s: seq<PlanStep>, t: OperationType, p: int, u: OperationType)
    requires Uniform(s, t, p)
    ensures StepsOfType(s, u) == if t == u then s else []
    decreases |s|
  {
    if |s| > 0 {
      UniformOfType(s[1..], t, p, u);
      assert s == [s[0]] + s[1..];
    }
  }

  lemma {:induction false} SchemaBlocksUniform(renamed: Dict<string, string>, drops: seq<string>, adds: seq<string>,
                                               altered: Dict<string, string>, current: Frame)
    ensures Uniform(RenameSteps(renamed), SchemaChangeOp, 1)
    ensures Uniform(DropSteps(drops), SchemaChangeOp, 2)
    ensures Uniform(AddSteps(adds, current), SchemaChangeOp, 3)
    ensures Uniform(AlterSteps(altered), SchemaChangeOp, 4)
    decreases |renamed| + |drops| + |adds| + |altered|
  {
    if |renamed| > 0 {
      SchemaBlocksUniform(renamed[..|renamed| - 1], drops, adds, altered, current);
    }
    if |drops| > 0 {
      SchemaBlocksUniform(renamed, drops[..|drops| - 1], adds, altered, current);
    }
    if |adds| > 0 {
      SchemaBlocksUniform(renamed, drops, adds[..|adds| - 1], altered, current);
    }
    if |altered| > 0 {
      SchemaBlocksUniform(renamed, drops, adds, altered[..|altered| - 1], current);
    }
  }

  /** The schema steps come in priority order: renames (1), drops (2), additions (3), type changes (4). */
  lemma SchemaInPriorityOrder(renamed: Dict<string, string>, drops: seq<string>, adds: seq<string>,
                              altered: Dict<string, string>, current: Frame)
    ensures Sorted(SchemaSteps(renamed, drops, adds, altered, current))
    ensures AtMost(SchemaSteps(renamed, drops, adds, altered, current), 4)
  {
    SchemaBlocksUniform(renamed, drops, adds, altered, current);
    var r, d, a, al := RenameSteps(renamed), DropSteps(drops), AddSteps(adds, current), AlterSteps(altered);
    assert Sorted(r) && AtMost(r, 1);
    SortedAppendUniform(r, d, SchemaChangeOp, 2);
    SortedAppendUniform(r + d, a, SchemaChangeOp, 3);
    SortedAppendUniform(r + d + a, al, SchemaChangeOp, 4);
  }

  /** The steps already come in priority order (1, 2, 3, 4, 10, 20, 30), so the stable sort keeps them as they are. */
  lemma PlanInPriorityOrder(pk: PrimaryKey, renamed: Dict<string, string>, drops: seq<string>, adds: seq<string>,
                            altered: Dict<string, string>, changes: seq<RowChange>, current: Frame, recs: seq<Record>)
    ensures var u := UnsortedSteps(pk, renamed, drops, adds, altered, changes, current, recs);
      Sorted(u) && SortByPriority(u) == u
  {
    var s1 := SchemaSteps(renamed, drops, adds, altered, current);
    var del, upd, ins := DeleteSteps(OfType(changes, Delete)), UpdateSteps(recs), InsertSteps(pk, OfType(changes, Insert));
    SchemaInPriorityOrder(renamed, drops, adds, altered, current);
    assert Uniform(del, DeleteOp, 10) && Uniform(upd, UpdateOp, 20) && Uniform(ins, InsertOp, 30);
    SortedAppendUniform(s1, del, DeleteOp, 10);
    SortedAppendUniform(s1 + del, upd, UpdateOp, 20);
    SortedAppendUniform(s1 + del + upd, ins, InsertOp, 30);
    SortedUnchanged(s1 + del + upd + ins);
  }

  lemma PlanOfType(pk: PrimaryKey, renamed: Dict<string, string>, drops: seq<string>, adds: seq<string>,
                   altered: Dict<string, string>, changes: seq<RowChange>, current: Frame, recs: seq<Record>,
                   t: OperationType)
    ensures StepsOfType(UnsortedSteps(pk, renamed, drops, adds, altered, changes, current, recs), t)
      == (if t == SchemaChangeOp then SchemaSteps(renamed, drops, adds, altered, current) else [])
       + (if t == DeleteOp then DeleteSteps(OfType(changes, Delete)) else [])
       + (if t == UpdateOp then UpdateSteps(recs) else [])
       + (if t == InsertOp then InsertSteps(pk, OfType(changes, Insert)) else [])
  {
    var s := SchemaSteps(renamed, drops, adds, altered, current);
    var del, upd, ins := DeleteSteps(OfType(changes, Delete)), UpdateSteps(recs), InsertSteps(pk, OfType(changes, Insert));
    assert Uniform(del, DeleteOp, 10) && Uniform(upd, UpdateOp, 20) && Uniform(ins, InsertOp, 30);
    SchemaStepsOfType(renamed, drops, adds, altered, current, t);
    UniformOfType(del, DeleteOp, 10, t);
    UniformOfType(upd, UpdateOp, 20, t);
    UniformOfType(ins, InsertOp, 30, t);
    StepsOfTypeConcat(s, del, t);
    StepsOfTypeConcat(s + del, upd, t);
    StepsOfTypeConcat(s + del + upd, ins, t);
  }

  lemma SchemaStepsOfType(renamed: Dict<string, string>, drops: seq<string>, adds: seq<string>,
                          altered: Dict<string, string>, current: Frame, t: OperationType)
    ensures var s := SchemaSteps(renamed, drops, adds, altered, current);
      StepsOfType(s, t) == if t == SchemaChangeOp then s else []
  {
    SchemaBlocksUniform(renamed, drops, adds, altered, current);
    var r, d, a, al := RenameSteps(renamed), DropSteps(drops), AddSteps(adds, current), AlterSteps(altered);
    UniformOfType(r, SchemaChangeOp, 1, t);
    UniformOfType(d, SchemaChangeOp, 2, t);
    UniformOfType(a, SchemaChangeOp, 3, t);
    UniformOfType(al, SchemaChangeOp, 4, t);
    StepsOfTypeConcat(r, d, t);
    StepsOfTypeConcat(r + d, a, t);
    StepsOfTypeConcat(r + d + a, al, t);
  }

  /** The steps of each kind: the schema steps, and at most one delete, one update and one insert step. */
  lemma PlanByKind(pk: PrimaryKey, renamed: Dict<string, string>, drops: seq<string>, adds: seq<string>,
                   altered: Dict<string, string>, changes: seq<RowChange>, current: Frame, recs: seq<Record>)
    ensures var u := UnsortedSteps(pk, renamed, drops, adds, altered, changes, current, recs);
      && StepsOfType(u, SchemaChangeOp) == SchemaSteps(renamed, drops, adds, altered, current)
      && StepsOfType(u, DeleteOp) == DeleteSteps(OfType(changes, Delete))
      && StepsOfType(u, UpdateOp) == UpdateSteps(recs)
      && StepsOfType(u, InsertOp) == InsertSteps(pk, OfType(changes, Insert))
  {
    PlanOfType(pk, renamed, drops, adds, altered, changes, current, recs, SchemaChangeOp);
    PlanOfType(pk, renamed, drops, adds, altered, changes, current, recs, DeleteOp);
    PlanOfType(pk, renamed, drops, adds, altered, changes, current, recs, UpdateOp);
    PlanOfType(pk, renamed, drops, adds, altered, changes, current, recs, InsertOp);
  }

  /** Steps are in non-decreasing priority, and each row kind has at most one step. */
  lemma PlanOrderedAndBatched(pk: PrimaryKey, renamed: Dict<string, string>, drops: seq<string>, adds: seq<string>,
                              altered: Dict<string, string>, changes: seq<RowChange>, current: Frame, recs: seq<Record>)
    ensures var steps := PlanSteps(pk, renamed, drops, adds, altered, changes, current, recs);
      && Sorted(steps)
      && |StepsOfType(steps, DeleteOp)| <= 1
      && |StepsOfType(steps, UpdateOp)| <= 1
      && |StepsOfType(steps, InsertOp)| <= 1
      && (forall i :: 0 <= i < |steps| ==> steps[i].priority in {1, 2, 3, 4, 10, 20, 30})
  {
    PlanInPriorityOrder(pk, renamed, drops, adds, altered, changes, current, recs);
    PlanByKind(pk, renamed, drops, adds, altered, changes, current, recs);
    var u := UnsortedSteps(pk, renamed, drops, adds, altered, changes, current, recs);
    SchemaBlocksUniform(renamed, drops, adds, altered, current);
    var r, d, a, al := RenameSteps(renamed), DropSteps(drops), AddSteps(adds, current), AlterSteps(altered);
    var del, upd, ins := DeleteSteps(OfType(changes, Delete)), UpdateSteps(recs), InsertSteps(pk, OfType(changes, Insert));
    assert u == r + d + a + al + del + upd + ins;
    forall i | 0 <= i < |u| ensures u[i].priority in {1, 2, 3, 4, 10, 20, 30} {
      var x := u[i];
      assert x in u;
      assert x in r || x in d || x in a || x in al || x in del || x in upd || x in ins;
    }
  }

  /** The delete step exists iff some row was deleted, and it lists exactly the deleted keys. */
  lemma DeleteStepOfPlan(pk: PrimaryKey, renamed: Dict<string, string>, drops: seq<string>, adds: seq<string>,
                         altered: Dict<string, string>, changes: seq<RowChange>, current: Frame, recs: seq<Record>)
    ensures var D := StepsOfType(PlanSteps(pk, renamed, drops, adds, altered, changes, current, recs), DeleteOp);
      var dels := OfType(changes, Delete);
      && (|D| == 1 <==> |dels| > 0) && (|D| == 0 <==> |dels| == 0)
      && (|D| == 1 ==>
            && D[0].priority == 10
            && D[0].description == "Delete " + IntToString(|dels|) + " row(s)"
            && D[0].data.KeyList?
            && |D[0].data.keys| == |dels|
            && (forall i :: 0 <= i < |dels| ==> D[0].data.keys[i] == dels[i].primaryKeyValue))
  {
    PlanInPriorityOrder(pk, renamed, drops, adds, altered, changes, current, recs);
    PlanByKind(pk, renamed, drops, adds, altered, changes, current, recs);
  }

  /** The insert step exists iff some row was inserted; it holds one record per insert: key fields merged with the new row. */
  lemma InsertStepOfPlan(pk: PrimaryKey, renamed: Dict<string, string>, drops: seq<string>, adds: seq<string>,
                         altered: Dict<string, string>, changes: seq<RowChange>, current: Frame, recs: seq<Record>)
    ensures var I := StepsOfType(PlanSteps(pk, renamed, drops, adds, altered, changes, current, recs), InsertOp);
      var ins := OfType(changes, Insert);
      && (|I| == 1 <==> |ins| > 0) && (|I| == 0 <==> |ins| == 0)
      && (|I| == 1 ==>
            && I[0].priority == 30
            && I[0].data.RecordList?
            && |I[0].data.records| == |ins|
            && (forall i :: 0 <= i < |ins| ==>
                  I[0].data.records[i] == KeyFields(pk, ins[i].primaryKeyValue)
                    + (if ins[i].newData.Some? then ins[i].newData.value else map[])))
  {
    PlanInPriorityOrder(pk, renamed, drops, adds, altered, changes, current, recs);
    PlanOfType(pk, renamed, drops, adds, altered, changes, current, recs, InsertOp);
    var I := StepsOfType(PlanSteps(pk, renamed, drops, adds, altered, changes, current, recs), InsertOp);
    assert I == [] + [] + [] + InsertSteps(pk, OfType(changes, Insert));
    InsertStepsShape(pk, OfType(changes, Insert));
  }

  lemma InsertStepsShape(pk: PrimaryKey, ins: seq<RowChange>)
    ensures var I := InsertSteps(pk, ins);
      && (|I| == 1 <==> |ins| > 0) && (|I| == 0 <==> |ins| == 0)
      && (|I| == 1 ==>
            && I[0].priority == 30
            && I[0].data.RecordList?
            && |I[0].data.records| == |ins|
            && (forall i :: 0 <= i < |ins| ==>
                  I[0].data.records[i] == KeyFields(pk, ins[i].primaryKeyValue)
                    + (if ins[i].newData.Some? then ins[i].newData.value else map[])))
  {
    if |ins| > 0 {
      assert InsertSteps(pk, ins)[0].data.records == ChangeRecords(pk, ins);
    }
  }

  /** The update step exists iff there are update records, and it carries them all. */
  lemma UpdateStepOfPlan(pk: PrimaryKey, renamed: Dict<string, string>, drops: seq<string>, adds: seq<string>,
                         altered: Dict<string, string>, changes: seq<RowChange>, current: Frame, recs: seq<Record>)
    ensures var U := StepsOfType(PlanSteps(pk, renamed, drops, adds, altered, changes, current, recs), UpdateOp);
      && (|U| == 1 <==> |recs| > 0) && (|U| == 0 <==> |recs| == 0)
      && (|U| == 1 ==> U[0].priority == 20 && U[0].data == RecordList(recs))
  {
    PlanInPriorityOrder(pk, renamed, drops, adds, altered, changes, current, recs);
    PlanByKind(pk, renamed, drops, adds, altered, changes, current, recs);
  }

  /** Every step of `s` is a schema change of kind `kind`. */
  predicate SchemaOfKind(s: seq<PlanStep>, kind: SchemaChangeKind) {
    forall x :: x in s ==> x.data.SchemaData? && x.data.change.changeType == kind
  }

  lemma {:induction false} RenameStepsAt(renamed: Dict<string, string>)
    ensures |RenameSteps(renamed)| == |renamed| && SchemaOfKind(RenameSteps(renamed), RenameColumn)
    ensures forall i :: 0 <= i < |renamed| ==> RenameSteps(renamed)[i] == RenameStep(renamed[i].0, renamed[i].1)
  {
    if |renamed| > 0 {
      RenameStepsAt(renamed[..|renamed| - 1]);
    }
  }

  lemma {:induction false} DropStepsAt(drops: seq<string>)
    ensures |DropSteps(drops)| == |drops| && SchemaOfKind(DropSteps(drops), DropColumn)
    ensures forall i :: 0 <= i < |drops| ==> DropSteps(drops)[i] == DropStep(drops[i])
  {
    if |drops| > 0 {
      DropStepsAt(drops[..|drops| - 1]);
    }
  }

  lemma {:induction false} AddStepsAt(adds: seq<string>, current: Frame)
    ensures |AddSteps(adds, current)| == |adds| && SchemaOfKind(AddSteps(adds, current), AddColumn)
    ensures forall i :: 0 <= i < |adds| ==> AddSteps(adds, current)[i] == AddStep(adds[i], current)
  {
    if |adds| > 0 {
      AddStepsAt(adds[..|adds| - 1], current);
    }
  }

  lemma {:induction false} AlterStepsAt(altered: Dict<string, string>)
    ensures |AlterSteps(altered)| == |altered| && SchemaOfKind(AlterSteps(altered), AlterColumnType)
    ensures forall i :: 0 <= i < |altered| ==> AlterSteps(altered)[i] == AlterStep(altered[i].0, altered[i].1)
  {
    if |altered| > 0 {
      AlterStepsAt(altered[..|altered| - 1]);
    }
  }

  /** The schema steps of the plan are the four blocks, in the order renames, drops, additions, type changes. */
  lemma SchemaOfPlan(pk: PrimaryKey, renamed: Dict<string, string>, drops: seq<string>, adds: seq<string>,
                     altered: Dict<string, string>, changes: seq<RowChange>, current: Frame, recs: seq<Record>)
    ensures StepsOfType(PlanSteps(pk, renamed, drops, adds, altered, changes, current, recs), SchemaChangeOp)
         == SchemaSteps(renamed, drops, adds, altered, current)
  {
    PlanInPriorityOrder(pk, renamed, drops, adds, altered, changes, current, recs);
    PlanOfType(pk, renamed, drops, adds, altered, changes, current, recs, SchemaChangeOp);
  }

  /**
   * The schema steps start with one rename step per renamed column and end
   * with one type-change step per altered column, each in dictionary order;
   * there is one step per rename, planned drop, added column and type change.
   */
  lemma RenamesAndAlters(renamed: Dict<string, string>, drops: seq<string>, adds: seq<string>,
                         altered: Dict<string, string>, current: Frame, dropped: set<string>, added: set<string>)
    requires Enumerates(drops, DropsToPlan(dropped, renamed)) && Enumerates(adds, added)
    ensures var S := SchemaSteps(renamed, drops, adds, altered, current);
      && |S| == |renamed| + |DropsToPlan(dropped, renamed)| + |added| + |altered|
      && (forall i :: 0 <= i < |renamed| ==> S[i] == RenameStep(renamed[i].0, renamed[i].1))
      && (forall i :: |S| - |altered| <= i < |S| ==>
            S[i] == AlterStep(altered[i - (|S| - |altered|)].0, altered[i - (|S| - |altered|)].1))
  {
    var r, d, a, al := RenameSteps(renamed), DropSteps(drops), AddSteps(adds, current), AlterSteps(altered);
    RenameStepsAt(renamed);
    DropStepsAt(drops);
    AddStepsAt(adds, current);
    AlterStepsAt(altered);
    DistinctCard(drops);
    DistinctCard(adds);
    assert |d| == |DropsToPlan(dropped, renamed)| && |a| == |added|;
    var S: seq<PlanStep> := r + d + a + al;
    assert |S| == |r| + |d| + |a| + |al|;
    assert S == SchemaSteps(renamed, drops, adds, altered, current);
    var n := |r| + |d| + |a|;
    assert S[n..] == al;
    forall i | 0 <= i < |renamed| ensures S[i] == RenameStep(renamed[i].0, renamed[i].1) {
      assert S[i] == r[i];
    }
    forall i | |S| - |altered| <= i < |S|
      ensures S[i] == AlterStep(altered[i - (|S| - |altered|)].0, altered[i - (|S| - |altered|)].1)
    {
      assert S[i] == S[n..][i - n];
    }
  }

  /**
   * `_add_schema_changes` drops exactly the dropped columns that are not the
   * old name of a rename: a rename takes the place of the drop.
   */
  lemma DropsOfSchema(renamed: Dict<string, string>, drops: seq<string>, adds: seq<string>,
                      altered: Dict<string, string>, current: Frame, dropped: set<string>)
    requires Enumerates(drops, DropsToPlan(dropped, renamed))
    ensures var S := SchemaSteps(renamed, drops, adds, altered, current);
      && (forall x :: x in S && x.data.SchemaData? && x.data.change.changeType == DropColumn ==>
            x == DropStep(x.data.change.columnName) && x.data.change.columnName in dropped
            && !HasKey(renamed, x.data.change.columnName))
      && (forall c :: c in dropped && !HasKey(renamed, c) ==> DropStep(c) in S)
  {
    var r, d, a, al := RenameSteps(renamed), DropSteps(drops), AddSteps(adds, current), AlterSteps(altered);
    RenameStepsAt(renamed);
    DropStepsAt(drops);
    AddStepsAt(adds, current);
    AlterStepsAt(altered);
    var S: seq<PlanStep> := r + d + a + al;
    forall x: PlanStep | x in S && x.data.SchemaData? && x.data.change.changeType == DropColumn
      ensures x == DropStep(x.data.change.columnName) && x.data.change.columnName in DropsToPlan(dropped, renamed)
    {
      assert x !in r && x !in a && x !in al;
      var i :| 0 <= i < |d| && d[i] == x;
      assert drops[i] in drops;
    }
    forall c | c in dropped && !HasKey(renamed, c) ensures DropStep(c) in S {
      assert c in DropsToPlan(dropped, renamed);
      var i :| 0 <= i < |drops| && drops[i] == c;
      assert S[|r| + i] == d[i];
    }
  }

  /**
   * `_add_schema_changes` adds exactly the added columns, each with the
   * column's dtype when the current data has it and with none otherwise.
   */
  lemma AddsOfSchema(renamed: Dict<string, string>, drops: seq<string>, adds: seq<string>,
                     altered: Dict<string, string>, current: Frame, added: set<string>)
    requires Enumerates(adds, added)
    ensures var S := SchemaSteps(renamed, drops, adds, altered, current);
      && (forall x :: x in S && x.data.SchemaData? && x.data.change.changeType == AddColumn ==>
            x == AddStep(x.data.change.columnName, current) && x.data.change.columnName in added
            && (x.data.change.columnType.Some? <==> x.data.change.columnName in current.columns))
      && (forall c :: c in added ==> AddStep(c, current) in S)
  {
    AddsOfSchemaOnlyAdded(renamed, drops, adds, altered, current, added);
    AddsOfSchemaAllAdded(renamed, drops, adds, altered, current, added);
  }

  lemma AddsOfSchemaOnlyAdded(renamed: Dict<string, string>, drops: seq<string>, adds: seq<string>,
                              altered: Dict<string, string>, current: Frame, added: set<string>)
    requires Enumerates(adds, added)
    ensures var S := SchemaSteps(renamed, drops, adds, altered, current);
      forall x :: (x in S && x.data.SchemaData? && x.data.change.changeType == AddColumn) ==>
        x == AddStep(x.data.change.columnName, current) && x.data.change.columnName in added
  {
    var r, d, a, al := RenameSteps(renamed), DropSteps(drops), AddSteps(adds, current), AlterSteps(altered);
    RenameStepsAt(renamed);
    DropStepsAt(drops);
    AddStepsAt(adds, current);
    AlterStepsAt(altered);
    var S: seq<PlanStep> := r + d + a + al;
    forall x: PlanStep | x in S && x.data.SchemaData? && x.data.change.changeType == AddColumn
      ensures x == AddStep(x.data.change.columnName, current) && x.data.change.columnName in added
    {
      assert x !in r && x !in d && x !in al;
      var i :| 0 <= i < |a| && a[i] == x;
      assert adds[i] in adds;
    }
  }

  lemma AddsOfSchemaAllAdded(renamed: Dict<string, string>, drops: seq<string>, adds: seq<string>,
                             altered: Dict<string, string>, current: Frame, added: set<string>)
    requires Enumerates(adds, added)
    ensures forall c :: c in added ==> AddStep(c, current) in SchemaSteps(renamed, drops, adds, altered, current)
  {
    var a := AddSteps(adds, current);
    AddStepsAt(adds, current);
    assert SchemaSteps(renamed, drops, adds, altered, current)
        == (RenameSteps(renamed) + DropSteps(drops)) + a + AlterSteps(altered);
    forall c | c in added ensures AddStep(c, current) in a {
      var i :| 0 <= i < |adds| && adds[i] == c;
      assert a[i] in a;
    }
  }

  lemma {:induction false} DistinctCard(xs: seq<string>)
    requires Distinct(xs)
    ensures |ColumnSet(xs)| == |xs|
    decreases |xs|
  {
    if |xs| > 0 {
      var t := xs[..|xs| - 1];
      assert Distinct(t);
      DistinctCard(t);
      assert ColumnSet(xs) == ColumnSet(t) + {xs[|xs| - 1]};
      assert xs[|xs| - 1] !in ColumnSet(t);
    }
  }

  // ---------------------------------------------------------------------------
  // The records

  /** With a value for every name, the record's fields are exactly the names. */
  lemma {:induction false} ZipMapKeys(names: seq<string>, vals: seq<Value>)
    requires |vals| >= |names|
    ensures ZipMap(names, vals).Keys == ColumnSet(names)
    decreases |names|
  {
    if |names| > 0 {
      ZipMapKeys(names[1..], vals[1..]);
      assert names == [names[0]] + names[1..];
    }
  }

  /** With distinct names and one value each, every name holds its own value. */
  lemma {:induction false} ZipMapAt(names: seq<string>, vals: seq<Value>)
    requires Distinct(names) && |vals| == |names|
    ensures forall i :: 0 <= i < |names| ==> names[i] in ZipMap(names, vals) && ZipMap(names, vals)[names[i]] == vals[i]
    decreases |names|
  {
    if |names| > 0 {
      assert Distinct(names[1..]);
      ZipMapAt(names[1..], vals[1..]);
      ZipMapKeys(names[1..], vals[1..]);
      forall i | 0 <= i < |names| ensures names[i] in ZipMap(names, vals) && ZipMap(names, vals)[names[i]] == vals[i] {
        if i > 0 {
          assert names[1..][i - 1] == names[i];
        } else {
          assert names[0] !in ColumnSet(names[1..]);
        }
      }
    }
  }

  /**
   * On the path where columns were added, no row was updated and a single
   * key reads the current data, `ks` names every existing key.
   */
  predicate CoversExistingKeys(pk: PrimaryKey, updates: seq<RowChange>, added: set<string>, current: Frame,
                               originalIndex: set<Key>, ks: seq<Key>)
  {
    |added| > 0 && |updates| == 0 && pk.Single? && KeyedView(current, pk).Some? ==>
      forall k :: k in ExistingKeys(current, pk, originalIndex) ==> k in ks
  }

  /** A duplicate-free listing of a set is as long as the set is large. */
  lemma {:induction false} ListingCard<T>(xs: seq<T>, s: set<T>)
    requires Distinct(xs) && (forall i :: 0 <= i < |xs| ==> xs[i] in s) && forall x :: x in s ==> x in xs
    ensures |xs| == |s|
    decreases |xs|
  {
    assert s == set x | x in xs;
    if |xs| > 0 {
      var t, last := xs[..|xs| - 1], xs[|xs| - 1];
      assert xs == t + [last];
      forall x | x in s - {last} ensures x in t {
        assert x in xs;
      }
      ListingCard(t, s - {last});
    }
  }

  /** A key value found in the keyed data has one component per key column. */
  lemma SingleKeyLength(current: Frame, pk: PrimaryKey, k: Key)
    requires Wf(current) && pk.Single? && k in ExtractPkValues(current, pk)
    ensures |k| == 1
  {
    var loc := LocatePrimaryKey(current, pk);
    if loc.inColumns {
      var i :| 0 <= i < |current.rows| && k == KeyOf(current.rows[i], [pk.name]);
    } else {
      var i :| 0 <= i < |current.rows| && k == current.rows[i].indexLabel;
    }
  }

  /**
   * `_add_updates`'s records: one per update, the key fields and the new
   * data; when columns were added but no row was updated, a composite key
   * fails, and a single key gives one record per existing key, holding the
   * key and those added columns the current data has, when `ks` lists the
   * existing keys each once as the loop over them does.
   */
  lemma UpdateRecordsShape(pk: PrimaryKey, updates: seq<RowChange>, added: set<string>, current: Frame,
                           originalIndex: set<Key>, ks: seq<Key>)
    requires ValidKey(pk) && Wf(current)
    requires Distinct(ks) && forall i :: 0 <= i < |ks| ==> ks[i] in ExistingKeys(current, pk, originalIndex)
    requires CoversExistingKeys(pk, updates, added, current, originalIndex, ks)
    ensures var r := UpdateRecords(pk, updates, added, current, originalIndex, ks);
      && (r.Err? <==> pk.Composite? && |added| > 0 && |updates| == 0)
      && (r.Err? ==> r.error.TypeError?)
      && (|added| == 0 || |updates| > 0 ==>
            r.Ok? && |r.value| == |updates|
            && forall i :: 0 <= i < |updates| ==> r.value[i] == ChangeRecord(pk, updates[i]))
      && (pk.Single? && |added| > 0 && |updates| == 0 ==>
            r.Ok? && |r.value| == (if KeyedView(current, pk).Some? then |ExistingKeys(current, pk, originalIndex)| else 0)
            && (KeyedView(current, pk).Some? ==>
                  forall k :: k in ExistingKeys(current, pk, originalIndex) ==> exists i :: 0 <= i < |r.value| && ks[i] == k)
            && forall i :: 0 <= i < |r.value| ==>
                 var v := KeyedView(current, pk).value;
                 && r.value[i].Keys == {pk.name} + (added * ColumnSet(v.columns))
                 && (pk.name !in added * ColumnSet(v.columns) ==> r.value[i][pk.name] == ks[i][0])
                 && forall c :: c in added * ColumnSet(v.columns) ==> r.value[i][c] == RowData(v, ks[i])[c])
  {
    var r := UpdateRecords(pk, updates, added, current, originalIndex, ks);
    if pk.Single? && |added| > 0 && |updates| == 0 && KeyedView(current, pk).Some? {
      var v := KeyedView(current, pk).value;
      ExistingInView(current, pk, originalIndex);
      ListingCard(ks, ExistingKeys(current, pk, originalIndex));
      assert r.value == AddedColumnRecords(v, pk, ks, added);
      forall i | 0 <= i < |ks|
        ensures r.value[i].Keys == {pk.name} + (added * ColumnSet(v.columns))
        ensures pk.name !in added * ColumnSet(v.columns) ==> r.value[i][pk.name] == ks[i][0]
        ensures forall c :: c in added * ColumnSet(v.columns) ==> r.value[i][c] == RowData(v, ks[i])[c]
      {
        SingleKeyLength(current, pk, ks[i]);
        AddedRecordShape(v, pk, ks[i], added);
      }
    }
  }

  /** One added-column record of a single key: the key field and the added columns the keyed data has. */
  lemma AddedRecordShape(v: Frame, pk: PrimaryKey, k: Key, added: set<string>)
    requires pk.Single? && |k| == 1 && k in LabelSet(v)
    ensures var rec := AddedColumnRecord(v, pk, k, added);
      && rec.Keys == {pk.name} + (added * ColumnSet(v.columns))
      && (pk.name !in added * ColumnSet(v.columns) ==> rec[pk.name] == k[0])
      && forall c :: c in added * ColumnSet(v.columns) ==> rec[c] == RowData(v, k)[c]
  {
    assert KeyFields(pk, k) == map[pk.name := k[0]];
    assert RowData(v, k).Keys == ColumnSet(v.columns);
  }

  // ---------------------------------------------------------------------------
  // Counts

  /** The type of each step, in order. */
  function Types(s: seq<PlanStep>): (ts: seq<OperationType>)
    ensures |ts| == |s| && forall i :: 0 <= i < |s| ==> ts[i] == s[i].operationType
  {
    seq(|s|, i requires 0 <= i < |s| => s[i].operationType)
  }

  /** The steps of one type are as many as the occurrences of that type. */
  lemma {:induction false} StepsOfTypeCount(s: seq<PlanStep>, t: OperationType)
    ensures |StepsOfType(s, t)| == multiset(Types(s))[t]
  {
    if |s| > 0 {
      StepsOfTypeCount(s[1..], t);
      assert Types(s) == [s[0].operationType] + Types(s[1..]);
    }
  }

  /** `get_summary`'s per-type counts add up to `total_steps`. */
  lemma {:induction false} TypeCounts(s: seq<PlanStep>)
    ensures |StepsOfType(s, SchemaChangeOp)| + |StepsOfType(s, InsertOp)| + |StepsOfType(s, UpdateOp)|
          + |StepsOfType(s, DeleteOp)| == |s|
  {
    if |s| > 0 {
      TypeCounts(s[1..]);
    }
  }

  /**
   * A plan is empty exactly when nothing was renamed, dropped (other than by
   * a rename), added or retyped and no row changed.
   */
  lemma EmptyPlanIff(pk: PrimaryKey, renamed: Dict<string, string>, drops: seq<string>, adds: seq<string>,
                     altered: Dict<string, string>, changes: seq<RowChange>, current: Frame,
                     dropped: set<string>, added: set<string>, originalIndex: set<Key>, ks: seq<Key>)
    requires ValidKey(pk)
    requires forall i :: 0 <= i < |ks| ==> ks[i] in ExistingKeys(current, pk, originalIndex)
    requires Enumerates(drops, DropsToPlan(dropped, renamed)) && Enumerates(adds, added)
    requires forall i :: 0 <= i < |changes| ==> changes[i].changeType in {Insert, Delete, Update}
    ensures var r := Plan(pk, renamed, drops, adds, altered, changes, current, added, originalIndex, ks);
      r.Ok? ==>
        (|r.value| == 0 <==>
           |renamed| == 0 && DropsToPlan(dropped, renamed) == {} && added == {} && |altered| == 0 && |changes| == 0)
  {
    var r := UpdateRecords(pk, OfType(changes, Update), added, current, originalIndex, ks);
    if r.Ok? {
      assert added == {} ==> r.value == ChangeRecords(pk, OfType(changes, Update));
      EmptyStepsIff(pk, renamed, drops, adds, altered, changes, current, r.value, dropped, added);
    }
  }

  lemma EmptyStepsIff(pk: PrimaryKey, renamed: Dict<string, string>, drops: seq<string>, adds: seq<string>,
                      altered: Dict<string, string>, changes: seq<RowChange>, current: Frame, recs: seq<Record>,
                      dropped: set<string>, added: set<string>)
    requires Enumerates(drops, DropsToPlan(dropped, renamed)) && Enumerates(adds, added)
    requires forall i :: 0 <= i < |changes| ==> changes[i].changeType in {Insert, Delete, Update}
    requires added == {} ==> |recs| == |OfType(changes, Update)|
    ensures |PlanSteps(pk, renamed, drops, adds, altered, changes, current, recs)| == 0 <==>
              |renamed| == 0 && DropsToPlan(dropped, renamed) == {} && added == {} && |altered| == 0 && |changes| == 0
  {
    PlanLength(pk, renamed, drops, adds, altered, changes, current, recs);
    SchemaCount(renamed, drops, adds, altered, current, dropped, added);
    KindCounts(changes);
  }

  lemma SchemaCount(renamed: Dict<string, string>, drops: seq<string>, adds: seq<string>,
                    altered: Dict<string, string>, current: Frame, dropped: set<string>, added: set<string>)
    requires Enumerates(drops, DropsToPlan(dropped, renamed)) && Enumerates(adds, added)
    ensures |SchemaSteps(renamed, drops, adds, altered, current)|
         == |renamed| + |DropsToPlan(dropped, renamed)| + |added| + |altered|
  {
    RenameStepsAt(renamed);
    DropStepsAt(drops);
    AddStepsAt(adds, current);
    AlterStepsAt(altered);
    DistinctCard(drops);
    DistinctCard(adds);
  }

  lemma PlanLength(pk: PrimaryKey, renamed: Dict<string, string>, drops: seq<string>, adds: seq<string>,
                   altered: Dict<string, string>, changes: seq<RowChange>, current: Frame, recs: seq<Record>)
    ensures |PlanSteps(pk, renamed, drops, adds, altered, changes, current, recs)|
         == |SchemaSteps(renamed, drops, adds, altered, current)|
          + (if |OfType(changes, Delete)| > 0 then 1 else 0)
          + (if |recs| > 0 then 1 else 0)
          + (if |OfType(changes, Insert)| > 0 then 1 else 0)
  {
    var u := UnsortedSteps(pk, renamed, drops, adds, altered, changes, current, recs);
    SortByPrioritySorts(u);
    assert |PlanSteps(pk, renamed, drops, adds, altered, changes, current, recs)| == |multiset(u)| == |u|;
  }

  // ---------------------------------------------------------------------------
  // The plan object

  /** Moving `c` from the pending drops to the processed ones adds it to the plan's drops
      exactly when it is not a rename's old name. */
  lemma DropsAdvance(dropped: set<string>, todo: set<string>, renamed: Dict<string, string>, c: string)
    requires c in todo && todo <= dropped
    ensures c !in DropsToPlan(dropped - todo, renamed)
    ensures HasKey(renamed, c) ==> DropsToPlan(dropped - (todo - {c}), renamed) == DropsToPlan(dropped - todo, renamed)
    ensures !HasKey(renamed, c) ==> DropsToPlan(dropped - (todo - {c}), renamed) == DropsToPlan(dropped - todo, renamed) + {c}
  {
    assert dropped - (todo - {c}) == (dropped - todo) + {c};
  }

  /** One turn of the drop loop: `c` is done, and is appended to the drops when it is not a rename's old name. */
  lemma DropAdvance(dropped: set<string>, todo: set<string>, renamed: Dict<string, string>, c: string, drops: seq<string>)
    requires c in todo && todo <= dropped
    requires Enumerates(drops, DropsToPlan(dropped - todo, renamed))
    ensures HasKey(renamed, c) ==> Enumerates(drops, DropsToPlan(dropped - (todo - {c}), renamed))
    ensures !HasKey(renamed, c) ==> Enumerates(drops + [c], DropsToPlan(dropped - (todo - {c}), renamed))
    ensures DropSteps(drops + [c]) == DropSteps(drops) + [DropStep(c)]
  {
    DropsAdvance(dropped, todo, renamed, c);
    if !HasKey(renamed, c) {
      EnumeratesAppend(drops, DropsToPlan(dropped - todo, renamed), c);
    }
    DropStepsSnoc(drops, c);
  }

  lemma DropStepsSnoc(xs: seq<string>, c: string)
    ensures DropSteps(xs + [c]) == DropSteps(xs) + [DropStep(c)]
  {
    assert (xs + [c])[..|xs|] == xs;
  }

  /** `Plan` in terms of the update records it is built on. */
  lemma PlanOfRecords(pk: PrimaryKey, renamed: Dict<string, string>, drops: seq<string>, adds: seq<string>,
                      altered: Dict<string, string>, changes: seq<RowChange>, current: Frame,
                      added: set<string>, originalIndex: set<Key>, ks: seq<Key>)
    requires ValidKey(pk)
    requires forall i :: 0 <= i < |ks| ==> ks[i] in ExistingKeys(current, pk, originalIndex)
    ensures var u := UpdateRecords(pk, OfType(changes, Update), added, current, originalIndex, ks);
      var p := Plan(pk, renamed, drops, adds, altered, changes, current, added, originalIndex, ks);
      && (u.Err? ==> p == Err(u.error))
      && (u.Ok? ==> p == Ok(SortByPriority(UnsortedSteps(pk, renamed, drops, adds, altered, changes, current, u.value))))
  {
  }

  lemma AddedColumnRecordsSnoc(v: Frame, pk: PrimaryKey, ks: seq<Key>, k: Key, added: set<string>)
    requires forall i :: 0 <= i < |ks| ==> ks[i] in LabelSet(v)
    requires k in LabelSet(v) && k !in ks && Distinct(ks)
    ensures AddedColumnRecords(v, pk, ks + [k], added) == AddedColumnRecords(v, pk, ks, added) + [AddedColumnRecord(v, pk, k, added)]
    ensures Distinct(ks + [k])
  {
  }

  /** Taking one more column `col` of `row` into a record built over `base`. */
  lemma RestrictInsert(base: Record, row: Record, done: set<string>, col: string)
    ensures col in row ==> base + Restrict(row, done + {col}) == (base + Restrict(row, done))[col := row[col]]
    ensures col !in row ==> base + Restrict(row, done + {col}) == base + Restrict(row, done)
  {
  }

  lemma EnumeratesAppend(xs: seq<string>, s: set<string>, c: string)
    requires Enumerates(xs, s) && c !in s
    ensures Enumerates(xs + [c], s + {c})
  {
    assert ColumnSet(xs + [c]) == ColumnSet(xs) + {c};
  }

  /** `get_summary()` */
  datatype PlanSummary = PlanSummary(totalSteps: nat, schemaChanges: nat, insertOperations: nat,
                                     updateOperations: nat, deleteOperations: nat)

  /**
   * `ExecutionPlan`: the tracker it reads, the current data, and the steps
   * the `_add_*` methods append to and `_build_plan` sorts.
   */
  class ExecutionPlan {
    var tracker: ChangeTracker
    var currentData: Frame
    var steps: seq<PlanStep>

    /** The fields the constructor sets before `_build_plan` runs. */
    constructor Init(t: ChangeTracker, current: Frame)
      ensures tracker == t && currentData == current && steps == []
    {
      tracker := t;
      currentData := current;
      steps := [];
    }

    /** `_add_schema_changes`: renames, the drops a rename does not replace, additions, type changes. */
    method AddSchemaChanges() returns (ghost drops: seq<string>, ghost adds: seq<string>)
      modifies this
      ensures tracker == old(tracker) && currentData == old(currentData)
      ensures unchanged(tracker)
      ensures Enumerates(drops, DropsToPlan(tracker.droppedColumns, tracker.renamedColumns))
      ensures Enumerates(adds, tracker.addedColumns)
      ensures steps == old(steps)
        + SchemaSteps(tracker.renamedColumns, drops, adds, tracker.alteredColumnTypes, currentData)
    {
      AddRenames(tracker.renamedColumns);
      drops := AddDrops(tracker.droppedColumns, tracker.renamedColumns);
      adds := AddAdditions(tracker.addedColumns);
      AddAlters(tracker.alteredColumnTypes);
    }

    /** The rename loop of `_add_schema_changes`, in dictionary order. */
    method AddRenames(renamed: Dict<string, string>)
      modifies this
      ensures tracker == old(tracker) && currentData == old(currentData)
      ensures steps == old(steps) + RenameSteps(renamed)
    {
      var i := 0;
      while i < |renamed|
        invariant 0 <= i <= |renamed|
        invariant tracker == old(tracker) && currentData == old(currentData)
        invariant steps == old(steps) + RenameSteps(renamed[..i])
      {
        assert renamed[..i + 1][..i] == renamed[..i];
        steps := steps + [RenameStep(renamed[i].0, renamed[i].1)];
        i := i + 1;
      }
      assert renamed[..i] == renamed;
    }

    /** The drop loop of `_add_schema_changes`: a column that is a rename's old name is skipped. */
    method AddDrops(dropped: set<string>, renamed: Dict<string, string>) returns (ghost drops: seq<string>)
      modifies this
      ensures tracker == old(tracker) && currentData == old(currentData)
      ensures Enumerates(drops, DropsToPlan(dropped, renamed))
      ensures steps == old(steps) + DropSteps(drops)
    {
      var todo := dropped;
      drops := [];
      ghost var before := steps;
      while todo != {}
        invariant todo <= dropped
        invariant tracker == old(tracker) && currentData == old(currentData)
        invariant Enumerates(drops, DropsToPlan(dropped - todo, renamed))
        invariant steps == before + DropSteps(drops)
        decreases |todo|
      {
        var c :| c in todo;
        DropAdvance(dropped, todo, renamed, c, drops);
        if !HasKey(renamed, c) {
          steps := steps + [DropStep(c)];
          drops := drops + [c];
          assert steps == before + DropSteps(drops);
        } else {
          assert steps == before + DropSteps(drops);
        }
        todo := todo - {c};
      }
    }

    /** The addition loop of `_add_schema_changes`. */
    method AddAdditions(added: set<string>) returns (ghost adds: seq<string>)
      modifies this
      ensures tracker == old(tracker) && currentData == old(currentData)
      ensures Enumerates(adds, added)
      ensures steps == old(steps) + AddSteps(adds, currentData)
    {
      var todo := added;
      adds := [];
      while todo != {}
        invariant todo <= added
        invariant tracker == old(tracker) && currentData == old(currentData)
        invariant Enumerates(adds, added - todo)
        invariant steps == old(steps) + AddSteps(adds, currentData)
        decreases |todo|
      {
        var c :| c in todo;
        EnumeratesAppend(adds, added - todo, c);
        assert (adds + [c])[..|adds|] == adds;
        var colType := if c in currentData.columns then Some(DtypeOf(c)) else None;
        steps := steps + [PlanStep(SchemaChangeOp, "Add column " + Quoted(c),
                                   SchemaData(SchemaChange(AddColumn, c, None, colType, None)), 3)];
        adds := adds + [c];
        assert added - (todo - {c}) == (added - todo) + {c};
        todo := todo - {c};
      }
    }

    /** The type-change loop of `_add_schema_changes`, in dictionary order. */
    method AddAlters(altered: Dict<string, string>)
      modifies this
      ensures tracker == old(tracker) && currentData == old(currentData)
      ensures steps == old(steps) + AlterSteps(altered)
    {
      var i := 0;
      while i < |altered|
        invariant 0 <= i <= |altered|
        invariant tracker == old(tracker) && currentData == old(currentData)
        invariant steps == old(steps) + AlterSteps(altered[..i])
      {
        assert altered[..i + 1][..i] == altered[..i];
        steps := steps + [AlterStep(altered[i].0, altered[i].1)];
        i := i + 1;
      }
      assert altered[..i] == altered;
    }

    /** `_add_deletes`: one step with every deleted key, when there are deletes. */
    method AddDeletes()
      modifies this
      ensures tracker == old(tracker) && currentData == old(currentData)
      ensures unchanged(tracker)
      ensures steps == old(steps) + DeleteSteps(tracker.GetDeletes())
    {
      var deletes := tracker.GetDeletes();
      if |deletes| > 0 {
        var deleteKeys := KeysOf(deletes);
        steps := steps + [PlanStep(DeleteOp, "Delete " + IntToString(|deletes|) + " row(s)", KeyList(deleteKeys), 10)];
      }
    }

    /** The records built for `rcs`, one after the other, as `_add_updates` and `_add_inserts` do. */
    static method BuildRecords(pk: PrimaryKey, rcs: seq<RowChange>) returns (records: seq<Record>)
      ensures records == ChangeRecords(pk, rcs)
    {
      records := [];
      var i := 0;
      while i < |rcs|
        invariant 0 <= i <= |rcs|
        invariant records == ChangeRecords(pk, rcs[..i])
      {
        var rec := KeyFields(pk, rcs[i].primaryKeyValue);
        if rcs[i].newData.Some? {
          rec := rec + rcs[i].newData.value;
        } else {
          assert rec + map[] == rec;
        }
        assert ChangeRecords(pk, rcs[..i + 1]) == ChangeRecords(pk, rcs[..i]) + [rec];
        records := records + [rec];
        i := i + 1;
      }
      assert rcs[..i] == rcs;
    }

    /** `_add_updates`: one step with every update record, when there are any; the records may fail instead. */
    method AddUpdates() returns (r: Result<(), Exception>, ghost ks: seq<Key>)
      requires ValidKey(tracker.primaryKey)
      modifies this
      ensures tracker == old(tracker) && currentData == old(currentData)
      ensures unchanged(tracker)
      ensures Distinct(ks)
      ensures forall i :: 0 <= i < |ks| ==> ks[i] in ExistingKeys(currentData, tracker.primaryKey, tracker.originalIndex)
      ensures CoversExistingKeys(tracker.primaryKey, tracker.GetUpdates(), tracker.addedColumns, currentData,
                                 tracker.originalIndex, ks)
      ensures var u := UpdateRecords(tracker.primaryKey, tracker.GetUpdates(), tracker.addedColumns, currentData,
                                     tracker.originalIndex, ks);
        && (u.Err? ==> r == Err(u.error) && steps == old(steps))
        && (u.Ok? ==> r == Ok(()) && steps == old(steps) + UpdateSteps(u.value))
    {
      var records;
      records, ks := BuildUpdateRecords(tracker.primaryKey, tracker.GetUpdates(), tracker.addedColumns,
                                        currentData, tracker.originalIndex);
      if records.Err? {
        return Err(records.error), ks;
      }
      if |records.value| > 0 {
        steps := steps + [PlanStep(UpdateOp, "Update " + IntToString(|records.value|) + " row(s)",
                                   RecordList(records.value), 20)];
      }
      r := Ok(());
    }

    /**
     * The update records of `_add_updates`: those of the changed rows; with
     * columns added and no row updated, a record per existing row that fills
     * the added columns, the rows taken in the order `ks` the key set is
     * iterated in, each once.
     */
    static method BuildUpdateRecords(pk: PrimaryKey, updates: seq<RowChange>, added: set<string>, current: Frame,
                                     originalIndex: set<Key>)
        returns (r: Result<seq<Record>, Exception>, ghost ks: seq<Key>)
      requires ValidKey(pk)
      ensures Distinct(ks)
      ensures forall i :: 0 <= i < |ks| ==> ks[i] in ExistingKeys(current, pk, originalIndex)
      ensures CoversExistingKeys(pk, updates, added, current, originalIndex, ks)
      ensures r == UpdateRecords(pk, updates, added, current, originalIndex, ks)
    {
      var records := BuildRecords(pk, updates);
      ks := [];
      if |added| > 0 && |updates| == 0 {
        if pk.Composite? {
          return Err(TypeError("unhashable type: 'list'")), ks;
        }
        var view := KeyedView(current, pk);
        if view.Some? {
          ExistingInView(current, pk, originalIndex);
          var more;
          more, ks := BuildExistingRecords(view.value, pk, ExistingKeys(current, pk, originalIndex), added);
          records := records + more;
        }
      }
      r := Ok(records);
    }

    /** The added-column records of the existing rows, in the order `ks` the key set is iterated in. */
    static method BuildExistingRecords(v: Frame, pk: PrimaryKey, existing: set<Key>, added: set<string>)
        returns (records: seq<Record>, ghost ks: seq<Key>)
      requires existing <= LabelSet(v)
      ensures Distinct(ks)
      ensures forall i :: 0 <= i < |ks| ==> ks[i] in existing
      ensures forall k :: k in existing ==> k in ks
      ensures records == AddedColumnRecords(v, pk, ks, added)
    {
      records := [];
      ks := [];
      var todo := existing;
      while todo != {}
        invariant todo <= existing
        invariant Distinct(ks)
        invariant forall i :: 0 <= i < |ks| ==> ks[i] in existing && ks[i] !in todo
        invariant forall k :: k in existing && k !in todo ==> k in ks
        invariant records == AddedColumnRecords(v, pk, ks, added)
        decreases |todo|
      {
        var key :| key in todo;
        var record := BuildAddedColumnRecord(v, pk, key, added);
        AddedColumnRecordsSnoc(v, pk, ks, key, added);
        records := records + [record];
        ks := ks + [key];
        todo := todo - {key};
      }
    }

    /** The record of one existing row: its key, then each added column the keyed data has (`df.loc[key, col]`). */
    static method BuildAddedColumnRecord(v: Frame, pk: PrimaryKey, key: Key, added: set<string>) returns (record: Record)
      requires key in LabelSet(v)
      ensures record == AddedColumnRecord(v, pk, key, added)
    {
      var row := RowData(v, key);
      var keyFields := KeyFields(pk, key);
      record := keyFields;
      var todo := added;
      while todo != {}
        invariant todo <= added
        invariant record == keyFields + Restrict(row, added - todo)
        decreases |todo|
      {
        var col :| col in todo;
        assert col in row <==> col in v.columns;
        RestrictInsert(keyFields, row, added - todo, col);
        assert added - (todo - {col}) == (added - todo) + {col};
        if col in v.columns {
          record := record[col := row[col]];
        }
        todo := todo - {col};
      }
      assert added - todo == added;
    }

    /** `_add_inserts`: one step with a record per inserted row, when there are inserts. */
    method AddInserts()
      modifies this
      ensures tracker == old(tracker) && currentData == old(currentData)
      ensures unchanged(tracker)
      ensures steps == old(steps) + InsertSteps(tracker.primaryKey, tracker.GetInserts())
    {
      var inserts := tracker.GetInserts();
      if |inserts| > 0 {
        var records := BuildRecords(tracker.primaryKey, inserts);
        steps := steps + [PlanStep(InsertOp, "Insert " + IntToString(|inserts|) + " row(s)", RecordList(records), 30)];
      }
    }

    /**
     * `_build_plan`: recompute the tracker's row changes against the current
     * data, append every kind of step, then sort by priority.  The sequences
     * `drops`, `adds` and `ks` are the orders the sets were iterated in.
     */
    method BuildPlan() returns (r: Result<(), Exception>, ghost drops: seq<string>, ghost adds: seq<string>, ghost ks: seq<Key>)
      requires tracker.Valid() && steps == []
      modifies this, tracker
      ensures tracker == old(tracker) && currentData == old(currentData)
      ensures tracker.Valid()
      ensures Realizes(tracker.rowChanges, ExpectedChanges(tracker.primaryKey, currentData, tracker.originalData))
      ensures tracker.primaryKey == old(tracker.primaryKey) && tracker.originalData == old(tracker.originalData)
      ensures tracker.originalIndex == old(tracker.originalIndex) && tracker.operations == old(tracker.operations)
      ensures tracker.addedColumns == old(tracker.addedColumns) && tracker.droppedColumns == old(tracker.droppedColumns)
      ensures tracker.renamedColumns == old(tracker.renamedColumns)
      ensures tracker.alteredColumnTypes == old(tracker.alteredColumnTypes)
      ensures Enumerates(drops, DropsToPlan(tracker.droppedColumns, tracker.renamedColumns))
      ensures Enumerates(adds, tracker.addedColumns)
      ensures Distinct(ks)
      ensures forall i :: 0 <= i < |ks| ==> ks[i] in ExistingKeys(currentData, tracker.primaryKey, tracker.originalIndex)
      ensures CoversExistingKeys(tracker.primaryKey, OfType(tracker.rowChanges, Update), tracker.addedColumns, currentData,
                                 tracker.originalIndex, ks)
      ensures var p := Plan(tracker.primaryKey, tracker.renamedColumns, drops, adds, tracker.alteredColumnTypes,
                            tracker.rowChanges, currentData, tracker.addedColumns, tracker.originalIndex, ks);
        && (p.Err? ==> r == Err(p.error))
        && (p.Ok? ==> r == Ok(()) && steps == p.value)
    {
      tracker.ComputeRowChanges(currentData);
      r, drops, adds, ks := AddAllSteps();
    }

    /** The four `_add_*` calls of `_build_plan` and the sort, on the recomputed row changes. */
    method AddAllSteps() returns (r: Result<(), Exception>, ghost drops: seq<string>, ghost adds: seq<string>, ghost ks: seq<Key>)
      requires ValidKey(tracker.primaryKey) && steps == []
      modifies this
      ensures tracker == old(tracker) && currentData == old(currentData)
      ensures unchanged(tracker)
      ensures Enumerates(drops, DropsToPlan(tracker.droppedColumns, tracker.renamedColumns))
      ensures Enumerates(adds, tracker.addedColumns)
      ensures Distinct(ks)
      ensures forall i :: 0 <= i < |ks| ==> ks[i] in ExistingKeys(currentData, tracker.primaryKey, tracker.originalIndex)
      ensures CoversExistingKeys(tracker.primaryKey, OfType(tracker.rowChanges, Update), tracker.addedColumns, currentData,
                                 tracker.originalIndex, ks)
      ensures var p := Plan(tracker.primaryKey, tracker.renamedColumns, drops, adds, tracker.alteredColumnTypes,
                            tracker.rowChanges, currentData, tracker.addedColumns, tracker.originalIndex, ks);
        && (p.Err? ==> r == Err(p.error))
        && (p.Ok? ==> r == Ok(()) && steps == p.value)
    {
      drops, adds := AddSchemaAndDeletes();
      r, ks := AddRowSteps(drops, adds);
      PlanOfRecords(tracker.primaryKey, tracker.renamedColumns, drops, adds, tracker.alteredColumnTypes,
                    tracker.rowChanges, currentData, tracker.addedColumns, tracker.originalIndex, ks);
      if r.Ok? {
        steps := SortByPriority(steps);
      }
    }

    /** `_add_schema_changes` then `_add_deletes`. */
    method AddSchemaAndDeletes() returns (ghost drops: seq<string>, ghost adds: seq<string>)
      requires steps == []
      modifies this
      ensures tracker == old(tracker) && currentData == old(currentData)
      ensures Enumerates(drops, DropsToPlan(tracker.droppedColumns, tracker.renamedColumns))
      ensures Enumerates(adds, tracker.addedColumns)
      ensures steps == SchemaSteps(tracker.renamedColumns, drops, adds, tracker.alteredColumnTypes, currentData)
                       + DeleteSteps(OfType(tracker.rowChanges, Delete))
    {
      drops, adds := AddSchemaChanges();
      assert steps == SchemaSteps(tracker.renamedColumns, drops, adds, tracker.alteredColumnTypes, currentData);
      AddDeletes();
    }

    /** `_add_updates` then `_add_inserts`, after the schema and delete steps. */
    method AddRowSteps(ghost drops: seq<string>, ghost adds: seq<string>) returns (r: Result<(), Exception>, ghost ks: seq<Key>)
      requires ValidKey(tracker.primaryKey)
      requires steps == SchemaSteps(tracker.renamedColumns, drops, adds, tracker.alteredColumnTypes, currentData)
                        + DeleteSteps(OfType(tracker.rowChanges, Delete))
      modifies this
      ensures tracker == old(tracker) && currentData == old(currentData)
      ensures unchanged(tracker)
      ensures Distinct(ks)
      ensures forall i :: 0 <= i < |ks| ==> ks[i] in ExistingKeys(currentData, tracker.primaryKey, tracker.originalIndex)
      ensures CoversExistingKeys(tracker.primaryKey, OfType(tracker.rowChanges, Update), tracker.addedColumns, currentData,
                                 tracker.originalIndex, ks)
      ensures var u := UpdateRecords(tracker.primaryKey, OfType(tracker.rowChanges, Update), tracker.addedColumns,
                                     currentData, tracker.originalIndex, ks);
        && (u.Err? ==> r == Err(u.error))
        && (u.Ok? ==> r == Ok(()) && steps == UnsortedSteps(tracker.primaryKey, tracker.renamedColumns, drops, adds,
                                                            tracker.alteredColumnTypes, tracker.rowChanges, currentData, u.value))
    {
      ghost var before := steps;
      r, ks := AddUpdates();
      if r.Err? {
        return;
      }
      ghost var recs := UpdateRecords(tracker.primaryKey, OfType(tracker.rowChanges, Update), tracker.addedColumns,
                                      currentData, tracker.originalIndex, ks).value;
      assert steps == before + UpdateSteps(recs);
      AddInserts();
      assert steps == before + UpdateSteps(recs) + InsertSteps(tracker.primaryKey, OfType(tracker.rowChanges, Insert));
    }

    /** `has_changes`: the plan holds at least one step. */
    predicate HasChanges()
      reads this
      ensures HasChanges() <==>
        var s := GetSummary();
        s.schemaChanges + s.insertOperations + s.updateOperations + s.deleteOperations > 0
    {
      |steps| > 0
    }

    /** `get_summary`: the number of steps, and of each kind; the kinds add up to the total. */
    function GetSummary(): (s: PlanSummary)
      reads this
      ensures s.totalSteps == |steps|
      ensures s.totalSteps == s.schemaChanges + s.insertOperations + s.updateOperations + s.deleteOperations
      ensures s.schemaChanges == multiset(Types(steps))[SchemaChangeOp]
      ensures s.insertOperations == multiset(Types(steps))[InsertOp]
      ensures s.updateOperations == multiset(Types(steps))[UpdateOp]
      ensures s.deleteOperations == multiset(Types(steps))[DeleteOp]
    {
      TypeCounts(steps);
      StepsOfTypeCount(steps, SchemaChangeOp);
      StepsOfTypeCount(steps, InsertOp);
      StepsOfTypeCount(steps, UpdateOp);
      StepsOfTypeCount(steps, DeleteOp);
      PlanSummary(|steps|, |StepsOfType(steps, SchemaChangeOp)|, |StepsOfType(steps, InsertOp)|,
                  |StepsOfType(steps, UpdateOp)|, |StepsOfType(steps, DeleteOp)|)
    }

    /** `get_steps_by_type`: the steps of one kind, in plan order. */
    function GetStepsByType(t: OperationType): (r: seq<PlanStep>)
      reads this
      ensures forall x :: x in r <==> x in steps && x.operationType == t
    {
      StepsOfType(steps, t)
    }
  }

  /**
   * `ExecutionPlan(tracker, current_data)`: a new plan over the tracker,
   * built at once; the error the update records raise ends construction.
   */
  method NewExecutionPlan(t: ChangeTracker, current: Frame)
      returns (r: Result<ExecutionPlan, Exception>, ghost drops: seq<string>, ghost adds: seq<string>, ghost ks: seq<Key>)
    requires t.Valid()
    modifies t
    ensures t.Valid()
    ensures Realizes(t.rowChanges, ExpectedChanges(t.primaryKey, current, t.originalData))
    ensures Enumerates(drops, DropsToPlan(t.droppedColumns, t.renamedColumns)) && Enumerates(adds, t.addedColumns)
    ensures Distinct(ks) && forall i :: 0 <= i < |ks| ==> ks[i] in ExistingKeys(current, t.primaryKey, t.originalIndex)
    ensures CoversExistingKeys(t.primaryKey, OfType(t.rowChanges, Update), t.addedColumns, current, t.originalIndex, ks)
    ensures var p := Plan(t.primaryKey, t.renamedColumns, drops, adds, t.alteredColumnTypes,
                          t.rowChanges, current, t.addedColumns, t.originalIndex, ks);
      && (p.Err? ==> r == Err(p.error))
      && (p.Ok? ==> r.Ok? && fresh(r.value) && r.value.tracker == t && r.value.currentData == current
                    && r.value.steps == p.value)
  {
    var plan := new ExecutionPlan.Init(t, current);
    var built;
    built, drops, adds, ks := plan.BuildPlan();
    if built.Err? {
      return Err(built.error), drops, adds, ks;
    }
    r := Ok(plan);
  }
}
