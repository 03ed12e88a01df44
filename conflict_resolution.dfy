/**
 * Conflict detection and resolution for concurrent modifications: a
 * three-way comparison of the local change, the remote value and the value
 * originally read, then a resolution by one of five strategies.
 */
module ConflictResolution {
  import opened Wrappers
  import opened Dicts
  import opened Values
  import opened Frames
  import opened Exceptions

  datatype ConflictStrategy = LastWriterWins | FirstWriterWins | Abort | Merge | Custom

  /** One entry of `detect_conflicts`' result: the `local`, `remote` and `conflicting_columns` fields. */
  datatype ConflictDetails = ConflictDetails(local: Dict<string, Value>, remote: Dict<string, Value>, conflictingColumns: seq<string>)

  /** `remote_data.loc[k]` for a label of the index. */
  function LocRow(f: Frame, k: Key): Row
    requires k in LabelSet(f)
  {
    FirstWithLabel(f.rows, k)
  }

  /** The value of `col` originally read for row `k`, when the original data holds both the row and the column. */
  function OriginalValue(original: Option<Frame>, k: Key, col: string): Option<Value> {
    if original.Some? && k in LabelSet(original.value) && col in original.value.columns
    then Some(Cell(LocRow(original.value, k), col))
    else None
  }

  /**
   * A changed cell conflicts when the remote value differs from the local
   * one (two missing values are equal) and, if the original value is known,
   * the remote value also changed from it.
   */
  predicate CellConflicts(local: Value, remote: Value, original: Option<Value>) {
    (original.Some? ==> Differs(original.value, remote)) && Differs(local, remote)
  }

  /** Column `col`, changed locally to `v` in row `k`, exists remotely and conflicts there. */
  predicate ColumnConflicts(remote: Frame, k: Key, original: Option<Frame>, col: string, v: Value)
    requires k in LabelSet(remote)
  {
    col in remote.columns && CellConflicts(v, Cell(LocRow(remote, k), col), OriginalValue(original, k, col))
  }

  /** The changed columns of row `k` that conflict, in the order of the changes. */
  function ConflictColumns(changes: Dict<string, Value>, remote: Frame, k: Key, original: Option<Frame>): (cols: seq<string>)
    requires k in LabelSet(remote)
    ensures forall c :: c in cols ==> HasKey(changes, c)
  {
    if |changes| == 0 then []
    else
      var cols := ConflictColumns(changes[..|changes| - 1], remote, k, original);
      var last := changes[|changes| - 1];
      assert forall c :: HasKey(changes[..|changes| - 1], c) ==> HasKey(changes, c) by {
        forall c | HasKey(changes[..|changes| - 1], c) ensures HasKey(changes, c) {
          var i :| 0 <= i < |changes| - 1 && Keys(changes[..|changes| - 1])[i] == c;
          assert Keys(changes)[i] == c;
        }
      }
      assert Keys(changes)[|changes| - 1] == last.0;
      if ColumnConflicts(remote, k, original, last.0, last.1) then cols + [last.0] else cols
  }

  /** `remote_changes`: each conflicting column with the remote row's value. */
  function RemoteValues(cols: seq<string>, row: Row): (d: Dict<string, Value>)
    ensures Keys(d) == cols
    ensures forall i :: 0 <= i < |cols| ==> d[i] == (cols[i], Cell(row, cols[i]))
  {
    seq(|cols|, i requires 0 <= i < |cols| => (cols[i], Cell(row, cols[i])))
  }

  /** What `detect_conflicts` records for local changes `ch` of row `k`, if anything. */
  function RowConflict(remote: Frame, k: Key, ch: Dict<string, Value>, original: Option<Frame>): Option<ConflictDetails> {
    if k in LabelSet(remote) && |ConflictColumns(ch, remote, k, original)| > 0 then
      var cols := ConflictColumns(ch, remote, k, original);
      Some(ConflictDetails(ch, RemoteValues(cols, LocRow(remote, k)), cols))
    else None
  }

  /** The result of `detect_conflicts`, in the order of the local changes. */
  function Conflicts(remote: Frame, localChanges: Dict<Key, Dict<string, Value>>, original: Option<Frame>)
    : (r: Dict<Key, ConflictDetails>)
    ensures forall k :: HasKey(r, k) ==> HasKey(localChanges, k)
  {
    if |localChanges| == 0 then []
    else
      var n := |localChanges| - 1;
      var rest := Conflicts(remote, localChanges[..n], original);
      var (k, ch) := localChanges[n];
      assert forall x :: HasKey(localChanges[..n], x) ==> HasKey(localChanges, x) by {
        forall x | HasKey(localChanges[..n], x) ensures HasKey(localChanges, x) {
          var i :| 0 <= i < n && Keys(localChanges[..n])[i] == x;
          assert Keys(localChanges)[i] == x;
        }
      }
      assert Keys(localChanges)[n] == k;
      match RowConflict(remote, k, ch, original)
      case Some(c) => rest + [(k, c)]
      case None => rest
  }

  /** `{pk: changes for pk, changes in local_changes.items() if pk in remote_data.index}` */
  function RemoteUpdates(localChanges: Dict<Key, Dict<string, Value>>, remote: Frame)
    : (r: Dict<Key, Dict<string, Value>>)
    ensures forall i :: 0 <= i < |r| ==> r[i] in localChanges && r[i].0 in LabelSet(remote)
  {
    if |localChanges| == 0 then []
    else
      var n := |localChanges| - 1;
      var rest := RemoteUpdates(localChanges[..n], remote);
      assert forall i :: 0 <= i < |rest| ==> rest[i] in localChanges by {
        forall i | 0 <= i < |rest| ensures rest[i] in localChanges {
          var j :| 0 <= j < n && localChanges[..n][j] == rest[i];
          assert localChanges[j] == rest[i];
        }
      }
      if localChanges[n].0 in LabelSet(remote) then rest + [localChanges[n]] else rest
  }

  /** The prefilter keeps the keys of the remote data, whose absence `Conflicts` skips anyway. */
  lemma {:induction false} ConflictsOfRemoteUpdates(remote: Frame, lc: Dict<Key, Dict<string, Value>>, original: Option<Frame>)
    ensures Conflicts(remote, RemoteUpdates(lc, remote), original) == Conflicts(remote, lc, original)
  {
    if |lc| > 0 {
      var n := |lc| - 1;
      var u := RemoteUpdates(lc[..n], remote);
      ConflictsOfRemoteUpdates(remote, lc[..n], original);
      if lc[n].0 in LabelSet(remote) {
        assert (u + [lc[n]])[..|u|] == u;
      }
    }
  }

  /** The prefilter introduces no key and repeats none. */
  lemma {:induction false} RemoteUpdatesKeys(remote: Frame, lc: Dict<Key, Dict<string, Value>>)
    requires UniqueKeys(lc)
    ensures forall k :: HasKey(RemoteUpdates(lc, remote), k) ==> HasKey(lc, k)
    ensures UniqueKeys(RemoteUpdates(lc, remote))
  {
    var r := RemoteUpdates(lc, remote);
    forall k | HasKey(r, k) ensures HasKey(lc, k) {
      var i :| 0 <= i < |r| && Keys(r)[i] == k;
      assert r[i] in lc;
      var j :| 0 <= j < |lc| && lc[j] == r[i];
      assert Keys(lc)[j] == k;
    }
    if |lc| > 0 {
      var n := |lc| - 1;
      var u := RemoteUpdates(lc[..n], remote);
      PrefixLacksNext(lc, n);
      RemoteUpdatesKeys(remote, lc[..n]);
      if lc[n].0 in LabelSet(remote) {
        assert !HasKey(u, lc[n].0);
        SnocUniqueKeys(u, lc[n]);
      }
    }
  }

  /**
   * Which columns conflict: exactly the changed columns that exist
   * remotely and conflict there, each once.
   */
  lemma {:induction false} ConflictColumnsMeaning(changes: Dict<string, Value>, remote: Frame, k: Key, original: Option<Frame>)
    requires UniqueKeys(changes) && k in LabelSet(remote)
    ensures forall c :: c in ConflictColumns(changes, remote, k, original) <==>
      HasKey(changes, c) && ColumnConflicts(remote, k, original, c, Get(changes, c).value)
    ensures Distinct(ConflictColumns(changes, remote, k, original))
  {
    if |changes| > 0 {
      var n := |changes| - 1;
      var last := changes[n];
      var cols := ConflictColumns(changes[..n], remote, k, original);
      PrefixUniqueKeys(changes, n);
      ConflictColumnsMeaning(changes[..n], remote, k, original);
      assert changes == changes[..n] + [last];
      PrefixLacksNext(changes, n);
      assert Keys(changes) == Keys(changes[..n]) + [last.0];
      forall c ensures Get(changes, c) == if c == last.0 then Some(last.1) else Get(changes[..n], c) {
        GetSnoc(changes[..n], last.0, last.1, c);
      }
      if ColumnConflicts(remote, k, original, last.0, last.1) {
        assert last.0 !in cols;
        forall a, b | 0 <= a < b < |cols + [last.0]| ensures (cols + [last.0])[a] != (cols + [last.0])[b] {
          if b == |cols| { assert cols[a] in cols; }
        }
      }
    }
  }

  /**
   * What `detect_conflicts` reports, key by key: a key has an entry exactly
   * when it has local changes, is still present remotely, and has at least
   * one conflicting column; the entry carries the full local changes, the
   * remote values of just the conflicting columns, and those columns.
   */
  lemma {:induction false} ConflictsByKey(remote: Frame, lc: Dict<Key, Dict<string, Value>>, original: Option<Frame>)
    requires UniqueKeys(lc)
    ensures UniqueKeys(Conflicts(remote, lc, original))
    ensures forall k ::
      Get(Conflicts(remote, lc, original), k)
      == if HasKey(lc, k) then RowConflict(remote, k, Get(lc, k).value, original) else None
  {
    if |lc| > 0 {
      var n := |lc| - 1;
      var (k, ch) := lc[n];
      var rest := Conflicts(remote, lc[..n], original);
      PrefixUniqueKeys(lc, n);
      ConflictsByKey(remote, lc[..n], original);
      assert lc == lc[..n] + [(k, ch)];
      PrefixLacksNext(lc, n);
      assert Keys(lc) == Keys(lc[..n]) + [k];
      forall x ensures Get(lc, x) == if x == k then Some(ch) else Get(lc[..n], x) {
        GetSnoc(lc[..n], k, ch, x);
      }
      match RowConflict(remote, k, ch, original) {
        case Some(c) =>
          assert !HasKey(rest, k);
          SnocUniqueKeys(rest, (k, c));
          forall x ensures Get(rest + [(k, c)], x) == if x == k then Some(c) else Get(rest, x) {
            GetSnoc(rest, k, c, x);
          }
        case None =>
      }
    }
  }

  /**
   * The comparisons of one changed row, as `detect_conflicts` makes them
   * column by column: a column missing remotely is skipped; with an original
   * value, a remote value equal to it (or both missing) is no conflict;
   * otherwise local and remote both missing is no conflict, and any other
   * difference is one.
   */
  method DetectRow(changes: Dict<string, Value>, remote: Frame, k: Key, original: Option<Frame>)
    returns (conflictingColumns: seq<string>, remoteChanges: Dict<string, Value>)
    requires UniqueKeys(changes) && k in LabelSet(remote)
    ensures conflictingColumns == ConflictColumns(changes, remote, k, original)
    ensures remoteChanges == RemoteValues(conflictingColumns, LocRow(remote, k))
  {
    var remoteRow := LocRow(remote, k);
    conflictingColumns := [];
    remoteChanges := [];
    var originalRow: Option<Row> := None;
    if original.Some? && k in LabelSet(original.value) {
      originalRow := Some(LocRow(original.value, k));
    }
    for j := 0 to |changes|
      invariant conflictingColumns == ConflictColumns(changes[..j], remote, k, original)
      invariant remoteChanges == RemoteValues(conflictingColumns, remoteRow)
    {
      assert changes[..j + 1][..j] == changes[..j];
      var (col, localValue) := changes[j];
      PrefixLacksNext(changes, j);
      assert !HasKey(remoteChanges, col);
      if col !in remote.columns {
        continue;
      }
      var remoteValue := Cell(remoteRow, col);
      if originalRow.Some? && col in original.value.columns {
        var originalValue := Cell(originalRow.value, col);
        if IsNa(originalValue) && IsNa(remoteValue) {
          continue;
        }
        if originalValue == remoteValue {
          continue;
        }
        if IsNa(localValue) && IsNa(remoteValue) {
          continue;
        }
        if localValue != remoteValue {
          PutNew(remoteChanges, col, remoteValue);
          conflictingColumns := conflictingColumns + [col];
          remoteChanges := Put(remoteChanges, col, remoteValue);
        }
      } else {
        if IsNa(localValue) && IsNa(remoteValue) {
          continue;
        }
        if localValue != remoteValue {
          PutNew(remoteChanges, col, remoteValue);
          conflictingColumns := conflictingColumns + [col];
          remoteChanges := Put(remoteChanges, col, remoteValue);
        }
      }
    }
    assert changes[..|changes|] == changes;
  }

  /**
   * `detect_conflicts`: only local changes whose key is still in the remote
   * data are examined, and a key gets an entry when some changed column
   * conflicts.
   */
  method DetectConflicts(remote: Frame, localChanges: Dict<Key, Dict<string, Value>>, original: Option<Frame>)
    returns (conflicts: Dict<Key, ConflictDetails>)
    requires UniqueKeys(localChanges)
    requires forall i :: 0 <= i < |localChanges| ==> UniqueKeys(localChanges[i].1)
    ensures conflicts == Conflicts(remote, localChanges, original)
  {
    conflicts := [];
    var updates := RemoteUpdates(localChanges, remote);
    ConflictsOfRemoteUpdates(remote, localChanges, original);
    RemoteUpdatesKeys(remote, localChanges);
    if |updates| == 0 {
      return;
    }
    for i := 0 to |updates|
      invariant conflicts == Conflicts(remote, updates[..i], original)
    {
      assert updates[i] in localChanges;
      conflicts := DetectStep(conflicts, remote, updates, i, original);
    }
    assert updates[..|updates|] == updates;
  }

  /** The body of `detect_conflicts`' loop for the `i`-th candidate row. */
  method DetectStep(conflicts: Dict<Key, ConflictDetails>, remote: Frame, updates: Dict<Key, Dict<string, Value>>, i: nat,
                    original: Option<Frame>) returns (conflicts': Dict<Key, ConflictDetails>)
    requires UniqueKeys(updates) && i < |updates| && UniqueKeys(updates[i].1) && updates[i].0 in LabelSet(remote)
    requires conflicts == Conflicts(remote, updates[..i], original)
    ensures conflicts' == Conflicts(remote, updates[..i + 1], original)
  {
    var (k, ch) := updates[i];
    var cols, remoteChanges := DetectRow(ch, remote, k, original);
    ConflictsStep(remote, updates, i, original);
    conflicts' := conflicts;
    if |cols| > 0 {
      conflicts' := Put(conflicts, k, ConflictDetails(ch, remoteChanges, cols));
    }
  }

  /** One iteration of `detect_conflicts`' loop: a conflicting row is written under its key, which is new. */
  lemma ConflictsStep(remote: Frame, u: Dict<Key, Dict<string, Value>>, i: nat, original: Option<Frame>)
    requires UniqueKeys(u) && i < |u| && u[i].0 in LabelSet(remote)
    ensures var rest := Conflicts(remote, u[..i], original);
      Conflicts(remote, u[..i + 1], original) ==
        match RowConflict(remote, u[i].0, u[i].1, original)
        case Some(c) => Put(rest, u[i].0, c)
        case None => rest
  {
    assert u[..i + 1][..i] == u[..i];
    PrefixLacksNext(u, i);
    match RowConflict(remote, u[i].0, u[i].1, original) {
      case Some(c) => PutNew(Conflicts(remote, u[..i], original), u[i].0, c);
      case None =>
    }
  }

  /** A user-supplied resolver: key, local changes and remote changes to the changes to apply. */
  type Resolver = (Key, Dict<string, Value>, Dict<string, Value>) -> Dict<string, Value>

  /** MERGE for one row: the local changes, then every remote column not listed as conflicting. */
  function MergeChanges(local: Dict<string, Value>, remote: Dict<string, Value>, conflicting: seq<string>)
    : Dict<string, Value>
  {
    if |remote| == 0 then local
    else
      var merged := MergeChanges(local, remote[..|remote| - 1], conflicting);
      var (col, v) := remote[|remote| - 1];
      if col !in conflicting then Put(merged, col, v) else merged
  }

  /** The merged changes take a remote value for each non-conflicting remote column, and the local value elsewhere. */
  lemma {:induction false} MergeChangesMeaning(local: Dict<string, Value>, remote: Dict<string, Value>, conflicting: seq<string>)
    requires UniqueKeys(remote)
    ensures forall c ::
      Get(MergeChanges(local, remote, conflicting), c)
      == if HasKey(remote, c) && c !in conflicting then Get(remote, c) else Get(local, c)
  {
    if |remote| > 0 {
      var n := |remote| - 1;
      var (col, v) := remote[n];
      var merged := MergeChanges(local, remote[..n], conflicting);
      PrefixLacksNext(remote, n);
      MergeChangesMeaning(local, remote[..n], conflicting);
      assert remote == remote[..n] + [(col, v)];
      assert MergeChanges(local, remote, conflicting) == if col !in conflicting then Put(merged, col, v) else merged;
      if col !in conflicting {
        PutGet(merged, col, v);
      }
      forall c ensures Get(MergeChanges(local, remote, conflicting), c)
        == if HasKey(remote, c) && c !in conflicting then Get(remote, c) else Get(local, c)
      {
        GetSnoc(remote[..n], col, v, c);
      }
    }
  }

  /** A merge of what `detect_conflicts` reports, whose remote columns are all conflicting, is the local changes. */
  lemma {:induction false} MergeOfDetected(local: Dict<string, Value>, remote: Dict<string, Value>, conflicting: seq<string>)
    requires forall i :: 0 <= i < |remote| ==> remote[i].0 in conflicting
    ensures MergeChanges(local, remote, conflicting) == local
  {
    if |remote| > 0 {
      MergeOfDetected(local, remote[..|remote| - 1], conflicting);
    }
  }

  /** The changes one strategy keeps for one conflicting row. */
  function ResolveOne(strategy: ConflictStrategy, k: Key, c: ConflictDetails, resolver: Option<Resolver>): Dict<string, Value>
    requires strategy != Abort && (strategy == Custom ==> resolver.Some?)
  {
    match strategy
    case LastWriterWins => c.local
    case FirstWriterWins => []
    case Merge => MergeChanges(c.local, c.remote, c.conflictingColumns)
    case Custom => resolver.value(k, c.local, c.remote)
  }

  const ConflictPrefix := "Concurrent modification conflict detected for row "
  const NoResolverMessage := "custom_resolver required for CUSTOM strategy"
  const AbortFix := "Pull latest data and resolve manually:\n    table.pull()\n    # Review and merge changes\n    table.push()"

  /** The `ConflictError` that ABORT raises for row `k`. */
  function AbortError(k: Key, c: ConflictDetails, tableName: Option<string>): ConflictError {
    NewConflictError(ConflictPrefix + KeyStr(k), tableName, Some(k),
                     Some(c.local), Some(c.remote), Some(c.conflictingColumns), NoDetails, None, None, Some(AbortFix))
  }

  /** The resolved changes of the first `conflicts` entries, in order. */
  function ResolvedEntries(conflicts: Dict<Key, ConflictDetails>, strategy: ConflictStrategy, resolver: Option<Resolver>)
    : (r: Dict<Key, Dict<string, Value>>)
    requires strategy != Abort && (strategy == Custom ==> resolver.Some?)
    ensures Keys(r) == Keys(conflicts)
  {
    if |conflicts| == 0 then []
    else
      var n := |conflicts| - 1;
      var rest := ResolvedEntries(conflicts[..n], strategy, resolver);
      assert Keys(conflicts) == Keys(conflicts[..n]) + [conflicts[n].0];
      rest + [(conflicts[n].0, ResolveOne(strategy, conflicts[n].0, conflicts[n].1, resolver))]
  }

  /**
   * The outcome of `resolve_conflicts`: nothing to resolve gives an empty
   * result whatever the strategy; ABORT raises on the first conflict, CUSTOM
   * without a resolver raises `ValueError`; otherwise every row is resolved.
   */
  function Resolution(conflicts: Dict<Key, ConflictDetails>, strategy: ConflictStrategy, tableName: Option<string>,
                      resolver: Option<Resolver>): Result<Dict<Key, Dict<string, Value>>, Exception>
  {
    if |conflicts| == 0 then Ok([])
    else if strategy == Abort then Err(Conflicted(AbortError(conflicts[0].0, conflicts[0].1, tableName)))
    else if strategy == Custom && resolver.None? then Err(ValueError(NoResolverMessage))
    else Ok(ResolvedEntries(conflicts, strategy, resolver))
  }

  /** `resolve_conflicts`: one pass over the conflicts, raising on the first row when the strategy says so. */
  method ResolveConflicts(conflicts: Dict<Key, ConflictDetails>, strategy: ConflictStrategy, tableName: Option<string>,
                          resolver: Option<Resolver>) returns (r: Result<Dict<Key, Dict<string, Value>>, Exception>)
    requires UniqueKeys(conflicts)
    ensures r == Resolution(conflicts, strategy, tableName, resolver)
  {
    var resolved: Dict<Key, Dict<string, Value>> := [];
    for i := 0 to |conflicts|
      invariant i > 0 ==> strategy != Abort && (strategy == Custom ==> resolver.Some?)
      invariant i > 0 ==> resolved == ResolvedEntries(conflicts[..i], strategy, resolver)
      invariant i == 0 ==> resolved == []
    {
      var (k, c) := conflicts[i];
      if strategy == Abort {
        return Err(Conflicted(AbortError(k, c, tableName)));
      }
      if strategy == Custom && resolver.None? {
        return Err(ValueError(NoResolverMessage));
      }
      resolved := ResolveStep(resolved, conflicts, i, strategy, resolver);
    }
    if |conflicts| > 0 {
      assert conflicts[..|conflicts|] == conflicts;
    }
    return Ok(resolved);
  }

  /** The body of `resolve_conflicts`' loop for the `i`-th conflict, once the strategy is known to resolve it. */
  method ResolveStep(resolved: Dict<Key, Dict<string, Value>>, conflicts: Dict<Key, ConflictDetails>, i: nat,
                     strategy: ConflictStrategy, resolver: Option<Resolver>) returns (resolved': Dict<Key, Dict<string, Value>>)
    requires UniqueKeys(conflicts) && i < |conflicts|
    requires strategy != Abort && (strategy == Custom ==> resolver.Some?)
    requires resolved == if i == 0 then [] else ResolvedEntries(conflicts[..i], strategy, resolver)
    ensures resolved' == ResolvedEntries(conflicts[..i + 1], strategy, resolver)
  {
    var (k, c) := conflicts[i];
    var changes := ResolveRow(strategy, k, c, resolver);
    ResolvedStep(conflicts, i, strategy, resolver);
    resolved' := Put(resolved, k, changes);
  }

  /** One iteration of `resolve_conflicts`' loop: the row's resolved changes are written under its key, which is new. */
  lemma ResolvedStep(conflicts: Dict<Key, ConflictDetails>, i: nat, strategy: ConflictStrategy, resolver: Option<Resolver>)
    requires UniqueKeys(conflicts) && i < |conflicts|
    requires strategy != Abort && (strategy == Custom ==> resolver.Some?)
    ensures var rest := if i == 0 then [] else ResolvedEntries(conflicts[..i], strategy, resolver);
      ResolvedEntries(conflicts[..i + 1], strategy, resolver)
        == Put(rest, conflicts[i].0, ResolveOne(strategy, conflicts[i].0, conflicts[i].1, resolver))
  {
    assert conflicts[..i + 1][..i] == conflicts[..i];
    PrefixLacksNext(conflicts, i);
    PutNew(ResolvedEntries(conflicts[..i], strategy, resolver), conflicts[i].0,
           ResolveOne(strategy, conflicts[i].0, conflicts[i].1, resolver));
  }

  /** The changes one strategy keeps for one row; MERGE copies the remote columns one by one. */
  method ResolveRow(strategy: ConflictStrategy, k: Key, c: ConflictDetails, resolver: Option<Resolver>)
    returns (changes: Dict<string, Value>)
    requires strategy != Abort && (strategy == Custom ==> resolver.Some?)
    ensures changes == ResolveOne(strategy, k, c, resolver)
  {
    match strategy {
      case LastWriterWins => changes := c.local;
      case FirstWriterWins => changes := [];
      case Merge =>
        var merged := c.local;
        for j := 0 to |c.remote|
          invariant merged == MergeChanges(c.local, c.remote[..j], c.conflictingColumns)
        {
          assert c.remote[..j + 1][..j] == c.remote[..j];
          var (col, remoteValue) := c.remote[j];
          if col !in c.conflictingColumns {
            merged := Put(merged, col, remoteValue);
          }
        }
        assert c.remote[..|c.remote|] == c.remote;
        changes := merged;
      case Custom => changes := resolver.value(k, c.local, c.remote);
    }
  }

  /**
   * Resolution key by key: every conflicting row gets exactly the changes
   * its strategy keeps: LAST_WRITER_WINS the local changes, FIRST_WRITER_WINS
   * none, MERGE the local changes with the non-conflicting remote columns,
   * CUSTOM what the resolver returns; no other key appears.
   */
  lemma {:induction false} ResolutionByKey(conflicts: Dict<Key, ConflictDetails>, strategy: ConflictStrategy,
                                           tableName: Option<string>, resolver: Option<Resolver>)
    requires UniqueKeys(conflicts) && |conflicts| > 0
    requires strategy != Abort && (strategy == Custom ==> resolver.Some?)
    ensures var r := Resolution(conflicts, strategy, tableName, resolver);
      && r.Ok? && UniqueKeys(r.value)
      && forall k :: Get(r.value, k) ==
           if HasKey(conflicts, k) then Some(ResolveOne(strategy, k, Get(conflicts, k).value, resolver)) else None
  {
    ResolvedByKey(conflicts, strategy, resolver);
  }

  lemma {:induction false} ResolvedByKey(conflicts: Dict<Key, ConflictDetails>, strategy: ConflictStrategy, resolver: Option<Resolver>)
    requires UniqueKeys(conflicts)
    requires strategy != Abort && (strategy == Custom ==> resolver.Some?)
    ensures UniqueKeys(ResolvedEntries(conflicts, strategy, resolver))
    ensures forall k ::
      Get(ResolvedEntries(conflicts, strategy, resolver), k)
      == if HasKey(conflicts, k) then Some(ResolveOne(strategy, k, Get(conflicts, k).value, resolver)) else None
  {
    var r := ResolvedEntries(conflicts, strategy, resolver);
    assert UniqueKeys(r);
    if |conflicts| > 0 {
      var n := |conflicts| - 1;
      var (k, c) := conflicts[n];
      var rest := ResolvedEntries(conflicts[..n], strategy, resolver);
      var v := ResolveOne(strategy, k, c, resolver);
      PrefixUniqueKeys(conflicts, n);
      ResolvedByKey(conflicts[..n], strategy, resolver);
      assert conflicts == conflicts[..n] + [(k, c)];
      PrefixLacksNext(conflicts, n);
      assert Keys(conflicts) == Keys(conflicts[..n]) + [k];
      assert !HasKey(rest, k);
      forall x ensures Get(conflicts, x) == if x == k then Some(c) else Get(conflicts[..n], x) {
        GetSnoc(conflicts[..n], k, c, x);
      }
      forall x ensures Get(rest + [(k, v)], x) == if x == k then Some(v) else Get(rest, x) {
        GetSnoc(rest, k, v, x);
      }
    }
  }

  /** With nothing to resolve, every strategy returns an empty result. */
  lemma NoConflictsNothingResolved(strategy: ConflictStrategy, tableName: Option<string>, resolver: Option<Resolver>)
    ensures Resolution([], strategy, tableName, resolver) == Ok([])
  {
  }

  /**
   * ABORT on a non-empty conflict set raises a `ConflictError` for the first
   * row, carrying its key as the one affected row, its local and remote
   * changes and its conflicting columns.
   */
  lemma AbortRaisesForFirst(conflicts: Dict<Key, ConflictDetails>, tableName: Option<string>, resolver: Option<Resolver>)
    requires |conflicts| > 0
    ensures var r := Resolution(conflicts, Abort, tableName, resolver);
      && r.Err? && r.error.Conflicted?
      && r.error.conflict.primaryKey == Some(conflicts[0].0)
      && r.error.conflict.base.affectedRows == [conflicts[0].0]
      && r.error.conflict.base.tableName == tableName
      && r.error.conflict.localChanges == conflicts[0].1.local
      && r.error.conflict.remoteChanges == conflicts[0].1.remote
      && r.error.conflict.conflictingColumns == conflicts[0].1.conflictingColumns
  {
  }

  /**
   * Resolving what detection found: MERGE keeps the local changes unchanged,
   * since every remote column it reports is a conflicting one.
   */
  lemma MergeOfDetectedConflicts(remote: Frame, lc: Dict<Key, Dict<string, Value>>, original: Option<Frame>, k: Key)
    requires UniqueKeys(lc) && HasKey(Conflicts(remote, lc, original), k)
    ensures var c := Get(Conflicts(remote, lc, original), k).value;
      MergeChanges(c.local, c.remote, c.conflictingColumns) == c.local
  {
    ConflictsByKey(remote, lc, original);
    var c := Get(Conflicts(remote, lc, original), k).value;
    assert Keys(c.remote) == c.conflictingColumns;
    MergeOfDetected(c.local, c.remote, c.conflictingColumns);
  }
}
