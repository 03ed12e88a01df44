# pandalchemy core, modelled in Dafny

pandalchemy wraps a pandas DataFrame that mirrors a SQL table. Edits made
to the wrapper (`TableDataFrame`) are tracked by a `ChangeTracker`, which
diffs the current data against a baseline by primary key and records the
column additions, drops, renames and type changes. An `ExecutionPlan` turns
the tracked changes into prioritised SQL steps (schema changes, then
deletes, updates and inserts). `conflict_resolution` detects and resolves
concurrent modifications, `pk_utils` and `utils` hold the key and
conversion helpers, `exceptions` formats the library's errors, and
`scripts/convert_source_to_notebooks.py` turns annotated Python sources
into Jupyter notebooks.

The model, one Dafny module per concern:

- `Values`, `Dicts`, `Text`, `Wrappers`: cell values (`Null`, integers,
  strings, booleans), primary-key tuples, insertion-ordered dictionaries
  (Python `dict`), string helpers and `Option`/`Result`.
- `Frames`: a DataFrame as an index (its level names), columns and rows;
  each row has an index label and one cell per column.
- `PkUtils`: key normalisation, location, extraction and `set_index`.
- `ChangeTracking`: the `ChangeTracker` class, its column bookkeeping, and
  `compute_row_changes` as three loops proved against a reference diff.
- `ExecutionPlans`: the `ExecutionPlan` class and the step builders,
  proved against pure definitions of the plan.
- `PlanReplay`: what the plan's steps do to the table's keyed rows when
  executed in order; proves that, with no column added, dropped or renamed,
  executing the plan over the baseline gives the current rows.
- `ConflictResolution`: `detect_conflicts` and `resolve_conflicts`.
- `Exceptions`: the error classes and `format_error`.
- `Utils`: dtype mapping, schema normalisation, table references,
  primary-key extraction and SQL validation.
- `Notebooks`: the source-to-notebook script's parser and cell builders.
- `TableKeys`, `TableEdits`, `TableChecks`, `TrackedDataFrames`: the
  `TableDataFrame` class (a mutable `data` frame, a tracker and a primary
  key) and the pure definitions its CRUD, schema and validation methods
  are proved against.

All paths below are relative to the repository root.

## Model

| member | source | states |
|---|---|---|
| ChangeTracking.KeyedView | src/pandalchemy/change_tracker.py:179-229 | the rows the diff reads are keyed by the primary key when it is among the columns (same row count, labels are the key cells), or the frame itself when its index already holds the key; otherwise there is nothing to diff |
| ChangeTracking.ViewKeysAreKeyValues | src/pandalchemy/change_tracker.py:179-229 | the keys the diff sees are the keys `extract_pk_values` reports (except a one-column composite key held in a MultiIndex) |
| ChangeTracking.DiffClassification | src/pandalchemy/change_tracker.py:231-284 | a key new since the baseline is an insert carrying the new row, a vanished key a delete carrying the old row, and a shared key whose shared columns differ (two missing values being equal) an update carrying only those columns, before and after; nothing else is recorded |
| ChangeTracking.ExpectedChanges | src/pandalchemy/change_tracker.py:169-199 | when either frame lacks the key columns, `compute_row_changes` records nothing |
| ChangeTracking.OfType | src/pandalchemy/change_tracker.py:295-308 | filtering by change type keeps exactly the changes of that type |
| ChangeTracking.KindCounts | src/pandalchemy/change_tracker.py:344-361 | inserts, updates and deletes account for every row change |
| ChangeTracking.OfTypeCount | src/pandalchemy/change_tracker.py:295-308 | the changes of one kind are as many as the occurrences of that kind among the changes |
| ChangeTracking.KeysOfType | src/pandalchemy/change_tracker.py:295-308 | the keys of the changes of one type are the keys of that type in the diff the changes realise |
| ChangeTracking.AfterAdditionAsWritten | src/pandalchemy/change_tracker.py:122-132 | as written: a name not in the baseline becomes added and a baseline name leaves the sets as they were |
| ChangeTracking.ReaddedBaselineStaysDropped | src/pandalchemy/change_tracker.py:122-132 | as written, re-adding a dropped baseline column leaves it dropped and not added |
| ChangeTracking.AfterAddition | src/pandalchemy/change_tracker.py:122-132 | as intended: a new name becomes added, and a re-added name is no longer dropped |
| ChangeTracking.AfterDrop | src/pandalchemy/change_tracker.py:134-147 | a dropped name stops being added; a baseline name becomes dropped, any other name is just forgotten |
| ChangeTracking.BookkeepingPreserved | src/pandalchemy/change_tracker.py:122-147 | both steps keep added names outside the baseline and dropped names inside it |
| ChangeTracking.AddThenDropLeavesNoTrace | src/pandalchemy/change_tracker.py:122-147 | adding then dropping a new column restores the bookkeeping |
| ChangeTracking.DropThenReaddLeavesNoTrace | src/pandalchemy/change_tracker.py:122-147 | dropping then re-adding a kept baseline column restores the bookkeeping |
| ChangeTracking.ChangeTracker.constructor | src/pandalchemy/change_tracker.py:62-103 | the data becomes the baseline, its columns the original columns, and every collection starts empty |
| ChangeTracking.ChangeTracker.RecordOperation | src/pandalchemy/change_tracker.py:105-120 | exactly one entry is appended to the operation log and nothing else changes |
| ChangeTracking.ChangeTracker.TrackColumnAddition | src/pandalchemy/change_tracker.py:122-132 | the column sets become `AfterAddition` of the old ones, the intended bookkeeping in which a re-added column is no longer dropped (see Findings); the invariant holds; nothing else changes |
| ChangeTracking.ChangeTracker.TrackColumnDrop | src/pandalchemy/change_tracker.py:134-147 | the column sets become `AfterDrop` of the old ones; the invariant holds; nothing else changes |
| ChangeTracking.ChangeTracker.TrackColumnRename | src/pandalchemy/change_tracker.py:149-157 | the rename map maps the old name to the new one, overwriting an earlier rename of that name, and keeps every other entry |
| ChangeTracking.ChangeTracker.TrackColumnTypeChange | src/pandalchemy/change_tracker.py:159-167 | the type-change map maps the column to its new type and keeps every other entry |
| ChangeTracking.ChangeTracker.ComputeRowChanges | src/pandalchemy/change_tracker.py:169-284 | the row changes are rebuilt from scratch: distinct keys, exactly the diff of the current data against the baseline, inserts first, then deletes, then updates |
| ChangeTracking.ChangeTracker.GetInserts | src/pandalchemy/change_tracker.py:295-298 | exactly the inserts among the row changes |
| ChangeTracking.ChangeTracker.GetUpdates | src/pandalchemy/change_tracker.py:300-303 | exactly the updates among the row changes |
| ChangeTracking.ChangeTracker.GetDeletes | src/pandalchemy/change_tracker.py:305-308 | exactly the deletes among the row changes |
| ChangeTracking.ChangeTracker.Reset | src/pandalchemy/change_tracker.py:325-342 | the new data becomes the baseline and every collection is emptied; the key is kept |
| ChangeTracking.ChangeTracker.GetSummary | src/pandalchemy/change_tracker.py:344-361 | each of the insert, update and delete counts is the number of row changes of that kind, and together they account for every row change; the column counts are the sizes of the column logs, the operation count is the log's length, and `has_changes` holds exactly when some row or column count is non-zero |
| ChangeTracking.ChangeTracker.HasChanges | src/pandalchemy/change_tracker.py:310-322 | on a valid tracker, true exactly when there is some insert, update or delete, or some added, dropped, renamed or retyped column; the operation log alone does not count |
| ChangeTracking.AppendInserts | src/pandalchemy/change_tracker.py:231-239 | the insert loop appends one insert per key new since the baseline, each with the diff's entry, keys distinct |
| ChangeTracking.InsertStep | src/pandalchemy/change_tracker.py:231-239 | one pass of the insert loop appends the insert of a key still to do |
| ChangeTracking.AppendDeletes | src/pandalchemy/change_tracker.py:241-249 | the delete loop appends one delete per baseline key that is gone |
| ChangeTracking.DeleteStep | src/pandalchemy/change_tracker.py:241-249 | one pass of the delete loop appends the delete of a key still to do |
| ChangeTracking.CompareRows | src/pandalchemy/change_tracker.py:258-280 | the column loop reports a difference exactly when some common column differs, two missing values counting as equal |
| ChangeTracking.UpdateFor | src/pandalchemy/change_tracker.py:251-284 | one shared key: whether its shared columns differ, and the update holding them before and after |
| ChangeTracking.AppendUpdates | src/pandalchemy/change_tracker.py:251-284 | the update loop appends one update per shared key whose shared columns differ |
| ChangeTracking.UpdateLoop | src/pandalchemy/change_tracker.py:251-284 | the same loop over the shared keys, with the changed ones collected |
| ChangeTracking.Combine | src/pandalchemy/change_tracker.py:231-284 | distinct inserts, deletes and updates with disjoint keys concatenate to an exact, grouped record of the diff |
| ChangeTracking.GroupedByKind | src/pandalchemy/change_tracker.py:231-284 | inserts, then deletes, then updates are grouped by kind |
| ChangeTracking.InsertsAreNewKeys | src/pandalchemy/change_tracker.py:231-284 | the inserts are exactly the new keys, the deletes exactly the vanished keys and the updates exactly the changed shared keys |
| ChangeTracking.KindKeys | src/pandalchemy/change_tracker.py:231-284 | the diff's keys, by kind: new keys, vanished keys, changed shared keys |
| ChangeTracking.MissingKeyTracksNothing | src/pandalchemy/change_tracker.py:179-199 | a key column missing from either frame leaves no row changes |
| ChangeTracking.SameDataNoChanges | src/pandalchemy/change_tracker.py:169-284 | comparing a frame with itself finds no change |
| ExecutionPlans.KeysOf | src/pandalchemy/execution_plan.py:173-186 | one key per change, in order |
| ExecutionPlans.ChangeRecords | src/pandalchemy/execution_plan.py:196-206 | one record per change, in order, each the key fields (`{pk: key}` or the key unpacked per column) overlaid by the new data |
| ExecutionPlans.AddedColumnRecords | src/pandalchemy/execution_plan.py:229-234 | one record per listed existing key, in order, each the key field and the added columns of that row |
| ExecutionPlans.ZipMap | src/pandalchemy/execution_plan.py:195-206 | the record built from names and values has only those names as fields |
| ExecutionPlans.ZipMapAt | src/pandalchemy/execution_plan.py:195-206 | with distinct names and a value each, every name holds its own value |
| ExecutionPlans.SortByPrioritySorts | src/pandalchemy/execution_plan.py:43-45 | sorting the steps orders them by priority and is a permutation of its input |
| ExecutionPlans.SortedUnchanged | src/pandalchemy/execution_plan.py:102 | the stable sort leaves steps already in priority order as they are |
| ExecutionPlans.StepsOfType | src/pandalchemy/execution_plan.py:306-316 | the steps of one kind are exactly the steps with that operation type |
| ExecutionPlans.StepsOfTypeConcat | src/pandalchemy/execution_plan.py:306-316 | filtering by kind distributes over concatenation |
| ExecutionPlans.PlanInPriorityOrder | src/pandalchemy/execution_plan.py:84-102 | the steps are appended already in priority order (1, 2, 3, 4, 10, 20, 30), so the sort keeps them |
| ExecutionPlans.SchemaInPriorityOrder | src/pandalchemy/execution_plan.py:104-171 | the schema steps come in priority order: renames (1), drops (2), additions (3), type changes (4) |
| ExecutionPlans.SchemaOfPlan | src/pandalchemy/execution_plan.py:84-171 | the plan's schema steps are the four blocks, in the order renames, drops, additions, type changes |
| ExecutionPlans.SchemaCount | src/pandalchemy/execution_plan.py:104-171 | there is one schema step per rename, planned drop, added column and type change |
| ExecutionPlans.PlanByKind | src/pandalchemy/execution_plan.py:84-102 | the schema steps are the four schema blocks; there is at most one delete, one update and one insert step |
| ExecutionPlans.PlanOrderedAndBatched | src/pandalchemy/execution_plan.py:84-102 | the final steps are in non-decreasing priority, with at most one step per row kind |
| ExecutionPlans.DeleteStepOfPlan | src/pandalchemy/execution_plan.py:173-186 | the delete step exists exactly when some row was deleted, has priority 10, and lists exactly the deleted keys |
| ExecutionPlans.InsertStepOfPlan | src/pandalchemy/execution_plan.py:247-271 | the insert step exists exactly when some row was inserted, has priority 30, and holds one record per insert: the key fields merged with the new row |
| ExecutionPlans.UpdateStepOfPlan | src/pandalchemy/execution_plan.py:238-245 | the update step exists exactly when there are update records, has priority 20, and carries them all |
| ExecutionPlans.RenamesAndAlters | src/pandalchemy/execution_plan.py:104-171 | the schema steps begin with one rename step per rename and end with one type-change step per altered column, in dictionary order; their number is renames plus planned drops plus additions plus type changes |
| ExecutionPlans.DropsOfSchema | src/pandalchemy/execution_plan.py:121-135 | exactly the dropped columns that are not the old name of a rename are dropped, each once |
| ExecutionPlans.AddsOfSchema | src/pandalchemy/execution_plan.py:137-156 | exactly the added columns are added, each with the column's dtype when the current data has it and none otherwise |
| ExecutionPlans.UpdateRecordsShape | src/pandalchemy/execution_plan.py:188-236 | one record per update (key fields and new data); with added columns and no updates, a composite key raises `TypeError`, and for a single key and a listing `ks` of the existing keys, each once, there is exactly one record per existing key, holding the key and the added columns the data has |
| ExecutionPlans.ListingCard | src/pandalchemy/execution_plan.py:229-234 | a duplicate-free listing of a set is exactly as long as the set is large, so the loop over `existing_keys` makes one record per key |
| ExecutionPlans.AddedRecordShape | src/pandalchemy/execution_plan.py:208-236 | an added-column record holds the key field and exactly the added columns present in the data, with the row's values |
| ExecutionPlans.TypeCounts | src/pandalchemy/execution_plan.py:282-304 | the per-type counts add up to the number of steps |
| ExecutionPlans.StepsOfTypeCount | src/pandalchemy/execution_plan.py:289-296 | the steps of one type are as many as the occurrences of that type among the steps |
| ExecutionPlans.EmptyPlanIff | src/pandalchemy/execution_plan.py:273-280 | a built plan is empty exactly when nothing was renamed, dropped (other than by a rename), added or retyped, and no row changed |
| ExecutionPlans.EmptyStepsIff | src/pandalchemy/execution_plan.py:273-280 | the same, for the steps built from given update records |
| ExecutionPlans.PlanLength | src/pandalchemy/execution_plan.py:84-102 | the number of steps is the schema steps plus one step per non-empty row kind |
| ExecutionPlans.ExecutionPlan.constructor | src/pandalchemy/execution_plan.py:71-82 | the plan holds the tracker and the current data, with no steps yet |
| ExecutionPlans.ExecutionPlan.AddSchemaChanges | src/pandalchemy/execution_plan.py:104-171 | appends the renames, the drops not replaced by a rename, the additions and the type changes, in that order |
| ExecutionPlans.ExecutionPlan.AddRenames | src/pandalchemy/execution_plan.py:106-119 | appends one rename step per rename, in dictionary order |
| ExecutionPlans.ExecutionPlan.AddDrops | src/pandalchemy/execution_plan.py:121-135 | appends one drop step per dropped column that is not a rename's old name |
| ExecutionPlans.ExecutionPlan.AddAdditions | src/pandalchemy/execution_plan.py:137-156 | appends one addition step per added column |
| ExecutionPlans.ExecutionPlan.AddAlters | src/pandalchemy/execution_plan.py:158-171 | appends one type-change step per altered column, in dictionary order |
| ExecutionPlans.ExecutionPlan.AddDeletes | src/pandalchemy/execution_plan.py:173-186 | appends the delete step of the tracker's deletes, if any |
| ExecutionPlans.ExecutionPlan.AddUpdates | src/pandalchemy/execution_plan.py:188-245 | appends the update step of the update records, if any, or fails as the records do; on the single-key path where columns were added and no row was updated, `ks` lists every existing key once, so the update step holds a record for each existing row |
| ExecutionPlans.ExecutionPlan.BuildRecords | src/pandalchemy/execution_plan.py:196-206 | the loop builds `ChangeRecords`: one record per change, its key fields then its new data, in order (the insert loop at lines 254-263 is the same) |
| ExecutionPlans.ExecutionPlan.BuildUpdateRecords | src/pandalchemy/execution_plan.py:190-234 | the records are `UpdateRecords` for the iteration order `ks`, which lists existing keys only, each once, and every existing key on the single-key added-columns path |
| ExecutionPlans.ExecutionPlan.BuildExistingRecords | src/pandalchemy/execution_plan.py:229-234 | the loop over `existing_keys` visits every key exactly once and builds its added-column record, in the order visited |
| ExecutionPlans.ExecutionPlan.BuildAddedColumnRecord | src/pandalchemy/execution_plan.py:230-233 | the record of one existing row: its key field, then each added column the keyed data has, with the row's value |
| ExecutionPlans.ExecutionPlan.AddInserts | src/pandalchemy/execution_plan.py:247-271 | appends the insert step of the tracker's inserts, if any |
| ExecutionPlans.ExecutionPlan.BuildPlan | src/pandalchemy/execution_plan.py:84-102 | recomputes the tracker's row changes against the current data, then the steps become the sorted plan, or construction fails with the update records' error; on the single-key path where columns were added and no row was updated, `ks` lists every existing key once, so the update step holds a record for each existing row |
| ExecutionPlans.ExecutionPlan.AddAllSteps | src/pandalchemy/execution_plan.py:84-102 | the four builders and the sort, on the recomputed changes; on the single-key path where columns were added and no row was updated, `ks` lists every existing key once, so the update step holds a record for each existing row |
| ExecutionPlans.ExecutionPlan.AddSchemaAndDeletes | src/pandalchemy/execution_plan.py:89-93 | the schema steps, then the delete step, are appended |
| ExecutionPlans.ExecutionPlan.AddRowSteps | src/pandalchemy/execution_plan.py:95-99 | the update step (or the records' error), then the insert step, are appended; on the single-key path where columns were added and no row was updated, `ks` lists every existing key once, so the update step holds a record for each existing row |
| ExecutionPlans.ExecutionPlan.GetSummary | src/pandalchemy/execution_plan.py:282-304 | the total is the number of steps; each of the schema, insert, update and delete counts is the number of steps of that type, and the four add up to the total |
| ExecutionPlans.ExecutionPlan.HasChanges | src/pandalchemy/execution_plan.py:273-280 | true exactly when the summary counts some schema, insert, update or delete step |
| ExecutionPlans.ExecutionPlan.GetStepsByType | src/pandalchemy/execution_plan.py:306-316 | exactly the steps of one kind |
| ExecutionPlans.NewExecutionPlan | src/pandalchemy/execution_plan.py:71-102 | a new plan over the tracker: the tracker's row changes are the diff of the current data, and the steps are the sorted plan of the tracked changes; on the single-key path where columns were added and no row was updated, `ks` lists every existing key once, so the update step holds a record for each existing row |
| PlanReplay.UpdatesEffect | src/pandalchemy/execution_plan.py:238-245 | an update step writes each record's non-key fields over the row with its key and adds no row |
| PlanReplay.InsertsEffect | src/pandalchemy/execution_plan.py:247-271 | an insert step adds each record's non-key fields as the row with its key |
| PlanReplay.ReplaySchema | src/pandalchemy/execution_plan.py:104-171 | schema steps leave the row values as they are |
| PlanReplay.ChangeRecordDecodes | src/pandalchemy/execution_plan.py:195-206 | a change record decodes back to the change's key and carries its new data as the non-key fields |
| PlanReplay.DeletePhase | src/pandalchemy/execution_plan.py:173-186 | deleting the deleted keys from the baseline rows leaves the baseline rows of the shared keys |
| PlanReplay.OfTypeDistinct | src/pandalchemy/execution_plan.py:173-271 | the changes of one kind name each key at most once |
| PlanReplay.UpdatePhase | src/pandalchemy/execution_plan.py:188-245 | the update step turns those rows into the current rows of the shared keys |
| PlanReplay.InsertPhase | src/pandalchemy/execution_plan.py:247-271 | the insert step then adds the new keys' rows, giving all current rows |
| PlanReplay.ReplayReproducesCurrent | src/pandalchemy/execution_plan.py:84-102 | with no column added, dropped or renamed, executing the plan over the baseline's keyed rows reproduces the current keyed rows |
| PlanReplay.PlanReplaysToCurrent | src/pandalchemy/execution_plan.py:84-102 | the same for the plan built from the tracker's changes, which is built without error |
| ConflictResolution.ConflictColumns | src/pandalchemy/conflict_resolution.py:82-121 | only changed columns are reported |
| ConflictResolution.RemoteValues | src/pandalchemy/conflict_resolution.py:73-121 | `remote_changes` maps exactly the conflicting columns, in order, to the remote row's values |
| ConflictResolution.Conflicts | src/pandalchemy/conflict_resolution.py:59-130 | only keys with local changes get an entry |
| ConflictResolution.RemoteUpdates | src/pandalchemy/conflict_resolution.py:61-62 | the prefilter keeps the local changes whose key is in the remote data |
| ConflictResolution.ConflictsOfRemoteUpdates | src/pandalchemy/conflict_resolution.py:61-70 | prefiltering changes nothing, since the loop skips keys absent remotely anyway |
| ConflictResolution.RemoteUpdatesKeys | src/pandalchemy/conflict_resolution.py:61-62 | the prefilter introduces no key and repeats none |
| ConflictResolution.ConflictColumnsMeaning | src/pandalchemy/conflict_resolution.py:82-121 | a column is reported exactly when it was changed locally, exists remotely and conflicts: remote differs from the original (when known) and from the local value, two missing values being equal; each column once |
| ConflictResolution.ConflictsByKey | src/pandalchemy/conflict_resolution.py:59-130 | a key has an entry exactly when it has local changes, is still in the remote data and some changed column conflicts; the entry carries the full local changes, the remote values of the conflicting columns, and those columns |
| ConflictResolution.DetectRow | src/pandalchemy/conflict_resolution.py:72-121 | the column loop computes the conflicting columns and their remote values |
| ConflictResolution.DetectConflicts | src/pandalchemy/conflict_resolution.py:28-130 | `detect_conflicts` returns exactly the conflicts of the local changes |
| ConflictResolution.DetectStep | src/pandalchemy/conflict_resolution.py:68-128 | one pass of the row loop adds the row's conflict, if any |
| ConflictResolution.ConflictsStep | src/pandalchemy/conflict_resolution.py:68-128 | a conflicting row is written under its key, which is new |
| ConflictResolution.MergeChangesMeaning | src/pandalchemy/conflict_resolution.py:190-197 | MERGE takes the remote value of each remote column not listed as conflicting and the local value of every other column |
| ConflictResolution.MergeOfDetected | src/pandalchemy/conflict_resolution.py:190-197 | when every remote column is conflicting, MERGE gives the local changes |
| ConflictResolution.ResolvedEntries | src/pandalchemy/conflict_resolution.py:157-208 | the resolved rows have exactly the conflicts' keys, in order |
| ConflictResolution.ResolveConflicts | src/pandalchemy/conflict_resolution.py:133-208 | `resolve_conflicts` returns the resolution: empty for no conflicts, a `ConflictError` on the first row for ABORT, a `ValueError` for CUSTOM without resolver, and otherwise every row resolved |
| ConflictResolution.ResolveStep | src/pandalchemy/conflict_resolution.py:159-203 | one pass of the loop writes the row's resolved changes |
| ConflictResolution.ResolvedStep | src/pandalchemy/conflict_resolution.py:159-203 | the row's resolved changes are written under its key, which is new |
| ConflictResolution.ResolveRow | src/pandalchemy/conflict_resolution.py:164-203 | the changes one strategy keeps for one row, MERGE copying the remote columns one by one |
| ConflictResolution.ResolutionByKey | src/pandalchemy/conflict_resolution.py:157-208 | every conflicting row gets what its strategy keeps (LAST_WRITER_WINS the local changes, FIRST_WRITER_WINS none, MERGE the merge, CUSTOM the resolver's result) and no other key appears |
| ConflictResolution.ResolvedByKey | src/pandalchemy/conflict_resolution.py:157-208 | the resolved entries, key by key, with no key repeated |
| ConflictResolution.NoConflictsNothingResolved | src/pandalchemy/conflict_resolution.py:157-208 | with nothing to resolve, every strategy returns an empty result |
| ConflictResolution.AbortRaisesForFirst | src/pandalchemy/conflict_resolution.py:173-188 | ABORT raises a `ConflictError` for the first row carrying its key, table name, local and remote changes and conflicting columns |
| ConflictResolution.MergeOfDetectedConflicts | src/pandalchemy/conflict_resolution.py:190-197 | MERGE applied to a detected conflict keeps the local changes unchanged |
| Exceptions.ClassName | src/pandalchemy/exceptions.py:108-184 | the class name opening a message is non-empty and does not start with a space |
| Exceptions.NewError | src/pandalchemy/exceptions.py:32-61 | the error keeps every argument, with no affected rows meaning an empty list |
| Exceptions.FormatError | src/pandalchemy/exceptions.py:63-105 | `format_error` (and `__str__`) returns the formatted message |
| Exceptions.RenderDetails | src/pandalchemy/exceptions.py:91-99 | the details block: a header and one line per dictionary entry |
| Exceptions.ErrorLineLayout | src/pandalchemy/exceptions.py:63-101 | the header comes first, each optional line appears exactly when its field is set, in the order Table, Operation, Affected Rows, Error Code, Fix, and the details come last |
| Exceptions.ErrorLineTail | src/pandalchemy/exceptions.py:78-90 | the Affected Rows, Error Code and Fix lines sit after the Table and Operation lines, each exactly when set |
| Exceptions.AffectedLinePrefix | src/pandalchemy/exceptions.py:78-85 | the Affected Rows segment is one line opening with its label exactly when there are rows |
| Exceptions.AffectedLinesTruncated | src/pandalchemy/exceptions.py:81-84 | past five affected rows the line depends only on the row count and the first five keys |
| Exceptions.TableLinePresent | src/pandalchemy/exceptions.py:72-73 | the Table line is present exactly when a table name is set |
| Exceptions.OperationLinePresent | src/pandalchemy/exceptions.py:75-76 | the Operation line is present exactly when an operation is set |
| Exceptions.AffectedRowsLinePresent | src/pandalchemy/exceptions.py:78-85 | the Affected Rows line is present exactly when there are affected rows |
| Exceptions.ErrorCodeLinePresent | src/pandalchemy/exceptions.py:86-87 | the Error Code line is present exactly when an error code is set |
| Exceptions.FixLinePresent | src/pandalchemy/exceptions.py:89-90 | the Fix line is present exactly when a suggested fix is set |
| Exceptions.DetailsRendering | src/pandalchemy/exceptions.py:92-99 | a non-empty dictionary ends the message with a Details header and one indented line per entry, in order; another truthy object gives one Details line; anything else gives none |
| Exceptions.DetailsPresence | src/pandalchemy/exceptions.py:92-99 | a line starting with the Details label is present exactly when the details block is not empty |
| Exceptions.NewConflictError | src/pandalchemy/exceptions.py:186-217 | a conflict error: the primary key, when given, is its one affected row; missing changes and columns default to empty; the other arguments are kept |
| Exceptions.FormatConflictError | src/pandalchemy/exceptions.py:219-241 | the conflict message is the formatted one |
| Exceptions.ConflictLinesShape | src/pandalchemy/exceptions.py:219-241 | a conflict message has a Primary Key line exactly when the key is set, and never an Operation or Details line |
| PkUtils.NormalizePrimaryKey | src/pandalchemy/pk_utils.py:15-31 | a name becomes a one-element list; a list is kept as given |
| PkUtils.NormalizeIdempotent | src/pandalchemy/pk_utils.py:15-31 | normalising a normalised key changes nothing, so a key given as a name or as its normalised list is located and its values extracted alike |
| PkUtils.LocatePrimaryKey | src/pandalchemy/pk_utils.py:34-71 | the key is in the columns exactly when every key column is a data column; it is in the index exactly when a single key names the index, or a composite key's columns are all among a MultiIndex's level names |
| PkUtils.ExtractPkValues | src/pandalchemy/pk_utils.py:74-120 | the key values are read from the columns when the key is there, from the index labels otherwise, and are empty when it is in neither place |
| PkUtils.MissingColumns | src/pandalchemy/pk_utils.py:154-156 | exactly the key columns that are not data columns, in key order |
| PkUtils.SetPkAsIndex | src/pandalchemy/pk_utils.py:123-163 | `KeyError` exactly when some key column is not a data column, naming the missing ones; otherwise the key columns become the index, in key order |
| PkUtils.SetPkAsIndexKeepsKeys | src/pandalchemy/pk_utils.py:123-163 | moving the key into the index keeps its set of values, and the key is then located in the index only |
| Utils.PandasDtypeToPythonType | src/pandalchemy/utils.py:73-109 | the lower-cased dtype name is checked for "int", then "float", then "bool"; anything else, and no dtype, is `str` |
| Utils.DtypeIgnoresCase | src/pandalchemy/utils.py:96-105 | every dtype name maps to the same Python type as its lower-cased form, since the name is lower-cased before the substring checks |
| Utils.IntDtype | src/pandalchemy/utils.py:73-109 | `Int64` maps to `int` |
| Utils.FloatDtype | src/pandalchemy/utils.py:73-109 | `float64` maps to `float` |
| Utils.BoolDtype | src/pandalchemy/utils.py:73-109 | `boolean` maps to `bool` |
| Utils.ObjectDtype | src/pandalchemy/utils.py:73-109 | `object` maps to `str` |
| Utils.NormalizeSchema | src/pandalchemy/utils.py:112-133 | an empty or missing schema becomes none; any other is kept |
| Utils.GetTableReference | src/pandalchemy/utils.py:136-155 | "schema.table" when a schema is given, the bare name otherwise |
| Utils.TableReferenceNormalized | src/pandalchemy/utils.py:112-155 | normalising the schema first never changes the reference, and normalising is idempotent |
| Utils.ExtractPrimaryKeyColumn | src/pandalchemy/utils.py:171-203 | when the index holds the key (its name is the key, or its level names are all key columns) the index is moved back into the columns; otherwise the frame is unchanged |
| Utils.ExtractedKeyIsColumn | src/pandalchemy/utils.py:171-203 | after a single key is taken out of the index it is a data column |
| Utils.ValidateDataFrameForSql | src/pandalchemy/utils.py:206-225 | passes exactly when index labels and column names are unique; a repeated label is reported first |
| Utils.EmptyFramePasses | src/pandalchemy/utils.py:206-225 | an empty frame with distinct columns passes |
| Utils.ConvertRecordTypes | src/pandalchemy/utils.py:41-57 | every value converted, the keys and their order kept |
| Utils.ConvertRecordsList | src/pandalchemy/utils.py:60-70 | every record converted, in order |
| Notebooks.MarkerOf | scripts/convert_source_to_notebooks.py:20-31 | a line starts a code cell exactly when stripped it is `# %%`, and a markdown cell exactly when stripped it is `# %% [markdown]` |
| Notebooks.ScanHoldsNonMarkers | scripts/convert_source_to_notebooks.py:14-38 | while scanning, the emitted cells and the pending lines hold the non-marker lines seen so far |
| Notebooks.ScanUntyped | scripts/convert_source_to_notebooks.py:14-38 | the pending cell is untyped exactly while no marker has been seen, and then nothing was emitted |
| Notebooks.ScanTypedAfterFirst | scripts/convert_source_to_notebooks.py:14-38 | only the first emitted cell can be untyped, and only when the first line is not a marker |
| Notebooks.GroupsNonEmpty | scripts/convert_source_to_notebooks.py:22-38 | no cell is emitted without lines |
| Notebooks.GroupsHoldNonMarkers | scripts/convert_source_to_notebooks.py:9-40 | the cells hold exactly the lines that are not markers, in file order |
| Notebooks.GroupTypes | scripts/convert_source_to_notebooks.py:9-40 | only the first cell can be untyped, and only when the text does not start with a marker; a text without markers is one untyped cell |
| Notebooks.Cells | scripts/convert_source_to_notebooks.py:9-40 | one JSON cell per group, in order |
| Notebooks.ParseSourceFile | scripts/convert_source_to_notebooks.py:9-40 | the line loop emits the cells of the groups, in order |
| Notebooks.CleanLineStripsPrefix | scripts/convert_source_to_notebooks.py:66-74 | a markdown line loses exactly one of the prefixes "# ", "#" or nothing |
| Notebooks.SourceLines | scripts/convert_source_to_notebooks.py:55-63 | one source element per line of the stripped text |
| Notebooks.CreateCell | scripts/convert_source_to_notebooks.py:43-85 | the cell is built key by key and the markdown lines are cleaned in a loop, giving the cell of the group |
| Notebooks.SourceRoundTrip | scripts/convert_source_to_notebooks.py:55-81 | joining `source` gives the stripped cell text back; every element but the last ends in a newline, and the last holds none |
| Notebooks.EmptySourceIffBlank | scripts/convert_source_to_notebooks.py:56-83 | `source` is empty exactly when the text is all whitespace |
| Notebooks.CellHeader | scripts/convert_source_to_notebooks.py:45-48 | every cell starts with its `cell_type` and an empty `metadata` |
| Notebooks.CodeCellShape | scripts/convert_source_to_notebooks.py:50-63 | a code cell's keys are `cell_type`, `metadata`, `execution_count` (null), `outputs` (empty) and `source`, in that order |
| Notebooks.CodeCellSource | scripts/convert_source_to_notebooks.py:55-63 | a code cell carries its `source` |
| Notebooks.MarkdownCellShape | scripts/convert_source_to_notebooks.py:65-83 | a markdown cell holds only `cell_type`, `metadata` and its `source` |
| Notebooks.NotebookFields | scripts/convert_source_to_notebooks.py:92-115 | the notebook object holds `cells`, `metadata`, `nbformat` 4 and `nbformat_minor` 4, in that order |
| Notebooks.PythonToNotebook | scripts/convert_source_to_notebooks.py:88-115 | the notebook written around the parsed cells: its keys in order, format 4.4, the Python 3 kernel metadata and the cells of the text |
| TableKeys.KeyShapeError | src/pandalchemy/tracked_dataframe.py:485-543 | a composite key needs a tuple with one value per key column, or raises `ValueError` |
| TableKeys.PkMask | src/pandalchemy/tracked_dataframe.py:485-543 | the mask has one entry per row, true exactly for the rows carrying the key value; it fails exactly on a malformed composite value |
| TableKeys.PkCondition | src/pandalchemy/tracked_dataframe.py:485-543 | the column-by-column conjunction of a composite key gives the row mask |
| TableKeys.GetRow | src/pandalchemy/tracked_dataframe.py:1323-1339 | the record of the first row carrying the key, or nothing |
| TableKeys.RowExists | src/pandalchemy/tracked_dataframe.py:1341-1354 | true exactly when some row carries the key; a malformed composite value raises |
| TableKeys.RowLookupMeaning | src/pandalchemy/tracked_dataframe.py:1323-1354 | `get_row` finds a record exactly when `row_exists` holds, and it is the first matching row's record, with every column |
| TableKeys.MaskFindsExtractedKeys | src/pandalchemy/tracked_dataframe.py:485-543 | some row matches a complete key value exactly when that value is among the key values `extract_pk_values` reports |
| TableKeys.MissingKeyColumns | src/pandalchemy/tracked_dataframe.py:561-575 | exactly the key columns that are neither columns nor index levels, in key order |
| TableKeys.FindMissingKeyColumns | src/pandalchemy/tracked_dataframe.py:561-575 | the loop opening `validate_primary_key` finds the missing key columns |
| TableKeys.FirstNullError | src/pandalchemy/tracked_dataframe.py:578-599 | no null error exactly when no key column has one |
| TableKeys.ValidatePrimaryKey | src/pandalchemy/tracked_dataframe.py:545-631 | the loops compute the check: missing columns, then nulls, then duplicates |
| TableKeys.NullErrorMeaning | src/pandalchemy/tracked_dataframe.py:578-599 | a placed key column has a null exactly when some row key has a null there |
| TableKeys.DuplicateErrorMeaning | src/pandalchemy/tracked_dataframe.py:602-629 | the duplicate check fails exactly when two row keys coincide |
| TableKeys.PrimaryKeyCheckMeaning | src/pandalchemy/tracked_dataframe.py:545-631 | `validate_primary_key` succeeds exactly when the row keys are all present and pairwise distinct |
| TableKeys.NullIssues | src/pandalchemy/tracked_dataframe.py:658-678 | no null findings exactly when no key column has one |
| TableKeys.ValidatePkIntegrity | src/pandalchemy/tracked_dataframe.py:633-710 | the loop returns the first finding when raising, and every finding otherwise |
| TableKeys.IntegrityModesAgree | src/pandalchemy/tracked_dataframe.py:633-710 | the raising mode fails exactly when the collecting mode lists something, and then with its first finding |
| TableKeys.NullIssueMatchesNullError | src/pandalchemy/tracked_dataframe.py:658-678 | a placed key's null finding is the one `validate_primary_key` reports |
| TableKeys.IntegrityMatchesPrimaryKeyCheck | src/pandalchemy/tracked_dataframe.py:545-710 | the integrity check finds nothing exactly when `validate_primary_key` accepts the table, that is, when the row keys are present and distinct |
| TableKeys.ValidateData | src/pandalchemy/tracked_dataframe.py:712-747 | the loop collects dropped key columns, integrity findings and duplicate column names |
| TableKeys.ValidationErrorsMeaning | src/pandalchemy/tracked_dataframe.py:712-747 | `validate_data` reports nothing exactly when the row keys are present and distinct and no column name repeats |
| TableKeys.DroppedKeyReported | src/pandalchemy/tracked_dataframe.py:726-737 | a dropped key column is always reported, and `validate_primary_key` raises a `SchemaError` for it |
| TableKeys.MaxInt | src/pandalchemy/tracked_dataframe.py:1686-1698 | the maximum of the local integer keys is one of them and bounds them all |
| TableKeys.NextPk | src/pandalchemy/tracked_dataframe.py:1666-1731 | fails exactly for a composite key or a non-integer local key; otherwise one more than the larger of the database maximum and the local keys |
| TableKeys.NextPkFresh | src/pandalchemy/tracked_dataframe.py:1666-1731 | a generated key is above the database maximum and above every local key, so it is fresh |
| TableKeys.NextPkStartsAtOne | src/pandalchemy/tracked_dataframe.py:1666-1731 | an empty table with no database rows starts at 1 |
| TableChecks.FillKey | src/pandalchemy/tracked_dataframe.py:887-910 | a row with every key field passes unchanged; a missing key is generated, and the row accepted, exactly when auto-increment is on, the key has one column and a next value exists; afterwards every key field is present and the given fields are kept; every failure is a `DataValidationError` |
| TableChecks.FirstNullField | src/pandalchemy/tracked_dataframe.py:912-919 | the first key field that is missing or null, if any |
| TableChecks.AddRowCheck | src/pandalchemy/tracked_dataframe.py:887-946 | a row is accepted exactly when its key can be completed, no key field is null and (when validating) the key is not taken; the accepted row is the completed one, keeps the given fields and has every key field non-null; a rejection is the error of the first check that fails, in the order completion, null field, uniqueness (freshness is `AddedKeyFresh`) |
| TableChecks.AddedKeyFresh | src/pandalchemy/tracked_dataframe.py:921-946 | a row that passed the uniqueness check carries a key no existing row carries |
| TableChecks.AddedRowIsFound | src/pandalchemy/tracked_dataframe.py:863-971 | after a checked `add_row`, `get_row` of the new key returns the new row's record |
| TableChecks.AutoIncrementFillsNextKey | src/pandalchemy/tracked_dataframe.py:895-900 | with auto-increment on a single key the row gets the generated key, which is above every key the table holds |
| TableKeys.NextPkAfterGenerated | src/pandalchemy/tracked_dataframe.py:1666-1731 | once the generated key is the last key the generator reads, after the keys it read before, it yields that key plus one |
| TableChecks.KeyValuesAppended | src/pandalchemy/tracked_dataframe.py:948-969 | appending a row whose key is `k` makes the key readable and adds exactly `k` after the key values read before |
| TableChecks.AutoIncrementConsecutive | src/pandalchemy/tracked_dataframe.py:1666-1731 | once the row with a generated key is appended, the generator yields the next integer, so successive auto-increments give consecutive keys |
| TableChecks.AppendGeneratedKey | src/pandalchemy/tracked_dataframe.py:1705-1729 | once a row carrying the generated key is appended, the generator yields the next integer |
| TableChecks.SelectRow | src/pandalchemy/tracked_dataframe.py:1010-1015 | the mask of the rows carrying the key, which has a true entry; `ValueError` when no row carries it |
| TableChecks.UpdateRowCheck | src/pandalchemy/tracked_dataframe.py:1003-1015 | accepted exactly when no key column is among the updates, the key value is well-formed and some row carries it; assigning a key column raises the immutable-key error first; the mask selects exactly the rows carrying the key |
| TableChecks.UpdateRowEffect | src/pandalchemy/tracked_dataframe.py:973-1022 | exactly the rows carrying the key change: each updated column takes its new value, every other cell and row is unchanged |
| TableChecks.UpdateMatchedRows | src/pandalchemy/tracked_dataframe.py:1017-1022 | under the mask of the rows carrying a key, each updated column takes its new value in those rows, every other cell and row is unchanged |
| TableChecks.UpdatesKeepKeys | src/pandalchemy/tracked_dataframe.py:973-1114 | neither `update_row` nor `update_where` changes which rows carry a key |
| TableChecks.FirstAbsentColumn | src/pandalchemy/tracked_dataframe.py:1097-1099 | the first assigned name that is not a column, if any |
| TableChecks.GivenUpdates | src/pandalchemy/tracked_dataframe.py:1074-1081 | the shorthand form is accepted exactly when a column is given with a single value, and expands to one assignment |
| TableChecks.CheckAssignments | src/pandalchemy/tracked_dataframe.py:1083-1099 | accepted exactly when no key column is assigned and every assigned column exists |
| TableChecks.UpdateWhereCheck | src/pandalchemy/tracked_dataframe.py:1074-1099 | accepted exactly when the updates are given well, assign no key column and name only existing columns; a malformed `updates`/`column` pair is reported before the other checks; the result is the assignments to apply |
| TableChecks.UpdateWhereEffect | src/pandalchemy/tracked_dataframe.py:1024-1114 | exactly the selected rows change: each assigned column takes the assignment applied to its old cell; the column list is unchanged |
| TableChecks.DeleteRowEffect | src/pandalchemy/tracked_dataframe.py:1116-1150 | at least one row is removed and afterwards no row carries the key |
| TableChecks.UpsertFindsKey | src/pandalchemy/tracked_dataframe.py:1205-1242 | after a successful upsert some row carries the key, with every other field as given |
| TableChecks.UpsertUpdates | src/pandalchemy/tracked_dataframe.py:1236-1239 | on the update path the selected row keeps its key and takes the other fields |
| TableChecks.UpsertAdds | src/pandalchemy/tracked_dataframe.py:1240-1242 | on the insert path the appended row carries the key and every other field |
| TableChecks.FirstIncompleteRow | src/pandalchemy/tracked_dataframe.py:1262-1268 | the first row lacking a key field, if any |
| TableChecks.BulkInsertCheck | src/pandalchemy/tracked_dataframe.py:1256-1302 | accepted exactly when every row has every key column, no key repeats among the rows and a single key takes no value already in the table; a rejection is the `DataValidationError` of the first failing check, in that order, the conflict error listing the conflicting values |
| TableChecks.FirstAppearances | src/pandalchemy/tracked_dataframe.py:1297-1301 | the listed values are exactly the kept values of the sequence, each once |
| TableChecks.KeyConflicts | src/pandalchemy/tracked_dataframe.py:1288-1297 | the listed values are exactly the new key values the table already holds, each once |
| TableChecks.KeyConflictsEmpty | src/pandalchemy/tracked_dataframe.py:1297-1298 | no conflict is listed exactly when the existing and new key values are disjoint |
| TableChecks.IncompleteRowError | src/pandalchemy/tracked_dataframe.py:1262-1268 | the error for a row lacking key columns is a `DataValidationError` |
| TableChecks.BulkDuplicateError | src/pandalchemy/tracked_dataframe.py:1270-1283 | the error for a repeated new key is a `DataValidationError` |
| TableChecks.BulkConflictError | src/pandalchemy/tracked_dataframe.py:1298-1302 | the error for a taken key is a `DataValidationError` |
| TableChecks.BulkKeysDistinct | src/pandalchemy/tracked_dataframe.py:1270-1283 | rows that pass the checks carry pairwise distinct keys |
| TableChecks.BulkKeysFresh | src/pandalchemy/tracked_dataframe.py:1285-1302 | a single key that passes the checks is carried by no existing row |
| TableChecks.RenameCheck | src/pandalchemy/tracked_dataframe.py:1424-1435 | a rename is accepted exactly when the old name is a column and the new one is not |
| TableChecks.RenameKeyValid | src/pandalchemy/tracked_dataframe.py:1440-1448 | renaming a key column keeps a valid key valid and keeps its length |
| TableChecks.SetKeyCheck | src/pandalchemy/tracked_dataframe.py:803-815 | accepted exactly when every key column exists and, when validating, the key has no integrity finding; a missing column raises `SchemaError` before any integrity check, whose failure is the `DataValidationError` of the first finding |
| TableChecks.MissingColumnsEmpty | src/pandalchemy/tracked_dataframe.py:803-809 | no key column is missing exactly when every key column is a data column |
| TableChecks.KeyedFrameEffect | src/pandalchemy/tracked_dataframe.py:825-830 | setting a present key as the index fails only when resetting a named index would clash with a column; it then labels every row with its key, in order |
| TableChecks.KeyedKeyPlaced | src/pandalchemy/tracked_dataframe.py:825-830 | a key that can be set as the index is then located in the index only |
| TableChecks.ValidatedKeyIndexed | src/pandalchemy/tracked_dataframe.py:813-830 | a key that passed the integrity check is, once set as the index, free of nulls and distinct from row to row |
| TableEdits.SameLayoutSameMatches | src/pandalchemy/tracked_dataframe.py:485-543 | frames with the same index names and columns read keys from the same place |
| TableEdits.FieldsKey | src/pandalchemy/tracked_dataframe.py:922-938 | the key fields of a row, in key order |
| TableEdits.FieldsPkValue | src/pandalchemy/tracked_dataframe.py:1228-1231 | a row names a scalar key for one key column and a tuple otherwise, whose components are its key fields |
| TableEdits.MissingFields | src/pandalchemy/tracked_dataframe.py:892-893 | exactly the key columns the row lacks |
| TableEdits.PresentFields | src/pandalchemy/tracked_dataframe.py:1003 | exactly the key columns the updates assign |
| TableEdits.PresentFieldsEmpty | src/pandalchemy/tracked_dataframe.py:1003-1008 | no key column is listed exactly when the updates assign none |
| TableEdits.AppendRecord | src/pandalchemy/tracked_dataframe.py:950-969 | one row is appended; the existing rows' cells are kept and every existing column stays |
| TableEdits.AppendedRow | src/pandalchemy/tracked_dataframe.py:950-969 | the new row carries every field of the row data, less the key fields when the key is the index, where they form its label; existing labels are kept when the key is the index |
| TableEdits.AppendPlaced | src/pandalchemy/tracked_dataframe.py:950-969 | appending a row keeps the table's layout |
| TableEdits.AppendedRowFound | src/pandalchemy/tracked_dataframe.py:950-971 | after `add_row` the new row carries its key, and each earlier row carries it exactly when it did before |
| TableEdits.Constants | src/pandalchemy/tracked_dataframe.py:1019-1021 | a dictionary of plain values becomes one constant assignment per entry, keys kept |
| TableEdits.SetWhere | src/pandalchemy/tracked_dataframe.py:1105-1112 | one column assigned on the selected rows: index, labels and row count kept, a new column goes last |
| TableEdits.AssignAll | src/pandalchemy/tracked_dataframe.py:1105-1112 | every assignment applied in order keeps the index, labels and row count, and leaves unselected rows and unassigned columns alone |
| TableEdits.AssignAllSets | src/pandalchemy/tracked_dataframe.py:1105-1112 | with distinct columns, each selected row's assigned cell is the assignment applied to its old cell |
| TableEdits.AssignKeepsMatches | src/pandalchemy/tracked_dataframe.py:1087-1114 | assignments that leave the key columns alone leave the key matches alone |
| TableEdits.AssignPlaced | src/pandalchemy/tracked_dataframe.py:1105-1112 | assigning cells keeps the table's layout |
| TableEdits.DeleteMatching | src/pandalchemy/tracked_dataframe.py:1190-1198 | the rows of the mask are removed; the index is kept when the key is the index, otherwise the rows are renumbered |
| TableEdits.DeleteCount | src/pandalchemy/tracked_dataframe.py:1186-1203 | the row count drops by the number selected, and the unselected rows' cells are kept in order |
| TableEdits.DeletePlaced | src/pandalchemy/tracked_dataframe.py:1190-1198 | deleting keeps the table's layout |
| TableEdits.DeletedKeyGone | src/pandalchemy/tracked_dataframe.py:1116-1150 | after `delete_row` no row carries the key |
| TableEdits.AllFields | src/pandalchemy/tracked_dataframe.py:1271 | the columns of the new rows are exactly the fields some row has, in order of first appearance |
| TableEdits.RowsFrame | src/pandalchemy/tracked_dataframe.py:1271 | one positional row per dictionary, a field a row lacks read as missing |
| TableEdits.BulkAppend | src/pandalchemy/tracked_dataframe.py:1304-1317 | the new rows are appended after the table's, whose cells are kept |
| TableEdits.BulkPlaced | src/pandalchemy/tracked_dataframe.py:1304-1317 | appending rows in bulk keeps the table's layout |
| TableEdits.BulkRowsFound | src/pandalchemy/tracked_dataframe.py:1244-1319 | after `bulk_insert` each new row carries its key, and each earlier row carries a key exactly when it did before |
| TableEdits.AddColumn | src/pandalchemy/tracked_dataframe.py:1382-1386 | a new last column holds the default in every row; everything else is kept |
| TableEdits.DropColumn | src/pandalchemy/tracked_dataframe.py:1408 | the column leaves the column list and every row; everything else is kept |
| TableEdits.RenameColumn | src/pandalchemy/tracked_dataframe.py:1437 | the column is renamed in the list and in every row; the index is untouched |
| TableEdits.RenameKey | src/pandalchemy/tracked_dataframe.py:1440-1448 | the key follows a renamed key column |
| TableEdits.DropUndoesAdd | src/pandalchemy/tracked_dataframe.py:1356-1409 | dropping a column just added gives the table back |
| TableEdits.RenameRoundTrip | src/pandalchemy/tracked_dataframe.py:1411-1448 | renaming a column to a fresh name and back gives the table back |
| TableEdits.RenameKeepsRowKeys | src/pandalchemy/tracked_dataframe.py:1411-1448 | a renamed key column still yields every row's key under the renamed key |
| TrackedDataFrames.InferKey | src/pandalchemy/tracked_dataframe.py:185-193 | the inferred key is valid; it is composite exactly for a MultiIndex, made of its named levels (or `id` when none is named); a named flat index gives its name, any other index `id` |
| TrackedDataFrames.ChosenKey | src/pandalchemy/tracked_dataframe.py:185-193 | the key given, or the inferred one, is valid |
| TrackedDataFrames.PlaceKeyIndexes | src/pandalchemy/tracked_dataframe.py:199-209 | a key found among the columns becomes the index, each row labelled by its key, the layout kept; a key not found there leaves the frame as given |
| TrackedDataFrames.AddColumnPlaced | src/pandalchemy/tracked_dataframe.py:1356-1387 | adding a column keeps the table's layout |
| TrackedDataFrames.DropColumnPlaced | src/pandalchemy/tracked_dataframe.py:1389-1409 | dropping a column keeps the table's layout |
| TrackedDataFrames.RenameColumnPlaced | src/pandalchemy/tracked_dataframe.py:1411-1448 | renaming a column, and the key with it, keeps the table's layout |
| TrackedDataFrames.AssignEach | src/pandalchemy/tracked_dataframe.py:1105-1112 | the assignment loop applies each assignment in turn to the selected rows |
| TrackedDataFrames.TableDataFrame.constructor | src/pandalchemy/tracked_dataframe.py:112-215 | the key is the one given or inferred, moved into the index when it sits among the columns; a fresh tracker takes the result as its baseline |
| TrackedDataFrames.TableDataFrame.GetNextPkValue | src/pandalchemy/tracked_dataframe.py:837-861 | fails exactly for a database-backed table without auto-increment, a composite key or a non-integer key; otherwise the value is above every key the table holds and the database maximum |
| TrackedDataFrames.TableDataFrame.AssignIndex | src/pandalchemy/tracked_dataframe.py:401-418 | assigning the index always raises `DataValidationError`, naming the operation and the attempted value |
| TrackedDataFrames.TableDataFrame.ReplaceData | src/pandalchemy/tracked_dataframe.py:971 | the data becomes the edited frame and the row changes are recomputed against the baseline |
| TrackedDataFrames.TableDataFrame.LogAndReplace | src/pandalchemy/tracked_dataframe.py:1017-1021 | the call is appended to the log, the data becomes the edited frame and the row changes are recomputed; nothing else changes |
| TrackedDataFrames.TableDataFrame.AddRow | src/pandalchemy/tracked_dataframe.py:863-971 | the checks of `AddRowCheck`; on success the filled-in row is logged and appended, the row changes recomputed; on failure nothing changes |
| TrackedDataFrames.TableDataFrame.UpdateRow | src/pandalchemy/tracked_dataframe.py:973-1022 | no key column may be updated and some row must carry the key; every row carrying it then takes the new values, logged and tracked; on failure nothing changes |
| TrackedDataFrames.TableDataFrame.UpdateWhere | src/pandalchemy/tracked_dataframe.py:1024-1114 | the assignments must leave the key alone and name existing columns; they are then applied to the selected rows in order, logged and tracked |
| TrackedDataFrames.TableDataFrame.DeleteRow | src/pandalchemy/tracked_dataframe.py:1116-1150 | some row must carry the key; every row carrying it is removed, logged and tracked |
| TrackedDataFrames.TableDataFrame.DeleteWhere | src/pandalchemy/tracked_dataframe.py:1152-1203 | the selected rows are removed and their number returned |
| TrackedDataFrames.TableDataFrame.UpsertRow | src/pandalchemy/tracked_dataframe.py:1205-1242 | every key column must be given; an existing key's row takes the other fields through `update_row`, a new key is added through `add_row` |
| TrackedDataFrames.TableDataFrame.BulkInsert | src/pandalchemy/tracked_dataframe.py:1244-1321 | nothing happens for no rows; otherwise the rows pass `BulkInsertCheck` and are appended together, logged and tracked |
| TrackedDataFrames.TableDataFrame.AddColumnWithDefault | src/pandalchemy/tracked_dataframe.py:1356-1387 | an existing name raises `SchemaError` and changes nothing; otherwise the call is logged and a new column holds the default, cast when a dtype is given, in every row; a failed cast raises its error and leaves the column uncast and unrecorded; on success the addition is recorded with the intended bookkeeping of `TrackColumnAddition` |
| TrackedDataFrames.TableDataFrame.DropColumnSafe | src/pandalchemy/tracked_dataframe.py:1389-1409 | a missing column raises `SchemaError`; otherwise the column is removed and recorded as dropped |
| TrackedDataFrames.TableDataFrame.RenameColumnSafe | src/pandalchemy/tracked_dataframe.py:1411-1448 | an existing column takes a name no column has; the rename is recorded, and a key naming the column follows it in the table and the tracker |
| TrackedDataFrames.TableDataFrame.SetPrimaryKey | src/pandalchemy/tracked_dataframe.py:778-835 | the new key columns must exist and pass the integrity check when validating; the key is switched, a named index reset into the columns, and the key becomes the index, logged; a reset clash fails after the switch |

## Left out

- Database I/O: `push`, `_push_with_connection`, `pull` and the SQL execution layer (`sql_operations.py` is not part of this model). The database's maximum key, queried in `_generate_next_pk` (src/pandalchemy/tracked_dataframe.py:1705-1729), is the parameter `dbMax`; 0 stands for no engine, no table or no row.
- `PlanReplay` is a model of what the database does with the plan's steps, not of `sql_operations.py`. The replay theorem covers plans with no column added, dropped or renamed.
- The dynamic `__getattr__`/`__setattr__` delegation, the item and property accessors, the `columns` setter, `copy`, `to_pandas`, the `__repr__`/`__str__` methods and the `Tracked*Indexer` wrappers: pandas reflection and dispatch.
- `change_column_type`: the `astype` conversion is pandas dtype machinery. Only `ChangeTracker.track_column_type_change` is modelled.
- `TrackedDataFrames.TableDataFrame.constructor`: `prepare_primary_key_for_table_creation` (utils.py) is not part of this model. The constructor requires a frame whose key fits its index, which that helper would otherwise establish.
- `TrackedDataFrames.TableDataFrame.SetPrimaryKey`: requires a well-formed key, i.e. a composite key with at least one column. An empty key list is not modelled.
- `TrackedDataFrames.TableDataFrame.UpdateWhere` and `DeleteWhere`: require a mask with one entry per row. pandas' alignment of a mis-sized or differently indexed condition is not modelled.
- Cell values are `Null`, integers, strings and booleans. Floats, NaN identity, dtype inference and cross-type numeric equality are not modelled. `Null` stands for both `None` and NaN.
- `Utils.ConvertValue`: numpy's `.item()` is foreign code, so the conversion is the identity on model values.
- `Operation.timestamp`: the wall clock is not modelled, and neither are keyword arguments to `record_operation`.
- `compute_row_changes`' fallback for a comparison that raises (src/pandalchemy/change_tracker.py:286-293): model values always compare.
- Python set iteration order: where the source loops over a set (dropped or added columns, diff keys), the model takes the order as a parameter or picks elements with `:|`. Its results are stated for every order.
- `TrackedDataFrames.TableDataFrame.AddRow`: the key that auto-increment writes into the caller's `row_data` dict is not visible to the caller. Value semantics make the argument immutable.
- `.loc` row lookups return the first matching row. Duplicate keys are ruled out by `validate_primary_key`, not by the model's types.
- Notebook file reading and writing, JSON serialisation and `main` in scripts/convert_source_to_notebooks.py. Only the string-to-cells logic and the notebook dictionary are modelled.
- `Text.ListRepr` and `Values.KeyReprs` approximate Python's `repr` of lists and tuples of the model's values.
- `TableChecks.BulkInsertCheck`: the conflicting values are listed in the order the new rows first give them, where Python lists a set in hash order, and as plain values where pandas gives numpy scalars.
- `ChangeTracking.ChangeTracker.TrackColumnAddition` implements the intended bookkeeping, in which a re-added column is no longer dropped, not the code as written; the discrepancy is under Findings.
- `TrackedDataFrames.TableDataFrame.AddColumnWithDefault` records the addition through `TrackColumnAddition`, so it uses the intended bookkeeping too. `cast` stands for what pandas' `astype(dtype)` makes of the default; the dtype machinery itself is not modelled.
- `TableKeys.PkMask`: a tuple value given for a single-column key matches no row, and a composite value of the wrong length is an error. pandas' broadcasting of a sequence against one column is not modelled.

## Findings

| source | as written | input that shows it | evidently intended | confidence | as-written member | corrected member |
|---|---|---|---|---|---|---|
| src/pandalchemy/change_tracker.py:122-132 | `track_column_addition` discards the name from `dropped_columns` only when it is not a baseline column, yet only baseline columns are ever dropped | baseline columns {"email"}, dropped {"email"}; `track_column_addition("email")` leaves "email" dropped and not added, so the plan still drops the re-added column | a re-added column is no longer dropped (the comment at line 131 says so) | not executed | ChangeTracking.AfterAdditionAsWritten, ChangeTracking.ReaddedBaselineStaysDropped | ChangeTracking.AfterAddition (used by ChangeTracking.ChangeTracker.TrackColumnAddition; see ChangeTracking.DropThenReaddLeavesNoTrace) |
