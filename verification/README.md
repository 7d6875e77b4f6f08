# Verified model of PolyDB's schema sync and its data-plane helpers

A Dafny model of the parts of PolyDB where a wrong branch changes a user's data: the Compare & Sync
engine that turns two schema snapshots into a migration script and its rollback, and the caches, codecs and
layout code around the result grid. Every source file that works by loops over updated state is modelled by
methods and classes in that form; each is proved equal to a function of its inputs, and the theorems are about
those functions. Run `dafny verify dfyconfig.toml` in this directory.

## How the files fit together

**Compare & Sync** (`go/pkg/schemadiff`).

- `Text`, `Sequences`: byte-wise text, stable sorting, and the two-sided comparison every level of the diff runs.
- `Normalize`, `TypeNames`: the normal forms of defaults and types, with the scanning loops that compute them; `TypeRules`:
  which types compare equal, read off their words and sizes.
- `Graph`: the dependency search and the cycle search between new tables.
- `Snapshot`, `Plan`, `PlanOrder`, `Mirror`, `PlanIds`: the comparison as a function, its order, its ids and the mirror law.
- `PlanMeaning`: what a plan's ids, ticks, flags and order say about the two snapshots.
- `Generator`: the loops of the comparison, proved equal to that function.
- `Script`, `Emitter`: entries to statements, first as functions, then as the loops that build the script. `TableText`: the order
  inside a statement. `RebuildRules`: which tables are rebuilt. `Marks`: what each statement is marked with.
- `Defaults`: the DEFAULT clauses SQLite takes, what a clause still denotes once the generator has written it, and which defaults
  compare equal.
- `Database`: an abstract SQLite database (tables with columns, key, UNIQUE lists, indexes, foreign keys and rows, and
  the tables each view reads) and what each generated statement does to it, refusals included: DROP TABLE under
  enforcement deletes first, with CASCADE, SET NULL, SET DEFAULT and RESTRICT, and counts violations row by row. SQL text
  is represented by its structure, defaults by their text.
- `Obstructions`: which statements an index name or a view stands in the way of, read off the script and the catalog.
- `Locality`, `Runs`: a script acts on one table at a time, so a run splits into one run per table; a rebuild's RENAME
  reaches the foreign keys of the others.
- `WellFormed`, `Shape`, `Agreement`, `InPlace`, `InPlaceRuns`, `InPlaceEnd`: tables rebuilt and tables changed in place.
- `ScriptUnits`, `PlanUnits`, `TableRuns`, `Convergence`, `FullScript`, `Rollback`: from the emitted script back to those runs.
- `Drops`, `Sparing`, `PlainDrops`: dropping tables under enforcement, and why the drops may be taken first.
- `AutoIndexes`: the names SQLite gives its own indexes, and tables named alike.
- `SyncTheorems`, `Recomparison`, `Coverage`, `DataLoss`: the results. `Counterexamples`, `MoreCounterexamples`,
  `RenumberedIndexes`: concrete inputs.

**Edit queue** (`go/pkg/changes/changes.go`): `Queue` (the class), `QueueLaws` (runs of operations),
`QueuePending` (pending cells), `QueueInserts` (pending inserts and deletes, undo).
**Result grid** (`go/internal/tui/tableview.go`): `Layout` (widths and scrolling), `Widths` (the two width caches).
**Completion cache** (`go/internal/tui/app_schema.go`): `Completion` (the locked sections), `CompletionRuns` (all interleavings).
**Scalar codec** (`go/pkg/protocol`): `JsonStrings`, `JsonEscapes` (every escape, read and written), `JsonNumbers`, `Msgpack`.
**Plan tree** (`go/pkg/explain/explain.go`): `PlanTree`, `PlanForest`.
**Search** (`go/internal/tuidata/search.go`, `go/pkg/dbcore/browse.go`): `Search`, `Like`.

## Main results

1. Convergence. For every well-formed pair of snapshots and every database of the source schema, the script of the
   whole plan is generated if and only if no column added in place, either way, has the default `x'` or `X'`. It runs to the
   end if and only if no index has the temporary name of a table when that table is rebuilt, no view stands in the way, no
   DROP TABLE is refused, SQLite takes the DEFAULT clause of every column the script declares, and what the drops leave
   meets the target's constraints. The schema it leaves is the target's if and only if no new table has a user index, no
   table changed in place differs in its primary key, and no foreign key names the temporary table of a rebuild made when
   or after its own table was declared. Where no key into a dropped table acts on delete, the drops succeed if and only if
   something is rebuilt, enforcement is off, or SQLite's count of violations comes out even for every dropped table; where
   every reference finds its row, that is: if no dropped table is still referred to by rows of another when its turn comes.
2. Rollback and comparing again. The rollback of such a run is subject to the same conditions the other way round, and
   restores the source schema if and only if no dropped table had a user index and no foreign key strays. A plan is empty if
   and only if both snapshots describe one database under the same names; after a converging script that is so if and only
   if every table created or rebuilt has its own indexes, in the target, under the numbers SQLite gives them anew.
3. No silent loss. A selection whose forward script has no irreversible statement loses no table, column, row or value; and a
   statement, forward or back, is marked irreversible if and only if an id it carries is of a table or column only the one side
   has, or of a column whose normalised type or nullability differs.
4. The plan, exactly: an id is in it if and only if one side has something the other lacks, or a shared column differs; an entry is
   destructive if and only if it takes something of the source away, and ticked if and only if it is not, or destructive ones were
   asked for; a table is rebuilt if and only if it has a change SQLite cannot make in place. Coverage: in the emitted script each
   selected id is on one run of consecutive statements and nowhere else. Mirror law, creation order with exact cycle detection,
   distinct ids, temporary names free of tables and views.
5. The edit queue, read as pending cells, holds exactly the cells whose last value differs from the original row; a pending insert
   gives every column the last value set in it, whatever else is edited, inserted or deleted meanwhile.
6. Cached widths, cached searches and the memoised completion schema equal what a fresh computation gives after any history.
7. The scalar codec round-trips strings and integers, with the exact inputs on which it does not, and reads every escape of JSON,
   surrogate pairs included, as the RFC says. Quoted defaults compare equal if and only if what is written for them denotes the
   same string.

Where the code falls short of its own promise:

- A new table's indexes are never created and the plan has no entry for them (`ddl.go:664-674`); the same way a
  rollback loses the indexes of a dropped table: `Counterexamples.CreatedIndexLost`, `Counterexamples.DroppedIndexLost`.
- The comparison sees a primary key only through an index flagged primary, which SQLite does not report for an
  INTEGER PRIMARY KEY: `Counterexamples.PrimaryKeyUnseen`.
- SQLite reports an expression default without its parentheses, and the generator writes it as reported
  (`ddl.go:291-297`, `ddl.go:385-398`): a table or column with `DEFAULT (datetime('now'))` cannot be created, rebuilt or added:
  `Counterexamples.DefaultRefused`. Folding white space reaches inside quoted defaults: `Defaults.BlanksLost`.
- The comparison matches SQLite's own indexes by name, and SQLite numbers them by declaration; the generated CREATE TABLE
  declares the key first and then the UNIQUE lists by name, so the next comparison may differ again and for ever:
  `RenumberedIndexes.AutoIndexRenumbered`.
- The temporary-name search (`ddl.go:602-608`) does not avoid index names: with an index `polydb_tmp_t` the rebuild of
  `t` is refused at its first statement (`Counterexamples.TmpIndexRefused`). Nor does it avoid what foreign keys name: one that
  names `polydb_tmp_t` names `t` after the rebuild (`Counterexamples.ForeignKeyStrays`).
- Drops are ordered by name only, and enforcement is turned off only when something is rebuilt: dropping a parent before
  its child is refused while a row refers to it (`MoreCounterexamples.ParentDropRefused`).
- `isConstantDefault` (`ddl.go:309-342`) slices out of range on the default `x'`, which SQLite never reports but a snapshot written by
  hand may have, so generation panics for a column added in place with it: `MoreCounterexamples.StubPanicked`.
- Index signatures are joined by commas, so an index on the column `a,b` and one on `a` and `b` compare equal:
  `MoreCounterexamples.CommaUnseen`.
- A cell width of 2^32 columns or more would be stored truncated: `Widths.StoredBack`. The minus-zero literal comes back as
  `0`: `Msgpack.IntRoundTrip`. A string of 2^32 bytes or more gets a frame its own reader declines: `Msgpack.StringFrameRoundTrip`.

## Model

| member | source | states |
|---|---|---|
| SyncTheorems.Converges | go/pkg/schemadiff/ddl.go:730-825 | on any database of the source schema: the whole plan's script is generated iff no in-place column added either way has the default on which generation panics; it runs to the end iff no index or view obstructs it, no DROP TABLE is refused, SQLite takes the DEFAULT clause of every column of a created or rebuilt table and of every added one, and what the drops leave fits; every row is then carried over, and the schema is the target's iff no created table has a user index, no in-place table changes its primary key and no foreign key names a later rebuild's temporary table |
| PlainDrops.ConvergesPlainly | go/pkg/schemadiff/ddl.go:816-825 | where no foreign key into a dropped table acts on delete: the script runs iff nothing obstructs it, SQLite takes its DEFAULT clauses, the source's own data fits, and something is rebuilt, or enforcement is off, or for each dropped table in turn SQLite's count of violations comes out even |
| PlainDrops.RefusedPlainly | go/pkg/schemadiff/schemadiff.go:488-490 | where every reference finds exactly one row, the count is uneven for some dropped table iff some dropped table is still referred to, in the source database, when its turn comes |
| SyncTheorems.RollsBack | go/pkg/schemadiff/ddl.go:880-914 | after a complete forward run the rollback runs iff nothing obstructs it, no DROP TABLE is refused, SQLite takes its DEFAULT clauses and what its drops leave fits back; it restores the source schema iff no dropped table had a user index and no foreign key strays |
| SyncTheorems.ObstructedByIndex | go/pkg/schemadiff/ddl.go:602-656 | while views read only views and tables that stay, the script is obstructed iff some index has the temporary name of a rebuilt table at the moment its turn comes |
| SyncTheorems.RebuildTmp | go/pkg/schemadiff/ddl.go:602-656 | every rebuild in the script goes through the name the search finds for its table |
| SyncTheorems.Unobstructed | go/pkg/schemadiff/ddl.go:602-656 | nothing obstructs the script when no user index of either side has a chosen temporary name and views read only views and tables that stay |
| SyncTheorems.RedeclaredIs | go/pkg/schemadiff/ddl.go:753-814 | of the target's tables the script declares anew exactly those it creates and those it rebuilds |
| PlainDrops.DropsAscend | go/pkg/schemadiff/schemadiff.go:488-490 | a plan drops tables in the byte order of their lower-cased names, each once |
| SyncTheorems.RowThereAndBack | go/pkg/schemadiff/ddl.go:623-656 | a row carried forward and back keeps every value of a common column and gets the source's default elsewhere |
| DataLoss.NoSilentLoss | go/pkg/schemadiff/ddl.go:492-506 | an accepted selection with no irreversible forward statement keeps every source table, column, row and value, through rebuilds too |
| Marks.SelectionMarked | go/pkg/schemadiff/ddl.go:492-506 | for every accepted selection: a statement of the script is irreversible iff an id it carries is of a table or column only the source has, or of a column of both sides whose normalised type or nullability differs; the rollback's likewise with the sides exchanged; each statement has the table and the least phase of its entries, phases never fall, and the cycle mark is on exactly the creation of tables on a cycle |
| Marks.LossExactly | go/pkg/schemadiff/ddl.go:492-506 | the same of one plan entry and its id |
| Marks.LabelsExactly | go/pkg/schemadiff/ddl.go:730-825 | the same of every statement of the script of any part of a plan, whatever tables are forced; pragmas carry nothing and are marked with nothing |
| Marks.ScriptAscends | go/pkg/schemadiff/ddl.go:785-814 | along any script the phases never fall, so a rebuild stands where the first entry of its table stands |
| Marks.CycleEdges | go/pkg/schemadiff/ddl.go:103-130 | the graph behind the cycle mark has an edge iff both tables are created and one has a foreign key to the other |
| RebuildRules.RebuiltExactly | go/pkg/schemadiff/ddl.go:524-561 | the script of a whole plan rebuilds a table iff both sides have it and a column is altered, a dropped one is in a key or an index, or a foreign key or one of SQLite's own indexes is on one side only |
| Coverage.SelectionCovered | go/pkg/schemadiff/ddl.go:924-986 | an accepted selection generates unless a column added in place panics; each selected id is on exactly one run of consecutive emitted statements, its direct statement or its table's whole rebuild with the ids of all that table's plan entries; no other ids occur; what is rebuilt forward is rebuilt back |
| Coverage.StatementsCarry | go/pkg/schemadiff/ddl.go:730-825 | in any script each entry's id is on exactly one run of consecutive statements: its own direct statement, or the whole rebuild of its table with the ids of all of that table's entries |
| Coverage.OnlyEntries | go/pkg/schemadiff/ddl.go:730-825 | every id on a statement is that of an entry |
| Coverage.BracketIffRebuild | go/pkg/schemadiff/ddl.go:816-825 | the foreign-key PRAGMA pair brackets the script iff something is rebuilt, and stands nowhere else |
| Coverage.PragmasOutside | go/pkg/schemadiff/ddl.go:880-914 | a generated script is said to have pragmas outside its transaction iff a PRAGMA stands in it or in its rollback |
| Coverage.OtherKindsRefused | go/pkg/schemadiff/ddl.go:855-890 | two snapshots compare iff they are of one kind other than Redis; a script is refused unless both are SQLite's |
| Coverage.PartRebuiltBack | go/pkg/schemadiff/ddl.go:880-914 | for every part of a plan, each table rebuilt forward is rebuilt in the rollback |
| Coverage.PartGenerates | go/pkg/schemadiff/ddl.go:880-914 | a part of a plan panics iff an in-place column added either way has the default `x'`; otherwise it generates, and its rollback is the mirrored entries' script forced to rebuild the same tables |
| Counterexamples.CreatedIndexLost | go/pkg/schemadiff/ddl.go:664-674 | a concrete pair: the script for a new indexed table runs and leaves the table without its index |
| Counterexamples.DroppedIndexLost | go/pkg/schemadiff/ddl.go:660-674 | a concrete pair: dropping an indexed table and rolling back brings it back without its index |
| Counterexamples.PrimaryKeyUnseen | go/pkg/schemadiff/schemadiff.go:378-428 | two tables that differ in an INTEGER PRIMARY KEY, which has no index, have an empty plan |
| Counterexamples.DefaultRefused | go/pkg/schemadiff/ddl.go:385-398 | a concrete table with an expression default: nothing obstructs the script, no data is in the way, and its CREATE TABLE is refused |
| RenumberedIndexes.AutoIndexRenumbered | go/pkg/schemadiff/ddl.go:401-452 | a concrete table with a UNIQUE column declared before its key: the script reaches the target's schema, the snapshot SQLite then reports has a non-empty plan, and that plan rebuilds the table again |
| Defaults.BlanksLost | go/pkg/schemadiff/ddl.go:291-297 | a concrete quoted default that denotes another string once written, and that the comparison takes for the same |
| Counterexamples.TmpIndexRefused | go/pkg/schemadiff/ddl.go:602-608 | a concrete pair with an index named like the temporary table: the data fits and the rebuild is refused |
| Counterexamples.ForeignKeyStrays | go/pkg/schemadiff/ddl.go:623-656 | a concrete pair with a foreign key naming the temporary table: the script runs and leaves another schema than the target's |
| MoreCounterexamples.ParentDropRefused | go/pkg/schemadiff/schemadiff.go:488-490 | a concrete pair, two tables to drop and a row referring from the second to the first: the data fits and the script is refused |
| MoreCounterexamples.DanglingCancels | go/pkg/schemadiff/schemadiff.go:488-490 | two tables, one still referred to and with a dangling reference of its own: SQLite's count comes out even and DROP TABLE is not refused |
| MoreCounterexamples.StubPanicked | go/pkg/schemadiff/ddl.go:309-342 | a concrete pair on which generation panics: adding a column with the default `x'` |
| MoreCounterexamples.CommaUnseen | go/pkg/schemadiff/schemadiff.go:141-164 | two tables whose indexes differ only by a comma in a column name have an empty plan |
| Recomparison.EmptyPlanExactly | go/pkg/schemadiff/schemadiff.go:554-598 | between well-formed snapshots the plan is empty iff the source's database already is what the target describes in everything but primary keys, no primary index differs, and SQLite's own indexes and the foreign keys have the same names on both sides |
| Recomparison.SameDatabaseComparesEqual | go/pkg/schemadiff/schemadiff.go:554-598 | two snapshots of one database have an empty plan iff they give its own indexes and foreign keys the same names and agree on which tables have a primary index |
| Recomparison.NothingLeftToDo | go/pkg/schemadiff/ddl.go:730-825 | after a complete script of a converging pair without straying foreign keys, the plan from the snapshot then reported to the target is empty iff the target's foreign keys are unnamed and each created or rebuilt table has in the target the own indexes, and the primary index, that SQLite's numbering of the written declarations gives |
| Recomparison.NeverAtRest | go/pkg/schemadiff/ddl.go:553-560 | a created or rebuilt table whose own indexes are not as SQLite numbers them is rebuilt by the next plan too, so no plan is ever empty |
| AutoIndexes.InPlaceNames | go/pkg/schemadiff/ddl.go:553-560 | a table that needs no rebuild has on both sides the same own indexes, names included, the same keyed foreign keys, and a primary index on both or neither |
| AutoIndexes.UnnamedAgree | go/pkg/schemadiff/schemadiff.go:174-180 | unnamed foreign keys are matched with equal ones iff those are unnamed too |
| FullScript.PlanConverges | go/pkg/schemadiff/ddl.go:730-825 | the run condition and the end of the script, for either direction and any forced rebuild set, from any database whose tables stand at the source |
| Rollback.GenerateWhole | go/pkg/schemadiff/ddl.go:880-914 | the whole plan generates, or panics, exactly by that condition on added columns; its rollback is the whole reverse plan's script |
| PlanUnits.EmitsOrPanics | go/pkg/schemadiff/ddl.go:660-724 | chosen entries emit unless one adds, in place, a column with such a default, and then the emitter panics; there is no other refusal |
| Rollback.ReverseIsWhole | go/pkg/schemadiff/ddl.go:880-914 | filtering the reverse plan by mirrored ids keeps all of it |
| Rollback.RebuiltBack | go/pkg/schemadiff/ddl.go:880-914 | every table the forward script rebuilds is rebuilt by the rollback |
| TableRuns.DiffIsWholePlan | go/pkg/schemadiff/schemadiff.go:554-598 | the plan is, table by table, all entries of that table's comparison, each once, phases ascending |
| Runs.RunUnits | go/pkg/schemadiff/ddl.go:730-825 | with enforcement off, or without drops and rebuilds, a script runs to the end iff nothing obstructs it and each table's own statements succeed, and leaves each table as those leave it but for the foreign keys a rebuild's RENAME retargets |
| Runs.AimAllStays | go/pkg/schemadiff/ddl.go:623-656 | a set of foreign keys comes through all the script's RENAMEs unchanged iff none of them names the temporary table of a rebuild made when or after its own table was declared |
| Sparing.SparedRun | go/pkg/schemadiff/ddl.go:816-825 | under enforcement with nothing rebuilt, the whole script runs as if the drops were made first: iff nothing obstructs it, they are not refused and each table's other statements succeed on what they leave |
| Drops.DropAllInertly | go/pkg/schemadiff/schemadiff.go:488-490 | dropping several tables in order, without actions, leaves exactly the others unless the count is uneven for one when its turn comes |
| Drops.AnchoredDrop | go/pkg/schemadiff/ddl.go:660-674 | where every reference finds exactly one row, the row-by-row count of DROP TABLE is uneven iff a row of another table, or by RESTRICT a later row of its own, refers to the table |
| Drops.AnchoredAmong | go/pkg/schemadiff/schemadiff.go:488-490 | so too for tables dropped one after another: uneven for one iff one is still referred to when its turn comes |
| Obstructions.ObstructedRefuses | go/pkg/schemadiff/ddl.go:623-656 | a script an index name or a view obstructs does not run to its end, whatever the data |
| Obstructions.RunCatalog | go/pkg/schemadiff/ddl.go:730-825 | a run leaves exactly the tables and indexes that reading the script off the catalog says |
| Runs.ClashObstructs | go/pkg/schemadiff/ddl.go:602-608 | with views out of the way, units are obstructed iff some index has a chosen temporary name in time |
| Locality.GroupExec | go/pkg/schemadiff/ddl.go:623-656 | with enforcement off, the rebuild's statements run iff no index has the temporary name, no view reads what is missing and the data and indexes fit; they amount to replacing that one table and retargeting foreign keys that name the temporary one |
| Shape.BodyRealises | go/pkg/schemadiff/ddl.go:401-452 | CREATE TABLE of a snapshot makes its columns, key, UNIQUE lists and foreign keys, and no index |
| Shape.WfBodyOk | go/pkg/schemadiff/ddl.go:401-452 | of a well-formed table SQLite takes the generated body iff it takes every column's DEFAULT clause |
| TableText.ColumnsInOrder | go/pkg/schemadiff/ddl.go:375-398 | CREATE TABLE lists every column by ordinal with its normalised type, nullability and written default; its key is the first primary index's columns by position, else the flagged columns in that order |
| TableText.ClausesInOrder | go/pkg/schemadiff/ddl.go:401-442 | its UNIQUE clauses are those of the UNIQUE constraints by lower-cased name, its FOREIGN KEY clauses those of the foreign keys by their quoted columns |
| TableText.IndexInOrder | go/pkg/schemadiff/ddl.go:229-246 | the columns of an index are listed by position, each as often as it has it |
| TableText.UserIndexesInOrder | go/pkg/schemadiff/ddl.go:643-654 | behind a rebuild exactly the user's own indexes are created, by lower-cased executed name |
| TableText.SignatureInOrder | go/pkg/schemadiff/schemadiff.go:150-164 | an index is compared by its lower-cased columns, by position and then by name |
| Shape.CopyTable | go/pkg/schemadiff/ddl.go:623-656 | the copy succeeds iff the carried-over rows meet the target's constraints, and holds exactly those rows |
| Shape.RebuildTable | go/pkg/schemadiff/ddl.go:623-656 | a rebuild succeeds iff SQLite takes the target's DEFAULT clauses and the data fits, and yields the target's shape with every row carried over |
| InPlaceEnd.InPlaceTable | go/pkg/schemadiff/ddl.go:660-724 | the direct statements of a table that needs no rebuild run iff each added column's DEFAULT clause is taken and can fill the rows and each new unique index holds; they keep every row, and reach the target in all but the primary key |
| InPlaceRuns.PrefixRun | go/pkg/schemadiff/ddl.go:660-724 | the exact table state after every prefix of those statements |
| Agreement.InPlaceAgrees | go/pkg/schemadiff/ddl.go:524-570 | a table that needs no rebuild already agrees with its target in keys, UNIQUE lists, foreign keys and kept columns |
| Agreement.IndexRebuild | go/pkg/schemadiff/ddl.go:553-560 | an index entry forces a rebuild iff the index is not the user's own |
| Agreement.SignatureShared | go/pkg/schemadiff/schemadiff.go:141-164 | a list of names has the signature of another list of comma-free names iff one of its names has a comma |
| PlanUnits.ScriptUnitsOk | go/pkg/schemadiff/ddl.go:730-825 | every statement group of a script between well-formed snapshots stays within the tables and names it owns |
| Script.TmpNameFree | go/pkg/schemadiff/ddl.go:602-608 | the temporary-name search ends, at the least free candidate, outside every taken name |
| Script.TmpNameAvoids | go/pkg/schemadiff/ddl.go:735-751 | a temporary name is none of the tables or views of either side, ignoring case |
| Script.TmpName | go/pkg/schemadiff/ddl.go:602-608 | the search loop returns that name, and it is free ignoring case |
| Emitter.EmitRebuild | go/pkg/schemadiff/ddl.go:623-656 | the loop that writes one rebuild gives the specified statements in order |
| Emitter.CommonNames | go/pkg/schemadiff/ddl.go:623-656 | the copied columns are the target's, in order, that the source has |
| Emitter.UserIndexList | go/pkg/schemadiff/ddl.go:643-654 | the indexes re-created are the user's own, by executed name |
| Emitter.FindRebuilds | go/pkg/schemadiff/ddl.go:753-761 | the tables to rebuild: forced, or needed by some entry |
| Emitter.Absorb | go/pkg/schemadiff/ddl.go:763-783 | each rebuilt table's group gathers the ids and the irreversibility of all its entries |
| Emitter.EmitBlocks | go/pkg/schemadiff/ddl.go:785-814 | a rebuild is written once, where its first entry stands; other entries directly |
| Emitter.Emit | go/pkg/schemadiff/ddl.go:730-825 | the emitter returns the specified script and rebuild set, or the specified refusal; what its statements are marked with is Marks.LabelsExactly |
| Emitter.CyclicKeysOf | go/pkg/schemadiff/ddl.go:103-153 | the cycle warning set is the tables on a cycle of the created tables' references |
| Emitter.GenerateScript | go/pkg/schemadiff/ddl.go:880-914 | Generate returns the specified forward script and rollback |
| Emitter.MirroredIds | go/pkg/schemadiff/ddl.go:889-892 | the wanted rollback ids are the mirrored ids |
| Emitter.Select | go/pkg/schemadiff/ddl.go:924-986 | SelectEntries returns the specified entries, or the specified refusal |
| Graph.TopoOrderPlaces | go/pkg/schemadiff/schemadiff.go:494-539 | on every graph the order lists each node once, and an edge is out of order only when both its ends lie on a cycle |
| Graph.TopoOrderByName | go/pkg/schemadiff/schemadiff.go:494-539 | of two nodes the one placed first is reached from some node no later by name than the other: names decide the order but for what a reference pulls forward |
| Graph.DepthFirst | go/pkg/schemadiff/schemadiff.go:494-539 | the recursive closure ends on every graph and gives the specified visited set and order |
| Graph.DepthFirstOrder | go/pkg/schemadiff/schemadiff.go:494-539 | the outer loop gives the specified order |
| Graph.LeadsBack | go/pkg/schemadiff/ddl.go:131-148 | the stack search from a table answers true iff the table lies on a cycle |
| Graph.FkCycleKeys | go/pkg/schemadiff/ddl.go:103-153 | exactly the tables on some cycle, ascending, each once |
| Graph.SmallGraphAcyclic | go/pkg/schemadiff/ddl.go:103-112 | fewer than two new tables have no cycle, so the early return is exact |
| PlanOrder.CreatedFirst | go/pkg/schemadiff/schemadiff.go:494-539 | for a foreign key between two created tables, the referenced one is created first or both lie on a cycle |
| PlanOrder.OrderPermutes | go/pkg/schemadiff/schemadiff.go:554-598 | putting create entries in dependency order permutes the plan and keeps every op in its place |
| PlanOrder.OrderedPhases | go/pkg/schemadiff/schemadiff.go:488-490 | phases never fall along a plan |
| PlanOrder.CollectedCreates | go/pkg/schemadiff/schemadiff.go:554-598 | a plan creates each table at most once |
| Mirror.MirrorLaw | go/pkg/schemadiff/ddl.go:838-848 | the ids of the reverse comparison are, as a multiset, the mirrored ids of the plan |
| Mirror.TagLaw | go/pkg/schemadiff/schemadiff.go:313-486 | the reverse comparison has the same entries with inverted ops, each as often |
| Mirror.MirrorIdOf | go/pkg/schemadiff/ddl.go:827-848 | on an entry's id mirrorID swaps the op for its inverse, whatever the names contain |
| Mirror.MirrorIdInvolutive | go/pkg/schemadiff/ddl.go:838-848 | mirroring an entry id twice gives it back |
| Mirror.IdInjective | go/pkg/schemadiff/schemadiff.go:296-309 | an id determines table, object and op when table names hold no slash |
| Mirror.DiffPermutes | go/pkg/schemadiff/schemadiff.go:554-598 | sorting and ordering keep every collected entry |
| PlanIds.PlanIdsDistinct | go/pkg/schemadiff/schemadiff.go:296-309 | between well-formed snapshots no two plan entries share an id |
| PlanMeaning.PlanExactly | go/pkg/schemadiff/schemadiff.go:554-598 | between well-formed snapshots an id is in the plan iff it names a table, column, index or foreign key that one side has and the other lacks, with the drop's or the add's name, or a column of both sides that differs |
| PlanMeaning.TicksExactly | go/pkg/schemadiff/schemadiff.go:296-309 | an entry is destructive iff its id is of a table, column, index or foreign key of the source that the target lacks, and ticked iff it is not destructive or destructive entries were asked for |
| PlanMeaning.EntryReads | go/pkg/schemadiff/schemadiff.go:313-369 | entries are spelled as the target spells table and column, or the source where the target has none, and flag exactly what differs |
| PlanMeaning.FlagsAre | go/pkg/schemadiff/schemadiff.go:329-356 | for every kind of database a column's flags say which of type, nullability, default (unless ignored) and auto-increment differ |
| PlanMeaning.OpsAscend | go/pkg/schemadiff/ops_gen.go:18-28 | along a plan the ops come as drop foreign key, drop index, drop column, drop table, create table, add column, alter column, add index, add foreign key |
| PlanMeaning.SameOpAscends | go/pkg/schemadiff/schemadiff.go:488-490 | within one op, creates apart, entries come by table key and then by object, each once |
| PlanMeaning.ForeignKeysMatch | go/pkg/schemadiff/schemadiff.go:174-180 | foreign keys are matched by name, unnamed ones by columns, referenced table and its columns, ignoring case |
| PlanMeaning.SameForeignKeyExactly | go/pkg/schemadiff/schemadiff.go:430-479 | matched foreign keys are the same iff columns, referenced table with its schema, its columns and both actions agree |
| Generator.Compare | go/pkg/schemadiff/schemadiff.go:554-598 | Diff's loops return the specified plan, or the refusal of unlike kinds; what its ids, ticks and flags say is PlanMeaning.PlanExactly, TicksExactly and EntryReads |
| Generator.CompareColumns | go/pkg/schemadiff/schemadiff.go:313-369 | the column loops give the specified entries |
| Generator.ComparePrimary | go/pkg/schemadiff/schemadiff.go:378-393 | the primary-key branches give the specified drop and add |
| Generator.CompareSecondary | go/pkg/schemadiff/schemadiff.go:394-428 | the secondary-index loops give the specified entries |
| Generator.CompareForeignKeys | go/pkg/schemadiff/schemadiff.go:430-479 | the foreign-key loops give the specified entries |
| Generator.Collect | go/pkg/schemadiff/schemadiff.go:554-598 | the table loops give the specified entries |
| Generator.OrderCreates | go/pkg/schemadiff/schemadiff.go:494-539 | the create entries in depth-first dependency order |
| Generator.PlaceCreates | go/pkg/schemadiff/schemadiff.go:586-597 | the ordered create entries take the create places |
| Snapshots.BuildTableMap | go/pkg/schemadiff/schemadiff.go:209-222 | tables by lower-cased name, views left out, the first of a name kept |
| Snapshots.FirstPrimary | go/pkg/schemadiff/schemadiff.go:287-294 | a primary index if there is one, and none only if there is none |
| Sequences.SortSorted | go/pkg/schemadiff/schemadiff.go:488-490 | the stable sort of a plan is sorted under any total order |
| Sequences.SortStable | go/pkg/schemadiff/ddl.go:220-238 | the sort is stable: elements none of which has to go before another keep their order |
| Sequences.MirrorPairing | go/pkg/schemadiff/schemadiff.go:313-369 | a two-sided comparison whose parts mirror each other mirrors as a whole |
| Text.JoinInjective | go/pkg/schemadiff/schemadiff.go:141-164 | a joined index signature determines its column list |
| Normalize.NormalizeDefaultIdempotent | go/pkg/schemadiff/normalize.go:356-381 | normalising a default twice changes nothing more |
| Normalize.DefaultSurvivesDdl | go/pkg/schemadiff/ddl.go:291-297 | the default DDL carries, and what the database stores of it, compare equal to the original |
| Defaults.QuotedDefaultKept | go/pkg/schemadiff/ddl.go:291-297 | the DEFAULT clause written for a quoted literal is a quoted literal, and denotes the same string iff the literal has single blanks only |
| Defaults.LiteralKeepsText | go/pkg/schemadiff/ddl.go:291-297 | no clause is written for blank text and NULL; of any other default every character but the blanks is written as it stands, letter case included, with single blanks |
| Defaults.LiteralsCompare | go/pkg/schemadiff/normalize.go:257-282 | two quoted literals compare equal iff the clauses written for them denote the same string; with single blanks only, iff they themselves do, letter case included |
| Defaults.QuotedUnchanged | go/pkg/schemadiff/normalize.go:361-380 | text in quotes of either kind with single blanks only is compared by itself, unchanged |
| Defaults.CaseUnseen | go/pkg/schemadiff/normalize.go:361-380 | without quotes of either kind letter case does not matter |
| Defaults.PlainCompares | go/pkg/schemadiff/normalize.go:361-380 | a default without quotes, parentheses and colons is compared by its lower-cased text, and NULL is no default |
| Defaults.ParensUnseen | go/pkg/schemadiff/normalize.go:284-294 | parentheses around such a default do not matter |
| Defaults.CastUnseen | go/pkg/schemadiff/normalize.go:322-354 | a cast to a type behind a quoted literal or such a default does not matter |
| Defaults.NoCastSeen | go/pkg/schemadiff/normalize.go:322-354 | what stands behind two colons and is no type stays |
| Defaults.WordCast | go/pkg/schemadiff/normalize.go:296-320 | a single word is a type to cast to iff it does not begin with a digit |
| Defaults.SizedCast | go/pkg/schemadiff/normalize.go:296-320 | so is a lower-case word with a size in parentheses, with an array's brackets, or with both |
| Normalize.PeelFixed | go/pkg/schemadiff/normalize.go:370-381 | the peel loop ends in a folded, case-stable fixed point |
| Normalize.NormalizeDefaultText | go/pkg/schemadiff/normalize.go:361-381 | the loop over updated text computes the specified normal form and terminates; what that keeps apart is Defaults.LiteralsCompare and PlainCompares |
| Normalize.FoldSpaces | go/pkg/schemadiff/normalize.go:35-53 | the byte scan computes the folded text |
| Normalize.FoldIsFolded | go/pkg/schemadiff/normalize.go:35-53 | folded text has single blanks only and none at its ends |
| Normalize.FoldFixed | go/pkg/schemadiff/normalize.go:35-53 | folded text is left alone |
| Normalize.LowerFoldCommute | go/pkg/schemadiff/normalize.go:257-281 | lower-casing outside quotes and folding white space commute |
| Normalize.LowerOutsideQuotes | go/pkg/schemadiff/normalize.go:257-281 | the quote-tracking scan computes the specified text; quoted text stays letter by letter, by Defaults.QuotedUnchanged |
| Normalize.FindMatchingClose | go/pkg/schemadiff/normalize.go:89-112 | the least position closing the parenthesis outside single quotes, or -1 iff there is none |
| Normalize.StripCast | go/pkg/schemadiff/normalize.go:322-354 | the scan removes the last cast outside quotes and parentheses, when its tail is a type name |
| TypeNames.NormalizeTypeIdempotent | go/pkg/schemadiff/normalize.go:245-254 | normalising a type twice changes nothing more, for every database kind |
| TypeRules.TypesCompare | go/pkg/schemadiff/normalize.go:233-254 | types made of words with sizes compare equal iff they agree word by word and size by size, after MySQL has dropped zerofill and the single size of tinyint, smallint, mediumint, int, integer and bigint, and Oracle has read bpchar as char and dropped a second size of zeros of number and numeric |
| TypeRules.MySqlExactly | go/pkg/schemadiff/normalize.go:134-182 | the MySQL literal of such a type, word by word |
| TypeRules.OracleExactly | go/pkg/schemadiff/normalize.go:184-231 | the Oracle literal of such a type, word by word |
| TypeRules.CommonFirst | go/pkg/schemadiff/normalize.go:245-254 | every kind compares what the shared rules leave of the text |
| TypeRules.CommonKeepsText | go/pkg/schemadiff/normalize.go:24-84 | the shared rules keep every other character than blanks in its place, lower-cased |
| TypeNames.NormalizeTypeText | go/pkg/schemadiff/normalize.go:245-254 | the rules in their order compute the specified literal |
| TypeNames.CommonIsPlain | go/pkg/schemadiff/normalize.go:245-254 | the shared rules leave lower case, single blanks and no blank beside punctuation |
| TypeNames.SqueezePunct | go/pkg/schemadiff/normalize.go:56-86 | the byte scan computes the squeezed text |
| TypeNames.StripMySqlIntWidth | go/pkg/schemadiff/normalize.go:134-161 | the output scan drops exactly the display widths behind integer type names |
| TypeNames.WidthEnd | go/pkg/schemadiff/normalize.go:134-161 | a parenthesis is a width iff it holds a bare digit run, and ends where it closes |
| TypeNames.DropWords | go/pkg/schemadiff/normalize.go:173-182 | the filter loop drops exactly the given word |
| EditQueue.ValuesEqualIsEquivalence | go/pkg/changes/changes.go:138-160 | value equality is reflexive, symmetric and transitive, whatever the float conversion |
| EditQueue.EqualExactly | go/pkg/changes/changes.go:138-161 | null equals null, a truth value itself, texts letter by letter (an array or object is its text), numbers by value when both convert and by literal otherwise, and nothing else |
| EditQueue.KeyOfInjective | go/pkg/changes/changes.go:90-92 | an index key determines row and change type |
| EditQueue.IndexAt | go/pkg/changes/changes.go:187-193 | the index maps a key to the last change with it, and has exactly the keys in the queue |
| EditQueue.Queue.AddCellChange | go/pkg/changes/changes.go:215-262 | the new state is the specified one: edit of an insert, merge, append, or collapse to nothing; the index stays exact; what becomes of the values is QueuePending.HoldsDifferences and QueueInserts.InsertFollowsEdits |
| EditQueue.Queue.AddInsert | go/pkg/changes/changes.go:265-276 | an insert is appended with the next number and can be undone; the index names it |
| EditQueue.Queue.AddDelete | go/pkg/changes/changes.go:279-290 | a delete is appended with the next number and can be undone; the index names it |
| EditQueue.Queue.RemoveByKey | go/pkg/changes/changes.go:292-305 | exactly the changes under the key go, and the index is rebuilt to match |
| EditQueue.Queue.Undo | go/pkg/changes/changes.go:309-337 | undo takes back the last operation's change or cell and answers whether there was one |
| EditQueue.Queue.Clear | go/pkg/changes/changes.go:340-344 | clearing empties changes, index and undo stack and keeps the numbering |
| EditQueue.Queue.All | go/pkg/changes/changes.go:180-185 | every change once, sequence numbers never falling |
| EditQueue.RetainExceptColumn | go/pkg/changes/changes.go:346-354 | the in-place filter keeps exactly the other columns' cells |
| EditQueue.MergeCell | go/pkg/changes/changes.go:250-261 | the merge loop changes the column's cell and keeps its first old value |
| QueueLaws.RunKeeps | go/pkg/changes/changes.go:164-185 | after every run of edits, inserts, deletes, undos and clears: sequence numbers rise, one update per row, no repeated column, no empty row change, each part backed by the undo stack |
| QueueLaws.NumbersAreFresh | go/pkg/changes/changes.go:215-344 | no operation, Clear included, gives out a number twice: a change is there from before under its number, or has one above all before |
| QueueLaws.AllIsInOrder | go/pkg/changes/changes.go:180-185 | after every run, the only such list is the changes as they stand |
| QueueLaws.RunUndone | go/pkg/changes/changes.go:309-337 | after every run, undoing until the undo stack is empty leaves the queue empty |
| QueueLaws.UndoReports | go/pkg/changes/changes.go:309-337 | undo answers true iff a change stands under the last operation's key, an update where the operation was a cell edit |
| QueuePending.HoldsDifferences | go/pkg/changes/changes.go:215-262 | after any run of cell edits that each pass the effective value as the old one, a cell is pending iff its last value differs from the original, with that value |
| QueuePending.RunEditsOk | go/pkg/changes/changes.go:215-262 | after such a run every row change is a non-empty update with distinct columns and the original values as old ones |
| QueuePending.PendingEdited | go/pkg/changes/changes.go:215-262 | one edit changes the pending state of its own cell and of no other |
| QueueInserts.InsertFollowsEdits | go/pkg/changes/changes.go:215-276 | from any queue, after AddInsert and any run of edits of it and of other rows, inserts and deletes of other rows: the pending insert keeps its number, gives every column the last value set, or its own when none was, and lists its own columns first and then new ones in the order they were set |
| QueueInserts.DeleteStands | go/pkg/changes/changes.go:279-289 | a pending delete keeps its original row and its number whatever is edited, inserted or deleted after it |
| QueueInserts.RowUndone | go/pkg/changes/changes.go:309-319 | undoing an insert or delete just made, the first of its row, gives the changes and the undo stack back as they were |
| QueueInserts.EditUndone | go/pkg/changes/changes.go:309-337 | undoing a cell edit just made leaves that cell unpending and every other cell as it was |
| Layout.FitWidths | go/internal/tui/tableview.go:1129-1179 | widths that fit are unchanged; below one cell per column all are 1; otherwise they sum to exactly the budget, stay between 1 and natural, and no column is more than one cell wider than a shrunk one |
| Layout.FindLevel | go/internal/tui/tableview.go:1149-1167 | the binary search finds the largest level whose capped widths fit |
| Layout.Trim | go/internal/tui/tableview.go:1168-1178 | cut columns take the level, the spare cells go to the leftmost of them |
| Layout.AutoExpand | go/internal/tui/tableview.go:1114-1124 | true iff some column falls below 60 percent of its natural width, or below 5 when that is over 8 |
| Layout.VisibleColumns | go/internal/tui/tableview.go:1184-1204 | the longest run of columns that fits with separators, at least one, a too wide first column cut to the view |
| Layout.ScrollColIntoView | go/internal/tui/tableview.go:1208-1226 | the least offset from the old one on at which the cursor's column is whole, or the cursor itself |
| Layout.ScrolledFits | go/internal/tui/tableview.go:1208-1226 | that offset shows the cursor's column or is the cursor's, and every earlier one cuts it off |
| Layout.CursorInView | go/internal/tui/tableview.go:1184-1226 | after scrolling, the visible columns contain the cursor, whole when it fits, and widths plus separators stay within the view |
| Widths.NaturalWidths | go/internal/tui/tableview.go:965-983 | per column the widest of name and window cells, capped and floored; stopping early changes nothing |
| Widths.WidestIsMax | go/internal/tui/tableview.go:965-983 | the widest is an upper bound that is attained |
| Widths.NaturalIsWidest | go/internal/tui/tableview.go:965-983 | a natural width is the widest of the name and the window's cells, at least one and at most the cap |
| Widths.NaturalWidthsCached | go/internal/tui/tableview.go:990-1011 | from any valid cache the same vector as the direct measure, the cache stays valid, and windows of at most 200 rows never read outside it |
| Widths.WidthCache.Align | go/internal/tui/tableview.go:893-906 | afterwards the cache belongs to the frame and covers any window of at most 200 rows; its filled slots are right |
| Widths.WidthCache.Reset | go/internal/tui/tableview.go:932-961 | the same for a new frame, with the buffer reused or replaced, whole-frame or 400-row span, or none |
| Widths.CellWidth | go/internal/tui/tableview.go:913-929 | the measured width whether slot, miss or outside; the outside counter counts exactly the reads outside |
| Widths.StoredBack | go/internal/tui/tableview.go:913-929 | a 32-bit slot gives a width back iff it is below 2^32 - 1; 2^32 - 1 stays an empty slot |
| Widths.TableColsCache.Get | go/internal/tui/tableview.go:1078-1098 | the answer equals a fresh measure of the window whatever was asked before, and a window past its frame panics |
| Widths.TableColsCache.Match | go/internal/tui/tableview.go:1055-1071 | true iff every part of the key is equal, columns element by element |
| Widths.WindowSeesParent | go/internal/tui/tableview.go:1316-1361 | measuring the window frame by its own rows is measuring the parent by absolute rows |
| CompletionRuns.LookupIsRebuild | go/internal/tui/app_schema.go:81-115 | at any moment of any interleaving a lookup gives a rebuild's answer, and only tables its own connection answered for |
| CompletionRuns.LookupHoldsAll | go/internal/tui/app_schema.go:81-115 | at any moment the answer has the frame's columns, the engine in use and, of a cache bound to the connection in use, every table listed or fetched, fetched ones with columns the connection answered; once listed, every table of one of its catalogs |
| CompletionRuns.RunKeeps | go/internal/tui/app_schema.go:57-200 | for every interleaving of warm-ups, swaps and lookups: every cached entry was answered by the bound connection, the memo of the current version is right, a warm-up carries only its own connection's answers |
| CompletionRuns.MetaIsItsOwn | go/internal/tui/app_schema.go:206-214 | metadata shown for a table was answered, together with its columns, by the connection in use |
| CompletionRuns.WarmUpWarms | go/internal/tui/app_schema.go:125-200 | a finished warm-up whose binding still stands leaves the listing done and each requested table fetched or unlisted |
| CompletionCache.CompletedIsRebuild | go/internal/tui/app_schema.go:81-115 | with a right memo the answer is a rebuild's, and asking again with nothing changed builds nothing |
| CompletionCache.FirstNamespace | go/internal/tui/app_schema.go:138-151 | a table is known iff some answered namespace lists it, under the first that does |
| CompletionCache.BuildNames | go/internal/tui/app_schema.go:138-151 | the nested loops compute that map, skipping failed namespaces |
| CompletionCache.SchemaCache.ResetFor | go/internal/tui/app_schema.go:57-69 | another connection clears everything and bumps the version; the same one changes nothing |
| CompletionCache.SchemaCache.CommitList | go/internal/tui/app_schema.go:152-163 | the listing is committed once per binding, only to its own connection, and keeps fetched columns |
| CompletionCache.SchemaCache.CommitColumns | go/internal/tui/app_schema.go:191-198 | fetched columns are committed only to their own connection, with a new version |
| CompletionCache.SchemaCache.Probe | go/internal/tui/app_schema.go:166-173 | a table is fetched iff the binding stands, it is known and not fetched yet |
| CompletionCache.SchemaCache.CompletionSchema | go/internal/tui/app_schema.go:81-115 | the lookup's new state and answer: the memo when version, connection and frame match, else a rebuild that is kept |
| JsonStrings.QuoteRoundTrip | go/pkg/protocol/value_msgpack.go:92-152 | reading a quoted text gives the text with ill-formed bytes replaced, so the text itself iff it is valid UTF-8 |
| JsonStrings.AppendJsonString | go/pkg/protocol/value_json.go:27-86 | the cursor loop appends the quoted text, copying runs in one piece |
| JsonStrings.JsonStringPayload | go/pkg/protocol/value_msgpack.go:92-152 | the payload of a quoted text or a refusal, the copy-free path included; what each escape reads as is in JsonEscapes |
| JsonStrings.ParseHex4 | go/pkg/protocol/value_msgpack.go:178-197 | four hexadecimal digits of either case, or a refusal |
| JsonStrings.EncodeDecoded | go/pkg/protocol/value_json.go:60-66 | encoding a decoded code point gives its bytes back |
| JsonStrings.SanitisedIsSame | go/pkg/protocol/value_json.go:66-72 | replacement of ill-formed bytes changes nothing iff the text is valid UTF-8 |
| JsonStrings.EscapeReads | go/pkg/protocol/value_msgpack.go:110-173 | every escape written reads back as the unit it stands for, whatever follows |
| JsonEscapes.PairReads | go/pkg/protocol/value_msgpack.go:156-173 | for every code point from U+10000 the escapes of its two UTF-16 halves, digits of either case, read as its UTF-8 bytes, whatever follows (section 7 of RFC 8259) |
| JsonEscapes.UnitReads | go/pkg/protocol/value_msgpack.go:156-173 | one escape of every other scalar value reads as its UTF-8 bytes, whatever follows |
| JsonEscapes.LoneHalfReads | go/pkg/protocol/value_msgpack.go:156-173 | a low half, or a high half without the escape of a low half behind it, reads as U+FFFD |
| JsonEscapes.BadUnitRefused | go/pkg/protocol/value_msgpack.go:178-197 | without four hexadecimal digits behind it a u escape is refused |
| JsonEscapes.ShortReads | go/pkg/protocol/value_msgpack.go:122-141 | each of the eight short escapes, the one of the slash included, reads as the character it stands for |
| JsonEscapes.OtherEscapesRefused | go/pkg/protocol/value_msgpack.go:122-150 | every other escape is refused |
| JsonEscapes.LoneBackslashRefused | go/pkg/protocol/value_msgpack.go:118-121 | a backslash that ends the text is refused |
| JsonEscapes.OthersRead | go/pkg/protocol/value_msgpack.go:108-118 | an unescaped byte stands for itself unless it is a quote or a control character, which are refused |
| JsonEscapes.RuneDecodes | go/pkg/protocol/value_json.go:60-66 | the UTF-8 bytes written for a scalar value decode to it, whatever follows |
| JsonEscapes.AsciiWritten | go/pkg/protocol/value_json.go:36-58 | which byte below 0x80 is written as itself, by a short escape, or by four digits |
| JsonEscapes.SeparatorWritten | go/pkg/protocol/value_json.go:75-80 | the line and paragraph separators are written by their escapes |
| JsonEscapes.EscapedSafe | go/pkg/protocol/value_json.go:27-86 | no control character, no angle bracket, no ampersand and no bare quote stands in quoted text |
| JsonNumbers.DigitsToUint64 | go/pkg/protocol/value_msgpack.go:313-324 | overflow iff not all digits or the value is at least 2^64; otherwise the exact value |
| JsonNumbers.ParseInt64Literal | go/pkg/protocol/value_msgpack.go:604-644 | succeeds iff the text is a JSON integer literal within int64, with its value |
| JsonNumbers.ValidNumberLiteral | go/pkg/protocol/value_msgpack.go:341-377 | accepts exactly number = [ minus ] int [ frac ] [ exp ] of section 6 of RFC 8259 |
| JsonNumbers.CutScans | go/pkg/protocol/value_msgpack.go:341-377 | a number can be cut into its parts in one way only, the scan's |
| JsonNumbers.LiteralIsDecimal | go/pkg/protocol/value_json.go:89-96 | an integer literal is the decimal text of its value unless it is minus zero |
| JsonNumbers.DecimalIsLiteral | go/pkg/protocol/value_json.go:89-96 | the decimal text of every integer is a literal with that value |
| Msgpack.StringRoundTrip | go/pkg/protocol/value_msgpack.go:204-230 | quoted valid UTF-8 shorter than 2^32 bytes survives the way through a str frame unchanged |
| Msgpack.StringFrameRoundTrip | go/pkg/protocol/value_msgpack.go:410-437 | a str frame of any header width reads as the quoted payload iff the payload is shorter than 2^32 bytes |
| Msgpack.StringFrameShape | go/pkg/protocol/value_msgpack.go:204-230 | a string frame has the shortest of the four headers, with its length, and then the payload |
| Msgpack.NameRoundTrip | go/pkg/protocol/value_msgpack.go:45-80 | true, false and null survive the way through their one-byte frames, and no other text that begins like them makes one |
| Msgpack.FixIntReads | go/pkg/protocol/value_msgpack.go:424-427 | the one-byte integers read as the numbers from -32 to 127 |
| Msgpack.IntRoundTrip | go/pkg/protocol/value_msgpack.go:266-309 | every integer literal in [-2^63, 2^64) survives encode and decode, unchanged iff it is not minus zero |
| Msgpack.NumbersExactly | go/pkg/protocol/value_msgpack.go:266-309 | a text is declined iff it is no JSON number, becomes an integer frame iff it is an integer literal in [-2^63, 2^64), and goes through the float conversion otherwise |
| Msgpack.IntFamilyReads | go/pkg/protocol/value_msgpack.go:438-499 | every integer family of the MessagePack specification reads as the number it stands for, two's complement included |
| Msgpack.AppendNumber | go/pkg/protocol/value_msgpack.go:266-309 | the literal scan picks int64, uint64, the float conversion or a refusal as specified |
| Msgpack.UnpackBE | go/pkg/protocol/value_msgpack.go:522-528 | the byte loop reads the big-endian word |
| Msgpack.WordBack | go/pkg/protocol/value_msgpack.go:236-248 | big-endian bytes read back as the number modulo the word, and as the number when it fits |
| PlanTree.EveryRowShown | go/pkg/explain/explain.go:206-251 | whatever the parent links, cyclic ones included, every row id labels a node |
| PlanTree.SqliteTree | go/pkg/explain/explain.go:206-251 | the loops end and build the specified forest; it is empty iff there are no rows |
| PlanTree.Builder.Build | go/pkg/explain/explain.go:253-266 | the recursion gives the specified tree, restores the path, and records exactly the ids it shows |
| PlanTree.Builder.AddRest | go/pkg/explain/explain.go:244-250 | rows shown nowhere yet become roots, in row order |
| PlanForest.ForestExact | go/pkg/explain/explain.go:206-266 | distinct ids in a forest less than 64 deep: each id labels exactly one node, the roots are the root rows, and each node's children are its rows |
| PlanForest.ForestLinked | go/pkg/explain/explain.go:206-266 | whatever the rows, every edge drawn is a link between rows |
| PlanForest.RootsDrawn | go/pkg/explain/explain.go:227-243 | whatever the rows, one that is its own parent or whose parent is no row is a root of the tree drawn |
| PlanForest.ExtraRootsNew | go/pkg/explain/explain.go:244-250 | a root drawn only because no root row leads to it stands in no tree drawn before |
| PlanTree.DetailIsLast | go/pkg/explain/explain.go:236-239 | the detail shown for an id is that of the last row with it |
| Like.PatternsAreFaithful | go/pkg/dbcore/browse.go:250-271 | under LIKE with ESCAPE '!' the contains, starts-with and ends-with patterns match exactly the strings holding the literal text there |
| Like.EscapedMatches | go/pkg/dbcore/browse.go:196-199 | escaped text matches itself and nothing else, whatever pattern follows |
| Search.SearchExactColsFold | go/internal/tuidata/search.go:100-126 | from any valid cache, or none, exactly the rows with a folded match in some of the columns, ascending |
| Search.SearchExactCached | go/internal/tuidata/search.go:188-215 | from any valid cache, or none, exactly the rows with a case-sensitive match |
| Search.SearchFuzzyFold | go/internal/tuidata/search.go:268-286 | from any valid cache, or none, exactly the rows whose joined text has the pattern as a folded subsequence before its first NUL |
| Search.RowTextHolds | go/internal/tuidata/search.go:253-264 | every cell of a row stands in its joined text, in column order, with one blank between and nothing else |
| Search.BeforeNulIs | go/internal/tuidata/search.go:292-329 | of a line the fuzzy search reads exactly what stands before its first NUL |
| Search.FuzzyMatchIndices | go/internal/tuidata/search.go:292-329 | exactly the lines with such a subsequence, ascending |
| Search.GreedyIsSubsequence | go/internal/tuidata/search.go:313-327 | the greedy scan finds a pattern iff it is a subsequence |
| Search.OrbitIsWhole | go/internal/tuidata/search.go:303-311 | when folding comes back within 65 steps the orbit holds everything folding reaches |
| Search.RowsAreHits | go/internal/tuidata/search.go:10-22 | the specified result lists exactly the matching rows, ascending |
| Search.FoldCache.Lookup | go/internal/tuidata/search.go:54-63 | a hit is the folded columns of this frame and column list; a miss drops the old material |
| Search.FoldCache.Build | go/internal/tuidata/search.go:66-84 | the loops store every searched cell folded |

## Left out

- SyncTheorems.Converges: where a foreign key into a dropped table acts on delete, the model assumes that every reference of the database finds its row, and it does not follow the order of SQLite's triggers where one row is reached by two keys, of which one deletes it and the other restricts or sets it, nor uniqueness among rows of the dropped table that SET DEFAULT changes before they go; where SET NULL or SET DEFAULT changes columns another row refers to, it refuses instead of following ON UPDATE. Foreign keys are immediate.
- PlainDrops.ConvergesPlainly: a row of a dropped table that dangles by one key and names a missing table by another is counted with the dangling key first, where SQLite goes by the order of declaration.
- Shape.WfBodyOk: a default that ends in COLLATE or NOT NULL outside parentheses, which SQLite reads back as a column constraint, is taken for no clause; comments in defaults, and CAST in a default added to rows, are not read. The value of a parenthesised expression is its text, the same in every row.
- SyncTheorems.RollsBack: the same.
- SyncTheorems.Unobstructed: a view is known by the tables and views it reads, not by the columns, so dropping a column a view reads is not refused in the model; so too in SyncTheorems.Converges.
- Recomparison.NothingLeftToDo: the database model does not keep the names of SQLite's own indexes; what is reported after the script is stated as a hypothesis, from SQLite's rule for numbering them.
- Snapshots are SQLite's, well-formed as `WellFormed.WfPair` says: ASCII trimmed names without separators (a comma is the one of `MoreCounterexamples.CommaUnseen`), unique ignoring case, auto-increment unreported, columns of keys and indexes present, a rebuilt table with a common column, index names owned by one table. With untrimmed names the lookups by lower-cased name can miss.
- A partial selection may leave out the create entry a reference needs; order and cycle warnings are stated for plans.
- Mirror.MirrorIdInvolutive: stated on the ids of entries, not on arbitrary text.
- Warning texts, reasons and the from/to descriptions of entries; flags, ids and structure are kept.
- SQL text: quoting of identifiers appears only in the names of UNIQUE and index statements' structure; parsing by SQLite is represented by `Database.Exec`.
- Row ids, AUTOINCREMENT, WITHOUT ROWID, triggers, CHECK constraints, generated columns, collations, type affinity, partial indexes and indexes on expressions, DEFERRABLE foreign keys.
- Normalize.NormalizeDefaultIdempotent: ASCII text; trimming of Unicode white space is not modelled.
- TypeRules.TypesCompare: types made of words with digits in parentheses; enumerations, arrays and other punctuation are covered by the idempotence and the scans only.
- Defaults.ParensUnseen: one pair of parentheses around text without quotes, parentheses and colons; nested and quoted text is covered by the scans and the fixed point. Defaults.CastUnseen: one cast, without sizes.
- PlanMeaning.ForeignKeysMatch: unnamed foreign keys whose columns have no `>` and whose referenced table has no `(`, the separators of their key.
- EditQueue.ValuesEqualIsEquivalence: the conversion of number literals to floats is a parameter, as is the text of arrays and objects.
- QueuePending.HoldsDifferences: rows without a pending insert or delete; inserted rows are in QueueInserts.InsertFollowsEdits. Undoing a cell edit made on an inserted row removes the insert, as the code does.
- Layout.FitWidths: natural widths are at least 1, which measuring guarantees; user-set widths are not modelled.
- Widths.NaturalWidthsCached: cell widths are below 2^32 - the width of a string is taken as given, and frames are rectangular.
- Widths.TableColsCache.Get: column indices are not negative; the panic is an answer of its own.
- CompletionRuns.RunKeeps: the metadata message handler of `go/internal/tui/app.go`, which writes the cache without a version, is not part of this model; a query that fails answers an empty listing or no columns.
- JsonStrings.JsonStringPayload: `utf8.DecodeRune` and `utf8.AppendRune` are modelled by RFC 3629; the reading of one escape is a function the loop calls.
- Msgpack.StringRoundTrip: the text is what is left after trimming; float frames, containers and the general JSON decoder are outside.
- PlanTree.SqliteTree: the three columns are read; missing columns and cell conversion are not modelled. PostgreSQL and MySQL plans are left out.
- Like.PatternsAreFaithful: which characters compare equal is a parameter; LIKE patterns passed through unchanged and GLOB are left out.
- Search.SearchExactColsFold: lower-casing, and the folding step for fuzzy search, are parameters; a display string is taken as given.
- Drivers, transport, storage, rendering, key handling and the React front end.
