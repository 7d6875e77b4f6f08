/// When a database table has the shape a snapshot describes, and what a rebuild
/// makes of a table.
module Shape {
  import opened Text
  import opened Sequences
  import opened Normalize
  import opened TypeNames
  import opened Snapshots
  import opened Script
  import opened Defaults
  import opened Database
  import opened Locality
  import opened WellFormed

  /** One column, up to the normal forms the comparison works on. */
  predicate SameColumn(c: ColState, i: ColumnInfo, ignoreDefaults: bool) {
    && NormalizeType(Sqlite, c.typ) == NormalizeType(Sqlite, i.dataType) && c.notNull == !i.nullable
    && (ignoreDefaults || NormalizeDefault(c.dflt) == NormalizeDefault(i.defaultValue))
  }

  function IndexStateOf(idx: IndexInfo): IndexState { IndexState(idx.unique, LowerAll(IndexColumns(idx))) }

  /** The UNIQUE constraints: SQLite's own index names do not count, their columns do. */
  function UniqueLists(t: TableSnapshot): set<seq<string>> {
    set i | i in t.indexes && IsUniqueConstraint(i) :: LowerAll(IndexColumns(i))
  }

  function FkStates(t: TableSnapshot): set<FkState> {
    set f | f in t.foreignKeys :: FkOf(FkClauseOf(f))
  }

  function UserIndexStates(t: TableSnapshot): map<string, IndexState> {
    map k | k in SecondaryMap(t) && IsUserIndex(SecondaryMap(t)[k]) :: IndexStateOf(SecondaryMap(t)[k])
  }

  predicate SameColumns(cols: map<string, ColState>, t: TableSnapshot, ignoreDefaults: bool) {
    cols.Keys == ColumnMap(t).Keys && forall k :: k in cols ==> SameColumn(cols[k], ColumnMap(t)[k], ignoreDefaults)
  }

  /** The table has the columns, keys, constraints and indexes of the snapshot. */
  predicate Realises(def: TableDef, t: TableSnapshot, ignoreDefaults: bool) {
    && SameColumns(def.cols, t, ignoreDefaults) && def.pk == LowerAll(PkColumns(t))
    && def.uniques == UniqueLists(t) && def.fks == FkStates(t) && def.indexes == UserIndexStates(t)
  }

  /** The snapshot's shape in everything but the primary key. */
  predicate RealisesButPk(def: TableDef, t: TableSnapshot, ignoreDefaults: bool) {
    Realises(def.(pk := LowerAll(PkColumns(t))), t, ignoreDefaults)
  }

  predicate RowsTyped(t: Table) { forall i :: 0 <= i < |t.rows| ==> t.rows[i].Keys == t.def.cols.Keys }

  /** A source row carried over to the target's columns: common values kept, new columns defaulted. */
  function FitRow(s: TableSnapshot, t: TableSnapshot, row: Row): Row {
    map k | k in ColumnMap(t) :: if k in ColumnMap(s) then Get(row, k) else DefaultValue(ColumnMap(t)[k].defaultValue)
  }

  function Fit(s: TableSnapshot, t: TableSnapshot, rows: seq<Row>): (r: seq<Row>)
    ensures |r| == |rows|
  {
    seq(|rows|, i requires 0 <= i < |rows| => FitRow(s, t, rows[i]))
  }

  // ---- The columns a body defines ----

  lemma {:induction false} DefColumnsAt(cols: seq<ColumnDef>, k: string)
    ensures k in DefColumns(cols) <==> exists i :: 0 <= i < |cols| && Lower(cols[i].name) == k
    ensures forall i :: DistinctNames(cols) && 0 <= i < |cols| && Lower(cols[i].name) == k ==> DefColumns(cols)[k] == ColOf(cols[i])
  {
    hide Lower;
    if cols != [] {
      var init, last := cols[..|cols| - 1], |cols| - 1;
      assert forall i :: 0 <= i < |init| ==> init[i] == cols[i];
      DefColumnsAt(init, k);
      if i :| 0 <= i < |init| && Lower(init[i].name) == k {
        assert Lower(cols[i].name) == k;
      }
      if DistinctNames(cols) {
        assert DistinctNames(init);
      }
    }
  }

  lemma ColumnFound(t: TableSnapshot, c: ColumnInfo)
    requires WfColumns(t) && c in t.columns
    ensures Lower(c.name) in ColumnMap(t) && ColumnMap(t)[Lower(c.name)] == c
  {
    hide Lower, NameOk;
    FirstWinsFinds(t.columns, ColumnKey, AnyColumn, c);
  }

  lemma OrderedDistinct(t: TableSnapshot)
    requires WfColumns(t)
    ensures var cols := OrderedColumns(t);
      && (forall i :: 0 <= i < |cols| ==> cols[i] in t.columns)
      && (forall c :: c in t.columns ==> c in cols)
      && (forall i, j :: 0 <= i < j < |cols| ==> Lower(cols[i].name) != Lower(cols[j].name))
  {
    hide Lower, NameOk, OrderedColumns;
    var cols := OrderedColumns(t);
    SortMembers(BeforeOrdinal, t.columns);
    assert cols == SortBy(BeforeOrdinal, t.columns) by { OrderedIs(t); }
    MapPermuted(ColumnKey, t.columns, cols);
    var names := Map(ColumnKey, t.columns);
    assert NoRepeats(names);
    PermutedNoRepeats(names, Map(ColumnKey, cols));
    forall i, j | 0 <= i < j < |cols| ensures Lower(cols[i].name) != Lower(cols[j].name) {
      assert Map(ColumnKey, cols)[i] != Map(ColumnKey, cols)[j];
    }
    forall i | 0 <= i < |cols| ensures cols[i] in t.columns {
      assert cols[i] in cols;
    }
  }

  lemma OrderedIs(t: TableSnapshot)
    ensures OrderedColumns(t) == SortBy(BeforeOrdinal, t.columns)
  {
  }

  lemma BodyColumns(t: TableSnapshot, k: string)
    requires WfColumns(t)
    ensures var cols := DefColumns(ColumnDefs(Sqlite, OrderedColumns(t)));
      && (k in cols <==> k in ColumnMap(t))
      && (k in cols ==> cols[k] == ColOf(ColumnDefOf(Sqlite, ColumnMap(t)[k])))
  {
    OrderedDistinct(t);
    hide Lower, WfColumns, OrderedColumns, DefColumns, ColumnMap, NormalizeType, StoredDefault;
    var cols := OrderedColumns(t);
    var defs := ColumnDefs(Sqlite, cols);
    assert DistinctNames(defs);
    DefColumnsAt(defs, k);
    if k in DefColumns(defs) {
      var i :| 0 <= i < |defs| && Lower(defs[i].name) == k;
      ColumnFound(t, cols[i]);
      assert Lower(cols[i].name) == k;
    }
    if k in ColumnMap(t) {
      ColumnMapKeyed(t, k);
      var i :| 0 <= i < |cols| && cols[i] == ColumnMap(t)[k];
      assert Lower(defs[i].name) == k;
    }
  }

  lemma DefinedColumn(c: ColumnInfo)
    ensures SameColumn(ColOf(ColumnDefOf(Sqlite, c)), c, false)
    ensures DefaultValue(StoredDefault(c.defaultValue)) == DefaultValue(c.defaultValue)
  {
    hide NormalizeType, NormalizeDefault, StoredDefault;
    NormalizeTypeIdempotent(Sqlite, c.dataType);
    DefaultSurvivesDdl(c.defaultValue);
  }

  lemma BodySameColumns(t: TableSnapshot)
    requires WfColumns(t)
    ensures SameColumns(DefColumns(ColumnDefs(Sqlite, OrderedColumns(t))), t, false)
  {
    hide WfColumns, ColumnMap, DefColumns, SameColumn, ColumnDefOf, OrderedColumns, ColumnDefs;
    var cols := DefColumns(ColumnDefs(Sqlite, OrderedColumns(t)));
    forall k ensures k in cols <==> k in ColumnMap(t) { BodyColumns(t, k); }
    forall k | k in cols ensures SameColumn(cols[k], ColumnMap(t)[k], false) {
      BodyColumns(t, k);
      DefinedColumn(ColumnMap(t)[k]);
    }
  }

  // ---- When CREATE TABLE takes a body ----

  lemma IndexColumnsKnown(t: TableSnapshot, idx: IndexInfo)
    requires WfIndex(t, idx)
    ensures |IndexColumns(idx)| == |idx.columns| > 0
    ensures forall i :: 0 <= i < |IndexColumns(idx)| ==> NameOk(IndexColumns(idx)[i]) && Lower(IndexColumns(idx)[i]) in ColumnMap(t)
  {
    hide Lower, NameOk, ColumnMap;
    var sorted := SortBy(BeforeByPosition, idx.columns);
    SortMembers(BeforeByPosition, idx.columns);
    forall i | 0 <= i < |sorted| ensures NameOk(sorted[i].name) && Lower(sorted[i].name) in ColumnMap(t) {
      assert sorted[i] in sorted;
    }
  }

  lemma {:induction false} FlaggedAt(cols: seq<ColumnInfo>, i: nat) returns (c: ColumnInfo)
    requires i < |FlaggedColumns(cols)|
    ensures c in cols && c.isPrimaryKey && c.name == FlaggedColumns(cols)[i]
  {
    if cols[0].isPrimaryKey && i == 0 {
      c := cols[0];
    } else {
      c := FlaggedAt(cols[1..], if cols[0].isPrimaryKey then i - 1 else i);
    }
  }

  lemma PkKnown(t: TableSnapshot)
    requires WfColumns(t) && WfIndexes(t)
    ensures forall i :: 0 <= i < |PkColumns(t)| ==> Lower(PkColumns(t)[i]) in ColumnMap(t)
  {
    hide Lower, NameOk, ColumnMap, FirstPrimary, WfIndex, IndexColumns, OrderedColumns;
    var p := FirstPrimary(t.indexes);
    if p.Some? {
      IndexColumnsKnown(t, p.value);
    }
    var flagged := FlaggedColumns(OrderedColumns(t));
    OrderedDistinct(t);
    forall i | 0 <= i < |flagged| ensures Lower(flagged[i]) in ColumnMap(t) {
      var c := FlaggedAt(OrderedColumns(t), i);
      ColumnFound(t, c);
    }
  }

  lemma DefUniques(b: TableBody, u: seq<string>)
    ensures u in DefOfBody(b).uniques <==> exists v :: v in b.uniques && LowerAll(v) == u
  {
    hide LowerAll, DefColumns, FkOf;
  }

  lemma DefFks(b: TableBody, u: FkState)
    ensures u in DefOfBody(b).fks <==> exists v :: v in b.fks && FkOf(v) == u
  {
    hide LowerAll, DefColumns, FkOf;
  }

  lemma BodyUniques(t: TableSnapshot)
    ensures DefOfBody(TableBodyOf(Sqlite, t)).uniques == UniqueLists(t)
  {
    hide IndexColumns, Lower, BeforeIndexName, ColumnDefs, PkColumns, DefColumns, IsUniqueConstraint, OrderedColumns, SortBy, Filter, Map, LowerAll;
    var kept := Filter(t.indexes, IsUniqueConstraint);
    var sorted := SortBy(BeforeIndexName, kept);
    FilterMember(t.indexes, IsUniqueConstraint);
    SortMembers(BeforeIndexName, kept);
    var b := TableBodyOf(Sqlite, t);
    forall u ensures u in DefOfBody(b).uniques <==> u in UniqueLists(t) {
      DefUniques(b, u);
      if u in DefOfBody(b).uniques {
        var v :| v in b.uniques && LowerAll(v) == u;
        MapMember(IndexColumns, sorted, v);
      }
      if u in UniqueLists(t) {
        var x :| x in t.indexes && IsUniqueConstraint(x) && LowerAll(IndexColumns(x)) == u;
        MapMember(IndexColumns, sorted, IndexColumns(x));
      }
    }
  }

  lemma BodyFks(t: TableSnapshot)
    ensures DefOfBody(TableBodyOf(Sqlite, t)).fks == FkStates(t)
  {
    hide FkOf, FkClauseOf, BeforeFk, ColumnDefs, PkColumns, DefColumns, OrderedColumns, Lower, SortBy, Filter, Map, LowerAll;
    var sorted := SortBy(BeforeFk, t.foreignKeys);
    SortMembers(BeforeFk, t.foreignKeys);
    var b := TableBodyOf(Sqlite, t);
    forall u ensures u in DefOfBody(b).fks <==> u in FkStates(t) {
      DefFks(b, u);
      if u in DefOfBody(b).fks {
        var v :| v in b.fks && FkOf(v) == u;
        MapMember(FkClauseOf, sorted, v);
      }
      if u in FkStates(t) {
        var x :| x in t.foreignKeys && FkOf(FkClauseOf(x)) == u;
        MapMember(FkClauseOf, sorted, FkClauseOf(x));
      }
    }
  }

  /** What CREATE TABLE makes of a snapshot: everything but the user's indexes. */
  lemma BodyRealises(t: TableSnapshot)
    requires WfTable(t)
    ensures var def := DefOfBody(TableBodyOf(Sqlite, t));
      && SameColumns(def.cols, t, false) && def.pk == LowerAll(PkColumns(t))
      && def.uniques == UniqueLists(t) && def.fks == FkStates(t) && def.indexes == map[]
  {
    hide WfColumns, WfIndexes, WfForeignKeys, SameColumns, UniqueLists, FkStates, Lower;
    BodySameColumns(t);
    BodyUniques(t);
    BodyFks(t);
  }

  lemma LowerAllKnown(names: seq<string>, t: TableSnapshot, cols: map<string, ColState>)
    requires cols.Keys == ColumnMap(t).Keys
    requires forall i :: 0 <= i < |names| ==> Lower(names[i]) in ColumnMap(t)
    ensures Within(LowerAll(names), cols)
  {
    hide Lower, ColumnMap;
    forall n | n in LowerAll(names) ensures n in cols {
      var i :| 0 <= i < |names| && LowerAll(names)[i] == n;
    }
  }

  lemma UniquesFit(t: TableSnapshot, cols: map<string, ColState>, u: seq<string>)
    requires WfIndexes(t) && u in UniqueLists(t) && cols.Keys == ColumnMap(t).Keys
    ensures UniqueFits(u, cols)
  {
    hide WfIndex, IndexColumns, ColumnMap, Within, IsUniqueConstraint, IndexKey;
    var x :| x in t.indexes && IsUniqueConstraint(x) && LowerAll(IndexColumns(x)) == u;
    IndexColumnsKnown(t, x);
    LowerAllKnown(IndexColumns(x), t, cols);
  }

  lemma FksFit(t: TableSnapshot, cols: map<string, ColState>, f: FkState)
    requires WfForeignKeys(t) && f in FkStates(t) && cols.Keys == ColumnMap(t).Keys
    ensures FkFits(f, cols)
  {
    hide WfForeignKey, ColumnMap, FkFits, FkOf, FkClauseOf, FkKey, FkObjectKey;
    var x :| x in t.foreignKeys && FkOf(FkClauseOf(x)) == f;
    FkKnown(t, x, cols);
  }

  /** The DEFAULT clause written for every column is one SQLite takes. */
  predicate DefaultsOk(t: TableSnapshot) {
    forall k :: k in ColumnMap(t) ==> ClauseOk(StoredDefault(ColumnMap(t)[k].defaultValue))
  }

  lemma BodyClauses(t: TableSnapshot)
    requires WfColumns(t)
    ensures ClausesOk(TableBodyOf(Sqlite, t).columns) <==> DefaultsOk(t)
  {
    OrderedDistinct(t);
    hide WfColumns, ColumnMap, OrderedColumns, ClauseOk, StoredDefault, NormalizeType, PkColumns, IndexColumns, Lower;
    var cols := OrderedColumns(t);
    var defs := ColumnDefs(Sqlite, cols);
    if DefaultsOk(t) {
      forall i | 0 <= i < |defs| ensures ClauseOk(defs[i].dflt) {
        ColumnFound(t, cols[i]);
      }
    }
    if ClausesOk(defs) {
      forall k | k in ColumnMap(t) ensures ClauseOk(StoredDefault(ColumnMap(t)[k].defaultValue)) {
        ColumnMapKeyed(t, k);
        var i :| 0 <= i < |cols| && cols[i] == ColumnMap(t)[k];
        assert ClauseOk(defs[i].dflt);
      }
    }
  }

  /** Of a well-formed table SQLite takes the body exactly when it takes the defaults. */
  lemma WfBodyOk(t: TableSnapshot)
    requires WfTable(t)
    ensures BodyOk(TableBodyOf(Sqlite, t)) <==> DefaultsOk(t)
  {
    BodyRealises(t);
    BodyClauses(t);
    PkKnown(t);
    BodyNames(t);
    hide ColumnMap, DefOfBody, WfColumns, WfIndexes, WfForeignKeys, PkColumns, SameColumn, Within, DistinctNames, TableBodyOf, UniqueLists, FkStates, Lower,
      UniqueFits, FkFits, ClausesOk, DefaultsOk;
    var def := DefOfBody(TableBodyOf(Sqlite, t));
    LowerAllKnown(PkColumns(t), t, def.cols);
    forall u | u in def.uniques ensures UniqueFits(u, def.cols) {
      UniquesFit(t, def.cols, u);
    }
    forall f | f in def.fks ensures FkFits(f, def.cols) {
      FksFit(t, def.cols, f);
    }
  }

  lemma BodyNames(t: TableSnapshot)
    requires WfColumns(t)
    ensures TableBodyOf(Sqlite, t).columns != [] && DistinctNames(TableBodyOf(Sqlite, t).columns)
  {
    OrderedDistinct(t);
    hide Lower, NameOk, OrderedColumns, ColumnMap, PkColumns, IndexColumns;
    assert t.columns[0] in t.columns;
  }

  lemma FkKnown(t: TableSnapshot, x: ForeignKeyInfo, cols: map<string, ColState>)
    requires WfForeignKey(t, x) && cols.Keys == ColumnMap(t).Keys
    ensures FkFits(FkOf(FkClauseOf(x)), cols)
  {
    hide ColumnMap, NameOk, Lower;
    LowerAllKnown(x.columns, t, cols);
  }

  // ---- Copying rows ----

  lemma {:induction false} CommonColumnsAt(s: TableSnapshot, cols: seq<ColumnInfo>, k: string)
    ensures k in LowerAll(CommonColumns(s, cols)) <==> k in ColumnMap(s) && exists i :: 0 <= i < |cols| && Lower(cols[i].name) == k
  {
    hide Lower, ColumnMap;
    if cols != [] {
      CommonColumnsAt(s, cols[1..], k);
      var r, rest := CommonColumns(s, cols), CommonColumns(s, cols[1..]);
      assert Lower(cols[0].name) in ColumnMap(s) ==> LowerAll(r) == [Lower(cols[0].name)] + LowerAll(rest);
      if i :| 0 <= i < |cols| && Lower(cols[i].name) == k {
        assert i > 0 ==> Lower(cols[1..][i - 1].name) == k;
      }
      if i :| 0 <= i < |cols[1..]| && Lower(cols[1..][i].name) == k {
        assert Lower(cols[i + 1].name) == k;
      }
    }
  }

  lemma Commons(s: TableSnapshot, t: TableSnapshot, k: string)
    requires WfColumns(t)
    ensures k in LowerAll(CommonColumns(s, OrderedColumns(t))) <==> k in ColumnMap(s) && k in ColumnMap(t)
  {
    OrderedDistinct(t);
    hide Lower, ColumnMap, OrderedColumns, WfColumns;
    var cols := OrderedColumns(t);
    CommonColumnsAt(s, cols, k);
    if i :| 0 <= i < |cols| && Lower(cols[i].name) == k {
      ColumnFound(t, cols[i]);
    }
    if k in ColumnMap(t) {
      ColumnMapKeyed(t, k);
      var i :| 0 <= i < |cols| && cols[i] == ColumnMap(t)[k];
      assert Lower(cols[i].name) == k;
    }
  }

  lemma CopyFits(s: TableSnapshot, t: TableSnapshot, row: Row)
    requires WfColumns(t)
    ensures CopyRow(DefOfBody(TableBodyOf(Sqlite, t)), LowerAll(CommonColumns(s, OrderedColumns(t))), row) == FitRow(s, t, row)
  {
    hide WfColumns, ColumnMap, CommonColumns, OrderedColumns, DefColumns, StoredDefault, Lower, DefaultValue, NormalizeType,
      PkColumns, IndexColumns, BeforeFk, BeforeIndexName, LowerAll, FkOf;
    var def := DefOfBody(TableBodyOf(Sqlite, t));
    var keys := LowerAll(CommonColumns(s, OrderedColumns(t)));
    var a, b := CopyRow(def, keys, row), FitRow(s, t, row);
    forall k ensures (k in a <==> k in b) && (k in a ==> a[k] == b[k]) {
      BodyColumns(t, k);
      Commons(s, t, k);
      if k in ColumnMap(t) {
        DefinedColumn(ColumnMap(t)[k]);
      }
    }
  }

  /** The copy succeeds exactly when the carried-over rows meet the target's constraints. */
  lemma CopyTable(s: TableSnapshot, t: TableSnapshot, old0: Table)
    requires WfColumns(t) && CommonColumn(s, t) && old0.def.cols.Keys == ColumnMap(s).Keys
    ensures var def, rows := DefOfBody(TableBodyOf(Sqlite, t)), Fit(s, t, old0.rows);
      CopyInto(Table(def, []), CommonColumns(s, OrderedColumns(t)), old0)
        == if RowsOk(def, rows) then Some(Table(def, rows)) else None
  {
    hide WfColumns, ColumnMap, CommonColumns, OrderedColumns, DefOfBody, TableBodyOf, Lower, CopyRow, FitRow, RowsOk;
    var def, cols := DefOfBody(TableBodyOf(Sqlite, t)), CommonColumns(s, OrderedColumns(t));
    var keys := LowerAll(cols);
    assert [] + CopyRows(def, keys, old0.rows) == Fit(s, t, old0.rows) by {
      forall i | 0 <= i < |old0.rows| ensures CopyRow(def, keys, old0.rows[i]) == FitRow(s, t, old0.rows[i]) {
        CopyFits(s, t, old0.rows[i]);
      }
    }
    forall k | k in keys ensures k in def.cols && k in old0.def.cols {
      Commons(s, t, k);
      BodyColumn(t, k);
    }
    var k :| k in ColumnMap(s) && k in ColumnMap(t);
    Commons(s, t, k);
  }

  lemma BodyColumn(t: TableSnapshot, k: string)
    requires WfColumns(t)
    ensures k in DefOfBody(TableBodyOf(Sqlite, t)).cols <==> k in ColumnMap(t)
  {
    hide WfColumns, ColumnMap, OrderedColumns, DefColumns, PkColumns, IndexColumns, BeforeFk, BeforeIndexName, LowerAll, FkOf;
    BodyColumns(t, k);
  }

  // ---- Adding the user's indexes ----

  function CreateIndexes(t: TableSnapshot, idxs: seq<IndexInfo>): (r: seq<Sql>)
    ensures |r| == |idxs| && forall i :: 0 <= i < |r| ==> r[i] == CreateIndexOf(t, idxs[i]) && r[i].CreateIndexSql?
  {
    seq(|idxs|, i requires 0 <= i < |idxs| => CreateIndexOf(t, idxs[i]))
  }

  function Installed(idxs: seq<IndexInfo>): map<string, IndexState> {
    if idxs == [] then map[] else Installed(idxs[..|idxs| - 1])[IndexKey(idxs[|idxs| - 1]) := IndexStateOf(idxs[|idxs| - 1])]
  }

  predicate IndexDataFits(idx: IndexInfo, rows: seq<Row>) {
    idx.unique ==> DistinctOn(rows, LowerAll(IndexColumns(idx)))
  }

  lemma NamedKey(t: TableSnapshot, idx: IndexInfo)
    requires NameOk(idx.name)
    ensures IndexKey(idx) == Lower(idx.name) && IndexExecName(t, idx) == idx.name && IndexObject(idx) == idx.name
  {
  }

  lemma {:induction false} InstalledAt(idxs: seq<IndexInfo>, k: string)
    ensures k in Installed(idxs) <==> exists i :: 0 <= i < |idxs| && IndexKey(idxs[i]) == k
    ensures k in Installed(idxs) ==> exists i :: 0 <= i < |idxs| && IndexKey(idxs[i]) == k && Installed(idxs)[k] == IndexStateOf(idxs[i])
  {
    hide IndexKey, IndexStateOf;
    if idxs != [] {
      var init := idxs[..|idxs| - 1];
      InstalledAt(init, k);
      assert forall i :: 0 <= i < |init| ==> init[i] == idxs[i];
      if i :| 0 <= i < |idxs| && IndexKey(idxs[i]) == k {
        assert i < |init| ==> init[i] == idxs[i];
      }
    }
  }

  function WithIndexes(t: Table, indexes: map<string, IndexState>): Table { t.(def := t.def.(indexes := indexes)) }

  predicate AllDataFit(idxs: seq<IndexInfo>, rows: seq<Row>) {
    forall i :: 0 <= i < |idxs| ==> IndexDataFits(idxs[i], rows)
  }

  predicate DistinctIndexes(t: TableSnapshot, idxs: seq<IndexInfo>) {
    && (forall i :: 0 <= i < |idxs| ==> WfIndex(t, idxs[i]))
    && (forall i, j :: 0 <= i < j < |idxs| ==> IndexKey(idxs[i]) != IndexKey(idxs[j]))
  }

  lemma AddIndexesSnoc(t0: Table, init: seq<Sql>, last: Sql)
    requires last.CreateIndexSql? && forall i :: 0 <= i < |init| ==> init[i].CreateIndexSql?
    ensures forall i :: 0 <= i < |init + [last]| ==> (init + [last])[i].CreateIndexSql?
    ensures AddIndexes(t0, init + [last])
         == if AddIndexes(t0, init).None? then None else AddIndexSql(AddIndexes(t0, init).value, last)
  {
    hide AddIndexSql;
    assert (init + [last])[..|init|] == init;
  }

  lemma CreateIndexesSnoc(t: TableSnapshot, init: seq<IndexInfo>, last: IndexInfo)
    ensures CreateIndexes(t, init + [last]) == CreateIndexes(t, init) + [CreateIndexOf(t, last)]
  {
    hide CreateIndexOf;
  }

  lemma {:induction false} IndexesInstalled(t: TableSnapshot, idxs: seq<IndexInfo>, t0: Table)
    requires DistinctIndexes(t, idxs) && t0.def.indexes == map[] && t0.def.cols.Keys == ColumnMap(t).Keys
    ensures AddIndexes(t0, CreateIndexes(t, idxs))
         == if AllDataFit(idxs, t0.rows) then Some(WithIndexes(t0, Installed(idxs))) else None
  {
    if idxs == [] {
      assert t0.(def := t0.def.(indexes := map[])) == t0;
    } else {
      var init, last := idxs[..|idxs| - 1], idxs[|idxs| - 1];
      assert idxs == init + [last];
      SplitInstalled(t, init, last);
      InstalledAt(init, IndexKey(last));
      hide WfIndex, IndexKey, ColumnMap, IndexDataFits, IndexStateOf, AddIndexSql, DistinctIndexes, AllDataFit, Installed, AddIndexes, CreateIndexes, CreateIndexOf;
      IndexesInstalled(t, init, t0);
      CreateIndexesSnoc(t, init, last);
      AddIndexesSnoc(t0, CreateIndexes(t, init), CreateIndexOf(t, last));
      OneInstalled(t, last, WithIndexes(t0, Installed(init)));
      AllDataSplit(init, last, t0.rows);
    }
  }

  lemma SplitInstalled(t: TableSnapshot, init: seq<IndexInfo>, last: IndexInfo)
    requires DistinctIndexes(t, init + [last])
    ensures DistinctIndexes(t, init) && WfIndex(t, last) && forall i :: 0 <= i < |init| ==> IndexKey(init[i]) != IndexKey(last)
    ensures Installed(init + [last]) == Installed(init)[IndexKey(last) := IndexStateOf(last)]
  {
    hide WfIndex, IndexKey;
    var all := init + [last];
    assert all[..|all| - 1] == init && all[|all| - 1] == last;
    assert forall i :: 0 <= i < |init| ==> all[i] == init[i];
  }

  lemma AllDataSplit(init: seq<IndexInfo>, last: IndexInfo, rows: seq<Row>)
    ensures AllDataFit(init + [last], rows) <==> AllDataFit(init, rows) && IndexDataFits(last, rows)
  {
    hide IndexDataFits;
    var all := init + [last];
    assert all[|init|] == last;
    assert forall i :: 0 <= i < |init| ==> all[i] == init[i];
  }

  lemma OneInstalled(t: TableSnapshot, idx: IndexInfo, t0: Table)
    requires WfIndex(t, idx) && IndexKey(idx) !in t0.def.indexes && t0.def.cols.Keys == ColumnMap(t).Keys
    ensures AddIndexSql(t0, CreateIndexOf(t, idx)) ==
      if IndexDataFits(idx, t0.rows) then Some(WithIndexes(t0, t0.def.indexes[IndexKey(idx) := IndexStateOf(idx)])) else None
  {
    hide ColumnMap, IndexColumns, DistinctOn, Lower, NameOk, Within, IndexObject;
    IndexColumnsKnown(t, idx);
    LowerAllKnown(IndexColumns(idx), t, t0.def.cols);
    NamedKey(t, idx);
  }

  lemma UserIndexList(t: TableSnapshot)
    requires WfIndexes(t)
    ensures var idxs := UserIndexes(t);
      && DistinctIndexes(t, idxs)
      && (forall x :: x in idxs <==> x in t.indexes && IsUserIndex(x))
  {
    hide WfIndex, IndexKey, IsUserIndex, SortBy, Filter, BeforeExecName;
    var idxs := UserIndexes(t);
    SortedFilter(BeforeExecName(t), t.indexes, IndexKey, IsUserIndex);
    assert forall i :: 0 <= i < |idxs| ==> idxs[i] in idxs;
  }

  lemma IndexFound(t: TableSnapshot, x: IndexInfo)
    requires WfIndexes(t) && x in t.indexes && !x.primary
    ensures IndexKey(x) in SecondaryMap(t) && SecondaryMap(t)[IndexKey(x)] == x
  {
    hide WfIndex, IndexKey;
    assert DistinctKeys(t.indexes, IndexKey, IsSecondary);
    FirstWinsFinds(t.indexes, IndexKey, IsSecondary, x);
  }

  lemma InstalledUserIndex(t: TableSnapshot, k: string)
    requires WfIndexes(t)
    ensures var a, b := Installed(UserIndexes(t)), UserIndexStates(t);
      (k in a <==> k in b) && (k in a ==> a[k] == b[k])
  {
    UserIndexList(t);
    hide WfIndexes, IndexKey, IsUserIndex, UserIndexes, SecondaryMap, IndexStateOf, Installed, DistinctIndexes;
    var idxs := UserIndexes(t);
    InstalledAt(idxs, k);
    if k in Installed(idxs) {
      var i :| 0 <= i < |idxs| && IndexKey(idxs[i]) == k && Installed(idxs)[k] == IndexStateOf(idxs[i]);
      assert idxs[i] in idxs;
      UserIsSecondary(idxs[i]);
      IndexFound(t, idxs[i]);
    }
    if k in UserIndexStates(t) {
      SecondaryMapKeyed(t, k);
      var x := SecondaryMap(t)[k];
      assert x in idxs;
      var i :| 0 <= i < |idxs| && idxs[i] == x;
    }
  }

  lemma InstalledUserIndexes(t: TableSnapshot)
    requires WfIndexes(t)
    ensures Installed(UserIndexes(t)) == UserIndexStates(t)
  {
    hide WfIndexes, Installed, UserIndexStates, UserIndexes;
    forall k ensures var a, b := Installed(UserIndexes(t)), UserIndexStates(t); (k in a <==> k in b) && (k in a ==> a[k] == b[k]) {
      InstalledUserIndex(t, k);
    }
  }

  lemma UserIsSecondary(x: IndexInfo)
    ensures IsUserIndex(x) ==> !x.primary
  {
  }

  // ---- A rebuild ----

  /** What the data must satisfy for the rebuild to go through. */
  predicate RebuildData(s: TableSnapshot, t: TableSnapshot, rows: seq<Row>) {
    && RowsOk(DefOfBody(TableBodyOf(Sqlite, t)), Fit(s, t, rows))
    && UserIndexesFit(t, Fit(s, t, rows))
  }

  predicate RebuildFits(s: TableSnapshot, t: TableSnapshot, rows: seq<Row>) { DefaultsOk(t) && RebuildData(s, t, rows) }

  function Rebuilt(s: TableSnapshot, t: TableSnapshot, rows: seq<Row>): Table {
    Table(DefOfBody(TableBodyOf(Sqlite, t)).(indexes := UserIndexStates(t)), Fit(s, t, rows))
  }

  lemma RebuiltRealises(s: TableSnapshot, t: TableSnapshot, rows: seq<Row>)
    requires WfTable(t)
    ensures Realises(Rebuilt(s, t, rows).def, t, false) && RowsTyped(Rebuilt(s, t, rows))
  {
    hide WfColumns, WfIndexes, WfForeignKeys, SameColumn, ColumnMap, DefOfBody, TableBodyOf, UniqueLists, FkStates, UserIndexStates;
    BodyRealises(t);
  }

  /** A rebuild succeeds exactly when SQLite takes the defaults and the data fits, and yields the target's shape. */
  lemma RebuildTable(s: TableSnapshot, t: TableSnapshot, old0: Table)
    requires WfTable(t) && CommonColumn(s, t) && old0.def.cols.Keys == ColumnMap(s).Keys
    ensures RebuildStep(TableBodyOf(Sqlite, t), CommonColumns(s, OrderedColumns(t)), CreateIndexes(t, UserIndexes(t)), old0)
      == if RebuildFits(s, t, old0.rows) then Some(Rebuilt(s, t, old0.rows)) else None
  {
    WfBodyOk(t);
    CopyTable(s, t, old0);
    BodyIndexless(t);
    hide WfTable, CommonColumn, ColumnMap, DefOfBody, TableBodyOf, UserIndexes, CommonColumns, OrderedColumns, BodyOk,
      DefaultsOk, RowsOk, CopyInto, AddIndexes, UserIndexStates, UserIndexesFit, Rebuilt, CreateIndexes;
    IndexesFit(s, t, old0.rows);
  }

  lemma BodyIndexless(t: TableSnapshot)
    requires WfTable(t)
    ensures var def := DefOfBody(TableBodyOf(Sqlite, t)); def.cols.Keys == ColumnMap(t).Keys && def.indexes == map[]
  {
    hide WfColumns, WfIndexes, WfForeignKeys, SameColumn, UniqueLists, FkStates, Lower, DefOfBody, TableBodyOf, PkColumns, ColumnMap;
    BodyRealises(t);
  }

  predicate UserIndexesFit(t: TableSnapshot, rows: seq<Row>) {
    forall x :: x in t.indexes && IsUserIndex(x) ==> IndexDataFits(x, rows)
  }

  lemma UserIndexesListed(t: TableSnapshot, rows: seq<Row>)
    requires WfIndexes(t)
    ensures AllDataFit(UserIndexes(t), rows) <==> UserIndexesFit(t, rows)
  {
    UserIndexList(t);
    hide UserIndexes, IndexDataFits, IsUserIndex, DistinctIndexes, WfIndexes;
    var idxs := UserIndexes(t);
    if AllDataFit(idxs, rows) {
      forall x | x in t.indexes && IsUserIndex(x) ensures IndexDataFits(x, rows) {
        var i :| 0 <= i < |idxs| && idxs[i] == x;
      }
    } else {
      var i :| 0 <= i < |idxs| && !IndexDataFits(idxs[i], rows);
      assert idxs[i] in idxs;
    }
  }

  lemma IndexesFit(s: TableSnapshot, t: TableSnapshot, rows: seq<Row>)
    requires WfTable(t)
    ensures AddIndexes(Table(DefOfBody(TableBodyOf(Sqlite, t)), Fit(s, t, rows)), CreateIndexes(t, UserIndexes(t)))
      == if UserIndexesFit(t, Fit(s, t, rows)) then Some(Rebuilt(s, t, rows)) else None
  {
    BodyIndexless(t);
    UserIndexList(t);
    InstalledUserIndexes(t);
    UserIndexesListed(t, Fit(s, t, rows));
    hide WfTable, ColumnMap, DefOfBody, TableBodyOf, UserIndexes, AddIndexes, Installed, UserIndexStates, UserIndexesFit, AllDataFit,
      DistinctIndexes, Fit, CreateIndexes;
    IndexesInstalled(t, UserIndexes(t), Table(DefOfBody(TableBodyOf(Sqlite, t)), Fit(s, t, rows)));
  }
}
