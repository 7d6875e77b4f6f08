/// Convergence when no foreign key into a dropped table acts on delete: the data condition is
/// then about the source database itself.
module PlainDrops {
  import opened Text
  import opened Sequences
  import opened TypeNames
  import opened Snapshots
  import opened Plan
  import opened PlanOrder
  import opened Mirror
  import opened Script
  import opened Defaults
  import opened Database
  import opened Obstructions
  import opened Locality
  import opened Runs
  import opened WellFormed
  import opened PlanIds
  import opened Shape
  import opened Agreement
  import opened InPlaceTables
  import opened InPlaceEnd
  import opened ScriptUnits
  import opened PlanUnits
  import opened TableRuns
  import opened Convergence
  import opened Drops
  import opened Sparing
  import opened FullScript
  import opened Rollback
  import opened SyncTheorems

  /** No foreign key into a table the target lacks deletes or changes rows. */
  ghost predicate NoActions(source: Snapshot, target: Snapshot) {
    forall k, f :: k in TableMap(source) && f in TableMap(source)[k].foreignKeys
      && Lower(f.referencedTable) in TableMap(source) && Lower(f.referencedTable) !in TableMap(target)
      ==> f.onDelete !in {Cascade, SetNull, SetDefault}
  }

  // ---- The plan's drops ----

  lemma DropEntryIs(source: Snapshot, target: Snapshot, opts: Options, plan: seq<Entry>, e: Entry)
    requires WholePlan(source, target, opts, plan) && WfSnapshot(target) && e in plan && e.op == DropTable
    ensures Lower(e.table) in TableMap(source) && e == Mk(DropTable, TableMap(source)[Lower(e.table)].name, "", opts)
  {
    hide TableMap, DistinctTags, PhasesAscend, DiffTable, Lower, WfSnapshot;
    var k := Lower(e.table);
    if k in TableMap(source) && k in TableMap(target) {
      TableEntries(Sqlite, TableMap(source)[k], TableMap(target)[k], opts);
    }
  }

  lemma DropKeysOnce(source: Snapshot, target: Snapshot, opts: Options, plan: seq<Entry>)
    requires WholePlan(source, target, opts, plan) && WfSnapshot(target)
    ensures NoRepeats(DropKeys(plan))
  {
    var drops := Filter(plan, IsDropEntry);
    FilterMember(plan, IsDropEntry);
    assert DistinctTags(plan);
    hide TableMap, PhasesAscend, WholePlan, WfSnapshot, Filter, TagOf, Lower, FromPlan;
    forall a, b | 0 <= a < b < |drops| ensures CreateKey(drops[a]) != CreateKey(drops[b]) {
      var i, j := FilterBefore(plan, IsDropEntry, a, b);
      assert drops[a] in drops && drops[b] in drops;
      DropEntryIs(source, target, opts, plan, drops[a]);
      DropEntryIs(source, target, opts, plan, drops[b]);
      assert Map(TagOf, plan)[i] != Map(TagOf, plan)[j];
    }
  }

  // ---- Tables are dropped by name ----

  /** Text before a NUL decides the byte order. */
  lemma {:induction false} LeqBeforeNul(a: string, b: string, x: string, y: string)
    requires Free(a, '\0') && Free(b, '\0') && Leq(a + "\0" + x, b + "\0" + y)
    ensures Leq(a, b)
  {
    var u, v := a + "\0" + x, b + "\0" + y;
    assert a != [] ==> u[0] == a[0] && a[0] != '\0' && u[1..] == a[1..] + "\0" + x;
    assert v[0] == if b == [] then '\0' else b[0];
    if a != [] && b != [] && a[0] == b[0] {
      assert v[1..] == b[1..] + "\0" + y;
      LeqBeforeNul(a[1..], b[1..], x, y);
    }
  }

  lemma SameStart(p: string, a: string, b: string)
    requires Leq(p + a, p + b)
    ensures Leq(a, b)
    decreases |p|
  {
    if p == [] {
      assert p + a == a && p + b == b;
    } else {
      assert (p + a)[1..] == p[1..] + a && (p + b)[1..] == p[1..] + b;
      SameStart(p[1..], a, b);
    }
  }

  lemma SamePhaseOrder(a: Entry, b: Entry)
    requires BeforeInPlan(a, b) && a.op == b.op && Free(Lower(a.table), '\0') && Free(Lower(b.table), '\0')
    ensures Leq(Lower(a.table), Lower(b.table))
  {
    hide Leq, Lower, OpName, Free, Pad3;
    var p, x, y := Pad3(Phase(a.op)) + "\0", Lower(a.obj) + "\0" + Id(a), Lower(b.obj) + "\0" + Id(b);
    assert SortKey(a) == p + (Lower(a.table) + "\0" + x) && SortKey(b) == p + (Lower(b.table) + "\0" + y);
    SameStart(p, Lower(a.table) + "\0" + x, Lower(b.table) + "\0" + y);
    LeqBeforeNul(Lower(a.table), Lower(b.table), x, y);
  }

  lemma LowerFree(s: string)
    requires NameOk(s)
    ensures Free(Lower(s), '\0')
  {
    assert Free(s, '\0');
  }

  lemma PlanSorted(source: Snapshot, target: Snapshot, opts: Options, i: nat, j: nat)
    requires WfSnapshot(source) && WfSnapshot(target)
    requires var plan := PlanOf(source, target, opts); i < j < |plan| && !IsCreate(plan[i]) && !IsCreate(plan[j])
    ensures var plan := PlanOf(source, target, opts); BeforeInPlan(plan[i], plan[j])
  {
    PlanIs(source, target, opts);
    TableMapKeyed(target);
    var all, tm := Collected(source.kind, TableMap(source), TableMap(target), opts), TableMap(target);
    assert PlanOf(source, target, opts) == OrderEntries(all, tm);
    hide PlanOf, Diff, Collected, TableMap, WfSnapshot, BeforeInPlan, Comparable, Filter, TopoCreateTables;
    CollectedCreates(source.kind, TableMap(source), TableMap(target), opts);
    BeforeInPlanIsOrder();
    SortSorted(BeforeInPlan, all);
    var sorted := SortBy(BeforeInPlan, all);
    OrderPermutes(all, tm);
    SortCreates(all);
    TopoPermutes(sorted, tm);
    assert |multiset(TopoCreateTables(sorted, tm))| == |multiset(Creates(sorted))|;
    SubstituteKeeps(sorted, TopoCreateTables(sorted, tm), IsCreate);
  }

  /** The plan drops tables in the byte order of their lower-cased names, each once. */
  lemma DropsAscend(source: Snapshot, target: Snapshot, opts: Options, a: nat, b: nat)
    requires WfSnapshot(source) && WfSnapshot(target) && a < b < |DropKeys(PlanOf(source, target, opts))|
    ensures var keys := DropKeys(PlanOf(source, target, opts)); Leq(keys[a], keys[b]) && keys[a] != keys[b]
  {
    var plan := PlanOf(source, target, opts);
    var drops := Filter(plan, IsDropEntry);
    PlanIs(source, target, opts);
    DiffIsWholePlan(source, target, opts);
    hide PlanOf, WfSnapshot, WholePlan, TableMap, Diff, Filter, Comparable, BeforeInPlan, NameOk, Lower, Leq, Free, WfTable, IsAutoIndex;
    FilterMember(plan, IsDropEntry);
    DropKeysOnce(source, target, opts, plan);
    var i, j := FilterBefore(plan, IsDropEntry, a, b);
    assert drops[a] in drops && drops[b] in drops;
    PlanSorted(source, target, opts, i, j);
    DropNamed(source, target, opts, plan, drops[a]);
    DropNamed(source, target, opts, plan, drops[b]);
    SamePhaseOrder(drops[a], drops[b]);
    assert DropKeys(plan)[a] == CreateKey(drops[a]) && DropKeys(plan)[b] == CreateKey(drops[b]);
  }

  lemma DropNamed(source: Snapshot, target: Snapshot, opts: Options, plan: seq<Entry>, e: Entry)
    requires WholePlan(source, target, opts, plan) && WfSnapshot(source) && WfSnapshot(target) && e in plan && e.op == DropTable
    ensures Free(Lower(e.table), '\0')
  {
    hide WfSnapshot, WholePlan, TableMap, NameOk, Lower, Free, WfColumns, WfIndexes, WfForeignKeys, IsAutoIndex;
    DropEntryIs(source, target, opts, plan, e);
    TablesWf(source, Lower(e.table));
    LowerFree(TableMap(source)[Lower(e.table)].name);
  }

  // ---- No actions in the database ----

  lemma SourceFk(t: TableSnapshot, f: FkState)
    requires f in FkStates(t)
    ensures exists x :: x in t.foreignKeys && f.refTable == Lower(x.referencedTable) && f.onDelete == ActionOf(x.onDelete)
  {
    hide Lower, LowerAll;
    var x :| x in t.foreignKeys && FkOf(FkClauseOf(x)) == f;
    assert x in t.foreignKeys && f.refTable == Lower(x.referencedTable) && f.onDelete == ActionOf(x.onDelete);
  }

  lemma InertSource(source: Snapshot, target: Snapshot, opts: Options, plan: seq<Entry>, db: Db)
    requires WholePlan(source, target, opts, plan) && WfSnapshot(source) && WfSnapshot(target)
    requires NoActions(source, target) && Realising(db, source, opts.ignoreDefaults)
    ensures Inert(db.tables, KeySet(DropKeys(plan)))
  {
    hide TableMap, WfSnapshot, WholePlan, DropKeys, Realising, FkStates, Lower;
    forall t, f | t in db.tables && f in db.tables[t].def.fks && f.refTable in KeySet(DropKeys(plan)) ensures !Acts(f) {
      RealisingKeys(db, source, opts.ignoreDefaults);
      SourceFks(db, source, opts.ignoreDefaults, t);
      DropKeysAre(source, target, opts, plan, f.refTable);
      SourceFk(TableMap(source)[t], f);
    }
  }

  lemma RealisingKeys(db: Db, s: Snapshot, ignore: bool)
    requires Realising(db, s, ignore)
    ensures db.tables.Keys == TableMap(s).Keys
  {
    hide TableMap, Realises;
  }

  lemma InertTrimmed(sm: map<string, TableSnapshot>, tm: map<string, TableSnapshot>, tables: map<string, Table>, keys: set<string>)
    requires Inert(tables, keys)
    ensures Inert(TrimmedTables(sm, tm, tables), keys)
  {
    hide Gone, Unindexed, Cut;
  }

  // ---- Trimming does not change who refers to whom ----

  /** The same foreign keys, and rows alike in their columns. */
  predicate SeenAlike(x: Table, y: Table) {
    && x.def.fks == y.def.fks && |x.rows| == |y.rows|
    && forall i, f, c :: 0 <= i < |x.rows| && f in x.def.fks && c in f.columns ==> Get(x.rows[i], c) == Get(y.rows[i], c)
  }

  lemma PointsAlike(a: map<string, Table>, b: map<string, Table>, t: string, i: nat, f: FkState, j: nat)
    requires t in a && t in b && SeenAlike(a[t], b[t]) && PointsAt(a, t, i, f, j)
    requires f.refTable in b && a[f.refTable] == b[f.refTable]
    ensures PointsAt(b, t, i, f, j)
  {
    hide IsKey;
    forall n | 0 <= n < |f.columns| ensures Get(a[t].rows[i], f.columns[n]) == Get(b[t].rows[i], f.columns[n]) {
      assert f.columns[n] in f.columns;
    }
  }

  lemma HoldingAlike(a: map<string, Table>, b: map<string, Table>, k: string)
    requires a.Keys == b.Keys && (k in a ==> a[k] == b[k]) && forall t :: t in a ==> SeenAlike(a[t], b[t])
    requires Holding(a, k)
    ensures Holding(b, k)
  {
    hide PointsAt, SeenAlike;
    if t, i: nat, f: FkState, j: nat :| t != k && f.refTable == k && PointsAt(a, t, i, f, j) {
      PointsFrom(a, t, i, f, j);
      PointsAlike(a, b, t, i, f, j);
    } else {
      var i: nat, j: nat, f: FkState :| f.onDelete == Restrict && f.refTable == k && i < j && PointsAt(a, k, j, f, i);
      PointsFrom(a, k, j, f, i);
      PointsAlike(a, b, k, j, f, i);
    }
  }

  lemma AlikeBack(x: Table, y: Table)
    requires SeenAlike(x, y)
    ensures SeenAlike(y, x)
  {
  }

  lemma TrimmedAlike(s: TableSnapshot, t: TableSnapshot, x: Table)
    requires WfForeignKeys(t) && x.def.fks == FkStates(t)
    ensures SeenAlike(x, Trimmed(s, t, x))
  {
    hide Unindexed, FkStates, WfForeignKeys, ColumnMap;
    var y := Trimmed(s, t, x);
    forall i, f, c | 0 <= i < |x.rows| && f in x.def.fks && c in f.columns ensures Get(x.rows[i], c) == Get(y.rows[i], c) {
      FkColumn(t, f, c);
    }
  }

  lemma FkColumn(t: TableSnapshot, f: FkState, c: string)
    requires WfForeignKeys(t) && f in FkStates(t) && c in f.columns
    ensures c in ColumnMap(t)
  {
    hide FkStates, WfForeignKeys, ColumnMap;
    var cols := map k | k in ColumnMap(t) :: ColState("", false, None);
    FksFit(t, cols, f);
  }

  lemma TablesAlike(source: Snapshot, target: Snapshot, opts: Options, plan: seq<Entry>, forced: set<string>, db: Db, k: string)
    requires PlanSetting(source, target, opts, plan, forced) && Rebuilds(source, target, plan, forced) == {}
    requires Realising(db, source, opts.ignoreDefaults) && k in db.tables
    ensures k in TrimmedTables(TableMap(source), TableMap(target), db.tables)
    ensures SeenAlike(db.tables[k], TrimmedTables(TableMap(source), TableMap(target), db.tables)[k])
    ensures k !in TableMap(target) ==> TrimmedTables(TableMap(source), TableMap(target), db.tables)[k] == db.tables[k]
  {
    hide *;
    SettingChosen(source, target, opts, plan, forced);
    RealisingKeys(db, source, opts.ignoreDefaults);
    TrimmedAt(TableMap(source), TableMap(target), db.tables, k);
    if k in TableMap(target) {
      NotIn(k, Rebuilds(source, target, plan, forced));
      InPlaceFks(source, target, opts, plan, forced, k);
      SourceFks(db, source, opts.ignoreDefaults, k);
      TablesWf(target, k);
      WfParts(TableMap(target)[k]);
      TrimmedAlike(TableMap(source)[k], TableMap(target)[k], db.tables[k]);
    } else {
      AlikeSelf(db.tables[k]);
    }
  }

  lemma TrimmedAt(sm: map<string, TableSnapshot>, tm: map<string, TableSnapshot>, tables: map<string, Table>, k: string)
    requires k in tables
    ensures k in TrimmedTables(sm, tm, tables)
    ensures TrimmedTables(sm, tm, tables)[k] == if k in sm && k in tm then Trimmed(sm[k], tm[k], tables[k]) else tables[k]
    ensures TrimmedTables(sm, tm, tables).Keys == tables.Keys
  {
    hide Trimmed;
  }

  lemma AlikeSelf(x: Table)
    ensures SeenAlike(x, x)
  {
  }

  lemma HeldTrimmed(source: Snapshot, target: Snapshot, opts: Options, plan: seq<Entry>, forced: set<string>, db: Db)
    requires PlanSetting(source, target, opts, plan, forced) && Rebuilds(source, target, plan, forced) == {}
    requires Realising(db, source, opts.ignoreDefaults)
    ensures HeldAmong(TrimmedTables(TableMap(source), TableMap(target), db.tables), DropKeys(plan)) <==> HeldAmong(db.tables, DropKeys(plan))
  {
    SettingChosen(source, target, opts, plan, forced);
    hide PlanSetting, TableMap, Rebuilds, Realising, DropKeys, Holding, TrimmedTables, SeenAlike, WholePlan, WfSnapshot, Chosen;
    var keys, a, b := DropKeys(plan), db.tables, TrimmedTables(TableMap(source), TableMap(target), db.tables);
    RealisingKeys(db, source, opts.ignoreDefaults);
    TrimmedKeys(TableMap(source), TableMap(target), db.tables);
    forall i | 0 <= i < |keys| ensures Holding(b - KeySet(keys[..i]), keys[i]) <==> Holding(a - KeySet(keys[..i]), keys[i]) {
      assert keys[i] in keys;
      DropKeysAre(source, target, opts, plan, keys[i]);
      HeldTrimmedAt(source, target, opts, plan, forced, db, keys[i], KeySet(keys[..i]));
    }
  }

  lemma TrimmedKeys(sm: map<string, TableSnapshot>, tm: map<string, TableSnapshot>, tables: map<string, Table>)
    ensures TrimmedTables(sm, tm, tables).Keys == tables.Keys
  {
    hide Trimmed;
  }

  lemma HeldTrimmedAt(source: Snapshot, target: Snapshot, opts: Options, plan: seq<Entry>, forced: set<string>, db: Db, k: string, gone: set<string>)
    requires PlanSetting(source, target, opts, plan, forced) && Rebuilds(source, target, plan, forced) == {}
    requires Realising(db, source, opts.ignoreDefaults) && k in TableMap(source) && k !in TableMap(target)
    ensures var a, b := db.tables, TrimmedTables(TableMap(source), TableMap(target), db.tables);
      Holding(b - gone, k) <==> Holding(a - gone, k)
  {
    hide PlanSetting, TableMap, Rebuilds, Realising, Holding, TrimmedTables, SeenAlike;
    var a, b := db.tables, TrimmedTables(TableMap(source), TableMap(target), db.tables);
    TrimmedKeys(TableMap(source), TableMap(target), db.tables);
    forall t | t in a ensures SeenAlike(a[t], b[t]) && SeenAlike(b[t], a[t]) && (t == k ==> a[t] == b[t]) {
      TablesAlike(source, target, opts, plan, forced, db, t);
      AlikeBack(a[t], b[t]);
    }
    if Holding(a - gone, k) {
      HoldingAlike(a - gone, b - gone, k);
    }
    if Holding(b - gone, k) {
      HoldingAlike(b - gone, a - gone, k);
    }
  }

  // ---- What the drops spare carries over alike ----

  /** The same definition, and rows that carry over alike. */
  predicate CarriesAlike(s: TableSnapshot, t: TableSnapshot, x: Table, y: Table) {
    x.def == y.def && Fit(s, t, x.rows) == Fit(s, t, y.rows)
  }

  lemma RefilledCarries(s: TableSnapshot, t: TableSnapshot, x: Table)
    requires RowsTyped(x)
    ensures CarriesAlike(s, t, x, Refilled(x, Trimmed(s, t, x).rows))
  {
    hide ColumnMap, Unindexed, DefaultValue;
    var y := Refilled(x, Trimmed(s, t, x).rows);
    forall i | 0 <= i < |x.rows| ensures FitRow(s, t, x.rows[i]) == FitRow(s, t, y.rows[i]) {
      assert x.rows[i].Keys == x.def.cols.Keys;
    }
  }

  lemma SameFits(sm: map<string, TableSnapshot>, tm: map<string, TableSnapshot>, rebuild: set<string>, k: string, x: Option<Table>, y: Option<Table>,
                 ignore: bool, after: Option<Table>)
    requires x.Some? == y.Some? && (x.Some? ==> x.value.def == y.value.def)
    requires x.Some? && k in sm && k in tm ==> CarriesAlike(sm[k], tm[k], x.value, y.value)
    ensures TableFits(sm, tm, rebuild, k, x) <==> TableFits(sm, tm, rebuild, k, y)
    ensures TableEnds(sm, tm, rebuild, k, x, ignore, after) <==> TableEnds(sm, tm, rebuild, k, y, ignore, after)
  {
    hide DefaultsOk, ClauseOk, Realises, RealisesButPk, RowsTyped, UserIndexStates, ColumnMap, SecondaryMap, RowsOk, UserIndexesFit, DefOfBody, TableBodyOf, IndexDataFits, ColumnAdded,
      IndexAdded, TargetColumn, ValueAtHand, DefaultValue, FitRow;
    if k in sm && k in tm && x.Some? {
      assert |x.value.rows| == |Fit(sm[k], tm[k], x.value.rows)| == |y.value.rows|;
    }
  }

  lemma SameFinal(units: seq<Unit>, k: string, x: Option<Table>, y: Option<Table>, t: TableSnapshot)
    requires x.Some? == y.Some? && (x.Some? ==> x.value.def == y.value.def)
    ensures FinalFks(units, k, x, t) == FinalFks(units, k, y, t)
  {
    hide AimAll, Redeclared, FkStates;
  }

  lemma SameArrival(source: Snapshot, target: Snapshot, rebuild: set<string>, units: seq<Unit>, ignore: bool, db: Db, left: Db, end: Db)
    requires left.views == db.views
    requires forall k :: Lookup(left.tables, k).Some? == Lookup(db.tables, k).Some?
    requires forall k :: k in db.tables ==> k in left.tables && left.tables[k].def == db.tables[k].def
    requires forall k :: k in db.tables && k in TableMap(source) && k in TableMap(target) ==>
      CarriesAlike(TableMap(source)[k], TableMap(target)[k], db.tables[k], left.tables[k])
    ensures AllFit(source, target, rebuild, db) <==> AllFit(source, target, rebuild, left)
    ensures Arrives(source, target, rebuild, units, ignore, db, end) <==> Arrives(source, target, rebuild, units, ignore, left, end)
  {
    hide TableMap, TableFits, TableEnds, FinalFks, CarriesAlike, Declared;
    forall k
      ensures TableFits(TableMap(source), TableMap(target), rebuild, k, Lookup(db.tables, k))
        <==> TableFits(TableMap(source), TableMap(target), rebuild, k, Lookup(left.tables, k))
      ensures var after := Declared(TableMap(target), k, Lookup(end.tables, k));
        TableEnds(TableMap(source), TableMap(target), rebuild, k, Lookup(db.tables, k), ignore, after)
        <==> TableEnds(TableMap(source), TableMap(target), rebuild, k, Lookup(left.tables, k), ignore, after)
      ensures k in TableMap(target) ==>
        FinalFks(units, k, Lookup(db.tables, k), TableMap(target)[k]) == FinalFks(units, k, Lookup(left.tables, k), TableMap(target)[k])
    {
      SameFits(TableMap(source), TableMap(target), rebuild, k, Lookup(db.tables, k), Lookup(left.tables, k), ignore, Declared(TableMap(target), k, Lookup(end.tables, k)));
      if k in TableMap(target) {
        SameFinal(units, k, Lookup(db.tables, k), Lookup(left.tables, k), TableMap(target)[k]);
      }
    }
  }

  // ---- The spared database ----

  /** The tables as the drops find them: what the plan drops of the others is gone already. */
  ghost function AtDrops(source: Snapshot, target: Snapshot, db: Db): map<string, Table> {
    TrimmedTables(TableMap(source), TableMap(target), db.tables)
  }

  lemma SparedPlainly(source: Snapshot, target: Snapshot, opts: Options, plan: seq<Entry>, forced: set<string>, db: Db)
    requires PlanSetting(source, target, opts, plan, forced) && Rebuilds(source, target, plan, forced) == {}
    requires Realising(db, source, opts.ignoreDefaults) && NoActions(source, target)
    ensures var kept := DropAll(TrimmedTables(TableMap(source), TableMap(target), db.tables), DropKeys(plan));
      && (kept.Some? <==> !UnevenAmong(TrimmedTables(TableMap(source), TableMap(target), db.tables), DropKeys(plan)))
      && (kept.Some? ==> kept.value == TrimmedTables(TableMap(source), TableMap(target), db.tables) - KeySet(DropKeys(plan)))
  {
    hide *;
    SettingChosen(source, target, opts, plan, forced);
    InertSource(source, target, opts, plan, db);
    InertTrimmed(TableMap(source), TableMap(target), db.tables, KeySet(DropKeys(plan)));
    DropKeysOnce(source, target, opts, plan);
    RealisingKeys(db, source, opts.ignoreDefaults);
    TrimmedKeys(TableMap(source), TableMap(target), db.tables);
    forall k | k in DropKeys(plan) ensures k in TrimmedTables(TableMap(source), TableMap(target), db.tables) {
      DropKeysAre(source, target, opts, plan, k);
    }
    DropAllInertly(TrimmedTables(TableMap(source), TableMap(target), db.tables), DropKeys(plan));
  }

  lemma SparedTable(source: Snapshot, target: Snapshot, opts: Options, plan: seq<Entry>, forced: set<string>, db: Db, k: string)
    requires PlanSetting(source, target, opts, plan, forced) && Rebuilds(source, target, plan, forced) == {}
    requires Realising(db, source, opts.ignoreDefaults) && Typed(db) && NoActions(source, target) && Spared(source, target, plan, db).Some?
    requires k in TableMap(source) && k in TableMap(target) && k in db.tables
    ensures var left := Spared(source, target, plan, db).value;
      k in left.tables && CarriesAlike(TableMap(source)[k], TableMap(target)[k], db.tables[k], left.tables[k])
  {
    hide *;
    SettingChosen(source, target, opts, plan, forced);
    SparedLookup(source, target, plan, db, k);
    SparedPlainly(source, target, opts, plan, forced, db);
    DropKeysAre(source, target, opts, plan, k);
    KeySetIs(DropKeys(plan), k);
    TrimmedAt(TableMap(source), TableMap(target), db.tables, k);
    var kept := DropAll(TrimmedTables(TableMap(source), TableMap(target), db.tables), DropKeys(plan)).value;
    MinusAt(TrimmedTables(TableMap(source), TableMap(target), db.tables), KeySet(DropKeys(plan)), k);
    LookupOf(Spared(source, target, plan, db).value.tables, k);
    TypedAt(db, k);
    RefilledCarries(TableMap(source)[k], TableMap(target)[k], db.tables[k]);
  }

  lemma MinusAt(m: map<string, Table>, gone: set<string>, k: string)
    requires k in m && k !in gone
    ensures k in m - gone && (m - gone)[k] == m[k]
  {
  }

  lemma TypedAt(db: Db, k: string)
    requires Typed(db) && k in db.tables
    ensures RowsTyped(db.tables[k])
  {
    hide RowsTyped;
  }

  lemma LeftPlainly(source: Snapshot, target: Snapshot, opts: Options, plan: seq<Entry>, forced: set<string>, db: Db, units: seq<Unit>, end: Db)
    requires PlanSetting(source, target, opts, plan, forced) && Realising(db, source, opts.ignoreDefaults) && Typed(db) && NoActions(source, target)
    ensures var rebuild := Rebuilds(source, target, plan, forced);
      var left := Left(source, target, plan, rebuild, db);
      && (left.Some? <==> rebuild != {} || !db.enforce || !UnevenAmong(AtDrops(source, target, db), DropKeys(plan)))
      && (left.Some? ==>
            && (AllFit(source, target, rebuild, db) <==> AllFit(source, target, rebuild, left.value))
            && (Arrives(source, target, rebuild, units, opts.ignoreDefaults, db, end) <==> Arrives(source, target, rebuild, units, opts.ignoreDefaults, left.value, end)))
  {
    hide *;
    var rebuild := Rebuilds(source, target, plan, forced);
    LeftIs(source, target, plan, rebuild, db);
    AtDropsIs(source, target, db);
    if db.enforce && rebuild == {} {
      SparedIs(source, target, plan, db);
      SparedPlainly(source, target, opts, plan, forced, db);
      if Spared(source, target, plan, db).Some? {
        LeftDefs(source, target, plan, rebuild, db);
        var left := Spared(source, target, plan, db).value;
        forall k | k in db.tables && k in TableMap(source) && k in TableMap(target)
          ensures CarriesAlike(TableMap(source)[k], TableMap(target)[k], db.tables[k], left.tables[k])
        {
          SparedTable(source, target, opts, plan, forced, db, k);
        }
        forall k ensures Lookup(left.tables, k).Some? == Lookup(db.tables, k).Some? {
          LookupOf(left.tables, k);
          LookupOf(db.tables, k);
        }
        SameArrival(source, target, rebuild, units, opts.ignoreDefaults, db, left, end);
      }
    }
  }

  lemma AtDropsIs(source: Snapshot, target: Snapshot, db: Db)
    ensures AtDrops(source, target, db) == TrimmedTables(TableMap(source), TableMap(target), db.tables)
  {
    hide TableMap, TrimmedTables;
  }

  /** Where every reference finds its row, the drops are refused exactly when a table is still referred to in the source database. */
  lemma RefusedPlainly(source: Snapshot, target: Snapshot, opts: Options, db: Db)
    requires WfPair(source, target) && IsSource(db, source, target, opts)
    requires RebuiltOn(source, target, opts) == {} && Anchored(AtDrops(source, target, db))
    ensures var keys := DropKeys(PlanOf(source, target, opts));
      UnevenAmong(AtDrops(source, target, db), keys) <==> HeldAmong(db.tables, keys)
  {
    hide *;
    NothingForced(source, target);
    PlanSettingOn(source, target, opts, {});
    SettingChosen(source, target, opts, PlanOf(source, target, opts), {});
    RebuiltOnIs(source, target, opts);
    SourceParts(db, source, target, opts);
    AtDropsIs(source, target, db);
    RealisingKeys(db, source, opts.ignoreDefaults);
    TrimmedKeys(TableMap(source), TableMap(target), db.tables);
    DropKeysOnce(source, target, opts, PlanOf(source, target, opts));
    forall k | k in DropKeys(PlanOf(source, target, opts)) ensures k in AtDrops(source, target, db) {
      DropKeysAre(source, target, opts, PlanOf(source, target, opts), k);
    }
    AnchoredAmong(AtDrops(source, target, db), DropKeys(PlanOf(source, target, opts)));
    HeldTrimmed(source, target, opts, PlanOf(source, target, opts), {}, db);
  }

  /**
   * Where no foreign key into a dropped table acts, the script runs to the end exactly when nothing
   * obstructs it, SQLite takes the defaults, the source's data fits, and something is rebuilt, or
   * enforcement is off, or the count of violations comes out even for every table when its turn comes.
   */
  lemma ConvergesPlainly(source: Snapshot, target: Snapshot, opts: Options, db: Db)
    requires WfPair(source, target) && IsSource(db, source, target, opts) && NoActions(source, target)
    ensures var g := Generate(source, target, PlanOf(source, target, opts), opts);
      g.Ok? ==>
        var rebuild, r := RebuiltOn(source, target, opts), Run(Sqls(g.value.statements), db);
        && (r.Some? <==> !Obstructed(Sqls(g.value.statements), CatalogOf(db), db.views)
                         && DefaultsTaken(source, target, rebuild) && DataFits(source, target, rebuild, db)
                         && (rebuild != {} || !db.enforce || !UnevenAmong(AtDrops(source, target, db), DropKeys(PlanOf(source, target, opts)))))
        && (r.Some? ==> Arrives(source, target, rebuild, ForwardUnits(source, target, opts), opts.ignoreDefaults, db, r.value))
  {
    hide *;
    Converges(source, target, opts, db);
    NothingForced(source, target);
    PlanSettingOn(source, target, opts, {});
    RebuiltOnIs(source, target, opts);
    OnIs(source, target, opts, db);
    SourceParts(db, source, target, opts);
    var g := Generate(source, target, PlanOf(source, target, opts), opts);
    if g.Ok? {
      var rebuild, r := RebuiltOn(source, target, opts), Run(Sqls(g.value.statements), db);
      LeftPlainly(source, target, opts, PlanOf(source, target, opts), {}, db, ForwardUnits(source, target, opts), if r.Some? then r.value else db);
      AllFitIs(source, target, rebuild, db);
      if LeftOn(source, target, opts, db).Some? {
        AllFitIs(source, target, rebuild, LeftOn(source, target, opts, db).value);
      }
    }
  }

  lemma SourceParts(db: Db, source: Snapshot, target: Snapshot, opts: Options)
    requires IsSource(db, source, target, opts)
    ensures Realising(db, source, opts.ignoreDefaults) && Typed(db)
  {
    hide Realising, Typed, ViewMap;
  }
}
