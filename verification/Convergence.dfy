/// Convergence: when the script of the whole plan runs to the end, and what it
/// leaves behind.
module Convergence {
  import opened Text
  import opened Sequences
  import opened TypeNames
  import opened Snapshots
  import opened Plan
  import opened PlanOrder
  import opened Mirror
  import opened Script
  import opened Defaults
  import opened Database
  import opened Locality
  import opened Runs
  import opened WellFormed
  import opened PlanIds
  import opened Shape
  import opened Agreement
  import opened InPlaceTables
  import opened InPlaceRuns
  import opened InPlaceEnd
  import opened ScriptUnits
  import opened PlanUnits
  import opened TableRuns

  // ---- Databases that look like a snapshot ----

  ghost predicate Realising(db: Db, s: Snapshot, ignoreDefaults: bool) {
    && db.tables.Keys == TableMap(s).Keys
    && forall k :: k in db.tables ==> Realises(db.tables[k].def, TableMap(s)[k], ignoreDefaults)
  }

  ghost predicate Typed(db: Db) { forall k :: k in db.tables ==> RowsTyped(db.tables[k]) }

  /** The table with its foreign keys as the snapshot declares them. */
  function Declared(m: map<string, TableSnapshot>, k: string, ot: Option<Table>): Option<Table> {
    if ot.Some? && k in m then Some(Aimed(ot.value, FkStates(m[k]))) else ot
  }

  /**
   * A table the script may start from.  Its foreign keys are on the source's columns, whatever
   * they name.  One the target drops need only be there with its indexes; any other has the source's
   * shape, its primary key being that of either side.
   */
  predicate StandsTable(s: TableSnapshot, tm: map<string, TableSnapshot>, k: string, x: Table, ignoreDefaults: bool) {
    && RowsTyped(x) && Lists(x.def.fks) == Lists(FkStates(s)) && x.def.indexes.Keys <= UserIndexStates(s).Keys
    && (k in tm ==> RealisesButPk(Aimed(x, FkStates(s)).def, s, ignoreDefaults) && PkOfEither(x.def, s, tm[k]))
  }

  /** A database the script from source to target may run on. */
  ghost predicate Stands(db: Db, source: Snapshot, target: Snapshot, ignoreDefaults: bool) {
    && db.tables.Keys == TableMap(source).Keys
    && (forall k :: k in db.tables ==> StandsTable(TableMap(source)[k], TableMap(target), k, db.tables[k], ignoreDefaults))
    && db.views.Keys <= ViewMap(source).Keys + ViewMap(target).Keys
  }

  /** In particular the database the source snapshot was taken of. */
  lemma SnapshotStands(db: Db, source: Snapshot, target: Snapshot, ignoreDefaults: bool)
    requires Realising(db, source, ignoreDefaults) && Typed(db) && db.views.Keys <= ViewMap(source).Keys + ViewMap(target).Keys
    ensures Stands(db, source, target, ignoreDefaults)
  {
    hide TableMap, ViewMap, RowsTyped, Realises, StandsTable;
    forall k | k in db.tables ensures StandsTable(TableMap(source)[k], TableMap(target), k, db.tables[k], ignoreDefaults) {
      TableStands(TableMap(source)[k], TableMap(target), k, db.tables[k], ignoreDefaults);
    }
  }

  lemma TableStands(s: TableSnapshot, tm: map<string, TableSnapshot>, k: string, x: Table, ignore: bool)
    requires Realises(x.def, s, ignore) && RowsTyped(x)
    ensures StandsTable(s, tm, k, x, ignore)
  {
    hide RowsTyped, SameColumns, PkColumns, UniqueLists, FkStates, UserIndexStates;
    assert Aimed(x, FkStates(s)) == x;
    assert x.def.(pk := LowerAll(PkColumns(s))) == x.def;
  }

  // ---- One table ----

  function RowsOf(x: Option<Table>): seq<Row> { if x.Some? then x.value.rows else [] }

  /** What the defaults table k declares, and its rows, must satisfy. */
  ghost predicate TableFits(sm: map<string, TableSnapshot>, tm: map<string, TableSnapshot>, rebuild: set<string>, k: string, before: Option<Table>) {
    k in tm ==>
      if k !in sm then DefaultsOk(tm[k])
      else if k in rebuild then RebuildFits(sm[k], tm[k], RowsOf(before)) else InPlaceFits(sm[k], tm[k], RowsOf(before))
  }

  /** SQLite takes the defaults: of every column of a table created or rebuilt, of the added columns of the others. */
  ghost predicate TableTaken(sm: map<string, TableSnapshot>, tm: map<string, TableSnapshot>, rebuild: set<string>, k: string) {
    k in tm ==> if k in sm && k !in rebuild then AddedDefaultsOk(sm[k], tm[k]) else DefaultsOk(tm[k])
  }

  /** What table k's rows must satisfy. */
  ghost predicate TableData(sm: map<string, TableSnapshot>, tm: map<string, TableSnapshot>, rebuild: set<string>, k: string, before: Option<Table>) {
    k in sm && k in tm ==> if k in rebuild then RebuildData(sm[k], tm[k], RowsOf(before)) else InPlaceData(sm[k], tm[k], RowsOf(before))
  }

  lemma TableFitsIs(sm: map<string, TableSnapshot>, tm: map<string, TableSnapshot>, rebuild: set<string>, k: string, before: Option<Table>)
    ensures TableFits(sm, tm, rebuild, k, before) <==> TableTaken(sm, tm, rebuild, k) && TableData(sm, tm, rebuild, k, before)
  {
    hide DefaultsOk, RebuildData, InPlaceFits, InPlaceData, AddedDefaultsOk;
    if k in sm && k in tm {
      InPlaceFitsIs(sm[k], tm[k], RowsOf(before));
    }
  }

  /** Where the script takes table k: shape and rows. */
  ghost predicate TableEnds(sm: map<string, TableSnapshot>, tm: map<string, TableSnapshot>, rebuild: set<string>, k: string,
                            before: Option<Table>, ignoreDefaults: bool, after: Option<Table>)
  {
    if k !in tm then after == None else
    && after.Some? && RowsTyped(after.value)
    && if k !in sm then
         && after.value.rows == [] && after.value.def.indexes == map[]
         && Realises(after.value.def.(indexes := UserIndexStates(tm[k])), tm[k], ignoreDefaults)
       else
         && after.value.rows == Fit(sm[k], tm[k], RowsOf(before))
         && if k in rebuild then Realises(after.value.def, tm[k], ignoreDefaults)
            else before.Some? && after.value.def.pk == before.value.def.pk && RealisesButPk(after.value.def, tm[k], ignoreDefaults)
  }

  ghost predicate PlanSetting(source: Snapshot, target: Snapshot, opts: Options, plan: seq<Entry>, forced: set<string>) {
    && WfPair(source, target) && WholePlan(source, target, opts, plan)
    && forced <= TableMap(source).Keys * TableMap(target).Keys
  }

  lemma SettingChosen(source: Snapshot, target: Snapshot, opts: Options, plan: seq<Entry>, forced: set<string>)
    requires PlanSetting(source, target, opts, plan, forced)
    ensures Chosen(source, target, opts, plan, forced) && WholePlan(source, target, opts, plan)
    ensures WfSnapshot(source) && WfSnapshot(target)
  {
    hide FromPlan, TableMap, WfTable, DistinctTags, PhasesAscend, NamesOk, ViewMap, CommonColumn;
  }

  ghost predicate ScriptRuns(source: Snapshot, target: Snapshot, entries: seq<Entry>, forced: set<string>) {
    RunsOk(NamesOf(source, target), EmissionOf(source, target, entries), ScriptBlocks(source, target, entries, forced))
  }

  /** The script's effect on table k alone. */
  ghost function TableScript(source: Snapshot, target: Snapshot, entries: seq<Entry>, forced: set<string>, k: string, ot: Option<Table>)
    : Option<Option<Table>>
    requires ScriptRuns(source, target, entries, forced)
  {
    BlockRun(NamesOf(source, target), EmissionOf(source, target, entries), ScriptBlocks(source, target, entries, forced), k, ot)
  }

  lemma ScriptIsOk(source: Snapshot, target: Snapshot, opts: Options, entries: seq<Entry>, forced: set<string>)
    requires Chosen(source, target, opts, entries, forced) && NoStubs(source, target, entries, forced)
    ensures ScriptRuns(source, target, entries, forced)
  {
    hide Chosen, BlocksOk, UnitsOk, UnitsOf, NamesOf, EmissionOf, ScriptBlocks;
    ScriptUnitsOk(source, target, opts, entries, forced);
  }

  /** The run of table k over blocks `own`, those of the script that are its own. */
  lemma TableBlocks(source: Snapshot, target: Snapshot, entries: seq<Entry>, forced: set<string>, k: string, ot: Option<Table>, own: seq<Block>)
    requires ScriptRuns(source, target, entries, forced)
    requires Filter(ScriptBlocks(source, target, entries, forced), OfKey(k)) == own
    ensures var w, x := NamesOf(source, target), EmissionOf(source, target, entries);
      RunsOk(w, x, own) && TableScript(source, target, entries, forced, k, ot) == BlockRun(w, x, own, k, ot)
  {
    hide RunsOk, BlockRun, NamesOf, EmissionOf, ScriptBlocks, Filter;
    OnlyOwnBlocks(NamesOf(source, target), EmissionOf(source, target, entries), ScriptBlocks(source, target, entries, forced), own, k, ot);
  }

  lemma EmissionIs(source: Snapshot, target: Snapshot, entries: seq<Entry>)
    ensures var x := EmissionOf(source, target, entries);
      x.kind == source.kind && x.src == TableMap(source) && x.tgt == TableMap(target) && x.taken == TakenNames(source, target)
  {
  }

  lemma CreatedEnds(source: Snapshot, target: Snapshot, opts: Options, plan: seq<Entry>, forced: set<string>, k: string)
    requires PlanSetting(source, target, opts, plan, forced) && ScriptRuns(source, target, plan, forced)
    requires k in TableMap(target) && k !in TableMap(source)
    ensures var r := TableScript(source, target, plan, forced, k, None);
      && (r.Some? <==> DefaultsOk(TableMap(target)[k]))
      && (r.Some? ==> TableEnds(TableMap(source), TableMap(target), Rebuilds(source, target, plan, forced), k, None, opts.ignoreDefaults, r.value))
  {
    hide *;
    SettingChosen(source, target, opts, plan, forced);
    TablesWf(target, k);
    RebuildsBoth(source, target, opts, plan, forced);
    OwnCreate(source, target, opts, plan, k);
    var t := TableMap(target)[k];
    var e := Mk(CreateTable, t.name, "", opts);
    ScriptBlocksAre(source, target, plan, forced, k);
    OneDirect(e);
    TableBlocks(source, target, plan, forced, k, None, [Direct(e)]);
    EmissionIs(source, target, plan);
    SqliteKind(source);
    MkIs(CreateTable, t.name, opts);
    CreateRun(NamesOf(source, target), EmissionOf(source, target, plan), e, k);
    BodyRealises(t);
    CreatedShape(TableMap(source), TableMap(target), Rebuilds(source, target, plan, forced), k, opts.ignoreDefaults);
  }

  lemma SqliteKind(s: Snapshot)
    requires WfSnapshot(s)
    ensures s.kind == Sqlite
  {
  }

  lemma MkIs(op: Op, table: string, opts: Options)
    ensures Mk(op, table, "", opts).op == op && Mk(op, table, "", opts).table == table
  {
  }

  lemma OneDirect(e: Entry)
    ensures Map(DirectBlock, [e]) == [Direct(e)]
  {
  }

  lemma ScriptBlocksAre(source: Snapshot, target: Snapshot, entries: seq<Entry>, forced: set<string>, k: string)
    ensures var rebuild, own := Rebuilds(source, target, entries, forced), Own(entries, k);
      Filter(ScriptBlocks(source, target, entries, forced), OfKey(k))
        == if k !in rebuild then Map(DirectBlock, own)
           else if own == [] then [] else [GroupOf(entries, k, Phase(own[0].op))]
  {
    hide Rebuilds, Filter, Own, GroupOf, Blocks;
    var rebuild := Rebuilds(source, target, entries, forced);
    if k in rebuild {
      GroupBlocks(entries, entries, rebuild, {}, k);
    } else {
      DirectBlocks(entries, entries, rebuild, {}, k);
    }
  }

  lemma CreatedShape(sm: map<string, TableSnapshot>, tm: map<string, TableSnapshot>, rebuild: set<string>, k: string, ignore: bool)
    requires k in tm && k !in sm && WfTable(tm[k])
    ensures TableEnds(sm, tm, rebuild, k, None, ignore, Some(Table(DefOfBody(TableBodyOf(Sqlite, tm[k])), [])))
  {
    hide WfTable, SameColumns, UniqueLists, FkStates, PkColumns, DefOfBody, TableBodyOf, UserIndexStates;
    BodyRealises(tm[k]);
    SameColumnsIgnore(DefOfBody(TableBodyOf(Sqlite, tm[k])).cols, tm[k], ignore);
  }

  lemma SameColumnsIgnore(cols: map<string, ColState>, t: TableSnapshot, ignore: bool)
    requires SameColumns(cols, t, false)
    ensures SameColumns(cols, t, ignore)
  {
    hide ColumnMap, SameColumn;
    forall k | k in cols ensures SameColumn(cols[k], ColumnMap(t)[k], ignore) {
      IgnoreMore(cols[k], ColumnMap(t)[k], ignore);
    }
  }

  lemma DroppedEnds(source: Snapshot, target: Snapshot, opts: Options, plan: seq<Entry>, forced: set<string>, k: string, old0: Table)
    requires PlanSetting(source, target, opts, plan, forced) && ScriptRuns(source, target, plan, forced)
    requires k in TableMap(source) && k !in TableMap(target)
    ensures TableScript(source, target, plan, forced, k, Some(old0)) == Some(None)
  {
    hide *;
    SettingChosen(source, target, opts, plan, forced);
    TablesWf(source, k);
    RebuildsBoth(source, target, opts, plan, forced);
    OwnDrop(source, target, opts, plan, k);
    var s := TableMap(source)[k];
    var e := Mk(DropTable, s.name, "", opts);
    ScriptBlocksAre(source, target, plan, forced, k);
    OneDirect(e);
    TableBlocks(source, target, plan, forced, k, Some(old0), [Direct(e)]);
    MkIs(DropTable, s.name, opts);
    DropRun(NamesOf(source, target), EmissionOf(source, target, plan), e, k, old0);
  }

  lemma AbsentEnds(source: Snapshot, target: Snapshot, opts: Options, plan: seq<Entry>, forced: set<string>, k: string)
    requires PlanSetting(source, target, opts, plan, forced) && ScriptRuns(source, target, plan, forced)
    requires k !in TableMap(source) && k !in TableMap(target)
    ensures TableScript(source, target, plan, forced, k, None) == Some(None)
  {
    hide *;
    SettingChosen(source, target, opts, plan, forced);
    RebuildsBoth(source, target, opts, plan, forced);
    OwnNone(source, target, opts, plan, k);
    ScriptBlocksAre(source, target, plan, forced, k);
    NoDirect();
    TableBlocks(source, target, plan, forced, k, None, []);
    NoBlocks(NamesOf(source, target), EmissionOf(source, target, plan), k, None);
  }

  lemma NoDirect()
    ensures Map(DirectBlock, []) == []
  {
  }

  lemma CommonOf(source: Snapshot, target: Snapshot, k: string)
    requires WfPair(source, target) && k in TableMap(source) && k in TableMap(target)
    ensures CommonColumn(TableMap(source)[k], TableMap(target)[k])
  {
    hide TableMap, CommonColumn, NamesOk, WfSnapshot, ViewMap;
  }

  lemma SettingPair(source: Snapshot, target: Snapshot, opts: Options, plan: seq<Entry>, forced: set<string>)
    requires PlanSetting(source, target, opts, plan, forced)
    ensures WfPair(source, target)
  {
    hide WholePlan, TableMap;
  }

  /** A rebuilt table has entries of its own. */
  lemma RebuiltHasEntries(source: Snapshot, target: Snapshot, entries: seq<Entry>, forced: set<string>, k: string)
    requires k in Rebuilds(source, target, entries, forced)
    ensures Own(entries, k) != []
  {
    hide Lower, NeedsRebuild, TableMap, Own, CyclicSet, TakenNames;
    OwnMembers(entries, k);
    var e :| e in entries && Lower(e.table) == k;
  }

  lemma RebuiltEnds(source: Snapshot, target: Snapshot, opts: Options, plan: seq<Entry>, forced: set<string>, k: string, old0: Table)
    requires PlanSetting(source, target, opts, plan, forced) && ScriptRuns(source, target, plan, forced)
    requires k in Rebuilds(source, target, plan, forced)
    requires k in TableMap(source) && k in TableMap(target) && Starts(TableMap(source)[k], TableMap(target)[k], old0)
    ensures var s, t := TableMap(source)[k], TableMap(target)[k];
      TableScript(source, target, plan, forced, k, Some(old0))
        == if RebuildFits(s, t, old0.rows) then Some(Some(Rebuilt(s, t, old0.rows))) else None
  {
    hide *;
    SettingChosen(source, target, opts, plan, forced);
    SettingPair(source, target, opts, plan, forced);
    TablesWf(source, k);
    TablesWf(target, k);
    CommonOf(source, target, k);
    RebuiltHasEntries(source, target, plan, forced, k);
    ScriptBlocksAre(source, target, plan, forced, k);
    var phase := Phase(Own(plan, k)[0].op);
    TableBlocks(source, target, plan, forced, k, Some(old0), [GroupOf(plan, k, phase)]);
    EmissionIs(source, target, plan);
    SqliteKind(source);
    StartColumns(TableMap(source)[k], TableMap(target)[k], old0);
    GroupRun(NamesOf(source, target), EmissionOf(source, target, plan), plan, phase, k, old0);
  }

  lemma StaysInPlace(source: Snapshot, target: Snapshot, opts: Options, plan: seq<Entry>, forced: set<string>, k: string)
    requires WholePlan(source, target, opts, plan) && k !in Rebuilds(source, target, plan, forced)
    requires k in TableMap(source) && k in TableMap(target) && Lower(TableMap(target)[k].name) == k
    ensures InPlace(TableMap(source)[k], TableMap(target)[k], opts)
  {
    hide Lower, NeedsRebuild, TableMap, Rebuilds, DiffTable, DistinctTags, PhasesAscend;
    var s, t := TableMap(source)[k], TableMap(target)[k];
    TableEntries(Sqlite, s, t, opts);
    forall e | e in DiffTable(Sqlite, s, t, opts) ensures !NeedsRebuild(e, Some(s), Some(t)) {
      assert OfTable(t.name)(e);
      NotRebuilt(source, target, plan, forced, e);
    }
  }

  lemma InPlaceEnds(source: Snapshot, target: Snapshot, opts: Options, plan: seq<Entry>, forced: set<string>, k: string, old0: Table)
    requires PlanSetting(source, target, opts, plan, forced) && ScriptRuns(source, target, plan, forced)
    requires k !in Rebuilds(source, target, plan, forced)
    requires k in TableMap(source) && k in TableMap(target) && Starts(TableMap(source)[k], TableMap(target)[k], old0)
    requires SameColumns(old0.def.cols, TableMap(source)[k], opts.ignoreDefaults)
    ensures var s, t, r := TableMap(source)[k], TableMap(target)[k], TableScript(source, target, plan, forced, k, Some(old0));
      && (r.Some? <==> InPlaceFits(s, t, old0.rows))
      && (r.Some? ==> r.value.Some? && r.value.value.rows == Fit(s, t, old0.rows) && RowsTyped(r.value.value)
                      && r.value.value.def.pk == old0.def.pk && RealisesButPk(r.value.value.def, t, opts.ignoreDefaults))
  {
    hide *;
    SettingChosen(source, target, opts, plan, forced);
    SettingPair(source, target, opts, plan, forced);
    TablesWf(source, k);
    TablesWf(target, k);
    CommonOf(source, target, k);
    StaysInPlace(source, target, opts, plan, forced, k);
    OwnIsTablePlan(source, target, opts, plan, k);
    ScriptBlocksAre(source, target, plan, forced, k);
    var own := Own(plan, k);
    TableBlocks(source, target, plan, forced, k, Some(old0), Map(DirectBlock, own));
    EmissionIs(source, target, plan);
    SqliteKind(source);
    var s, t := TableMap(source)[k], TableMap(target)[k];
    InPlaceTable(s, t, opts, own, old0);
    InPlaceRun(NamesOf(source, target), EmissionOf(source, target, plan), own, k, old0);
    LiftIs(EntriesRun(s, t, own, old0));
  }

  lemma LiftIs(t: Option<Table>)
    ensures Lift(t) == if t.None? then None else Some(t)
  {
  }

  /** The run of table k succeeds exactly when its data fits, and ends where it should. */
  ghost predicate TableOutcome(sm: map<string, TableSnapshot>, tm: map<string, TableSnapshot>, rebuild: set<string>, k: string,
                               before: Option<Table>, ignoreDefaults: bool, r: Option<Option<Table>>)
  {
    && (r.Some? <==> TableFits(sm, tm, rebuild, k, before))
    && (r.Some? ==> TableEnds(sm, tm, rebuild, k, before, ignoreDefaults, r.value))
  }

  lemma OutcomeRebuilt(sm: map<string, TableSnapshot>, tm: map<string, TableSnapshot>, rebuild: set<string>, k: string,
                       x: Table, ignore: bool, r: Option<Option<Table>>)
    requires k in sm && k in tm && k in rebuild && WfTable(tm[k])
    requires r == if RebuildFits(sm[k], tm[k], x.rows) then Some(Some(Rebuilt(sm[k], tm[k], x.rows))) else None
    ensures TableOutcome(sm, tm, rebuild, k, Some(x), ignore, r)
  {
    hide RebuildFits, Rebuilt, Realises, Fit, RowsTyped, WfTable;
    RebuiltShape(sm[k], tm[k], x.rows, ignore);
  }

  lemma OutcomeInPlace(sm: map<string, TableSnapshot>, tm: map<string, TableSnapshot>, rebuild: set<string>, k: string,
                       x: Table, ignore: bool, r: Option<Option<Table>>)
    requires k in sm && k in tm && k !in rebuild && (r.Some? <==> InPlaceFits(sm[k], tm[k], x.rows))
    requires r.Some? ==> r.value.Some? && r.value.value.rows == Fit(sm[k], tm[k], x.rows) && RowsTyped(r.value.value)
                         && r.value.value.def.pk == x.def.pk && RealisesButPk(r.value.value.def, tm[k], ignore)
    ensures TableOutcome(sm, tm, rebuild, k, Some(x), ignore, r)
  {
    hide InPlaceFits, RealisesButPk, Fit, RowsTyped;
  }

  lemma OutcomeCreated(sm: map<string, TableSnapshot>, tm: map<string, TableSnapshot>, rebuild: set<string>, k: string,
                       ignore: bool, r: Option<Option<Table>>)
    requires k in tm && k !in sm && (r.Some? <==> DefaultsOk(tm[k]))
    requires r.Some? ==> TableEnds(sm, tm, rebuild, k, None, ignore, r.value)
    ensures TableOutcome(sm, tm, rebuild, k, None, ignore, r)
  {
    hide TableEnds;
  }

  lemma OutcomeGone(sm: map<string, TableSnapshot>, tm: map<string, TableSnapshot>, rebuild: set<string>, k: string,
                    before: Option<Table>, ignore: bool)
    requires k !in tm
    ensures TableOutcome(sm, tm, rebuild, k, before, ignore, Some(None))
  {
  }

  /** Table k, whatever its kind, its foreign keys as declared. */
  lemma TableEnd(source: Snapshot, target: Snapshot, opts: Options, plan: seq<Entry>, forced: set<string>, k: string, db: Db)
    requires PlanSetting(source, target, opts, plan, forced) && ScriptRuns(source, target, plan, forced)
    requires Stands(db, source, target, opts.ignoreDefaults)
    ensures var before := Declared(TableMap(source), k, Lookup(db.tables, k));
      TableOutcome(TableMap(source), TableMap(target), Rebuilds(source, target, plan, forced), k, before,
                   opts.ignoreDefaults, TableScript(source, target, plan, forced, k, before))
  {
    hide *;
    var sm, tm, rebuild := TableMap(source), TableMap(target), Rebuilds(source, target, plan, forced);
    StandsAt(db, source, target, opts.ignoreDefaults, k);
    LookupIs(db, k);
    DeclaredIs(sm, k, Lookup(db.tables, k));
    var before := Declared(sm, k, Lookup(db.tables, k));
    var r := TableScript(source, target, plan, forced, k, before);
    if k in sm && k in tm {
      StartsAt(db, source, target, opts.ignoreDefaults, k);
      if k in rebuild {
        RebuiltEnds(source, target, opts, plan, forced, k, before.value);
        SettingChosen(source, target, opts, plan, forced);
        TablesWf(target, k);
        OutcomeRebuilt(sm, tm, rebuild, k, before.value, opts.ignoreDefaults, r);
      } else {
        InPlaceEnds(source, target, opts, plan, forced, k, before.value);
        OutcomeInPlace(sm, tm, rebuild, k, before.value, opts.ignoreDefaults, r);
      }
    } else if k in tm {
      CreatedEnds(source, target, opts, plan, forced, k);
      OutcomeCreated(sm, tm, rebuild, k, opts.ignoreDefaults, r);
    } else {
      if k in sm {
        DroppedEnds(source, target, opts, plan, forced, k, before.value);
      } else {
        AbsentEnds(source, target, opts, plan, forced, k);
      }
      OutcomeGone(sm, tm, rebuild, k, before, opts.ignoreDefaults);
    }
  }

  lemma DeclaredIs(m: map<string, TableSnapshot>, k: string, ot: Option<Table>)
    ensures Declared(m, k, ot) == if ot.Some? && k in m then Some(Aimed(ot.value, FkStates(m[k]))) else ot
    ensures Declared(m, k, ot).Some? == ot.Some?
  {
    hide FkStates;
  }

  /** What a foreign key names matters neither to the data condition nor to where a table ends. */
  lemma DeclaredStart(sm: map<string, TableSnapshot>, tm: map<string, TableSnapshot>, rebuild: set<string>, k: string,
                      before: Option<Table>, ignore: bool, after: Option<Table>)
    ensures TableFits(sm, tm, rebuild, k, Declared(sm, k, before)) <==> TableFits(sm, tm, rebuild, k, before)
    ensures TableEnds(sm, tm, rebuild, k, Declared(sm, k, before), ignore, after) <==> TableEnds(sm, tm, rebuild, k, before, ignore, after)
  {
    hide FkStates, RebuildFits, InPlaceFits, Realises, RealisesButPk, RowsTyped, UserIndexStates, Fit;
  }

  lemma LookupIs(db: Db, k: string)
    ensures Lookup(db.tables, k) == if k in db.tables then Some(db.tables[k]) else None
  {
  }

  lemma RebuiltShape(s: TableSnapshot, t: TableSnapshot, rows: seq<Row>, ignore: bool)
    requires WfTable(t)
    ensures var y := Rebuilt(s, t, rows); Realises(y.def, t, ignore) && RowsTyped(y) && y.rows == Fit(s, t, rows)
  {
    RebuiltRealises(s, t, rows);
    hide WfTable, SameColumns, DefOfBody, TableBodyOf, UserIndexStates, UniqueLists, FkStates, RowsTyped, PkColumns;
    SameColumnsIgnore(Rebuilt(s, t, rows).def.cols, t, ignore);
  }

  lemma StandsAt(db: Db, source: Snapshot, target: Snapshot, ignore: bool, k: string)
    requires Stands(db, source, target, ignore)
    ensures k in db.tables <==> k in TableMap(source)
    ensures k in db.tables ==> StandsTable(TableMap(source)[k], TableMap(target), k, db.tables[k], ignore)
  {
    hide TableMap, ViewMap, StandsTable;
  }

  lemma StartsAt(db: Db, source: Snapshot, target: Snapshot, ignore: bool, k: string)
    requires Stands(db, source, target, ignore) && k in TableMap(source) && k in TableMap(target)
    ensures k in db.tables
    ensures var x := Aimed(db.tables[k], FkStates(TableMap(source)[k]));
      Starts(TableMap(source)[k], TableMap(target)[k], x) && SameColumns(x.def.cols, TableMap(source)[k], ignore)
  {
    hide TableMap, Stands, FkStates, UserIndexStates, SameColumns, PkColumns, UniqueLists, Lists;
    StandsAt(db, source, target, ignore, k);
    IgnoreAll(db.tables[k].def.cols, TableMap(source)[k], ignore);
  }

  lemma IgnoreAll(cols: map<string, ColState>, t: TableSnapshot, ignore: bool)
    requires SameColumns(cols, t, ignore)
    ensures SameColumns(cols, t, true)
  {
    hide ColumnMap, NormalizeType;
  }

  // ---- The whole script ----

  lemma TableNotView(s: Snapshot, a: TableSnapshot, b: TableSnapshot)
    requires WfSnapshot(s) && a in s.tables && b in s.tables && IsTable(a) && IsView(b)
    ensures TableKey(a) != TableKey(b)
  {
    hide WfTable, TableKey;
    assert a != b;
    var i :| 0 <= i < |s.tables| && s.tables[i] == a;
    var j :| 0 <= j < |s.tables| && s.tables[j] == b;
  }

  lemma TableAt(s: Snapshot, k: string)
    ensures k in TableMap(s) ==> TableMap(s)[k] in s.tables && IsTable(TableMap(s)[k]) && TableKey(TableMap(s)[k]) == k
    ensures k in ViewMap(s) ==> ViewMap(s)[k] in s.tables && IsView(ViewMap(s)[k]) && TableKey(ViewMap(s)[k]) == k
  {
    hide TableKey, IsTable, IsView;
    FirstWinsKeys(s.tables, TableKey, IsTable);
    FirstWinsKeys(s.tables, TableKey, IsView);
  }

  lemma ViewsApart(s: Snapshot, k: string)
    requires WfSnapshot(s) && k in TableMap(s)
    ensures k !in ViewMap(s)
  {
    hide *;
    TableAt(s, k);
    if k in ViewMap(s) {
      TableNotView(s, TableMap(s)[k], ViewMap(s)[k]);
    }
  }

  lemma StandsOk(db: Db, source: Snapshot, target: Snapshot, ignore: bool)
    requires WfPair(source, target) && Stands(db, source, target, ignore)
    ensures NamesOk(NamesOf(source, target)) && DbOk(NamesOf(source, target), db)
  {
    var w := NamesOf(source, target);
    assert db.views.Keys <= w.taken - w.tables by { StandingViews(db, source, target, ignore); }
    forall k | k in db.tables ensures TableOk(w, k, db.tables[k]) {
      StandingTable(db, source, target, ignore, k);
    }
    hide TableMap, ViewMap, NamesOf, Stands, WfSnapshot, TableOk, CommonColumn;
  }

  lemma StandingViews(db: Db, source: Snapshot, target: Snapshot, ignore: bool)
    requires WfPair(source, target) && Stands(db, source, target, ignore)
    ensures db.views.Keys <= NamesOf(source, target).taken - NamesOf(source, target).tables
  {
    hide TableMap, ViewMap, NamesOk, WfSnapshot, OwnedNames, CommonColumn, StandsTable;
    forall v | v in db.views ensures v !in TableMap(source) && v !in TableMap(target) {
      if v in TableMap(source) && v in ViewMap(source) {
        ViewsApart(source, v);
      }
      if v in TableMap(target) && v in ViewMap(target) {
        ViewsApart(target, v);
      }
    }
  }

  lemma StatesOwned(sm: map<string, TableSnapshot>, tm: map<string, TableSnapshot>, k: string)
    requires k in sm && WfTable(sm[k])
    ensures UserIndexStates(sm[k]).Keys <= OwnedNames(sm, tm, k)
  {
    hide WfTable, OwnedNames, UserIndexStates, IsUserIndex, Lower, SecondaryMap;
    forall n | n in UserIndexStates(sm[k]) ensures n in OwnedNames(sm, tm, k) {
      StateName(sm[k], n);
      OwnsIndex(sm, tm, k, SecondaryMap(sm[k])[n]);
    }
  }

  lemma StandingTable(db: Db, source: Snapshot, target: Snapshot, ignore: bool, k: string)
    requires WfPair(source, target) && Stands(db, source, target, ignore) && k in db.tables
    ensures TableOk(NamesOf(source, target), k, db.tables[k])
  {
    StandsAt(db, source, target, ignore, k);
    PairWf(source, target);
    hide TableMap, WfTable, OwnedNames, Stands, NamesOf, RowsTyped, SameColumns, PkColumns, UniqueLists, FkStates, UserIndexStates,
      WfPair, WfSnapshot;
    PairNames(source, target, k);
    TablesWf(source, k);
    StatesOwned(TableMap(source), TableMap(target), k);
  }

  lemma PairWf(source: Snapshot, target: Snapshot)
    requires WfPair(source, target)
    ensures WfSnapshot(source) && WfSnapshot(target) && NamesOk(NamesOf(source, target))
  {
    hide TableMap, WfSnapshot, CommonColumn, NamesOk, ViewMap;
  }

  lemma StateName(t: TableSnapshot, n: string)
    requires WfTable(t) && n in UserIndexStates(t)
    ensures n in SecondaryMap(t)
    ensures var x := SecondaryMap(t)[n]; IsUserIndex(x) && x in t.indexes && Lower(x.name) == n
  {
    hide WfTable, SecondaryMap, IsUserIndex, Lower;
    IndexNameOk(t, n);
  }

  // ---- The script as units ----

  /** The script's units; none when some entry has no statement. */
  ghost function ScriptUnitList(source: Snapshot, target: Snapshot, entries: seq<Entry>, forced: set<string>): seq<Unit> {
    var x, blocks := EmissionOf(source, target, entries), ScriptBlocks(source, target, entries, forced);
    if BlocksOk(x, blocks) then UnitsOf(x, blocks) else []
  }

  lemma UnitListOk(source: Snapshot, target: Snapshot, entries: seq<Entry>, forced: set<string>)
    requires ScriptRuns(source, target, entries, forced)
    ensures BlocksOk(EmissionOf(source, target, entries), ScriptBlocks(source, target, entries, forced))
    ensures ScriptUnitList(source, target, entries, forced)
         == UnitsOf(EmissionOf(source, target, entries), ScriptBlocks(source, target, entries, forced))
    ensures UnitsOk(NamesOf(source, target), ScriptUnitList(source, target, entries, forced))
    ensures forall k, ot :: TableRun(NamesOf(source, target), ScriptUnitList(source, target, entries, forced), k, ot)
                         == TableScript(source, target, entries, forced, k, ot)
  {
    hide NamesOf, EmissionOf, ScriptBlocks, TableRun, UnitsOf, UnitsOk, BlocksOk;
  }
}
