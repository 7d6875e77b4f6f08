/// The convergence theorem: the forward script of the whole plan, run on the
/// source database.
module FullScript {
  import opened Text
  import opened Sequences
  import opened TypeNames
  import opened Snapshots
  import opened Plan
  import opened PlanOrder
  import opened Mirror
  import opened Script
  import opened Defaults
  import opened Database
  import opened Obstructions
  import opened Locality
  import opened Runs
  import opened WellFormed
  import opened PlanIds
  import opened Shape
  import opened Agreement
  import opened InPlaceTables
  import opened InPlaceEnd
  import opened ScriptUnits
  import opened PlanUnits
  import opened TableRuns
  import opened Convergence
  import opened Drops
  import opened Sparing

  /** SQLite takes the DEFAULT clause of every column the script declares: those of tables created or rebuilt, and added ones. */
  ghost predicate DefaultsTaken(source: Snapshot, target: Snapshot, rebuild: set<string>) {
    forall k :: TableTaken(TableMap(source), TableMap(target), rebuild, k)
  }

  /** Every table's rows meet what the target asks of them. */
  ghost predicate DataFits(source: Snapshot, target: Snapshot, rebuild: set<string>, db: Db) {
    forall k :: TableData(TableMap(source), TableMap(target), rebuild, k, Lookup(db.tables, k))
  }

  lemma AllFitIs(source: Snapshot, target: Snapshot, rebuild: set<string>, db: Db)
    ensures AllFit(source, target, rebuild, db) <==> DefaultsTaken(source, target, rebuild) && DataFits(source, target, rebuild, db)
  {
    hide TableMap, TableFits, TableTaken, TableData;
    forall k
      ensures TableFits(TableMap(source), TableMap(target), rebuild, k, Lookup(db.tables, k))
        <==> TableTaken(TableMap(source), TableMap(target), rebuild, k) && TableData(TableMap(source), TableMap(target), rebuild, k, Lookup(db.tables, k))
    {
      TableFitsIs(TableMap(source), TableMap(target), rebuild, k, Lookup(db.tables, k));
    }
  }

  /** Defaults and data let every table through. */
  ghost predicate AllFit(source: Snapshot, target: Snapshot, rebuild: set<string>, db: Db) {
    forall k :: TableFits(TableMap(source), TableMap(target), rebuild, k, Lookup(db.tables, k))
  }

  /** What the foreign keys of table k name at the end: those of the snapshot if the script declares them, else its own, as the rebuilds send them. */
  function FinalFks(units: seq<Unit>, k: string, before: Option<Table>, t: TableSnapshot): set<FkState> {
    AimAll(units, k, if Redeclared(units, k) || before.None? then FkStates(t) else before.value.def.fks)
  }

  /** Every table has ended where the script takes it. */
  ghost predicate Arrives(source: Snapshot, target: Snapshot, rebuild: set<string>, units: seq<Unit>, ignoreDefaults: bool, db: Db, end: Db) {
    && end.views == db.views
    && (forall k :: TableEnds(TableMap(source), TableMap(target), rebuild, k, Lookup(db.tables, k), ignoreDefaults, Declared(TableMap(target), k, Lookup(end.tables, k))))
    && forall k :: k in end.tables && k in TableMap(target) ==> end.tables[k].def.fks == FinalFks(units, k, Lookup(db.tables, k), TableMap(target)[k])
  }

  /** The database the later statements see: with enforcement on and nothing rebuilt, what the drops spare. */
  ghost function Left(source: Snapshot, target: Snapshot, plan: seq<Entry>, rebuild: set<string>, db: Db): Option<Db> {
    if db.enforce && rebuild == {} then Spared(source, target, plan, db) else Some(db)
  }

  /** The run of a table whose foreign keys name something else. */
  lemma ScriptAimed(source: Snapshot, target: Snapshot, entries: seq<Entry>, forced: set<string>, k: string, ot: Option<Table>, fks: set<FkState>)
    requires ScriptRuns(source, target, entries, forced) && ot.Some? && Lists(fks) == Lists(ot.value.def.fks)
    ensures var units, d := ScriptUnitList(source, target, entries, forced), Some(Aimed(ot.value, fks));
      var r := TableScript(source, target, entries, forced, k, d);
      && TableScript(source, target, entries, forced, k, ot) == (if Redeclared(units, k) then r else AimedMaybe(r, ot.value.def.fks))
  {
    hide *;
    UnitListOk(source, target, entries, forced);
    AimedTwice(ot.value, fks);
    RunAimed(NamesOf(source, target), ScriptUnitList(source, target, entries, forced), k, Aimed(ot.value, fks), ot.value.def.fks);
  }

  /** Where a table ends: its foreign keys aimed, and otherwise as from the declared ones. */
  lemma EndsAimed(sm: map<string, TableSnapshot>, tm: map<string, TableSnapshot>, rebuild: set<string>, units: seq<Unit>, k: string, ot: Option<Table>,
                  ignore: bool, r0: Option<Table>, r: Option<Table>)
    requires TableEnds(sm, tm, rebuild, k, ot, ignore, r0)
    requires r == if ot.None? || Redeclared(units, k) || r0.None? then r0 else Some(Aimed(r0.value, ot.value.def.fks))
    ensures TableEnds(sm, tm, rebuild, k, ot, ignore, Declared(tm, k, AimTable(units, k, r)))
    ensures k in tm ==> r.Some? && AimTable(units, k, r).value.def.fks == FinalFks(units, k, ot, tm[k])
  {
    hide RowsTyped, Fit, Redeclared, AimAll, FkStates, SameColumns, PkColumns, UniqueLists, UserIndexStates;
    if k in tm {
      assert r0.value.def.fks == FkStates(tm[k]);
      assert Aimed(r0.value, FkStates(tm[k])) == r0.value;
      var end := AimTable(units, k, r);
      assert Aimed(end.value, FkStates(tm[k])) == r0.value;
    }
  }

  /** Table k fits exactly when its own part of the script runs, and ends there. */
  lemma TrackedEnd(source: Snapshot, target: Snapshot, opts: Options, plan: seq<Entry>, forced: set<string>, db: Db, k: string)
    requires PlanSetting(source, target, opts, plan, forced) && ScriptRuns(source, target, plan, forced) && Stands(db, source, target, opts.ignoreDefaults)
    ensures var sm, tm, rebuild, units := TableMap(source), TableMap(target), Rebuilds(source, target, plan, forced), ScriptUnitList(source, target, plan, forced);
      var ot := Lookup(db.tables, k);
      var r := TableScript(source, target, plan, forced, k, ot);
      && (r.Some? <==> TableFits(sm, tm, rebuild, k, ot))
      && (r.Some? ==> TableEnds(sm, tm, rebuild, k, ot, opts.ignoreDefaults, Declared(tm, k, AimTable(units, k, r.value)))
                      && (k in tm ==> r.value.Some? && AimTable(units, k, r.value).value.def.fks == FinalFks(units, k, ot, tm[k])))
  {
    hide *;
    var sm, tm, rebuild, units := TableMap(source), TableMap(target), Rebuilds(source, target, plan, forced), ScriptUnitList(source, target, plan, forced);
    var ot := Lookup(db.tables, k);
    TableEnd(source, target, opts, plan, forced, k, db);
    StandsAt(db, source, target, opts.ignoreDefaults, k);
    LookupIs(db, k);
    DeclaredIs(sm, k, ot);
    var d := Declared(sm, k, ot);
    var r0 := TableScript(source, target, plan, forced, k, d);
    if ot.Some? {
      StandsLists(sm[k], tm, k, ot.value, opts.ignoreDefaults);
      ScriptAimed(source, target, plan, forced, k, ot, FkStates(sm[k]));
    }
    OutcomeIs(sm, tm, rebuild, k, d, opts.ignoreDefaults, r0);
    DeclaredStart(sm, tm, rebuild, k, ot, opts.ignoreDefaults, if r0.Some? then r0.value else None);
    MaybeIs(r0, if ot.Some? then ot.value.def.fks else {});
    if r0.Some? {
      EndsAimed(sm, tm, rebuild, units, k, ot, opts.ignoreDefaults, r0.value, TableScript(source, target, plan, forced, k, ot).value);
    }
  }

  lemma MaybeIs(r: Option<Option<Table>>, fks: set<FkState>)
    ensures AimedMaybe(r, fks) == if r.None? || r.value.None? then r else Some(Some(Aimed(r.value.value, fks)))
  {
    hide Aimed;
  }

  lemma OutcomeIs(sm: map<string, TableSnapshot>, tm: map<string, TableSnapshot>, rebuild: set<string>, k: string,
                  before: Option<Table>, ignore: bool, r: Option<Option<Table>>)
    requires TableOutcome(sm, tm, rebuild, k, before, ignore, r)
    ensures (r.Some? <==> TableFits(sm, tm, rebuild, k, before)) && (r.Some? ==> TableEnds(sm, tm, rebuild, k, before, ignore, r.value))
  {
    hide TableFits, TableEnds;
  }

  lemma StandsLists(s: TableSnapshot, tm: map<string, TableSnapshot>, k: string, x: Table, ignore: bool)
    requires StandsTable(s, tm, k, x, ignore)
    ensures Lists(FkStates(s)) == Lists(x.def.fks)
  {
    hide FkStates, UserIndexStates, RealisesButPk, PkColumns, Lists, RowsTyped;
  }

  lemma RunsAsArrives(source: Snapshot, target: Snapshot, opts: Options, plan: seq<Entry>, forced: set<string>, left: Db, clear: bool, r: Option<Db>)
    requires PlanSetting(source, target, opts, plan, forced) && ScriptRuns(source, target, plan, forced) && Stands(left, source, target, opts.ignoreDefaults)
    requires RunsAs(source, target, plan, forced, left, clear, r)
    ensures var rebuild, units := Rebuilds(source, target, plan, forced), ScriptUnitList(source, target, plan, forced);
      && (r.Some? <==> clear && AllFit(source, target, rebuild, left))
      && (r.Some? ==> Arrives(source, target, rebuild, units, opts.ignoreDefaults, left, r.value) && r.value.enforce == left.enforce)
  {
    hide PlanSetting, ScriptRuns, Stands, TableScript, TableMap, Rebuilds, TableFits, TableEnds, ScriptUnitList, AimTable, FinalFks, Declared;
    forall k
      ensures TableScript(source, target, plan, forced, k, Lookup(left.tables, k)).Some?
        <==> TableFits(TableMap(source), TableMap(target), Rebuilds(source, target, plan, forced), k, Lookup(left.tables, k))
    {
      TrackedEnd(source, target, opts, plan, forced, left, k);
    }
    if r.Some? {
      forall k
        ensures TableEnds(TableMap(source), TableMap(target), Rebuilds(source, target, plan, forced), k, Lookup(left.tables, k), opts.ignoreDefaults,
                          Declared(TableMap(target), k, Lookup(r.value.tables, k)))
        ensures k in r.value.tables && k in TableMap(target) ==>
          r.value.tables[k].def.fks == FinalFks(ScriptUnitList(source, target, plan, forced), k, Lookup(left.tables, k), TableMap(target)[k])
      {
        TrackedEnd(source, target, opts, plan, forced, left, k);
        LookupIs(r.value, k);
      }
    }
  }

  /** Enforcement off, or on with nothing rebuilt. */
  lemma UnitRun(source: Snapshot, target: Snapshot, opts: Options, plan: seq<Entry>, forced: set<string>, db: Db)
    requires PlanSetting(source, target, opts, plan, forced) && ScriptRuns(source, target, plan, forced) && Stands(db, source, target, opts.ignoreDefaults)
    requires !db.enforce
    ensures var all := AllSqls(ScriptUnitList(source, target, plan, forced));
      RunsAs(source, target, plan, forced, db, !Obstructed(all, CatalogOf(db), db.views), Run(all, db))
  {
    hide *;
    SettingPair(source, target, opts, plan, forced);
    StandsOk(db, source, target, opts.ignoreDefaults);
    UnitListOk(source, target, plan, forced);
    var w, units := NamesOf(source, target), ScriptUnitList(source, target, plan, forced);
    RunUnits(w, units, db);
    var r := Run(AllSqls(units), db);
    if r.Some? {
      TracksParts(w, units, db, r.value);
      forall k ensures TableScript(source, target, plan, forced, k, Lookup(db.tables, k)).Some?
        && Lookup(r.value.tables, k) == AimTable(units, k, TableScript(source, target, plan, forced, k, Lookup(db.tables, k)).value)
      {
        TracksAt(w, units, db, r.value, k);
      }
    }
    RunsAsIs(source, target, plan, forced, db, !Obstructed(AllSqls(units), CatalogOf(db), db.views), r);
  }

  /** The plan's statements, the pragmas aside. */
  lemma PlanRun(source: Snapshot, target: Snapshot, opts: Options, plan: seq<Entry>, forced: set<string>, db: Db)
    requires PlanSetting(source, target, opts, plan, forced) && ScriptRuns(source, target, plan, forced) && Stands(db, source, target, opts.ignoreDefaults)
    requires db.enforce ==> Rebuilds(source, target, plan, forced) == {}
    ensures var rebuild, units := Rebuilds(source, target, plan, forced), ScriptUnitList(source, target, plan, forced);
      var left, r := Left(source, target, plan, rebuild, db), Run(AllSqls(units), db);
      && (r.Some? <==> !Obstructed(AllSqls(units), CatalogOf(db), db.views) && left.Some? && AllFit(source, target, rebuild, left.value))
      && (r.Some? ==> Arrives(source, target, rebuild, units, opts.ignoreDefaults, left.value, r.value) && r.value.enforce == db.enforce)
  {
    hide *;
    var units, rebuild := ScriptUnitList(source, target, plan, forced), Rebuilds(source, target, plan, forced);
    LeftIs(source, target, plan, rebuild, db);
    var left := Left(source, target, plan, rebuild, db);
    var from := if left.Some? then left.value else db;
    if db.enforce {
      SparedRun(source, target, opts, plan, forced, db);
      if left.Some? {
        SparedStands(source, target, plan, db, opts.ignoreDefaults);
        SparedLookup(source, target, plan, db, "");
      }
    } else {
      UnitRun(source, target, opts, plan, forced, db);
    }
    RunsAsArrives(source, target, opts, plan, forced, from, !Obstructed(AllSqls(units), CatalogOf(db), db.views) && left.Some?, Run(AllSqls(units), db));
  }

  lemma LeftIs(source: Snapshot, target: Snapshot, plan: seq<Entry>, rebuild: set<string>, db: Db)
    ensures Left(source, target, plan, rebuild, db) == if db.enforce && rebuild == {} then Spared(source, target, plan, db) else Some(db)
  {
    hide Spared;
  }

  // ---- The pragma bracket ----

  lemma WrappedRun(out: seq<Statement>, rebuild: set<string>, db: Db)
    ensures Run(Sqls(Wrapped(out, rebuild)), db) ==
      if rebuild == {} then Run(Sqls(out), db)
      else var r := Run(Sqls(out), db.(enforce := false));
           if r.None? then None else Some(r.value.(enforce := true))
  {
    hide Run, Exec, Sqls, Wrapped;
    var off, on := PragmaForeignKeys(false), PragmaForeignKeys(true);
    WrappedSqls(out, rebuild);
    if rebuild != {} {
      RunCons(off, Sqls(out) + [on], db);
      PragmaExec(false, db);
      RunConcat(Sqls(out), [on], db.(enforce := false));
      var r := Run(Sqls(out), db.(enforce := false));
      if r.Some? {
        RunOne(on, r.value);
        PragmaExec(true, r.value);
      }
    }
  }

  lemma WrappedSqls(out: seq<Statement>, rebuild: set<string>)
    ensures Sqls(Wrapped(out, rebuild)) ==
      if rebuild == {} then Sqls(out) else [PragmaForeignKeys(false)] + (Sqls(out) + [PragmaForeignKeys(true)])
  {
  }

  lemma PragmaExec(on: bool, db: Db)
    ensures Exec(PragmaForeignKeys(on), db) == Some(db.(enforce := on))
  {
  }

  lemma EmitIs(source: Snapshot, target: Snapshot, entries: seq<Entry>, forced: set<string>)
    requires ScriptRuns(source, target, entries, forced)
    ensures var out := EmitScript(source, target, entries, forced);
      var all := AllStatements(EmissionOf(source, target, entries), ScriptBlocks(source, target, entries, forced));
      && out.Ok? && out.value.1 == Rebuilds(source, target, entries, forced)
      && all.Ok? && out.value.0 == Wrapped(all.value, out.value.1)
      && Sqls(all.value) == AllSqls(ScriptUnitList(source, target, entries, forced))
  {
    hide EmissionOf, Blocks, Wrapped, AllStatements, NamesOf, UnitsOf, UnitsOk, BlocksOk, AllSqls;
    StatementSqls(EmissionOf(source, target, entries), ScriptBlocks(source, target, entries, forced));
  }

  // ---- Convergence ----

  /** Rebuilding pauses enforcement; the pragma does not matter to the tables. */
  ghost function Paused(db: Db, rebuild: set<string>): Db { if rebuild == {} then db else db.(enforce := false) }

  lemma PausedStands(db: Db, source: Snapshot, target: Snapshot, rebuild: set<string>, ignore: bool)
    requires Stands(db, source, target, ignore)
    ensures var p := Paused(db, rebuild); Stands(p, source, target, ignore) && p.tables == db.tables && p.views == db.views
    ensures rebuild != {} ==> !Paused(db, rebuild).enforce
    ensures rebuild == {} ==> Paused(db, rebuild) == db
  {
    hide TableMap, ViewMap, StandsTable;
  }

  lemma PausedLeft(source: Snapshot, target: Snapshot, plan: seq<Entry>, rebuild: set<string>, ignore: bool, db: Db, units: seq<Unit>, end: Db, last: Db)
    requires last.tables == end.tables && last.views == end.views
    ensures var p := Paused(db, rebuild);
      && CatalogOf(p) == CatalogOf(db) && p.views == db.views
      && Left(source, target, plan, rebuild, p).Some? == Left(source, target, plan, rebuild, db).Some?
      && (Left(source, target, plan, rebuild, db).Some? ==>
            var l, m := Left(source, target, plan, rebuild, db).value, Left(source, target, plan, rebuild, p).value;
            && (AllFit(source, target, rebuild, m) <==> AllFit(source, target, rebuild, l))
            && (Arrives(source, target, rebuild, units, ignore, m, end) <==> Arrives(source, target, rebuild, units, ignore, l, last)))
  {
    hide TableFits, TableEnds, TableMap, Spared, FinalFks, Declared;
  }

  /** The pragmas block nothing. */
  lemma WrappedObstructed(out: seq<Statement>, rebuild: set<string>, c: Catalog, views: map<string, set<string>>)
    ensures Obstructed(Sqls(Wrapped(out, rebuild)), c, views) <==> Obstructed(Sqls(out), c, views)
  {
    hide Obstructed, CatalogAfter, Sqls, Wrapped;
    WrappedSqls(out, rebuild);
    if rebuild != {} {
      var off, on := PragmaForeignKeys(false), PragmaForeignKeys(true);
      ObstructedCons(off, Sqls(out) + [on], c, views);
      ObstructedConcat(Sqls(out), [on], c, views);
      ObstructedOne(on, CatalogAfter(Sqls(out), c), views);
    }
  }

  /** What the emitted script of a plan does to the source database. */
  lemma EmittedRun(source: Snapshot, target: Snapshot, opts: Options, plan: seq<Entry>, forced: set<string>, db: Db)
    requires PlanSetting(source, target, opts, plan, forced) && Stands(db, source, target, opts.ignoreDefaults) && NoStubs(source, target, plan, forced)
    ensures var out, rebuild, units := EmitScript(source, target, plan, forced), Rebuilds(source, target, plan, forced), ScriptUnitList(source, target, plan, forced);
      && out.Ok? && out.value.1 == rebuild
      && var left, r := Left(source, target, plan, rebuild, db), Run(Sqls(out.value.0), db);
      && (r.Some? <==> !Obstructed(Sqls(out.value.0), CatalogOf(db), db.views) && left.Some? && AllFit(source, target, rebuild, left.value))
      && (r.Some? ==> Arrives(source, target, rebuild, units, opts.ignoreDefaults, left.value, r.value)
                      && (rebuild == {} ==> r.value.enforce == db.enforce))
  {
    hide *;
    SettingChosen(source, target, opts, plan, forced);
    ScriptIsOk(source, target, opts, plan, forced);
    EmitIs(source, target, plan, forced);
    var out, rebuild, units := EmitScript(source, target, plan, forced), Rebuilds(source, target, plan, forced), ScriptUnitList(source, target, plan, forced);
    var all := AllStatements(EmissionOf(source, target, plan), ScriptBlocks(source, target, plan, forced)).value;
    WrappedRun(all, rebuild, db);
    WrappedObstructed(all, rebuild, CatalogOf(db), db.views);
    PausedStands(db, source, target, rebuild, opts.ignoreDefaults);
    var p := Paused(db, rebuild);
    PlanRun(source, target, opts, plan, forced, p);
    PausedIs(db, rebuild);
    var r, q := Run(Sqls(out.value.0), db), Run(Sqls(all), p);
    PausedLeft(source, target, plan, rebuild, opts.ignoreDefaults, db, units, if q.Some? then q.value else db, if r.Some? then r.value else db);
  }

  lemma PausedIs(db: Db, rebuild: set<string>)
    ensures rebuild != {} ==> Paused(db, rebuild) == db.(enforce := false)
    ensures rebuild == {} ==> Paused(db, rebuild) == db
  {
  }

  /** A created table has no user index; a table changed in place already has the target's primary key. */
  ghost predicate Reaches(source: Snapshot, target: Snapshot, rebuild: set<string>, db: Db) {
    forall k :: k in TableMap(target) ==> TableReaches(TableMap(source), TableMap(target), rebuild, k, Lookup(db.tables, k))
  }

  ghost predicate TableReaches(sm: map<string, TableSnapshot>, tm: map<string, TableSnapshot>, rebuild: set<string>, k: string, before: Option<Table>)
    requires k in tm
  {
    if k !in sm then forall i :: i in tm[k].indexes ==> !IsUserIndex(i)
    else k in rebuild || (before.Some? && before.value.def.pk == LowerAll(PkColumns(tm[k])))
  }

  lemma NoUserIndexes(t: TableSnapshot)
    requires WfTable(t)
    ensures UserIndexStates(t) == map[] <==> forall i :: i in t.indexes ==> !IsUserIndex(i)
  {
    WfParts(t);
    hide WfTable, WfIndexes, SecondaryMap, IsAutoIndex, IndexKey, IndexStateOf;
    if i :| i in t.indexes && IsUserIndex(i) {
      IndexFound(t, i);
      assert IndexKey(i) in UserIndexStates(t);
    }
    if k :| k in UserIndexStates(t) {
      SecondaryMapKeyed(t, k);
    }
    assert UserIndexStates(t) == map[] <==> forall k :: k !in UserIndexStates(t);
  }

  lemma CreatedReaches(t: TableSnapshot, def: TableDef, ignore: bool)
    requires WfTable(t) && def.indexes == map[] && Realises(def.(indexes := UserIndexStates(t)), t, ignore)
    ensures Realises(def, t, ignore) <==> forall i :: i in t.indexes ==> !IsUserIndex(i)
  {
    NoUserIndexes(t);
    hide WfTable, SameColumns, PkColumns, UniqueLists, FkStates, UserIndexStates, IsUserIndex;
  }

  lemma InPlaceReaches(t: TableSnapshot, def: TableDef, ignore: bool)
    requires RealisesButPk(def, t, ignore)
    ensures Realises(def, t, ignore) <==> def.pk == LowerAll(PkColumns(t))
  {
    hide SameColumns, PkColumns, UniqueLists, FkStates, UserIndexStates;
  }

  lemma EndReaches(sm: map<string, TableSnapshot>, tm: map<string, TableSnapshot>, rebuild: set<string>, k: string,
                   before: Option<Table>, ignore: bool, after: Option<Table>)
    requires k in tm && WfTable(tm[k]) && TableEnds(sm, tm, rebuild, k, before, ignore, after)
    ensures after.Some? && (Realises(after.value.def, tm[k], ignore) <==> TableReaches(sm, tm, rebuild, k, before))
  {
    hide WfTable, Realises, RealisesButPk, RowsTyped, UserIndexStates, IsUserIndex, PkColumns;
    if k !in sm {
      CreatedReaches(tm[k], after.value.def, ignore);
    } else if k !in rebuild {
      InPlaceReaches(tm[k], after.value.def, ignore);
    }
  }

  /** No foreign key comes to name anything but what the snapshot says. */
  ghost predicate AllAimed(target: Snapshot, units: seq<Unit>, db: Db) {
    forall k :: k in TableMap(target) ==> FinalFks(units, k, Lookup(db.tables, k), TableMap(target)[k]) == FkStates(TableMap(target)[k])
  }

  lemma RealisesDeclared(t: TableSnapshot, x: Table, ignore: bool)
    ensures Realises(x.def, t, ignore) <==> Realises(Aimed(x, FkStates(t)).def, t, ignore) && x.def.fks == FkStates(t)
  {
    hide SameColumns, PkColumns, UniqueLists, FkStates, UserIndexStates;
  }

  lemma EndTable(source: Snapshot, target: Snapshot, rebuild: set<string>, units: seq<Unit>, ignore: bool, db: Db, end: Db, k: string)
    requires WfSnapshot(target) && Arrives(source, target, rebuild, units, ignore, db, end)
    ensures k in end.tables <==> k in TableMap(target)
    ensures k in end.tables ==> RowsTyped(end.tables[k]) && end.tables[k].def.fks == FinalFks(units, k, Lookup(db.tables, k), TableMap(target)[k])
    ensures k in end.tables ==> (Realises(end.tables[k].def, TableMap(target)[k], ignore) <==>
      TableReaches(TableMap(source), TableMap(target), rebuild, k, Lookup(db.tables, k))
      && FinalFks(units, k, Lookup(db.tables, k), TableMap(target)[k]) == FkStates(TableMap(target)[k]))
  {
    hide WfSnapshot, TableMap, TableEnds, Realises, TableReaches, WfTable, FinalFks, FkStates;
    var after := Declared(TableMap(target), k, Lookup(end.tables, k));
    EndAt(TableMap(source), TableMap(target), rebuild, k, Lookup(db.tables, k), ignore, after);
    if k in TableMap(target) {
      TablesWf(target, k);
      EndReaches(TableMap(source), TableMap(target), rebuild, k, Lookup(db.tables, k), ignore, after);
      RealisesDeclared(TableMap(target)[k], end.tables[k], ignore);
    }
  }

  lemma ArrivesReaches(source: Snapshot, target: Snapshot, rebuild: set<string>, units: seq<Unit>, ignore: bool, db: Db, end: Db)
    requires WfSnapshot(target) && Arrives(source, target, rebuild, units, ignore, db, end)
    ensures Realising(end, target, ignore) <==> Reaches(source, target, rebuild, db) && AllAimed(target, units, db)
    ensures Typed(end) && end.tables.Keys == TableMap(target).Keys
  {
    hide WfSnapshot, TableMap, TableEnds, Realises, TableReaches, RowsTyped, FinalFks, FkStates, Arrives;
    forall k
      ensures k in end.tables <==> k in TableMap(target)
      ensures k in end.tables ==> RowsTyped(end.tables[k])
      ensures k in end.tables ==> (Realises(end.tables[k].def, TableMap(target)[k], ignore) <==>
        TableReaches(TableMap(source), TableMap(target), rebuild, k, Lookup(db.tables, k))
        && FinalFks(units, k, Lookup(db.tables, k), TableMap(target)[k]) == FkStates(TableMap(target)[k]))
    {
      EndTable(source, target, rebuild, units, ignore, db, end, k);
    }
  }

  lemma EndAt(sm: map<string, TableSnapshot>, tm: map<string, TableSnapshot>, rebuild: set<string>, k: string,
              before: Option<Table>, ignore: bool, after: Option<Table>)
    requires TableEnds(sm, tm, rebuild, k, before, ignore, after)
    ensures after.Some? <==> k in tm
    ensures after.Some? ==> RowsTyped(after.value)
  {
    hide Realises, RealisesButPk, RowsTyped, Fit;
  }

  lemma Setting(source: Snapshot, target: Snapshot, opts: Options, plan: seq<Entry>, forced: set<string>)
    requires WfPair(source, target) && WholePlan(source, target, opts, plan) && forced <= TableMap(source).Keys * TableMap(target).Keys
    ensures PlanSetting(source, target, opts, plan, forced)
  {
  }

  /**
   * The script of the whole plan, on any database it may start from: it runs to the end exactly when
   * nothing obstructs it, no DROP TABLE is refused, SQLite takes the defaults it declares, and what the
   * drops leave fits.
   */
  lemma PlanConverges(source: Snapshot, target: Snapshot, opts: Options, forced: set<string>, db: Db)
    requires WfPair(source, target) && Stands(db, source, target, opts.ignoreDefaults)
    requires forced <= TableMap(source).Keys * TableMap(target).Keys && Diff(source, target, opts).Ok?
    requires NoStubs(source, target, Diff(source, target, opts).value, forced)
    ensures var plan := Diff(source, target, opts).value;
      var out, rebuild, units := EmitScript(source, target, plan, forced), Rebuilds(source, target, plan, forced), ScriptUnitList(source, target, plan, forced);
      && out.Ok? && out.value.1 == rebuild
      && var left, r := Left(source, target, plan, rebuild, db), Run(Sqls(out.value.0), db);
      && (r.Some? <==> !Obstructed(Sqls(out.value.0), CatalogOf(db), db.views) && left.Some?
                       && DefaultsTaken(source, target, rebuild) && DataFits(source, target, rebuild, left.value))
      && (r.Some? ==> Arrives(source, target, rebuild, units, opts.ignoreDefaults, left.value, r.value)
                      && (rebuild == {} ==> r.value.enforce == db.enforce)
                      && (Realising(r.value, target, opts.ignoreDefaults) <==> Reaches(source, target, rebuild, left.value) && AllAimed(target, units, left.value)))
  {
    hide *;
    PairWf(source, target);
    DiffIsWholePlan(source, target, opts);
    var plan := Diff(source, target, opts).value;
    Setting(source, target, opts, plan, forced);
    EmittedRun(source, target, opts, plan, forced, db);
    var rebuild, r := Rebuilds(source, target, plan, forced), Run(Sqls(EmitScript(source, target, plan, forced).value.0), db);
    var left := Left(source, target, plan, rebuild, db);
    if left.Some? {
      AllFitIs(source, target, rebuild, left.value);
    }
    if r.Some? {
      ArrivesReaches(source, target, rebuild, ScriptUnitList(source, target, plan, forced), opts.ignoreDefaults, left.value, r.value);
    }
  }
}
