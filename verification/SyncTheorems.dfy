/// The two promises of the generator: the script turns the source schema into
/// the target's, and the rollback turns it back; and exactly when each holds.
module SyncTheorems {
  import opened Text
  import opened Sequences
  import opened TypeNames
  import opened Snapshots
  import opened Plan
  import opened PlanOrder
  import opened Mirror
  import opened Script
  import opened Database
  import opened Obstructions
  import opened Locality
  import opened Runs
  import opened WellFormed
  import opened PlanIds
  import opened Shape
  import opened Agreement
  import opened InPlaceTables
  import opened InPlaceEnd
  import opened ScriptUnits
  import opened PlanUnits
  import opened TableRuns
  import opened Convergence
  import opened Drops
  import opened Sparing
  import opened FullScript
  import opened Rollback

  /** The tables the forward script rebuilds. */
  ghost function RebuiltOn(source: Snapshot, target: Snapshot, opts: Options): set<string> {
    Rebuilds(source, target, PlanOf(source, target, opts), {})
  }

  /** The tables the rollback rebuilds. */
  ghost function RebuiltBackOn(source: Snapshot, target: Snapshot, opts: Options): set<string> {
    Rebuilds(target, source, PlanOf(target, source, opts), RebuiltOn(source, target, opts))
  }

  ghost function ForwardUnits(source: Snapshot, target: Snapshot, opts: Options): seq<Unit> {
    ScriptUnitList(source, target, PlanOf(source, target, opts), {})
  }

  ghost function BackUnits(source: Snapshot, target: Snapshot, opts: Options): seq<Unit> {
    ScriptUnitList(target, source, PlanOf(target, source, opts), RebuiltOn(source, target, opts))
  }

  /** The database the source snapshot was taken of, up to the defaults the options ignore. */
  ghost predicate IsSource(db: Db, source: Snapshot, target: Snapshot, opts: Options) {
    && Realising(db, source, opts.ignoreDefaults) && Typed(db)
    && db.views.Keys <= ViewMap(source).Keys + ViewMap(target).Keys
  }

  /** What the forward script's drops leave: the database itself unless enforcement is on and nothing is rebuilt. */
  ghost function LeftOn(source: Snapshot, target: Snapshot, opts: Options, db: Db): Option<Db> {
    Left(source, target, PlanOf(source, target, opts), RebuiltOn(source, target, opts), db)
  }

  ghost function LeftBackOn(source: Snapshot, target: Snapshot, opts: Options, db: Db): Option<Db> {
    Left(target, source, PlanOf(target, source, opts), RebuiltBackOn(source, target, opts), db)
  }

  // ---- Convergence ----

  /** No created table has a user index, and a table changed in place declares the same primary key on both sides. */
  ghost predicate Converging(source: Snapshot, target: Snapshot, rebuild: set<string>) {
    forall k :: k in TableMap(target) ==>
      if k !in TableMap(source) then forall i :: i in TableMap(target)[k].indexes ==> !IsUserIndex(i)
      else k in rebuild || SamePk(TableMap(source)[k], TableMap(target)[k])
  }

  lemma ConvergingIs(source: Snapshot, target: Snapshot, rebuild: set<string>, db: Db, ignore: bool)
    requires Realising(db, source, ignore)
    ensures Converging(source, target, rebuild) <==> Reaches(source, target, rebuild, db)
  {
    hide TableMap, PkColumns, SameColumns, UniqueLists, FkStates, UserIndexStates, IsUserIndex, LowerAll;
    forall k | k in TableMap(target)
      ensures (if k !in TableMap(source) then forall i :: i in TableMap(target)[k].indexes ==> !IsUserIndex(i)
               else k in rebuild || SamePk(TableMap(source)[k], TableMap(target)[k]))
        <==> TableReaches(TableMap(source), TableMap(target), rebuild, k, Lookup(db.tables, k))
    {
      if k in TableMap(source) {
        assert db.tables[k].def.pk == LowerAll(PkColumns(TableMap(source)[k]));
      }
    }
  }

  /** No foreign key of the target names the temporary table of a table rebuilt when or after its own was declared. */
  ghost predicate NoStray(target: Snapshot, units: seq<Unit>) {
    forall k, f :: k in TableMap(target) && f in FkStates(TableMap(target)[k]) ==> !Strays(units, k, f.refTable)
  }

  // ---- Which tables have their foreign keys declared ----

  lemma DeclaredBlock(source: Snapshot, target: Snapshot, opts: Options, plan: seq<Entry>, forced: set<string>, k: string, b: Block)
    requires PlanSetting(source, target, opts, plan, forced) && ScriptRuns(source, target, plan, forced)
    requires BlockOk(EmissionOf(source, target, plan), b) && BlockFrom(plan, Rebuilds(source, target, plan, forced), b)
    requires Declares(UnitOf(EmissionOf(source, target, plan), b), k) && k in TableMap(target)
    ensures k !in TableMap(source) || k in Rebuilds(source, target, plan, forced)
  {
    SettingChosen(source, target, opts, plan, forced);
    var x := EmissionOf(source, target, plan);
    hide PlanSetting, ScriptRuns, TableMap, Rebuilds, EmissionOf, BlockOk, UnitOf, WholePlan, Lower, Chosen, WfSnapshot;
    UnitOfKey(x, b);
    BlockFromIs(plan, Rebuilds(source, target, plan, forced), b);
    if b.Direct? {
      DirectUnit(x, b.entry);
      TablesWf(target, k);
      PlanEntryPhase(source, target, opts, plan, b.entry, k);
      CreateMissing(source, target, opts, plan, b.entry);
    } else {
      GroupKeyFrom(plan, Rebuilds(source, target, plan, forced), b);
    }
  }

  lemma GroupKeyFrom(plan: seq<Entry>, rebuild: set<string>, b: Block)
    requires b.Group? && BlockFrom(plan, rebuild, b)
    ensures b.key in rebuild && BlockKey(b) == b.key
  {
  }

  lemma CreateMissing(source: Snapshot, target: Snapshot, opts: Options, plan: seq<Entry>, e: Entry)
    requires WholePlan(source, target, opts, plan) && e in plan && e.op == CreateTable && WfSnapshot(target)
    ensures Lower(e.table) !in TableMap(source)
  {
    hide TableMap, DistinctTags, PhasesAscend, DiffTable, Lower, WfSnapshot;
    var k := Lower(e.table);
    if k in TableMap(source) && k in TableMap(target) {
      TableEntries(Sqlite, TableMap(source)[k], TableMap(target)[k], opts);
    }
  }

  lemma BlockDeclares(source: Snapshot, target: Snapshot, plan: seq<Entry>, forced: set<string>, k: string, b: Block)
    requires ScriptRuns(source, target, plan, forced) && b in ScriptBlocks(source, target, plan, forced) && BlockKey(b) == k
    requires b.Group? || b.entry.op == CreateTable
    ensures Redeclared(ScriptUnitList(source, target, plan, forced), k)
  {
    hide ScriptRuns, ScriptBlocks, EmissionOf, UnitOf, BlockOk, UnitsOk, BlockKey;
    UnitListOk(source, target, plan, forced);
    var x, blocks := EmissionOf(source, target, plan), ScriptBlocks(source, target, plan, forced);
    var i :| 0 <= i < |blocks| && blocks[i] == b;
    assert BlockOk(x, blocks[i]);
    UnitOfKey(x, b);
    if b.Direct? {
      DirectUnit(x, b.entry);
    } else {
      GroupIsRebuild(x, b);
    }
    assert Declares(ScriptUnitList(source, target, plan, forced)[i], k);
  }

  lemma GroupIsRebuild(x: Emission, b: Block)
    requires b.Group? && BlockOk(x, b)
    ensures UnitOf(x, b).Rebuild?
  {
  }

  /** Of the target's tables the script declares those it creates and those it rebuilds. */
  lemma RedeclaredIs(source: Snapshot, target: Snapshot, opts: Options, plan: seq<Entry>, forced: set<string>, k: string)
    requires PlanSetting(source, target, opts, plan, forced) && ScriptRuns(source, target, plan, forced) && k in TableMap(target)
    ensures Redeclared(ScriptUnitList(source, target, plan, forced), k) <==> k !in TableMap(source) || k in Rebuilds(source, target, plan, forced)
  {
    hide *;
    SettingChosen(source, target, opts, plan, forced);
    UnitListOk(source, target, plan, forced);
    ScriptBlocksAre(source, target, plan, forced, k);
    if k in Rebuilds(source, target, plan, forced) {
      RebuiltHasEntries(source, target, plan, forced, k);
      var b := GroupOf(plan, k, Phase(Own(plan, k)[0].op));
      FilterMember(ScriptBlocks(source, target, plan, forced), OfKey(k));
      KeyedBlock(b, k, ScriptBlocks(source, target, plan, forced));
      GroupIs(plan, k, Phase(Own(plan, k)[0].op));
      BlockDeclares(source, target, plan, forced, k, b);
    } else if k !in TableMap(source) {
      TablesWf(target, k);
      OwnCreate(source, target, opts, plan, k);
      var e := Mk(CreateTable, TableMap(target)[k].name, "", opts);
      OneDirect(e);
      MkIs(CreateTable, TableMap(target)[k].name, opts);
      FilterMember(ScriptBlocks(source, target, plan, forced), OfKey(k));
      KeyedBlock(Direct(e), k, ScriptBlocks(source, target, plan, forced));
      BlockDeclares(source, target, plan, forced, k, Direct(e));
    } else {
      UndeclaredBlocks(source, target, opts, plan, forced, k);
    }
  }

  lemma KeyedBlock(b: Block, k: string, blocks: seq<Block>)
    requires Filter(blocks, OfKey(k)) == [b] && forall x :: x in Filter(blocks, OfKey(k)) <==> x in blocks && OfKey(k)(x)
    ensures b in blocks && BlockKey(b) == k
  {
    hide Filter, BlockKey;
    assert b in Filter(blocks, OfKey(k));
  }

  lemma GroupIs(plan: seq<Entry>, k: string, phase: nat)
    ensures GroupOf(plan, k, phase).Group?
  {
    hide Filter, AnyNonReversible, Ids;
  }

  lemma UndeclaredBlocks(source: Snapshot, target: Snapshot, opts: Options, plan: seq<Entry>, forced: set<string>, k: string)
    requires PlanSetting(source, target, opts, plan, forced) && ScriptRuns(source, target, plan, forced)
    requires k in TableMap(target) && k in TableMap(source) && k !in Rebuilds(source, target, plan, forced)
    ensures !Redeclared(ScriptUnitList(source, target, plan, forced), k)
  {
    hide PlanSetting, ScriptRuns, TableMap, Rebuilds, EmissionOf, BlockOk, UnitOf, Declares, BlockFrom, UnitsOk, Blocks;
    UnitListOk(source, target, plan, forced);
    BlocksFrom(plan, plan, Rebuilds(source, target, plan, forced), {});
    var x, blocks, u := EmissionOf(source, target, plan), ScriptBlocks(source, target, plan, forced), ScriptUnitList(source, target, plan, forced);
    forall i | 0 <= i < |u| ensures !Declares(u[i], k) {
      assert BlockOk(x, blocks[i]);
      if Declares(UnitOf(x, blocks[i]), k) {
        DeclaredBlock(source, target, opts, plan, forced, k, blocks[i]);
      }
    }
  }

  /** A table changed in place has the same foreign keys on both sides. */
  lemma InPlaceFks(source: Snapshot, target: Snapshot, opts: Options, plan: seq<Entry>, forced: set<string>, k: string)
    requires PlanSetting(source, target, opts, plan, forced)
    requires k in TableMap(target) && k in TableMap(source) && k !in Rebuilds(source, target, plan, forced)
    ensures FkStates(TableMap(source)[k]) == FkStates(TableMap(target)[k])
  {
    hide *;
    SettingChosen(source, target, opts, plan, forced);
    TablesWf(source, k);
    TablesWf(target, k);
    StaysInPlace(source, target, opts, plan, forced, k);
    InPlaceAgrees(TableMap(source)[k], TableMap(target)[k], opts);
    AgreedFks(TableMap(source)[k], TableMap(target)[k], opts);
  }

  // ---- What the drops leave is still the source's schema ----

  lemma LeftDefs(source: Snapshot, target: Snapshot, plan: seq<Entry>, rebuild: set<string>, db: Db)
    requires Left(source, target, plan, rebuild, db).Some?
    ensures var left := Left(source, target, plan, rebuild, db).value;
      && left.tables.Keys == db.tables.Keys && left.views == db.views && left.enforce == db.enforce
      && forall k :: k in db.tables ==> left.tables[k].def == db.tables[k].def
  {
    hide TableMap, DropAll, TrimmedTables, DropKeys;
  }

  lemma SameDefsRealise(a: Db, b: Db, s: Snapshot, ignore: bool)
    requires b.tables.Keys == a.tables.Keys && forall k :: k in a.tables ==> b.tables[k].def == a.tables[k].def
    ensures Realising(a, s, ignore) <==> Realising(b, s, ignore)
  {
    hide TableMap, Realises;
  }

  lemma SourceFks(db: Db, source: Snapshot, ignore: bool, k: string)
    requires Realising(db, source, ignore) && k in TableMap(source)
    ensures k in db.tables && db.tables[k].def.fks == FkStates(TableMap(source)[k])
  {
    hide TableMap, PkColumns, SameColumns, UniqueLists, FkStates, UserIndexStates;
  }

  /** From the source database, the foreign keys of table k end as the target's, aimed. */
  lemma FksFromSource(source: Snapshot, target: Snapshot, opts: Options, plan: seq<Entry>, forced: set<string>, k: string, left: Db)
    requires PlanSetting(source, target, opts, plan, forced) && ScriptRuns(source, target, plan, forced) && k in TableMap(target)
    requires Realising(left, source, opts.ignoreDefaults)
    ensures var units := ScriptUnitList(source, target, plan, forced);
      FinalFks(units, k, Lookup(left.tables, k), TableMap(target)[k]) == AimAll(units, k, FkStates(TableMap(target)[k]))
  {
    hide *;
    var units := ScriptUnitList(source, target, plan, forced);
    RedeclaredIs(source, target, opts, plan, forced, k);
    FinalIs(units, k, Lookup(left.tables, k), TableMap(target)[k]);
    LookupIs(left, k);
    if !Redeclared(units, k) {
      InPlaceFks(source, target, opts, plan, forced, k);
      SourceFks(left, source, opts.ignoreDefaults, k);
    }
  }

  lemma FinalIs(units: seq<Unit>, k: string, before: Option<Table>, t: TableSnapshot)
    ensures FinalFks(units, k, before, t) == AimAll(units, k, if Redeclared(units, k) || before.None? then FkStates(t) else before.value.def.fks)
  {
    hide AimAll, Redeclared, FkStates;
  }

  lemma StrayIs(source: Snapshot, target: Snapshot, opts: Options, plan: seq<Entry>, forced: set<string>, left: Db)
    requires PlanSetting(source, target, opts, plan, forced) && ScriptRuns(source, target, plan, forced)
    requires Realising(left, source, opts.ignoreDefaults)
    ensures AllAimed(target, ScriptUnitList(source, target, plan, forced), left) <==> NoStray(target, ScriptUnitList(source, target, plan, forced))
  {
    SettingPair(source, target, opts, plan, forced);
    PairWf(source, target);
    UnitListOk(source, target, plan, forced);
    hide PlanSetting, ScriptRuns, TableMap, Realising, FkStates, Strays, FinalFks, AimAll, ScriptUnitList, UnitsOk, WfPair, WfSnapshot, NamesOf;
    var w, units := NamesOf(source, target), ScriptUnitList(source, target, plan, forced);
    forall k | k in TableMap(target)
      ensures FinalFks(units, k, Lookup(left.tables, k), TableMap(target)[k]) == FkStates(TableMap(target)[k])
        <==> forall f :: f in FkStates(TableMap(target)[k]) ==> !Strays(units, k, f.refTable)
    {
      FksFromSource(source, target, opts, plan, forced, k, left);
      AimAllStays(w, units, k, FkStates(TableMap(target)[k]));
    }
  }

  lemma PlanSettingOn(source: Snapshot, target: Snapshot, opts: Options, forced: set<string>)
    requires WfPair(source, target) && forced <= TableMap(source).Keys * TableMap(target).Keys
    ensures PlanSetting(source, target, opts, PlanOf(source, target, opts), forced)
  {
    hide *;
    PairWf(source, target);
    PlanIs(source, target, opts);
    DiffIsWholePlan(source, target, opts);
    Setting(source, target, opts, PlanOf(source, target, opts), forced);
  }

  lemma SettingRuns(source: Snapshot, target: Snapshot, opts: Options, forced: set<string>)
    requires WfPair(source, target) && forced <= TableMap(source).Keys * TableMap(target).Keys
    requires NoStubs(source, target, PlanOf(source, target, opts), forced)
    ensures PlanSetting(source, target, opts, PlanOf(source, target, opts), forced) && ScriptRuns(source, target, PlanOf(source, target, opts), forced)
  {
    hide *;
    PlanSettingOn(source, target, opts, forced);
    SettingChosen(source, target, opts, PlanOf(source, target, opts), forced);
    ScriptIsOk(source, target, opts, PlanOf(source, target, opts), forced);
  }

  lemma OnIs(source: Snapshot, target: Snapshot, opts: Options, db: Db)
    ensures LeftOn(source, target, opts, db) == Left(source, target, PlanOf(source, target, opts), RebuiltOn(source, target, opts), db)
    ensures LeftBackOn(source, target, opts, db) == Left(target, source, PlanOf(target, source, opts), RebuiltBackOn(source, target, opts), db)
    ensures ForwardUnits(source, target, opts) == ScriptUnitList(source, target, PlanOf(source, target, opts), {})
    ensures BackUnits(source, target, opts) == ScriptUnitList(target, source, PlanOf(target, source, opts), RebuiltOn(source, target, opts))
  {
    hide Left, PlanOf, RebuiltOn, RebuiltBackOn, ScriptUnitList;
  }

  /** From what the drops leave of the source database. */
  lemma SourceEnd(source: Snapshot, target: Snapshot, opts: Options, db: Db)
    requires WfPair(source, target) && IsSource(db, source, target, opts) && LeftOn(source, target, opts, db).Some?
    requires NoStubs(source, target, PlanOf(source, target, opts), {})
    ensures var left, rebuild, units := LeftOn(source, target, opts, db).value, RebuiltOn(source, target, opts), ForwardUnits(source, target, opts);
      && Realising(left, source, opts.ignoreDefaults)
      && (Reaches(source, target, rebuild, left) && AllAimed(target, units, left) <==> Converging(source, target, rebuild) && NoStray(target, units))
  {
    hide *;
    NothingForced(source, target);
    SettingRuns(source, target, opts, {});
    OnIs(source, target, opts, db);
    RebuiltOnIs(source, target, opts);
    IsSourceStands(db, source, target, opts);
    LeftDefs(source, target, PlanOf(source, target, opts), RebuiltOn(source, target, opts), db);
    var left := LeftOn(source, target, opts, db).value;
    SameDefsRealise(db, left, source, opts.ignoreDefaults);
    ConvergingIs(source, target, RebuiltOn(source, target, opts), left, opts.ignoreDefaults);
    StrayIs(source, target, opts, PlanOf(source, target, opts), {}, left);
  }

  /**
   * The script of the whole plan is generated unless an added column's default makes generation panic.  On
   * the source database it runs to the end exactly when no index or view obstructs it, no DROP TABLE is
   * refused, SQLite takes every DEFAULT clause the script declares, and what the drops leave fits.  Every
   * table is then where it should be, rows carried over, and the schema is the target's in everything the comparison looks at exactly when the pair is converging
   * and no foreign key strays.
   */
  lemma Converges(source: Snapshot, target: Snapshot, opts: Options, db: Db)
    requires WfPair(source, target) && IsSource(db, source, target, opts)
    ensures var g := Generate(source, target, PlanOf(source, target, opts), opts);
      && (g.Ok? <==> NoStubsBothWays(source, target, PlanOf(source, target, opts), PlanOf(target, source, opts)))
      && (g.Ok? ==>
            var rebuild, units, left := RebuiltOn(source, target, opts), ForwardUnits(source, target, opts), LeftOn(source, target, opts, db);
            var r := Run(Sqls(g.value.statements), db);
            && (r.Some? <==> !Obstructed(Sqls(g.value.statements), CatalogOf(db), db.views) && left.Some?
                             && DefaultsTaken(source, target, rebuild) && DataFits(source, target, rebuild, left.value))
            && (r.Some? ==> Arrives(source, target, rebuild, units, opts.ignoreDefaults, left.value, r.value)
                            && (Realising(r.value, target, opts.ignoreDefaults) <==> Converging(source, target, rebuild) && NoStray(target, units))))
  {
    hide *;
    PairWf(source, target);
    PlanIs(source, target, opts);
    GenerateWhole(source, target, opts);
    BothWaysIs(source, target, PlanOf(source, target, opts), PlanOf(target, source, opts));
    if NoStubsBothWays(source, target, PlanOf(source, target, opts), PlanOf(target, source, opts)) {
      ForwardIs(source, target, opts);
      RebuiltOnIs(source, target, opts);
      OnIs(source, target, opts, db);
      NothingForced(source, target);
      IsSourceStands(db, source, target, opts);
      PlanConverges(source, target, opts, {}, db);
      if LeftOn(source, target, opts, db).Some? {
        SourceEnd(source, target, opts, db);
      }
    }
  }

  lemma RebuiltOnIs(source: Snapshot, target: Snapshot, opts: Options)
    ensures RebuiltOn(source, target, opts) == Rebuilds(source, target, PlanOf(source, target, opts), {})
    ensures RebuiltBackOn(source, target, opts) == Rebuilds(target, source, PlanOf(target, source, opts), RebuiltOn(source, target, opts))
  {
    hide Rebuilds, PlanOf;
  }

  lemma IsSourceStands(db: Db, source: Snapshot, target: Snapshot, opts: Options)
    requires IsSource(db, source, target, opts)
    ensures Realising(db, source, opts.ignoreDefaults) && Stands(db, source, target, opts.ignoreDefaults)
  {
    hide Realising, Typed, ViewMap, Stands;
    SnapshotStands(db, source, target, opts.ignoreDefaults);
  }

  // ---- When nothing obstructs the script ----

  /** No user index of either side has the temporary name of a rebuilt table. */
  ghost predicate NoTmpIndex(source: Snapshot, target: Snapshot, rebuild: set<string>) {
    forall k :: k in rebuild && k in TableMap(target) ==>
      Lower(TmpNameOf(TableMap(target)[k].name, TakenNames(source, target))) !in AllOwned(NamesOf(source, target))
  }

  /** Tables of both sides that are not rebuilt. */
  ghost function Standing(source: Snapshot, target: Snapshot, rebuild: set<string>): set<string> {
    TableMap(source).Keys * TableMap(target).Keys - rebuild
  }

  lemma BlockCareful(source: Snapshot, target: Snapshot, opts: Options, b: Block)
    requires WfPair(source, target) && NoStubs(source, target, PlanOf(source, target, opts), {})
    requires BlockFrom(PlanOf(source, target, opts), RebuiltOn(source, target, opts), b)
    requires BlockOk(EmissionOf(source, target, PlanOf(source, target, opts)), b)
    ensures CarefulUnit(UnitOf(EmissionOf(source, target, PlanOf(source, target, opts)), b), Standing(source, target, RebuiltOn(source, target, opts)))
  {
    NothingForced(source, target);
    PlanSettingOn(source, target, opts, {});
    SettingChosen(source, target, opts, PlanOf(source, target, opts), {});
    hide WfPair, NoStubs, PlanOf, TableMap, RebuiltOn, NamesOf, Lower, TakenNames, WholePlan, WfSnapshot, Chosen, PlanSetting, TmpNameOf, TableBodyOf,
      CommonColumns, OrderedColumns, UserIndexes, CreateIndexes, DirectSql, CyclicSet, UnitOf, EmissionOf;
    var plan, x, k := PlanOf(source, target, opts), EmissionOf(source, target, PlanOf(source, target, opts)), BlockKey(b);
    UnitOfKey(x, b);
    if b.Direct? {
      DirectUnit(x, b.entry);
      if k in TableMap(target) {
        TablesWf(target, k);
      }
      PlanEntryPhase(source, target, opts, plan, b.entry, k);
    }
  }

  lemma ForwardCareful(source: Snapshot, target: Snapshot, opts: Options)
    requires WfPair(source, target) && NoStubs(source, target, PlanOf(source, target, opts), {})
    ensures Careful(ForwardUnits(source, target, opts), Standing(source, target, RebuiltOn(source, target, opts)))
    ensures UnitsOk(NamesOf(source, target), ForwardUnits(source, target, opts))
  {
    hide *;
    NothingForced(source, target);
    SettingRuns(source, target, opts, {});
    RebuiltOnIs(source, target, opts);
    OnIs(source, target, opts, Db(map[], map[], false));
    var plan := PlanOf(source, target, opts);
    UnitListOk(source, target, plan, {});
    ScriptBlocksIs(source, target, plan, {});
    BlocksFrom(plan, plan, RebuiltOn(source, target, opts), {});
    var x, blocks, units := EmissionOf(source, target, plan), ScriptBlocks(source, target, plan, {}), ForwardUnits(source, target, opts);
    forall i | 0 <= i < |units| ensures CarefulUnit(units[i], Standing(source, target, RebuiltOn(source, target, opts))) {
      BlocksOkAt(x, blocks, i);
      BlockCareful(source, target, opts, blocks[i]);
    }
    CarefulIs(units, Standing(source, target, RebuiltOn(source, target, opts)));
  }

  lemma ScriptBlocksIs(source: Snapshot, target: Snapshot, entries: seq<Entry>, forced: set<string>)
    ensures ScriptBlocks(source, target, entries, forced) == Blocks(entries, entries, Rebuilds(source, target, entries, forced), {})
  {
    hide Rebuilds, Blocks;
  }

  lemma BlocksOkAt(x: Emission, blocks: seq<Block>, i: nat)
    requires BlocksOk(x, blocks) && i < |blocks|
    ensures BlockOk(x, blocks[i])
  {
    hide BlockOk;
  }

  lemma CarefulIs(units: seq<Unit>, stable: set<string>)
    requires forall i :: 0 <= i < |units| ==> CarefulUnit(units[i], stable)
    ensures Careful(units, stable)
  {
    hide CarefulUnit;
  }

  /** The generated script is obstructed exactly when its units are: the pragmas are not. */
  lemma ScriptObstructed(source: Snapshot, target: Snapshot, opts: Options, c: Catalog, views: map<string, set<string>>)
    requires WfPair(source, target) && Generate(source, target, PlanOf(source, target, opts), opts).Ok?
    ensures NoStubs(source, target, PlanOf(source, target, opts), {})
    ensures Obstructed(Sqls(Generate(source, target, PlanOf(source, target, opts), opts).value.statements), c, views)
      <==> Obstructed(AllSqls(ForwardUnits(source, target, opts)), c, views)
  {
    hide *;
    GenerateWhole(source, target, opts);
    BothWaysIs(source, target, PlanOf(source, target, opts), PlanOf(target, source, opts));
    ForwardIs(source, target, opts);
    NothingForced(source, target);
    SettingRuns(source, target, opts, {});
    OnIs(source, target, opts, Db(map[], map[], false));
    var plan := PlanOf(source, target, opts);
    EmitIs(source, target, plan, {});
    WrappedObstructed(AllStatements(EmissionOf(source, target, plan), ScriptBlocks(source, target, plan, {})).value, Rebuilds(source, target, plan, {}), c, views);
  }

  /**
   * While views read only views and tables that stay, the script is obstructed exactly when an index has the
   * temporary name of a table to be rebuilt at the moment its turn comes.
   */
  lemma ObstructedByIndex(source: Snapshot, target: Snapshot, opts: Options, db: Db)
    requires WfPair(source, target) && IsSource(db, source, target, opts) && Generate(source, target, PlanOf(source, target, opts), opts).Ok?
    requires ReadOnly(db.views, Standing(source, target, RebuiltOn(source, target, opts)))
    ensures Obstructed(Sqls(Generate(source, target, PlanOf(source, target, opts), opts).value.statements), CatalogOf(db), db.views)
      <==> exists i: nat :: Clash(ForwardUnits(source, target, opts), i, CatalogOf(db))
    ensures Kept(CatalogOf(db), AllOwned(NamesOf(source, target)), Standing(source, target, RebuiltOn(source, target, opts)))
  {
    hide *;
    ScriptObstructed(source, target, opts, CatalogOf(db), db.views);
    ForwardCareful(source, target, opts);
    IsSourceStands(db, source, target, opts);
    StandsOk(db, source, target, opts.ignoreDefaults);
    StandsKeys(db, source, target, opts.ignoreDefaults);
    StandingWithin(source, target, RebuiltOn(source, target, opts));
    CatalogKept(NamesOf(source, target), db, Standing(source, target, RebuiltOn(source, target, opts)));
    ClashObstructs(NamesOf(source, target), ForwardUnits(source, target, opts), Standing(source, target, RebuiltOn(source, target, opts)), CatalogOf(db), db.views);
  }

  lemma GroupTmp(x: Emission, b: Block)
    requires b.Group? && BlockOk(x, b)
    ensures var u := UnitOf(x, b); u.Rebuild? && b.key in x.tgt && u.key == b.key && u.tmp == TmpNameOf(x.tgt[b.key].name, x.taken)
  {
    hide TmpNameOf, TableBodyOf, CommonColumns, OrderedColumns, UserIndexes, CreateIndexes;
  }

  /** Each rebuild in the script goes through the temporary name found for its table. */
  lemma RebuildTmp(source: Snapshot, target: Snapshot, opts: Options, i: nat)
    requires WfPair(source, target) && NoStubs(source, target, PlanOf(source, target, opts), {})
    requires i < |ForwardUnits(source, target, opts)| && ForwardUnits(source, target, opts)[i].Rebuild?
    ensures var u := ForwardUnits(source, target, opts)[i];
      u.key in RebuiltOn(source, target, opts) && u.key in TableMap(target) && u.tmp == TmpNameOf(TableMap(target)[u.key].name, TakenNames(source, target))
  {
    hide *;
    NothingForced(source, target);
    SettingRuns(source, target, opts, {});
    RebuiltOnIs(source, target, opts);
    OnIs(source, target, opts, Db(map[], map[], false));
    var plan := PlanOf(source, target, opts);
    UnitListOk(source, target, plan, {});
    ScriptBlocksIs(source, target, plan, {});
    BlocksFrom(plan, plan, RebuiltOn(source, target, opts), {});
    var x, b := EmissionOf(source, target, plan), ScriptBlocks(source, target, plan, {})[i];
    BlocksOkAt(x, ScriptBlocks(source, target, plan, {}), i);
    EmissionIs(source, target, plan);
    if b.Direct? {
      DirectUnit(x, b.entry);
    } else {
      GroupTmp(x, b);
      GroupKeyFrom(plan, RebuiltOn(source, target, opts), b);
    }
  }

  lemma NoTmpAt(source: Snapshot, target: Snapshot, rebuild: set<string>, k: string)
    requires NoTmpIndex(source, target, rebuild) && k in rebuild && k in TableMap(target)
    ensures Lower(TmpNameOf(TableMap(target)[k].name, TakenNames(source, target))) !in AllOwned(NamesOf(source, target))
  {
    hide TableMap, TmpNameOf, TakenNames, AllOwned, NamesOf, Lower;
  }

  lemma ClashOwned(units: seq<Unit>, i: nat, c: Catalog, names: set<string>, stable: set<string>)
    requires Clash(units, i, c) && Kept(CatalogAfter(AllSqls(units[..i]), c), names, stable)
    ensures units[i].Rebuild? && Lower(units[i].tmp) in names
  {
    hide AllSqls, CatalogAfter, Lower;
  }

  lemma PrefixKept(w: Names, units: seq<Unit>, stable: set<string>, i: nat, c: Catalog)
    requires NamesOk(w) && UnitsOk(w, units) && stable <= w.tables && Careful(units, stable) && i <= |units| && Kept(c, AllOwned(w), stable)
    ensures Kept(CatalogAfter(AllSqls(units[..i]), c), AllOwned(w), stable)
  {
    hide NamesOk, UnitOk, CarefulUnit, AllSqls, CatalogAfter, Kept, AllOwned, Obstructed, Clash;
    assert ReadOnly(map[], stable);
    forall j | 0 <= j < i ensures units[..i][j] == units[j] {}
    ClashObstructs(w, units[..i], stable, c, map[]);
  }

  /** Nothing obstructs the script when no index has a chosen temporary name and views read only views and tables that stay. */
  lemma Unobstructed(source: Snapshot, target: Snapshot, opts: Options, db: Db)
    requires WfPair(source, target) && IsSource(db, source, target, opts) && Generate(source, target, PlanOf(source, target, opts), opts).Ok?
    requires NoTmpIndex(source, target, RebuiltOn(source, target, opts)) && ReadOnly(db.views, Standing(source, target, RebuiltOn(source, target, opts)))
    ensures !Obstructed(Sqls(Generate(source, target, PlanOf(source, target, opts), opts).value.statements), CatalogOf(db), db.views)
  {
    hide *;
    var w, units, stable, c := NamesOf(source, target), ForwardUnits(source, target, opts), Standing(source, target, RebuiltOn(source, target, opts)), CatalogOf(db);
    ObstructedByIndex(source, target, opts, db);
    ScriptObstructed(source, target, opts, c, db.views);
    ForwardCareful(source, target, opts);
    IsSourceStands(db, source, target, opts);
    StandsOk(db, source, target, opts.ignoreDefaults);
    StandsKeys(db, source, target, opts.ignoreDefaults);
    StandingWithin(source, target, RebuiltOn(source, target, opts));
    CatalogKept(w, db, stable);
    forall i: nat ensures !Clash(units, i, c) {
      if Clash(units, i, c) {
        ClashWithin(units, i, c);
        PrefixKept(w, units, stable, i, c);
        ClashOwned(units, i, c, AllOwned(w), stable);
        RebuildTmp(source, target, opts, i);
        NoTmpAt(source, target, RebuiltOn(source, target, opts), units[i].key);
      }
    }
  }

  lemma StandingWithin(source: Snapshot, target: Snapshot, rebuild: set<string>)
    ensures Standing(source, target, rebuild) <= TableMap(source).Keys
  {
    hide TableMap;
  }

  // ---- Rollback ----

  /** Where the forward script leaves a table, the rollback may start. */
  lemma EndStands(sm: map<string, TableSnapshot>, tm: map<string, TableSnapshot>, rebuild: set<string>, k: string,
                  before: Option<Table>, ignore: bool, y: Table)
    requires k in tm && TableEnds(sm, tm, rebuild, k, before, ignore, Some(Aimed(y, FkStates(tm[k])))) && Lists(y.def.fks) == Lists(FkStates(tm[k]))
    requires k in sm ==> before.Some? && before.value.def.pk == LowerAll(PkColumns(sm[k]))
    ensures StandsTable(tm[k], sm, k, y, ignore)
  {
    hide SameColumns, PkColumns, UniqueLists, FkStates, UserIndexStates, Fit, Lists;
    var z := Aimed(y, FkStates(tm[k]));
    if k in sm && k in rebuild {
      assert z.def.(pk := LowerAll(PkColumns(tm[k]))) == z.def;
    }
  }

  lemma ArrivedTable(source: Snapshot, target: Snapshot, rebuild: set<string>, units: seq<Unit>, opts: Options, left: Db, mid: Db, k: string)
    requires WfSnapshot(target) && Realising(left, source, opts.ignoreDefaults)
    requires Arrives(source, target, rebuild, units, opts.ignoreDefaults, left, mid) && k in mid.tables && k in TableMap(target)
    requires mid.tables[k].def.fks == AimAll(units, k, FkStates(TableMap(target)[k]))
    ensures StandsTable(TableMap(target)[k], TableMap(source), k, mid.tables[k], opts.ignoreDefaults)
  {
    hide WfSnapshot, TableMap, TableEnds, StandsTable, PkColumns, LowerAll, FkStates, AimAll, Realising, FinalFks, Lists;
    SourcePk(left, source, opts.ignoreDefaults, k);
    AimKeepsLists(units, k, FkStates(TableMap(target)[k]));
    assert Declared(TableMap(target), k, Lookup(mid.tables, k)) == Some(Aimed(mid.tables[k], FkStates(TableMap(target)[k])));
    EndStands(TableMap(source), TableMap(target), rebuild, k, Lookup(left.tables, k), opts.ignoreDefaults, mid.tables[k]);
  }

  /** The forward script leaves a database the rollback may start from, its foreign keys the target's, aimed. */
  lemma ArrivedStands(source: Snapshot, target: Snapshot, opts: Options, left: Db, mid: Db)
    requires WfPair(source, target) && NoStubs(source, target, PlanOf(source, target, opts), {}) && Realising(left, source, opts.ignoreDefaults)
    requires left.views.Keys <= ViewMap(source).Keys + ViewMap(target).Keys
    requires Arrives(source, target, RebuiltOn(source, target, opts), ForwardUnits(source, target, opts), opts.ignoreDefaults, left, mid)
    ensures Stands(mid, target, source, opts.ignoreDefaults)
    ensures forall k :: k in TableMap(target) ==>
      k in mid.tables && mid.tables[k].def.fks == AimAll(ForwardUnits(source, target, opts), k, FkStates(TableMap(target)[k]))
  {
    hide *;
    PairWf(source, target);
    NothingForced(source, target);
    SettingRuns(source, target, opts, {});
    OnIs(source, target, opts, left);
    RebuiltOnIs(source, target, opts);
    var units, rebuild := ForwardUnits(source, target, opts), RebuiltOn(source, target, opts);
    ArrivesReaches(source, target, rebuild, units, opts.ignoreDefaults, left, mid);
    forall k | k in TableMap(target)
      ensures k in mid.tables && mid.tables[k].def.fks == AimAll(units, k, FkStates(TableMap(target)[k]))
      ensures StandsTable(TableMap(target)[k], TableMap(source), k, mid.tables[k], opts.ignoreDefaults)
    {
      EndTable(source, target, rebuild, units, opts.ignoreDefaults, left, mid, k);
      FksFromSource(source, target, opts, PlanOf(source, target, opts), {}, k, left);
      ArrivedTable(source, target, rebuild, units, opts, left, mid, k);
    }
    ArrivesViews(source, target, rebuild, units, opts.ignoreDefaults, left, mid);
    StandsHolds(mid, target, source, opts.ignoreDefaults);
  }

  lemma ArrivesViews(source: Snapshot, target: Snapshot, rebuild: set<string>, units: seq<Unit>, ignore: bool, db: Db, end: Db)
    requires Arrives(source, target, rebuild, units, ignore, db, end)
    ensures end.views == db.views
  {
    hide TableEnds, TableMap, FinalFks, Declared;
  }

  lemma StandsHolds(db: Db, source: Snapshot, target: Snapshot, ignore: bool)
    requires db.tables.Keys == TableMap(source).Keys && db.views.Keys <= ViewMap(source).Keys + ViewMap(target).Keys
    requires forall k :: k in TableMap(source) ==> StandsTable(TableMap(source)[k], TableMap(target), k, db.tables[k], ignore)
    ensures Stands(db, source, target, ignore)
  {
    hide TableMap, ViewMap, StandsTable;
  }

  lemma SourcePk(db: Db, source: Snapshot, ignore: bool, k: string)
    requires Realising(db, source, ignore)
    ensures k in TableMap(source) ==> k in db.tables && db.tables[k].def.pk == LowerAll(PkColumns(TableMap(source)[k]))
  {
    hide TableMap, PkColumns, SameColumns, UniqueLists, FkStates, UserIndexStates, LowerAll;
  }

  /** No table the forward script drops has a user index. */
  ghost predicate NoIndexedDrop(source: Snapshot, target: Snapshot) {
    forall k, i :: k in TableMap(source) && k !in TableMap(target) && i in TableMap(source)[k].indexes ==> !IsUserIndex(i)
  }

  lemma BackReach(sm: map<string, TableSnapshot>, tm: map<string, TableSnapshot>, rebuild: set<string>, back: set<string>, k: string,
                  before: Option<Table>, ignore: bool, y: Option<Table>)
    requires k in sm && rebuild <= back && TableEnds(sm, tm, rebuild, k, before, ignore, y)
    requires before.Some? && before.value.def.pk == LowerAll(PkColumns(sm[k]))
    ensures TableReaches(tm, sm, back, k, y) <==> (k in tm || forall i :: i in sm[k].indexes ==> !IsUserIndex(i))
  {
    hide RowsTyped, Realises, RealisesButPk, PkColumns, IsUserIndex, Fit, UserIndexStates, LowerAll;
  }

  lemma BackReaches(source: Snapshot, target: Snapshot, rebuild: set<string>, units: seq<Unit>, back: set<string>, opts: Options, left: Db, mid: Db, after: Db)
    requires Realising(left, source, opts.ignoreDefaults) && rebuild <= back
    requires Arrives(source, target, rebuild, units, opts.ignoreDefaults, left, mid)
    requires after.tables.Keys == mid.tables.Keys && forall k :: k in mid.tables ==> after.tables[k].def == mid.tables[k].def
    ensures Reaches(target, source, back, after) <==> NoIndexedDrop(source, target)
  {
    hide TableMap, TableEnds, TableReaches, PkColumns, IsUserIndex, LowerAll, Realising, FkStates, FinalFks;
    forall k | k in TableMap(source)
      ensures TableReaches(TableMap(target), TableMap(source), back, k, Lookup(after.tables, k))
        <==> (k in TableMap(target) || forall i :: i in TableMap(source)[k].indexes ==> !IsUserIndex(i))
    {
      SourcePk(left, source, opts.ignoreDefaults, k);
      var y := Declared(TableMap(target), k, Lookup(mid.tables, k));
      BackReach(TableMap(source), TableMap(target), rebuild, back, k, Lookup(left.tables, k), opts.ignoreDefaults, y);
      SameReach(TableMap(target), TableMap(source), back, k, Lookup(after.tables, k), y);
    }
  }

  lemma SameReach(sm: map<string, TableSnapshot>, tm: map<string, TableSnapshot>, rebuild: set<string>, k: string, x: Option<Table>, y: Option<Table>)
    requires k in tm && x.Some? == y.Some? && (x.Some? ==> x.value.def.pk == y.value.def.pk)
    ensures TableReaches(sm, tm, rebuild, k, x) <==> TableReaches(sm, tm, rebuild, k, y)
  {
    hide PkColumns, IsUserIndex, LowerAll;
  }

  /**
   * No foreign key of the source names the temporary table of a table the rollback rebuilds when or after
   * its own was declared; nor, for a table changed in place both ways, of one the forward script rebuilds.
   */
  ghost predicate NoStrayBack(source: Snapshot, target: Snapshot, forward: seq<Unit>, back: seq<Unit>, rebuilt: set<string>) {
    forall k, f :: k in TableMap(source) && f in FkStates(TableMap(source)[k]) ==>
      !Strays(back, k, f.refTable) && (k in TableMap(target) && k !in rebuilt ==> !Strays(forward, k, f.refTable))
  }

  lemma BackFks(source: Snapshot, target: Snapshot, opts: Options, k: string, mid: Db, after: Db)
    requires WfPair(source, target) && k in TableMap(source)
    requires NoStubsBothWays(source, target, PlanOf(source, target, opts), PlanOf(target, source, opts))
    requires forall k :: k in TableMap(target) ==>
      k in mid.tables && mid.tables[k].def.fks == AimAll(ForwardUnits(source, target, opts), k, FkStates(TableMap(target)[k]))
    requires after.tables.Keys == mid.tables.Keys == TableMap(target).Keys && forall k :: k in mid.tables ==> after.tables[k].def == mid.tables[k].def
    ensures var fwd, back, fks := ForwardUnits(source, target, opts), BackUnits(source, target, opts), FkStates(TableMap(source)[k]);
      FinalFks(back, k, Lookup(after.tables, k), TableMap(source)[k])
        == AimAll(back, k, if k in TableMap(target) && k !in RebuiltBackOn(source, target, opts) then AimAll(fwd, k, fks) else fks)
  {
    hide *;
    BackSettings(source, target, opts);
    OnIs(source, target, opts, mid);
    RebuiltOnIs(source, target, opts);
    var back := BackUnits(source, target, opts);
    RedeclaredIs(target, source, opts, PlanOf(target, source, opts), RebuiltOn(source, target, opts), k);
    FinalIs(back, k, Lookup(after.tables, k), TableMap(source)[k]);
    LookupIs(after, k);
    if k in TableMap(target) && k !in RebuiltBackOn(source, target, opts) {
      RebuiltBackIn(source, target, opts, k);
      InPlaceFks(source, target, opts, PlanOf(source, target, opts), {}, k);
    }
  }

  lemma RebuiltBackIn(source: Snapshot, target: Snapshot, opts: Options, k: string)
    requires WfPair(source, target)
    ensures k in RebuiltOn(source, target, opts) ==> k in RebuiltBackOn(source, target, opts)
    ensures RebuiltOn(source, target, opts) <= RebuiltBackOn(source, target, opts)
  {
    hide *;
    PairWf(source, target);
    RebuiltBack(source, target, opts);
    RebuiltOnIs(source, target, opts);
  }

  lemma BackSettings(source: Snapshot, target: Snapshot, opts: Options)
    requires WfPair(source, target) && NoStubsBothWays(source, target, PlanOf(source, target, opts), PlanOf(target, source, opts))
    ensures WfPair(target, source) && RebuiltOn(source, target, opts) <= TableMap(target).Keys * TableMap(source).Keys
    ensures NoStubs(source, target, PlanOf(source, target, opts), {}) && NoStubs(target, source, PlanOf(target, source, opts), RebuiltOn(source, target, opts))
    ensures PlanSetting(source, target, opts, PlanOf(source, target, opts), {}) && ScriptRuns(source, target, PlanOf(source, target, opts), {})
    ensures var rebuilt, rev := RebuiltOn(source, target, opts), PlanOf(target, source, opts);
      PlanSetting(target, source, opts, rev, rebuilt) && ScriptRuns(target, source, rev, rebuilt)
  {
    hide *;
    WfPairSymmetric(source, target);
    BothWaysIs(source, target, PlanOf(source, target, opts), PlanOf(target, source, opts));
    RebuiltOnIs(source, target, opts);
    NothingForced(source, target);
    SettingRuns(source, target, opts, {});
    RebuildsAreCommon(source, target, opts);
    SettingRuns(target, source, opts, RebuiltOn(source, target, opts));
  }

  lemma BackAimedAt(source: Snapshot, target: Snapshot, opts: Options, k: string, mid: Db, after: Db)
    requires WfPair(source, target) && k in TableMap(source)
    requires NoStubsBothWays(source, target, PlanOf(source, target, opts), PlanOf(target, source, opts))
    requires forall k :: k in TableMap(target) ==>
      k in mid.tables && mid.tables[k].def.fks == AimAll(ForwardUnits(source, target, opts), k, FkStates(TableMap(target)[k]))
    requires after.tables.Keys == mid.tables.Keys == TableMap(target).Keys && forall k :: k in mid.tables ==> after.tables[k].def == mid.tables[k].def
    ensures var fwd, back, fks := ForwardUnits(source, target, opts), BackUnits(source, target, opts), FkStates(TableMap(source)[k]);
      var kept := k in TableMap(target) && k !in RebuiltBackOn(source, target, opts);
      (FinalFks(back, k, Lookup(after.tables, k), TableMap(source)[k]) == fks)
        == (forall f :: f in fks ==> !Strays(back, k, f.refTable) && (kept ==> !Strays(fwd, k, f.refTable)))
  {
    hide *;
    BackSettings(source, target, opts);
    OnIs(source, target, opts, mid);
    UnitListOk(source, target, PlanOf(source, target, opts), {});
    UnitListOk(target, source, PlanOf(target, source, opts), RebuiltOn(source, target, opts));
    NamesSymmetric(source, target);
    TablesTaken(source, target);
    var fwd, back := ForwardUnits(source, target, opts), BackUnits(source, target, opts);
    BackFks(source, target, opts, k, mid, after);
    AimAllStays(NamesOf(target, source), back, k, FkStates(TableMap(source)[k]));
    AimTwiceStays(NamesOf(source, target), NamesOf(target, source), fwd, back, k, FkStates(TableMap(source)[k]));
  }

  lemma TablesTaken(source: Snapshot, target: Snapshot)
    ensures NamesOf(source, target).tables <= NamesOf(source, target).taken
  {
    hide TableMap, ViewMap, OwnedNames;
  }

  lemma BackAimed(source: Snapshot, target: Snapshot, opts: Options, mid: Db, after: Db)
    requires WfPair(source, target) && NoStubsBothWays(source, target, PlanOf(source, target, opts), PlanOf(target, source, opts))
    requires forall k :: k in TableMap(target) ==>
      k in mid.tables && mid.tables[k].def.fks == AimAll(ForwardUnits(source, target, opts), k, FkStates(TableMap(target)[k]))
    requires after.tables.Keys == mid.tables.Keys == TableMap(target).Keys && forall k :: k in mid.tables ==> after.tables[k].def == mid.tables[k].def
    ensures AllAimed(source, BackUnits(source, target, opts), after)
      <==> NoStrayBack(source, target, ForwardUnits(source, target, opts), BackUnits(source, target, opts), RebuiltBackOn(source, target, opts))
  {
    hide WfPair, PlanOf, TableMap, FkStates, Strays, FinalFks, AimAll, ForwardUnits, BackUnits, RebuiltBackOn, NoStubsBothWays;
    var fwd, back, rebuilt := ForwardUnits(source, target, opts), BackUnits(source, target, opts), RebuiltBackOn(source, target, opts);
    forall k | k in TableMap(source)
      ensures FinalFks(back, k, Lookup(after.tables, k), TableMap(source)[k]) == FkStates(TableMap(source)[k])
        <==> forall f :: f in FkStates(TableMap(source)[k]) ==>
               !Strays(back, k, f.refTable) && (k in TableMap(target) && k !in rebuilt ==> !Strays(fwd, k, f.refTable))
    {
      BackAimedAt(source, target, opts, k, mid, after);
    }
  }

  /**
   * After a complete forward run the rollback runs to the end exactly when nothing obstructs it, no DROP
   * TABLE is refused, SQLite takes its DEFAULT clauses and what its drops leave fits again; it then restores the source schema exactly when
   * no dropped table had a user index and no foreign key strays.
   */
  lemma RollsBack(source: Snapshot, target: Snapshot, opts: Options, db: Db)
    requires WfPair(source, target) && IsSource(db, source, target, opts)
    ensures var g := Generate(source, target, PlanOf(source, target, opts), opts);
      g.Ok? ==>
        var fwd := Run(Sqls(g.value.statements), db);
        fwd.Some? ==>
          var back, units, left := RebuiltBackOn(source, target, opts), BackUnits(source, target, opts), LeftBackOn(source, target, opts, fwd.value);
          var r := Run(Sqls(g.value.rollback), fwd.value);
          && (r.Some? <==> !Obstructed(Sqls(g.value.rollback), CatalogOf(fwd.value), fwd.value.views) && left.Some?
                           && DefaultsTaken(target, source, back) && DataFits(target, source, back, left.value))
          && (r.Some? ==> Arrives(target, source, back, units, opts.ignoreDefaults, left.value, r.value)
                          && (Realising(r.value, source, opts.ignoreDefaults)
                                == (NoIndexedDrop(source, target) && NoStrayBack(source, target, ForwardUnits(source, target, opts), units, back))))
  {
    hide *;
    Converges(source, target, opts, db);
    GenerateWhole(source, target, opts);
    var g := Generate(source, target, PlanOf(source, target, opts), opts);
    if g.Ok? {
      var fwd := Run(Sqls(g.value.statements), db);
      if fwd.Some? {
        BackRun(source, target, opts, db, fwd.value);
        ForwardIs(source, target, opts);
        RebuiltOnIs(source, target, opts);
      }
    }
  }

  lemma BackRun(source: Snapshot, target: Snapshot, opts: Options, db: Db, mid: Db)
    requires WfPair(source, target) && IsSource(db, source, target, opts) && LeftOn(source, target, opts, db).Some?
    requires NoStubsBothWays(source, target, PlanOf(source, target, opts), PlanOf(target, source, opts))
    requires Arrives(source, target, RebuiltOn(source, target, opts), ForwardUnits(source, target, opts), opts.ignoreDefaults, LeftOn(source, target, opts, db).value, mid)
    ensures var out := EmitScript(target, source, PlanOf(target, source, opts), RebuiltOn(source, target, opts));
      && out.Ok?
      && var back, units, left := RebuiltBackOn(source, target, opts), BackUnits(source, target, opts), LeftBackOn(source, target, opts, mid);
      var r := Run(Sqls(out.value.0), mid);
      && (r.Some? <==> !Obstructed(Sqls(out.value.0), CatalogOf(mid), mid.views) && left.Some?
                       && DefaultsTaken(target, source, back) && DataFits(target, source, back, left.value))
      && (r.Some? ==> Arrives(target, source, back, units, opts.ignoreDefaults, left.value, r.value)
                      && (Realising(r.value, source, opts.ignoreDefaults)
                            == (NoIndexedDrop(source, target) && NoStrayBack(source, target, ForwardUnits(source, target, opts), units, back))))
  {
    hide *;
    BackSettings(source, target, opts);
    PairWf(source, target);
    PlanIs(target, source, opts);
    RebuiltOnIs(source, target, opts);
    OnIs(source, target, opts, mid);
    OnIs(source, target, opts, db);
    var left := LeftOn(source, target, opts, db).value;
    SourceEnd(source, target, opts, db);
    LeftDefs(source, target, PlanOf(source, target, opts), RebuiltOn(source, target, opts), db);
    SourceViews(db, source, target, opts);
    ArrivedStands(source, target, opts, left, mid);
    StandsKeys(mid, target, source, opts.ignoreDefaults);
    PlanConverges(target, source, opts, RebuiltOn(source, target, opts), mid);
    var after := LeftBackOn(source, target, opts, mid);
    if after.Some? {
      LeftDefs(target, source, PlanOf(target, source, opts), RebuiltBackOn(source, target, opts), mid);
      RebuiltBackIn(source, target, opts, "");
      BackReaches(source, target, RebuiltOn(source, target, opts), ForwardUnits(source, target, opts), RebuiltBackOn(source, target, opts), opts, left, mid, after.value);
      BackAimed(source, target, opts, mid, after.value);
    }
  }

  lemma SourceViews(db: Db, source: Snapshot, target: Snapshot, opts: Options)
    requires IsSource(db, source, target, opts)
    ensures db.views.Keys <= ViewMap(source).Keys + ViewMap(target).Keys
  {
    hide Realising, Typed, ViewMap;
  }

  lemma StandsKeys(db: Db, source: Snapshot, target: Snapshot, ignore: bool)
    requires Stands(db, source, target, ignore)
    ensures db.tables.Keys == TableMap(source).Keys
  {
    hide TableMap, ViewMap, StandsTable;
  }

  /** A row there and back: what both sides have is kept, what only the source had is its default. */
  lemma RowThereAndBack(s: TableSnapshot, t: TableSnapshot, row: Row, k: string)
    requires row.Keys == ColumnMap(s).Keys && k in ColumnMap(s)
    ensures k in FitRow(t, s, FitRow(s, t, row))
    ensures FitRow(t, s, FitRow(s, t, row))[k] == if k in ColumnMap(t) then row[k] else DefaultValue(ColumnMap(s)[k].defaultValue)
  {
    hide ColumnMap, DefaultValue;
  }
}
