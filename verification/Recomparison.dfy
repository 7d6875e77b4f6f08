/// Comparing again: the plan between two snapshots is empty exactly when they
/// describe the same database under the same names, up to what the comparison cannot see.
module Recomparison {
  import opened Text
  import opened Sequences
  import opened Normalize
  import opened TypeNames
  import opened Snapshots
  import opened Plan
  import opened PlanOrder
  import opened Mirror
  import opened Script
  import opened Database
  import opened Locality
  import opened Runs
  import opened WellFormed
  import opened Shape
  import opened Agreement
  import opened InPlaceTables
  import opened InPlaceRuns
  import opened InPlaceEnd
  import opened ScriptUnits
  import opened PlanUnits
  import opened Convergence
  import opened FullScript
  import opened Rollback
  import opened SyncTheorems
  import opened AutoIndexes

  // ---- One table described twice ----

  lemma NoColumnChange(def: TableDef, s: TableSnapshot, t: TableSnapshot, opts: Options, e: Entry, k: string)
    requires SameColumns(def.cols, s, opts.ignoreDefaults) && SameColumns(def.cols, t, opts.ignoreDefaults) && WfColumns(s) && WfColumns(t)
    ensures !ColumnChange(Sqlite, t.name, s, t, opts, e, k)
  {
    hide ColumnMap, NormalizeType, NormalizeDefault, Lower, NameOk;
    if k in ColumnMap(s) && k in ColumnMap(t) {
      ColumnMapKeyed(s, k);
      ColumnMapKeyed(t, k);
      assert SameColumn(def.cols[k], ColumnMap(s)[k], opts.ignoreDefaults) && SameColumn(def.cols[k], ColumnMap(t)[k], opts.ignoreDefaults);
    }
  }

  /** Of two descriptions of one key, a primary index is the only difference the comparison sees. */
  lemma PrimaryChange(def: TableDef, s: TableSnapshot, t: TableSnapshot)
    requires def.pk == LowerAll(PkColumns(s)) == LowerAll(PkColumns(t)) && WfIndexes(s) && WfIndexes(t)
    ensures !PrimaryDiffers(s, t) <==> HasPrimary(s) == HasPrimary(t)
  {
    var sp, tp := FirstPrimary(s.indexes), FirstPrimary(t.indexes);
    if sp.Some? && tp.Some? {
      hide WfIndex, IndexSig, IndexColumns, JoinLower;
      assert WfIndex(s, sp.value) && WfIndex(t, tp.value);
      SigIsJoin(s, sp.value);
      SigIsJoin(t, tp.value);
      PrimaryColumns(s);
      PrimaryColumns(t);
      JoinLowerIs(IndexColumns(sp.value), IndexColumns(tp.value));
    }
  }

  lemma PrimaryColumns(t: TableSnapshot)
    requires WfIndexes(t) && FirstPrimary(t.indexes).Some?
    ensures PkColumns(t) == IndexColumns(FirstPrimary(t.indexes).value)
  {
    hide IndexColumns;
    assert WfIndex(t, FirstPrimary(t.indexes).value);
  }

  lemma JoinLowerIs(a: seq<string>, b: seq<string>)
    requires LowerAll(a) == LowerAll(b)
    ensures JoinLower(a) == JoinLower(b)
  {
  }

  lemma SameStateSameIndex(s: TableSnapshot, t: TableSnapshot, i: IndexInfo, j: IndexInfo)
    requires WfIndex(s, i) && WfIndex(t, j) && i.unique == j.unique && LowerAll(IndexColumns(i)) == LowerAll(IndexColumns(j))
    ensures SameIndex(i, j)
  {
    hide WfIndex, IndexSig, IndexColumns, JoinLower, LowerAll;
    SigIsJoin(s, i);
    SigIsJoin(t, j);
    JoinLowerIs(IndexColumns(i), IndexColumns(j));
  }

  lemma NoIndexAdded(def: TableDef, s: TableSnapshot, t: TableSnapshot, k: string)
    requires def.indexes == UserIndexStates(s) == UserIndexStates(t) && WfIndexes(s) && WfIndexes(t) && AutoStates(s) == AutoStates(t)
    ensures !IndexAdded(s, t, k)
  {
    if k in SecondaryMap(t) {
      hide SecondaryMap, WfIndex, IndexColumns, LowerAll, IndexKey, IsAutoIndex, IndexSig, SameIndex, AutoStates;
      var j := SecondaryMap(t)[k];
      SecondaryMapKeyed(t, k);
      if IsUserIndex(j) {
        assert k in UserIndexStates(t) && k in UserIndexStates(s);
        SecondaryMapKeyed(s, k);
        assert UserIndexStates(s)[k] == UserIndexStates(t)[k];
        SameStateSameIndex(s, t, SecondaryMap(s)[k], j);
      } else {
        InAutos(t, j);
        var i := OfAutos(s, (IndexKey(j), IndexStateOf(j)));
        IndexFound(s, i);
        SameStateSameIndex(s, t, i, j);
      }
    }
  }

  lemma NoIndexChange(def: TableDef, s: TableSnapshot, t: TableSnapshot, opts: Options, e: Entry, k: string)
    requires def.indexes == UserIndexStates(s) == UserIndexStates(t) && WfIndexes(s) && WfIndexes(t) && AutoStates(s) == AutoStates(t)
    ensures !IndexChange(t.name, s, t, opts, e, k)
  {
    hide AutoStates, UserIndexStates, WfIndexes, IndexAdded, SecondaryMap;
    NoIndexAdded(def, s, t, k);
    NoIndexAdded(def, t, s, k);
    AddedInMap(s, t, k);
    AddedInMap(t, s, k);
  }

  lemma AddedInMap(s: TableSnapshot, t: TableSnapshot, k: string)
    ensures IndexAdded(s, t, k) ==> k in SecondaryMap(t)
  {
    hide SecondaryMap, SameIndex;
  }

  lemma SameStateSameFk(s: TableSnapshot, t: TableSnapshot, f: ForeignKeyInfo, g: ForeignKeyInfo)
    requires WfForeignKey(s, f) && WfForeignKey(t, g) && FkOf(FkClauseOf(f)) == FkOf(FkClauseOf(g))
    ensures SameForeignKey(f, g) && SameForeignKey(g, f)
  {
    hide Lower, NameOk, JoinLower, ColumnMap, LowerAll;
    MainTable(f);
    MainTable(g);
    JoinLowerIs(f.columns, g.columns);
    JoinLowerIs(f.referencedColumns, g.referencedColumns);
  }

  lemma NoFkAdded(s: TableSnapshot, t: TableSnapshot, k: string)
    requires WfForeignKeys(s) && WfForeignKeys(t) && KeyedFks(s) == KeyedFks(t)
    ensures !FkAdded(s, t, k)
  {
    if k in FkMap(t) {
      hide FkMap, FkKey, FkOf, FkClauseOf, SameForeignKey, WfForeignKeys;
      var g := FkMap(t)[k];
      FkMapKeyed(t, k);
      FkFound(t, g);
      assert (FkKey(g), FkOf(FkClauseOf(g))) in KeyedFks(s);
      var f :| f in s.foreignKeys && (FkKey(g), FkOf(FkClauseOf(g))) == (FkKey(f), FkOf(FkClauseOf(f)));
      FkFound(s, f);
      SameStateSameFk(s, t, f, g);
    }
  }

  /** Two well-formed snapshots of one table, named alike, compare equal. */
  lemma TableComparesEqual(def: TableDef, s: TableSnapshot, t: TableSnapshot, opts: Options)
    requires WfTable(s) && WfTable(t) && NamedAlike(s, t) && !PrimaryDiffers(s, t)
    requires Realises(def, s, opts.ignoreDefaults) && RealisesButPk(def, t, opts.ignoreDefaults)
    ensures DiffTable(Sqlite, s, t, opts) == []
  {
    hide SameColumns, PkColumns, UniqueLists, UserIndexStates, FkStates, DiffColumns, DiffForeignKeys, DiffSecondary, WfColumns, WfIndexes, WfForeignKeys,
      AutoStates, KeyedFks, ColumnChange, IndexChange, FkChange, NameOk, IsAutoIndex, LowerAll, PrimaryEntries, FirstPrimary, PrimaryDiffers;
    NoPrimaryEntries(s, t, opts);
    forall e ensures e !in DiffColumns(Sqlite, t.name, s, t, opts) {
      ColumnEntry(Sqlite, t.name, s, t, opts, e);
      NoColumnChange(def, s, t, opts, e, Lower(e.obj));
    }
    forall e ensures e !in DiffSecondary(t.name, s, t, opts) {
      SecondaryEntry(t.name, s, t, opts, e);
      NoIndexChange(def, s, t, opts, e, Lower(e.obj));
    }
    forall e ensures e !in DiffForeignKeys(t.name, s, t, opts) {
      ForeignKeyEntry(t.name, s, t, opts, e);
      forall k ensures !FkChange(t.name, s, t, opts, e, k) {
        NoFkChange(s, t, opts, e, k);
      }
    }
    HasMember(DiffColumns(Sqlite, t.name, s, t, opts));
    HasMember(DiffSecondary(t.name, s, t, opts));
    HasMember(DiffForeignKeys(t.name, s, t, opts));
  }

  lemma NoFkChange(s: TableSnapshot, t: TableSnapshot, opts: Options, e: Entry, k: string)
    requires WfForeignKeys(s) && WfForeignKeys(t) && KeyedFks(s) == KeyedFks(t)
    ensures !FkChange(t.name, s, t, opts, e, k)
  {
    hide KeyedFks, WfForeignKeys, SameForeignKey, FkMap;
    NoFkAdded(s, t, k);
    NoFkAdded(t, s, k);
  }

  lemma NoPrimaryEntries(s: TableSnapshot, t: TableSnapshot, opts: Options)
    requires !PrimaryDiffers(s, t)
    ensures PrimaryEntries(t.name, FirstPrimary(s.indexes), FirstPrimary(t.indexes), opts) == []
  {
    hide FirstPrimary, IndexSig;
  }

  // ---- Whole snapshots ----

  /** Tables of both snapshots have the same own indexes and foreign keys, under the same names. */
  ghost predicate SnapshotsAlike(s: Snapshot, t: Snapshot) {
    forall k :: k in TableMap(s) && k in TableMap(t) ==> NamedAlike(TableMap(s)[k], TableMap(t)[k])
  }

  /** The database has the tables of the snapshot, in everything but their primary keys. */
  ghost predicate RealisingButPk(db: Db, s: Snapshot, ignoreDefaults: bool) {
    && db.tables.Keys == TableMap(s).Keys
    && forall k :: k in db.tables ==> RealisesButPk(db.tables[k].def, TableMap(s)[k], ignoreDefaults)
  }

  ghost predicate SamePrimaries(s: Snapshot, t: Snapshot) {
    forall k :: k in TableMap(s) && k in TableMap(t) ==> !PrimaryDiffers(TableMap(s)[k], TableMap(t)[k])
  }

  lemma DescribedTwice(db: Db, source: Snapshot, target: Snapshot, opts: Options)
    requires WfSnapshot(source) && WfSnapshot(target) && SnapshotsAlike(source, target) && SamePrimaries(source, target)
    requires Realising(db, source, opts.ignoreDefaults) && RealisingButPk(db, target, opts.ignoreDefaults)
    ensures PlanOf(source, target, opts) == []
  {
    hide TableMap, Diff, DiffTable, WfSnapshot, Realises, RealisesButPk, NamedAlike, PrimaryDiffers, Lower;
    PlanIs(source, target, opts);
    forall e ensures e !in PlanOf(source, target, opts) {
      PlanEntries(source, target, opts, e);
      var k := Lower(e.table);
      if k in TableMap(source) {
        TablesWf(source, k);
        TablesWf(target, k);
        TableComparesEqual(db.tables[k].def, TableMap(source)[k], TableMap(target)[k], opts);
      }
    }
    HasMember(PlanOf(source, target, opts));
  }

  lemma SharedColumn(s: TableSnapshot, t: TableSnapshot, opts: Options)
    requires WfColumns(s) && DiffTable(Sqlite, s, t, opts) == []
    ensures CommonColumn(s, t)
  {
    hide NameOk, Lower, DiffColumns, DiffIndexes, DiffForeignKeys;
    var c := s.columns[0];
    FirstWinsFinds(s.columns, ColumnKey, AnyColumn, c);
    hide ColumnMap;
    var k := ColumnKey(c);
    if k !in ColumnMap(t) {
      var e := Mk(DropColumn, t.name, ColumnMap(s)[k].name, opts);
      ColumnMapKeyed(s, k);
      ColumnEntry(Sqlite, t.name, s, t, opts, e);
      InTable(s, t, opts, e);
    }
  }

  /** A table that compares equal already is what the other snapshot describes, but for an unseen primary key. */
  lemma EqualTableAgrees(def: TableDef, s: TableSnapshot, t: TableSnapshot, opts: Options)
    requires WfTable(s) && WfTable(t) && DiffTable(Sqlite, s, t, opts) == [] && Realises(def, s, opts.ignoreDefaults)
    ensures RealisesButPk(def, t, opts.ignoreDefaults) && !PrimaryDiffers(s, t) && NamedAlike(s, t)
  {
    hide NamedAlike, SameColumns, PkColumns, UniqueLists, UserIndexStates, FkStates, WfColumns, WfIndexes, WfForeignKeys, NameOk, IsAutoIndex, LowerAll, DiffTable,
      PrimaryDiffers, NeedsRebuild, CommonColumn, InPlaceFits, ColumnAddable, IndexDataFits;
    var x := Table(def, []);
    SharedColumn(s, t, opts);
    IgnoreAll(def.cols, s, opts.ignoreDefaults);
    assert def.(pk := LowerAll(PkColumns(s))) == def;
    InPlacePrimary(s, t, opts);
    InPlaceNames(s, t, opts);
    InPlaceTable(s, t, opts, [], x);
    assert EntriesRun(s, t, [], x) == Some(x);
  }

  lemma EmptyPlanDescribes(db: Db, source: Snapshot, target: Snapshot, opts: Options)
    requires WfSnapshot(source) && WfSnapshot(target) && PlanOf(source, target, opts) == []
    requires Realising(db, source, opts.ignoreDefaults)
    ensures RealisingButPk(db, target, opts.ignoreDefaults) && SamePrimaries(source, target) && SnapshotsAlike(source, target)
  {
    hide NamedAlike, TableMap, Diff, DiffTable, WfSnapshot, Realises, RealisesButPk, PrimaryDiffers, Lower;
    PlanIs(source, target, opts);
    var sm, tm := TableMap(source), TableMap(target);
    forall k ensures k in sm <==> k in tm {
      if k in tm {
        TablesWf(target, k);
        PlanEntries(source, target, opts, Mk(CreateTable, tm[k].name, "", opts));
      }
      if k in sm {
        TablesWf(source, k);
        PlanEntries(source, target, opts, Mk(DropTable, sm[k].name, "", opts));
      }
    }
    forall k | k in sm ensures RealisesButPk(db.tables[k].def, tm[k], opts.ignoreDefaults) && !PrimaryDiffers(sm[k], tm[k]) && NamedAlike(sm[k], tm[k]) {
      TablesWf(source, k);
      TablesWf(target, k);
      TableUnchanged(source, target, opts, k);
      EqualTableAgrees(db.tables[k].def, sm[k], tm[k], opts);
    }
  }

  lemma TableUnchanged(source: Snapshot, target: Snapshot, opts: Options, k: string)
    requires WfSnapshot(source) && WfSnapshot(target) && PlanOf(source, target, opts) == [] && k in TableMap(source) && k in TableMap(target)
    ensures DiffTable(Sqlite, TableMap(source)[k], TableMap(target)[k], opts) == []
  {
    hide TableMap, Diff, DiffTable, WfSnapshot, Lower;
    PlanIs(source, target, opts);
    TablesWf(target, k);
    var es := DiffTable(Sqlite, TableMap(source)[k], TableMap(target)[k], opts);
    forall e | e in es ensures e in PlanOf(source, target, opts) {
      TableEntries(Sqlite, TableMap(source)[k], TableMap(target)[k], opts);
      assert OfTable(TableMap(target)[k].name)(e);
      PlanEntries(source, target, opts, e);
    }
    HasMember(es);
  }

  /**
   * A plan is empty exactly when the source's database already is what the target describes, in everything
   * but primary keys, no primary index differs, and SQLite's own indexes and the foreign keys have the
   * names the target gives them.
   */
  lemma EmptyPlanExactly(db: Db, source: Snapshot, target: Snapshot, opts: Options)
    requires WfSnapshot(source) && WfSnapshot(target) && Realising(db, source, opts.ignoreDefaults)
    ensures PlanOf(source, target, opts) == []
      <==> RealisingButPk(db, target, opts.ignoreDefaults) && SamePrimaries(source, target) && SnapshotsAlike(source, target)
  {
    hide *;
    if PlanOf(source, target, opts) == [] {
      EmptyPlanDescribes(db, source, target, opts);
    }
    if RealisingButPk(db, target, opts.ignoreDefaults) && SamePrimaries(source, target) && SnapshotsAlike(source, target) {
      DescribedTwice(db, source, target, opts);
    }
  }

  /** Two descriptions of one table under the same names, alike in having a primary index. */
  predicate DescribedAlike(s: TableSnapshot, t: TableSnapshot) { NamedAlike(s, t) && HasPrimary(s) == HasPrimary(t) }

  /** Two snapshots of one database have an empty plan between them exactly when they give the same names and primary indexes. */
  lemma SameDatabaseComparesEqual(db: Db, source: Snapshot, target: Snapshot, opts: Options)
    requires WfSnapshot(source) && WfSnapshot(target)
    requires Realising(db, source, opts.ignoreDefaults) && Realising(db, target, opts.ignoreDefaults)
    ensures PlanOf(source, target, opts) == []
      <==> forall k :: k in TableMap(source) && k in TableMap(target) ==> DescribedAlike(TableMap(source)[k], TableMap(target)[k])
  {
    hide TableMap, PlanOf, WfSnapshot, SameColumns, PkColumns, UniqueLists, UserIndexStates, FkStates, LowerAll, PrimaryDiffers, NamedAlike, HasPrimary;
    forall k | k in TableMap(source) && k in TableMap(target)
      ensures !PrimaryDiffers(TableMap(source)[k], TableMap(target)[k]) <==> HasPrimary(TableMap(source)[k]) == HasPrimary(TableMap(target)[k])
    {
      TablesWf(source, k);
      TablesWf(target, k);
      PrimaryChange(db.tables[k].def, TableMap(source)[k], TableMap(target)[k]);
    }
    forall k | k in db.tables ensures RealisesButPk(db.tables[k].def, TableMap(target)[k], opts.ignoreDefaults) {
      assert db.tables[k].def.(pk := LowerAll(PkColumns(TableMap(target)[k]))) == db.tables[k].def;
    }
    EmptyPlanExactly(db, source, target, opts);
  }

  // ---- After the script ----

  /**
   * What a snapshot of the database says after the script, beyond what the database model keeps: foreign
   * keys are unnamed, a table changed in place has the own indexes it had, and one the script declared has
   * SQLite's numbered ones.
   */
  predicate ReportedTable(sm: map<string, TableSnapshot>, tm: map<string, TableSnapshot>, rebuild: set<string>, k: string, now: TableSnapshot) {
    && Unnamed(now)
    && (k in tm ==>
          if k in sm && k !in rebuild then AutoStates(now) == AutoStates(sm[k]) && HasPrimary(now) == HasPrimary(sm[k])
          else var b := TableBodyOf(Sqlite, tm[k]); AutoStates(now) == NumberedStates(tm[k].name, b) && HasPrimary(now) == PrimaryIndexed(b))
  }

  ghost predicate ReportedAfter(source: Snapshot, target: Snapshot, rebuild: set<string>, now: Snapshot) {
    forall k :: k in TableMap(now) ==> ReportedTable(TableMap(source), TableMap(target), rebuild, k, TableMap(now)[k])
  }

  /** Of a table in the target: its foreign keys are unnamed, and if the script declares it its own indexes are as SQLite numbers them. */
  predicate AtRestTable(sm: map<string, TableSnapshot>, rebuild: set<string>, k: string, t: TableSnapshot) {
    Unnamed(t) && (k !in sm || k in rebuild ==> AsNumbered(t))
  }

  ghost predicate AtRest(source: Snapshot, target: Snapshot, rebuild: set<string>) {
    forall k :: k in TableMap(target) ==> AtRestTable(TableMap(source), rebuild, k, TableMap(target)[k])
  }

  lemma AlikeAtRest(source: Snapshot, target: Snapshot, now: Snapshot, opts: Options, end: Db, k: string)
    requires WfPair(source, target) && WfSnapshot(now) && k in TableMap(now) && k in TableMap(target)
    requires Realising(end, now, opts.ignoreDefaults) && Realising(end, target, opts.ignoreDefaults)
    requires ReportedTable(TableMap(source), TableMap(target), RebuiltOn(source, target, opts), k, TableMap(now)[k])
    ensures DescribedAlike(TableMap(now)[k], TableMap(target)[k])
      <==> AtRestTable(TableMap(source), RebuiltOn(source, target, opts), k, TableMap(target)[k])
  {
    hide *;
    NothingForced(source, target);
    PlanSettingOn(source, target, opts, {});
    RebuiltOnIs(source, target, opts);
    SettingChosen(source, target, opts, PlanOf(source, target, opts), {});
    SourceFks(end, now, opts.ignoreDefaults, k);
    SourceFks(end, target, opts.ignoreDefaults, k);
    TablesWf(target, k);
    if k in TableMap(source) && k !in RebuiltOn(source, target, opts) {
      TablesWf(source, k);
      StaysInPlace(source, target, opts, PlanOf(source, target, opts), {}, k);
      InPlaceNames(TableMap(source)[k], TableMap(target)[k], opts);
    }
    TableAlike(TableMap(source), TableMap(target), RebuiltOn(source, target, opts), k, TableMap(now)[k]);
  }

  lemma TableAlike(sm: map<string, TableSnapshot>, tm: map<string, TableSnapshot>, rebuild: set<string>, k: string, now: TableSnapshot)
    requires k in tm && ReportedTable(sm, tm, rebuild, k, now) && FkStates(now) == FkStates(tm[k])
    requires k in sm && k !in rebuild ==> NamedAlike(sm[k], tm[k]) && HasPrimary(sm[k]) == HasPrimary(tm[k])
    ensures DescribedAlike(now, tm[k]) <==> AtRestTable(sm, rebuild, k, tm[k])
  {
    hide AutoStates, KeyedFks, Unnamed, FkStates, NumberedStates, PrimaryIndexed, HasPrimary, TableBodyOf;
    UnnamedAgree(now, tm[k]);
  }

  /**
   * After a script that converged, the plan from a snapshot of the database to the target is empty exactly
   * when the target's foreign keys are unnamed and every table the script declared has its own indexes, in
   * the target, under the numbers SQLite gave them.
   */
  lemma NothingLeftToDo(source: Snapshot, target: Snapshot, now: Snapshot, opts: Options, db: Db)
    requires WfPair(source, target) && IsSource(db, source, target, opts) && WfSnapshot(now)
    requires Converging(source, target, RebuiltOn(source, target, opts)) && NoStray(target, ForwardUnits(source, target, opts))
    requires ReportedAfter(source, target, RebuiltOn(source, target, opts), now)
    ensures var g := Generate(source, target, PlanOf(source, target, opts), opts);
      g.Ok? ==>
        var r := Run(Sqls(g.value.statements), db);
        r.Some? && Realising(r.value, now, opts.ignoreDefaults) ==>
          (PlanOf(now, target, opts) == [] <==> AtRest(source, target, RebuiltOn(source, target, opts)))
  {
    hide *;
    PairWf(source, target);
    Converges(source, target, opts, db);
    var g := Generate(source, target, PlanOf(source, target, opts), opts);
    if g.Ok? {
      var r := Run(Sqls(g.value.statements), db);
      if r.Some? && Realising(r.value, now, opts.ignoreDefaults) {
        RestDecides(source, target, now, opts, r.value);
      }
    }
  }

  lemma RestDecides(source: Snapshot, target: Snapshot, now: Snapshot, opts: Options, end: Db)
    requires WfPair(source, target) && WfSnapshot(now) && ReportedAfter(source, target, RebuiltOn(source, target, opts), now)
    requires Realising(end, now, opts.ignoreDefaults) && Realising(end, target, opts.ignoreDefaults)
    ensures PlanOf(now, target, opts) == [] <==> AtRest(source, target, RebuiltOn(source, target, opts))
  {
    PairWf(source, target);
    RealisingTables(end, now, opts.ignoreDefaults);
    RealisingTables(end, target, opts.ignoreDefaults);
    hide WfPair, WfSnapshot, Realising, TableMap, RebuiltOn, PlanOf, ReportedTable, DescribedAlike, AtRestTable;
    SameDatabaseComparesEqual(end, now, target, opts);
    forall k | k in TableMap(target)
      ensures DescribedAlike(TableMap(now)[k], TableMap(target)[k])
        <==> AtRestTable(TableMap(source), RebuiltOn(source, target, opts), k, TableMap(target)[k])
    {
      AlikeAtRest(source, target, now, opts, end, k);
    }
  }

  lemma RealisingTables(db: Db, s: Snapshot, ignore: bool)
    requires Realising(db, s, ignore)
    ensures db.tables.Keys == TableMap(s).Keys
  {
    hide TableMap, Realises;
  }

  /**
   * A declared table whose own indexes are not as SQLite numbers them is rebuilt by the next plan too: it
   * is declared again, numbered again the same way, and the plan never becomes empty.
   */
  lemma NeverAtRest(source: Snapshot, target: Snapshot, now: Snapshot, opts: Options, k: string)
    requires WfPair(source, target) && WfPair(now, target) && ReportedAfter(source, target, RebuiltOn(source, target, opts), now)
    requires k in TableMap(target) && k in TableMap(now)
    requires k !in TableMap(source) || k in RebuiltOn(source, target, opts)
    requires !AsNumbered(TableMap(target)[k])
    ensures k in RebuiltOn(now, target, opts) && !AtRest(now, target, RebuiltOn(now, target, opts))
  {
    hide *;
    NothingForced(now, target);
    PlanSettingOn(now, target, opts, {});
    RebuiltOnIs(now, target, opts);
    SettingChosen(now, target, opts, PlanOf(now, target, opts), {});
    TablesWf(now, k);
    TablesWf(target, k);
    if k !in RebuiltOn(now, target, opts) {
      StaysInPlace(now, target, opts, PlanOf(now, target, opts), {}, k);
      InPlaceNames(TableMap(now)[k], TableMap(target)[k], opts);
      NumberedNow(source, target, opts, now, k);
    }
    NotAtRest(now, target, RebuiltOn(now, target, opts), k);
  }

  lemma NumberedNow(source: Snapshot, target: Snapshot, opts: Options, now: Snapshot, k: string)
    requires ReportedAfter(source, target, RebuiltOn(source, target, opts), now) && k in TableMap(target) && k in TableMap(now)
    requires k !in TableMap(source) || k in RebuiltOn(source, target, opts)
    requires NamedAlike(TableMap(now)[k], TableMap(target)[k]) && HasPrimary(TableMap(now)[k]) == HasPrimary(TableMap(target)[k])
    ensures AsNumbered(TableMap(target)[k])
  {
    hide TableMap, RebuiltOn, AutoStates, KeyedFks, NumberedStates, PrimaryIndexed, TableBodyOf, HasPrimary, Unnamed;
  }

  lemma NotAtRest(source: Snapshot, target: Snapshot, rebuild: set<string>, k: string)
    requires k in TableMap(target) && k in rebuild && !AsNumbered(TableMap(target)[k])
    ensures !AtRest(source, target, rebuild)
  {
    hide TableMap, AsNumbered, Unnamed;
  }
}
