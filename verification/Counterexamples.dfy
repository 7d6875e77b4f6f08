/// Concrete inputs on which the code falls short, so that the side conditions of
/// the theorems are needed, and their hypotheses can be met.
module Counterexamples {
  import opened Text
  import opened Sequences
  import opened TypeNames
  import opened Snapshots
  import opened Plan
  import opened PlanOrder
  import opened Mirror
  import opened Script
  import opened Normalize
  import opened Defaults
  import opened Database
  import opened Obstructions
  import opened Locality
  import opened Runs
  import opened WellFormed
  import opened PlanIds
  import opened Shape
  import opened Agreement
  import opened InPlaceTables
  import opened InPlaceEnd
  import opened ScriptUnits
  import opened PlanUnits
  import opened TableRuns
  import opened Convergence
  import opened Drops
  import opened Sparing
  import opened FullScript
  import opened Rollback
  import opened SyncTheorems
  import opened PlainDrops

  // ---- Databases of one small table ----

  /** A table "t" of one integer column "a", perhaps nullable, perhaps its key, perhaps indexed, perhaps with a foreign key to polydb_tmp_t, perhaps with a default. */
  datatype Spec = Spec(nullable: bool, isPk: bool, index: Option<string>, fk: bool, dflt: Option<string>)

  function Column(s: Spec): ColumnInfo { ColumnInfo("a", "integer", s.nullable, s.dflt, s.isPk, false, 1) }

  function Index(name: string): IndexInfo { IndexInfo(name, false, false, [IndexColumn("a", 1)]) }

  const FK := ForeignKeyInfo("", ["a"], "main", "polydb_tmp_t", ["a"], NoAction, NoAction)

  const FK_STATE := FkState(["a"], "polydb_tmp_t", ["a"], NoAction, NoAction)

  function TableT(s: Spec): TableSnapshot {
    TableSnapshot("t", BaseTable, [Column(s)], if s.index.Some? then [Index(s.index.value)] else [], if s.fk then [FK] else [])
  }

  function Only(t: TableSnapshot): Snapshot { Snapshot(Sqlite, [t]) }

  const EMPTY := Snapshot(Sqlite, [])

  const PLAIN := Options(false, false)

  function Def(s: Spec): TableDef {
    TableDef(map["a" := ColState("integer", !s.nullable, s.dflt)], if s.isPk then ["a"] else [], {}, if s.fk then {FK_STATE} else {},
             if s.index.Some? then map[s.index.value := IndexState(false, ["a"])] else map[])
  }

  function DbT(s: Spec): Db { Db(map["t" := Table(Def(s), [])], map[], true) }

  const EMPTY_DB := Db(map[], map[], true)

  /** A lower-case word, underscores allowed. */
  predicate PlainName(n: string) {
    n != [] && n[0] != 's' && forall i :: 0 <= i < |n| ==> 'a' <= n[i] <= 'z' || n[i] == '_'
  }

  lemma PlainNameOk(n: string)
    requires PlainName(n)
    ensures NameOk(n) && Lower(n) == n && !IsAutoIndex(n)
  {
    TrimmedEnds(n);
    assert Lower(n)[0] == n[0];
  }

  /** What SQLite reports of DEFAULT (datetime('now')): without the parentheses. */
  const CLOCK := "datetime('now')"

  predicate SpecOk(s: Spec) {
    (s.index.Some? ==> s.index.value in {"i", "polydb_tmp_t"}) && (s.dflt.Some? ==> s.dflt.value == CLOCK)
  }

  lemma SpecNames(s: Spec)
    requires SpecOk(s)
    ensures PlainName("a") && PlainName("t") && PlainName("polydb_tmp_t") && (s.index.Some? ==> PlainName(s.index.value) && s.index.value != "t")
  {
  }

  lemma FirstWinsOne<T>(x: T, key: T -> string, keep: T -> bool)
    ensures FirstWins([x], key, keep) == if keep(x) then map[key(x) := x] else map[]
  {
    assert [x][..0] == [];
    assert FirstWins([x][..0], key, keep) == map[];
  }

  lemma MapsOfOne(t: TableSnapshot)
    requires t.kind == BaseTable && Lower(t.name) == t.name
    ensures TableMap(Only(t)) == map[t.name := t] && ViewMap(Only(t)) == map[]
    ensures TableMap(EMPTY) == map[] && ViewMap(EMPTY) == map[]
  {
    hide Lower;
    FirstWinsOne(t, TableKey, IsTable);
    FirstWinsOne(t, TableKey, IsView);
  }

  lemma TableFacts(s: Spec)
    requires SpecOk(s)
    ensures var t := TableT(s);
      && t.name == "t" && t.kind == BaseTable && Lower(t.name) == t.name && NameOk(t.name) && !IsAutoIndex(t.name)
      && ColumnMap(t) == map["a" := Column(s)] && WfColumns(t)
  {
    SpecNames(s);
    PlainNameOk("a");
    PlainNameOk("t");
    hide NameOk, Lower, IsAutoIndex, PlainName;
    FirstWinsOne(Column(s), ColumnKey, AnyColumn);
  }

  lemma IndexFacts(s: Spec)
    requires SpecOk(s)
    ensures WfIndexes(TableT(s)) && (s.index.Some? ==> IsUserIndex(Index(s.index.value)) && Lower(s.index.value) == s.index.value)
  {
    TableFacts(s);
    SpecNames(s);
    PlainNameOk("a");
    if s.index.Some? {
      PlainNameOk(s.index.value);
      hide NameOk, Lower, IsAutoIndex, ColumnMap, IndexKey, PlainName, WfColumns;
      assert WfIndex(TableT(s), Index(s.index.value));
    }
  }

  lemma FkFacts(s: Spec)
    requires SpecOk(s)
    ensures WfForeignKeys(TableT(s)) && FkStates(TableT(s)) == Def(s).fks
  {
    FkStateIs();
    FkOk(s);
    hide FkOf, FkClauseOf, WfForeignKey, FkKey, FkObjectKey, SpecOk;
    var fks := TableT(s).foreignKeys;
    assert fks == (if s.fk then [FK] else []);
    assert Def(s).fks == if s.fk then {FK_STATE} else {};
  }

  lemma FkStateIs()
    ensures FkOf(FkClauseOf(FK)) == FK_STATE
  {
    SpecNames(INDEXED);
    PlainNameOk("polydb_tmp_t");
    LowerA();
    hide Lower, LowerAll, NameOk, PlainName, IsAutoIndex;
  }

  lemma FkOk(s: Spec)
    requires SpecOk(s)
    ensures WfForeignKey(TableT(s), FK)
  {
    TableFacts(s);
    SpecNames(s);
    PlainNameOk("a");
    PlainNameOk("polydb_tmp_t");
    hide NameOk, Lower, IsAutoIndex, ColumnMap, PlainName, WfColumns, SpecOk;
  }

  lemma OnlyWf(s: Spec)
    requires SpecOk(s)
    ensures WfSnapshot(Only(TableT(s))) && WfSnapshot(EMPTY)
  {
    TableFacts(s);
    IndexFacts(s);
    FkFacts(s);
    hide WfColumns, WfIndexes, WfForeignKeys, NameOk, IsAutoIndex, TableKey, IsUserIndex;
  }

  lemma SpecIndexNames(s: Spec)
    requires SpecOk(s)
    ensures UserIndexNames(TableT(s)) <= {"i", "polydb_tmp_t"} && (s.index.None? ==> UserIndexNames(TableT(s)) == {})
  {
    IndexFacts(s);
    hide Lower, IsAutoIndex, IsUserIndex, WfIndexes;
  }

  /** A snapshot of such a table, or the empty one. */
  ghost predicate Small(a: Snapshot, s: Spec) { SpecOk(s) && (a == EMPTY || a == Only(TableT(s))) }

  lemma SmallMaps(a: Snapshot, s: Spec)
    requires Small(a, s)
    ensures WfSnapshot(a) && ViewMap(a) == map[] && TableMap(a) == if a == EMPTY then map[] else map["t" := TableT(s)]
  {
    hide TableMap, ViewMap, WfSnapshot, Lower;
    TableFacts(s);
    OnlyWf(s);
    MapsOfOne(TableT(s));
  }

  lemma SmallNames(source: Snapshot, target: Snapshot, s: Spec, t: Spec)
    requires Small(source, s) && Small(target, t)
    ensures var w := NamesOf(source, target);
      w.tables <= w.taken <= {"t"} && w.owned.Keys == w.tables && forall k :: k in w.owned ==> w.owned[k] <= {"i", "polydb_tmp_t"}
    ensures s.index.None? && t.index.None? ==> AllOwned(NamesOf(source, target)) == {}
  {
    SmallMaps(source, s);
    SmallMaps(target, t);
    SpecIndexNames(s);
    SpecIndexNames(t);
    hide TableMap, ViewMap, UserIndexNames, WfSnapshot, SpecOk;
  }

  lemma SmallNamesOk(w: Names)
    requires w.tables <= w.taken <= {"t"} && w.owned.Keys == w.tables && forall k :: k in w.owned ==> w.owned[k] <= {"i", "polydb_tmp_t"}
    ensures NamesOk(w)
  {
    assert "t" !in {"i", "polydb_tmp_t"};
  }

  lemma SmallPair(source: Snapshot, target: Snapshot, s: Spec, t: Spec)
    requires Small(source, s) && Small(target, t)
    ensures WfPair(source, target)
  {
    SmallMaps(source, s);
    SmallMaps(target, t);
    SmallNames(source, target, s, t);
    SmallNamesOk(NamesOf(source, target));
    SmallSpecs(source, s);
    SmallCommon(s, t);
    hide WfSnapshot, TableMap, ViewMap, NamesOf, NamesOk, CommonColumn, SpecOk, TableT;
  }

  lemma SmallCommon(s: Spec, t: Spec)
    requires SpecOk(s) && SpecOk(t)
    ensures CommonColumn(TableT(s), TableT(t))
  {
    TableFacts(s);
    TableFacts(t);
    hide ColumnMap, WfColumns, NameOk, Lower, IsAutoIndex, TableT;
    assert "a" in ColumnMap(TableT(s)) && "a" in ColumnMap(TableT(t));
  }

  // ---- Their databases ----

  lemma NoPrimary(s: Spec)
    ensures FirstPrimary(TableT(s).indexes).None?
  {
    if s.index.Some? {
      assert TableT(s).indexes[1..] == [];
      assert FirstPrimary([]) == None;
    }
  }

  lemma SpecPk(s: Spec)
    ensures LowerAll(PkColumns(TableT(s))) == Def(s).pk
  {
    var t := TableT(s);
    NoPrimary(s);
    LowerA();
    hide FirstPrimary, LowerAll;
    assert t.columns[1..] == [];
    assert OrderedColumns(t) == [Column(s)];
    assert [Column(s)][1..] == [] && FlaggedColumns([]) == [] && ["a"] + [] == ["a"];
    assert FlaggedColumns([Column(s)]) == if s.isPk then ["a"] + [] else [];
    NoNames();
  }

  lemma NoNames()
    ensures LowerAll([]) == []
  {
  }

  lemma OneIndexColumn(n: string)
    ensures IndexColumns(Index(n)) == ["a"]
  {
    assert Index(n).columns[1..] == [];
  }

  lemma SecondaryOf(s: Spec)
    requires SpecOk(s)
    ensures SecondaryMap(TableT(s)) == if s.index.Some? then map[s.index.value := Index(s.index.value)] else map[]
  {
    if s.index.Some? {
      var n := s.index.value;
      SpecNames(s);
      PlainNameOk(n);
      hide NameOk, IsAutoIndex, Lower, Trim, PlainName, SpecOk;
      NamedKey(TableT(s), Index(n));
      FirstWinsOne(Index(n), IndexKey, IsSecondary);
    }
  }

  lemma IndexStateIs(n: string)
    ensures IndexStateOf(Index(n)) == IndexState(false, ["a"])
  {
    hide IndexColumns, LowerAll;
    OneIndexColumn(n);
    LowerA();
  }

  lemma StatesOf(t: TableSnapshot, m: map<string, IndexState>)
    requires forall k :: k in m <==> k in SecondaryMap(t) && IsUserIndex(SecondaryMap(t)[k])
    requires forall k :: k in m ==> m[k] == IndexStateOf(SecondaryMap(t)[k])
    ensures UserIndexStates(t) == m
  {
    hide SecondaryMap, IsUserIndex, IndexStateOf;
  }

  lemma SpecIndexes(s: Spec)
    requires SpecOk(s)
    ensures UserIndexStates(TableT(s)) == Def(s).indexes
  {
    hide SecondaryMap, IsUserIndex, WfIndexes, IndexColumns, Lower, LowerAll, SpecOk, IndexStateOf, UserIndexStates, TableT;
    IndexFacts(s);
    SecondaryOf(s);
    if s.index.Some? {
      IndexStateIs(s.index.value);
    }
    StatesOf(TableT(s), Def(s).indexes);
  }

  lemma SpecUniques(s: Spec)
    requires SpecOk(s)
    ensures UniqueLists(TableT(s)) == {}
  {
    IndexFacts(s);
    hide WfIndexes, IndexColumns, LowerAll, IsAutoIndex, SpecOk;
  }

  lemma LowerA()
    ensures LowerAll(["a"]) == ["a"]
  {
    assert Lower("a") == "a";
  }

  lemma SpecRealises(s: Spec)
    requires SpecOk(s)
    ensures Realises(Def(s), TableT(s), false)
  {
    SpecIndexes(s);
    SpecUniques(s);
    SpecPk(s);
    SpecColumns(s);
    FkFacts(s);
    hide PkColumns, UserIndexStates, UniqueLists, FkStates, WfForeignKeys, SameColumns, SpecOk, TableT, LowerAll;
    assert Def(s).uniques == {};
  }

  lemma SpecColumns(s: Spec)
    requires SpecOk(s)
    ensures SameColumns(Def(s).cols, TableT(s), false)
  {
    TableFacts(s);
    hide ColumnMap, NormalizeType, WfColumns, NameOk, Lower, IsAutoIndex, SpecOk;
  }

  lemma SpecIsSource(s: Spec, target: Snapshot)
    requires SpecOk(s)
    ensures IsSource(DbT(s), Only(TableT(s)), target, PLAIN)
  {
    hide TableMap, ViewMap, Realises, ColumnMap, WfColumns, Lower, NameOk, IsAutoIndex, Def;
    SpecRealises(s);
    TableFacts(s);
    MapsOfOne(TableT(s));
  }

  lemma EmptyIsSource(target: Snapshot)
    ensures IsSource(EMPTY_DB, EMPTY, target, PLAIN)
  {
    hide ViewMap, Realises;
  }

  /** No rows, nothing that does not fit. */
  lemma NoRowsFit(source: Snapshot, target: Snapshot, rebuild: set<string>, db: Db)
    requires forall k :: k in db.tables ==> db.tables[k].rows == []
    ensures DataFits(source, target, rebuild, db)
  {
    hide TableMap, DefOfBody, TableBodyOf, ColumnAdded, IndexAdded, TargetColumn, DistinctNames, FitRow, UserIndexes;
    forall k ensures TableData(TableMap(source), TableMap(target), rebuild, k, Lookup(db.tables, k)) {
      if k in TableMap(source) && k in TableMap(target) {
        assert Fit(TableMap(source)[k], TableMap(target)[k], RowsOf(Lookup(db.tables, k))) == [];
      }
    }
  }

  /** No defaults, none to refuse. */
  lemma SmallTaken(source: Snapshot, target: Snapshot, s: Spec, t: Spec, rebuild: set<string>)
    requires Small(source, s) && Small(target, t) && t.dflt.None?
    ensures DefaultsTaken(source, target, rebuild)
  {
    SmallMaps(source, s);
    SmallMaps(target, t);
    SmallSpecs(target, t);
    SmallSpecs(source, s);
    TableFacts(s);
    TableFacts(t);
    NothingStored();
    hide TableMap, ViewMap, ColumnMap, WfColumns, NameOk, Lower, IsAutoIndex, TableT, StoredDefault, DefaultClause, WfSnapshot, Small;
  }

  lemma NothingStored()
    ensures StoredDefault(None) == None
  {
  }

  // ---- No stubs, no drops held ----

  lemma NoStubT(t: Spec, e: Entry)
    requires SpecOk(t)
    ensures !Stub(e, Some(TableT(t)))
  {
    NoDefault();
    ClockText();
    TableFacts(t);
    hide TableMap, Lower, Trim, WfColumns, NameOk, IsAutoIndex, ColumnMap, TableT, LiteralDefault;
  }

  lemma ClockFolded()
    ensures Folded(CLOCK) && Trim(CLOCK) == CLOCK && Lower(CLOCK) != "null"
  {
    TrimmedEnds(CLOCK);
    assert |Lower(CLOCK)| == 15;
  }

  lemma NoTerm()
    ensures !Term(CLOCK)
  {
    assert |Lower(CLOCK)| == 15 && |"null"| == 4 && |"current_time"| == 12 && |"current_date"| == 12 && |"current_timestamp"| == 17;
    assert DigitsEnd(CLOCK, 0) == 0;
    hide Lower, DigitsEnd;
    assert CLOCK[0] == 'd';
  }

  lemma NoClause()
    ensures !DefaultClause(CLOCK)
  {
    NoTerm();
    hide Term, QuotedFrom, ClosesLast, TrimLeft, IsWord;
    assert CLOCK[0] == 'd';
    assert CLOCK[8] == '(';
    NoParenthesis();
  }

  lemma NoParenthesis()
    ensures !InWord('(')
  {
  }

  /** The text is written as it is reported, and is no DEFAULT clause. */
  lemma ClockText()
    ensures LiteralDefault(Some(CLOCK)) == CLOCK && StoredDefault(Some(CLOCK)) == Some(CLOCK) && !DefaultClause(CLOCK)
  {
    ClockFolded();
    FoldFixed(CLOCK);
    NoClause();
    hide Lower, Trim, Fold, DefaultClause, Folded;
    assert CLOCK != "";
  }

  lemma SmallNoStubs(source: Snapshot, target: Snapshot, s: Spec, t: Spec)
    requires Small(source, s) && Small(target, t)
    ensures NoStubs(source, target, PlanOf(source, target, PLAIN), {})
    ensures forall forced :: NoStubs(source, target, PlanOf(source, target, PLAIN), forced)
  {
    hide PlanOf, Rebuilds, TableMap, ViewMap, WfSnapshot, Lower, Stub, Small, TableT;
    SmallMaps(target, t);
    SmallSpecs(target, t);
    forall e, k | k in TableMap(target) ensures !Stub(e, Some(TableMap(target)[k])) {
      NoStubT(t, e);
    }
    NoneStub();
  }

  lemma NoneStub()
    ensures forall e :: !Stub(e, None)
  {
  }

  lemma NoDefault()
    ensures LiteralDefault(None) == ""
  {
  }

  lemma SmallGenerates(source: Snapshot, target: Snapshot, s: Spec, t: Spec)
    requires Small(source, s) && Small(target, t)
    ensures WfPair(source, target) && Generate(source, target, PlanOf(source, target, PLAIN), PLAIN).Ok?
    ensures NoStubsBothWays(source, target, PlanOf(source, target, PLAIN), PlanOf(target, source, PLAIN))
  {
    hide *;
    SmallPair(source, target, s, t);
    SmallNoStubs(source, target, s, t);
    SmallNoStubs(target, source, t, s);
    BothWaysIs(source, target, PlanOf(source, target, PLAIN), PlanOf(target, source, PLAIN));
    GenerateWhole(source, target, PLAIN);
  }

  lemma SmallNoActions(source: Snapshot, target: Snapshot, s: Spec, t: Spec)
    requires Small(source, s) && Small(target, t)
    ensures NoActions(source, target)
  {
    SmallMaps(source, s);
    hide TableMap, ViewMap, WfSnapshot, SpecOk, Lower;
  }

  /** Without rows no violation is counted. */
  lemma NotUneven(source: Snapshot, target: Snapshot, db: Db, keys: seq<string>)
    requires forall k :: k in db.tables ==> db.tables[k].rows == []
    ensures !UnevenAmong(AtDrops(source, target, db), keys)
  {
    AtDropsIs(source, target, db);
    var tables := AtDrops(source, target, db);
    hide TableMap, AtDrops, Gone, Unindexed, Orphans;
    forall k | k in tables ensures tables[k].rows == [] {
      TrimmedAt(TableMap(source), TableMap(target), db.tables, k);
    }
    forall i | 0 <= i < |keys| ensures !Uneven(tables - KeySet(keys[..i]), keys[i]) {
      NoneCounted(tables - KeySet(keys[..i]), keys[i]);
    }
  }

  lemma NoneCounted(tables: map<string, Table>, k: string)
    requires forall t :: t in tables ==> tables[t].rows == []
    ensures !Uneven(tables, k)
  {
    forall i: nat, r: Reference ensures !Orphans(tables, k, i, r) {
    }
  }

  /** On an empty database without views the script of a small pair runs, unless an index has a chosen temporary name. */
  lemma SmallRuns(source: Snapshot, target: Snapshot, s: Spec, t: Spec, db: Db)
    requires Small(source, s) && Small(target, t) && IsSource(db, source, target, PLAIN)
    requires db.views == map[] && forall k :: k in db.tables ==> db.tables[k].rows == []
    requires NoTmpIndex(source, target, RebuiltOn(source, target, PLAIN)) && t.dflt.None?
    ensures var g := Generate(source, target, PlanOf(source, target, PLAIN), PLAIN); g.Ok? && Run(Sqls(g.value.statements), db).Some?
  {
    hide *;
    SmallGenerates(source, target, s, t);
    SmallNoActions(source, target, s, t);
    NoViews(db.views, Standing(source, target, RebuiltOn(source, target, PLAIN)));
    Unobstructed(source, target, PLAIN, db);
    NoRowsFit(source, target, RebuiltOn(source, target, PLAIN), db);
    SmallTaken(source, target, s, t, RebuiltOn(source, target, PLAIN));
    NotUneven(source, target, db, DropKeys(PlanOf(source, target, PLAIN)));
    ConvergesPlainly(source, target, PLAIN, db);
  }

  lemma NoViews(views: map<string, set<string>>, stable: set<string>)
    requires views == map[]
    ensures ReadOnly(views, stable)
  {
  }

  lemma NothingRebuilt(source: Snapshot, target: Snapshot, s: Spec, t: Spec)
    requires Small(source, s) && Small(target, t) && (source == EMPTY || target == EMPTY)
    ensures RebuiltOn(source, target, PLAIN) == {} && NoTmpIndex(source, target, RebuiltOn(source, target, PLAIN))
  {
    hide *;
    SmallPair(source, target, s, t);
    RebuildsAreCommon(source, target, PLAIN);
    RebuiltOnIs(source, target, PLAIN);
    SmallMaps(source, s);
    SmallMaps(target, t);
    NothingNamed(source, target, RebuiltOn(source, target, PLAIN));
  }

  lemma NothingNamed(source: Snapshot, target: Snapshot, rebuild: set<string>)
    requires rebuild == {}
    ensures NoTmpIndex(source, target, rebuild)
  {
    hide TableMap, AllOwned, NamesOf, TakenNames, TmpNameOf;
  }

  // ---- A created table loses its index ----

  const INDEXED := Spec(true, false, Some("i"), false, None)

  lemma IndexedShows()
    ensures SpecOk(INDEXED) && TableMap(Only(TableT(INDEXED))) == map["t" := TableT(INDEXED)] && TableMap(EMPTY) == map[]
    ensures Index("i") in TableT(INDEXED).indexes && IsUserIndex(Index("i"))
  {
    IndexFacts(INDEXED);
    SmallMaps(Only(TableT(INDEXED)), INDEXED);
    SmallMaps(EMPTY, INDEXED);
    hide TableMap, ViewMap, IsUserIndex, WfIndexes, WfSnapshot;
  }

  lemma CreateNotConverging(rebuild: set<string>)
    ensures !Converging(EMPTY, Only(TableT(INDEXED)), rebuild)
  {
    IndexedShows();
    hide TableMap, IsUserIndex;
    assert "t" in TableMap(Only(TableT(INDEXED)));
  }

  /** The script for a new table with an index runs to the end and leaves the table without its index. */
  lemma CreatedIndexLost()
    ensures var target := Only(TableT(INDEXED));
      && WfPair(EMPTY, target) && IsSource(EMPTY_DB, EMPTY, target, PLAIN)
      && var g := Generate(EMPTY, target, PlanOf(EMPTY, target, PLAIN), PLAIN);
      && g.Ok?
      && var r := Run(Sqls(g.value.statements), EMPTY_DB);
      r.Some? && !Realising(r.value, target, PLAIN.ignoreDefaults)
  {
    hide *;
    var target := Only(TableT(INDEXED));
    IndexedSmall();
    SmallGenerates(EMPTY, target, INDEXED, INDEXED);
    EmptyIsSource(target);
    NothingRebuilt(EMPTY, target, INDEXED, INDEXED);
    EmptyTables();
    IndexedPlain();
    SmallRuns(EMPTY, target, INDEXED, INDEXED, EMPTY_DB);
    CreateNotConverging(RebuiltOn(EMPTY, target, PLAIN));
    Converges(EMPTY, target, PLAIN, EMPTY_DB);
  }

  lemma IndexedPlain()
    ensures INDEXED.dflt.None?
  {
  }

  lemma IndexedSmall()
    ensures Small(Only(TableT(INDEXED)), INDEXED) && Small(EMPTY, INDEXED)
  {
  }

  lemma EmptyTables()
    ensures EMPTY_DB.views == map[] && forall k :: k in EMPTY_DB.tables ==> EMPTY_DB.tables[k].rows == []
  {
  }

  // ---- A dropped table comes back without its index ----

  lemma DropNotRestored()
    ensures !NoIndexedDrop(Only(TableT(INDEXED)), EMPTY)
  {
    IndexedShows();
    hide TableMap, IsUserIndex;
    assert "t" in TableMap(Only(TableT(INDEXED))) && "t" !in TableMap(EMPTY);
  }

  lemma SpecRows(s: Spec)
    ensures DbT(s).views == map[] && forall k :: k in DbT(s).tables ==> DbT(s).tables[k].rows == []
  {
    hide Def;
  }

  /** After the table is gone: an empty database, on which the rollback runs. */
  lemma GoneDb(mid: Db)
    requires Arrives(Only(TableT(INDEXED)), EMPTY, {}, ForwardUnits(Only(TableT(INDEXED)), EMPTY, PLAIN), false, DbT(INDEXED), mid)
    ensures mid.tables == map[] && mid.views == map[]
  {
    IndexedShows();
    hide TableMap, ForwardUnits, FinalFks, Def, Realises, RealisesButPk, TableT;
    forall k ensures k !in mid.tables {
      EndAt(TableMap(Only(TableT(INDEXED))), TableMap(EMPTY), {}, k, Lookup(DbT(INDEXED).tables, k), false, Declared(TableMap(EMPTY), k, Lookup(mid.tables, k)));
    }
  }

  /** On an empty database nothing obstructs the rollback and nothing is held. */
  lemma BackRuns(mid: Db)
    requires mid.tables == map[] && mid.views == map[] && Stands(mid, EMPTY, Only(TableT(INDEXED)), false)
    ensures var source := Only(TableT(INDEXED));
      var back := RebuiltBackOn(source, EMPTY, PLAIN);
      && DefaultsTaken(EMPTY, source, back) && DataFits(EMPTY, source, back, mid) && LeftBackOn(source, EMPTY, PLAIN, mid) == Some(mid)
  {
    hide *;
    var source := Only(TableT(INDEXED));
    IndexedSmall();
    NoRowsFit(EMPTY, source, RebuiltBackOn(source, EMPTY, PLAIN), mid);
    IndexedPlain();
    SmallTaken(EMPTY, source, INDEXED, INDEXED, RebuiltBackOn(source, EMPTY, PLAIN));
    OnIs(source, EMPTY, PLAIN, mid);
    LeftIs(EMPTY, source, PlanOf(EMPTY, source, PLAIN), RebuiltBackOn(source, EMPTY, PLAIN), mid);
    SmallPair(EMPTY, source, INDEXED, INDEXED);
    PairWf(EMPTY, source);
    PlanIs(EMPTY, source, PLAIN);
    DiffIsWholePlan(EMPTY, source, PLAIN);
    SmallMaps(EMPTY, INDEXED);
    forall k ensures k !in DropKeys(PlanOf(EMPTY, source, PLAIN)) {
      DropKeysAre(EMPTY, source, PLAIN, PlanOf(EMPTY, source, PLAIN), k);
    }
    HasMember(DropKeys(PlanOf(EMPTY, source, PLAIN)));
    NothingSpared(EMPTY, source, PlanOf(EMPTY, source, PLAIN), mid);
  }

  lemma NothingSpared(source: Snapshot, target: Snapshot, plan: seq<Entry>, db: Db)
    requires DropKeys(plan) == [] && db.tables == map[]
    ensures Spared(source, target, plan, db) == Some(db)
  {
    hide TableMap, DropKeys, Trimmed, Refilled;
    var t := TrimmedTables(TableMap(source), TableMap(target), db.tables);
    assert DropAll(t, []) == Some(t);
    assert t == map[];
  }

  /** Dropping an indexed table and rolling back runs to the end and brings the table back without its index. */
  lemma DroppedIndexLost()
    ensures var source := Only(TableT(INDEXED));
      && WfPair(source, EMPTY) && IsSource(DbT(INDEXED), source, EMPTY, PLAIN)
      && var g := Generate(source, EMPTY, PlanOf(source, EMPTY, PLAIN), PLAIN);
      && g.Ok?
      && var mid := Run(Sqls(g.value.statements), DbT(INDEXED));
      && mid.Some?
      && var end := Run(Sqls(g.value.rollback), mid.value);
      end.Some? && !Realising(end.value, source, PLAIN.ignoreDefaults)
  {
    hide *;
    var source := Only(TableT(INDEXED));
    IndexedSmall();
    SmallGenerates(source, EMPTY, INDEXED, INDEXED);
    SpecIsSource(INDEXED, EMPTY);
    NothingRebuilt(source, EMPTY, INDEXED, INDEXED);
    SpecRows(INDEXED);
    IndexedPlain();
    SmallRuns(source, EMPTY, INDEXED, INDEXED, DbT(INDEXED));
    SmallNoActions(source, EMPTY, INDEXED, INDEXED);
    ConvergesPlainly(source, EMPTY, PLAIN, DbT(INDEXED));
    var g := Generate(source, EMPTY, PlanOf(source, EMPTY, PLAIN), PLAIN);
    var mid := Run(Sqls(g.value.statements), DbT(INDEXED)).value;
    PlainIs();
    GoneDb(mid);
    EmptyStands(mid);
    BackRuns(mid);
    BackUnobstructed(mid);
    RollsBack(source, EMPTY, PLAIN, DbT(INDEXED));
    DropNotRestored();
  }

  lemma PlainIs()
    ensures !PLAIN.ignoreDefaults
  {
  }

  lemma EmptyStands(mid: Db)
    requires mid.tables == map[] && mid.views == map[]
    ensures Stands(mid, EMPTY, Only(TableT(INDEXED)), false)
  {
    IndexedShows();
    hide TableMap, ViewMap, StandsTable, TableT;
  }

  /** The rollback is the script of the reverse plan, which rebuilds nothing. */
  lemma BackUnobstructed(mid: Db)
    requires mid.tables == map[] && mid.views == map[]
    ensures var source := Only(TableT(INDEXED));
      var g := Generate(source, EMPTY, PlanOf(source, EMPTY, PLAIN), PLAIN);
      g.Ok? && !Obstructed(Sqls(g.value.rollback), CatalogOf(mid), mid.views)
  {
    hide *;
    var source := Only(TableT(INDEXED));
    IndexedSmall();
    SmallGenerates(source, EMPTY, INDEXED, INDEXED);
    SmallGenerates(EMPTY, source, INDEXED, INDEXED);
    GenerateWhole(source, EMPTY, PLAIN);
    GenerateWhole(EMPTY, source, PLAIN);
    ForwardIs(source, EMPTY, PLAIN);
    ForwardIs(EMPTY, source, PLAIN);
    NothingRebuilt(source, EMPTY, INDEXED, INDEXED);
    RebuiltOnIs(source, EMPTY, PLAIN);
    NothingRebuilt(EMPTY, source, INDEXED, INDEXED);
    EmptyIsSource(source);
    EmptyTables();
    NoViews(EMPTY_DB.views, Standing(EMPTY, source, RebuiltOn(EMPTY, source, PLAIN)));
    Unobstructed(EMPTY, source, PLAIN, EMPTY_DB);
    SameCatalogs(mid);
  }

  lemma SameCatalogs(mid: Db)
    requires mid.tables == map[] && mid.views == map[]
    ensures CatalogOf(mid) == CatalogOf(EMPTY_DB) && mid.views == EMPTY_DB.views && EMPTY_DB.views == map[]
  {
  }

  // ---- A primary key without an index goes unseen ----

  const UNKEYED := Spec(true, false, None, false, None)

  const KEYED := Spec(true, true, None, false, None)

  lemma KeysSmall()
    ensures Small(Only(TableT(UNKEYED)), UNKEYED) && Small(Only(TableT(KEYED)), KEYED) && SpecOk(UNKEYED) && SpecOk(KEYED)
  {
  }

  lemma SameColumnNoFlags()
    ensures ColumnFlags(Sqlite, Column(UNKEYED), Column(KEYED), PLAIN) == []
  {
  }

  lemma EmptyMaps(s: Spec)
    requires s.index.None? && !s.fk
    ensures var t := TableT(s); SecondaryMap(t) == map[] && FkMap(t) == map[] && FirstPrimary(t.indexes).None?
  {
  }

  lemma NoEntries(es: seq<Entry>)
    requires forall e :: e !in es
    ensures es == []
  {
    HasMember(es);
  }

  lemma KeyColumns(e: Entry)
    ensures e !in DiffColumns(Sqlite, "t", TableT(UNKEYED), TableT(KEYED), PLAIN)
  {
    hide ColumnMap, ColumnFlags, DiffColumns, WfColumns, Lower, NameOk, IsAutoIndex, TableT, Column;
    KeysSmall();
    TableFacts(UNKEYED);
    TableFacts(KEYED);
    SameColumnNoFlags();
    ColumnEntry(Sqlite, "t", TableT(UNKEYED), TableT(KEYED), PLAIN, e);
  }

  lemma KeyDiffEmpty()
    ensures DiffTable(Sqlite, TableT(UNKEYED), TableT(KEYED), PLAIN) == []
  {
    var s, t := TableT(UNKEYED), TableT(KEYED);
    EmptyMaps(UNKEYED);
    EmptyMaps(KEYED);
    hide SecondaryMap, FkMap, FirstPrimary, DiffColumns, DiffSecondary, DiffForeignKeys, Lower;
    assert t.name == "t";
    forall e ensures e !in DiffTable(Sqlite, s, t, PLAIN) {
      InTable(s, t, PLAIN, e);
      KeyColumns(e);
      SecondaryEntry(t.name, s, t, PLAIN, e);
      ForeignKeyEntry(t.name, s, t, PLAIN, e);
    }
    NoEntries(DiffTable(Sqlite, s, t, PLAIN));
  }

  /** Two tables that differ in an INTEGER PRIMARY KEY, for which SQLite keeps no index, compare equal. */
  lemma PrimaryKeyUnseen()
    ensures var source, target := Only(TableT(UNKEYED)), Only(TableT(KEYED));
      WfPair(source, target) && PlanOf(source, target, PLAIN) == [] && !SamePk(TableT(UNKEYED), TableT(KEYED))
  {
    hide *;
    var source, target := Only(TableT(UNKEYED)), Only(TableT(KEYED));
    KeysSmall();
    SmallPair(source, target, UNKEYED, KEYED);
    PairWf(source, target);
    SmallMaps(source, UNKEYED);
    SmallMaps(target, KEYED);
    NotEmpty(UNKEYED);
    NotEmpty(KEYED);
    KeyDiffEmpty();
    forall e ensures e !in PlanOf(source, target, PLAIN) {
      PlanIs(source, target, PLAIN);
      PlanEntries(source, target, PLAIN, e);
      NotFromPlan(TableMap(source), TableMap(target), e);
    }
    NoEntries(PlanOf(source, target, PLAIN));
    KeysDiffer();
  }

  lemma NotEmpty(s: Spec)
    ensures Only(TableT(s)) != EMPTY
  {
    assert |Only(TableT(s)).tables| == 1;
  }

  lemma NotFromPlan(sm: map<string, TableSnapshot>, tm: map<string, TableSnapshot>, e: Entry)
    requires sm.Keys == tm.Keys && forall k :: k in sm ==> DiffTable(Sqlite, sm[k], tm[k], PLAIN) == []
    ensures !FromPlan(Sqlite, sm, tm, PLAIN, e)
  {
    hide DiffTable, Lower;
  }

  lemma KeysDiffer()
    ensures !SamePk(TableT(UNKEYED), TableT(KEYED))
  {
    hide PkColumns, LowerAll;
    SpecPk(UNKEYED);
    SpecPk(KEYED);
    assert |Def(UNKEYED).pk| == 0 && |Def(KEYED).pk| == 1;
  }

  // ---- A rebuild of one table ----

  function Altering(s: Spec, t: Spec): Entry { Mk(AlterColumn, "t", "a", PLAIN).(flags := ColumnFlags(Sqlite, Column(s), Column(t), PLAIN)) }

  lemma AlteringIn(source: Snapshot, target: Snapshot, s: Spec, t: Spec)
    requires Small(source, s) && Small(target, t) && source != EMPTY && target != EMPTY && s.nullable != t.nullable
    ensures Altering(s, t) in PlanOf(source, target, PLAIN)
  {
    hide *;
    SmallPair(source, target, s, t);
    PairWf(source, target);
    PlanIs(source, target, PLAIN);
    SmallMaps(source, s);
    SmallMaps(target, t);
    SmallSpecs(source, s);
    SmallSpecs(target, t);
    Altered(s, t, Altering(s, t));
    PlanEntries(source, target, PLAIN, Altering(s, t));
    AlteringFrom(TableMap(source), TableMap(target), s, t);
  }

  lemma SmallSpecs(a: Snapshot, s: Spec)
    requires Small(a, s)
    ensures SpecOk(s)
  {
  }

  lemma AlteringFrom(sm: map<string, TableSnapshot>, tm: map<string, TableSnapshot>, s: Spec, t: Spec)
    requires sm == map["t" := TableT(s)] && tm == map["t" := TableT(t)] && Altering(s, t) in DiffTable(Sqlite, TableT(s), TableT(t), PLAIN)
    ensures FromPlan(Sqlite, sm, tm, PLAIN, Altering(s, t))
  {
    hide DiffTable, TableT, ColumnFlags;
    assert Lower("t") == "t";
  }

  /** The plan of a pair whose one table changes nullability alters its column, so it rebuilds it. */
  lemma OneRebuilt(source: Snapshot, target: Snapshot, s: Spec, t: Spec)
    requires Small(source, s) && Small(target, t) && source != EMPTY && target != EMPTY && s.nullable != t.nullable
    ensures RebuiltOn(source, target, PLAIN) == {"t"}
  {
    hide *;
    SmallPair(source, target, s, t);
    AlteringIn(source, target, s, t);
    SmallMaps(source, s);
    SmallMaps(target, t);
    RebuildsAreCommon(source, target, PLAIN);
    RebuiltOnIs(source, target, PLAIN);
    AlteringIs(s, t);
    AltersRebuild(source, target, PlanOf(source, target, PLAIN), Altering(s, t));
    OnlyT(RebuiltOn(source, target, PLAIN), TableT(s), TableT(t));
  }

  lemma AlteringIs(s: Spec, t: Spec)
    ensures Altering(s, t).op == AlterColumn && Lower(Altering(s, t).table) == "t"
  {
    hide ColumnFlags;
    assert Lower("t") == "t";
  }

  lemma OnlyT(keys: set<string>, x: TableSnapshot, y: TableSnapshot)
    requires "t" in keys && keys <= map["t" := y].Keys * map["t" := x].Keys
    ensures keys == {"t"}
  {
  }

  lemma AltersRebuild(source: Snapshot, target: Snapshot, entries: seq<Entry>, e: Entry)
    requires e in entries && e.op == AlterColumn
    ensures Lower(e.table) in Rebuilds(source, target, entries, {})
  {
    hide Lower, TableMap, CyclicSet, TakenNames;
    assert NeedsRebuild(e, Lookup(TableMap(source), Lower(e.table)), Lookup(TableMap(target), Lower(e.table)));
  }

  lemma AlteredColumn(s: Spec, t: Spec)
    requires SpecOk(s) && SpecOk(t) && s.nullable != t.nullable
    ensures ColumnChange(Sqlite, "t", TableT(s), TableT(t), PLAIN, Altering(s, t), "a")
  {
    hide ColumnFlags, WfColumns, ColumnMap, NameOk, IsAutoIndex, Lower, SpecOk, TableT;
    TableFacts(s);
    TableFacts(t);
    FlagsDiffer(s, t);
  }

  lemma Altered(s: Spec, t: Spec, e: Entry)
    requires SpecOk(s) && SpecOk(t) && s.nullable != t.nullable && e == Altering(s, t)
    ensures e in DiffTable(Sqlite, TableT(s), TableT(t), PLAIN)
  {
    hide *;
    AlteredColumn(s, t);
    AlteringObj(s, t);
    TableName(t);
    ColumnEntry(Sqlite, "t", TableT(s), TableT(t), PLAIN, e);
    InTable(TableT(s), TableT(t), PLAIN, e);
    ColumnsFirst(s, t, e);
  }

  lemma AlteringObj(s: Spec, t: Spec)
    ensures Lower(Altering(s, t).obj) == "a"
  {
    hide ColumnFlags;
    assert Lower("a") == "a";
  }

  lemma ColumnsFirst(s: Spec, t: Spec, e: Entry)
    requires e in DiffColumns(Sqlite, "t", TableT(s), TableT(t), PLAIN)
    ensures e in DiffTable(Sqlite, TableT(s), TableT(t), PLAIN)
  {
    hide DiffColumns, DiffIndexes, DiffForeignKeys;
    TableName(t);
  }

  lemma FlagsDiffer(s: Spec, t: Spec)
    requires s.nullable != t.nullable
    ensures ColumnFlags(Sqlite, Column(s), Column(t), PLAIN) != []
  {
    assert NullabilityFlag in ColumnFlags(Sqlite, Column(s), Column(t), PLAIN);
  }

  /** A script that rebuilds the only table there is: one rebuild unit. */
  lemma OneGroup(source: Snapshot, target: Snapshot, s: Spec, t: Spec)
    requires Small(source, s) && Small(target, t) && source != EMPTY && target != EMPTY && s.nullable != t.nullable
    ensures var u := ForwardUnits(source, target, PLAIN);
      && |u| == 1 && u[0].Rebuild? && u[0].key == "t" && Lower(u[0].tmp) == "polydb_tmp_t" && UnitOk(NamesOf(source, target), u[0])
  {
    hide *;
    SmallGenerates(source, target, s, t);
    BothWaysIs(source, target, PlanOf(source, target, PLAIN), PlanOf(target, source, PLAIN));
    NothingForced(source, target);
    SettingRuns(source, target, PLAIN, {});
    OnIs(source, target, PLAIN, EMPTY_DB);
    OneRebuilt(source, target, s, t);
    RebuiltOnIs(source, target, PLAIN);
    var plan := PlanOf(source, target, PLAIN);
    UnitListOk(source, target, plan, {});
    ScriptBlocksIs(source, target, plan, {});
    BlocksFrom(plan, plan, Rebuilds(source, target, plan, {}), {});
    SettingChosen(source, target, PLAIN, plan, {});
    SmallMaps(source, s);
    SmallMaps(target, t);
    var x, blocks := EmissionOf(source, target, plan), ScriptBlocks(source, target, plan, {});
    forall i | 0 <= i < |blocks| ensures BlockKey(blocks[i]) == "t" && blocks[i].Group? {
      TheOnlyKey(source, target, plan, blocks[i]);
    }
    InT();
    RebuiltHasEntries(source, target, plan, {}, "t");
    ScriptBlocksAre(source, target, plan, {}, "t");
    AllOfKey(blocks, "t");
    EmissionIs(source, target, plan);
    OneUnit(x, blocks, ScriptUnitList(source, target, plan, {}));
    TableName(t);
    TmpNamed(source, target, s, t);
    UnitsOkAt(NamesOf(source, target), ScriptUnitList(source, target, plan, {}));
  }

  lemma InT()
    ensures "t" in {"t"}
  {
  }

  lemma TableName(t: Spec)
    ensures TableT(t).name == "t"
  {
  }

  lemma TheOnlyKey(source: Snapshot, target: Snapshot, plan: seq<Entry>, b: Block)
    requires BlockFrom(plan, {"t"}, b) && WholePlan(source, target, PLAIN, plan)
    requires TableMap(source).Keys == TableMap(target).Keys == {"t"}
    ensures BlockKey(b) == "t" && b.Group?
  {
    hide TableMap, DiffTable, DistinctTags, PhasesAscend, Lower;
    if b.Direct? {
      PlanEntryKnown(source, target, PLAIN, b.entry);
    }
  }

  lemma AllOfKey(blocks: seq<Block>, k: string)
    requires forall i :: 0 <= i < |blocks| ==> BlockKey(blocks[i]) == k
    ensures Filter(blocks, OfKey(k)) == blocks
  {
    hide BlockKey;
    FilterKeepsAll(blocks, OfKey(k));
  }

  lemma OneUnit(x: Emission, blocks: seq<Block>, units: seq<Unit>)
    requires BlocksOk(x, blocks) && units == UnitsOf(x, blocks) && |blocks| == 1 && blocks[0].Group? && BlockKey(blocks[0]) == "t"
    ensures |units| == 1 && units[0].Rebuild? && units[0].key == "t"
    ensures "t" in x.tgt && units[0].tmp == TmpNameOf(x.tgt["t"].name, x.taken)
  {
    assert BlockOk(x, blocks[0]);
    hide BlockOk, UnitOf, TmpNameOf;
    GroupTmp(x, blocks[0]);
  }

  lemma UnitsOkAt(w: Names, units: seq<Unit>)
    requires UnitsOk(w, units) && |units| == 1
    ensures UnitOk(w, units[0])
  {
    hide UnitOk;
  }

  lemma TmpOfT()
    ensures Lower(TmpNameOf("t", {"t"})) == "polydb_tmp_t"
  {
    assert TmpCandidate("t", 1) == "polydb_tmp_t";
    assert Lower("polydb_tmp_t") == "polydb_tmp_t";
  }

  lemma TmpNamed(source: Snapshot, target: Snapshot, s: Spec, t: Spec)
    requires Small(source, s) && Small(target, t) && source != EMPTY && target != EMPTY
    ensures Lower(TmpNameOf("t", TakenNames(source, target))) == "polydb_tmp_t"
  {
    hide TableMap, ViewMap, WfSnapshot, TmpNameOf, Lower, TableT, SpecOk;
    SmallMaps(source, s);
    SmallMaps(target, t);
    assert TakenNames(source, target) == {"t"};
    TmpOfT();
  }

  // ---- An index has the temporary name ----

  const TMP_INDEXED := Spec(true, false, Some("polydb_tmp_t"), false, None)

  const TMP_STRICT := Spec(false, false, Some("polydb_tmp_t"), false, None)

  lemma TmpSmall()
    ensures Small(Only(TableT(TMP_INDEXED)), TMP_INDEXED) && Small(Only(TableT(TMP_STRICT)), TMP_STRICT)
  {
  }

  /** Making the column of a table with an index polydb_tmp_t NOT NULL: the data fits, and the first CREATE TABLE is refused. */
  lemma TmpIndexRefused()
    ensures var source, target, db := Only(TableT(TMP_INDEXED)), Only(TableT(TMP_STRICT)), DbT(TMP_INDEXED);
      && WfPair(source, target) && IsSource(db, source, target, PLAIN) && DefaultsTaken(source, target, RebuiltOn(source, target, PLAIN))
      && DataFits(source, target, RebuiltOn(source, target, PLAIN), db)
      && var g := Generate(source, target, PlanOf(source, target, PLAIN), PLAIN);
      g.Ok? && Run(Sqls(g.value.statements), db).None?
  {
    hide *;
    var source, target, db := Only(TableT(TMP_INDEXED)), Only(TableT(TMP_STRICT)), DbT(TMP_INDEXED);
    TmpSmall();
    NotEmpty(TMP_INDEXED);
    NotEmpty(TMP_STRICT);
    SmallGenerates(source, target, TMP_INDEXED, TMP_STRICT);
    TmpSpecOk();
    SpecIsSource(TMP_INDEXED, target);
    SpecRows(TMP_INDEXED);
    NoRowsFit(source, target, RebuiltOn(source, target, PLAIN), db);
    NullableDiffers();
    SmallTaken(source, target, TMP_INDEXED, TMP_STRICT, RebuiltOn(source, target, PLAIN));
    OneGroup(source, target, TMP_INDEXED, TMP_STRICT);
    var units := ForwardUnits(source, target, PLAIN);
    ScriptObstructed(source, target, PLAIN, CatalogOf(db), db.views);
    TablesTaken(source, target);
    OneUnitSqls(units);
    UnitObstructed(NamesOf(source, target), units[0], CatalogOf(db), db.views);
    TmpBlocked(units[0]);
    Converges(source, target, PLAIN, db);
  }

  lemma TmpSpecOk()
    ensures SpecOk(TMP_INDEXED) && SpecOk(TMP_STRICT) && TMP_STRICT.dflt.None?
  {
  }

  lemma NullableDiffers()
    ensures TMP_INDEXED.nullable != TMP_STRICT.nullable && AIMING.nullable != AIMING_STRICT.nullable
  {
  }

  lemma OneUnitSqls(units: seq<Unit>)
    requires |units| == 1
    ensures AllSqls(units) == UnitSqls(units[0])
  {
    hide UnitSqls;
    assert units[..0] == [];
    assert AllSqls(units[..0]) == [];
  }

  lemma TmpBlocked(u: Unit)
    requires u.Rebuild? && Lower(u.tmp) == "polydb_tmp_t"
    ensures UnitBlocked(u, CatalogOf(DbT(TMP_INDEXED)), DbT(TMP_INDEXED).views)
  {
    hide Lower, CatalogOf;
    var c := CatalogOf(DbT(TMP_INDEXED));
    InCatalog(DbT(TMP_INDEXED), "polydb_tmp_t", "t");
    assert ("polydb_tmp_t", "t") in c.indexes && ("polydb_tmp_t", "t").0 == "polydb_tmp_t";
  }

  // ---- A foreign key names the temporary table ----

  const AIMING := Spec(true, false, None, true, None)

  const AIMING_STRICT := Spec(false, false, None, true, None)

  lemma AimingSmall()
    ensures Small(Only(TableT(AIMING)), AIMING) && Small(Only(TableT(AIMING_STRICT)), AIMING_STRICT) && SpecOk(AIMING) && SpecOk(AIMING_STRICT)
    ensures AIMING.index.None? && AIMING_STRICT.index.None? && AIMING_STRICT.fk && AIMING_STRICT.dflt.None?
  {
  }

  /** A foreign key to polydb_tmp_t on a rebuilt table t: the script runs, and the key then names t itself. */
  lemma ForeignKeyStrays()
    ensures var source, target, db := Only(TableT(AIMING)), Only(TableT(AIMING_STRICT)), DbT(AIMING);
      && WfPair(source, target) && IsSource(db, source, target, PLAIN)
      && var g := Generate(source, target, PlanOf(source, target, PLAIN), PLAIN);
      && g.Ok?
      && var r := Run(Sqls(g.value.statements), db);
      r.Some? && !Realising(r.value, target, PLAIN.ignoreDefaults)
  {
    hide *;
    var source, target, db := Only(TableT(AIMING)), Only(TableT(AIMING_STRICT)), DbT(AIMING);
    AimingSmall();
    NotEmpty(AIMING);
    NotEmpty(AIMING_STRICT);
    NullableDiffers();
    SmallGenerates(source, target, AIMING, AIMING_STRICT);
    SpecIsSource(AIMING, target);
    SpecRows(AIMING);
    SmallNames(source, target, AIMING, AIMING_STRICT);
    NoOwnedNames(source, target, RebuiltOn(source, target, PLAIN));
    SmallRuns(source, target, AIMING, AIMING_STRICT, db);
    OneGroup(source, target, AIMING, AIMING_STRICT);
    KeyStrays(target, ForwardUnits(source, target, PLAIN));
    Converges(source, target, PLAIN, db);
  }

  lemma NoOwnedNames(source: Snapshot, target: Snapshot, rebuild: set<string>)
    requires AllOwned(NamesOf(source, target)) == {}
    ensures NoTmpIndex(source, target, rebuild)
  {
    hide TableMap, NamesOf, AllOwned, TmpNameOf, Lower, TakenNames;
  }

  lemma KeyStrays(target: Snapshot, units: seq<Unit>)
    requires target == Only(TableT(AIMING_STRICT)) && |units| == 1 && units[0].Rebuild? && Lower(units[0].tmp) == "polydb_tmp_t"
    ensures !NoStray(target, units)
  {
    AimingSmall();
    NotEmpty(AIMING_STRICT);
    SmallMaps(target, AIMING_STRICT);
    FkFacts(AIMING_STRICT);
    hide TableMap, ViewMap, Lower, WfForeignKeys, FkStates, WfSnapshot;
    assert FK_STATE in FkStates(TableMap(target)["t"]);
    assert Strays(units, "t", FK_STATE.refTable);
  }

  // ---- A default SQLite does not take back ----

  const CLOCKED := Spec(true, false, None, false, Some(CLOCK))

  lemma ClockedSmall()
    ensures Small(Only(TableT(CLOCKED)), CLOCKED) && Small(EMPTY, CLOCKED) && CLOCKED.dflt == Some(CLOCK)
  {
  }

  lemma ClockNotTaken(rebuild: set<string>)
    ensures !DefaultsTaken(EMPTY, Only(TableT(CLOCKED)), rebuild)
  {
    ClockedSmall();
    NotEmpty(CLOCKED);
    SmallMaps(EMPTY, CLOCKED);
    SmallMaps(Only(TableT(CLOCKED)), CLOCKED);
    TableFacts(CLOCKED);
    ClockText();
    hide TableMap, ViewMap, ColumnMap, WfColumns, NameOk, Lower, IsAutoIndex, TableT, StoredDefault, DefaultClause, WfSnapshot, Small;
    assert !ClauseOk(StoredDefault(ColumnMap(TableT(CLOCKED))["a"].defaultValue));
    assert !TableTaken(TableMap(EMPTY), TableMap(Only(TableT(CLOCKED))), rebuild, "t");
  }

  /** A new table with an expression default: nothing else is wrong, and its CREATE TABLE is refused. */
  lemma DefaultRefused()
    ensures var target := Only(TableT(CLOCKED));
      && WfPair(EMPTY, target) && IsSource(EMPTY_DB, EMPTY, target, PLAIN)
      && DataFits(EMPTY, target, RebuiltOn(EMPTY, target, PLAIN), EMPTY_DB)
      && var g := Generate(EMPTY, target, PlanOf(EMPTY, target, PLAIN), PLAIN);
      && g.Ok? && !Obstructed(Sqls(g.value.statements), CatalogOf(EMPTY_DB), EMPTY_DB.views)
      && Run(Sqls(g.value.statements), EMPTY_DB).None?
  {
    hide *;
    var target := Only(TableT(CLOCKED));
    ClockedSmall();
    SmallGenerates(EMPTY, target, CLOCKED, CLOCKED);
    EmptyIsSource(target);
    EmptyTables();
    NothingRebuilt(EMPTY, target, CLOCKED, CLOCKED);
    NoViews(EMPTY_DB.views, Standing(EMPTY, target, RebuiltOn(EMPTY, target, PLAIN)));
    Unobstructed(EMPTY, target, PLAIN, EMPTY_DB);
    NoRowsFit(EMPTY, target, RebuiltOn(EMPTY, target, PLAIN), EMPTY_DB);
    ClockNotTaken(RebuiltOn(EMPTY, target, PLAIN));
    Converges(EMPTY, target, PLAIN, EMPTY_DB);
  }
}
