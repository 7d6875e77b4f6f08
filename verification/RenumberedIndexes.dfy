/// A concrete table whose own indexes the generated CREATE TABLE numbers differently, so that
/// comparing again never comes to an end.
module RenumberedIndexes {
  import opened Text
  import opened Sequences
  import opened TypeNames
  import opened Normalize
  import opened Snapshots
  import opened Plan
  import opened Script
  import opened Defaults
  import opened Database
  import opened Obstructions
  import opened Locality
  import opened Runs
  import opened WellFormed
  import opened Shape
  import opened Agreement
  import opened PlanUnits
  import opened ScriptUnits
  import opened Convergence
  import opened Drops
  import opened Sparing
  import opened FullScript
  import opened Rollback
  import opened SyncTheorems
  import opened PlainDrops
  import opened AutoIndexes
  import opened Recomparison
  import opened Counterexamples
  import opened MoreCounterexamples

  const AUTO_1 := "sqlite_autoindex_t_1"

  const AUTO_2 := "sqlite_autoindex_t_2"

  const COLUMN_A := ColumnInfo("a", "text", true, None, false, false, 1)

  const COLUMN_B := ColumnInfo("b", "text", true, None, true, false, 2)

  /** A table of a UNIQUE column a and a key b, and the names of their indexes: 1 and 2 if a is declared first, 2 and 1 as the generated statement declares them. */
  function KeyedT(unique: string, key: string): TableSnapshot {
    TableSnapshot("t", BaseTable, [COLUMN_A, COLUMN_B],
                  [IndexInfo(key, true, true, [IndexColumn("b", 1)]), IndexInfo(unique, true, false, [IndexColumn("a", 1)])], [])
  }

  predicate AutoOk(n: string) { NameOk(n) && Lower(n) == n && Trim(n) == n && IsAutoIndex(n) }

  predicate Names(u: string, k: string) { AutoOk(u) && AutoOk(k) && u != k }

  predicate OwnName(n: string) {
    n != [] && (forall i :: 0 <= i < |n| ==> 'a' <= n[i] <= 'z' || n[i] == '_' || IsDigit(n[i])) && |n| > 7 && n[..7] == "sqlite_"
  }

  lemma OwnNameOk(n: string)
    requires OwnName(n)
    ensures AutoOk(n)
  {
    TrimmedEnds(n);
    assert Lower(n) == n;
  }

  lemma FirstName()
    ensures OwnName(AUTO_1) && AUTO_1[19] == '1' && |AUTO_1| == 20
  {
    assert AUTO_1[..7] == "sqlite_";
  }

  lemma SecondName()
    ensures OwnName(AUTO_2) && AUTO_2[19] == '2' && |AUTO_2| == 20
  {
    assert AUTO_2[..7] == "sqlite_";
  }

  lemma AutoNames()
    ensures Names(AUTO_1, AUTO_2) && Names(AUTO_2, AUTO_1)
  {
    hide AutoOk, OwnName;
    FirstName();
    SecondName();
    OwnNameOk(AUTO_1);
    OwnNameOk(AUTO_2);
  }

  lemma Columns(u: string, k: string)
    ensures ColumnMap(KeyedT(u, k)) == map["a" := COLUMN_A, "b" := COLUMN_B] && WfColumns(KeyedT(u, k))
  {
    PlainNameOk("a");
    PlainNameOk("b");
    hide NameOk, Lower, IsAutoIndex;
    FirstWinsTwo(COLUMN_A, COLUMN_B, ColumnKey, AnyColumn);
  }

  lemma OneColumnIndex(n: string, u: bool, p: bool, c: string)
    requires c == "a" || c == "b"
    ensures IndexColumns(IndexInfo(n, u, p, [IndexColumn(c, 1)])) == [c]
    ensures IndexStateOf(IndexInfo(n, u, p, [IndexColumn(c, 1)])) == IndexState(u, [c])
  {
    PlainNameOk(c);
    var idx := IndexInfo(n, u, p, [IndexColumn(c, 1)]);
    assert idx.columns[1..] == [];
    assert LowerAll([c]) == [c];
  }

  lemma Indexes(u: string, k: string)
    requires Names(u, k)
    ensures WfIndexes(KeyedT(u, k)) && FirstPrimary(KeyedT(u, k).indexes) == Some(KeyedT(u, k).indexes[0])
    ensures IndexKey(KeyedT(u, k).indexes[0]) == k && IndexKey(KeyedT(u, k).indexes[1]) == u
  {
    Columns(u, k);
    PlainNameOk("a");
    PlainNameOk("b");
    hide NameOk, Lower, IsAutoIndex, ColumnMap, WfColumns, Trim;
    var t := KeyedT(u, k);
    assert IndexKey(t.indexes[0]) == k && IndexKey(t.indexes[1]) == u;
    hide IndexKey;
    assert WfIndex(t, t.indexes[0]) && WfIndex(t, t.indexes[1]);
    hide WfIndex;
  }

  lemma KeyedWf(u: string, k: string)
    requires Names(u, k)
    ensures WfSnapshot(Only(KeyedT(u, k))) && WfTable(KeyedT(u, k))
    ensures TableMap(Only(KeyedT(u, k))) == map["t" := KeyedT(u, k)] && ViewMap(Only(KeyedT(u, k))) == map[] && TableMap(EMPTY) == map[] && ViewMap(EMPTY) == map[]
  {
    Columns(u, k);
    Indexes(u, k);
    PlainNameOk("t");
    MapsOfOne(KeyedT(u, k));
    hide NameOk, Lower, IsAutoIndex, ColumnMap, WfColumns, WfIndexes, TableMap, ViewMap;
  }

  // ---- What both describe ----

  lemma OnlyAuto(u: string, k: string, i: IndexInfo)
    requires Names(u, k) && i in KeyedT(u, k).indexes
    ensures IsUniqueConstraint(i) <==> i == KeyedT(u, k).indexes[1]
    ensures !IsUserIndex(i)
  {
    hide Lower, Trim, IsAutoIndex;
  }

  lemma States(u: string, k: string)
    requires Names(u, k)
    ensures PkColumns(KeyedT(u, k)) == ["b"] && UniqueLists(KeyedT(u, k)) == {["a"]} && UserIndexStates(KeyedT(u, k)) == map[]
    ensures FkStates(KeyedT(u, k)) == {} && AutoStates(KeyedT(u, k)) == {(u, IndexState(true, ["a"]))} && Unnamed(KeyedT(u, k)) && HasPrimary(KeyedT(u, k))
  {
    Indexes(u, k);
    var t := KeyedT(u, k);
    OneColumnIndex(k, true, true, "b");
    OneColumnIndex(u, true, false, "a");
    forall i | i in t.indexes ensures (IsUniqueConstraint(i) <==> i == t.indexes[1]) && !IsUserIndex(i) { OnlyAuto(u, k, i); }
    hide WfIndexes, FirstPrimary, IndexColumns, IndexStateOf, IndexKey, IsUniqueConstraint, IsUserIndex, LowerAll, SecondaryMap;
    assert LowerAll(["a"]) == ["a"] by { LowerA(); }
    assert t.indexes[1] in t.indexes;
    NoUserStates(t);
  }

  lemma NoUserStates(t: TableSnapshot)
    requires forall i :: i in t.indexes ==> !IsUserIndex(i)
    ensures UserIndexStates(t) == map[]
  {
    hide SecondaryMap, IsUserIndex, IndexStateOf;
    forall k | k in SecondaryMap(t) ensures !IsUserIndex(SecondaryMap(t)[k]) { SecondaryMapKeyed(t, k); }
  }

  /** One database has both descriptions. */
  lemma SameShape(def: TableDef, u: string, k: string)
    requires Names(u, k) && Names(k, u) && Realises(def, KeyedT(u, k), false)
    ensures Realises(def, KeyedT(k, u), false)
  {
    States(u, k);
    States(k, u);
    Columns(u, k);
    Columns(k, u);
    hide PkColumns, UniqueLists, UserIndexStates, FkStates, ColumnMap, SameColumn, WfColumns, AutoStates, HasPrimary, LowerAll, Names, KeyedT;
  }

  lemma RealisingOne(db: Db, a: Snapshot, b: Snapshot, x: TableSnapshot, y: TableSnapshot)
    requires TableMap(a) == map["t" := x] && TableMap(b) == map["t" := y] && Realising(db, a, false)
    requires forall def :: Realises(def, x, false) ==> Realises(def, y, false)
    ensures Realising(db, b, false)
  {
    hide TableMap, Realises;
  }

  lemma SameDatabase(db: Db, u: string, k: string)
    requires Names(u, k) && Names(k, u) && Realising(db, Only(KeyedT(u, k)), false)
    ensures Realising(db, Only(KeyedT(k, u)), false)
  {
    hide *;
    KeyedWf(u, k);
    KeyedWf(k, u);
    forall def | Realises(def, KeyedT(u, k), false) ensures Realises(def, KeyedT(k, u), false) { SameShape(def, u, k); }
    RealisingOne(db, Only(KeyedT(u, k)), Only(KeyedT(k, u)), KeyedT(u, k), KeyedT(k, u));
  }

  // ---- The numbers ----

  lemma TextType()
    ensures NormalizeType(Sqlite, "text") == "text"
  {
    var s := "text";
    TrimmedEnds(s);
    FoldFixed(s);
    assert Lower(s) == s;
    assert s[1..] == "ext" && s[1..][1..] == "xt" && s[1..][1..][1..] == "t" && s[1..][1..][1..][1..] == "";
  }

  lemma BodyTypes(u: string, k: string)
    ensures forall i :: 0 <= i < |ColumnDefs(Sqlite, OrderedColumns(KeyedT(u, k)))| ==> ColumnDefs(Sqlite, OrderedColumns(KeyedT(u, k)))[i].typ == "text"
  {
    TextType();
    var t := KeyedT(u, k);
    SortMembers(BeforeOrdinal, t.columns);
    hide NormalizeType, StoredDefault, Lower, SortBy;
    forall i | 0 <= i < |OrderedColumns(t)| ensures OrderedColumns(t)[i].dataType == "text" { assert OrderedColumns(t)[i] in OrderedColumns(t); }
  }

  lemma TextBody(b: TableBody)
    requires b.pk != [] && forall i :: 0 <= i < |b.columns| ==> b.columns[i].typ == "text"
    ensures PrimaryIndexed(b)
  {
    hide Lower;
    assert "text"[0] != "integer"[0];
  }

  lemma BodyUnique(u: string, k: string)
    requires Names(u, k)
    ensures TableBodyOf(Sqlite, KeyedT(u, k)).uniques == [["a"]]
  {
    var t := KeyedT(u, k);
    OneColumnIndex(u, true, false, "a");
    OnlyAuto(u, k, t.indexes[0]);
    OnlyAuto(u, k, t.indexes[1]);
    OnlyUnique(t);
    hide PkColumns, IndexColumns, IsUniqueConstraint, Lower, ColumnDefs, OrderedColumns, SortBy, Filter, Names, IndexStateOf;
    assert Map(IndexColumns, [t.indexes[1]]) == [["a"]];
  }

  lemma Body(u: string, k: string)
    requires Names(u, k)
    ensures var b := TableBodyOf(Sqlite, KeyedT(u, k)); b.pk == ["b"] && b.uniques == [["a"]] && PrimaryIndexed(b)
  {
    States(u, k);
    BodyTypes(u, k);
    BodyUnique(u, k);
    hide PkColumns, UniqueLists, UserIndexStates, FkStates, AutoStates, HasPrimary, IndexColumns, IsUniqueConstraint, Lower, ColumnDefs, OrderedColumns,
      SortBy, Filter, Names, IndexStateOf, PrimaryIndexed, KeyedT, Map;
    TextBody(TableBodyOf(Sqlite, KeyedT(u, k)));
  }

  lemma OnlyUnique(t: TableSnapshot)
    requires |t.indexes| == 2 && !IsUniqueConstraint(t.indexes[0]) && IsUniqueConstraint(t.indexes[1])
    ensures SortBy(BeforeIndexName, Filter(t.indexes, IsUniqueConstraint)) == [t.indexes[1]]
  {
    hide IsUniqueConstraint, Lower;
    assert t.indexes[..1] == [t.indexes[0]] && t.indexes[..1][..0] == [];
    assert Filter(t.indexes[..1], IsUniqueConstraint) == [];
    assert [t.indexes[1]][1..] == [];
  }

  lemma TwoLists(b: TableBody)
    requires b.pk == ["b"] && b.uniques == [["a"]] && PrimaryIndexed(b)
    ensures AutoLists(b) == [["b"], ["a"]]
  {
    LowerTwo();
    hide RowIdKey, Lower, LowerAll;
    assert Map(LowerAll, b.uniques) == [["a"]];
    assert [["b"], ["a"]][..1] == [["b"]] && [["b"]][..0] == [];
    assert Once([["b"]]) == [["b"]];
    assert [["b"]] + [["a"]] == [["b"], ["a"]] && ["a"] != ["b"];
  }

  lemma Numbers(b: TableBody, name: string)
    requires b.pk == ["b"] && b.uniques == [["a"]] && PrimaryIndexed(b) && AutoName("t", 2) == name && Lower(name) == name
    ensures NumberedStates("t", b) == {(name, IndexState(true, ["a"]))}
  {
    TwoLists(b);
    hide RowIdKey, Lower, LowerAll, AutoName, AutoLists;
    forall p | p in NumberedStates("t", b) ensures p == (name, IndexState(true, ["a"])) {
      var n :| 1 <= n < 2 && p == (Lower(AutoName("t", n + 1)), IndexState(true, AutoLists(b)[n]));
      assert n == 1;
    }
    assert (Lower(AutoName("t", 1 + 1)), IndexState(true, AutoLists(b)[1])) in NumberedStates("t", b);
  }

  lemma LowerTwo()
    ensures LowerAll(["a"]) == ["a"] && LowerAll(["b"]) == ["b"]
  {
    assert Lower("a") == "a" && Lower("b") == "b";
  }

  lemma NameTwo()
    ensures AutoName("t", 2) == AUTO_2
  {
    assert Decimal(2) == "2";
    assert AUTO_2 == "sqlite_autoindex_" + "t" + "_" + "2";
  }

  // ---- The run, and comparing again ----

  lemma NoOwnIndexes(u: string, k: string)
    requires Names(u, k)
    ensures UserIndexNames(KeyedT(u, k)) == {}
  {
    forall i | i in KeyedT(u, k).indexes ensures !IsUserIndex(i) { OnlyAuto(u, k, i); }
    hide IsUserIndex, KeyedT, Names;
  }

  /** Snapshots of no table, or of one table t without an index of the user's own. */
  lemma PairOf(source: Snapshot, target: Snapshot)
    requires WfSnapshot(source) && WfSnapshot(target) && ViewMap(source) == map[] && ViewMap(target) == map[]
    requires TableMap(source).Keys <= {"t"} && TableMap(target).Keys <= {"t"}
    requires forall k :: k in TableMap(source) ==> UserIndexNames(TableMap(source)[k]) == {} && "a" in ColumnMap(TableMap(source)[k])
    requires forall k :: k in TableMap(target) ==> UserIndexNames(TableMap(target)[k]) == {} && "a" in ColumnMap(TableMap(target)[k])
    ensures WfPair(source, target)
  {
    hide TableMap, ViewMap, ColumnMap, WfSnapshot, UserIndexNames;
    forall k | k in TableMap(source) && k in TableMap(target) ensures CommonColumn(TableMap(source)[k], TableMap(target)[k]) {
      assert "a" in ColumnMap(TableMap(source)[k]);
    }
  }

  lemma KeyedPair(u: string, k: string)
    requires Names(u, k) && Names(k, u)
    ensures WfPair(EMPTY, Only(KeyedT(u, k))) && WfPair(Only(KeyedT(k, u)), Only(KeyedT(u, k)))
  {
    KeyedWf(u, k);
    KeyedWf(k, u);
    NoOwnIndexes(u, k);
    NoOwnIndexes(k, u);
    Columns(u, k);
    Columns(k, u);
    EmptyWf();
    hide TableMap, ViewMap, ColumnMap, WfTable, KeyedT, WfColumns, UserIndexNames, WfSnapshot, WfPair, Names;
    PairOf(EMPTY, Only(KeyedT(u, k)));
    PairOf(Only(KeyedT(k, u)), Only(KeyedT(u, k)));
  }

  lemma EmptyWf()
    ensures WfSnapshot(EMPTY)
  {
    hide WfTable;
  }

  lemma KeyedNoStubs(u: string, k: string, s: Snapshot, t: Snapshot, entries: seq<Entry>, forced: set<string>)
    requires Names(u, k) && (t == EMPTY || t == Only(KeyedT(u, k)))
    ensures NoStubs(s, t, entries, forced)
  {
    KeyedWf(u, k);
    Columns(u, k);
    NoDefault();
    hide TableMap, ViewMap, ColumnMap, Rebuilds, Lower, Trim, LiteralDefault, KeyedT, WfSnapshot, WfTable, WfColumns, Names;
    forall e, l | l in TableMap(t) ensures !Stub(e, Some(TableMap(t)[l])) {
    }
  }

  lemma KeyedGenerates(u: string, k: string)
    requires Names(u, k) && Names(k, u)
    ensures Generate(EMPTY, Only(KeyedT(u, k)), PlanOf(EMPTY, Only(KeyedT(u, k)), PLAIN), PLAIN).Ok?
  {
    hide *;
    var t := Only(KeyedT(u, k));
    KeyedPair(u, k);
    KeyedNoStubs(u, k, EMPTY, t, PlanOf(EMPTY, t, PLAIN), {});
    KeyedNoStubs(u, k, t, EMPTY, PlanOf(t, EMPTY, PLAIN), Rebuilds(EMPTY, t, PlanOf(EMPTY, t, PLAIN), {}));
    BothWaysIs(EMPTY, t, PlanOf(EMPTY, t, PLAIN), PlanOf(t, EMPTY, PLAIN));
    GenerateWhole(EMPTY, t, PLAIN);
  }

  lemma KeyedTaken(u: string, k: string, rebuild: set<string>)
    requires Names(u, k)
    ensures DefaultsTaken(EMPTY, Only(KeyedT(u, k)), rebuild)
  {
    KeyedWf(u, k);
    Columns(u, k);
    NothingStored();
    hide TableMap, ViewMap, ColumnMap, WfColumns, StoredDefault, DefaultClause, WfSnapshot, WfTable, KeyedT, Names;
  }

  lemma KeyedSides(u: string, k: string, rebuild: set<string>, units: seq<Unit>)
    requires Names(u, k) && rebuild <= TableMap(EMPTY).Keys
    ensures rebuild == {} && NoTmpIndex(EMPTY, Only(KeyedT(u, k)), rebuild) && NoActions(EMPTY, Only(KeyedT(u, k)))
    ensures Converging(EMPTY, Only(KeyedT(u, k)), rebuild) && NoStray(Only(KeyedT(u, k)), units)
  {
    KeyedWf(u, k);
    States(u, k);
    forall i | i in KeyedT(u, k).indexes ensures !IsUserIndex(i) { OnlyAuto(u, k, i); }
    hide TableMap, ViewMap, WfSnapshot, WfTable, IsUserIndex, FkStates, TmpNameOf, AllOwned, NamesOf, TakenNames, Strays, SamePk, UserIndexStates, PkColumns,
      Names, KeyedT, AutoStates, UniqueLists, HasPrimary, Unnamed;
  }

  lemma RebuiltInSource(source: Snapshot, target: Snapshot)
    requires WfPair(source, target)
    ensures RebuiltOn(source, target, PLAIN) <= TableMap(source).Keys
  {
    hide *;
    RebuildsAreCommon(source, target, PLAIN);
    RebuiltOnIs(source, target, PLAIN);
    KeysWithin(RebuiltOn(source, target, PLAIN), target, source);
  }

  lemma KeysWithin(keys: set<string>, a: Snapshot, b: Snapshot)
    requires keys <= TableMap(a).Keys * TableMap(b).Keys
    ensures keys <= TableMap(b).Keys
  {
    hide TableMap;
  }

  lemma ReportedOne(a: Snapshot, b: Snapshot, now: Snapshot, x: TableSnapshot, y: TableSnapshot, rebuild: set<string>)
    requires TableMap(a) == map[] && TableMap(b) == map["t" := x] && TableMap(now) == map["t" := y]
    requires ReportedTable(map[], map["t" := x], rebuild, "t", y)
    ensures ReportedAfter(a, b, rebuild, now)
  {
    hide TableMap, ReportedTable;
  }

  lemma KeyedNumbers(u: string, k: string)
    requires Names(u, k) && Names(k, u) && AutoName("t", 2) == k
    ensures NumberedStates(KeyedT(u, k).name, TableBodyOf(Sqlite, KeyedT(u, k))) == {(k, IndexState(true, ["a"]))} && PrimaryIndexed(TableBodyOf(Sqlite, KeyedT(u, k)))
  {
    Body(u, k);
    Numbers(TableBodyOf(Sqlite, KeyedT(u, k)), k);
    assert KeyedT(u, k).name == "t";
    hide TableBodyOf, NumberedStates, PrimaryIndexed, KeyedT;
  }

  lemma KeyedReports(u: string, k: string, rebuild: set<string>)
    requires Names(u, k) && Names(k, u) && AutoName("t", 2) == k
    ensures ReportedAfter(EMPTY, Only(KeyedT(u, k)), rebuild, Only(KeyedT(k, u)))
    ensures !AsNumbered(KeyedT(u, k))
  {
    hide *;
    KeyedWf(u, k);
    KeyedWf(k, u);
    States(u, k);
    States(k, u);
    KeyedNumbers(u, k);
    NotNumbered(KeyedT(u, k), u, k);
    NamesDiffer(u, k);
    ReportedNumbers(KeyedT(u, k), KeyedT(k, u), k, rebuild);
    ReportedOne(EMPTY, Only(KeyedT(u, k)), Only(KeyedT(k, u)), KeyedT(u, k), KeyedT(k, u), rebuild);
  }

  lemma NamesDiffer(u: string, k: string)
    ensures Names(u, k) ==> u != k
  {
  }

  lemma ReportedNumbers(x: TableSnapshot, y: TableSnapshot, k: string, rebuild: set<string>)
    requires NumberedStates(x.name, TableBodyOf(Sqlite, x)) == {(k, IndexState(true, ["a"]))} == AutoStates(y)
    requires PrimaryIndexed(TableBodyOf(Sqlite, x)) && HasPrimary(y) && Unnamed(y)
    ensures ReportedTable(map[], map["t" := x], rebuild, "t", y)
  {
    hide AutoStates, NumberedStates, PrimaryIndexed, HasPrimary, Unnamed, TableBodyOf;
  }

  lemma NotNumbered(x: TableSnapshot, u: string, k: string)
    requires NumberedStates(x.name, TableBodyOf(Sqlite, x)) == {(k, IndexState(true, ["a"]))} && AutoStates(x) == {(u, IndexState(true, ["a"]))}
    ensures u != k ==> !AsNumbered(x)
  {
    hide AutoStates, NumberedStates, PrimaryIndexed, HasPrimary, TableBodyOf;
    assert (u, IndexState(true, ["a"])) in AutoStates(x);
  }

  lemma KeyedIn(u: string, k: string)
    requires Names(u, k)
    ensures "t" in TableMap(Only(KeyedT(u, k))) && TableMap(Only(KeyedT(u, k)))["t"] == KeyedT(u, k) && "t" !in TableMap(EMPTY)
  {
    KeyedWf(u, k);
    hide TableMap, KeyedT, Names;
  }

  lemma KeyedRun(u: string, k: string)
    requires Names(u, k) && Names(k, u)
    ensures var target := Only(KeyedT(u, k));
      && IsSource(EMPTY_DB, EMPTY, target, PLAIN)
      && var g := Generate(EMPTY, target, PlanOf(EMPTY, target, PLAIN), PLAIN);
      && g.Ok?
      && var r := Run(Sqls(g.value.statements), EMPTY_DB);
      r.Some? && Realising(r.value, target, false)
  {
    hide *;
    var target := Only(KeyedT(u, k));
    KeyedPair(u, k);
    KeyedGenerates(u, k);
    EmptyIsSource(target);
    EmptyTables();
    PlainIs();
    RebuiltInSource(EMPTY, target);
    KeyedSides(u, k, RebuiltOn(EMPTY, target, PLAIN), ForwardUnits(EMPTY, target, PLAIN));
    NoViews(EMPTY_DB.views, Standing(EMPTY, target, RebuiltOn(EMPTY, target, PLAIN)));
    Unobstructed(EMPTY, target, PLAIN, EMPTY_DB);
    NoRowsFit(EMPTY, target, RebuiltOn(EMPTY, target, PLAIN), EMPTY_DB);
    KeyedTaken(u, k, RebuiltOn(EMPTY, target, PLAIN));
    NotUneven(EMPTY, target, EMPTY_DB, DropKeys(PlanOf(EMPTY, target, PLAIN)));
    ConvergesPlainly(EMPTY, target, PLAIN, EMPTY_DB);
    Converges(EMPTY, target, PLAIN, EMPTY_DB);
  }

  lemma RenumberedRun(u: string, k: string)
    requires Names(u, k) && Names(k, u) && AutoName("t", 2) == k
    ensures var target, now := Only(KeyedT(u, k)), Only(KeyedT(k, u));
      && WfPair(EMPTY, target) && WfPair(now, target) && IsSource(EMPTY_DB, EMPTY, target, PLAIN)
      && ReportedAfter(EMPTY, target, RebuiltOn(EMPTY, target, PLAIN), now)
      && var g := Generate(EMPTY, target, PlanOf(EMPTY, target, PLAIN), PLAIN);
      && g.Ok?
      && var r := Run(Sqls(g.value.statements), EMPTY_DB);
      && r.Some? && Realising(r.value, target, false) && Realising(r.value, now, false)
      && PlanOf(now, target, PLAIN) != [] && RebuiltOn(now, target, PLAIN) == {"t"}
  {
    hide *;
    var target, now := Only(KeyedT(u, k)), Only(KeyedT(k, u));
    KeyedPair(u, k);
    PairWf(now, target);
    KeyedRun(u, k);
    PlainIs();
    var end := Run(Sqls(Generate(EMPTY, target, PlanOf(EMPTY, target, PLAIN), PLAIN).value.statements), EMPTY_DB).value;
    SameDatabase(end, u, k);
    RebuiltInSource(EMPTY, target);
    KeyedSides(u, k, RebuiltOn(EMPTY, target, PLAIN), ForwardUnits(EMPTY, target, PLAIN));
    KeyedReports(u, k, RebuiltOn(EMPTY, target, PLAIN));
    RestDecides(EMPTY, target, now, PLAIN, end);
    KeyedIn(u, k);
    KeyedIn(k, u);
    Unrested(u, k, RebuiltOn(EMPTY, target, PLAIN));
    NeverAtRest(EMPTY, target, now, PLAIN, "t");
    RebuiltInSource(now, target);
    OnlyTable(u, k, RebuiltOn(now, target, PLAIN));
  }

  lemma Unrested(u: string, k: string, rebuild: set<string>)
    requires Names(u, k) && !AsNumbered(KeyedT(u, k))
    ensures !AtRest(EMPTY, Only(KeyedT(u, k)), rebuild)
  {
    KeyedIn(u, k);
    hide TableMap, AsNumbered, Unnamed, KeyedT, Names;
  }

  lemma OnlyTable(u: string, k: string, rebuild: set<string>)
    requires Names(k, u) && "t" in rebuild && rebuild <= TableMap(Only(KeyedT(k, u))).Keys
    ensures rebuild == {"t"}
  {
    KeyedWf(k, u);
    hide TableMap, KeyedT, Names;
  }

  /**
   * A table with a UNIQUE column declared before its key: the script runs and reaches the target's schema,
   * SQLite reports the indexes under exchanged numbers, and the next plan is not empty: it rebuilds the
   * table, which changes nothing, and so on for ever.
   */
  lemma AutoIndexRenumbered()
    ensures var target, now := Only(KeyedT(AUTO_1, AUTO_2)), Only(KeyedT(AUTO_2, AUTO_1));
      && WfPair(EMPTY, target) && WfPair(now, target) && IsSource(EMPTY_DB, EMPTY, target, PLAIN)
      && ReportedAfter(EMPTY, target, RebuiltOn(EMPTY, target, PLAIN), now)
      && var g := Generate(EMPTY, target, PlanOf(EMPTY, target, PLAIN), PLAIN);
      && g.Ok?
      && var r := Run(Sqls(g.value.statements), EMPTY_DB);
      && r.Some? && Realising(r.value, target, false) && Realising(r.value, now, false)
      && PlanOf(now, target, PLAIN) != [] && RebuiltOn(now, target, PLAIN) == {"t"}
  {
    hide *;
    AutoNames();
    NameTwo();
    RenumberedRun(AUTO_1, AUTO_2);
  }
}
