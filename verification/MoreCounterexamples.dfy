/// Concrete inputs with two tables or two columns: a DROP TABLE that is refused, a default
/// on which generation panics, and an index change that goes unseen.
module MoreCounterexamples {
  import opened Text
  import opened Sequences
  import opened TypeNames
  import opened Normalize
  import opened Snapshots
  import opened Plan
  import opened PlanOrder
  import opened Mirror
  import opened Script
  import opened Database
  import opened Obstructions
  import opened Locality
  import opened Runs
  import opened WellFormed
  import opened PlanIds
  import opened Shape
  import opened Agreement
  import opened InPlaceTables
  import opened InPlaceEnd
  import opened ScriptUnits
  import opened PlanUnits
  import opened TableRuns
  import opened Convergence
  import opened Drops
  import opened Sparing
  import opened FullScript
  import opened Rollback
  import opened SyncTheorems
  import opened PlainDrops
  import opened Counterexamples

  lemma FirstWinsTwo<T>(x: T, y: T, key: T -> string, keep: T -> bool)
    requires keep(x) && keep(y) && key(x) != key(y)
    ensures FirstWins([x, y], key, keep) == map[key(x) := x, key(y) := y]
  {
    assert [x, y][..1] == [x];
    FirstWinsOne(x, key, keep);
  }

  lemma FirstWinsNone<T>(x: T, y: T, key: T -> string, keep: T -> bool)
    requires !keep(x) && !keep(y)
    ensures FirstWins([x, y], key, keep) == map[]
  {
    assert [x, y][..1] == [x];
    FirstWinsOne(x, key, keep);
  }

  // ---- A parent dropped before its child ----

  const ID := ColumnInfo("id", "integer", true, None, true, false, 1)

  const PID := ColumnInfo("pid", "integer", true, None, false, false, 1)

  const TO_A := ForeignKeyInfo("", ["pid"], "main", "a", ["id"], NoAction, NoAction)

  const A := TableSnapshot("a", BaseTable, [ID], [], [])

  const B := TableSnapshot("b", BaseTable, [PID], [], [TO_A])

  const FAMILY := Snapshot(Sqlite, [A, B])

  const FK_A := FkState(["pid"], "a", ["id"], NoAction, NoAction)

  const DEF_A := TableDef(map["id" := ColState("integer", false, None)], ["id"], {}, {}, map[])

  const DEF_B := TableDef(map["pid" := ColState("integer", false, None)], [], {}, {FK_A}, map[])

  /** One row of b refers to the one row of a. */
  const FAMILY_DB := Db(map["a" := Table(DEF_A, [map["id" := Datum("1")]]), "b" := Table(DEF_B, [map["pid" := Datum("1")]])], map[], true)

  lemma Words()
    ensures Lower("a") == "a" && Lower("b") == "b" && Lower("id") == "id" && Lower("pid") == "pid"
    ensures NameOk("a") && NameOk("b") && NameOk("id") && NameOk("pid") && !IsAutoIndex("a") && !IsAutoIndex("b")
  {
    PlainNameOk("a");
    PlainNameOk("b");
    PlainNameOk("id");
    PlainNameOk("pid");
  }

  lemma FamilyMaps()
    ensures TableMap(FAMILY) == map["a" := A, "b" := B] && ViewMap(FAMILY) == map[] && TableMap(EMPTY) == map[] && ViewMap(EMPTY) == map[]
    ensures ColumnMap(A) == map["id" := ID] && ColumnMap(B) == map["pid" := PID]
  {
    Words();
    hide Lower, NameOk, IsAutoIndex;
    FirstWinsTwo(A, B, TableKey, IsTable);
    FirstWinsNone(A, B, TableKey, IsView);
    FirstWinsOne(ID, ColumnKey, AnyColumn);
    FirstWinsOne(PID, ColumnKey, AnyColumn);
  }

  lemma FamilyFk()
    ensures WfForeignKey(B, TO_A) && FkOf(FkClauseOf(TO_A)) == FK_A
  {
    Words();
    FamilyMaps();
    assert LowerAll(["pid"]) == ["pid"] && LowerAll(["id"]) == ["id"];
    hide Lower, NameOk, IsAutoIndex, ColumnMap, TableMap, ViewMap;
  }

  lemma WfA()
    ensures WfTable(A)
  {
    Words();
    FamilyMaps();
    hide Lower, NameOk, IsAutoIndex, ColumnMap, TableMap, ViewMap, FkKey, FkObjectKey, IndexKey;
  }

  lemma WfB()
    ensures WfTable(B)
  {
    Words();
    FamilyMaps();
    FamilyFk();
    hide Lower, NameOk, IsAutoIndex, ColumnMap, TableMap, ViewMap, FkKey, FkObjectKey, IndexKey, WfForeignKey, FkOf;
  }

  lemma FamilyWf()
    ensures WfSnapshot(FAMILY) && WfSnapshot(EMPTY)
  {
    Words();
    WfA();
    WfB();
    hide WfTable, Lower, NameOk, IsAutoIndex;
  }

  lemma FamilyNames()
    ensures NamesOk(NamesOf(FAMILY, EMPTY))
  {
    hide TableMap, ViewMap, ColumnMap;
    FamilyMaps();
    assert UserIndexNames(A) == {} && UserIndexNames(B) == {};
  }

  lemma FamilyPair()
    ensures WfPair(FAMILY, EMPTY) && WfPair(EMPTY, FAMILY)
  {
    hide WfSnapshot, TableMap, ViewMap, ColumnMap, NamesOk, NamesOf, CommonColumn;
    FamilyWf();
    FamilyMaps();
    FamilyNames();
    WfPairSymmetric(FAMILY, EMPTY);
  }

  lemma KeyPk(c: ColumnInfo, t: TableSnapshot)
    requires t.columns == [c] && t.indexes == []
    ensures PkColumns(t) == if c.isPrimaryKey then [c.name] else []
  {
    assert t.columns[1..] == [];
    assert OrderedColumns(t) == [c];
    assert [c][1..] == [] && FlaggedColumns([]) == [] && [c.name] + [] == [c.name];
  }

  lemma RealisesA()
    ensures Realises(DEF_A, A, false)
  {
    Words();
    FamilyMaps();
    KeyPk(ID, A);
    assert LowerAll(["id"]) == ["id"];
    hide Lower, NameOk, IsAutoIndex, ColumnMap, TableMap, ViewMap, NormalizeType, PkColumns, SecondaryMap;
    assert SecondaryMap(A) == map[] by { NoSecondary(A); }
    assert UniqueLists(A) == {} && FkStates(A) == {};
  }

  lemma NoSecondary(t: TableSnapshot)
    requires t.indexes == []
    ensures SecondaryMap(t) == map[]
  {
  }

  lemma RealisesB()
    ensures Realises(DEF_B, B, false)
  {
    FamilyMaps();
    FamilyFk();
    KeyPk(PID, B);
    assert LowerAll([]) == [];
    hide NameOk, IsAutoIndex, ColumnMap, TableMap, ViewMap, NormalizeType, PkColumns, SecondaryMap, FkOf, FkClauseOf, WfForeignKey;
    assert SecondaryMap(B) == map[] by { NoSecondary(B); }
    assert UniqueLists(B) == {} && FkStates(B) == {FK_A};
  }

  lemma FamilyIsSource()
    ensures IsSource(FAMILY_DB, FAMILY, EMPTY, PLAIN)
  {
    FamilyMaps();
    RealisesA();
    RealisesB();
    hide Realises, TableMap, ViewMap;
    assert FAMILY_DB.tables.Keys == {"a", "b"};
  }

  lemma FamilyKeySet(k: string)
    ensures k in DropKeys(PlanOf(FAMILY, EMPTY, PLAIN)) <==> k == "a" || k == "b"
  {
    hide *;
    FamilyWf();
    FamilyMaps();
    PlanIs(FAMILY, EMPTY, PLAIN);
    DiffIsWholePlan(FAMILY, EMPTY, PLAIN);
    DropKeysAre(FAMILY, EMPTY, PLAIN, PlanOf(FAMILY, EMPTY, PLAIN), k);
  }

  lemma FamilyKeys()
    ensures DropKeys(PlanOf(FAMILY, EMPTY, PLAIN)) == ["a", "b"]
  {
    hide *;
    FamilyWf();
    var keys := DropKeys(PlanOf(FAMILY, EMPTY, PLAIN));
    FamilyKeySet("a");
    FamilyKeySet("b");
    forall n | 0 <= n < |keys| ensures keys[n] == "a" || keys[n] == "b" {
      FamilyKeySet(keys[n]);
    }
    forall i, j | 0 <= i < j < |keys| ensures Leq(keys[i], keys[j]) && keys[i] != keys[j] {
      DropsAscend(FAMILY, EMPTY, PLAIN, i, j);
    }
    TwoKeys(keys);
  }

  lemma TwoKeys(keys: seq<string>)
    requires "a" in keys && "b" in keys && forall n :: 0 <= n < |keys| ==> keys[n] == "a" || keys[n] == "b"
    requires forall i, j :: 0 <= i < j < |keys| ==> Leq(keys[i], keys[j]) && keys[i] != keys[j]
    ensures keys == ["a", "b"]
  {
    assert !Leq("b", "a");
    hide Leq;
    var i :| 0 <= i < |keys| && keys[i] == "a";
    var j :| 0 <= j < |keys| && keys[j] == "b";
    assert i < j;
    var padded := keys + ["", "", ""];
    var first, second, third := padded[0], padded[1], padded[2];
    assert third == "" || third == "a" || third == "b";
  }

  lemma FamilyHeld()
    ensures HeldAmong(FAMILY_DB.tables, ["a", "b"])
  {
    var tables := FAMILY_DB.tables - KeySet([]);
    assert tables == FAMILY_DB.tables;
    assert SameList(["id"], DEF_A.pk);
    assert PointsAt(tables, "b", 0, FK_A, 0);
    assert Holding(tables, "a");
    assert ["a", "b"][..0] == [];
  }

  /** b's row refers to a's, and that is the only reference. */
  lemma FamilyAnchored()
    ensures Anchored(AtDrops(FAMILY, EMPTY, FAMILY_DB))
  {
    FamilyMaps();
    AtDropsIs(FAMILY, EMPTY, FAMILY_DB);
    var tables := AtDrops(FAMILY, EMPTY, FAMILY_DB);
    hide TableMap, ViewMap, ColumnMap, Trimmed, AtDrops, Anchor;
    assert tables == FAMILY_DB.tables;
    forall r | r in References(tables) ensures r == Reference("b", 0, FK_A) {
      OnlyReference(r);
    }
    OnlyParent();
    assert Anchor(tables, "b", 0, FK_A, 0);
    AnchoredIs(tables);
  }

  lemma OnlyReference(r: Reference)
    requires r in References(FAMILY_DB.tables)
    ensures r == Reference("b", 0, FK_A)
  {
    InReferences(FAMILY_DB.tables, r);
    hide References;
    assert FAMILY_DB.tables.Keys == {"a", "b"} && FAMILY_DB.tables["a"].def == DEF_A && FAMILY_DB.tables["b"].def == DEF_B;
    assert |FAMILY_DB.tables["b"].rows| == 1;
  }

  lemma OnlyParent()
    ensures Anchor(FAMILY_DB.tables, "b", 0, FK_A, 0)
  {
    assert SameList(["id"], DEF_A.pk);
  }

  lemma FamilyNoActions()
    ensures NoActions(FAMILY, EMPTY)
  {
    FamilyMaps();
    hide TableMap, ViewMap, Lower, ColumnMap;
    assert A.foreignKeys == [] && B.foreignKeys == [TO_A];
  }

  lemma EmptyNoStubs(entries: seq<Entry>, forced: set<string>)
    ensures NoStubs(FAMILY, EMPTY, entries, forced)
  {
    FamilyMaps();
    hide TableMap, ViewMap, ColumnMap, Rebuilds, Lower;
  }

  lemma FamilyNoStubs(entries: seq<Entry>, forced: set<string>)
    ensures NoStubs(EMPTY, FAMILY, entries, forced)
  {
    FamilyMaps();
    NoDefault();
    hide TableMap, ViewMap, ColumnMap, Rebuilds, Lower, Trim, LiteralDefault;
    forall e, k | k in TableMap(FAMILY) ensures !Stub(e, Some(TableMap(FAMILY)[k])) {
    }
  }

  /** With a row of b referring to a row of a, both to be dropped: DROP TABLE "a" comes first and is refused. */
  lemma ParentDropRefused()
    ensures WfPair(FAMILY, EMPTY) && IsSource(FAMILY_DB, FAMILY, EMPTY, PLAIN)
    ensures DefaultsTaken(FAMILY, EMPTY, RebuiltOn(FAMILY, EMPTY, PLAIN)) && DataFits(FAMILY, EMPTY, RebuiltOn(FAMILY, EMPTY, PLAIN), FAMILY_DB)
    ensures var g := Generate(FAMILY, EMPTY, PlanOf(FAMILY, EMPTY, PLAIN), PLAIN);
      g.Ok? && Run(Sqls(g.value.statements), FAMILY_DB).None?
  {
    hide *;
    FamilyPair();
    FamilyIsSource();
    FamilyNoActions();
    FamilyKeys();
    FamilyHeld();
    Enforcing();
    EmptyNoStubs(PlanOf(FAMILY, EMPTY, PLAIN), {});
    FamilyNoStubs(PlanOf(EMPTY, FAMILY, PLAIN), Rebuilds(FAMILY, EMPTY, PlanOf(FAMILY, EMPTY, PLAIN), {}));
    BothWaysIs(FAMILY, EMPTY, PlanOf(FAMILY, EMPTY, PLAIN), PlanOf(EMPTY, FAMILY, PLAIN));
    Converges(FAMILY, EMPTY, PLAIN, FAMILY_DB);
    RebuildsAreCommon(FAMILY, EMPTY, PLAIN);
    RebuiltOnIs(FAMILY, EMPTY, PLAIN);
    FamilyMaps();
    NothingCommon(RebuiltOn(FAMILY, EMPTY, PLAIN));
    FamilyAnchored();
    RefusedPlainly(FAMILY, EMPTY, PLAIN, FAMILY_DB);
    ConvergesPlainly(FAMILY, EMPTY, PLAIN, FAMILY_DB);
    DropFits(RebuiltOn(FAMILY, EMPTY, PLAIN));
  }

  lemma Enforcing()
    ensures FAMILY_DB.enforce
  {
  }

  lemma NothingCommon(rebuild: set<string>)
    requires rebuild <= TableMap(EMPTY).Keys * TableMap(FAMILY).Keys && TableMap(EMPTY) == map[]
    ensures rebuild == {}
  {
    hide TableMap;
  }

  lemma DropFits(rebuild: set<string>)
    ensures DefaultsTaken(FAMILY, EMPTY, rebuild) && DataFits(FAMILY, EMPTY, rebuild, FAMILY_DB)
  {
    FamilyMaps();
    hide TableMap, ViewMap, ColumnMap, RebuildData, InPlaceData, DefaultsOk, AddedDefaultsOk;
  }

  // ---- A dangling reference that hides a holding one ----

  const INTO_B := FkState(["y"], "b", ["id"], NoAction, NoAction)

  const INTO_A := FkState(["y"], "a", ["id"], NoAction, NoAction)

  function Pointing(f: FkState): TableDef {
    TableDef(map["id" := ColState("text", true, None), "y" := ColState("text", false, None)], ["id"], {}, {f}, map[])
  }

  const FIRST_B := map["id" := Datum("3"), "y" := Null]

  const SECOND_B := map["id" := Datum("4"), "y" := Datum("9")]

  const ROW_A := map["id" := Datum("1"), "y" := Datum("3")]

  /** a's row refers to b's first; b's second row refers to a row of a that is not there. */
  const TANGLE := map["a" := Table(Pointing(INTO_B), [ROW_A]), "b" := Table(Pointing(INTO_A), [FIRST_B, SECOND_B])]

  lemma TangleKeys()
    ensures IsKey(Pointing(INTO_A), ["id"]) && IsKey(Pointing(INTO_B), ["id"])
  {
    assert SameList(["id"], ["id"]);
  }

  lemma TanglePoints(t: string, i: nat, f: FkState, j: nat)
    ensures PointsAt(TANGLE, t, i, f, j) <==> t == "a" && i == 0 && f == INTO_B && j == 0
  {
    TangleKeys();
    hide IsKey;
    assert TANGLE.Keys == {"a", "b"};
    assert Refers(ROW_A, INTO_B, FIRST_B);
    assert "3"[0] != "4"[0] && "9"[0] != "1"[0];
    assert INTO_B.columns[0] == "y" && INTO_B.refColumns[0] == "id" && INTO_A.columns[0] == "y" && INTO_A.refColumns[0] == "id";
    assert Get(ROW_A, "y") != Get(SECOND_B, "id") && Get(FIRST_B, "y") == Null && Get(SECOND_B, "y") != Get(ROW_A, "id");
    assert !Refers(ROW_A, INTO_B, SECOND_B) && !Refers(FIRST_B, INTO_A, ROW_A) && !Refers(SECOND_B, INTO_A, ROW_A);
  }

  lemma TangleFull()
    ensures !Full(FIRST_B, INTO_A) && Full(SECOND_B, INTO_A)
  {
    assert INTO_A.columns == ["y"] && Get(FIRST_B, INTO_A.columns[0]) == Null;
  }

  lemma TangleSets()
    ensures Orphaned(TANGLE, "b", 0) == {Reference("a", 0, INTO_B)} && Orphaned(TANGLE, "b", 1) == {}
    ensures Astrays(TANGLE, "b", 0) == {} && Astrays(TANGLE, "b", 1) == {INTO_A}
    ensures Adrift(TANGLE, "b", 0) == {} && Adrift(TANGLE, "b", 1) == {}
  {
    TangleKeys();
    forall t, i: nat, f, j: nat ensures PointsAt(TANGLE, t, i, f, j) <==> t == "a" && i == 0 && f == INTO_B && j == 0 { TanglePoints(t, i, f, j); }
    InReferences(TANGLE, Reference("a", 0, INTO_B));
    hide PointsAt, IsKey, References;
    assert TANGLE["b"].def.fks == {INTO_A} && INTO_A.refTable == "a";
    TangleFull();
  }

  /** The table is still referred to, and the count comes out even: DROP TABLE "b" is not refused. */
  lemma DanglingCancels()
    ensures Inert(TANGLE, {"b"}) && Holding(TANGLE, "b") && ImplicitDelete(TANGLE, "b").Some?
  {
    TangleSets();
    assert PointsAt(TANGLE, "a", 0, INTO_B, 0) by { TanglePoints("a", 0, INTO_B, 0); }
    forall i: nat, r: Reference ensures !(Orphans(TANGLE, "b", i, r) && r.fk.onDelete == Restrict) {
      TanglePoints(r.table, r.row, r.fk, i);
    }
    hide PointsAt, Orphans, Orphaned, Astrays, Adrift;
    TangleCount();
    assert TANGLE["a"].def.fks == {INTO_B} && TANGLE["b"].def.fks == {INTO_A};
  }

  lemma TangleCount()
    ensures |TANGLE["b"].rows| == 2 && Violations(TANGLE, "b", 2) == 0
  {
    TangleSets();
    hide Orphaned, Astrays, Adrift;
    assert Violations(TANGLE, "b", 0) == 0;
    assert Violations(TANGLE, "b", 1) == CountAfter(TANGLE, "b", 0, 0) == 1;
    assert Violations(TANGLE, "b", 2) == CountAfter(TANGLE, "b", 1, 1);
  }

  // ---- A default on which generation panics ----

  const FIRST := ColumnInfo("a", "integer", true, None, false, false, 1)

  const STUB := ColumnInfo("b", "blob", true, Some("x'"), false, false, 2)

  const NARROW := TableSnapshot("t", BaseTable, [FIRST], [], [])

  const WIDE := TableSnapshot("t", BaseTable, [FIRST, STUB], [], [])

  lemma WideWords()
    ensures NameOk("a") && NameOk("b") && NameOk("t") && Lower("t") == "t" && !IsAutoIndex("t") && Lower("b") == "b" && Lower("a") == "a" && Trim("b") == "b"
  {
    PlainNameOk("a");
    PlainNameOk("b");
    PlainNameOk("t");
    NameTrimmed("b");
  }

  lemma WideColumnMaps()
    ensures ColumnMap(NARROW) == map["a" := FIRST] && ColumnMap(WIDE) == map["a" := FIRST, "b" := STUB]
    ensures WfColumns(NARROW) && WfColumns(WIDE)
  {
    hide Lower, NameOk, IsAutoIndex, Trim;
    WideWords();
    FirstWinsOne(FIRST, ColumnKey, AnyColumn);
    FirstWinsTwo(FIRST, STUB, ColumnKey, AnyColumn);
  }

  lemma WideMaps()
    ensures TableMap(Only(NARROW)) == map["t" := NARROW] && TableMap(Only(WIDE)) == map["t" := WIDE]
    ensures ViewMap(Only(NARROW)) == map[] && ViewMap(Only(WIDE)) == map[]
    ensures ColumnMap(NARROW) == map["a" := FIRST] && ColumnMap(WIDE) == map["a" := FIRST, "b" := STUB]
    ensures WfColumns(NARROW) && WfColumns(WIDE) && NameOk("t") && Lower("t") == "t" && !IsAutoIndex("t") && Lower("b") == "b" && Lower("a") == "a" && Trim("b") == "b"
  {
    hide Lower, NameOk, IsAutoIndex, TableMap, ViewMap, ColumnMap, WfColumns, Trim;
    WideWords();
    WideColumnMaps();
    MapsOfOne(NARROW);
    MapsOfOne(WIDE);
  }

  lemma NameTrimmed(n: string)
    ensures NameOk(n) ==> Trim(n) == n
  {
  }

  lemma WideWf()
    ensures WfSnapshot(Only(NARROW)) && WfSnapshot(Only(WIDE))
  {
    WideMaps();
    hide Lower, NameOk, IsAutoIndex, ColumnMap, TableMap, ViewMap, WfColumns, IndexKey, FkKey, FkObjectKey;
    assert WfTable(NARROW) && WfTable(WIDE);
  }

  lemma WidePair()
    ensures WfPair(Only(NARROW), Only(WIDE))
  {
    WideMaps();
    WideWf();
    assert UserIndexNames(NARROW) == {} && UserIndexNames(WIDE) == {};
    hide WfSnapshot, TableMap, ViewMap, ColumnMap, UserIndexNames, WfColumns;
    assert "a" in ColumnMap(NARROW) && "a" in ColumnMap(WIDE);
  }

  function AddB(): Entry { Mk(AddColumn, "t", "b", PLAIN) }

  lemma WideColumns(e: Entry)
    ensures e in DiffColumns(Sqlite, "t", NARROW, WIDE, PLAIN) <==> e == AddB()
  {
    hide ColumnMap, TableMap, ViewMap, WfColumns, Lower, NameOk, IsAutoIndex, ColumnFlags, DiffColumns;
    WideMaps();
    ColumnEntry(Sqlite, "t", NARROW, WIDE, PLAIN, e);
    FirstUnchanged();
  }

  lemma FirstUnchanged()
    ensures ColumnFlags(Sqlite, FIRST, FIRST, PLAIN) == []
  {
  }

  lemma WideEntries(e: Entry)
    ensures e in DiffTable(Sqlite, NARROW, WIDE, PLAIN) <==> e == AddB()
  {
    InTable(NARROW, WIDE, PLAIN, e);
    WideColumns(e);
    SecondaryEntry("t", NARROW, WIDE, PLAIN, e);
    ForeignKeyEntry("t", NARROW, WIDE, PLAIN, e);
    NoSecondary(NARROW);
    NoSecondary(WIDE);
    NoKeys(NARROW);
    NoKeys(WIDE);
    assert FirstPrimary([]).None?;
    hide SecondaryMap, FkMap, DiffColumns, DiffSecondary, DiffForeignKeys, Lower, FirstPrimary;
  }

  lemma NoKeys(t: TableSnapshot)
    requires t.foreignKeys == []
    ensures FkMap(t) == map[]
  {
  }

  lemma WideFrom(e: Entry)
    ensures FromPlan(Sqlite, map["t" := NARROW], map["t" := WIDE], PLAIN, e) <==> e == AddB()
  {
    hide DiffTable, Lower, NameOk, IsAutoIndex, ColumnMap, TableMap, ViewMap, WfColumns;
    WideMaps();
    WideEntries(e);
  }

  lemma WidePlan(e: Entry)
    ensures e in PlanOf(Only(NARROW), Only(WIDE), PLAIN) <==> e == AddB()
  {
    hide *;
    WidePair();
    PairWf(Only(NARROW), Only(WIDE));
    PlanIs(Only(NARROW), Only(WIDE), PLAIN);
    PlanEntries(Only(NARROW), Only(WIDE), PLAIN, e);
    WideMaps();
    WideFrom(e);
  }

  lemma WideDirect()
    ensures AddB() in PlanOf(Only(NARROW), Only(WIDE), PLAIN)
    ensures Rebuilds(Only(NARROW), Only(WIDE), PlanOf(Only(NARROW), Only(WIDE), PLAIN), {}) == {}
  {
    WidePlan(AddB());
    hide PlanOf, TableMap, Lower, CyclicSet, TakenNames;
    forall e | e in PlanOf(Only(NARROW), Only(WIDE), PLAIN) ensures e == AddB() { WidePlan(e); }
  }

  lemma WideStub()
    ensures Stub(AddB(), Some(WIDE)) && Lower(AddB().table) == "t"
  {
    WideMaps();
    hide ColumnMap, TableMap, ViewMap, WfColumns, NameOk, IsAutoIndex, Lower, Trim, StubDefault;
    StubText();
  }

  lemma StubText()
    ensures StubDefault(Some("x'"))
  {
    var d := "x'";
    TrimmedEnds(d);
    hide Trim, Fold, Lower;
    FoldTwo();
    assert |Lower(d)| == 2;
  }

  lemma FoldTwo()
    ensures Fold("x'") == "x'"
  {
    FoldFixed("x'");
  }

  /** Adding a column with the default x' makes generation panic: SQLite reports no such text, a snapshot written by hand may have it. */
  lemma StubPanicked()
    ensures WfPair(Only(NARROW), Only(WIDE)) && Generate(Only(NARROW), Only(WIDE), PlanOf(Only(NARROW), Only(WIDE), PLAIN), PLAIN) == Panic
  {
    hide *;
    var source, target := Only(NARROW), Only(WIDE);
    WidePair();
    WideDirect();
    WideStub();
    WideMaps();
    Stubbed(source, target, PlanOf(source, target, PLAIN));
    BothWaysIs(source, target, PlanOf(source, target, PLAIN), PlanOf(target, source, PLAIN));
    GenerateWhole(source, target, PLAIN);
  }

  lemma Stubbed(source: Snapshot, target: Snapshot, entries: seq<Entry>)
    requires AddB() in entries && Rebuilds(source, target, entries, {}) == {} && TableMap(target) == map["t" := WIDE]
    requires Stub(AddB(), Some(WIDE)) && Lower(AddB().table) == "t"
    ensures !NoStubs(source, target, entries, {})
  {
    hide Stub, Lower, Rebuilds, TableMap;
    assert Stub(AddB(), Lookup(TableMap(target), Lower(AddB().table)));
  }

  // ---- Names with commas ----

  const COMMA_COLUMN := ColumnInfo("a,b", "integer", true, None, false, false, 3)

  const SECOND := ColumnInfo("b", "integer", true, None, false, false, 2)

  const ONE_COMMA := IndexInfo("i", false, false, [IndexColumn("a,b", 1)])

  const TWO_PLAIN := IndexInfo("i", false, false, [IndexColumn("a", 1), IndexColumn("b", 2)])

  function CommaT(idx: IndexInfo): TableSnapshot { TableSnapshot("t", BaseTable, [FIRST, SECOND, COMMA_COLUMN], [idx], []) }

  lemma CommaSigs()
    ensures IndexSig(ONE_COMMA) == IndexSig(TWO_PLAIN) == "a,b" && ONE_COMMA.columns != TWO_PLAIN.columns
  {
    var x, y, z := IndexColumn("a,b", 1), IndexColumn("a", 1), IndexColumn("b", 2);
    assert ONE_COMMA.columns[1..] == [];
    assert TWO_PLAIN.columns[1..] == [z] && [z][1..] == [];
    assert SortBy(BeforeInIndex, [x]) == [x];
    assert SortBy(BeforeInIndex, [z]) == [z];
    assert SortBy(BeforeInIndex, [y, z]) == [y, z];
    assert ColumnNames([x]) == ["a,b"] && ColumnNames([y, z]) == ["a", "b"];
    CommaNames();
  }

  lemma CommaNames()
    ensures JoinLower(["a,b"]) == "a,b" && JoinLower(["a", "b"]) == "a,b"
  {
    assert Lower("a,b") == "a,b" && Lower("a") == "a" && Lower("b") == "b";
    assert LowerAll(["a,b"]) == ["a,b"] && LowerAll(["a", "b"]) == ["a", "b"];
    assert ["a", "b"][1..] == ["b"];
    assert Join(["b"], ",") == "b";
    assert "a" + "," + "b" == "a,b";
  }

  lemma CommaSecondary(idx: IndexInfo)
    requires idx.name == "i" && !idx.primary
    ensures SecondaryMap(CommaT(idx)) == map[IndexKey(idx) := idx] && IndexKey(idx) == IndexKey(ONE_COMMA)
    ensures FirstPrimary(CommaT(idx).indexes).None? && FkMap(CommaT(idx)) == map[]
  {
    var s := "i";
    PlainNameOk("i");
    assert Trim("i") == "i" by { NameTrimmed("i"); }
    hide Lower, NameOk, IsAutoIndex, Trim;
    FirstWinsOne(idx, IndexKey, IsSecondary);
    assert CommaT(idx).indexes[1..] == [];
    assert FirstPrimary([]).None?;
  }

  lemma CommaIndexes(e: Entry)
    ensures e !in DiffSecondary("t", CommaT(ONE_COMMA), CommaT(TWO_PLAIN), PLAIN)
  {
    hide SecondaryMap, FkMap, IndexSig, IndexKey, DiffSecondary, FirstPrimary, Lower;
    CommaSigs();
    CommaSecondary(ONE_COMMA);
    CommaSecondary(TWO_PLAIN);
    SecondaryEntry("t", CommaT(ONE_COMMA), CommaT(TWO_PLAIN), PLAIN, e);
  }

  lemma CommaUnchanged(e: Entry)
    ensures e !in DiffTable(Sqlite, CommaT(ONE_COMMA), CommaT(TWO_PLAIN), PLAIN)
  {
    hide SecondaryMap, FkMap, IndexSig, IndexKey, DiffColumns, DiffSecondary, DiffForeignKeys, FirstPrimary, Lower, ColumnMap;
    var s, t := CommaT(ONE_COMMA), CommaT(TWO_PLAIN);
    CommaSecondary(ONE_COMMA);
    CommaSecondary(TWO_PLAIN);
    InTable(s, t, PLAIN, e);
    CommaIndexes(e);
    ForeignKeyEntry("t", s, t, PLAIN, e);
    SameColumnsNoEntry(s, t, e);
    assert s.name == t.name == "t";
  }

  lemma SameColumnsNoEntry(s: TableSnapshot, t: TableSnapshot, e: Entry)
    requires s.columns == t.columns
    ensures e !in DiffColumns(Sqlite, "t", s, t, PLAIN)
  {
    ColumnEntry(Sqlite, "t", s, t, PLAIN, e);
    assert ColumnMap(s) == ColumnMap(t);
    hide ColumnMap, NormalizeType, NormalizeDefault, Lower, DiffColumns;
  }

  lemma CommaMaps()
    ensures TableMap(Only(CommaT(ONE_COMMA))) == map["t" := CommaT(ONE_COMMA)] && TableMap(Only(CommaT(TWO_PLAIN))) == map["t" := CommaT(TWO_PLAIN)]
  {
    PlainNameOk("t");
    hide Lower, NameOk, IsAutoIndex;
    MapsOfOne(CommaT(ONE_COMMA));
    MapsOfOne(CommaT(TWO_PLAIN));
  }

  lemma CommaNoDiff()
    ensures DiffTable(Sqlite, CommaT(ONE_COMMA), CommaT(TWO_PLAIN), PLAIN) == []
  {
    hide DiffTable;
    forall x ensures x !in DiffTable(Sqlite, CommaT(ONE_COMMA), CommaT(TWO_PLAIN), PLAIN) { CommaUnchanged(x); }
    NoEntries(DiffTable(Sqlite, CommaT(ONE_COMMA), CommaT(TWO_PLAIN), PLAIN));
  }

  lemma CommaComparable()
    ensures var source, target := Only(CommaT(ONE_COMMA)), Only(CommaT(TWO_PLAIN));
      Comparable(source, target) && source.kind == Sqlite && Diff(source, target, PLAIN) == Ok(PlanOf(source, target, PLAIN))
    ensures ONE_COMMA.columns != TWO_PLAIN.columns
  {
    hide Collected, OrderEntries, TableMap;
  }

  /** An index on the column "a,b" and one on "a" and "b" have the same signature: the change is not seen. */
  lemma CommaUnseen()
    ensures var source, target := Only(CommaT(ONE_COMMA)), Only(CommaT(TWO_PLAIN));
      ONE_COMMA.columns != TWO_PLAIN.columns && PlanOf(source, target, PLAIN) == []
  {
    hide *;
    var source, target := Only(CommaT(ONE_COMMA)), Only(CommaT(TWO_PLAIN));
    CommaComparable();
    CommaMaps();
    CommaNoDiff();
    forall e ensures e !in PlanOf(source, target, PLAIN) {
      PlanEntries(source, target, PLAIN, e);
      NotFromPlan(TableMap(source), TableMap(target), e);
    }
    NoEntries(PlanOf(source, target, PLAIN));
  }
}
