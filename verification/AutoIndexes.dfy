/// The names SQLite gives its own indexes, and what the comparison makes of them:
/// it matches indexes by name, and SQLite numbers them in the order of declaration.
module AutoIndexes {
  import opened Text
  import opened Sequences
  import opened TypeNames
  import opened Snapshots
  import opened Plan
  import opened Script
  import opened Database
  import opened WellFormed
  import opened Shape
  import opened Agreement

  // ---- The indexes of a body, numbered ----

  /** A single INTEGER column as the key is the row id, and has no index. */
  predicate RowIdKey(b: TableBody) {
    |b.pk| == 1 && exists i :: 0 <= i < |b.columns| && Lower(b.columns[i].name) == Lower(b.pk[0]) && b.columns[i].typ == "integer"
  }

  predicate PrimaryIndexed(b: TableBody) { b.pk != [] && !RowIdKey(b) }

  /** Each list where it first occurs. */
  function Once(lists: seq<seq<string>>): seq<seq<string>> {
    if lists == [] then [] else
    var init, last := Once(lists[..|lists| - 1]), lists[|lists| - 1];
    if last in init then init else init + [last]
  }

  /** The column lists SQLite makes indexes of, the primary key's first: a constraint over the same list has none of its own. */
  function AutoLists(b: TableBody): seq<seq<string>> {
    Once((if PrimaryIndexed(b) then [LowerAll(b.pk)] else []) + Map(LowerAll, b.uniques))
  }

  function AutoName(table: string, n: nat): string { "sqlite_autoindex_" + table + "_" + Decimal(n) }

  /** The UNIQUE indexes of a table made from this body, under the names SQLite gives them. */
  function NumberedStates(table: string, b: TableBody): set<(string, IndexState)> {
    var lists := AutoLists(b);
    set n | (if PrimaryIndexed(b) then 1 else 0) <= n < |lists| :: (Lower(AutoName(table, n + 1)), IndexState(true, lists[n]))
  }

  // ---- What a snapshot says ----

  /** SQLite's own indexes for UNIQUE constraints, with their names. */
  function AutoStates(t: TableSnapshot): set<(string, IndexState)> {
    set i | i in t.indexes && IsUniqueConstraint(i) :: (IndexKey(i), IndexStateOf(i))
  }

  function KeyedFks(t: TableSnapshot): set<(string, FkState)> {
    set f | f in t.foreignKeys :: (FkKey(f), FkOf(FkClauseOf(f)))
  }

  predicate Unnamed(t: TableSnapshot) { forall f :: f in t.foreignKeys ==> Trim(f.name) == "" }

  predicate HasPrimary(t: TableSnapshot) { FirstPrimary(t.indexes).Some? }

  /** The snapshot's own indexes already are the numbered ones. */
  predicate AsNumbered(t: TableSnapshot) {
    var b := TableBodyOf(Sqlite, t);
    AutoStates(t) == NumberedStates(t.name, b) && HasPrimary(t) == PrimaryIndexed(b)
  }

  /** The same names for SQLite's own indexes, and for foreign keys. */
  predicate NamedAlike(s: TableSnapshot, t: TableSnapshot) { AutoStates(s) == AutoStates(t) && KeyedFks(s) == KeyedFks(t) }

  lemma InAutos(t: TableSnapshot, x: IndexInfo)
    requires x in t.indexes && IsUniqueConstraint(x)
    ensures (IndexKey(x), IndexStateOf(x)) in AutoStates(t)
  {
    hide IndexKey, IndexStateOf, IsUniqueConstraint;
  }

  lemma OfAutos(t: TableSnapshot, p: (string, IndexState)) returns (x: IndexInfo)
    requires p in AutoStates(t)
    ensures x in t.indexes && IsUniqueConstraint(x) && p == (IndexKey(x), IndexStateOf(x))
  {
    hide IndexKey, IndexStateOf, IsUniqueConstraint;
    x :| x in t.indexes && IsUniqueConstraint(x) && p == (IndexKey(x), IndexStateOf(x));
  }

  // ---- Tables with nothing to change about them are named alike ----

  lemma AutoAgrees(s: TableSnapshot, t: TableSnapshot, x: IndexInfo)
    requires OnlyUserIndexes(t, s) && WfIndexes(s) && WfIndexes(t) && x in s.indexes && IsUniqueConstraint(x)
    ensures (IndexKey(x), IndexStateOf(x)) in AutoStates(t)
  {
    hide IndexKey, SecondaryMap, IndexSig, IndexColumns, IsAutoIndex, WfIndex, Lower, AutoStates, LowerAll;
    var k := IndexKey(x);
    IndexFound(s, x);
    assert !IndexAdded(t, s, k);
    SecondaryMapKeyed(t, k);
    var y := SecondaryMap(t)[k];
    IndexNames(s, x);
    IndexNames(t, y);
    AutoByKey(x, y);
    SigColumns(s, t, x, y);
    InAutos(t, y);
  }

  lemma AutosAgree(s: TableSnapshot, t: TableSnapshot)
    requires OnlyUserIndexes(s, t) && OnlyUserIndexes(t, s) && WfIndexes(s) && WfIndexes(t)
    ensures AutoStates(s) == AutoStates(t)
  {
    hide OnlyUserIndexes, WfIndexes, IsUniqueConstraint, AutoStates;
    forall p | p in AutoStates(s) ensures p in AutoStates(t) {
      var x := OfAutos(s, p);
      AutoAgrees(s, t, x);
    }
    forall p | p in AutoStates(t) ensures p in AutoStates(s) {
      var x := OfAutos(t, p);
      AutoAgrees(t, s, x);
    }
  }

  lemma KeyedKept(s: TableSnapshot, t: TableSnapshot, f: ForeignKeyInfo)
    requires SameFks(s, t) && WfForeignKeys(s) && WfForeignKeys(t) && f in t.foreignKeys
    ensures (FkKey(f), FkOf(FkClauseOf(f))) in KeyedFks(s)
  {
    hide WfForeignKeys, FkKey, FkMap, SameForeignKey, FkOf, FkClauseOf;
    var k := FkKey(f);
    FkFound(t, f);
    assert !FkAdded(s, t, k);
    FkMapKeyed(s, k);
    FkFound(s, FkMap(s)[k]);
    FkAgrees(s, t, FkMap(s)[k], f);
  }

  lemma KeyedAgree(s: TableSnapshot, t: TableSnapshot)
    requires SameFks(s, t) && SameFks(t, s) && WfForeignKeys(s) && WfForeignKeys(t)
    ensures KeyedFks(s) == KeyedFks(t)
  {
    hide SameFks, WfForeignKeys, FkOf, FkClauseOf, FkKey;
    forall p | p in KeyedFks(s) ensures p in KeyedFks(t) {
      var f :| f in s.foreignKeys && p == (FkKey(f), FkOf(FkClauseOf(f)));
      KeyedKept(t, s, f);
    }
    forall p | p in KeyedFks(t) ensures p in KeyedFks(s) {
      var f :| f in t.foreignKeys && p == (FkKey(f), FkOf(FkClauseOf(f)));
      KeyedKept(s, t, f);
    }
  }

  /** A table that needs no rebuild has the same own indexes, names included, and the same keyed foreign keys on both sides. */
  lemma InPlaceNames(s: TableSnapshot, t: TableSnapshot, opts: Options)
    requires InPlace(s, t, opts) && WfTable(s) && WfTable(t)
    ensures NamedAlike(s, t) && HasPrimary(s) == HasPrimary(t)
  {
    hide InPlace, WfColumns, WfIndexes, WfForeignKeys, Agrees, AutoStates, KeyedFks, FkAdded, IndexSig;
    InPlaceAgrees(s, t, opts);
    AgreesUser(s, t, opts);
    AutosAgree(s, t);
    forall k ensures !FkAdded(s, t, k) && !FkAdded(t, s, k) { InPlaceForeignKeys(s, t, opts, k); }
    KeyedAgree(s, t);
    InPlacePrimary(s, t, opts);
  }

  lemma AgreesUser(s: TableSnapshot, t: TableSnapshot, opts: Options)
    requires Agrees(s, t, opts)
    ensures OnlyUserIndexes(s, t) && OnlyUserIndexes(t, s)
  {
    hide OnlyUserIndexes, UniqueLists, FkStates, SamePk, ColumnAltered, InSomeIndex, ColumnMap, FirstPrimary;
  }

  // ---- Foreign keys are matched by content unless named ----

  lemma UnnamedKey(f: ForeignKeyInfo, g: ForeignKeyInfo)
    requires Trim(f.name) == "" && FkOf(FkClauseOf(f)) == FkOf(FkClauseOf(g))
    ensures FkKey(f) == FkKey(g) <==> Trim(g.name) == ""
  {
    assert FkKey(f)[0] == 'c';
    hide Trim;
    assert Trim(g.name) != "" ==> FkKey(g)[0] == 'n';
  }

  /** Unnamed foreign keys agree with equal ones exactly when those are unnamed too. */
  lemma UnnamedAgree(s: TableSnapshot, t: TableSnapshot)
    requires Unnamed(s) && FkStates(s) == FkStates(t)
    ensures KeyedFks(s) == KeyedFks(t) <==> Unnamed(t)
  {
    hide FkKey, FkOf, FkClauseOf, Trim;
    if Unnamed(t) {
      UnnamedWithin(s, t);
      UnnamedWithin(t, s);
    }
    if KeyedFks(s) == KeyedFks(t) {
      forall g | g in t.foreignKeys ensures Trim(g.name) == "" {
        assert (FkKey(g), FkOf(FkClauseOf(g))) in KeyedFks(t);
        var f :| f in s.foreignKeys && (FkKey(g), FkOf(FkClauseOf(g))) == (FkKey(f), FkOf(FkClauseOf(f)));
        UnnamedKey(f, g);
      }
    }
  }

  lemma UnnamedWithin(s: TableSnapshot, t: TableSnapshot)
    requires Unnamed(s) && Unnamed(t) && FkStates(s) == FkStates(t)
    ensures KeyedFks(s) <= KeyedFks(t)
  {
    hide FkKey, FkOf, FkClauseOf, Trim;
    forall p | p in KeyedFks(s) ensures p in KeyedFks(t) {
      var f :| f in s.foreignKeys && p == (FkKey(f), FkOf(FkClauseOf(f)));
      assert FkOf(FkClauseOf(f)) in FkStates(t);
      var g :| g in t.foreignKeys && FkOf(FkClauseOf(g)) == FkOf(FkClauseOf(f));
      UnnamedKey(f, g);
    }
  }
}
