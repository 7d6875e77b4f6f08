/// What it means for the plan that a table needs no rebuild: keys, constraints
/// and foreign keys already agree, and only plain columns and user indexes change.
module Agreement {
  import opened Text
  import opened Sequences
  import opened Normalize
  import opened TypeNames
  import opened Snapshots
  import opened Plan
  import opened Script
  import opened Database
  import opened Locality
  import opened WellFormed
  import opened Shape

  // ---- Signatures determine column lists ----

  lemma LowerName(n: string)
    requires NameOk(n)
    ensures Lower(n) != [] && Free(Lower(n), ',') && Free(Lower(n), '/')
  {
  }

  lemma JoinLowerInjective(a: seq<string>, b: seq<string>)
    requires (forall i :: 0 <= i < |a| ==> NameOk(a[i])) && (forall i :: 0 <= i < |b| ==> NameOk(b[i]))
    requires JoinLower(a) == JoinLower(b)
    ensures LowerAll(a) == LowerAll(b)
  {
    hide Lower, NameOk, Free;
    forall i | 0 <= i < |a| ensures LowerAll(a)[i] != [] && Free(LowerAll(a)[i], ',') { LowerName(a[i]); }
    forall i | 0 <= i < |b| ensures LowerAll(b)[i] != [] && Free(LowerAll(b)[i], ',') { LowerName(b[i]); }
    JoinInjective(LowerAll(a), LowerAll(b));
  }

  /** A list of names has the signature of another list, of names without commas, exactly when one of its names has a comma. */
  lemma SignatureShared(xs: seq<string>)
    requires xs != []
    ensures (exists ys :: ys != [] && ys != xs && CommaFree(ys) && Join(ys, ",") == Join(xs, ",")) <==> !CommaFree(xs)
  {
    if CommaFree(xs) {
      forall ys | ys != [] && CommaFree(ys) && Join(ys, ",") == Join(xs, ",") ensures ys == xs { JoinDetermines(ys, xs); }
    } else {
      JoinSplit(Join(xs, ","), ',');
      var ys := Split(Join(xs, ","), ',');
      assert ys != [] && ys != xs && CommaFree(ys) && Join(ys, ",") == Join(xs, ",");
    }
  }

  lemma SigIsJoin(t: TableSnapshot, i: IndexInfo)
    requires WfIndex(t, i)
    ensures IndexSig(i) == JoinLower(IndexColumns(i))
  {
    hide Lower, NameOk, ColumnMap, Leq;
    SortAgrees(BeforeInIndex, BeforeByPosition, i.columns);
  }

  lemma SigColumns(s: TableSnapshot, t: TableSnapshot, i: IndexInfo, j: IndexInfo)
    requires WfIndex(s, i) && WfIndex(t, j) && IndexSig(i) == IndexSig(j)
    ensures LowerAll(IndexColumns(i)) == LowerAll(IndexColumns(j))
  {
    SigIsJoin(s, i);
    SigIsJoin(t, j);
    IndexColumnsKnown(s, i);
    IndexColumnsKnown(t, j);
    hide WfIndex, IndexColumns, IndexSig, JoinLower, NameOk, Lower, ColumnMap;
    JoinLowerInjective(IndexColumns(i), IndexColumns(j));
  }

  lemma FkAgrees(s: TableSnapshot, t: TableSnapshot, f: ForeignKeyInfo, g: ForeignKeyInfo)
    requires WfForeignKey(s, f) && WfForeignKey(t, g) && SameForeignKey(f, g)
    ensures FkOf(FkClauseOf(f)) == FkOf(FkClauseOf(g))
  {
    hide Lower, NameOk, JoinLower, ColumnMap;
    JoinLowerInjective(f.columns, g.columns);
    JoinLowerInjective(f.referencedColumns, g.referencedColumns);
    MainTable(f);
    MainTable(g);
  }

  lemma MainTable(f: ForeignKeyInfo)
    requires f.referencedSchema == "main"
    ensures ReferencedTable(f) == "main/" + Lower(f.referencedTable)
    ensures ReferencedTable(f)[5..] == Lower(f.referencedTable)
  {
    assert Lower("main") == "main";
    assert Trim("main") == "main" by { TrimmedEnds("main"); }
  }

  // ---- Finding the index an entry names ----

  lemma FindsIndex(t: TableSnapshot, x: IndexInfo)
    requires WfIndexes(t) && x in t.indexes
    ensures FindIndex(t, IndexObject(x)) == Some(x) && Lower(Trim(IndexObject(x))) == IndexKey(x)
  {
    assert WfIndex(t, x);
    NamedKey(t, x);
    assert Trim(x.name) == x.name;
    hide WfIndex, IndexKey, Lower, Trim, IndexObject;
    var r := FindIndex(t, x.name);
    assert x in t.indexes && IndexKey(x) == Lower(x.name);
    assert exists i :: 0 <= i < |t.indexes| && t.indexes[i] == x;
    if r.Some? {
      SameKeySameIndex(t, r.value, x);
    }
  }

  lemma SameKeySameIndex(t: TableSnapshot, x: IndexInfo, y: IndexInfo)
    requires WfIndexes(t) && x in t.indexes && y in t.indexes && IndexKey(x) == IndexKey(y)
    ensures x == y
  {
    hide WfIndex, IndexKey;
    var i :| 0 <= i < |t.indexes| && t.indexes[i] == x;
    var j :| 0 <= j < |t.indexes| && t.indexes[j] == y;
    assert !(i < j) && !(j < i);
  }

  /** An entry about index x of t forces a rebuild unless x is the user's own. */
  lemma IndexRebuild(t: TableSnapshot, x: IndexInfo)
    requires WfIndexes(t) && x in t.indexes
    ensures IndexNeedsRebuild(Some(t), IndexObject(x)) <==> !IsUserIndex(x)
  {
    hide WfIndexes, FindIndex, IsAutoIndex, IndexObject, Lower, Trim;
    FindsIndex(t, x);
  }

  // ---- Tables the plan changes in place ----

  /** No entry of the comparison forces a rebuild. */
  ghost predicate InPlace(s: TableSnapshot, t: TableSnapshot, opts: Options) {
    forall e :: e in DiffTable(Sqlite, s, t, opts) ==> !NeedsRebuild(e, Some(s), Some(t))
  }

  lemma InTable(s: TableSnapshot, t: TableSnapshot, opts: Options, e: Entry)
    ensures e in DiffTable(Sqlite, s, t, opts)
      <==> e in DiffColumns(Sqlite, t.name, s, t, opts) || e in DiffIndexes(t.name, s, t, opts) || e in DiffForeignKeys(t.name, s, t, opts)
  {
    hide DiffColumns, DiffIndexes, DiffForeignKeys;
  }

  lemma InPlaceColumns(s: TableSnapshot, t: TableSnapshot, opts: Options, k: string)
    requires InPlace(s, t, opts)
    ensures !ColumnAltered(Sqlite, s, t, opts, k)
    ensures ColumnAdded(t, s, k) && WfColumns(s) ==> !ColumnMap(s)[k].isPrimaryKey && !InSomeIndex(s, k)
  {
    hide ColumnMap, ColumnFlags, Lower, DiffColumns, DiffIndexes, DiffForeignKeys, NameOk, Trim;
    if ColumnAltered(Sqlite, s, t, opts, k) {
      var e := Mk(AlterColumn, t.name, ColumnMap(t)[k].name, opts).(flags := ColumnFlags(Sqlite, ColumnMap(s)[k], ColumnMap(t)[k], opts));
      ColumnMapKeyed(t, k);
      ColumnEntry(Sqlite, t.name, s, t, opts, e);
      InTable(s, t, opts, e);
    }
    if ColumnAdded(t, s, k) && WfColumns(s) {
      var e := Mk(DropColumn, t.name, ColumnMap(s)[k].name, opts);
      ColumnMapKeyed(s, k);
      ColumnEntry(Sqlite, t.name, s, t, opts, e);
      InTable(s, t, opts, e);
      TrimmedKey(ColumnMap(s)[k].name);
      TrimmedKey(k);
      assert NameOk(ColumnMap(s)[k].name);
      assert ColumnOf(s, k) == Some(ColumnMap(s)[k]) by { TrimLowered(ColumnMap(s)[k].name); }
    }
  }

  lemma TrimmedKey(n: string)
    ensures NameOk(n) ==> Lower(Trim(n)) == Lower(n)
  {
  }

  lemma TrimLowered(n: string)
    requires NameOk(n)
    ensures Lower(Trim(Lower(n))) == Lower(n)
  {
    TrimLower(n);
    LowerIdempotent(n);
  }

  lemma InPlaceForeignKeys(s: TableSnapshot, t: TableSnapshot, opts: Options, k: string)
    requires InPlace(s, t, opts)
    ensures !FkAdded(s, t, k) && !FkAdded(t, s, k)
  {
    hide FkMap, FkObject, SameForeignKey, DiffColumns, DiffIndexes, DiffForeignKeys;
    if FkAdded(s, t, k) {
      var e := Mk(AddForeignKey, t.name, FkObject(FkMap(t)[k]), opts);
      assert FkChange(t.name, s, t, opts, e, k);
      ForeignKeyEntry(t.name, s, t, opts, e);
      InTable(s, t, opts, e);
    }
    if FkAdded(t, s, k) {
      var e := Mk(DropForeignKey, t.name, FkObject(FkMap(s)[k]), opts);
      assert FkChange(t.name, s, t, opts, e, k);
      ForeignKeyEntry(t.name, s, t, opts, e);
      InTable(s, t, opts, e);
    }
  }

  lemma InPlacePrimary(s: TableSnapshot, t: TableSnapshot, opts: Options)
    requires InPlace(s, t, opts) && WfIndexes(s) && WfIndexes(t)
    ensures !PrimaryDiffers(s, t)
  {
    hide WfIndexes, IndexSig, IndexObject, FirstPrimary, DiffColumns, DiffSecondary, DiffForeignKeys, IndexNeedsRebuild;
    var sp, tp := FirstPrimary(s.indexes), FirstPrimary(t.indexes);
    if PrimaryDiffers(s, t) {
      if sp.Some? {
        var e := Mk(DropIndex, t.name, IndexObject(sp.value), opts);
        assert e in PrimaryEntries(t.name, sp, tp, opts);
        InTable(s, t, opts, e);
        IndexRebuild(s, sp.value);
      } else {
        var e := Mk(AddIndex, t.name, IndexObject(tp.value), opts);
        assert e in PrimaryEntries(t.name, sp, tp, opts);
        InTable(s, t, opts, e);
        IndexRebuild(t, tp.value);
      }
    }
  }

  lemma InPlaceIndexes(s: TableSnapshot, t: TableSnapshot, opts: Options, k: string)
    requires InPlace(s, t, opts) && WfIndexes(s) && WfIndexes(t)
    ensures IndexAdded(s, t, k) ==> IsUserIndex(SecondaryMap(t)[k])
    ensures IndexAdded(t, s, k) ==> IsUserIndex(SecondaryMap(s)[k])
  {
    hide WfIndexes, SameIndex, IndexObject, SecondaryMap, DiffColumns, PrimaryEntries, DiffSecondary, DiffForeignKeys,
      IndexNeedsRebuild, IsUserIndex, Lower, FirstPrimary, IndexKey;
    if IndexAdded(s, t, k) {
      SecondaryMapKeyed(t, k);
      var e := Mk(AddIndex, t.name, IndexObject(SecondaryMap(t)[k]), opts);
      KeyOfObject(SecondaryMap(t)[k]);
      SecondaryEntry(t.name, s, t, opts, e);
      InTable(s, t, opts, e);
      IndexRebuild(t, SecondaryMap(t)[k]);
    }
    if IndexAdded(t, s, k) {
      SecondaryMapKeyed(s, k);
      var e := Mk(DropIndex, t.name, IndexObject(SecondaryMap(s)[k]), opts);
      KeyOfObject(SecondaryMap(s)[k]);
      SecondaryEntry(t.name, s, t, opts, e);
      InTable(s, t, opts, e);
      IndexRebuild(s, SecondaryMap(s)[k]);
    }
  }

  lemma KeyOfObject(x: IndexInfo)
    ensures Lower(IndexObject(x)) == IndexKey(x)
  {
  }

  // ---- Keys and constraints agree ----

  lemma AutoByKey(x: IndexInfo, y: IndexInfo)
    requires NameOk(x.name) && NameOk(y.name) && IndexKey(x) == IndexKey(y)
    ensures IsAutoIndex(x.name) == IsAutoIndex(y.name)
  {
  }

  /** Every index new on the target side is the user's own. */
  ghost predicate OnlyUserIndexes(s: TableSnapshot, t: TableSnapshot) {
    forall k :: IndexAdded(s, t, k) ==> IsUserIndex(SecondaryMap(t)[k])
  }

  lemma UniqueAgrees(s: TableSnapshot, t: TableSnapshot, x: IndexInfo)
    requires OnlyUserIndexes(t, s) && WfIndexes(s) && WfIndexes(t)
    requires x in s.indexes && IsUniqueConstraint(x)
    ensures LowerAll(IndexColumns(x)) in UniqueLists(t)
  {
    hide IndexKey, SecondaryMap, IndexSig, IndexColumns, IsAutoIndex, WfIndex, Lower;
    var k := IndexKey(x);
    IndexFound(s, x);
    assert !IndexAdded(t, s, k);
    SecondaryMapKeyed(t, k);
    var y := SecondaryMap(t)[k];
    IndexNames(s, x);
    IndexNames(t, y);
    AutoByKey(x, y);
    SigColumns(s, t, x, y);
  }

  lemma IndexNames(t: TableSnapshot, x: IndexInfo)
    requires WfIndexes(t) && x in t.indexes
    ensures WfIndex(t, x) && NameOk(x.name)
  {
    hide NameOk, ColumnMap, Lower;
  }

  lemma InPlaceUniques(s: TableSnapshot, t: TableSnapshot)
    requires OnlyUserIndexes(s, t) && OnlyUserIndexes(t, s) && WfIndexes(s) && WfIndexes(t)
    ensures UniqueLists(s) == UniqueLists(t)
  {
    hide OnlyUserIndexes, IndexColumns, WfIndexes, IsUniqueConstraint, LowerAll;
    forall u | u in UniqueLists(s) ensures u in UniqueLists(t) {
      var x :| x in s.indexes && IsUniqueConstraint(x) && LowerAll(IndexColumns(x)) == u;
      UniqueAgrees(s, t, x);
    }
    forall u | u in UniqueLists(t) ensures u in UniqueLists(s) {
      var x :| x in t.indexes && IsUniqueConstraint(x) && LowerAll(IndexColumns(x)) == u;
      UniqueAgrees(t, s, x);
    }
  }

  ghost predicate SameFks(s: TableSnapshot, t: TableSnapshot) { forall k :: !FkAdded(s, t, k) }

  lemma FkFound(t: TableSnapshot, f: ForeignKeyInfo)
    requires WfForeignKeys(t) && f in t.foreignKeys
    ensures FkKey(f) in FkMap(t) && FkMap(t)[FkKey(f)] == f && WfForeignKey(t, f)
  {
    hide WfForeignKey, FkKey;
    FirstWinsFinds(t.foreignKeys, FkKey, AnyForeignKey, f);
  }

  lemma FkMapKeyed(t: TableSnapshot, k: string)
    requires k in FkMap(t)
    ensures FkMap(t)[k] in t.foreignKeys && FkKey(FkMap(t)[k]) == k
  {
    hide FkKey;
    FirstWinsKeys(t.foreignKeys, FkKey, AnyForeignKey);
  }

  lemma FkStateKept(s: TableSnapshot, t: TableSnapshot, f: ForeignKeyInfo)
    requires SameFks(s, t) && WfForeignKeys(s) && WfForeignKeys(t) && f in t.foreignKeys
    ensures FkOf(FkClauseOf(f)) in FkStates(s)
  {
    hide WfForeignKeys, FkKey, FkMap, SameForeignKey, FkOf, FkClauseOf;
    var k := FkKey(f);
    FkFound(t, f);
    assert !FkAdded(s, t, k);
    FkMapKeyed(s, k);
    FkFound(s, FkMap(s)[k]);
    FkAgrees(s, t, FkMap(s)[k], f);
  }

  lemma InPlaceFkStates(s: TableSnapshot, t: TableSnapshot)
    requires SameFks(s, t) && SameFks(t, s) && WfForeignKeys(s) && WfForeignKeys(t)
    ensures FkStates(s) == FkStates(t)
  {
    hide SameFks, WfForeignKeys, FkOf, FkClauseOf;
    forall u | u in FkStates(s) ensures u in FkStates(t) {
      var x :| x in s.foreignKeys && FkOf(FkClauseOf(x)) == u;
      FkStateKeptBack(s, t, x);
    }
    forall u | u in FkStates(t) ensures u in FkStates(s) {
      var x :| x in t.foreignKeys && FkOf(FkClauseOf(x)) == u;
      FkStateKept(s, t, x);
    }
  }

  lemma FkStateKeptBack(s: TableSnapshot, t: TableSnapshot, f: ForeignKeyInfo)
    requires SameFks(t, s) && WfForeignKeys(s) && WfForeignKeys(t) && f in s.foreignKeys
    ensures FkOf(FkClauseOf(f)) in FkStates(t)
  {
    FkStateKept(t, s, f);
  }

  /** The declared primary keys agree. The comparison only sees this through a primary index. */
  predicate SamePk(s: TableSnapshot, t: TableSnapshot) { LowerAll(PkColumns(s)) == LowerAll(PkColumns(t)) }

  lemma PrimaryIndexShows(s: TableSnapshot, t: TableSnapshot)
    requires !PrimaryDiffers(s, t) && FirstPrimary(s.indexes).Some? && WfIndexes(s) && WfIndexes(t)
    ensures SamePk(s, t)
  {
    hide WfIndexes, IndexSig, IndexColumns, FirstPrimary, WfIndex;
    var sp, tp := FirstPrimary(s.indexes), FirstPrimary(t.indexes);
    IndexNames(s, sp.value);
    IndexNames(t, tp.value);
    SigColumns(s, t, sp.value, tp.value);
    IndexColumnsKnown(s, sp.value);
    IndexColumnsKnown(t, tp.value);
  }

  /** Everything an in-place table already has in common with its target. */
  ghost predicate Agrees(s: TableSnapshot, t: TableSnapshot, opts: Options) {
    && (forall k :: !ColumnAltered(Sqlite, s, t, opts, k))
    && (forall k :: ColumnAdded(t, s, k) ==> !ColumnMap(s)[k].isPrimaryKey && !InSomeIndex(s, k))
    && UniqueLists(s) == UniqueLists(t) && FkStates(s) == FkStates(t)
    && OnlyUserIndexes(s, t) && OnlyUserIndexes(t, s)
    && (FirstPrimary(s.indexes).Some? ==> SamePk(s, t))
  }

  lemma InPlaceAgrees(s: TableSnapshot, t: TableSnapshot, opts: Options)
    requires InPlace(s, t, opts) && WfTable(s) && WfTable(t)
    ensures Agrees(s, t, opts)
  {
    hide InPlace, WfColumns, WfIndexes, WfForeignKeys, UniqueLists, FkStates, SamePk, ColumnAltered, InSomeIndex, ColumnMap, PrimaryDiffers,
      FkAdded, FirstPrimary, SameIndex, SecondaryMap, IsUserIndex;
    forall k ensures !ColumnAltered(Sqlite, s, t, opts, k) && (ColumnAdded(t, s, k) ==> !ColumnMap(s)[k].isPrimaryKey && !InSomeIndex(s, k)) {
      InPlaceColumns(s, t, opts, k);
    }
    forall k ensures !FkAdded(s, t, k) && !FkAdded(t, s, k) { InPlaceForeignKeys(s, t, opts, k); }
    forall k ensures IndexAdded(s, t, k) ==> IsUserIndex(SecondaryMap(t)[k]) { InPlaceIndexes(s, t, opts, k); }
    forall k ensures IndexAdded(t, s, k) ==> IsUserIndex(SecondaryMap(s)[k]) { InPlaceIndexes(s, t, opts, k); }
    InPlaceUniques(s, t);
    InPlaceFkStates(s, t);
    InPlacePrimary(s, t, opts);
    if FirstPrimary(s.indexes).Some? {
      PrimaryIndexShows(s, t);
    }
  }
}
