/// Between well-formed snapshots no two entries of a plan share an id.
module PlanIds {
  import opened Text
  import opened Sequences
  import opened TypeNames
  import opened Snapshots
  import opened Plan
  import opened PlanOrder
  import opened Mirror
  import opened Script
  import opened WellFormed

  predicate DistinctTags(entries: seq<Entry>) { NoRepeats(Map(TagOf, entries)) }

  lemma TagsConcat(a: seq<Entry>, b: seq<Entry>)
    requires DistinctTags(a) && DistinctTags(b)
    requires forall x, y :: x in a && y in b ==> TagOf(x) != TagOf(y)
    ensures DistinctTags(a + b)
  {
    hide NoRepeats, TagOf;
    MapConcat(TagOf, a, b);
    ConcatNoRepeats(Map(TagOf, a), Map(TagOf, b));
    forall u | u in Map(TagOf, a) ensures u !in Map(TagOf, b) {
      var i :| 0 <= i < |a| && TagOf(a[i]) == u;
      assert forall j :: 0 <= j < |b| ==> b[j] in b;
      assert a[i] in a;
    }
  }

  lemma OneTag(e: Entry)
    ensures DistinctTags([e])
  {
  }

  lemma TwoTags(a: Entry, b: Entry)
    requires a.op != b.op
    ensures DistinctTags([a, b])
  {
  }

  lemma ColumnTags(kind: DatabaseKind, table: string, s: TableSnapshot, t: TableSnapshot, opts: Options)
    ensures DistinctTags(DiffColumns(kind, table, s, t, opts))
  {
    hide Pairing, ColumnMap, ColumnFlags, Lower, ColumnChange, Piece, Map, NoRepeats;
    var sc, tc := ColumnMap(s), ColumnMap(t);
    var both, add, drop := ColumnBoth(kind, table, sc, tc, opts), ColumnPart(AddColumn, table, tc, opts), ColumnPart(DropColumn, table, sc, opts);
    forall k ensures DistinctTags(Piece(sc.Keys, tc.Keys, both, add, drop, k)) {
      ColumnPieceTags(kind, table, s, t, opts, k);
    }
    forall k, l, x, y | k != l && x in Piece(sc.Keys, tc.Keys, both, add, drop, k) && y in Piece(sc.Keys, tc.Keys, both, add, drop, l)
      ensures TagOf(x) != TagOf(y)
    {
      ColumnPiece(kind, table, s, t, opts, x, k);
      ColumnPiece(kind, table, s, t, opts, y, l);
    }
    PairingDistinct(TagOf, sc.Keys, tc.Keys, both, add, drop);
  }

  lemma ColumnPieceTags(kind: DatabaseKind, table: string, s: TableSnapshot, t: TableSnapshot, opts: Options, k: string)
    ensures var sc, tc := ColumnMap(s), ColumnMap(t);
      DistinctTags(Piece(sc.Keys, tc.Keys, ColumnBoth(kind, table, sc, tc, opts), ColumnPart(AddColumn, table, tc, opts),
                         ColumnPart(DropColumn, table, sc, opts), k))
  {
    hide ColumnMap, ColumnFlags, Lower, Mk;
    var sc, tc := ColumnMap(s), ColumnMap(t);
    var p := Piece(sc.Keys, tc.Keys, ColumnBoth(kind, table, sc, tc, opts), ColumnPart(AddColumn, table, tc, opts),
                         ColumnPart(DropColumn, table, sc, opts), k);
    assert |p| <= 1;
  }

  lemma SecondaryTags(table: string, s: TableSnapshot, t: TableSnapshot, opts: Options)
    ensures DistinctTags(DiffSecondary(table, s, t, opts))
  {
    hide Pairing, SecondaryMap, Lower, IndexChange, Piece, Map, NoRepeats;
    var si, ti := SecondaryMap(s), SecondaryMap(t);
    var both, add, drop := IndexBoth(table, si, ti, opts), IndexPart(AddIndex, table, ti, opts), IndexPart(DropIndex, table, si, opts);
    forall k ensures DistinctTags(Piece(si.Keys, ti.Keys, both, add, drop, k)) {
      IndexPieceTags(table, s, t, opts, k);
    }
    forall k, l, x, y | k != l && x in Piece(si.Keys, ti.Keys, both, add, drop, k) && y in Piece(si.Keys, ti.Keys, both, add, drop, l)
      ensures TagOf(x) != TagOf(y)
    {
      IndexPiece(table, s, t, opts, x, k);
      IndexPiece(table, s, t, opts, y, l);
    }
    PairingDistinct(TagOf, si.Keys, ti.Keys, both, add, drop);
  }

  lemma IndexPieceTags(table: string, s: TableSnapshot, t: TableSnapshot, opts: Options, k: string)
    ensures var si, ti := SecondaryMap(s), SecondaryMap(t);
      DistinctTags(Piece(si.Keys, ti.Keys, IndexBoth(table, si, ti, opts), IndexPart(AddIndex, table, ti, opts),
                         IndexPart(DropIndex, table, si, opts), k))
  {
    hide SecondaryMap, IndexSig, IndexObject, Lower, Map, NoRepeats;
    var si, ti := SecondaryMap(s), SecondaryMap(t);
    var p := Piece(si.Keys, ti.Keys, IndexBoth(table, si, ti, opts), IndexPart(AddIndex, table, ti, opts),
                   IndexPart(DropIndex, table, si, opts), k);
    if |p| == 1 {
      OneTag(p[0]);
    } else if |p| == 2 {
      TwoTags(p[0], p[1]);
    } else {
      assert p == [];
      assert NoRepeats(Map(TagOf, p)) by { EmptyTags(); }
    }
  }

  lemma EmptyTags()
    ensures DistinctTags([])
  {
  }

  lemma FkTags(table: string, s: TableSnapshot, t: TableSnapshot, opts: Options)
    requires WfForeignKeys(s) && WfForeignKeys(t)
    ensures DistinctTags(DiffForeignKeys(table, s, t, opts))
  {
    hide Pairing, FkMap, Lower, FkObject, Piece, Map, NoRepeats, FkChange, WfForeignKeys;
    var sf, tf := FkMap(s), FkMap(t);
    var both, add, drop := FkBoth(table, sf, tf, opts), FkPart(AddForeignKey, table, tf, opts), FkPart(DropForeignKey, table, sf, opts);
    forall k ensures DistinctTags(Piece(sf.Keys, tf.Keys, both, add, drop, k)) {
      FkPieceTags(table, s, t, opts, k);
    }
    forall k, l, x, y | k != l && x in Piece(sf.Keys, tf.Keys, both, add, drop, k) && y in Piece(sf.Keys, tf.Keys, both, add, drop, l)
      ensures TagOf(x) != TagOf(y)
    {
      FkPiece(table, s, t, opts, x, k);
      FkPiece(table, s, t, opts, y, l);
      FkObjectsDiffer(table, s, t, opts, x, y, k, l);
    }
    PairingDistinct(TagOf, sf.Keys, tf.Keys, both, add, drop);
  }

  lemma FkObjectsDiffer(table: string, s: TableSnapshot, t: TableSnapshot, opts: Options, x: Entry, y: Entry, k: string, l: string)
    requires WfForeignKeys(s) && WfForeignKeys(t) && k != l
    requires FkChange(table, s, t, opts, x, k) && FkChange(table, s, t, opts, y, l)
    ensures TagOf(x) != TagOf(y)
  {
    hide FkMap, FkObject, SameForeignKey, WfForeignKey, Lower, FkKey;
    if x.op == AddForeignKey && y.op == AddForeignKey {
      FkObjectDistinct(t, k, l);
    }
    if x.op == DropForeignKey && y.op == DropForeignKey {
      FkObjectDistinct(s, k, l);
    }
  }

  lemma FkObjectDistinct(t: TableSnapshot, k: string, l: string)
    requires WfForeignKeys(t) && k in FkMap(t) && l in FkMap(t) && k != l
    ensures Lower(FkObject(FkMap(t)[k])) != Lower(FkObject(FkMap(t)[l]))
  {
    hide FkObject, Lower, WfForeignKey, FkKey;
    FirstWinsKeys(t.foreignKeys, FkKey, AnyForeignKey);
    var f, g := FkMap(t)[k], FkMap(t)[l];
    assert f != g;
    var i :| 0 <= i < |t.foreignKeys| && t.foreignKeys[i] == f;
    var j :| 0 <= j < |t.foreignKeys| && t.foreignKeys[j] == g;
    assert FkObjectKey(f) != FkObjectKey(g);
  }

  lemma FkPieceTags(table: string, s: TableSnapshot, t: TableSnapshot, opts: Options, k: string)
    ensures var sf, tf := FkMap(s), FkMap(t);
      DistinctTags(Piece(sf.Keys, tf.Keys, FkBoth(table, sf, tf, opts), FkPart(AddForeignKey, table, tf, opts),
                         FkPart(DropForeignKey, table, sf, opts), k))
  {
    hide FkMap, FkObject, SameForeignKey, Lower, Map, NoRepeats;
    var sf, tf := FkMap(s), FkMap(t);
    var p := Piece(sf.Keys, tf.Keys, FkBoth(table, sf, tf, opts), FkPart(AddForeignKey, table, tf, opts),
                   FkPart(DropForeignKey, table, sf, opts), k);
    if |p| == 1 {
      OneTag(p[0]);
    } else if |p| == 2 {
      TwoTags(p[0], p[1]);
    } else {
      assert p == [];
      EmptyTags();
    }
  }

  /** Primary and secondary indexes never share an object on one side. */
  lemma IndexTags(table: string, s: TableSnapshot, t: TableSnapshot, opts: Options)
    requires WfIndexes(s) && WfIndexes(t)
    ensures DistinctTags(DiffIndexes(table, s, t, opts))
  {
    hide DiffSecondary, PrimaryEntries, FirstPrimary, WfIndexes;
    SecondaryTags(table, s, t, opts);
    var sp, tp := FirstPrimary(s.indexes), FirstPrimary(t.indexes);
    PrimaryTags(table, s, t, opts);
    forall x, y | x in PrimaryEntries(table, sp, tp, opts) && y in DiffSecondary(table, s, t, opts) ensures TagOf(x) != TagOf(y) {
      SecondaryEntry(table, s, t, opts, y);
      PrimaryApart(table, s, t, opts, x, y);
    }
    TagsConcat(PrimaryEntries(table, sp, tp, opts), DiffSecondary(table, s, t, opts));
  }

  lemma PrimaryTags(table: string, s: TableSnapshot, t: TableSnapshot, opts: Options)
    ensures DistinctTags(PrimaryEntries(table, FirstPrimary(s.indexes), FirstPrimary(t.indexes), opts))
  {
    hide FirstPrimary, IndexSig, IndexObject, Map, NoRepeats;
    var p := PrimaryEntries(table, FirstPrimary(s.indexes), FirstPrimary(t.indexes), opts);
    if |p| == 1 {
      OneTag(p[0]);
      assert p == [p[0]];
    } else if |p| == 2 {
      TwoTags(p[0], p[1]);
      assert p == [p[0], p[1]];
    } else {
      assert p == [];
      EmptyTags();
    }
  }

  lemma PrimaryApart(table: string, s: TableSnapshot, t: TableSnapshot, opts: Options, x: Entry, y: Entry)
    requires WfIndexes(s) && WfIndexes(t)
    requires x in PrimaryEntries(table, FirstPrimary(s.indexes), FirstPrimary(t.indexes), opts)
    requires IndexChange(table, s, t, opts, y, Lower(y.obj))
    ensures TagOf(x) != TagOf(y)
  {
    hide IndexSig, IndexObject, SecondaryMap, WfIndexes, FirstPrimary, Lower;
    if x.op == y.op == AddIndex {
      PrimaryKeyApart(t, Lower(y.obj));
    } else if x.op == y.op == DropIndex {
      PrimaryKeyApart(s, Lower(y.obj));
    }
  }

  lemma PrimaryKeyApart(t: TableSnapshot, k: string)
    requires WfIndexes(t) && k in SecondaryMap(t) && FirstPrimary(t.indexes).Some?
    ensures Lower(IndexObject(FirstPrimary(t.indexes).value)) != k
    ensures Lower(IndexObject(SecondaryMap(t)[k])) == k
  {
    hide IndexObject, Lower, WfIndex;
    SecondaryMapKeyed(t, k);
    var p, q := FirstPrimary(t.indexes).value, SecondaryMap(t)[k];
    var i :| 0 <= i < |t.indexes| && t.indexes[i] == p;
    var j :| 0 <= j < |t.indexes| && t.indexes[j] == q;
    assert IndexKey(p) != IndexKey(q);
  }

  /** The kind of object an op is about. */
  function Family(op: Op): nat {
    match op
    case CreateTable => 0 case DropTable => 0
    case AddColumn => 1 case DropColumn => 1 case AlterColumn => 1
    case AddIndex => 2 case DropIndex => 2
    case AddForeignKey => 3 case DropForeignKey => 3
  }

  predicate AllOf(entries: seq<Entry>, family: nat) { forall e :: e in entries ==> Family(e.op) == family }

  lemma Families(kind: DatabaseKind, table: string, s: TableSnapshot, t: TableSnapshot, opts: Options)
    ensures AllOf(DiffColumns(kind, table, s, t, opts), 1) && AllOf(DiffIndexes(table, s, t, opts), 2)
    ensures AllOf(DiffForeignKeys(table, s, t, opts), 3)
  {
    hide DiffColumns, DiffForeignKeys, DiffSecondary, ColumnMap, SecondaryMap, FkMap, Lower, FirstPrimary, IndexSig, IndexObject, FkObject;
    forall e | e in DiffColumns(kind, table, s, t, opts) ensures Family(e.op) == 1 {
      ColumnEntry(kind, table, s, t, opts, e);
    }
    forall e | e in DiffSecondary(table, s, t, opts) ensures Family(e.op) == 2 {
      SecondaryEntry(table, s, t, opts, e);
    }
    forall e | e in DiffForeignKeys(table, s, t, opts) ensures Family(e.op) == 3 {
      ForeignKeyEntry(table, s, t, opts, e);
    }
  }

  lemma TableTags(kind: DatabaseKind, s: TableSnapshot, t: TableSnapshot, opts: Options)
    requires WfTable(s) && WfTable(t)
    ensures DistinctTags(DiffTable(kind, s, t, opts))
  {
    hide DiffColumns, DiffIndexes, DiffForeignKeys, WfIndexes, WfForeignKeys, WfColumns;
    ColumnTags(kind, t.name, s, t, opts);
    IndexTags(t.name, s, t, opts);
    FkTags(t.name, s, t, opts);
    Families(kind, t.name, s, t, opts);
    var c, i, f := DiffColumns(kind, t.name, s, t, opts), DiffIndexes(t.name, s, t, opts), DiffForeignKeys(t.name, s, t, opts);
    TagsConcat(c, i);
    TagsConcat(c + i, f);
  }

  lemma CollectedTags(kind: DatabaseKind, sm: map<string, TableSnapshot>, tm: map<string, TableSnapshot>, opts: Options)
    requires Keyed(sm) && Keyed(tm)
    requires forall k :: k in sm ==> WfTable(sm[k])
    requires forall k :: k in tm ==> WfTable(tm[k])
    ensures DistinctTags(Collected(kind, sm, tm, opts))
  {
    hide DiffTable, Pairing, Lower, WfTable, Map, NoRepeats;
    var both, add, drop := TableBoth(kind, sm, tm, opts), TablePart(CreateTable, tm, opts), TablePart(DropTable, sm, opts);
    forall k ensures DistinctTags(Piece(sm.Keys, tm.Keys, both, add, drop, k)) {
      if k in sm && k in tm {
        TableTags(kind, sm[k], tm[k], opts);
      } else if k in tm {
        OneTag(Mk(CreateTable, tm[k].name, "", opts));
      } else if k in sm {
        OneTag(Mk(DropTable, sm[k].name, "", opts));
      } else {
        EmptyTags();
      }
    }
    forall k, x | x in Piece(sm.Keys, tm.Keys, both, add, drop, k) ensures TagOf(x).table == k {
      if k in sm && k in tm {
        TableEntries(kind, sm[k], tm[k], opts);
        assert OfTable(tm[k].name)(x);
      }
    }
    PairingDistinct(TagOf, sm.Keys, tm.Keys, both, add, drop);
  }

  /** No two plan entries have the same id. */
  lemma PlanIdsDistinct(source: Snapshot, target: Snapshot, opts: Options)
    requires WfSnapshot(source) && WfSnapshot(target)
    ensures DistinctTags(Diff(source, target, opts).value) && NoRepeats(Ids(Diff(source, target, opts).value))
  {
    hide WfTable, OrderEntries, Collected, NoRepeats, Map, Lower;
    var sm, tm := TableMap(source), TableMap(target);
    forall k | k in sm ensures WfTable(sm[k]) && Lower(sm[k].name) == k { TablesWf(source, k); }
    forall k | k in tm ensures WfTable(tm[k]) && Lower(tm[k].name) == k { TablesWf(target, k); }
    CollectedTags(source.kind, sm, tm, opts);
    DiffPermutes(source, target, opts);
    var plan, all := Diff(source, target, opts).value, Collected(source.kind, sm, tm, opts);
    MapPermuted(TagOf, all, plan);
    PermutedNoRepeats(Map(TagOf, all), Map(TagOf, plan));
    TagsGiveIds(source, target, opts, plan);
  }

  lemma TagsGiveIds(source: Snapshot, target: Snapshot, opts: Options, plan: seq<Entry>)
    requires WfSnapshot(source) && WfSnapshot(target) && plan == Diff(source, target, opts).value && DistinctTags(plan)
    ensures NoRepeats(Ids(plan))
  {
    hide Diff, WfSnapshot, IdOf, EntryId;
    forall i, j | 0 <= i < j < |plan| ensures Ids(plan)[i] != Ids(plan)[j] {
      assert Map(TagOf, plan)[i] == TagOf(plan[i]) && Map(TagOf, plan)[j] == TagOf(plan[j]);
      assert plan[i] in plan && plan[j] in plan;
      EntryTableNames(source, target, opts, plan[i]);
      EntryTableNames(source, target, opts, plan[j]);
      if Id(plan[i]) == Id(plan[j]) {
        IdIsTag(plan[i]);
        IdIsTag(plan[j]);
        IdInjective(TagOf(plan[i]), TagOf(plan[j]));
      }
    }
  }

  lemma IdIsTag(e: Entry)
    ensures Id(e) == IdOf(TagOf(e))
  {
  }

  lemma EntryTableNames(source: Snapshot, target: Snapshot, opts: Options, e: Entry)
    requires WfSnapshot(source) && WfSnapshot(target) && e in Diff(source, target, opts).value
    ensures Lower(e.table) in TableMap(source) || Lower(e.table) in TableMap(target)
    ensures Free(Lower(e.table), '/')
  {
    assert Comparable(source, target);
    hide Diff, TableMap, DiffTable, WfSnapshot;
    PlanEntries(source, target, opts, e);
    var k := Lower(e.table);
    if k in TableMap(source) {
      KeyFree(source, k);
    } else {
      KeyFree(target, k);
    }
  }

  lemma KeyFree(s: Snapshot, k: string)
    requires WfSnapshot(s) && k in TableMap(s)
    ensures Free(k, '/')
  {
    TablesWf(s, k);
    var name := TableMap(s)[k].name;
    hide TableMap, WfSnapshot, WfColumns, WfIndexes, WfForeignKeys, IsAutoIndex;
    assert NameOk(name) && Lower(name) == k;
    LowerFree(name);
  }

  lemma LowerFree(name: string)
    requires Free(name, '/')
    ensures Free(Lower(name), '/')
  {
  }
}
