/// The order inside a CREATE TABLE and a CREATE INDEX: columns by ordinal, keys and
/// indexes by position (go/pkg/schemadiff/ddl.go:375-471).
module TableText {
  import opened Text
  import opened Sequences
  import opened Normalize
  import opened TypeNames
  import opened Snapshots
  import opened Script

  /** The table's columns with ordinals never falling. */
  ghost predicate ByOrdinal(p: seq<ColumnInfo>, t: TableSnapshot) {
    multiset(p) == multiset(t.columns) && forall i, j :: 0 <= i < j < |p| ==> p[i].ordinal <= p[j].ordinal
  }

  /** The index's columns with positions never falling. */
  ghost predicate ByPosition(p: seq<IndexColumn>, idx: IndexInfo) {
    multiset(p) == multiset(idx.columns) && forall i, j :: 0 <= i < j < |p| ==> p[i].position <= p[j].position
  }

  lemma OrdinalOrder()
    ensures IsOrder(BeforeOrdinal)
  {
  }

  lemma PositionOrder()
    ensures IsOrder(BeforeByPosition)
  {
  }

  lemma IndexOrder()
    ensures IsOrder(BeforeInIndex)
  {
    hide Leq, Lower;
    forall a: IndexColumn, b: IndexColumn ensures BeforeInIndex(a, b) || BeforeInIndex(b, a) {
      LeqTotal(Lower(a.name), Lower(b.name));
    }
    forall a: IndexColumn, b: IndexColumn, c: IndexColumn | BeforeInIndex(a, b) && BeforeInIndex(b, c) ensures BeforeInIndex(a, c) {
      if Leq(Lower(a.name), Lower(b.name)) && Leq(Lower(b.name), Lower(c.name)) {
        LeqTransitive(Lower(a.name), Lower(b.name), Lower(c.name));
      }
    }
  }

  /** DDL lists an index's columns by position. */
  lemma IndexInOrder(idx: IndexInfo) returns (p: seq<IndexColumn>)
    ensures ByPosition(p, idx) && |IndexColumns(idx)| == |p| && forall i :: 0 <= i < |p| ==> IndexColumns(idx)[i] == p[i].name
  {
    PositionOrder();
    SortSorted(BeforeByPosition, idx.columns);
    p := SortBy(BeforeByPosition, idx.columns);
    hide SortBy;
  }

  /** Indexes are compared by their lower-cased columns in the order of position, those of one position by name. */
  lemma SignatureInOrder(idx: IndexInfo) returns (p: seq<IndexColumn>)
    ensures ByPosition(p, idx) && IndexSig(idx) == Join(LowerAll(ColumnNames(p)), ",")
    ensures forall i, j :: 0 <= i < j < |p| && p[i].position == p[j].position ==> Leq(Lower(p[i].name), Lower(p[j].name))
  {
    IndexOrder();
    SortSorted(BeforeInIndex, idx.columns);
    p := SortBy(BeforeInIndex, idx.columns);
    hide SortBy, Leq, Lower;
    forall i, j | 0 <= i < j < |p|
      ensures p[i].position <= p[j].position && (p[i].position == p[j].position ==> Leq(Lower(p[i].name), Lower(p[j].name)))
    {
      assert BeforeInIndex(p[i], p[j]);
    }
  }

  function NameOf(c: ColumnInfo): string { c.name }

  predicate Flagged(c: ColumnInfo) { c.isPrimaryKey }

  lemma NoneFlagged()
    ensures Filter([], Flagged) == []
  {
  }

  lemma {:induction false} FlaggedInOrder(cols: seq<ColumnInfo>)
    ensures FlaggedColumns(cols) == Map(NameOf, Filter(cols, Flagged))
  {
    hide Filter;
    if cols == [] {
      NoneFlagged();
    } else {
      FlaggedInOrder(cols[1..]);
      assert cols == [cols[0]] + cols[1..];
      FilterConcat([cols[0]], cols[1..], Flagged);
      FilterOne(cols[0], Flagged);
      MapConcat(NameOf, Filter([cols[0]], Flagged), Filter(cols[1..], Flagged));
    }
  }

  /**
   * A CREATE TABLE lists every column of the table in the order of ordinals, each with its normalised type, its
   * nullability and its default; and as primary key the first primary index's columns by position, or the flagged
   * columns in the order of the table.
   */
  lemma ColumnsInOrder(kind: DatabaseKind, t: TableSnapshot) returns (p: seq<ColumnInfo>)
    ensures ByOrdinal(p, t)
    ensures var b := TableBodyOf(kind, t);
      && |b.columns| == |p|
      && (forall i :: 0 <= i < |p| ==>
            b.columns[i] == ColumnDef(p[i].name, NormalizeType(kind, p[i].dataType), !p[i].nullable, StoredDefault(p[i].defaultValue)))
      && b.pk == (if FirstPrimary(t.indexes).Some? && FirstPrimary(t.indexes).value.columns != []
                  then IndexColumns(FirstPrimary(t.indexes).value)
                  else Map(NameOf, Filter(p, Flagged)))
  {
    OrdinalOrder();
    SortSorted(BeforeOrdinal, t.columns);
    p := SortBy(BeforeOrdinal, t.columns);
    FlaggedInOrder(p);
    hide SortBy, Filter, NormalizeType, StoredDefault, IndexColumns, FlaggedColumns, FirstPrimary;
  }

  lemma NameOrder()
    ensures IsOrder(BeforeIndexName)
  {
    hide Leq, Lower;
    forall a: IndexInfo, b: IndexInfo ensures BeforeIndexName(a, b) || BeforeIndexName(b, a) {
      LeqTotal(Lower(a.name), Lower(b.name));
    }
    forall a: IndexInfo, b: IndexInfo, c: IndexInfo | BeforeIndexName(a, b) && BeforeIndexName(b, c) ensures BeforeIndexName(a, c) {
      LeqTransitive(Lower(a.name), Lower(b.name), Lower(c.name));
    }
  }

  /** The quoted columns, an arrow head, the quoted referenced columns. */
  function FkSortKey(f: ForeignKeyInfo): string { JoinIdents(f.columns) + ">" + JoinIdents(f.referencedColumns) }

  lemma FkBefore(a: ForeignKeyInfo, b: ForeignKeyInfo)
    ensures BeforeFk(a, b) <==> Leq(FkSortKey(a), FkSortKey(b))
  {
    hide Leq, JoinIdents;
  }

  lemma FkOrder()
    ensures IsOrder(BeforeFk)
  {
    hide Leq, JoinIdents, FkSortKey, BeforeFk;
    forall a: ForeignKeyInfo, b: ForeignKeyInfo ensures BeforeFk(a, b) || BeforeFk(b, a) {
      LeqTotal(FkSortKey(a), FkSortKey(b));
      FkBefore(a, b);
      FkBefore(b, a);
    }
    forall a: ForeignKeyInfo, b: ForeignKeyInfo, c: ForeignKeyInfo | BeforeFk(a, b) && BeforeFk(b, c) ensures BeforeFk(a, c) {
      FkBefore(a, b);
      FkBefore(b, c);
      FkBefore(a, c);
      LeqTransitive(FkSortKey(a), FkSortKey(b), FkSortKey(c));
    }
  }

  /**
   * Its UNIQUE clauses are those of the table's UNIQUE constraints in the byte order of their lower-cased names, its
   * FOREIGN KEY clauses those of the table's foreign keys in the byte order of their quoted columns.
   */
  lemma ClausesInOrder(kind: DatabaseKind, t: TableSnapshot) returns (q: seq<IndexInfo>, r: seq<ForeignKeyInfo>)
    ensures multiset(q) == multiset(Filter(t.indexes, (i: IndexInfo) => !i.primary && IsAutoIndex(i.name)))
    ensures forall i, j :: 0 <= i < j < |q| ==> Leq(Lower(q[i].name), Lower(q[j].name))
    ensures TableBodyOf(kind, t).uniques == Map(IndexColumns, q)
    ensures multiset(r) == multiset(t.foreignKeys)
    ensures forall i, j :: 0 <= i < j < |r| ==> Leq(FkSortKey(r[i]), FkSortKey(r[j]))
    ensures var fks := TableBodyOf(kind, t).fks;
      |fks| == |r| && forall i :: 0 <= i < |r| ==>
        fks[i] == FkClause(r[i].columns, r[i].referencedTable, r[i].referencedColumns, r[i].onDelete, r[i].onUpdate)
  {
    hide SortBy, IndexColumns, IsAutoIndex, ColumnDefs, PkColumns, Leq, Lower, FkSortKey, JoinIdents;
    FkOrder();
    SortSorted(BeforeFk, t.foreignKeys);
    r := SortBy(BeforeFk, t.foreignKeys);
    forall i, j | 0 <= i < j < |r| ensures Leq(FkSortKey(r[i]), FkSortKey(r[j])) {
      assert BeforeFk(r[i], r[j]);
      FkBefore(r[i], r[j]);
    }
    SameUnique(t.indexes);
    var own := Filter(t.indexes, IsUniqueConstraint);
    NameOrder();
    SortSorted(BeforeIndexName, own);
    q := SortBy(BeforeIndexName, own);
    forall i, j | 0 <= i < j < |q| ensures Leq(Lower(q[i].name), Lower(q[j].name)) {
      assert BeforeIndexName(q[i], q[j]);
    }
  }

  lemma {:induction false} SameUnique(items: seq<IndexInfo>)
    ensures Filter(items, IsUniqueConstraint) == Filter(items, (i: IndexInfo) => !i.primary && IsAutoIndex(i.name))
  {
    hide IsAutoIndex;
    if items != [] {
      SameUnique(items[..|items| - 1]);
    }
  }

  /** Behind a rebuild the user's own indexes are created again, in the byte order of their lower-cased executed names. */
  lemma UserIndexesInOrder(t: TableSnapshot)
    ensures var u := UserIndexes(t);
      && multiset(u) == multiset(Filter(t.indexes, (i: IndexInfo) => !i.primary && !IsAutoIndex(i.name)))
      && (forall i, j :: 0 <= i < j < |u| ==> Leq(Lower(IndexExecName(t, u[i])), Lower(IndexExecName(t, u[j]))))
  {
    hide SortBy, IsAutoIndex, Leq, Lower, IndexExecName;
    SameUser(t.indexes);
    ExecOrder(t);
    var before := BeforeExecName(t);
    var own := Filter(t.indexes, IsUserIndex);
    SortSorted(before, own);
    var u := UserIndexes(t);
    assert u == SortBy(before, own);
    forall i, j | 0 <= i < j < |u| ensures Leq(Lower(IndexExecName(t, u[i])), Lower(IndexExecName(t, u[j]))) {
      assert before(u[i], u[j]);
    }
  }

  lemma ExecOrder(t: TableSnapshot)
    ensures IsOrder(BeforeExecName(t))
  {
    hide Leq, Lower, IndexExecName;
    var before := BeforeExecName(t);
    forall a: IndexInfo, b: IndexInfo ensures before(a, b) || before(b, a) {
      LeqTotal(Lower(IndexExecName(t, a)), Lower(IndexExecName(t, b)));
    }
    forall a: IndexInfo, b: IndexInfo, c: IndexInfo | before(a, b) && before(b, c) ensures before(a, c) {
      LeqTransitive(Lower(IndexExecName(t, a)), Lower(IndexExecName(t, b)), Lower(IndexExecName(t, c)));
    }
  }

  lemma {:induction false} SameUser(items: seq<IndexInfo>)
    ensures Filter(items, IsUserIndex) == Filter(items, (i: IndexInfo) => !i.primary && !IsAutoIndex(i.name))
  {
    hide IsAutoIndex;
    if items != [] {
      SameUser(items[..|items| - 1]);
    }
  }
}
