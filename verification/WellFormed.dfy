/// Snapshots as SQLite reports them, and pairs of them the script can be run
/// between; and where the entries of a plan come from.
module WellFormed {
  import opened Text
  import opened Sequences
  import opened Normalize
  import opened TypeNames
  import opened Snapshots
  import opened Plan
  import opened PlanOrder
  import opened Mirror
  import opened Script
  import opened Locality

  /** ASCII, trimmed, non-empty, and free of the separators ids and signatures use. */
  predicate NameOk(s: string) {
    s != [] && Trim(s) == s && Free(s, '/') && Free(s, ',') && Free(s, '\0') && forall i :: 0 <= i < |s| ==> s[i] < 128 as char
  }

  predicate NamesOkAll(names: seq<string>) { forall i :: 0 <= i < |names| ==> NameOk(names[i]) }

  ghost predicate WfColumns(t: TableSnapshot) {
    && t.columns != [] && DistinctKeys(t.columns, ColumnKey, AnyColumn)
    && forall c :: c in t.columns ==> NameOk(c.name) && !c.isAutoIncrement
  }

  predicate AnyIndex(idx: IndexInfo) { true }

  predicate WfIndex(t: TableSnapshot, idx: IndexInfo) {
    && NameOk(idx.name) && idx.columns != []
    && (forall i :: 0 <= i < |idx.columns| ==> NameOk(idx.columns[i].name) && Lower(idx.columns[i].name) in ColumnMap(t))
    && (forall i, j :: 0 <= i < j < |idx.columns| ==> idx.columns[i].position != idx.columns[j].position)
  }

  ghost predicate WfIndexes(t: TableSnapshot) {
    && (forall i :: i in t.indexes ==> WfIndex(t, i))
    && DistinctKeys(t.indexes, IndexKey, AnyIndex)
    && (forall i, j :: i in t.indexes && j in t.indexes && i.primary && j.primary ==> i == j)
  }

  predicate WfForeignKey(t: TableSnapshot, f: ForeignKeyInfo) {
    && f.columns != [] && |f.columns| == |f.referencedColumns|
    && NamesOkAll(f.columns) && NamesOkAll(f.referencedColumns) && NameOk(f.referencedTable)
    && (forall i :: 0 <= i < |f.columns| ==> Lower(f.columns[i]) in ColumnMap(t))
    && f.referencedSchema == "main"
    && !f.onDelete.Unstated? && !f.onUpdate.Unstated?
  }

  function FkObjectKey(f: ForeignKeyInfo): string { Lower(FkObject(f)) }

  ghost predicate WfForeignKeys(t: TableSnapshot) {
    && (forall f :: f in t.foreignKeys ==> WfForeignKey(t, f))
    && DistinctKeys(t.foreignKeys, FkKey, AnyForeignKey)
    && DistinctKeys(t.foreignKeys, FkObjectKey, AnyForeignKey)
  }

  ghost predicate WfTable(t: TableSnapshot) {
    NameOk(t.name) && !IsAutoIndex(t.name) && WfColumns(t) && WfIndexes(t) && WfForeignKeys(t)
  }

  predicate AnyTable(t: TableSnapshot) { true }

  ghost predicate WfSnapshot(s: Snapshot) {
    && s.kind == Sqlite && DistinctKeys(s.tables, TableKey, AnyTable)
    && forall t :: t in s.tables && IsTable(t) ==> WfTable(t)
  }

  // ---- Pairs ----

  function UserIndexNames(t: TableSnapshot): set<string> {
    set i | i in t.indexes && IsUserIndex(i) :: Lower(i.name)
  }

  function OwnedNames(sm: map<string, TableSnapshot>, tm: map<string, TableSnapshot>, k: string): set<string> {
    (if k in sm then UserIndexNames(sm[k]) else {}) + (if k in tm then UserIndexNames(tm[k]) else {})
  }

  function NamesOf(source: Snapshot, target: Snapshot): Names {
    var sm, tm := TableMap(source), TableMap(target);
    Names(sm.Keys + tm.Keys, TakenNames(source, target),
          map k | k in sm.Keys + tm.Keys :: OwnedNames(sm, tm, k))
  }

  /** Some source column survives: SQLite never drops the last one. */
  predicate CommonColumn(s: TableSnapshot, t: TableSnapshot) {
    exists k :: k in ColumnMap(s) && k in ColumnMap(t)
  }

  /**
   * Both sides well-formed; no name is a table on one side and a view on the
   * other; tables on both sides share a column; an index name belongs to one
   * table and is neither a table nor a view.
   */
  ghost predicate WfPair(source: Snapshot, target: Snapshot) {
    && WfSnapshot(source) && WfSnapshot(target)
    && TableMap(source).Keys !! ViewMap(target).Keys && TableMap(target).Keys !! ViewMap(source).Keys
    && (forall k :: k in TableMap(source) && k in TableMap(target) ==> CommonColumn(TableMap(source)[k], TableMap(target)[k]))
    && NamesOk(NamesOf(source, target))
  }

  lemma OwnedSymmetric(sm: map<string, TableSnapshot>, tm: map<string, TableSnapshot>, k: string)
    ensures OwnedNames(sm, tm, k) == OwnedNames(tm, sm, k)
  {
    hide UserIndexNames;
  }

  lemma NamesSymmetric(source: Snapshot, target: Snapshot)
    ensures var v, w := NamesOf(target, source), NamesOf(source, target);
      v.tables == w.tables && v.taken == w.taken && v.owned == w.owned && (NamesOk(w) ==> NamesOk(v))
  {
    hide TableMap, ViewMap, OwnedNames;
    var w, v := NamesOf(source, target), NamesOf(target, source);
    assert v.tables == w.tables && v.taken == w.taken;
    forall k | k in w.tables ensures v.owned[k] == w.owned[k] {
      OwnedSymmetric(TableMap(source), TableMap(target), k);
    }
  }

  lemma WfPairSymmetric(source: Snapshot, target: Snapshot)
    requires WfPair(source, target)
    ensures WfPair(target, source)
  {
    hide WfSnapshot, TableMap, ViewMap, ColumnMap, NamesOf, NamesOk;
    NamesSymmetric(source, target);
  }

  lemma TablesWf(s: Snapshot, k: string)
    requires WfSnapshot(s) && k in TableMap(s)
    ensures WfTable(TableMap(s)[k]) && Lower(TableMap(s)[k].name) == k && TableMap(s)[k] in s.tables
  {
    hide WfTable, Lower;
    FirstWinsKeys(s.tables, TableKey, IsTable);
  }

  // ---- Where entries come from ----

  /** The three ways an entry gets into a plan. */
  ghost predicate FromPlan(kind: DatabaseKind, sm: map<string, TableSnapshot>, tm: map<string, TableSnapshot>, opts: Options, e: Entry) {
    var k := Lower(e.table);
    || (k in sm && k in tm && e in DiffTable(kind, sm[k], tm[k], opts))
    || (k in tm && k !in sm && e == Mk(CreateTable, tm[k].name, "", opts))
    || (k in sm && k !in tm && e == Mk(DropTable, sm[k].name, "", opts))
  }

  lemma CollectedEntries(kind: DatabaseKind, sm: map<string, TableSnapshot>, tm: map<string, TableSnapshot>, opts: Options, e: Entry)
    requires Keyed(sm) && Keyed(tm)
    ensures e in Collected(kind, sm, tm, opts) <==> FromPlan(kind, sm, tm, opts, e)
  {
    hide DiffTable, Pairing, Lower;
    var both, add, drop := TableBoth(kind, sm, tm, opts), TablePart(CreateTable, tm, opts), TablePart(DropTable, sm, opts);
    PairingMember(sm.Keys, tm.Keys, both, add, drop, e);
    if e in Collected(kind, sm, tm, opts) {
      var k :| e in Piece(sm.Keys, tm.Keys, both, add, drop, k);
      if k in sm && k in tm {
        TableEntries(kind, sm[k], tm[k], opts);
        assert OfTable(tm[k].name)(e);
      }
      assert k == Lower(e.table);
    }
    if FromPlan(kind, sm, tm, opts, e) {
      assert e in Piece(sm.Keys, tm.Keys, both, add, drop, Lower(e.table));
    }
  }

  lemma PlanEntries(source: Snapshot, target: Snapshot, opts: Options, e: Entry)
    requires Comparable(source, target)
    ensures e in Diff(source, target, opts).value
      <==> FromPlan(source.kind, TableMap(source), TableMap(target), opts, e)
  {
    hide Collected, FromPlan, OrderEntries;
    TableMapKeyed(source);
    TableMapKeyed(target);
    DiffPermutes(source, target, opts);
    var plan, all := Diff(source, target, opts).value, Collected(source.kind, TableMap(source), TableMap(target), opts);
    assert e in plan <==> e in multiset(plan);
    assert e in all <==> e in multiset(all);
    CollectedEntries(source.kind, TableMap(source), TableMap(target), opts, e);
  }

  // ---- The entries of one table, op by op ----

  predicate ColumnAdded(s: TableSnapshot, t: TableSnapshot, k: string) { k in ColumnMap(t) && k !in ColumnMap(s) }

  predicate ColumnAltered(kind: DatabaseKind, s: TableSnapshot, t: TableSnapshot, opts: Options, k: string) {
    k in ColumnMap(s) && k in ColumnMap(t) && ColumnFlags(kind, ColumnMap(s)[k], ColumnMap(t)[k], opts) != []
  }

  /** The secondary index under key k is new on the target side, or differs. */
  predicate IndexAdded(s: TableSnapshot, t: TableSnapshot, k: string) {
    k in SecondaryMap(t) && (k !in SecondaryMap(s) || !SameIndex(SecondaryMap(s)[k], SecondaryMap(t)[k]))
  }

  predicate PrimaryDiffers(s: TableSnapshot, t: TableSnapshot) {
    var sp, tp := FirstPrimary(s.indexes), FirstPrimary(t.indexes);
    (sp.Some? || tp.Some?) && !(sp.Some? && tp.Some? && IndexSig(sp.value) == IndexSig(tp.value))
  }

  predicate FkAdded(s: TableSnapshot, t: TableSnapshot, k: string) {
    k in FkMap(t) && (k !in FkMap(s) || !SameForeignKey(FkMap(s)[k], FkMap(t)[k]))
  }

  /** What the plan says about the column under key k. */
  predicate ColumnChange(kind: DatabaseKind, table: string, s: TableSnapshot, t: TableSnapshot, opts: Options, e: Entry, k: string) {
    || (ColumnAdded(s, t, k) && e == Mk(AddColumn, table, ColumnMap(t)[k].name, opts))
    || (ColumnAdded(t, s, k) && e == Mk(DropColumn, table, ColumnMap(s)[k].name, opts))
    || (ColumnAltered(kind, s, t, opts, k)
          && e == Mk(AlterColumn, table, ColumnMap(t)[k].name, opts).(flags := ColumnFlags(kind, ColumnMap(s)[k], ColumnMap(t)[k], opts)))
  }

  lemma ColumnMapKeyed(t: TableSnapshot, k: string)
    requires k in ColumnMap(t)
    ensures Lower(ColumnMap(t)[k].name) == k && ColumnMap(t)[k] in t.columns
  {
    hide Lower;
    FirstWinsKeys(t.columns, ColumnKey, AnyColumn);
  }

  lemma ColumnPiece(kind: DatabaseKind, table: string, s: TableSnapshot, t: TableSnapshot, opts: Options, e: Entry, k: string)
    ensures var sc, tc := ColumnMap(s), ColumnMap(t);
      e in Piece(sc.Keys, tc.Keys, ColumnBoth(kind, table, sc, tc, opts), ColumnPart(AddColumn, table, tc, opts),
                 ColumnPart(DropColumn, table, sc, opts), k)
      <==> ColumnChange(kind, table, s, t, opts, e, k)
    ensures ColumnChange(kind, table, s, t, opts, e, k) ==> k == Lower(e.obj)
  {
    hide ColumnMap, ColumnFlags, Lower;
    if k in ColumnMap(s) {
      ColumnMapKeyed(s, k);
    }
    if k in ColumnMap(t) {
      ColumnMapKeyed(t, k);
    }
  }

  lemma ColumnEntry(kind: DatabaseKind, table: string, s: TableSnapshot, t: TableSnapshot, opts: Options, e: Entry)
    ensures e in DiffColumns(kind, table, s, t, opts) <==> ColumnChange(kind, table, s, t, opts, e, Lower(e.obj))
  {
    hide Pairing, Piece, ColumnMap, ColumnChange, Lower, ColumnBoth, ColumnPart;
    var sc, tc := ColumnMap(s), ColumnMap(t);
    var both, add, drop := ColumnBoth(kind, table, sc, tc, opts), ColumnPart(AddColumn, table, tc, opts), ColumnPart(DropColumn, table, sc, opts);
    ColumnPiece(kind, table, s, t, opts, e, Lower(e.obj));
    forall l | e in Piece(sc.Keys, tc.Keys, both, add, drop, l) ensures l == Lower(e.obj) {
      ColumnPiece(kind, table, s, t, opts, e, l);
    }
    PairingAt(sc.Keys, tc.Keys, both, add, drop, e, Lower(e.obj));
  }

  /** What the plan says about the secondary index under key k. */
  predicate IndexChange(table: string, s: TableSnapshot, t: TableSnapshot, opts: Options, e: Entry, k: string) {
    || (IndexAdded(s, t, k) && e == Mk(AddIndex, table, IndexObject(SecondaryMap(t)[k]), opts))
    || (IndexAdded(t, s, k) && e == Mk(DropIndex, table, IndexObject(SecondaryMap(s)[k]), opts))
  }

  lemma SecondaryMapKeyed(t: TableSnapshot, k: string)
    requires k in SecondaryMap(t)
    ensures var i := SecondaryMap(t)[k]; IndexKey(i) == k && i in t.indexes && !i.primary
  {
    hide IndexKey;
    FirstWinsKeys(t.indexes, IndexKey, IsSecondary);
  }

  lemma IndexPiece(table: string, s: TableSnapshot, t: TableSnapshot, opts: Options, e: Entry, k: string)
    ensures var si, ti := SecondaryMap(s), SecondaryMap(t);
      e in Piece(si.Keys, ti.Keys, IndexBoth(table, si, ti, opts), IndexPart(AddIndex, table, ti, opts),
                 IndexPart(DropIndex, table, si, opts), k)
      <==> IndexChange(table, s, t, opts, e, k)
    ensures IndexChange(table, s, t, opts, e, k) ==> k == Lower(e.obj)
  {
    hide SecondaryMap, IndexSig, IndexObject, Lower;
    if k in SecondaryMap(s) {
      SecondaryMapKeyed(s, k);
    }
    if k in SecondaryMap(t) {
      SecondaryMapKeyed(t, k);
    }
  }

  lemma SecondaryEntry(table: string, s: TableSnapshot, t: TableSnapshot, opts: Options, e: Entry)
    ensures e in DiffSecondary(table, s, t, opts) <==> IndexChange(table, s, t, opts, e, Lower(e.obj))
  {
    hide Pairing, Piece, SecondaryMap, IndexChange, Lower, IndexBoth, IndexPart;
    var si, ti := SecondaryMap(s), SecondaryMap(t);
    var both, add, drop := IndexBoth(table, si, ti, opts), IndexPart(AddIndex, table, ti, opts), IndexPart(DropIndex, table, si, opts);
    IndexPiece(table, s, t, opts, e, Lower(e.obj));
    forall l | e in Piece(si.Keys, ti.Keys, both, add, drop, l) ensures l == Lower(e.obj) {
      IndexPiece(table, s, t, opts, e, l);
    }
    PairingAt(si.Keys, ti.Keys, both, add, drop, e, Lower(e.obj));
  }

  /** What the plan says about the foreign key under key k. */
  predicate FkChange(table: string, s: TableSnapshot, t: TableSnapshot, opts: Options, e: Entry, k: string) {
    || (FkAdded(s, t, k) && e == Mk(AddForeignKey, table, FkObject(FkMap(t)[k]), opts))
    || (FkAdded(t, s, k) && e == Mk(DropForeignKey, table, FkObject(FkMap(s)[k]), opts))
  }

  lemma FkPiece(table: string, s: TableSnapshot, t: TableSnapshot, opts: Options, e: Entry, k: string)
    ensures var sf, tf := FkMap(s), FkMap(t);
      e in Piece(sf.Keys, tf.Keys, FkBoth(table, sf, tf, opts), FkPart(AddForeignKey, table, tf, opts),
                 FkPart(DropForeignKey, table, sf, opts), k)
      <==> FkChange(table, s, t, opts, e, k)
  {
    hide FkMap, JoinLower, ReferencedTable, FkObject, Lower;
  }

  lemma ForeignKeyEntry(table: string, s: TableSnapshot, t: TableSnapshot, opts: Options, e: Entry)
    ensures e in DiffForeignKeys(table, s, t, opts) <==> exists k :: FkChange(table, s, t, opts, e, k)
  {
    hide Pairing, Piece, FkMap, FkChange, FkBoth, FkPart;
    var sf, tf := FkMap(s), FkMap(t);
    var both, add, drop := FkBoth(table, sf, tf, opts), FkPart(AddForeignKey, table, tf, opts), FkPart(DropForeignKey, table, sf, opts);
    PairingMember(sf.Keys, tf.Keys, both, add, drop, e);
    if e in DiffForeignKeys(table, s, t, opts) {
      var k :| e in Piece(sf.Keys, tf.Keys, both, add, drop, k);
      FkPiece(table, s, t, opts, e, k);
    }
    if k :| FkChange(table, s, t, opts, e, k) {
      FkPiece(table, s, t, opts, e, k);
    }
  }
}
