/// Which tables a script rebuilds: exactly those with a change SQLite cannot make in place.
module RebuildRules {
  import opened Text
  import opened Sequences
  import opened Normalize
  import opened TypeNames
  import opened Snapshots
  import opened Plan
  import opened PlanOrder
  import opened Mirror
  import opened Script
  import opened WellFormed
  import opened PlanIds
  import opened Shape
  import opened Agreement
  import opened PlanUnits
  import opened Rollback
  import opened PlanMeaning

  /** The index of a key or a UNIQUE constraint, which no statement adds or drops. */
  predicate SqlitesOwn(i: IndexInfo) { i.primary || IsAutoIndex(i.name) }

  predicate LacksOwnIndex(have: TableSnapshot, lack: TableSnapshot) {
    exists i :: i in have.indexes && SqlitesOwn(i) && !HasIndex(lack, i)
  }

  predicate LacksSomeForeignKey(have: TableSnapshot, lack: TableSnapshot) {
    exists f :: f in have.foreignKeys && !HasForeignKey(lack, f)
  }

  /** The column is in the primary key or in an index. */
  predicate Indexed(t: TableSnapshot, c: string)
    requires c in ColumnMap(t)
  {
    ColumnMap(t)[c].isPrimaryKey || exists i, x :: i in t.indexes && x in i.columns && Lower(x.name) == c
  }

  /** A change that cannot be made in place: a column altered, or dropped although indexed; a foreign key or an index of SQLite's own. */
  ghost predicate MustRebuild(s: TableSnapshot, t: TableSnapshot, opts: Options) {
    || (exists c :: ColumnDiffers(s, t, opts, c))
    || (exists c :: LacksColumn(s, t, c) && Indexed(s, c))
    || LacksSomeForeignKey(s, t) || LacksSomeForeignKey(t, s)
    || LacksOwnIndex(s, t) || LacksOwnIndex(t, s)
  }

  // ---- One table ----

  lemma DropNeeds(s: TableSnapshot, t: Option<TableSnapshot>, e: Entry, c: string)
    requires WfColumns(s) && e.op == DropColumn && c in ColumnMap(s) && e.obj == ColumnMap(s)[c].name
    ensures NeedsRebuild(e, Some(s), t) <==> Indexed(s, c)
  {
    ColumnMapKeyed(s, c);
    assert NameOk(ColumnMap(s)[c].name);
    TrimmedKey(e.obj);
    TrimLowered(e.obj);
    hide ColumnMap, Lower, Trim, NameOk;
    assert Lower(Trim(e.obj)) == c && Lower(Trim(c)) == c;
  }

  lemma ColumnRebuilds(s: TableSnapshot, t: TableSnapshot, opts: Options, e: Entry)
    requires WfColumns(s) && WfColumns(t) && e in DiffColumns(Sqlite, t.name, s, t, opts) && NeedsRebuild(e, Some(s), Some(t))
    ensures MustRebuild(s, t, opts)
  {
    hide ColumnMap, Lower, NormalizeType, NormalizeDefault, WfColumns, DiffColumns, ColumnFlags, NeedsRebuild, Indexed, ColumnDiffers,
      LacksSomeForeignKey, LacksOwnIndex;
    var c := Lower(e.obj);
    ColumnEntry(Sqlite, t.name, s, t, opts, e);
    ColumnCalls(s, t, opts, e);
    AddsInPlace(s, t, e);
    if e.op == DropColumn {
      DropNeeds(s, Some(t), e, c);
    }
  }

  lemma AddsInPlace(s: TableSnapshot, t: TableSnapshot, e: Entry)
    ensures e.op == AddColumn ==> !NeedsRebuild(e, Some(s), Some(t))
    ensures e.op in {AlterColumn, AddForeignKey, DropForeignKey} ==> NeedsRebuild(e, Some(s), Some(t))
  {
  }

  lemma IndexNeeds(s: TableSnapshot, t: TableSnapshot, e: Entry, i: IndexInfo)
    requires WfIndexes(s) && WfIndexes(t) && Family(e.op) == 2 && i in Having(s, t, e.op == DropIndex).indexes && e.obj == IndexObject(i)
    ensures NeedsRebuild(e, Some(s), Some(t)) <==> SqlitesOwn(i)
  {
    hide WfIndexes, IndexNeedsRebuild, IsAutoIndex, IndexObject;
    IndexRebuild(Having(s, t, e.op == DropIndex), i);
  }

  lemma EntryRebuilds(s: TableSnapshot, t: TableSnapshot, opts: Options, e: Entry)
    requires WfTable(s) && WfTable(t) && e in DiffTable(Sqlite, s, t, opts) && NeedsRebuild(e, Some(s), Some(t))
    ensures MustRebuild(s, t, opts)
  {
    hide DiffTable, DiffColumns, DiffIndexes, DiffForeignKeys, WfColumns, WfIndexes, WfForeignKeys, IsAutoIndex, NeedsRebuild, HasIndex, HasForeignKey,
      Lower, FkObject, ColumnDiffers, Indexed, ColumnMap, IndexObject;
    InTable(s, t, opts, e);
    if e in DiffColumns(Sqlite, t.name, s, t, opts) {
      ColumnRebuilds(s, t, opts, e);
    } else if e in DiffIndexes(t.name, s, t, opts) {
      var i := IndexCalls(s, t, opts, e);
      IndexNeeds(s, t, e, i);
    } else {
      ForeignKeyCalls(s, t, opts, e);
      Families(Sqlite, t.name, s, t, opts);
    }
  }

  lemma RebuildingEntry(s: TableSnapshot, t: TableSnapshot, opts: Options) returns (e: Entry)
    requires WfTable(s) && WfTable(t) && MustRebuild(s, t, opts)
    ensures e in DiffTable(Sqlite, s, t, opts) && NeedsRebuild(e, Some(s), Some(t))
  {
    hide DiffTable, DiffColumns, DiffIndexes, DiffForeignKeys, WfColumns, WfIndexes, WfForeignKeys, IsAutoIndex, NeedsRebuild, HasIndex, HasForeignKey,
      Lower, FkObject, ColumnDiffers, Indexed, ColumnMap, IndexObject;
    if c :| ColumnDiffers(s, t, opts, c) {
      e := ColumnCalled(s, t, opts, AlterColumn, c);
      AddsInPlace(s, t, e);
    } else if c :| LacksColumn(s, t, c) && Indexed(s, c) {
      e := DroppedEntry(s, t, opts, c);
    } else if LacksSomeForeignKey(s, t) {
      var f :| f in s.foreignKeys && !HasForeignKey(t, f);
      e := ForeignKeyCalled(s, t, opts, DropForeignKey, Lower(FkObject(f)));
      AddsInPlace(s, t, e);
    } else if LacksSomeForeignKey(t, s) {
      var f :| f in t.foreignKeys && !HasForeignKey(s, f);
      e := ForeignKeyCalled(s, t, opts, AddForeignKey, Lower(FkObject(f)));
      AddsInPlace(s, t, e);
    } else {
      var drop := LacksOwnIndex(s, t);
      var i :| i in Having(s, t, drop).indexes && SqlitesOwn(i) && !HasIndex(Having(t, s, drop), i);
      var op := if drop then DropIndex else AddIndex;
      IndexCalled(s, t, opts, op, i);
      e := Mk(op, t.name, IndexObject(i), opts);
      IndexNeeds(s, t, e, i);
    }
    InTable(s, t, opts, e);
  }

  lemma DroppedEntry(s: TableSnapshot, t: TableSnapshot, opts: Options, c: string) returns (e: Entry)
    requires WfColumns(s) && LacksColumn(s, t, c) && Indexed(s, c)
    ensures e in DiffColumns(Sqlite, t.name, s, t, opts) && NeedsRebuild(e, Some(s), Some(t))
  {
    hide ColumnMap, Lower, WfColumns, DiffColumns, NeedsRebuild, Indexed, ColumnFlags;
    ColumnMapKeyed(s, c);
    e := Mk(DropColumn, t.name, ColumnMap(s)[c].name, opts);
    ColumnEntry(Sqlite, t.name, s, t, opts, e);
    DropNeeds(s, Some(t), e, c);
  }

  // ---- The script ----

  /** A whole plan's script rebuilds exactly the tables of both sides with a change SQLite cannot make in place. */
  lemma RebuiltExactly(source: Snapshot, target: Snapshot, opts: Options, k: string)
    requires WfSnapshot(source) && WfSnapshot(target)
    ensures k in Rebuilds(source, target, PlanOf(source, target, opts), {})
      <==> k in TableMap(source) && k in TableMap(target) && MustRebuild(TableMap(source)[k], TableMap(target)[k], opts)
  {
    hide TableMap, WfSnapshot, PlanOf, NeedsRebuild, MustRebuild, DiffTable, CyclicSet, TakenNames, Lower;
    var sm, tm, plan := TableMap(source), TableMap(target), PlanOf(source, target, opts);
    TablesAreWf(source);
    TablesAreWf(target);
    if k in Rebuilds(source, target, plan, {}) {
      var e :| e in plan && Lower(e.table) == k && NeedsRebuild(e, Lookup(sm, k), Lookup(tm, k));
      PlanFrom(source, target, opts, e);
      TablesInPlace(e, Lookup(sm, k), Lookup(tm, k));
      assert k in sm && k in tm && e in DiffTable(Sqlite, sm[k], tm[k], opts);
      EntryRebuilds(sm[k], tm[k], opts, e);
    }
    if k in sm && k in tm && MustRebuild(sm[k], tm[k], opts) {
      var e := RebuildingEntry(sm[k], tm[k], opts);
      TableEntries(Sqlite, sm[k], tm[k], opts);
      assert OfTable(tm[k].name)(e);
      PlanFrom(source, target, opts, e);
      assert e in plan && Lower(e.table) == k && NeedsRebuild(e, Lookup(sm, k), Lookup(tm, k));
    }
  }

  lemma TablesInPlace(e: Entry, s: Option<TableSnapshot>, t: Option<TableSnapshot>)
    ensures e.op in {CreateTable, DropTable} ==> !NeedsRebuild(e, s, t)
  {
  }
}
