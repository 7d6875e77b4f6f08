/// Schema snapshots and the keys the comparison matches their parts by
/// (go/pkg/schemadiff/schemadiff.go:93-294).
module Snapshots {
  import opened Text
  import opened Sequences
  import opened TypeNames

  datatype TableType = BaseTable | View | MaterializedView

  datatype ColumnInfo = ColumnInfo(name: string, dataType: string, nullable: bool, defaultValue: Option<string>,
                                   isPrimaryKey: bool, isAutoIncrement: bool, ordinal: int)

  datatype IndexColumn = IndexColumn(name: string, position: int)

  datatype IndexInfo = IndexInfo(name: string, unique: bool, primary: bool, columns: seq<IndexColumn>)

  datatype FkAction = Cascade | SetNull | SetDefault | Restrict | NoAction | Unstated(text: string)

  datatype ForeignKeyInfo = ForeignKeyInfo(name: string, columns: seq<string>, referencedSchema: string,
                                           referencedTable: string, referencedColumns: seq<string>,
                                           onDelete: FkAction, onUpdate: FkAction)

  datatype TableSnapshot = TableSnapshot(name: string, kind: TableType, columns: seq<ColumnInfo>,
                                         indexes: seq<IndexInfo>, foreignKeys: seq<ForeignKeyInfo>)

  datatype Snapshot = Snapshot(kind: DatabaseKind, tables: seq<TableSnapshot>)

  // ---- Signatures and object names ----

  predicate BeforeInIndex(a: IndexColumn, b: IndexColumn) {
    a.position < b.position || (a.position == b.position && Leq(Lower(a.name), Lower(b.name)))
  }

  predicate BeforeByPosition(a: IndexColumn, b: IndexColumn) { a.position <= b.position }

  function ColumnNames(cols: seq<IndexColumn>): seq<string> {
    seq(|cols|, i requires 0 <= i < |cols| => cols[i].name)
  }

  function JoinLower(names: seq<string>): string { Join(LowerAll(names), ",") }

  /** Lower-cased column names by position then name, comma-joined. */
  function IndexSig(idx: IndexInfo): string {
    JoinLower(ColumnNames(SortBy(BeforeInIndex, idx.columns)))
  }

  /** The columns as DDL lists them: stably by position. */
  function IndexColumns(idx: IndexInfo): seq<string> {
    ColumnNames(SortBy(BeforeByPosition, idx.columns))
  }

  function ReferencedTable(fk: ForeignKeyInfo): string {
    if Trim(fk.referencedSchema) == "" then Lower(fk.referencedTable)
    else Lower(fk.referencedSchema) + "/" + Lower(fk.referencedTable)
  }

  function FkKey(fk: ForeignKeyInfo): string {
    if Trim(fk.name) != "" then "n:" + Lower(fk.name)
    else "c:" + JoinLower(fk.columns) + "->" + Lower(fk.referencedTable) + "(" + JoinLower(fk.referencedColumns) + ")"
  }

  function FkObject(fk: ForeignKeyInfo): string {
    if Trim(fk.name) == "" then "fk(" + JoinLower(fk.columns) + ")" else fk.name
  }

  function IndexObject(idx: IndexInfo): string {
    if Trim(idx.name) == "" then "idx(" + IndexSig(idx) + ")" else idx.name
  }

  /** SQLite's own index for a PRIMARY KEY or UNIQUE constraint. */
  predicate IsAutoIndex(name: string) {
    var t := Lower(Trim(name));
    |t| >= 7 && t[..7] == "sqlite_"
  }

  predicate IsView(t: TableSnapshot) { t.kind != BaseTable }

  // ---- Keyed views of a snapshot: the first item under a key wins ----

  function TableKey(t: TableSnapshot): string { Lower(t.name) }

  predicate IsTable(t: TableSnapshot) { !IsView(t) }

  function ColumnKey(c: ColumnInfo): string { Lower(c.name) }

  predicate AnyColumn(c: ColumnInfo) { true }

  function IndexKey(idx: IndexInfo): string { Lower(IndexObject(idx)) }

  predicate IsSecondary(idx: IndexInfo) { !idx.primary }

  predicate AnyForeignKey(fk: ForeignKeyInfo) { true }

  function TableMap(s: Snapshot): map<string, TableSnapshot> { FirstWins(s.tables, TableKey, IsTable) }

  function ViewMap(s: Snapshot): map<string, TableSnapshot> { FirstWins(s.tables, TableKey, IsView) }

  function ColumnMap(t: TableSnapshot): map<string, ColumnInfo> { FirstWins(t.columns, ColumnKey, AnyColumn) }

  function SecondaryMap(t: TableSnapshot): map<string, IndexInfo> { FirstWins(t.indexes, IndexKey, IsSecondary) }

  function FkMap(t: TableSnapshot): map<string, ForeignKeyInfo> { FirstWins(t.foreignKeys, FkKey, AnyForeignKey) }

  method BuildTableMap(s: Snapshot) returns (m: map<string, TableSnapshot>)
    ensures m == TableMap(s)
  {
    m := map[];
    for i := 0 to |s.tables|
      invariant m == FirstWins(s.tables[..i], TableKey, IsTable)
    {
      var t := s.tables[i];
      assert s.tables[..i + 1][..i] == s.tables[..i];
      if IsView(t) {
        continue;
      }
      var k := Lower(t.name);
      if k !in m {
        m := m[k := t];
      }
    }
    assert s.tables[..|s.tables|] == s.tables;
  }

  function FirstPrimary(items: seq<IndexInfo>): (r: Option<IndexInfo>)
    ensures r.Some? ==> r.value in items && r.value.primary
    ensures r.None? ==> forall i :: 0 <= i < |items| ==> !items[i].primary
  {
    if items == [] then None
    else if items[0].primary then Some(items[0])
    else FirstPrimary(items[1..])
  }

  predicate BeforeOrdinal(a: ColumnInfo, b: ColumnInfo) { a.ordinal <= b.ordinal }

  function OrderedColumns(t: TableSnapshot): seq<ColumnInfo> { SortBy(BeforeOrdinal, t.columns) }

  function FlaggedColumns(cols: seq<ColumnInfo>): (r: seq<string>) {
    if cols == [] then []
    else if cols[0].isPrimaryKey then [cols[0].name] + FlaggedColumns(cols[1..])
    else FlaggedColumns(cols[1..])
  }

  /** The primary key DDL declares: the primary index, else the flagged columns. */
  function PkColumns(t: TableSnapshot): seq<string> {
    var p := FirstPrimary(t.indexes);
    if p.Some? && p.value.columns != [] then IndexColumns(p.value) else FlaggedColumns(OrderedColumns(t))
  }

  function ColumnOf(t: TableSnapshot, obj: string): Option<ColumnInfo> {
    var k := Lower(Trim(obj));
    if k in ColumnMap(t) then Some(ColumnMap(t)[k]) else None
  }

  function FindIndexIn(items: seq<IndexInfo>, want: string): (r: Option<IndexInfo>)
    ensures r.Some? ==> r.value in items && IndexKey(r.value) == want
    ensures r.None? ==> forall i :: 0 <= i < |items| ==> IndexKey(items[i]) != want
  {
    if items == [] then None
    else if IndexKey(items[0]) == want then Some(items[0])
    else FindIndexIn(items[1..], want)
  }

  function FindIndex(t: TableSnapshot, obj: string): Option<IndexInfo> {
    FindIndexIn(t.indexes, Lower(Trim(obj)))
  }
}
