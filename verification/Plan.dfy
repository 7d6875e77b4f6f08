/// The comparison itself: two snapshots in, an ordered plan of entries out
/// (go/pkg/schemadiff/schemadiff.go:296-598).
module Plan {
  import opened Text
  import opened Sequences
  import opened Normalize
  import opened TypeNames
  import opened Snapshots
  import opened Graph

  datatype Op = CreateTable | DropTable | AddColumn | DropColumn | AlterColumn
              | AddIndex | DropIndex | AddForeignKey | DropForeignKey

  // ---- The op table (go/pkg/schemadiff/ops_gen.go:18-28) ----

  function Phase(op: Op): nat {
    match op
    case CreateTable => 50 case DropTable => 40
    case AddColumn => 60 case DropColumn => 30 case AlterColumn => 70
    case AddIndex => 80 case DropIndex => 20
    case AddForeignKey => 90 case DropForeignKey => 10
  }

  predicate Destructive(op: Op) {
    op in {DropTable, DropColumn, DropIndex, DropForeignKey}
  }

  function Inverse(op: Op): Op {
    match op
    case CreateTable => DropTable case DropTable => CreateTable
    case AddColumn => DropColumn case DropColumn => AddColumn
    case AlterColumn => AlterColumn
    case AddIndex => DropIndex case DropIndex => AddIndex
    case AddForeignKey => DropForeignKey case DropForeignKey => AddForeignKey
  }

  function OpName(op: Op): string {
    match op
    case CreateTable => "create_table" case DropTable => "drop_table"
    case AddColumn => "add_column" case DropColumn => "drop_column" case AlterColumn => "alter_column"
    case AddIndex => "add_index" case DropIndex => "drop_index"
    case AddForeignKey => "add_foreign_key" case DropForeignKey => "drop_foreign_key"
  }

  const OPS: seq<Op> := [CreateTable, DropTable, AddColumn, DropColumn, AlterColumn,
                         AddIndex, DropIndex, AddForeignKey, DropForeignKey]

  /** lookupOpRow: the op a wire name denotes. */
  function OpNamed(name: string): (r: Option<Op>) {
    OpNamedIn(OPS, name)
  }

  function OpNamedIn(ops: seq<Op>, name: string): (r: Option<Op>)
    ensures r.Some? ==> r.value in ops && OpName(r.value) == name
    ensures r.None? ==> forall i :: 0 <= i < |ops| ==> OpName(ops[i]) != name
  {
    if ops == [] then None
    else if OpName(ops[0]) == name then Some(ops[0])
    else OpNamedIn(ops[1..], name)
  }

  // ---- Entries ----

  datatype Flag = TypeFlag | NullabilityFlag | DefaultFlag | AutoIncrementFlag

  /** One change. Its id and phase are functions of the other fields, as mk computes them. */
  datatype Entry = Entry(op: Op, table: string, obj: string, flags: seq<Flag>, destructive: bool, selected: bool)

  datatype Options = Options(ignoreDefaults: bool, selectDestructive: bool)

  function EntryId(table: string, obj: string, op: Op): string {
    Lower(table) + "/" + Lower(obj) + "/" + OpName(op)
  }

  function Id(e: Entry): string { EntryId(e.table, e.obj, e.op) }

  function Mk(op: Op, table: string, obj: string, opts: Options): Entry {
    Entry(op, table, obj, [], Destructive(op), !Destructive(op) || opts.selectDestructive)
  }

  // ---- Columns ----

  function ColumnFlags(kind: DatabaseKind, s: ColumnInfo, t: ColumnInfo, opts: Options): seq<Flag> {
    (if NormalizeType(kind, s.dataType) != NormalizeType(kind, t.dataType) then [TypeFlag] else [])
    + (if s.nullable != t.nullable then [NullabilityFlag] else [])
    + (if !opts.ignoreDefaults && NormalizeDefault(s.defaultValue) != NormalizeDefault(t.defaultValue)
       then [DefaultFlag] else [])
    + (if s.isAutoIncrement != t.isAutoIncrement then [AutoIncrementFlag] else [])
  }

  function AlterEntry(kind: DatabaseKind, table: string, s: ColumnInfo, t: ColumnInfo, opts: Options): seq<Entry> {
    var flags := ColumnFlags(kind, s, t, opts);
    if flags == [] then [] else [Mk(AlterColumn, table, t.name, opts).(flags := flags)]
  }

  function ColumnBoth(kind: DatabaseKind, table: string, sc: map<string, ColumnInfo>, tc: map<string, ColumnInfo>,
                      opts: Options): string -> seq<Entry> {
    k => if k in sc && k in tc then AlterEntry(kind, table, sc[k], tc[k], opts) else []
  }

  function ColumnPart(op: Op, table: string, cols: map<string, ColumnInfo>, opts: Options): string -> seq<Entry> {
    k => if k in cols then [Mk(op, table, cols[k].name, opts)] else []
  }

  function DiffColumns(kind: DatabaseKind, table: string, src: TableSnapshot, tgt: TableSnapshot, opts: Options): seq<Entry> {
    var sc, tc := ColumnMap(src), ColumnMap(tgt);
    Pairing(sc.Keys, tc.Keys, ColumnBoth(kind, table, sc, tc, opts),
            ColumnPart(AddColumn, table, tc, opts), ColumnPart(DropColumn, table, sc, opts))
  }

  // ---- Indexes ----

  function PrimaryEntries(table: string, s: Option<IndexInfo>, t: Option<IndexInfo>, opts: Options): seq<Entry> {
    if s.Some? && t.Some? && IndexSig(s.value) == IndexSig(t.value) then [] else
    (if s.Some? then [Mk(DropIndex, table, IndexObject(s.value), opts)] else [])
    + (if t.Some? then [Mk(AddIndex, table, IndexObject(t.value), opts)] else [])
  }

  predicate SameIndex(s: IndexInfo, t: IndexInfo) {
    IndexSig(s) == IndexSig(t) && s.unique == t.unique
  }

  function IndexBoth(table: string, si: map<string, IndexInfo>, ti: map<string, IndexInfo>, opts: Options): string -> seq<Entry> {
    k => if k in si && k in ti && !SameIndex(si[k], ti[k]) then
           [Mk(DropIndex, table, IndexObject(si[k]), opts), Mk(AddIndex, table, IndexObject(ti[k]), opts)]
         else []
  }

  function IndexPart(op: Op, table: string, items: map<string, IndexInfo>, opts: Options): string -> seq<Entry> {
    k => if k in items then [Mk(op, table, IndexObject(items[k]), opts)] else []
  }

  function DiffSecondary(table: string, src: TableSnapshot, tgt: TableSnapshot, opts: Options): seq<Entry> {
    var si, ti := SecondaryMap(src), SecondaryMap(tgt);
    Pairing(si.Keys, ti.Keys, IndexBoth(table, si, ti, opts),
            IndexPart(AddIndex, table, ti, opts), IndexPart(DropIndex, table, si, opts))
  }

  function DiffIndexes(table: string, src: TableSnapshot, tgt: TableSnapshot, opts: Options): seq<Entry> {
    PrimaryEntries(table, FirstPrimary(src.indexes), FirstPrimary(tgt.indexes), opts)
    + DiffSecondary(table, src, tgt, opts)
  }

  // ---- Foreign keys ----

  predicate SameForeignKey(s: ForeignKeyInfo, t: ForeignKeyInfo) {
    && JoinLower(s.columns) == JoinLower(t.columns)
    && ReferencedTable(s) == ReferencedTable(t)
    && JoinLower(s.referencedColumns) == JoinLower(t.referencedColumns)
    && s.onDelete == t.onDelete
    && s.onUpdate == t.onUpdate
  }

  function FkBoth(table: string, sf: map<string, ForeignKeyInfo>, tf: map<string, ForeignKeyInfo>, opts: Options): string -> seq<Entry> {
    k => if k in sf && k in tf && !SameForeignKey(sf[k], tf[k]) then
           [Mk(DropForeignKey, table, FkObject(sf[k]), opts), Mk(AddForeignKey, table, FkObject(tf[k]), opts)]
         else []
  }

  function FkPart(op: Op, table: string, items: map<string, ForeignKeyInfo>, opts: Options): string -> seq<Entry> {
    k => if k in items then [Mk(op, table, FkObject(items[k]), opts)] else []
  }

  function DiffForeignKeys(table: string, src: TableSnapshot, tgt: TableSnapshot, opts: Options): seq<Entry> {
    var sf, tf := FkMap(src), FkMap(tgt);
    Pairing(sf.Keys, tf.Keys, FkBoth(table, sf, tf, opts),
            FkPart(AddForeignKey, table, tf, opts), FkPart(DropForeignKey, table, sf, opts))
  }

  function DiffTable(kind: DatabaseKind, src: TableSnapshot, tgt: TableSnapshot, opts: Options): seq<Entry> {
    DiffColumns(kind, tgt.name, src, tgt, opts)
    + DiffIndexes(tgt.name, src, tgt, opts)
    + DiffForeignKeys(tgt.name, src, tgt, opts)
  }

  // ---- Tables ----

  function TableBoth(kind: DatabaseKind, sm: map<string, TableSnapshot>, tm: map<string, TableSnapshot>, opts: Options): string -> seq<Entry> {
    k => if k in sm && k in tm then DiffTable(kind, sm[k], tm[k], opts) else []
  }

  function TablePart(op: Op, tables: map<string, TableSnapshot>, opts: Options): string -> seq<Entry> {
    k => if k in tables then [Mk(op, tables[k].name, "", opts)] else []
  }

  /** The entries before sorting. */
  function Collected(kind: DatabaseKind, sm: map<string, TableSnapshot>, tm: map<string, TableSnapshot>, opts: Options): seq<Entry> {
    Pairing(sm.Keys, tm.Keys, TableBoth(kind, sm, tm, opts),
            TablePart(CreateTable, tm, opts), TablePart(DropTable, sm, opts))
  }

  // ---- Order ----

  /** %03d for the phases of the op table. */
  function Pad3(n: nat): string
    requires n < 1000
  {
    [Digit(n / 100), Digit(n / 10 % 10), Digit(n % 10)]
  }

  function SortKey(e: Entry): string {
    Pad3(Phase(e.op)) + "\0" + Lower(e.table) + "\0" + Lower(e.obj) + "\0" + Id(e)
  }

  predicate BeforeInPlan(a: Entry, b: Entry) { Leq(SortKey(a), SortKey(b)) }

  predicate IsCreate(e: Entry) { e.op == CreateTable }

  /** The create entries by table key: the last under a key, as a Go map write. */
  function CreateMap(entries: seq<Entry>): map<string, Entry> {
    if entries == [] then map[] else
    var m := CreateMap(entries[..|entries| - 1]);
    var e := entries[|entries| - 1];
    if IsCreate(e) then m[Lower(e.table) := e] else m
  }

  function ReferencesTo(fks: seq<ForeignKeyInfo>, self: string, created: set<string>): set<string> {
    set fk | fk in fks && Lower(fk.referencedTable) in created && Lower(fk.referencedTable) != self
      :: Lower(fk.referencedTable)
  }

  /** Dependencies between newly created tables, ascending and without repeats. */
  function CreateGraph(created: set<string>, tm: map<string, TableSnapshot>): (g: Graph)
    ensures g.Valid() && g.Nodes() == created
  {
    Graph(map k | k in created ::
      if k in tm then SortedKeys(ReferencesTo(tm[k].foreignKeys, k, created)) else [])
  }

  function TopoCreateTables(entries: seq<Entry>, tm: map<string, TableSnapshot>): seq<Entry> {
    hide CreateMap, CreateGraph, Placed, OnCycle, TopoOrder, NoRepeats;
    var byKey := CreateMap(entries);
    var order := TopoOrder(CreateGraph(byKey.Keys, tm));
    TopoOrderPlaces(CreateGraph(byKey.Keys, tm));
    seq(|order|, i requires 0 <= i < |order| => byKey[order[i]])
  }

  function OrderEntries(collected: seq<Entry>, tm: map<string, TableSnapshot>): seq<Entry> {
    var sorted := SortBy(BeforeInPlan, collected);
    Substitute(sorted, TopoCreateTables(sorted, tm), IsCreate)
  }

  predicate Comparable(source: Snapshot, target: Snapshot) {
    source.kind != Redis && target.kind != Redis && source.kind == target.kind
  }

  function Diff(source: Snapshot, target: Snapshot, opts: Options): Outcome<seq<Entry>> {
    if !Comparable(source, target) then Fail else
    var sm, tm := TableMap(source), TableMap(target);
    Ok(OrderEntries(Collected(source.kind, sm, tm, opts), tm))
  }
}
