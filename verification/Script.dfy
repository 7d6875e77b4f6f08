/// From selected entries to a statement script and its rollback
/// (go/pkg/schemadiff/ddl.go).  SQL text is represented by its structure.
module Script {
  import opened Text
  import opened Sequences
  import opened Normalize
  import opened TypeNames
  import opened Snapshots
  import opened Graph
  import opened Plan
  import opened PlanOrder
  import opened Mirror

  // ---- SQL, as structure ----

  datatype ColumnDef = ColumnDef(name: string, typ: string, notNull: bool, dflt: Option<string>)

  datatype FkClause = FkClause(columns: seq<string>, refTable: string, refColumns: seq<string>,
                               onDelete: FkAction, onUpdate: FkAction)

  datatype TableBody = TableBody(columns: seq<ColumnDef>, pk: seq<string>,
                                 uniques: seq<seq<string>>, fks: seq<FkClause>)

  datatype Sql = CreateTableSql(name: string, body: TableBody)
               | InsertSelect(into: string, columns: seq<string>, source: string)
               | DropTableSql(name: string)
               | RenameSql(name: string, newName: string)
               | AddColumnSql(table: string, column: ColumnDef)
               | DropColumnSql(table: string, name: string)
               | CreateIndexSql(unique: bool, name: string, table: string, columns: seq<string>)
               | DropIndexSql(name: string)
               | PragmaForeignKeys(on: bool)

  datatype Statement = Statement(entryIds: seq<string>, sql: Sql, phase: nat, table: string,
                                 nonReversible: bool, fkCycle: bool)

  datatype ScriptResult = ScriptResult(statements: seq<Statement>, rollback: seq<Statement>,
                                       pragmasOutsideTx: bool, ddlInTx: bool)

  // ---- Table bodies ----

  function ColumnDefOf(kind: DatabaseKind, c: ColumnInfo): ColumnDef {
    ColumnDef(c.name, NormalizeType(kind, c.dataType), !c.nullable, StoredDefault(c.defaultValue))
  }

  function ColumnDefs(kind: DatabaseKind, cols: seq<ColumnInfo>): seq<ColumnDef> {
    seq(|cols|, i requires 0 <= i < |cols| => ColumnDefOf(kind, cols[i]))
  }

  function FkClauseOf(fk: ForeignKeyInfo): FkClause {
    FkClause(fk.columns, fk.referencedTable, fk.referencedColumns, fk.onDelete, fk.onUpdate)
  }

  function Quote(name: string): string { "\"" + DoubleQuotes(name) + "\"" }

  function DoubleQuotes(s: string): string {
    if s == [] then [] else (if s[0] == '"' then "\"\"" else [s[0]]) + DoubleQuotes(s[1..])
  }

  function JoinIdents(cols: seq<string>): string { Join(Map(Quote, cols), ",") }

  predicate BeforeFk(a: ForeignKeyInfo, b: ForeignKeyInfo) {
    Leq(JoinIdents(a.columns) + ">" + JoinIdents(a.referencedColumns),
        JoinIdents(b.columns) + ">" + JoinIdents(b.referencedColumns))
  }

  predicate BeforeIndexName(a: IndexInfo, b: IndexInfo) { Leq(Lower(a.name), Lower(b.name)) }

  predicate IsUniqueConstraint(idx: IndexInfo) { !idx.primary && IsAutoIndex(idx.name) }

  predicate IsUserIndex(idx: IndexInfo) { !idx.primary && !IsAutoIndex(idx.name) }

  /** createTableBody: columns in order, then PRIMARY KEY, UNIQUE and FOREIGN KEY clauses. */
  function TableBodyOf(kind: DatabaseKind, t: TableSnapshot): TableBody {
    TableBody(ColumnDefs(kind, OrderedColumns(t)),
              PkColumns(t),
              Map(IndexColumns, SortBy(BeforeIndexName, Filter(t.indexes, IsUniqueConstraint))),
              Map(FkClauseOf, SortBy(BeforeFk, t.foreignKeys)))
  }

  // ---- Indexes by name ----

  function Underscored(s: string): string {
    seq(|s|, i requires 0 <= i < |s| => if s[i] == ',' then '_' else s[i])
  }

  function IndexExecName(t: TableSnapshot, idx: IndexInfo): string {
    if Trim(idx.name) != "" then idx.name else "polydb_idx_" + t.name + "_" + Underscored(IndexSig(idx))
  }

  function CreateIndexOf(t: TableSnapshot, idx: IndexInfo): Sql {
    CreateIndexSql(idx.unique, IndexExecName(t, idx), t.name, IndexColumns(idx))
  }

  // ---- Which entries force a rebuild ----

  predicate NonReversible(e: Entry) {
    e.op in {DropTable, DropColumn} || (e.op == AlterColumn && (TypeFlag in e.flags || NullabilityFlag in e.flags))
  }

  predicate IndexNeedsRebuild(t: Option<TableSnapshot>, obj: string) {
    if t.Some? && FindIndex(t.value, obj).Some? then
      FindIndex(t.value, obj).value.primary || IsAutoIndex(FindIndex(t.value, obj).value.name)
    else IsAutoIndex(obj)
  }

  predicate InSomeIndex(t: TableSnapshot, col: string) {
    exists i, c :: i in t.indexes && c in i.columns && Lower(c.name) == col
  }

  predicate NeedsRebuild(e: Entry, src: Option<TableSnapshot>, tgt: Option<TableSnapshot>) {
    match e.op
    case AlterColumn => true
    case AddForeignKey => true
    case DropForeignKey => true
    case DropColumn =>
      src.Some? &&
      var col := Lower(Trim(e.obj));
      (ColumnOf(src.value, col).Some? && ColumnOf(src.value, col).value.isPrimaryKey) || InSomeIndex(src.value, col)
    case AddIndex => IndexNeedsRebuild(tgt, e.obj)
    case DropIndex => IndexNeedsRebuild(src, e.obj)
    case _ => false
  }

  // ---- The temporary name ----

  const TMP := "polydb_tmp_"

  function TmpCandidate(base: string, n: nat): string {
    if n <= 1 then TMP + base else TMP + base + "_" + Decimal(n)
  }

  lemma TmpCandidatesDiffer(base: string, m: nat, n: nat)
    requires 1 <= m < n
    ensures Lower(TmpCandidate(base, m)) != Lower(TmpCandidate(base, n))
  {
    hide Decimal;
    LowerDecimal(m);
    LowerDecimal(n);
    DecimalRoundTrip(m);
    DecimalRoundTrip(n);
    var p := Lower(TMP + base);
    LowerConcat(TMP + base + "_", Decimal(m));
    LowerConcat(TMP + base + "_", Decimal(n));
    LowerConcat(TMP + base, "_");
    var q := p + Lower("_");
    assert (q + Decimal(m))[|q|..] == Decimal(m) && (q + Decimal(n))[|q|..] == Decimal(n);
    assert |q + Decimal(n)| > |p|;
  }

  lemma LowerDecimal(n: nat)
    ensures Lower(Decimal(n)) == Decimal(n)
  {
    hide Decimal;
    DecimalRoundTrip(n);
  }

  /** The first candidate from n on outside `left`, the taken names not yet tried. */
  function TmpFrom(base: string, left: set<string>, n: nat): string
    decreases left
  {
    var cand := Lower(TmpCandidate(base, n));
    if cand in left then TmpFrom(base, left - {cand}, n + 1) else TmpCandidate(base, n)
  }

  function TmpNameOf(base: string, taken: set<string>): string { TmpFrom(base, taken, 1) }

  lemma {:induction false} TmpFromFree(base: string, taken: set<string>, left: set<string>, n: nat) returns (m: nat)
    requires n >= 1 && left <= taken
    requires forall i :: i >= n && Lower(TmpCandidate(base, i)) in taken ==> Lower(TmpCandidate(base, i)) in left
    ensures m >= n && TmpFrom(base, left, n) == TmpCandidate(base, m) && Lower(TmpCandidate(base, m)) !in taken
    ensures forall i :: n <= i < m ==> Lower(TmpCandidate(base, i)) in taken
    decreases left
  {
    hide TmpCandidate;
    var cand := Lower(TmpCandidate(base, n));
    if cand in left {
      forall i | i >= n + 1 && Lower(TmpCandidate(base, i)) in taken ensures Lower(TmpCandidate(base, i)) in left - {cand} {
        TmpCandidatesDiffer(base, n, i);
      }
      m := TmpFromFree(base, taken, left - {cand}, n + 1);
    } else {
      m := n;
    }
  }

  /** The search ends outside the taken names, at the least free candidate. */
  lemma TmpNameFree(base: string, taken: set<string>) returns (m: nat)
    ensures m >= 1 && TmpNameOf(base, taken) == TmpCandidate(base, m) && Lower(TmpNameOf(base, taken)) !in taken
    ensures forall i :: 1 <= i < m ==> Lower(TmpCandidate(base, i)) in taken
  {
    m := TmpFromFree(base, taken, taken, 1);
  }

  method TmpName(base: string, taken: set<string>) returns (cand: string)
    ensures cand == TmpNameOf(base, taken)
    ensures Lower(cand) !in taken
  {
    ghost var end := TmpNameFree(base, taken);
    hide TmpNameOf;
    cand := TMP + base;
    var n: nat := 2;
    assert cand == TmpCandidate(base, 1);
    while Lower(cand) in taken
      invariant 2 <= n <= end + 1 && cand == TmpCandidate(base, n - 1)
      decreases end + 1 - n
    {
      cand := TMP + base + "_" + Decimal(n);
      n := n + 1;
    }
  }

  // ---- Statements ----

  function Stmt(ids: seq<string>, sql: Sql, phase: nat, table: string, nr: bool): Statement {
    Statement(ids, sql, phase, table, nr, false)
  }

  function CommonColumns(src: TableSnapshot, cols: seq<ColumnInfo>): seq<string> {
    if cols == [] then []
    else if Lower(cols[0].name) in ColumnMap(src) then [cols[0].name] + CommonColumns(src, cols[1..])
    else CommonColumns(src, cols[1..])
  }

  function BeforeExecName(t: TableSnapshot): (IndexInfo, IndexInfo) -> bool {
    (a: IndexInfo, b: IndexInfo) => Leq(Lower(IndexExecName(t, a)), Lower(IndexExecName(t, b)))
  }

  function UserIndexes(t: TableSnapshot): seq<IndexInfo> {
    SortBy(BeforeExecName(t), Filter(t.indexes, IsUserIndex))
  }

  function IndexStatements(t: TableSnapshot, idxs: seq<IndexInfo>, ids: seq<string>, phase: nat, nr: bool): seq<Statement> {
    seq(|idxs|, i requires 0 <= i < |idxs| => Stmt(ids, CreateIndexOf(t, idxs[i]), phase, t.name, nr))
  }

  /** rebuildStatements: create, copy, drop, rename, then the user indexes. */
  function RebuildStatements(kind: DatabaseKind, tgt: TableSnapshot, src: TableSnapshot, taken: set<string>,
                             ids: seq<string>, phase: nat, nr: bool): seq<Statement> {
    var tmp := TmpNameOf(tgt.name, taken);
    [Stmt(ids, CreateTableSql(tmp, TableBodyOf(kind, tgt)), phase, tgt.name, nr),
     Stmt(ids, InsertSelect(tmp, CommonColumns(src, OrderedColumns(tgt)), src.name), phase, tgt.name, nr),
     Stmt(ids, DropTableSql(src.name), phase, tgt.name, nr),
     Stmt(ids, RenameSql(tmp, tgt.name), phase, tgt.name, nr)]
    + IndexStatements(tgt, UserIndexes(tgt), ids, phase, nr)
  }

  function DropIndexName(src: Option<TableSnapshot>, obj: string): string {
    if src.Some? && FindIndex(src.value, obj).Some?
    then IndexExecName(src.value, FindIndex(src.value, obj).value) else Trim(obj)
  }

  /** A default isConstantDefault slices past the end of (ddl.go:327-331); directStatement asks it for every added column. */
  predicate StubDefault(raw: Option<string>) { LiteralDefault(raw) in {"x'", "X'"} }

  /** directStatement: one statement for one entry, or a refusal, or a panic. */
  function DirectSql(kind: DatabaseKind, e: Entry, src: Option<TableSnapshot>, tgt: Option<TableSnapshot>): Outcome<Sql> {
    match e.op
    case CreateTable =>
      if tgt.None? then Fail else Ok(CreateTableSql(tgt.value.name, TableBodyOf(kind, tgt.value)))
    case DropTable => Ok(DropTableSql(e.table))
    case AddColumn =>
      if tgt.None? || ColumnOf(tgt.value, e.obj).None? then Fail
      else if StubDefault(ColumnOf(tgt.value, e.obj).value.defaultValue) then Panic
      else Ok(AddColumnSql(e.table, ColumnDefOf(kind, ColumnOf(tgt.value, e.obj).value)))
    case DropColumn => Ok(DropColumnSql(e.table, Trim(e.obj)))
    case AddIndex =>
      if tgt.None? || FindIndex(tgt.value, e.obj).None? then Fail
      else Ok(CreateIndexOf(tgt.value, FindIndex(tgt.value, e.obj).value))
    case DropIndex => Ok(DropIndexSql(DropIndexName(src, e.obj)))
    case _ => Fail
  }

  function Lookup<T>(m: map<string, T>, k: string): Option<T> { if k in m then Some(m[k]) else None }

  // ---- Blocks: what the emission loop outputs, one unit at a time ----

  /** One direct statement, or one contiguous rebuild group. */
  datatype Block = Direct(entry: Entry) | Group(key: string, ids: seq<string>, phase: nat, nr: bool)

  datatype Emission = Emission(kind: DatabaseKind, src: map<string, TableSnapshot>, tgt: map<string, TableSnapshot>,
                               taken: set<string>, cyclic: set<string>)

  function OnTable(k: string): Entry -> bool { (e: Entry) => Lower(e.table) == k }

  /** Tables the entries rebuild: by an entry's own need, or because they are forced. */
  function RebuildSet(x: Emission, entries: seq<Entry>, forced: set<string>): set<string> {
    set e | e in entries && (Lower(e.table) in forced
                             || NeedsRebuild(e, Lookup(x.src, Lower(e.table)), Lookup(x.tgt, Lower(e.table))))
      :: Lower(e.table)
  }

  predicate AnyNonReversible(entries: seq<Entry>) {
    exists i :: 0 <= i < |entries| && NonReversible(entries[i])
  }

  function GroupOf(all: seq<Entry>, k: string, phase: nat): Block {
    var own := Filter(all, OnTable(k));
    Group(k, Ids(own), phase, AnyNonReversible(own))
  }

  function Blocks(entries: seq<Entry>, all: seq<Entry>, rebuild: set<string>, done: set<string>): seq<Block> {
    if entries == [] then [] else
    var e := entries[0];
    var k := Lower(e.table);
    if k in rebuild then
      if k in done then Blocks(entries[1..], all, rebuild, done)
      else [GroupOf(all, k, Phase(e.op))] + Blocks(entries[1..], all, rebuild, done + {k})
    else [Direct(e)] + Blocks(entries[1..], all, rebuild, done)
  }

  function BlockStatements(x: Emission, b: Block): Outcome<seq<Statement>> {
    match b
    case Direct(e) =>
      var k := Lower(e.table);
      var sql := DirectSql(x.kind, e, Lookup(x.src, k), Lookup(x.tgt, k));
      if !sql.Ok? then Stopped(sql)
      else Ok([Statement([Id(e)], sql.value, Phase(e.op), e.table, NonReversible(e), e.op == CreateTable && k in x.cyclic)])
    case Group(k, ids, phase, nr) =>
      if k !in x.tgt || k !in x.src then Fail
      else Ok(RebuildStatements(x.kind, x.tgt[k], x.src[k], x.taken, ids, phase, nr))
  }

  function AllStatements(x: Emission, blocks: seq<Block>): Outcome<seq<Statement>> {
    if blocks == [] then Ok([]) else
    var init := AllStatements(x, blocks[..|blocks| - 1]);
    var last := BlockStatements(x, blocks[|blocks| - 1]);
    if !init.Ok? then init else if !last.Ok? then last else Ok(init.value + last.value)
  }

  const PRAGMA_OFF := Statement([], PragmaForeignKeys(false), 0, "", false, false)

  const PRAGMA_ON := Statement([], PragmaForeignKeys(true), 255, "", false, false)

  function Wrapped(out: seq<Statement>, rebuild: set<string>): seq<Statement> {
    if rebuild == {} then out else [PRAGMA_OFF] + out + [PRAGMA_ON]
  }

  function TakenNames(source: Snapshot, target: Snapshot): set<string> {
    TableMap(source).Keys + TableMap(target).Keys + ViewMap(source).Keys + ViewMap(target).Keys
  }

  lemma KeyTaken(s: Snapshot, t: TableSnapshot)
    requires t in s.tables
    ensures Lower(t.name) in TableMap(s) || Lower(t.name) in ViewMap(s)
  {
    hide Lower;
    FirstWinsKeys(s.tables, TableKey, IsTable);
    FirstWinsKeys(s.tables, TableKey, IsView);
  }

  /** A temporary name is none of the tables or views of either side, ignoring case. */
  lemma TmpNameAvoids(source: Snapshot, target: Snapshot, base: string, t: TableSnapshot)
    requires t in source.tables || t in target.tables
    ensures Lower(TmpNameOf(base, TakenNames(source, target))) != Lower(t.name)
  {
    hide Lower, TmpNameOf, TableMap, ViewMap;
    var m := TmpNameFree(base, TakenNames(source, target));
    if t in source.tables {
      KeyTaken(source, t);
    } else {
      KeyTaken(target, t);
    }
  }

  ghost function CyclicSet(entries: seq<Entry>, tm: map<string, TableSnapshot>): set<string> {
    set k | k in CreateMap(entries) && OnCycle(PlanGraph(entries, tm), k)
  }

  ghost function EmissionOf(source: Snapshot, target: Snapshot, entries: seq<Entry>): Emission {
    Emission(source.kind, TableMap(source), TableMap(target), TakenNames(source, target),
             CyclicSet(entries, TableMap(target)))
  }

  /** emitScript: the statements of one direction and the tables it rebuilds. */
  ghost function EmitScript(source: Snapshot, target: Snapshot, entries: seq<Entry>, forced: set<string>)
    : Outcome<(seq<Statement>, set<string>)>
  {
    var x := EmissionOf(source, target, entries);
    var rebuild := RebuildSet(x, entries, forced);
    var out := AllStatements(x, Blocks(entries, entries, rebuild, {}));
    if !out.Ok? then Stopped(out) else Ok((Wrapped(out.value, rebuild), rebuild))
  }

  predicate Supported(source: Snapshot, target: Snapshot) {
    Comparable(source, target) && source.kind == Sqlite
  }

  function WithIds(ids: set<string>): Entry -> bool { (e: Entry) => Id(e) in ids }

  /** Generate: the forward script, and the rollback from the reverse comparison. */
  ghost function Generate(source: Snapshot, target: Snapshot, entries: seq<Entry>, opts: Options): Outcome<ScriptResult> {
    if !Supported(source, target) then Fail else
    var forward := EmitScript(source, target, entries, {});
    if !forward.Ok? then Stopped(forward) else
    var want := set id | id in MirrorIds(entries);
    var reverse := Filter(Diff(target, source, opts).value, WithIds(want));
    var back := EmitScript(target, source, reverse, forward.value.1);
    if !back.Ok? then Stopped(back)
    else Ok(ScriptResult(forward.value.0, back.value.0, forward.value.1 != {} || back.value.1 != {}, true))
  }

  // ---- SelectEntries ----

  function PickedBy(selected: seq<string>): Entry -> bool { (e: Entry) => Id(e) in selected }

  function Picked(plan: seq<Entry>, selected: seq<string>): seq<Entry> { Filter(plan, PickedBy(selected)) }

  function SelectedRebuilds(source: Snapshot, target: Snapshot, picked: seq<Entry>): set<string> {
    RebuildSet(Emission(source.kind, TableMap(source), TableMap(target), {}, {}), picked, {})
  }

  predicate Stale(plan: seq<Entry>, selected: seq<string>) {
    exists id :: id in selected && id !in Ids(plan)
  }

  /** A rebuilt table with an entry left out of the selection. */
  predicate PartialRebuild(plan: seq<Entry>, selected: seq<string>, rebuild: set<string>) {
    exists e :: e in plan && Lower(e.table) in rebuild && Id(e) !in selected
  }

  function SelectEntries(source: Snapshot, target: Snapshot, plan: seq<Entry>, selected: seq<string>): Outcome<seq<Entry>> {
    if Stale(plan, selected) then Fail else
    var picked := Picked(plan, selected);
    if PartialRebuild(plan, selected, SelectedRebuilds(source, target, picked)) then Fail else Ok(picked)
  }
}
