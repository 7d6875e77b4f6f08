/// An abstract SQLite database and what each generated statement does to it.
/// Names are keyed in lower case; a statement SQLite refuses yields None.
module Database {
  import opened Text
  import opened Sequences
  import opened Normalize
  import opened TypeNames
  import opened Snapshots
  import opened Script
  import opened Defaults

  datatype Value = Null | Datum(text: string)

  type Row = map<string, Value>

  datatype ColState = ColState(typ: string, notNull: bool, dflt: Option<string>)

  datatype FkState = FkState(columns: seq<string>, refTable: string, refColumns: seq<string>,
                             onDelete: FkAction, onUpdate: FkAction)

  datatype IndexState = IndexState(unique: bool, columns: seq<string>)

  datatype TableDef = TableDef(cols: map<string, ColState>, pk: seq<string>, uniques: set<seq<string>>,
                               fks: set<FkState>, indexes: map<string, IndexState>)

  datatype Table = Table(def: TableDef, rows: seq<Row>)

  /** Each view with the tables and views it reads; `enforce` is the foreign_keys pragma. */
  datatype Db = Db(tables: map<string, Table>, views: map<string, set<string>>, enforce: bool)

  // ---- Values and constraints ----

  function Get(row: Row, c: string): Value { if c in row then row[c] else Null }

  /** What a column without an explicit value receives. */
  function DefaultValue(dflt: Option<string>): Value {
    match NormalizeDefault(dflt)
    case None => Null
    case Some(text) => Datum(text)
  }

  predicate DistinctOn(rows: seq<Row>, cols: seq<string>) {
    forall i, j :: 0 <= i < j < |rows| ==>
      exists c :: c in cols && (Get(rows[i], c) == Null || Get(rows[i], c) != Get(rows[j], c))
  }

  predicate NotNullOk(cols: map<string, ColState>, row: Row) {
    forall c :: c in cols && cols[c].notNull ==> Get(row, c) != Null
  }

  predicate RowsOk(def: TableDef, rows: seq<Row>) {
    && (forall i :: 0 <= i < |rows| ==> NotNullOk(def.cols, rows[i]))
    && (def.pk != [] ==> DistinctOn(rows, def.pk))
    && (forall u :: u in def.uniques ==> DistinctOn(rows, u))
  }

  // ---- Definitions from statements ----

  function ColOf(c: ColumnDef): ColState { ColState(c.typ, c.notNull, c.dflt) }

  function DefColumns(cols: seq<ColumnDef>): map<string, ColState> {
    if cols == [] then map[] else
    DefColumns(cols[..|cols| - 1])[Lower(cols[|cols| - 1].name) := ColOf(cols[|cols| - 1])]
  }

  /** SQLite reads a missing action clause as NO ACTION. */
  function ActionOf(a: FkAction): FkAction { if a.Unstated? then NoAction else a }

  function FkOf(f: FkClause): FkState {
    FkState(LowerAll(f.columns), Lower(f.refTable), LowerAll(f.refColumns), ActionOf(f.onDelete), ActionOf(f.onUpdate))
  }

  function DefOfBody(b: TableBody): TableDef {
    TableDef(DefColumns(b.columns), LowerAll(b.pk),
             (set u | u in b.uniques :: LowerAll(u)), (set f | f in b.fks :: FkOf(f)), map[])
  }

  predicate DistinctNames(cols: seq<ColumnDef>) {
    forall i, j :: 0 <= i < j < |cols| ==> Lower(cols[i].name) != Lower(cols[j].name)
  }

  predicate Within(names: seq<string>, cols: map<string, ColState>) {
    forall n :: n in names ==> n in cols
  }

  predicate UniqueFits(u: seq<string>, cols: map<string, ColState>) { u != [] && Within(u, cols) }

  predicate FkFits(f: FkState, cols: map<string, ColState>) {
    f.columns != [] && |f.columns| == |f.refColumns| && Within(f.columns, cols)
  }

  /** Every DEFAULT clause is one SQLite takes. */
  predicate ClausesOk(cols: seq<ColumnDef>) { forall i :: 0 <= i < |cols| ==> ClauseOk(cols[i].dflt) }

  /** What CREATE TABLE demands of its body. */
  predicate BodyOk(b: TableBody) {
    var def := DefOfBody(b);
    && b.columns != [] && DistinctNames(b.columns) && ClausesOk(b.columns)
    && Within(def.pk, def.cols)
    && (forall u :: u in def.uniques ==> UniqueFits(u, def.cols))
    && (forall f :: f in def.fks ==> FkFits(f, def.cols))
  }

  // ---- Changes to one table ----

  /** INSERT INTO def(cols) SELECT cols FROM source, into an empty table. */
  function CopyRow(def: TableDef, cols: seq<string>, row: Row): Row {
    map c | c in def.cols :: if c in cols then Get(row, c) else DefaultValue(def.cols[c].dflt)
  }

  function CopyRows(def: TableDef, cols: seq<string>, rows: seq<Row>): seq<Row> {
    seq(|rows|, i requires 0 <= i < |rows| => CopyRow(def, cols, rows[i]))
  }

  function CopyInto(t: Table, cols: seq<string>, source: Table): Option<Table> {
    var keys := LowerAll(cols);
    var rows := t.rows + CopyRows(t.def, keys, source.rows);
    if cols != [] && Within(keys, t.def.cols) && Within(keys, source.def.cols) && RowsOk(t.def, rows)
    then Some(t.(rows := rows)) else None
  }

  function WithColumn(rows: seq<Row>, k: string, v: Value): seq<Row> {
    seq(|rows|, i requires 0 <= i < |rows| => rows[i][k := v])
  }

  /** The rows that are there get the default: a value at hand, and not NULL in a NOT NULL column. */
  predicate Fillable(c: ColState, rows: seq<Row>) {
    rows == [] || (ValueAtHand(c.dflt) && (!c.notNull || DefaultValue(c.dflt) != Null))
  }

  predicate ColumnAddable(c: ColState, rows: seq<Row>) { ClauseOk(c.dflt) && Fillable(c, rows) }

  function AddColumnTo(t: Table, k: string, c: ColState): Option<Table> {
    if k in t.def.cols || !ColumnAddable(c, t.rows) then None
    else Some(Table(t.def.(cols := t.def.cols[k := c]), WithColumn(t.rows, k, DefaultValue(c.dflt))))
  }

  function WithoutColumn(rows: seq<Row>, k: string): seq<Row> {
    seq(|rows|, i requires 0 <= i < |rows| => rows[i] - {k})
  }

  /** A column the key, a constraint or an index uses cannot be dropped. */
  predicate ColumnUsed(def: TableDef, k: string) {
    || k in def.pk
    || (exists u :: u in def.uniques && k in u)
    || (exists f :: f in def.fks && k in f.columns)
    || (exists n :: n in def.indexes && k in def.indexes[n].columns)
  }

  function DropColumnFrom(t: Table, k: string): Option<Table> {
    if k !in t.def.cols || ColumnUsed(t.def, k) || t.def.cols.Keys == {k} then None
    else Some(Table(t.def.(cols := t.def.cols - {k}), WithoutColumn(t.rows, k)))
  }

  function AddIndexTo(t: Table, n: string, idx: IndexState): Option<Table> {
    if n in t.def.indexes || idx.columns == [] || !Within(idx.columns, t.def.cols)
       || (idx.unique && !DistinctOn(t.rows, idx.columns)) then None
    else Some(t.(def := t.def.(indexes := t.def.indexes[n := idx])))
  }

  function DropIndexFrom(t: Table, n: string): Option<Table> {
    if n !in t.def.indexes then None else Some(t.(def := t.def.(indexes := t.def.indexes - {n})))
  }

  // ---- Changes to the database ----

  predicate IndexNameUsed(db: Db, n: string) {
    exists k :: k in db.tables && n in db.tables[k].def.indexes
  }

  predicate NameUsed(db: Db, k: string) { k in db.tables || k in db.views || IndexNameUsed(db, k) }

  /** A view reads something that is not there: ALTER TABLE re-parses every view and refuses. */
  predicate BrokenView(views: map<string, set<string>>, tables: set<string>) {
    exists v, r :: v in views && r in views[v] && r !in tables && r !in views
  }

  // ---- DROP TABLE under enforcement: an implicit DELETE of every row first ----

  /** The child row's key columns hold the parent row's, none of them NULL. */
  predicate Refers(child: Row, f: FkState, parent: Row) {
    && f.columns != [] && |f.columns| == |f.refColumns|
    && forall i :: 0 <= i < |f.columns| ==>
         Get(child, f.columns[i]) != Null && Get(child, f.columns[i]) == Get(parent, f.refColumns[i])
  }

  predicate SameList(a: seq<string>, b: seq<string>) { |a| == |b| && (forall c :: c in a ==> c in b) && (forall c :: c in b ==> c in a) }

  /** What a foreign key may refer to: the primary key, a UNIQUE list or a unique index. */
  predicate IsKey(def: TableDef, cols: seq<string>) {
    || SameList(cols, def.pk)
    || (exists u :: u in def.uniques && SameList(cols, u))
    || (exists n :: n in def.indexes && def.indexes[n].unique && SameList(cols, def.indexes[n].columns))
  }

  /** Row i of t refers to row j of the foreign key's parent; a key that does not match the parent is ignored. */
  predicate PointsAt(tables: map<string, Table>, t: string, i: nat, f: FkState, j: nat) {
    && t in tables && i < |tables[t].rows| && f in tables[t].def.fks && f.refTable in tables
    && j < |tables[f.refTable].rows| && IsKey(tables[f.refTable].def, f.refColumns)
    && Refers(tables[t].rows[i], f, tables[f.refTable].rows[j])
  }

  /** Row i of t goes with the rows of k within n steps of CASCADE. */
  ghost predicate Falls(tables: map<string, Table>, k: string, t: string, i: nat, n: nat)
    decreases n
  {
    && t in tables && i < |tables[t].rows|
    && (t == k || (n > 0 && exists f: FkState, j: nat :: f.onDelete == Cascade && PointsAt(tables, t, i, f, j) && Falls(tables, k, f.refTable, j, n - 1)))
  }

  ghost predicate Goes(tables: map<string, Table>, k: string, t: string, i: nat) { exists n: nat :: Falls(tables, k, t, i, n) }

  /** Row i of t refers by f to a row that goes. */
  ghost predicate Loses(tables: map<string, Table>, k: string, t: string, i: nat, f: FkState) {
    exists j: nat :: PointsAt(tables, t, i, f, j) && Goes(tables, k, f.refTable, j)
  }

  predicate Acts(f: FkState) { f.onDelete in {Cascade, SetNull, SetDefault} }

  /** A row that stays would be left without its parent; or RESTRICT meets a later row of the same table. */
  ghost predicate Held(tables: map<string, Table>, k: string) {
    || (exists t, i: nat, f: FkState :: !Acts(f) && Loses(tables, k, t, i, f) && !Goes(tables, k, t, i))
    || (exists i: nat, j: nat, f: FkState :: f.onDelete == Restrict && f.refTable == k && i < j && PointsAt(tables, k, j, f, i))
  }

  /** A column of a row that stays, after SET NULL and SET DEFAULT. */
  ghost function MendedValue(tables: map<string, Table>, k: string, t: string, i: nat, c: string): Value
    requires t in tables && i < |tables[t].rows|
  {
    if exists f: FkState :: f.onDelete == SetNull && c in f.columns && Loses(tables, k, t, i, f) then Null
    else if c in tables[t].def.cols && exists f: FkState :: f.onDelete == SetDefault && c in f.columns && Loses(tables, k, t, i, f) then
      DefaultValue(tables[t].def.cols[c].dflt)
    else Get(tables[t].rows[i], c)
  }

  ghost function Mended(tables: map<string, Table>, k: string, t: string, i: nat): (r: Row)
    requires t in tables && i < |tables[t].rows|
    ensures r.Keys == tables[t].rows[i].Keys
  {
    map c | c in tables[t].rows[i] :: MendedValue(tables, k, t, i, c)
  }

  /** Of the first n rows, those that stay. */
  ghost function Staying(tables: map<string, Table>, k: string, t: string, n: nat): seq<Row>
    requires t in tables && n <= |tables[t].rows|
  {
    if n == 0 then []
    else Staying(tables, k, t, n - 1) + if Goes(tables, k, t, n - 1) then [] else [Mended(tables, k, t, n - 1)]
  }

  ghost function AfterDelete(tables: map<string, Table>, k: string): map<string, Table> {
    map t | t in tables :: tables[t].(rows := Staying(tables, k, t, |tables[t].rows|))
  }

  ghost predicate Touched(tables: map<string, Table>, k: string, t: string, i: nat) {
    !Goes(tables, k, t, i) && exists f: FkState :: Loses(tables, k, t, i, f)
  }

  /** The rows SET NULL and SET DEFAULT leave meet their table's constraints, and refer to something again. */
  ghost predicate MendsWell(tables: map<string, Table>, k: string, t: string, i: nat)
    requires t in tables && i < |tables[t].rows|
  {
    var after := AfterDelete(tables, k);
    && RowsOk(after[t].def, after[t].rows)
    && (forall n :: n in after[t].def.indexes && after[t].def.indexes[n].unique ==> DistinctOn(after[t].rows, after[t].def.indexes[n].columns))
    && (forall f: FkState :: f.onDelete == SetDefault && Loses(tables, k, t, i, f) ==>
          || (exists c :: c in f.columns && Get(Mended(tables, k, t, i), c) == Null)
          || (f.refTable != k && exists p :: p in after[f.refTable].rows && Refers(Mended(tables, k, t, i), f, p)))
    && (forall u, j: nat, g: FkState :: PointsAt(tables, u, j, g, i) && g.refTable == t && !Goes(tables, k, u, j) ==>
          forall c :: c in g.refColumns ==> MendedValue(tables, k, t, i, c) == Get(tables[t].rows[i], c))
  }

  /** A row of k would be set to NULL, in a NOT NULL column, by the deletion of an earlier row of k, before it goes itself. */
  ghost predicate Bruised(tables: map<string, Table>, k: string) {
    exists i: nat, j: nat, f: FkState, c :: f.refTable == k && i < j && PointsAt(tables, k, j, f, i) && c in f.columns
      && c in tables[k].def.cols && tables[k].def.cols[c].notNull
      && (f.onDelete == SetNull || (f.onDelete == SetDefault && DefaultValue(tables[k].def.cols[c].dflt) == Null))
  }

  // ---- The same where no foreign key into the table acts: SQLite counts violations, row by row ----

  /** No foreign key into these tables deletes or changes rows. */
  predicate Inert(tables: map<string, Table>, keys: set<string>) {
    forall t, f :: t in tables && f in tables[t].def.fks && f.refTable in keys ==> !Acts(f)
  }

  /** Some foreign key names the table; without one SQLite does not look at the rows. */
  predicate Referenced(tables: map<string, Table>, k: string) {
    exists t, f :: t in tables && f in tables[t].def.fks && f.refTable == k
  }

  predicate Full(row: Row, f: FkState) { forall i :: 0 <= i < |f.columns| ==> Get(row, f.columns[i]) != Null }

  /** When row i of k goes, the rows before it gone, nothing is there that it refers to by f. */
  ghost predicate Astray(tables: map<string, Table>, k: string, i: nat, f: FkState)
    requires k in tables && i < |tables[k].rows|
  {
    && f in tables[k].def.fks && Full(tables[k].rows[i], f) && f.refTable in tables && IsKey(tables[f.refTable].def, f.refColumns)
    && forall j: nat :: PointsAt(tables, k, i, f, j) ==> f.refTable == k && j < i
  }

  /** The foreign keys by which row i of k refers to nothing. */
  ghost function Astrays(tables: map<string, Table>, k: string, i: nat): set<FkState>
    requires k in tables && i < |tables[k].rows|
  {
    set f | f in tables[k].def.fks && Astray(tables, k, i, f)
  }

  /** Those by which it refers to a table that is not there. */
  function Adrift(tables: map<string, Table>, k: string, i: nat): set<FkState>
    requires k in tables && i < |tables[k].rows|
  {
    set f | f in tables[k].def.fks && Full(tables[k].rows[i], f) && f.refTable !in tables
  }

  datatype Reference = Reference(table: string, row: nat, fk: FkState)

  /** Row i of k is referred to, by a row that is not gone when i goes and is not i itself. */
  predicate Orphans(tables: map<string, Table>, k: string, i: nat, r: Reference) {
    PointsAt(tables, r.table, r.row, r.fk, i) && r.fk.refTable == k && (r.table == k ==> r.row > i)
  }

  function References(tables: map<string, Table>): set<Reference> {
    set t, j, f | t in tables && 0 <= j < |tables[t].rows| && f in tables[t].def.fks :: Reference(t, j, f)
  }

  function Orphaned(tables: map<string, Table>, k: string, i: nat): set<Reference> {
    set r | r in References(tables) && Orphans(tables, k, i, r)
  }

  /** A row that refers to nothing takes a violation back while some are counted; one adrift always does. */
  ghost function CountAfter(tables: map<string, Table>, k: string, i: nat, c: int): int
    requires k in tables && i < |tables[k].rows|
  {
    (if 0 <= c <= |Astrays(tables, k, i)| then 0 else c - |Astrays(tables, k, i)|) - |Adrift(tables, k, i)| + |Orphaned(tables, k, i)|
  }

  /** The violations counted when the first n rows of k have gone. */
  ghost function Violations(tables: map<string, Table>, k: string, n: nat): int
    requires k in tables && n <= |tables[k].rows|
  {
    if n == 0 then 0 else CountAfter(tables, k, n - 1, Violations(tables, k, n - 1))
  }

  ghost predicate Restricted(tables: map<string, Table>, k: string) {
    exists i: nat, r: Reference :: Orphans(tables, k, i, r) && r.fk.onDelete == Restrict
  }

  /** RESTRICT stops at once; otherwise the count must come out even. */
  ghost predicate Uneven(tables: map<string, Table>, k: string) {
    k in tables && Referenced(tables, k) && (Restricted(tables, k) || Violations(tables, k, |tables[k].rows|) != 0)
  }

  ghost predicate Mendless(tables: map<string, Table>, k: string) {
    exists t, i: nat :: Touched(tables, k, t, i) && t in tables && i < |tables[t].rows| && !MendsWell(tables, k, t, i)
  }

  ghost predicate DeleteRefused(tables: map<string, Table>, k: string) {
    if Inert(tables, {k}) then Uneven(tables, k) else Held(tables, k) || Bruised(tables, k) || Mendless(tables, k)
  }

  /** Every table after the rows of k went, or None when the DELETE is refused. */
  ghost function ImplicitDelete(tables: map<string, Table>, k: string): Option<map<string, Table>> {
    if DeleteRefused(tables, k) then None else Some(AfterDelete(tables, k))
  }

  function RetargetFk(f: FkState, was: string, now: string): FkState {
    if f.refTable == was then f.(refTable := now) else f
  }

  /** RENAME rewrites the references of every table. */
  function Retarget(t: Table, was: string, now: string): Table {
    t.(def := t.def.(fks := set f | f in t.def.fks :: RetargetFk(f, was, now)))
  }

  function Renamed(tables: map<string, Table>, was: string, now: string): map<string, Table>
    requires was in tables
  {
    map t | t in tables.Keys - {was} + {now} :: Retarget(if t == now then tables[was] else tables[t], was, now)
  }

  ghost function IndexHolder(db: Db, n: string): string
    requires IndexNameUsed(db, n)
  {
    var k :| k in db.tables && n in db.tables[k].def.indexes;
    k
  }

  function Updated(db: Db, k: string, t: Option<Table>): Option<Db> {
    if t.None? then None else Some(db.(tables := db.tables[k := t.value]))
  }

  ghost function Exec(sql: Sql, db: Db): Option<Db> {
    match sql
    case CreateTableSql(name, body) =>
      if NameUsed(db, Lower(name)) || IsAutoIndex(name) || !BodyOk(body) then None
      else Some(db.(tables := db.tables[Lower(name) := Table(DefOfBody(body), [])]))
    case InsertSelect(into, cols, source) =>
      if Lower(into) !in db.tables || Lower(source) !in db.tables then None
      else Updated(db, Lower(into), CopyInto(db.tables[Lower(into)], cols, db.tables[Lower(source)]))
    case DropTableSql(name) =>
      if Lower(name) !in db.tables then None
      else var kept := if db.enforce then ImplicitDelete(db.tables, Lower(name)) else Some(db.tables);
           if kept.None? then None else Some(db.(tables := kept.value - {Lower(name)}))
    case RenameSql(name, newName) =>
      if Lower(name) !in db.tables || NameUsed(db, Lower(newName)) || BrokenView(db.views, db.tables.Keys) then None
      else Some(db.(tables := Renamed(db.tables, Lower(name), Lower(newName))))
    case AddColumnSql(table, c) =>
      if Lower(table) !in db.tables then None
      else Updated(db, Lower(table), AddColumnTo(db.tables[Lower(table)], Lower(c.name), ColOf(c)))
    case DropColumnSql(table, name) =>
      if Lower(table) !in db.tables || BrokenView(db.views, db.tables.Keys) then None
      else Updated(db, Lower(table), DropColumnFrom(db.tables[Lower(table)], Lower(name)))
    case CreateIndexSql(unique, name, table, cols) =>
      if Lower(table) !in db.tables || NameUsed(db, Lower(name)) || IsAutoIndex(name) then None
      else Updated(db, Lower(table), AddIndexTo(db.tables[Lower(table)], Lower(name), IndexState(unique, LowerAll(cols))))
    case DropIndexSql(name) =>
      if !IndexNameUsed(db, Lower(name)) then None
      else var k := IndexHolder(db, Lower(name));
           Updated(db, k, DropIndexFrom(db.tables[k], Lower(name)))
    case PragmaForeignKeys(on) => Some(db.(enforce := on))
  }

  /** Running statements in order; None once one is refused. */
  ghost function Run(sqls: seq<Sql>, db: Db): Option<Db> {
    if sqls == [] then Some(db) else
    var before := Run(sqls[..|sqls| - 1], db);
    if before.None? then None else Exec(sqls[|sqls| - 1], before.value)
  }

  ghost function Then(first: Option<Db>, rest: seq<Sql>): Option<Db> {
    if first.None? then None else Run(rest, first.value)
  }

  lemma {:induction false} RunConcat(a: seq<Sql>, b: seq<Sql>, db: Db)
    ensures Run(a + b, db) == Then(Run(a, db), b)
  {
    hide Exec;
    if b == [] {
      assert a + b == a;
    } else {
      assert (a + b)[..|a + b| - 1] == a + b[..|b| - 1];
      RunConcat(a, b[..|b| - 1], db);
    }
  }

  lemma RunOne(s: Sql, db: Db)
    ensures Run([s], db) == Exec(s, db)
  {
    hide Exec;
    assert [s][..0] == [];
    assert Run([s][..0], db) == Some(db);
  }
}
