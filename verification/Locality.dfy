/// Statements touch one table at a time: a script runs to the end exactly when
/// each table's own statements do, and leaves each table as those leave it.
module Locality {
  import opened Text
  import opened Sequences
  import opened Snapshots
  import opened Script
  import opened Database
  import opened Obstructions

  // ---- Which names a script may use ----

  /** `tables`: the tables of either side; `taken`: those and the views; `owned`: each table's index names. */
  datatype Names = Names(tables: set<string>, taken: set<string>, owned: map<string, set<string>>)

  predicate NamesOk(w: Names) {
    && w.tables <= w.taken && w.owned.Keys == w.tables
    && (forall k, l :: k in w.tables && l in w.tables && k != l ==> w.owned[k] !! w.owned[l])
    && (forall k :: k in w.tables ==> w.owned[k] !! w.taken)
  }

  predicate TableOk(w: Names, k: string, t: Table) {
    k in w.tables && k in w.owned && t.def.indexes.Keys <= w.owned[k]
  }

  predicate DbOk(w: Names, db: Db) {
    && db.views.Keys <= w.taken - w.tables
    && forall k :: k in db.tables ==> TableOk(w, k, db.tables[k])
  }

  // ---- Units: one direct statement or one rebuild group ----

  datatype Unit = Single(key: string, sql: Sql)
                | Rebuild(key: string, tmp: string, was: string, now: string,
                          body: TableBody, cols: seq<string>, indexes: seq<Sql>)

  function UnitSqls(u: Unit): seq<Sql> {
    match u
    case Single(_, sql) => [sql]
    case Rebuild(_, tmp, was, now, body, cols, indexes) =>
      [CreateTableSql(tmp, body), InsertSelect(tmp, cols, was), DropTableSql(was), RenameSql(tmp, now)] + indexes
  }

  predicate IndexSqlOk(w: Names, k: string, sql: Sql) {
    && sql.CreateIndexSql? && Lower(sql.table) == k && !IsAutoIndex(sql.name)
    && k in w.owned && Lower(sql.name) in w.owned[k]
  }

  predicate SingleOk(w: Names, k: string, sql: Sql) {
    k in w.tables && k in w.owned &&
    match sql
    case CreateTableSql(name, _) => Lower(name) == k && !IsAutoIndex(name)
    case DropTableSql(name) => Lower(name) == k
    case AddColumnSql(table, _) => Lower(table) == k
    case DropColumnSql(table, _) => Lower(table) == k
    case CreateIndexSql(_, _, _, _) => IndexSqlOk(w, k, sql)
    case DropIndexSql(name) => Lower(name) in w.owned[k]
    case _ => false
  }

  predicate UnitOk(w: Names, u: Unit) {
    match u
    case Single(k, sql) => SingleOk(w, k, sql)
    case Rebuild(k, tmp, was, now, _, _, indexes) =>
      && k in w.tables && Lower(was) == k && Lower(now) == k
      && Lower(tmp) !in w.taken && !IsAutoIndex(tmp)
      && forall i :: 0 <= i < |indexes| ==> indexes[i].CreateIndexSql? && IndexSqlOk(w, k, indexes[i])
  }

  /** An index has the temporary name, or a view reads what is not there while the old table is gone. */
  predicate GroupBlocked(k: string, n: string, c: Catalog, views: map<string, set<string>>) {
    (exists p :: p in c.indexes && p.0 == n) || BrokenView(views, c.tables + {n} - {k})
  }

  predicate UnitBlocked(u: Unit, c: Catalog, views: map<string, set<string>>) {
    match u
    case Single(_, sql) => Blocked(sql, c, views)
    case Rebuild(k, tmp, _, _, _, _, _) => GroupBlocked(k, Lower(tmp), c, views)
  }

  // ---- What a unit does to its own table ----

  function SingleStep(sql: Sql, ot: Option<Table>): Option<Option<Table>> {
    match sql
    case CreateTableSql(_, body) =>
      if ot.None? && BodyOk(body) then Some(Some(Table(DefOfBody(body), []))) else None
    case DropTableSql(_) => if ot.Some? then Some(None) else None
    case AddColumnSql(_, c) => if ot.None? then None else Lift(AddColumnTo(ot.value, Lower(c.name), ColOf(c)))
    case DropColumnSql(_, n) => if ot.None? then None else Lift(DropColumnFrom(ot.value, Lower(n)))
    case CreateIndexSql(_, _, _, _) => if ot.None? then None else Lift(AddIndexSql(ot.value, sql))
    case DropIndexSql(n) => if ot.None? then None else Lift(DropIndexFrom(ot.value, Lower(n)))
    case _ => None
  }

  function Lift(t: Option<Table>): Option<Option<Table>> { if t.None? then None else Some(t) }

  function AddIndexSql(t: Table, sql: Sql): Option<Table>
    requires sql.CreateIndexSql?
  {
    AddIndexTo(t, Lower(sql.name), IndexState(sql.unique, LowerAll(sql.columns)))
  }

  function AddIndexes(t: Table, sqls: seq<Sql>): Option<Table>
    requires forall i :: 0 <= i < |sqls| ==> sqls[i].CreateIndexSql?
  {
    if sqls == [] then Some(t) else
    var before := AddIndexes(t, sqls[..|sqls| - 1]);
    if before.None? then None else AddIndexSql(before.value, sqls[|sqls| - 1])
  }

  function RebuildStep(body: TableBody, cols: seq<string>, indexes: seq<Sql>, t: Table): Option<Table>
    requires forall i :: 0 <= i < |indexes| ==> indexes[i].CreateIndexSql?
  {
    if !BodyOk(body) then None else
    var copied := CopyInto(Table(DefOfBody(body), []), cols, t);
    if copied.None? then None else AddIndexes(copied.value, indexes)
  }

  function UnitStep(w: Names, u: Unit, ot: Option<Table>): Option<Option<Table>>
    requires UnitOk(w, u)
  {
    match u
    case Single(_, sql) => SingleStep(sql, ot)
    case Rebuild(_, _, _, _, body, cols, indexes) =>
      if ot.None? then None else Lift(RebuildStep(body, cols, indexes, ot.value))
  }

  /** The database with one table replaced, added or removed. */
  function Put(db: Db, k: string, ot: Option<Table>): Db {
    db.(tables := if ot.Some? then db.tables[k := ot.value] else db.tables - {k})
  }

  function Retargets(tables: map<string, Table>, was: string, now: string): map<string, Table> {
    map l | l in tables :: Retarget(tables[l], was, now)
  }

  /** The database after a unit has left its table as `ot`: a rebuild's RENAME also retargets every foreign key. */
  function Settled(db: Db, u: Unit, ot: Option<Table>): Db {
    var put := Put(db, u.key, ot);
    if u.Rebuild? then put.(tables := Retargets(put.tables, Lower(u.tmp), u.key)) else put
  }

  // ---- When a unit is blocked ----

  lemma ObstructedCons(s: Sql, rest: seq<Sql>, c: Catalog, views: map<string, set<string>>)
    ensures Obstructed([s] + rest, c, views) <==> Blocked(s, c, views) || Obstructed(rest, Catalogued(s, c), views)
    ensures CatalogAfter([s] + rest, c) == CatalogAfter(rest, Catalogued(s, c))
  {
    hide *;
    ObstructedConcat([s], rest, c, views);
    ObstructedOne(s, c, views);
  }

  lemma {:induction false} IndexesUnblocked(sqls: seq<Sql>, c: Catalog, views: map<string, set<string>>)
    requires forall i :: 0 <= i < |sqls| ==> sqls[i].CreateIndexSql?
    ensures !Obstructed(sqls, c, views)
  {
    hide Catalogued;
    if sqls != [] {
      IndexesUnblocked(sqls[..|sqls| - 1], c, views);
    }
  }

  lemma UnitObstructed(w: Names, u: Unit, c: Catalog, views: map<string, set<string>>)
    requires UnitOk(w, u) && w.tables <= w.taken
    ensures Obstructed(UnitSqls(u), c, views) <==> UnitBlocked(u, c, views)
  {
    if u.Single? {
      ObstructedOne(u.sql, c, views);
    } else {
      hide Lower, BrokenView, IndexSqlOk, CatalogAfter, Obstructed, IsAutoIndex;
      var create, copy, drop, rename := CreateTableSql(u.tmp, u.body), InsertSelect(u.tmp, u.cols, u.was), DropTableSql(u.was), RenameSql(u.tmp, u.now);
      var c1 := Catalogued(create, c);
      var c3 := Catalogued(drop, c1);
      assert UnitSqls(u) == [create] + ([copy] + ([drop] + ([rename] + u.indexes)));
      ObstructedCons(create, [copy] + ([drop] + ([rename] + u.indexes)), c, views);
      ObstructedCons(copy, [drop] + ([rename] + u.indexes), c1, views);
      ObstructedCons(drop, [rename] + u.indexes, c1, views);
      ObstructedCons(rename, u.indexes, c3, views);
      IndexesUnblocked(u.indexes, Catalogued(rename, c3), views);
      assert c3.tables == c.tables + {Lower(u.tmp)} - {u.key};
    }
  }

  lemma NamesUnique(w: Names, db: Db)
    requires NamesOk(w) && DbOk(w, db)
    ensures Unique(CatalogOf(db))
  {
    hide CatalogOf;
    forall p, q | p in CatalogOf(db).indexes && q in CatalogOf(db).indexes && p.0 == q.0 ensures p.1 == q.1 {
      assert p == (p.0, p.1) && q == (q.0, q.1);
      InCatalog(db, p.0, p.1);
      InCatalog(db, q.0, q.1);
      assert TableOk(w, p.1, db.tables[p.1]) && TableOk(w, q.1, db.tables[q.1]);
    }
  }

  lemma IndexInCatalog(db: Db, n: string)
    ensures IndexNameUsed(db, n) <==> exists p :: p in CatalogOf(db).indexes && p.0 == n
  {
    hide CatalogOf;
    if k :| k in db.tables && n in db.tables[k].def.indexes {
      InCatalog(db, n, k);
      assert (n, k).0 == n;
    }
    if p :| p in CatalogOf(db).indexes && p.0 == n {
      assert p == (p.0, p.1);
      InCatalog(db, n, p.1);
    }
  }

  // ---- One statement ----

  lemma IndexNameLocal(w: Names, db: Db, k: string, n: string)
    requires NamesOk(w) && DbOk(w, db) && k in w.tables && n in w.owned[k]
    ensures NameUsed(db, n) <==> IndexNameUsed(db, n)
    ensures IndexNameUsed(db, n) <==> k in db.tables && n in db.tables[k].def.indexes
    ensures IndexNameUsed(db, n) ==> IndexHolder(db, n) == k
  {
    assert n !in w.taken;
    forall l | l in db.tables && l != k ensures n !in db.tables[l].def.indexes && n != l {
      assert TableOk(w, l, db.tables[l]);
      assert w.owned[k] !! w.owned[l];
    }
  }

  lemma TableNameFree(w: Names, db: Db, k: string)
    requires NamesOk(w) && DbOk(w, db) && k in w.tables
    ensures (NameUsed(db, k) <==> k in db.tables) && !IndexNameUsed(db, k)
  {
    forall l | l in db.tables ensures k !in db.tables[l].def.indexes {
      assert TableOk(w, l, db.tables[l]);
      assert w.owned[l] !! w.taken;
    }
  }

  /** One statement on its own table; DROP TABLE only with enforcement off. */
  lemma SingleExec(w: Names, db: Db, k: string, sql: Sql)
    requires NamesOk(w) && DbOk(w, db) && SingleOk(w, k, sql) && (db.enforce ==> !sql.DropTableSql?)
    ensures var r := SingleStep(sql, Lookup(db.tables, k));
      Exec(sql, db) == if Blocked(sql, CatalogOf(db), db.views) || r.None? then None else Some(Put(db, k, r.value))
  {
    hide DefOfBody, BodyOk, AddColumnTo, DropColumnFrom, IsAutoIndex, NameUsed, IndexNameUsed, Lower, DistinctOn, Within, CatalogOf, BrokenView, ImplicitDelete;
    TableNameFree(w, db, k);
    CatalogTables(db);
    IndexInCatalog(db, k);
    match sql
    case CreateIndexSql(_, n, _, _) => IndexNameLocal(w, db, k, Lower(n));
    case DropIndexSql(n) => IndexNameLocal(w, db, k, Lower(n));
    case _ =>
  }

  lemma SingleKeepsOk(w: Names, k: string, sql: Sql, ot: Option<Table>)
    requires SingleOk(w, k, sql) && (ot.Some? ==> TableOk(w, k, ot.value))
    ensures var r := SingleStep(sql, ot); r.Some? && r.value.Some? ==> TableOk(w, k, r.value.value)
  {
    hide BodyOk, IsAutoIndex, Lower, DistinctOn, ColumnAddable, ColumnUsed;
  }

  // ---- A rebuild group ----

  lemma RunCons(s: Sql, rest: seq<Sql>, db: Db)
    ensures Run([s] + rest, db) == Then(Exec(s, db), rest)
  {
    hide Exec, Run;
    RunConcat([s], rest, db);
    RunOne(s, db);
  }

  lemma PutOk(w: Names, db: Db, k: string, t: Table)
    requires DbOk(w, db) && TableOk(w, k, t)
    ensures DbOk(w, Put(db, k, Some(t)))
  {
  }

  lemma PutPut(db: Db, k: string, s: Option<Table>, t: Option<Table>)
    ensures Put(Put(db, k, s), k, t) == Put(db, k, t)
  {
  }

  lemma {:induction false} IndexesExec(w: Names, db: Db, k: string, sqls: seq<Sql>)
    requires NamesOk(w) && DbOk(w, db) && k in db.tables
    requires forall i :: 0 <= i < |sqls| ==> sqls[i].CreateIndexSql? && IndexSqlOk(w, k, sqls[i])
    ensures var r := AddIndexes(db.tables[k], sqls);
      && Run(sqls, db) == (if r.None? then None else Some(Put(db, k, r)))
      && (r.Some? ==> TableOk(w, k, r.value))
  {
    assert TableOk(w, k, db.tables[k]);
    hide Exec, IndexSqlOk, AddIndexSql, NamesOk, DbOk, TableOk;
    if sqls == [] {
      assert Put(db, k, Some(db.tables[k])) == db;
    } else {
      var init, last := sqls[..|sqls| - 1], sqls[|sqls| - 1];
      assert forall i :: 0 <= i < |init| ==> init[i] == sqls[i];
      IndexesExec(w, db, k, init);
      var r := AddIndexes(db.tables[k], init);
      if r.Some? {
        PutOk(w, db, k, r.value);
        OneIndexExec(w, Put(db, k, r), k, last);
        PutPut(db, k, r, AddIndexSql(r.value, last));
      }
    }
  }

  lemma OneIndexExec(w: Names, db: Db, k: string, sql: Sql)
    requires sql.CreateIndexSql? && NamesOk(w) && DbOk(w, db) && k in db.tables && IndexSqlOk(w, k, sql)
    ensures var r := AddIndexSql(db.tables[k], sql);
      && Exec(sql, db) == (if r.None? then None else Some(Put(db, k, r)))
      && (r.Some? ==> TableOk(w, k, r.value))
  {
    hide Exec;
    assert TableOk(w, k, db.tables[k]);
    SingleExec(w, db, k, sql);
    SingleKeepsOk(w, k, sql, Some(db.tables[k]));
  }

  lemma TmpNotTable(w: Names, db: Db, n: string)
    requires NamesOk(w) && DbOk(w, db) && n !in w.taken
    ensures n !in db.tables && n !in w.tables && n !in db.views
  {
    forall l | l in db.tables ensures l != n {
      assert TableOk(w, l, db.tables[l]);
    }
  }

  /** Dropping the old table and renaming the copy puts the copy in its place, and retargets. */
  lemma SwapIn(db: Db, k: string, n: string, t: Table)
    requires k in db.tables && n !in db.tables
    ensures n in db.tables[n := t] - {k}
    ensures Renamed(db.tables[n := t] - {k}, n, k) == Retargets(db.tables[k := t], n, k)
  {
    hide Retarget;
    var mid := db.tables[n := t] - {k};
    var r, q := Renamed(mid, n, k), Retargets(db.tables[k := t], n, k);
    forall l ensures (l in r <==> l in q) && (l in r ==> r[l] == q[l]) {
    }
  }

  lemma CreateTmpExec(w: Names, db: Db, tmp: string, body: TableBody)
    requires NamesOk(w) && DbOk(w, db) && Lower(tmp) !in w.taken && !IsAutoIndex(tmp)
    ensures Exec(CreateTableSql(tmp, body), db)
      == if IndexNameUsed(db, Lower(tmp)) || !BodyOk(body) then None
         else Some(db.(tables := db.tables[Lower(tmp) := Table(DefOfBody(body), [])]))
  {
    hide BodyOk, DefOfBody, IsAutoIndex, Lower, NamesOk, DbOk, IndexNameUsed, NameUsed;
    TmpNotTable(w, db, Lower(tmp));
    NameUsedIs(db, Lower(tmp));
  }

  lemma CopyTmpExec(db: Db, n: string, t0: Table, u: Unit)
    requires u.Rebuild? && n == Lower(u.tmp) && Lower(u.was) == u.key && n != u.key
    ensures Exec(InsertSelect(u.tmp, u.cols, u.was), db.(tables := db.tables[n := t0]))
      == if u.key !in db.tables || CopyInto(t0, u.cols, db.tables[u.key]).None? then None
         else Some(db.(tables := db.tables[n := CopyInto(t0, u.cols, db.tables[u.key]).value]))
  {
    hide CopyInto, Lower;
    if u.key in db.tables && CopyInto(t0, u.cols, db.tables[u.key]).Some? {
      var t := CopyInto(t0, u.cols, db.tables[u.key]).value;
      assert db.tables[n := t0][n := t] == db.tables[n := t];
    }
  }

  lemma DropOldExec(db: Db, k: string, was: string)
    requires k in db.tables && Lower(was) == k && !db.enforce
    ensures Exec(DropTableSql(was), db) == Some(db.(tables := db.tables - {k}))
  {
    hide Lower, ImplicitDelete;
  }

  lemma RenameTmpExec(w: Names, db: Db, u: Unit, t: Table)
    requires NamesOk(w) && DbOk(w, db) && u.Rebuild? && UnitOk(w, u) && u.key in db.tables && t.def.indexes == map[]
    ensures var n, k := Lower(u.tmp), u.key;
      Exec(RenameSql(u.tmp, u.now), db.(tables := db.tables[n := t] - {k}))
        == if BrokenView(db.views, db.tables.Keys + {n} - {k}) then None else Some(Settled(db, u, Some(t)))
  {
    var n, k := Lower(u.tmp), u.key;
    hide NamesOk, DbOk, Lower, IndexSqlOk, IsAutoIndex, BrokenView, NameUsed, Renamed, Retargets;
    TmpNotTable(w, db, n);
    var db3 := db.(tables := db.tables[n := t] - {k});
    assert db3.tables.Keys == db.tables.Keys + {n} - {k};
    SwapIn(db, k, n, t);
    RenameTargetFree(w, db, db3, k, n, t);
  }

  /** The four statements before the indexes. */
  lemma CopyExec(w: Names, db: Db, u: Unit)
    requires NamesOk(w) && DbOk(w, db) && u.Rebuild? && UnitOk(w, u) && !db.enforce
    ensures var ot := Lookup(db.tables, u.key);
      var r := if ot.None? || !BodyOk(u.body) then None
               else CopyInto(Table(DefOfBody(u.body), []), u.cols, ot.value);
      Run(UnitSqls(u), db) == if GroupBlocked(u.key, Lower(u.tmp), CatalogOf(db), db.views) || r.None? then None else Run(u.indexes, Settled(db, u, r))
  {
    var n, k, t0 := Lower(u.tmp), u.key, Table(DefOfBody(u.body), []);
    assert n != k && Lower(u.was) == k && Lower(u.now) == k && n !in w.taken && !IsAutoIndex(u.tmp);
    hide CopyInto, BodyOk, DefOfBody, IsAutoIndex, Lower, Run, CatalogOf, BrokenView, UnitOk, NamesOk, DbOk, Exec, Settled, IndexNameUsed;
    var create, copy, drop, rename := CreateTableSql(u.tmp, u.body), InsertSelect(u.tmp, u.cols, u.was),
      DropTableSql(u.was), RenameSql(u.tmp, u.now);
    var rest3 := [rename] + u.indexes;
    var rest2 := [drop] + rest3;
    var rest1 := [copy] + rest2;
    assert UnitSqls(u) == [create] + rest1;
    RunCons(create, rest1, db);
    CreateTmpExec(w, db, u.tmp, u.body);
    CatalogTables(db);
    IndexInCatalog(db, n);
    BodyHasNoIndexes(u.body);
    if BodyOk(u.body) && !IndexNameUsed(db, n) {
      RunCons(copy, rest2, db.(tables := db.tables[n := t0]));
      CopyTmpExec(db, n, t0, u);
      if k in db.tables && CopyInto(t0, u.cols, db.tables[k]).Some? {
        var r := CopyInto(t0, u.cols, db.tables[k]).value;
        CopyKeepsDef(t0, u.cols, db.tables[k]);
        RunCons(drop, rest3, db.(tables := db.tables[n := r]));
        DropOldExec(db.(tables := db.tables[n := r]), k, u.was);
        RunCons(rename, u.indexes, db.(tables := db.tables[n := r] - {k}));
        RenameTmpExec(w, db, u, r);
      }
    }
  }

  lemma NameUsedIs(db: Db, n: string)
    ensures NameUsed(db, n) <==> n in db.tables || n in db.views || IndexNameUsed(db, n)
  {
  }

  lemma BodyHasNoIndexes(b: TableBody)
    ensures DefOfBody(b).indexes == map[]
  {
  }

  lemma CopyKeepsDef(t: Table, cols: seq<string>, source: Table)
    requires CopyInto(t, cols, source).Some?
    ensures CopyInto(t, cols, source).value.def == t.def
  {
  }

  lemma RenameTargetFree(w: Names, db: Db, db3: Db, k: string, n: string, t: Table)
    requires NamesOk(w) && DbOk(w, db) && k in w.tables && n != k && t.def.indexes == map[]
    requires db3 == db.(tables := db.tables[n := t] - {k})
    ensures !NameUsed(db3, k)
  {
    forall l | l in db3.tables ensures k !in db3.tables[l].def.indexes {
      if l != n {
        assert TableOk(w, l, db.tables[l]);
        assert w.owned[l] !! w.taken;
      }
    }
  }

  // ---- Indexes and foreign keys do not meet ----

  lemma IndexRetargets(t: Table, sql: Sql, was: string, now: string)
    requires sql.CreateIndexSql?
    ensures AddIndexSql(Retarget(t, was, now), sql) == RetargetMaybe(AddIndexSql(t, sql), was, now)
  {
    hide DistinctOn, Within, Lower, LowerAll, RetargetFk;
  }

  function RetargetMaybe(ot: Option<Table>, was: string, now: string): Option<Table> {
    if ot.None? then None else Some(Retarget(ot.value, was, now))
  }

  lemma {:induction false} IndexesRetarget(t: Table, sqls: seq<Sql>, was: string, now: string)
    requires forall i :: 0 <= i < |sqls| ==> sqls[i].CreateIndexSql?
    ensures AddIndexes(Retarget(t, was, now), sqls) == RetargetMaybe(AddIndexes(t, sqls), was, now)
  {
    hide AddIndexSql, Retarget;
    if sqls != [] {
      var init, last := sqls[..|sqls| - 1], sqls[|sqls| - 1];
      IndexesRetarget(t, init, was, now);
      var before := AddIndexes(t, init);
      if before.Some? {
        IndexRetargets(before.value, last, was, now);
      }
    }
  }

  lemma SettledOk(w: Names, db: Db, u: Unit, t: Table)
    requires DbOk(w, db) && TableOk(w, u.key, t)
    ensures DbOk(w, Settled(db, u, Some(t)))
  {
    hide RetargetFk, Lower;
    var r := Settled(db, u, Some(t));
    forall l | l in r.tables ensures TableOk(w, l, r.tables[l]) {
    }
  }

  lemma SettledAt(db: Db, u: Unit, t: Table)
    requires u.Rebuild?
    ensures var r := Settled(db, u, Some(t)); u.key in r.tables && r.tables[u.key] == Retarget(t, Lower(u.tmp), u.key)
  {
    hide Retarget, Lower;
  }

  lemma PutSettled(db: Db, u: Unit, s: Table, t: Table)
    requires u.Rebuild?
    ensures Put(Settled(db, u, Some(s)), u.key, Some(Retarget(t, Lower(u.tmp), u.key))) == Settled(db, u, Some(t))
  {
    hide Retarget, Lower;
    var n := Lower(u.tmp);
    assert Retargets(db.tables[u.key := s], n, u.key)[u.key := Retarget(t, n, u.key)] == Retargets(db.tables[u.key := t], n, u.key);
  }

  /**
   * A rebuild group with enforcement off runs exactly when no index has the temporary name, no view is
   * broken meanwhile and the data fits; it then replaces the table and retargets every foreign key that
   * names the temporary table.
   */
  lemma GroupExec(w: Names, db: Db, u: Unit)
    requires NamesOk(w) && DbOk(w, db) && u.Rebuild? && UnitOk(w, u) && !db.enforce
    ensures var r := UnitStep(w, u, Lookup(db.tables, u.key));
      && Run(UnitSqls(u), db)
           == (if GroupBlocked(u.key, Lower(u.tmp), CatalogOf(db), db.views) || r.None? then None else Some(Settled(db, u, r.value)))
      && (r.Some? ==> r.value.Some? && TableOk(w, u.key, r.value.value))
  {
    hide CopyInto, BodyOk, Run, UnitSqls, NamesOk, IndexSqlOk, CatalogOf, GroupBlocked, DbOk, Settled, DefOfBody, Retarget, Lower, IsAutoIndex;
    CopyExec(w, db, u);
    var ot, k, n := Lookup(db.tables, u.key), u.key, Lower(u.tmp);
    if ot.Some? && BodyOk(u.body) {
      var t0 := Table(DefOfBody(u.body), []);
      var r := CopyInto(t0, u.cols, ot.value);
      if r.Some? {
        CopyKeepsDef(t0, u.cols, ot.value);
        BodyHasNoIndexes(u.body);
        CopyOk(w, db, k, r.value);
        SettledOk(w, db, u, r.value);
        SettledAt(db, u, r.value);
        var put := Settled(db, u, r);
        IndexesExec(w, put, k, u.indexes);
        IndexesRetarget(r.value, u.indexes, n, k);
        var end := AddIndexes(r.value, u.indexes);
        if end.Some? {
          PutSettled(db, u, r.value, end.value);
          RetargetOk(w, k, end.value, n);
        }
      }
    }
  }

  lemma CopyOk(w: Names, db: Db, k: string, t: Table)
    requires DbOk(w, db) && k in db.tables && t.def.indexes == map[]
    ensures TableOk(w, k, t)
  {
    assert TableOk(w, k, db.tables[k]);
  }

  lemma RetargetOk(w: Names, k: string, t: Table, n: string)
    ensures TableOk(w, k, Retarget(t, n, k)) <==> TableOk(w, k, t)
  {
    hide RetargetFk;
  }
}
