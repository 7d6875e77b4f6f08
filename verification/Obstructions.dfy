/// What stands in a script's way whatever the data: an index that already has the name of a table
/// to be created, and a view that reads something missing when a table is renamed or loses a column.
module Obstructions {
  import opened Text
  import opened Sequences
  import opened Snapshots
  import opened Script
  import opened Database

  /** The tables of a database, and its indexes with the table each is on. */
  datatype Catalog = Catalog(tables: set<string>, indexes: set<(string, string)>)

  ghost function CatalogOf(db: Db): Catalog {
    Catalog(db.tables.Keys, set k, n | k in db.tables && n in db.tables[k].def.indexes :: (n, k))
  }

  function Moved(p: (string, string), a: string, b: string): (string, string) { (p.0, if p.1 == a then b else p.1) }

  /** The catalog after a statement that is not refused. */
  function Catalogued(sql: Sql, c: Catalog): Catalog {
    match sql
    case CreateTableSql(name, _) => c.(tables := c.tables + {Lower(name)})
    case DropTableSql(name) => Catalog(c.tables - {Lower(name)}, set p | p in c.indexes && p.1 != Lower(name))
    case RenameSql(name, newName) =>
      Catalog(c.tables - {Lower(name)} + {Lower(newName)},
              set p | p in c.indexes :: Moved(p, Lower(name), Lower(newName)))
    case CreateIndexSql(_, name, table, _) => c.(indexes := c.indexes + {(Lower(name), Lower(table))})
    case DropIndexSql(name) => c.(indexes := set p | p in c.indexes && p.0 != Lower(name))
    case _ => c
  }

  predicate Blocked(sql: Sql, c: Catalog, views: map<string, set<string>>) {
    match sql
    case CreateTableSql(name, _) => exists p :: p in c.indexes && p.0 == Lower(name)
    case RenameSql(_, _) => BrokenView(views, c.tables)
    case DropColumnSql(_, _) => BrokenView(views, c.tables)
    case _ => false
  }

  function CatalogAfter(sqls: seq<Sql>, c: Catalog): Catalog {
    if sqls == [] then c else Catalogued(sqls[|sqls| - 1], CatalogAfter(sqls[..|sqls| - 1], c))
  }

  /** Some statement of the script is blocked when its turn comes. */
  predicate Obstructed(sqls: seq<Sql>, c: Catalog, views: map<string, set<string>>) {
    sqls != [] &&
    (Obstructed(sqls[..|sqls| - 1], c, views) || Blocked(sqls[|sqls| - 1], CatalogAfter(sqls[..|sqls| - 1], c), views))
  }

  lemma {:induction false} ObstructedConcat(a: seq<Sql>, b: seq<Sql>, c: Catalog, views: map<string, set<string>>)
    ensures CatalogAfter(a + b, c) == CatalogAfter(b, CatalogAfter(a, c))
    ensures Obstructed(a + b, c, views) <==> Obstructed(a, c, views) || Obstructed(b, CatalogAfter(a, c), views)
  {
    hide Blocked, Catalogued;
    if b == [] {
      assert a + b == a;
    } else {
      assert (a + b)[..|a + b| - 1] == a + b[..|b| - 1];
      ObstructedConcat(a, b[..|b| - 1], c, views);
    }
  }

  lemma ObstructedOne(s: Sql, c: Catalog, views: map<string, set<string>>)
    ensures CatalogAfter([s], c) == Catalogued(s, c) && (Obstructed([s], c, views) <==> Blocked(s, c, views))
  {
    hide Blocked, Catalogued;
    assert [s][..0] == [];
  }

  /** No two tables have an index of the same name. */
  predicate Unique(c: Catalog) { forall p, q :: p in c.indexes && q in c.indexes && p.0 == q.0 ==> p.1 == q.1 }

  // ---- What a statement does to the catalog ----

  lemma CatalogTables(db: Db)
    ensures CatalogOf(db).tables == db.tables.Keys
  {
  }

  lemma InCatalog(db: Db, n: string, l: string)
    ensures (n, l) in CatalogOf(db).indexes <==> l in db.tables && n in db.tables[l].def.indexes
  {
  }

  lemma SameCatalog(db: Db, c: Catalog)
    requires db.tables.Keys == c.tables
    requires forall n, l :: (n, l) in c.indexes <==> l in db.tables && n in db.tables[l].def.indexes
    ensures CatalogOf(db) == c
  {
    forall p ensures p in CatalogOf(db).indexes <==> p in c.indexes {
      assert p == (p.0, p.1);
    }
  }

  /** A table replaced by one with the same indexes. */
  lemma ReplacedCatalog(db: Db, k: string, t: Table)
    requires k in db.tables && t.def.indexes == db.tables[k].def.indexes
    ensures CatalogOf(db.(tables := db.tables[k := t])) == CatalogOf(db)
  {
    hide CatalogOf;
    CatalogTables(db);
    var r := db.(tables := db.tables[k := t]);
    forall n, l ensures (n, l) in CatalogOf(db).indexes <==> l in r.tables && n in r.tables[l].def.indexes { InCatalog(db, n, l); }
    SameCatalog(r, CatalogOf(db));
  }

  lemma CreatedCatalog(db: Db, k: string, t: Table)
    requires k !in db.tables && t.def.indexes == map[]
    ensures var c := CatalogOf(db); CatalogOf(db.(tables := db.tables[k := t])) == c.(tables := c.tables + {k})
  {
    hide CatalogOf;
    CatalogTables(db);
    var c, r := CatalogOf(db), db.(tables := db.tables[k := t]);
    forall n, l ensures (n, l) in c.indexes <==> l in r.tables && n in r.tables[l].def.indexes { InCatalog(db, n, l); }
    SameCatalog(r, c.(tables := c.tables + {k}));
  }

  /** A table gone, the definitions of the others unchanged. */
  lemma DroppedCatalog(db: Db, k: string, r: Db)
    requires r.tables.Keys == db.tables.Keys - {k} && forall l :: l in r.tables ==> r.tables[l].def == db.tables[l].def
    ensures var c := CatalogOf(db); CatalogOf(r) == Catalog(c.tables - {k}, set p | p in c.indexes && p.1 != k)
  {
    hide CatalogOf;
    CatalogTables(db);
    var c := CatalogOf(db);
    forall n, l ensures (n, l) in (set p | p in c.indexes && p.1 != k) <==> l in r.tables && n in r.tables[l].def.indexes { InCatalog(db, n, l); }
    SameCatalog(r, Catalog(c.tables - {k}, set p | p in c.indexes && p.1 != k));
  }

  lemma RenamedCatalog(db: Db, a: string, b: string)
    requires a in db.tables && b !in db.tables
    ensures var c := CatalogOf(db);
      CatalogOf(db.(tables := Renamed(db.tables, a, b))) == Catalog(c.tables - {a} + {b}, set p | p in c.indexes :: Moved(p, a, b))
  {
    hide CatalogOf, RetargetFk;
    CatalogTables(db);
    var c, r := CatalogOf(db), db.(tables := Renamed(db.tables, a, b));
    var moved := set p | p in c.indexes :: Moved(p, a, b);
    forall n, l ensures (n, l) in moved <==> l in r.tables && n in r.tables[l].def.indexes {
      var from := if l == b then a else l;
      InCatalog(db, n, from);
      if l in r.tables && n in r.tables[l].def.indexes {
        assert (n, from) in c.indexes && Moved((n, from), a, b) == (n, l);
      }
      if (n, l) in moved {
        var p :| p in c.indexes && Moved(p, a, b) == (n, l);
        assert p == (p.0, p.1);
        InCatalog(db, p.0, p.1);
      }
    }
    SameCatalog(r, Catalog(c.tables - {a} + {b}, moved));
  }

  lemma IndexedCatalog(db: Db, k: string, t: Table, n: string)
    requires k in db.tables && t.def.indexes.Keys == db.tables[k].def.indexes.Keys + {n}
    ensures var c := CatalogOf(db); CatalogOf(db.(tables := db.tables[k := t])) == c.(indexes := c.indexes + {(n, k)})
  {
    hide CatalogOf;
    CatalogTables(db);
    var c, r := CatalogOf(db), db.(tables := db.tables[k := t]);
    forall m, l ensures (m, l) in c.indexes + {(n, k)} <==> l in r.tables && m in r.tables[l].def.indexes { InCatalog(db, m, l); }
    SameCatalog(r, c.(indexes := c.indexes + {(n, k)}));
  }

  lemma UnindexedCatalog(db: Db, i: string)
    requires Unique(CatalogOf(db)) && IndexNameUsed(db, i)
    ensures var k, c := IndexHolder(db, i), CatalogOf(db);
      CatalogOf(db.(tables := db.tables[k := DropIndexFrom(db.tables[k], i).value])) == c.(indexes := set p | p in c.indexes && p.0 != i)
  {
    hide CatalogOf;
    CatalogTables(db);
    var k, c := IndexHolder(db, i), CatalogOf(db);
    var r, left := db.(tables := db.tables[k := DropIndexFrom(db.tables[k], i).value]), set p | p in c.indexes && p.0 != i;
    InCatalog(db, i, k);
    forall m, l ensures (m, l) in left <==> l in r.tables && m in r.tables[l].def.indexes {
      InCatalog(db, m, l);
      if m == i && (m, l) in c.indexes {
        assert (m, l).1 == (i, k).1;
      }
    }
    SameCatalog(r, c.(indexes := left));
  }

  lemma DeleteKeepsDefs(tables: map<string, Table>, k: string)
    requires ImplicitDelete(tables, k).Some?
    ensures ImplicitDelete(tables, k).value.Keys == tables.Keys && forall t :: t in tables ==> ImplicitDelete(tables, k).value[t].def == tables[t].def
  {
    hide Held, Touched, MendsWell, Staying;
  }

  lemma TableStepCatalog(sql: Sql, db: Db)
    requires Exec(sql, db).Some? && (sql.CreateTableSql? || sql.InsertSelect? || sql.AddColumnSql? || sql.DropColumnSql?)
    ensures CatalogOf(Exec(sql, db).value) == Catalogued(sql, CatalogOf(db))
  {
    hide BodyOk, IsAutoIndex, Lower, BrokenView, Within, CatalogOf, DefColumns, FkOf, RowsOk, ColumnAddable, ColumnUsed, CopyRows, ColOf;
    match sql
    case CreateTableSql(name, body) => CreatedCatalog(db, Lower(name), Table(DefOfBody(body), []));
    case InsertSelect(into, cols, from) => ReplacedCatalog(db, Lower(into), CopyInto(db.tables[Lower(into)], cols, db.tables[Lower(from)]).value);
    case AddColumnSql(table, c) => ReplacedCatalog(db, Lower(table), AddColumnTo(db.tables[Lower(table)], Lower(c.name), ColOf(c)).value);
    case DropColumnSql(table, name) => ReplacedCatalog(db, Lower(table), DropColumnFrom(db.tables[Lower(table)], Lower(name)).value);
    case _ =>
  }

  lemma NameStepCatalog(sql: Sql, db: Db)
    requires Exec(sql, db).Some? && Unique(CatalogOf(db))
    requires sql.DropTableSql? || sql.RenameSql? || sql.CreateIndexSql? || sql.DropIndexSql?
    ensures CatalogOf(Exec(sql, db).value) == Catalogued(sql, CatalogOf(db))
  {
    hide IsAutoIndex, Lower, BrokenView, Within, CatalogOf, DistinctOn, ImplicitDelete, Renamed, Unique, LowerAll;
    match sql
    case DropTableSql(name) =>
      if db.enforce {
        DeleteKeepsDefs(db.tables, Lower(name));
      }
      DroppedCatalog(db, Lower(name), Exec(sql, db).value);
    case RenameSql(name, newName) => RenamedCatalog(db, Lower(name), Lower(newName));
    case CreateIndexSql(u, name, table, cols) =>
      IndexedCatalog(db, Lower(table), AddIndexTo(db.tables[Lower(table)], Lower(name), IndexState(u, LowerAll(cols))).value, Lower(name));
    case DropIndexSql(name) => UnindexedCatalog(db, Lower(name));
    case _ =>
  }

  lemma StaysUnique(sql: Sql, db: Db)
    requires Exec(sql, db).Some? && Unique(CatalogOf(db))
    ensures Unique(Catalogued(sql, CatalogOf(db)))
  {
    hide IsAutoIndex, Lower, BrokenView, CatalogOf, AddIndexTo, CopyInto, AddColumnTo, DropColumnFrom, Renamed, ImplicitDelete, BodyOk, DropIndexFrom;
    if sql.CreateIndexSql? {
      forall p | p in CatalogOf(db).indexes ensures p.0 != Lower(sql.name) {
        InCatalog(db, p.0, p.1);
        assert p == (p.0, p.1);
      }
    }
  }

  lemma StepCatalog(sql: Sql, db: Db)
    requires Exec(sql, db).Some? && Unique(CatalogOf(db))
    ensures CatalogOf(Exec(sql, db).value) == Catalogued(sql, CatalogOf(db)) && Exec(sql, db).value.views == db.views
    ensures Unique(CatalogOf(Exec(sql, db).value))
  {
    StaysUnique(sql, db);
    if sql.CreateTableSql? || sql.InsertSelect? || sql.AddColumnSql? || sql.DropColumnSql? {
      TableStepCatalog(sql, db);
    } else if !sql.PragmaForeignKeys? {
      NameStepCatalog(sql, db);
    }
    hide CatalogOf, Catalogued, Unique, AddIndexTo, CopyInto, AddColumnTo, DropColumnFrom, Renamed, ImplicitDelete, BodyOk, DropIndexFrom, Lower, IsAutoIndex;
    if sql.PragmaForeignKeys? {
      PragmaCatalog(db, sql.on);
    }
  }

  lemma PragmaCatalog(db: Db, on: bool)
    ensures CatalogOf(db.(enforce := on)) == CatalogOf(db)
    ensures Catalogued(PragmaForeignKeys(on), CatalogOf(db)) == CatalogOf(db)
  {
  }

  lemma BlockedRefuses(sql: Sql, db: Db)
    requires Blocked(sql, CatalogOf(db), db.views)
    ensures Exec(sql, db).None?
  {
    hide BodyOk, DropColumnFrom, IsAutoIndex, Lower, BrokenView, CatalogOf;
    CatalogTables(db);
    if sql.CreateTableSql? {
      var p :| p in CatalogOf(db).indexes && p.0 == Lower(sql.name);
      InCatalog(db, p.0, p.1);
      assert p == (p.0, p.1);
    }
  }

  lemma {:induction false} RunCatalog(sqls: seq<Sql>, db: Db)
    requires Run(sqls, db).Some? && Unique(CatalogOf(db))
    ensures Unique(CatalogOf(Run(sqls, db).value))
    ensures CatalogOf(Run(sqls, db).value) == CatalogAfter(sqls, CatalogOf(db)) && Run(sqls, db).value.views == db.views
  {
    hide Exec, CatalogOf, Catalogued, Unique;
    if sqls != [] {
      var init := sqls[..|sqls| - 1];
      RunCatalog(init, db);
      StepCatalog(sqls[|sqls| - 1], Run(init, db).value);
    }
  }

  /** An obstructed script does not run to its end. */
  lemma {:induction false} ObstructedRefuses(sqls: seq<Sql>, db: Db)
    requires Obstructed(sqls, CatalogOf(db), db.views) && Unique(CatalogOf(db))
    ensures Run(sqls, db).None?
  {
    hide Exec, CatalogOf, Catalogued, Blocked, Unique;
    var init, last := sqls[..|sqls| - 1], sqls[|sqls| - 1];
    if Run(init, db).Some? {
      RunCatalog(init, db);
      if Obstructed(init, CatalogOf(db), db.views) {
        ObstructedRefuses(init, db);
      } else {
        BlockedRefuses(last, Run(init, db).value);
      }
    }
  }

  // ---- When views stay out of the way ----

  predicate HasIndex(c: Catalog, n: string) { exists p :: p in c.indexes && p.0 == n }

  /** The statement creates no index outside these names and removes none of these tables. */
  predicate Mindful(sql: Sql, names: set<string>, stable: set<string>) {
    match sql
    case CreateIndexSql(_, name, _, _) => Lower(name) in names
    case DropTableSql(name) => Lower(name) !in stable
    case RenameSql(name, _) => Lower(name) !in stable
    case _ => true
  }

  /** Views read only views and these tables. */
  predicate ReadOnly(views: map<string, set<string>>, stable: set<string>) {
    forall v, r :: v in views && r in views[v] ==> r in views || r in stable
  }

  predicate Mindfully(sqls: seq<Sql>, names: set<string>, stable: set<string>) {
    forall i :: 0 <= i < |sqls| ==> Mindful(sqls[i], names, stable)
  }

  /** These tables are there, and every index has one of these names. */
  predicate Kept(c: Catalog, names: set<string>, stable: set<string>) {
    stable <= c.tables && forall p :: p in c.indexes ==> p.0 in names
  }

  lemma {:induction false} MindfulKeeps(sqls: seq<Sql>, names: set<string>, stable: set<string>, c: Catalog)
    requires Mindfully(sqls, names, stable) && Kept(c, names, stable)
    ensures Kept(CatalogAfter(sqls, c), names, stable)
  {
    hide Mindful, Catalogued, Kept;
    if sqls != [] {
      var init, last := sqls[..|sqls| - 1], sqls[|sqls| - 1];
      assert forall i :: 0 <= i < |init| ==> init[i] == sqls[i];
      MindfulKeeps(init, names, stable, c);
      MindfulStep(last, names, stable, CatalogAfter(init, c));
    }
  }

  lemma MindfulStep(sql: Sql, names: set<string>, stable: set<string>, c: Catalog)
    requires Mindful(sql, names, stable) && Kept(c, names, stable)
    ensures Kept(Catalogued(sql, c), names, stable)
  {
    hide Lower;
  }

  lemma ReadOnlyUnbroken(views: map<string, set<string>>, stable: set<string>, tables: set<string>)
    requires ReadOnly(views, stable) && stable <= tables
    ensures !BrokenView(views, tables)
  {
  }
}
