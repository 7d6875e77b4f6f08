/// Whole scripts: the run of all units against the runs of each table's own.
module Runs {
  import opened Text
  import opened Sequences
  import opened Script
  import opened Database
  import opened Obstructions
  import opened Locality

  function AllSqls(units: seq<Unit>): seq<Sql> {
    if units == [] then [] else AllSqls(units[..|units| - 1]) + UnitSqls(units[|units| - 1])
  }

  predicate UnitsOk(w: Names, units: seq<Unit>) { forall i :: 0 <= i < |units| ==> UnitOk(w, units[i]) }

  /** One table's own statements, starting from its state (None: no such table). */
  function TableRun(w: Names, units: seq<Unit>, k: string, ot: Option<Table>): Option<Option<Table>>
    requires UnitsOk(w, units)
  {
    if units == [] then Some(ot) else
    var before := TableRun(w, units[..|units| - 1], k, ot);
    var u := units[|units| - 1];
    if before.None? || u.key != k then before else UnitStep(w, u, before.value)
  }

  predicate IsDrop(u: Unit) { u.Single? && u.sql.DropTableSql? }

  /** Under enforcement: nothing rebuilt and nothing dropped. */
  predicate Mild(units: seq<Unit>) { forall i :: 0 <= i < |units| ==> units[i].Single? && !IsDrop(units[i]) }

  // ---- What foreign keys come to name ----

  /** The unit declares the foreign keys of table k anew. */
  predicate Declares(u: Unit, k: string) { u.key == k && (u.Rebuild? || u.sql.CreateTableSql?) }

  /** What a foreign key of table k names after the units: each rebuild sends the name of its temporary table to its own. */
  function Aim(units: seq<Unit>, k: string, f: FkState): FkState {
    if units == [] then f else
    var u := units[|units| - 1];
    var g := if Declares(u, k) then f else Aim(units[..|units| - 1], k, f);
    if u.Rebuild? then RetargetFk(g, Lower(u.tmp), u.key) else g
  }

  function AimAll(units: seq<Unit>, k: string, fks: set<FkState>): set<FkState> {
    set f | f in fks :: Aim(units, k, f)
  }

  function Aimed(t: Table, fks: set<FkState>): Table { t.(def := t.def.(fks := fks)) }

  function AimTable(units: seq<Unit>, k: string, ot: Option<Table>): Option<Table> {
    if ot.None? then None else Some(Aimed(ot.value, AimAll(units, k, ot.value.def.fks)))
  }

  // ---- Foreign keys on the same columns ----

  function Lists(fks: set<FkState>): set<seq<string>> { set f | f in fks :: f.columns }

  lemma AimKeepsLists(units: seq<Unit>, k: string, fks: set<FkState>)
    ensures Lists(AimAll(units, k, fks)) == Lists(fks)
  {
    hide Aim;
    forall f | f in fks ensures Aim(units, k, f).columns == f.columns {
      AimColumns(units, k, f);
    }
    forall l ensures l in Lists(AimAll(units, k, fks)) <==> l in Lists(fks) {
      if l in Lists(fks) {
        var f :| f in fks && f.columns == l;
        assert Aim(units, k, f) in AimAll(units, k, fks);
      }
    }
  }

  lemma {:induction false} AimColumns(units: seq<Unit>, k: string, f: FkState)
    ensures Aim(units, k, f).columns == f.columns
  {
    hide Declares, Lower;
    if units != [] {
      AimColumns(units[..|units| - 1], k, f);
    }
  }

  lemma UsedByLists(t: Table, fks: set<FkState>, c: string)
    requires Lists(fks) == Lists(t.def.fks)
    ensures ColumnUsed(Aimed(t, fks).def, c) <==> ColumnUsed(t.def, c)
  {
    var d, e := t.def, Aimed(t, fks).def;
    if f :| f in d.fks && c in f.columns {
      assert f.columns in Lists(fks);
      var g :| g in fks && g.columns == f.columns;
      assert g in e.fks;
    }
    if g :| g in e.fks && c in g.columns {
      assert g.columns in Lists(d.fks);
      var f :| f in d.fks && f.columns == g.columns;
      assert f in d.fks;
    }
  }

  // ---- One unit, whatever its table's foreign keys name ----

  function AimedMaybe(r: Option<Option<Table>>, fks: set<FkState>): Option<Option<Table>> {
    if r.None? || r.value.None? then r else Some(Some(Aimed(r.value.value, fks)))
  }

  lemma SingleAimed(sql: Sql, t: Table, fks: set<FkState>)
    requires Lists(fks) == Lists(t.def.fks) && !sql.CreateTableSql?
    ensures SingleStep(sql, Some(Aimed(t, fks))) == AimedMaybe(SingleStep(sql, Some(t)), fks)
    ensures var r := SingleStep(sql, Some(t)); r.Some? && r.value.Some? ==> r.value.value.def.fks == t.def.fks
  {
    if sql.DropColumnSql? {
      UsedByLists(t, fks, Lower(sql.name));
    }
    hide Lists, Lower, ColumnUsed, DistinctOn, ColumnAddable, Within, ColOf, LowerAll, DefaultValue, WithColumn, WithoutColumn;
  }

  /** A unit that declares the foreign keys forgets the old ones; any other keeps them. */
  lemma StepAimed(w: Names, u: Unit, t: Table, fks: set<FkState>)
    requires UnitOk(w, u) && Lists(fks) == Lists(t.def.fks)
    ensures var r := UnitStep(w, u, Some(t));
      && UnitStep(w, u, Some(Aimed(t, fks))) == (if Declares(u, u.key) then r else AimedMaybe(r, fks))
      && (!Declares(u, u.key) && r.Some? && r.value.Some? ==> r.value.value.def.fks == t.def.fks)
  {
    hide UnitOk, SingleStep, Lists, Lower, Aimed;
    if u.Single? && !u.sql.CreateTableSql? {
      SingleAimed(u.sql, t, fks);
    } else if u.Single? {
      CreateFails(u.sql, t);
      CreateFails(u.sql, Aimed(t, fks));
    } else {
      UnitIndexes(w, u);
      RebuildForgets(u.body, u.cols, u.indexes, t, fks);
    }
  }

  lemma UnitIndexes(w: Names, u: Unit)
    requires UnitOk(w, u) && u.Rebuild?
    ensures forall i :: 0 <= i < |u.indexes| ==> u.indexes[i].CreateIndexSql?
  {
    hide Lower, IndexSqlOk;
  }

  lemma CreateFails(sql: Sql, t: Table)
    requires sql.CreateTableSql?
    ensures SingleStep(sql, Some(t)).None?
  {
  }

  lemma RebuildForgets(body: TableBody, cols: seq<string>, indexes: seq<Sql>, t: Table, fks: set<FkState>)
    requires forall i :: 0 <= i < |indexes| ==> indexes[i].CreateIndexSql?
    ensures RebuildStep(body, cols, indexes, Aimed(t, fks)) == RebuildStep(body, cols, indexes, t)
  {
    hide BodyOk, DefOfBody, AddIndexes, RowsOk, Within, CopyRows, LowerAll;
  }

  lemma StepNone(w: Names, u: Unit)
    requires UnitOk(w, u)
    ensures UnitStep(w, u, None).Some? ==> Declares(u, u.key)
  {
    hide BodyOk, DefOfBody, Lower, IndexSqlOk;
  }

  predicate Redeclared(units: seq<Unit>, k: string) { exists i :: 0 <= i < |units| && Declares(units[i], k) }

  lemma RedeclaredSnoc(units: seq<Unit>, k: string)
    requires units != []
    ensures Redeclared(units, k) <==> Redeclared(units[..|units| - 1], k) || Declares(units[|units| - 1], k)
    ensures Declares(units[|units| - 1], k) ==> units[|units| - 1].key == k
  {
    var init := units[..|units| - 1];
    assert forall i :: 0 <= i < |init| ==> init[i] == units[i];
  }

  /** A table's run from other foreign keys on the same columns. */
  lemma {:induction false} RunAimed(w: Names, units: seq<Unit>, k: string, t: Table, fks: set<FkState>)
    requires UnitsOk(w, units) && Lists(fks) == Lists(t.def.fks)
    ensures var r := TableRun(w, units, k, Some(t));
      && TableRun(w, units, k, Some(Aimed(t, fks))) == (if Redeclared(units, k) then r else AimedMaybe(r, fks))
      && (!Redeclared(units, k) && r.Some? && r.value.Some? ==> r.value.value.def.fks == t.def.fks)
  {
    hide UnitOk, UnitStep, Declares, Lists, Redeclared, Aimed;
    if units == [] {
      NothingDeclared(k);
    } else {
      var init, u := units[..|units| - 1], units[|units| - 1];
      assert forall i :: 0 <= i < |init| ==> init[i] == units[i];
      RunAimed(w, init, k, t, fks);
      RedeclaredSnoc(units, k);
      var before := TableRun(w, init, k, Some(t));
      if before.Some? && u.key == k {
        if before.value.Some? {
          AimedTwice(before.value.value, fks);
          if !Redeclared(init, k) {
            StepAimed(w, u, before.value.value, fks);
          }
        } else {
          StepNone(w, u);
        }
      }
    }
  }

  lemma NothingDeclared(k: string)
    ensures !Redeclared([], k)
  {
  }

  lemma AimedTwice(t: Table, fks: set<FkState>)
    ensures Aimed(t, t.def.fks) == t && Aimed(Aimed(t, fks), t.def.fks) == t && Aimed(t, fks).def.fks == fks
    ensures forall gs :: Aimed(Aimed(t, fks), gs) == Aimed(t, gs)
  {
  }

  // ---- One unit ----

  lemma UnitExec(w: Names, db: Db, u: Unit)
    requires NamesOk(w) && DbOk(w, db) && UnitOk(w, u) && (db.enforce ==> u.Single? && !IsDrop(u))
    ensures var r, s := Run(UnitSqls(u), db), UnitStep(w, u, Lookup(db.tables, u.key));
      && r == (if UnitBlocked(u, CatalogOf(db), db.views) || s.None? then None else Some(Settled(db, u, s.value)))
      && (s.Some? ==> DbOk(w, Settled(db, u, s.value)))
  {
    hide Run, NamesOk, Lower, UnitSqls, SingleOk, DefOfBody, CatalogOf, Settled, DbOk, GroupBlocked;
    var ot := Lookup(db.tables, u.key);
    if u.Single? {
      SingleUnit(w, db, u);
    } else {
      GroupExec(w, db, u);
      var s := UnitStep(w, u, ot);
      if s.Some? {
        SettledOk(w, db, u, s.value.value);
      }
    }
  }

  lemma SingleUnit(w: Names, db: Db, u: Unit)
    requires NamesOk(w) && DbOk(w, db) && UnitOk(w, u) && u.Single? && (db.enforce ==> !IsDrop(u))
    ensures var r, s := Run(UnitSqls(u), db), SingleStep(u.sql, Lookup(db.tables, u.key));
      && r == (if Blocked(u.sql, CatalogOf(db), db.views) || s.None? then None else Some(Settled(db, u, s.value)))
      && (s.Some? ==> DbOk(w, Settled(db, u, s.value)))
  {
    hide Run, NamesOk, SingleOk, Exec, Blocked, CatalogOf;
    RunOne(u.sql, db);
    SingleExec(w, db, u.key, u.sql);
    var ot := Lookup(db.tables, u.key);
    assert ot.Some? ==> TableOk(w, u.key, ot.value);
    SingleKeepsOk(w, u.key, u.sql, ot);
    hide SingleStep;
  }

  // ---- All units ----

  /** The state after a run: every table as its own statements leave it, its foreign keys aimed. */
  ghost predicate Tracks(w: Names, units: seq<Unit>, db: Db, end: Db)
    requires UnitsOk(w, units)
  {
    && DbOk(w, end) && end.enforce == db.enforce && end.views == db.views
    && forall k :: TableRun(w, units, k, Lookup(db.tables, k)).Some?
         && Lookup(end.tables, k) == AimTable(units, k, TableRun(w, units, k, Lookup(db.tables, k)).value)
  }

  lemma AimSnoc(units: seq<Unit>, u: Unit, k: string, f: FkState)
    ensures Aim(units + [u], k, f)
      == var g := if Declares(u, k) then f else Aim(units, k, f); if u.Rebuild? then RetargetFk(g, Lower(u.tmp), u.key) else g
  {
    hide Declares, RetargetFk, Lower;
    assert (units + [u])[..|units|] == units;
  }

  lemma AimAllSnoc(units: seq<Unit>, u: Unit, k: string, fks: set<FkState>)
    ensures AimAll(units + [u], k, fks)
      == var gs := if Declares(u, k) then fks else AimAll(units, k, fks);
         if u.Rebuild? then (set g | g in gs :: RetargetFk(g, Lower(u.tmp), u.key)) else gs
  {
    hide Aim, Declares, RetargetFk, Lower;
    forall f | f in fks ensures Aim(units + [u], k, f)
      == var g := if Declares(u, k) then f else Aim(units, k, f); if u.Rebuild? then RetargetFk(g, Lower(u.tmp), u.key) else g
    {
      AimSnoc(units, u, k, f);
    }
    var all := AimAll(units + [u], k, fks);
    var gs := if Declares(u, k) then fks else AimAll(units, k, fks);
    var want := if u.Rebuild? then (set g | g in gs :: RetargetFk(g, Lower(u.tmp), u.key)) else gs;
    forall x ensures x in all <==> x in want {
      if x in all {
        var f :| f in fks && Aim(units + [u], k, f) == x;
        assert (if Declares(u, k) then f else Aim(units, k, f)) in gs;
      }
      if x in want {
        var g :| g in gs && x == if u.Rebuild? then RetargetFk(g, Lower(u.tmp), u.key) else g;
        var f :| f in fks && g == if Declares(u, k) then f else Aim(units, k, f);
        assert Aim(units + [u], k, f) in all;
      }
    }
  }

  /** Another table's unit only retargets. */
  lemma AimOther(units: seq<Unit>, u: Unit, k: string, ot: Option<Table>)
    requires u.key != k
    ensures AimTable(units + [u], k, ot)
         == if u.Rebuild? then RetargetMaybe(AimTable(units, k, ot), Lower(u.tmp), u.key) else AimTable(units, k, ot)
  {
    hide AimAll, RetargetFk, Lower;
    if ot.Some? {
      AimAllSnoc(units, u, k, ot.value.def.fks);
    }
  }

  /** A table's own unit, on its aimed state. */
  lemma AimOwn(w: Names, units: seq<Unit>, u: Unit, ot: Option<Table>)
    requires UnitOk(w, u)
    ensures var s, a := UnitStep(w, u, ot), UnitStep(w, u, AimTable(units, u.key, ot));
      && s.Some? == a.Some?
      && (s.Some? ==> AimTable(units + [u], u.key, s.value) == if u.Rebuild? then RetargetMaybe(a.value, Lower(u.tmp), u.key) else a.value)
  {
    hide UnitOk, UnitStep, Lists, AimAll, Lower, RetargetFk;
    if ot.Some? {
      var fks := AimAll(units, u.key, ot.value.def.fks);
      AimKeepsLists(units, u.key, ot.value.def.fks);
      StepAimed(w, u, ot.value, fks);
      StepAimed(w, u, ot.value, ot.value.def.fks);
    } else {
      StepNone(w, u);
    }
    var s := UnitStep(w, u, ot);
    if s.Some? && s.value.Some? {
      AimAllSnoc(units, u, u.key, s.value.value.def.fks);
    }
  }

  lemma SettledLookup(db: Db, u: Unit, ot: Option<Table>, k: string)
    ensures Lookup(Settled(db, u, ot).tables, k)
      == var x := if k == u.key then ot else Lookup(db.tables, k); if u.Rebuild? then RetargetMaybe(x, Lower(u.tmp), u.key) else x
  {
    hide Retarget, Lower;
  }

  lemma SnocRuns(w: Names, units: seq<Unit>, u: Unit, k: string, ot: Option<Table>)
    requires UnitsOk(w, units) && UnitOk(w, u)
    ensures UnitsOk(w, units + [u])
    ensures TableRun(w, units + [u], k, ot)
      == var before := TableRun(w, units, k, ot); if before.None? || u.key != k then before else UnitStep(w, u, before.value)
  {
    hide UnitOk, UnitStep;
    assert (units + [u])[..|units|] == units;
  }

  lemma ExtendTrack(w: Names, units: seq<Unit>, u: Unit, db: Db, mid: Db, end: Db, k: string)
    requires UnitsOk(w, units) && UnitOk(w, u) && UnitsOk(w, units + [u]) && Tracks(w, units, db, mid)
    requires var s := UnitStep(w, u, Lookup(mid.tables, u.key)); s.Some? && end == Settled(mid, u, s.value)
    ensures TableRun(w, units + [u], k, Lookup(db.tables, k)).Some?
    ensures Lookup(end.tables, k) == AimTable(units + [u], k, TableRun(w, units + [u], k, Lookup(db.tables, k)).value)
  {
    hide UnitOk, UnitStep, TableRun, AimTable, UnitsOk, DbOk, Settled, Lookup;
    SnocRuns(w, units, u, k, Lookup(db.tables, k));
    var ot := TableRun(w, units, k, Lookup(db.tables, k)).value;
    SettledLookup(mid, u, UnitStep(w, u, Lookup(mid.tables, u.key)).value, k);
    if k == u.key {
      AimOwn(w, units, u, ot);
    } else {
      AimOther(units, u, k, ot);
    }
  }

  lemma ExtendRun(w: Names, units: seq<Unit>, u: Unit, db: Db, mid: Db)
    requires NamesOk(w) && UnitsOk(w, units) && UnitOk(w, u) && UnitsOk(w, units + [u])
    requires Tracks(w, units, db, mid) && (mid.enforce ==> u.Single? && !IsDrop(u))
    ensures var r := Run(UnitSqls(u), mid);
      && (r.Some? <==> !UnitBlocked(u, CatalogOf(mid), mid.views) && TableRun(w, units + [u], u.key, Lookup(db.tables, u.key)).Some?)
      && (r.Some? ==> Tracks(w, units + [u], db, r.value))
  {
    hide Run, UnitSqls, UnitOk, UnitStep, NamesOk, DbOk, Settled, AimTable, UnitBlocked, CatalogOf, UnitsOk, TableRun, IsDrop;
    UnitExec(w, mid, u);
    SnocRuns(w, units, u, u.key, Lookup(db.tables, u.key));
    AimOwn(w, units, u, TableRun(w, units, u.key, Lookup(db.tables, u.key)).value);
    var r := Run(UnitSqls(u), mid);
    if r.Some? {
      forall k ensures TableRun(w, units + [u], k, Lookup(db.tables, k)).Some?
        && Lookup(r.value.tables, k) == AimTable(units + [u], k, TableRun(w, units + [u], k, Lookup(db.tables, k)).value)
      {
        ExtendTrack(w, units, u, db, mid, r.value, k);
      }
      SettledRest(mid, u, UnitStep(w, u, Lookup(mid.tables, u.key)).value);
    }
  }

  lemma SettledRest(db: Db, u: Unit, ot: Option<Table>)
    ensures var r := Settled(db, u, ot); r.enforce == db.enforce && r.views == db.views
  {
    hide Retargets, Lower;
  }

  /** A prefix that is obstructed, or a table it refuses, stops the whole. */
  lemma AllSqlsSnoc(units: seq<Unit>, db: Db)
    requires units != []
    ensures var init, u := units[..|units| - 1], units[|units| - 1];
      && Run(AllSqls(units), db) == Then(Run(AllSqls(init), db), UnitSqls(u))
      && var c := CatalogOf(db);
      Obstructed(AllSqls(units), c, db.views) == (Obstructed(AllSqls(init), c, db.views) || Obstructed(UnitSqls(u), CatalogAfter(AllSqls(init), c), db.views))
  {
    hide Run, UnitSqls, Obstructed, CatalogAfter, CatalogOf;
    var init, u := units[..|units| - 1], units[|units| - 1];
    RunConcat(AllSqls(init), UnitSqls(u), db);
    ObstructedConcat(AllSqls(init), UnitSqls(u), CatalogOf(db), db.views);
  }

  /**
   * Units run to the end exactly when nothing obstructs them and each table's own statements do;
   * every table is then as those leave it, but for the foreign keys a rebuild's RENAME has retargeted.
   */
  lemma {:induction false} RunUnits(w: Names, units: seq<Unit>, db: Db)
    requires NamesOk(w) && DbOk(w, db) && UnitsOk(w, units) && (db.enforce ==> Mild(units))
    ensures var r := Run(AllSqls(units), db);
      && (r.Some? <==> !Obstructed(AllSqls(units), CatalogOf(db), db.views) && forall k :: TableRun(w, units, k, Lookup(db.tables, k)).Some?)
      && (r.Some? ==> Tracks(w, units, db, r.value))
  {
    NamesUnique(w, db);
    hide UnitSqls, UnitOk, UnitStep, NamesOk, DbOk, Exec, Obstructed, CatalogOf, CatalogAfter, UnitBlocked, AimTable, Unique, TableRun, Tracks, UnitsOk, IsDrop;
    if units == [] {
      NoUnits(w, db);
    } else {
      var init, u := units[..|units| - 1], units[|units| - 1];
      assert units == init + [u];
      SplitUnits(w, init, u);
      assert db.enforce ==> Mild(init) && u.Single? && !IsDrop(u) by { assert forall i :: 0 <= i < |init| ==> init[i] == units[i]; }
      RunUnits(w, init, db);
      AllSqlsSnoc(units, db);
      var mid := Run(AllSqls(init), db);
      if mid.Some? {
        RunCatalog(AllSqls(init), db);
        TracksParts(w, init, db, mid.value);
        UnitObstructed(w, u, CatalogOf(mid.value), db.views);
        ExtendRun(w, init, u, db, mid.value);
        forall k ensures u.key != k ==> TableRun(w, units, k, Lookup(db.tables, k)).Some? {
          TracksAt(w, init, db, mid.value, k);
          SnocRuns(w, init, u, k, Lookup(db.tables, k));
        }
      } else if !Obstructed(AllSqls(init), CatalogOf(db), db.views) {
        var k :| TableRun(w, init, k, Lookup(db.tables, k)).None?;
        SnocRuns(w, init, u, k, Lookup(db.tables, k));
      }
    }
  }

  // ---- Units one after another ----

  lemma {:induction false} RunsConcat(w: Names, u: seq<Unit>, v: seq<Unit>, k: string, ot: Option<Table>)
    requires UnitsOk(w, u) && UnitsOk(w, v)
    ensures UnitsOk(w, u + v)
    ensures TableRun(w, u + v, k, ot) == var r := TableRun(w, u, k, ot); if r.None? then None else TableRun(w, v, k, r.value)
  {
    hide UnitOk, UnitStep;
    if v == [] {
      assert u + v == u;
    } else {
      var init, last := v[..|v| - 1], v[|v| - 1];
      assert forall i :: 0 <= i < |init| ==> init[i] == v[i];
      assert u + v == (u + init) + [last];
      RunsConcat(w, u, init, k, ot);
      SnocRuns(w, u + init, last, k, ot);
    }
  }

  lemma {:induction false} AllSqlsConcat(u: seq<Unit>, v: seq<Unit>)
    ensures AllSqls(u + v) == AllSqls(u) + AllSqls(v)
  {
    hide UnitSqls;
    if v == [] {
      assert u + v == u;
    } else {
      assert (u + v)[..|u + v| - 1] == u + v[..|v| - 1];
      AllSqlsConcat(u, v[..|v| - 1]);
    }
  }

  /** Where nothing is rebuilt no foreign key changes. */
  lemma {:induction false} AimSingles(units: seq<Unit>, k: string, f: FkState)
    requires forall i :: 0 <= i < |units| ==> units[i].Single?
    ensures Aim(units, k, f) == f
  {
    hide Declares;
    if units != [] {
      assert units[|units| - 1].Single?;
      AimSingles(units[..|units| - 1], k, f);
    }
  }

  lemma AimTableSingles(units: seq<Unit>, k: string, ot: Option<Table>)
    requires forall i :: 0 <= i < |units| ==> units[i].Single?
    ensures AimTable(units, k, ot) == ot
  {
    hide Aim;
    if ot.Some? {
      var fks := ot.value.def.fks;
      forall f | f in fks ensures Aim(units, k, f) == f { AimSingles(units, k, f); }
      assert AimAll(units, k, fks) == fks;
    }
  }

  lemma NoUnits(w: Names, db: Db)
    requires DbOk(w, db)
    ensures Run(AllSqls([]), db) == Some(db) && !Obstructed(AllSqls([]), CatalogOf(db), db.views)
    ensures UnitsOk(w, []) && Tracks(w, [], db, db)
  {
    hide DbOk, CatalogOf;
    forall k ensures Lookup(db.tables, k) == AimTable([], k, Lookup(db.tables, k)) {
      if k in db.tables {
        var fks := db.tables[k].def.fks;
        assert AimAll([], k, fks) == fks by { assert forall f :: f in fks ==> Aim([], k, f) == f; }
      }
    }
  }

  lemma SplitUnits(w: Names, init: seq<Unit>, u: Unit)
    requires UnitsOk(w, init + [u])
    ensures UnitsOk(w, init) && UnitOk(w, u)
  {
    hide UnitOk;
    assert forall i :: 0 <= i < |init| ==> (init + [u])[i] == init[i];
    assert (init + [u])[|init|] == u;
  }

  lemma TracksParts(w: Names, units: seq<Unit>, db: Db, end: Db)
    requires UnitsOk(w, units) && Tracks(w, units, db, end) && NamesOk(w)
    ensures end.enforce == db.enforce && end.views == db.views && DbOk(w, end) && w.tables <= w.taken
  {
    hide UnitOk, DbOk, TableRun, AimTable;
  }

  lemma TracksAt(w: Names, units: seq<Unit>, db: Db, end: Db, k: string)
    requires UnitsOk(w, units) && Tracks(w, units, db, end)
    ensures TableRun(w, units, k, Lookup(db.tables, k)).Some?
    ensures Lookup(end.tables, k) == AimTable(units, k, TableRun(w, units, k, Lookup(db.tables, k)).value)
  {
    hide TableRun, DbOk, UnitOk, AimTable;
  }

  // ---- Foreign keys that stray ----

  /** A table rebuilt when or after table k last had its foreign keys declared has the temporary name n. */
  predicate Strays(units: seq<Unit>, k: string, n: string) {
    units != [] &&
    var u := units[|units| - 1];
    (u.Rebuild? && Lower(u.tmp) == n) || (!Declares(u, k) && Strays(units[..|units| - 1], k, n))
  }

  /** A foreign key changes exactly when it names such a temporary table; it then names a table of either side. */
  lemma {:induction false} AimStays(w: Names, units: seq<Unit>, k: string, f: FkState)
    requires UnitsOk(w, units) && w.tables <= w.taken
    ensures Aim(units, k, f) == f <==> !Strays(units, k, f.refTable)
    ensures Aim(units, k, f) == f || Aim(units, k, f).refTable in w.taken
    ensures Strays(units, k, f.refTable) ==> f.refTable !in w.taken
  {
    hide Declares, Lower, IndexSqlOk, SingleOk;
    if units != [] {
      var init, u := units[..|units| - 1], units[|units| - 1];
      assert forall i :: 0 <= i < |init| ==> init[i] == units[i];
      assert UnitOk(w, units[|units| - 1]);
      AimStays(w, init, k, f);
    }
  }

  /** The foreign keys of table k are as declared exactly when none of them strays. */
  lemma AimAllStays(w: Names, units: seq<Unit>, k: string, fks: set<FkState>)
    requires UnitsOk(w, units) && w.tables <= w.taken
    ensures AimAll(units, k, fks) == fks <==> forall f :: f in fks ==> !Strays(units, k, f.refTable)
  {
    hide Aim, Strays, UnitOk;
    forall f | f in fks
      ensures Aim(units, k, f) == f <==> !Strays(units, k, f.refTable)
      ensures Strays(units, k, f.refTable) ==> f !in AimAll(units, k, fks)
    {
      AimStays(w, units, k, f);
      if Strays(units, k, f.refTable) && f in AimAll(units, k, fks) {
        var g :| g in fks && Aim(units, k, g) == f;
        AimStays(w, units, k, g);
      }
    }
  }

  /** Declared once, aimed by two scripts: as declared exactly when nothing strays in either. */
  lemma AimTwiceStays(w: Names, v: Names, first: seq<Unit>, second: seq<Unit>, k: string, fks: set<FkState>)
    requires UnitsOk(w, first) && UnitsOk(v, second) && w.tables <= w.taken == v.taken && v.tables <= v.taken
    ensures AimAll(second, k, AimAll(first, k, fks)) == fks
      <==> forall f :: f in fks ==> !Strays(first, k, f.refTable) && !Strays(second, k, f.refTable)
  {
    hide Aim, Strays, UnitOk;
    var mid := AimAll(first, k, fks);
    if forall f :: f in fks ==> !Strays(first, k, f.refTable) {
      AimAllStays(w, first, k, fks);
      AimAllStays(v, second, k, fks);
    } else {
      var f :| f in fks && Strays(first, k, f.refTable);
      AimStays(w, first, k, f);
      if f in AimAll(second, k, mid) {
        var g :| g in mid && Aim(second, k, g) == f;
        AimStays(v, second, k, g);
        var h :| h in fks && Aim(first, k, h) == g;
        AimStays(w, first, k, h);
      }
    }
  }

  // ---- What stands in the way when views do not ----

  function AllOwned(w: Names): set<string> { set k, n | k in w.owned && n in w.owned[k] :: n }

  /** Tables that are not rebuilt or dropped. */
  predicate Careful(units: seq<Unit>, stable: set<string>) {
    forall i :: 0 <= i < |units| ==> CarefulUnit(units[i], stable)
  }

  predicate CarefulUnit(u: Unit, stable: set<string>) { u.key in stable ==> u.Single? && !IsDrop(u) }

  /** When the turn of the i-th unit comes, an index has the temporary name of the table it rebuilds. */
  predicate Clash(units: seq<Unit>, i: nat, c: Catalog) {
    i < |units| && units[i].Rebuild? && HasIndex(CatalogAfter(AllSqls(units[..i]), c), Lower(units[i].tmp))
  }

  lemma MindfulUnit(w: Names, u: Unit, stable: set<string>)
    requires NamesOk(w) && UnitOk(w, u) && stable <= w.tables && CarefulUnit(u, stable)
    ensures Mindfully(UnitSqls(u), AllOwned(w), stable)
  {
    hide Lower;
  }

  lemma UnitClash(w: Names, u: Unit, stable: set<string>, c: Catalog, views: map<string, set<string>>)
    requires NamesOk(w) && UnitOk(w, u) && stable <= w.tables && CarefulUnit(u, stable)
    requires Kept(c, AllOwned(w), stable) && ReadOnly(views, stable)
    ensures UnitBlocked(u, c, views) <==> u.Rebuild? && HasIndex(c, Lower(u.tmp))
  {
    hide Lower, BrokenView, ReadOnly;
    ReadOnlyUnbroken(views, stable, c.tables);
    if u.Rebuild? {
      ReadOnlyUnbroken(views, stable, c.tables + {Lower(u.tmp)} - {u.key});
    } else {
      assert u.key !in AllOwned(w);
    }
  }

  lemma ClashEarlier(units: seq<Unit>, i: nat, c: Catalog)
    requires units != [] && i < |units| - 1
    ensures Clash(units, i, c) <==> Clash(units[..|units| - 1], i, c)
  {
    hide AllSqls, CatalogAfter, HasIndex;
    assert units[..|units| - 1][..i] == units[..i];
  }

  /** With views out of the way the units are obstructed exactly when some index has a chosen temporary name in time. */
  lemma {:induction false} ClashObstructs(w: Names, units: seq<Unit>, stable: set<string>, c: Catalog, views: map<string, set<string>>)
    requires NamesOk(w) && UnitsOk(w, units) && stable <= w.tables && Careful(units, stable)
    requires Kept(c, AllOwned(w), stable) && ReadOnly(views, stable)
    ensures Kept(CatalogAfter(AllSqls(units), c), AllOwned(w), stable)
    ensures Obstructed(AllSqls(units), c, views) <==> exists i: nat :: Clash(units, i, c)
  {
    hide UnitOk, UnitSqls, NamesOk, AllOwned, CarefulUnit, Kept, ReadOnly, Clash, UnitBlocked, HasIndex, Lower, CatalogAfter, Obstructed;
    if units == [] {
      NothingRun(c, views);
      forall i: nat ensures !Clash(units, i, c) { NoClash(units, i, c); }
    } else {
      var init, u := units[..|units| - 1], units[|units| - 1];
      var mid := CatalogAfter(AllSqls(init), c);
      assert forall i :: 0 <= i < |init| ==> init[i] == units[i];
      ClashObstructs(w, init, stable, c, views);
      assert UnitOk(w, units[|units| - 1]) && CarefulUnit(units[|units| - 1], stable);
      ObstructedConcat(AllSqls(init), UnitSqls(u), c, views);
      OwnTaken(w);
      UnitObstructed(w, u, mid, views);
      UnitClash(w, u, stable, mid, views);
      MindfulUnit(w, u, stable);
      MindfulKeeps(UnitSqls(u), AllOwned(w), stable, mid);
      LastClash(units, c);
      if i: nat :| Clash(units, i, c) {
        ClashWithin(units, i, c);
        if i < |init| {
          ClashEarlier(units, i, c);
        }
      }
      if i: nat :| Clash(init, i, c) {
        ClashWithin(init, i, c);
        ClashEarlier(units, i, c);
      }
    }
  }

  lemma NothingRun(c: Catalog, views: map<string, set<string>>)
    ensures CatalogAfter(AllSqls([]), c) == c && !Obstructed(AllSqls([]), c, views)
  {
  }

  lemma NoClash(units: seq<Unit>, i: nat, c: Catalog)
    requires units == []
    ensures !Clash(units, i, c)
  {
    hide AllSqls, CatalogAfter, HasIndex;
  }

  lemma ClashWithin(units: seq<Unit>, i: nat, c: Catalog)
    requires Clash(units, i, c)
    ensures i < |units|
  {
    hide AllSqls, CatalogAfter, HasIndex;
  }

  lemma LastClash(units: seq<Unit>, c: Catalog)
    requires units != []
    ensures var n, u := |units| - 1, units[|units| - 1];
      Clash(units, n, c) <==> u.Rebuild? && HasIndex(CatalogAfter(AllSqls(units[..n]), c), Lower(u.tmp))
  {
    hide AllSqls, CatalogAfter, HasIndex, Lower;
  }

  lemma OwnTaken(w: Names)
    requires NamesOk(w)
    ensures w.tables <= w.taken
  {
  }

  /** The catalog of a database that keeps to the names. */
  lemma CatalogKept(w: Names, db: Db, stable: set<string>)
    requires NamesOk(w) && DbOk(w, db) && stable <= db.tables.Keys
    ensures Kept(CatalogOf(db), AllOwned(w), stable) && stable <= w.tables
  {
    hide NamesOk, CatalogOf, Lower;
    CatalogTables(db);
    forall k | k in stable ensures k in w.tables {
      assert TableOk(w, k, db.tables[k]);
    }
    forall p | p in CatalogOf(db).indexes ensures p.0 in AllOwned(w) {
      assert p == (p.0, p.1);
      InCatalog(db, p.0, p.1);
      assert TableOk(w, p.1, db.tables[p.1]);
    }
  }
}
