/// Dropping tables one after another with enforcement on: what the implicit
/// deletes leave, and when one of them is refused.
module Drops {
  import opened Text
  import opened Sequences
  import opened Snapshots
  import opened Script
  import opened Database
  import opened Obstructions
  import opened Locality
  import opened Runs
  import opened Shape

  /** The tables left after dropping those under `keys` in order; None once a DROP TABLE is refused. */
  ghost function DropAll(tables: map<string, Table>, keys: seq<string>): Option<map<string, Table>> {
    if keys == [] then Some(tables) else
    var before, k := DropAll(tables, keys[..|keys| - 1]), keys[|keys| - 1];
    if before.None? || k !in before.value then None else
    var kept := ImplicitDelete(before.value, k);
    if kept.None? then None else Some(kept.value - {k})
  }

  lemma {:induction false} StayingTyped(tables: map<string, Table>, k: string, t: string, n: nat)
    requires t in tables && n <= |tables[t].rows| && RowsTyped(tables[t])
    ensures forall r :: r in Staying(tables, k, t, n) ==> r.Keys == tables[t].def.cols.Keys
  {
    hide Goes, MendedValue;
    if n > 0 {
      StayingTyped(tables, k, t, n - 1);
      assert Mended(tables, k, t, n - 1).Keys == tables[t].rows[n - 1].Keys;
    }
  }

  lemma DeleteKeepsTyped(tables: map<string, Table>, k: string, t: string)
    requires t in tables && RowsTyped(tables[t]) && ImplicitDelete(tables, k).Some?
    ensures t in ImplicitDelete(tables, k).value && RowsTyped(ImplicitDelete(tables, k).value[t])
  {
    hide Staying, DeleteRefused;
    StayingTyped(tables, k, t, |tables[t].rows|);
    var rows := Staying(tables, k, t, |tables[t].rows|);
    assert forall i :: 0 <= i < |rows| ==> rows[i] in rows;
  }

  function KeySet(keys: seq<string>): set<string> { set k | k in keys }

  lemma {:induction false} DropAllKeeps(tables: map<string, Table>, keys: seq<string>)
    requires DropAll(tables, keys).Some?
    ensures var r := DropAll(tables, keys).value;
      && r.Keys == tables.Keys - KeySet(keys)
      && forall t :: t in r ==> r[t].def == tables[t].def && (RowsTyped(tables[t]) ==> RowsTyped(r[t]))
  {
    hide ImplicitDelete, RowsTyped;
    if keys != [] {
      var init, k := keys[..|keys| - 1], keys[|keys| - 1];
      DropAllKeeps(tables, init);
      var before := DropAll(tables, init).value;
      DeleteKeepsDefs(before, k);
      assert forall x :: x in keys <==> x in init || x == k;
      forall t | t in before && RowsTyped(before[t]) ensures RowsTyped(ImplicitDelete(before, k).value[t]) {
        DeleteKeepsTyped(before, k, t);
      }
    }
  }

  // ---- Units that drop ----

  function UnitKey(u: Unit): string { u.key }

  function UnitKeys(units: seq<Unit>): seq<string> { Map(UnitKey, units) }

  predicate AllDrops(units: seq<Unit>) { forall i :: 0 <= i < |units| ==> IsDrop(units[i]) }

  lemma DropExec(w: Names, db: Db, u: Unit)
    requires UnitOk(w, u) && IsDrop(u) && db.enforce
    ensures Run(UnitSqls(u), db)
      == if u.key !in db.tables || ImplicitDelete(db.tables, u.key).None? then None
         else Some(db.(tables := ImplicitDelete(db.tables, u.key).value - {u.key}))
  {
    hide Run, ImplicitDelete, Lower;
    RunOne(u.sql, db);
  }

  lemma {:induction false} RunDrops(w: Names, units: seq<Unit>, db: Db)
    requires UnitsOk(w, units) && AllDrops(units) && db.enforce
    ensures var r := DropAll(db.tables, UnitKeys(units));
      Run(AllSqls(units), db) == if r.None? then None else Some(db.(tables := r.value))
  {
    hide UnitOk, UnitSqls, Exec, IsDrop, ImplicitDelete;
    if units != [] {
      var init, u := units[..|units| - 1], units[|units| - 1];
      assert forall i :: 0 <= i < |init| ==> init[i] == units[i];
      assert UnitKeys(units)[..|units| - 1] == UnitKeys(init);
      RunDrops(w, init, db);
      RunConcat(AllSqls(init), UnitSqls(u), db);
      var mid := Run(AllSqls(init), db);
      if mid.Some? {
        DropExec(w, mid.value, u);
      }
    }
  }

  // ---- Drops that set off no action ----

  /** A row of another table refers to a row of k, or RESTRICT meets a later row of k itself. */
  ghost predicate Holding(tables: map<string, Table>, k: string) {
    || (exists t, i: nat, f: FkState, j: nat :: t != k && f.refTable == k && PointsAt(tables, t, i, f, j))
    || (exists i: nat, j: nat, f: FkState :: f.onDelete == Restrict && f.refTable == k && i < j && PointsAt(tables, k, j, f, i))
  }

  /** Some table to be dropped is still referred to when its turn comes. */
  ghost predicate HeldAmong(tables: map<string, Table>, keys: seq<string>) {
    exists i :: 0 <= i < |keys| && Holding(tables - KeySet(keys[..i]), keys[i])
  }

  lemma InertGoes(tables: map<string, Table>, k: string, t: string, i: nat)
    requires Inert(tables, {k})
    ensures Goes(tables, k, t, i) <==> t == k && k in tables && i < |tables[k].rows|
  {
    if t == k && k in tables && i < |tables[k].rows| {
      assert Falls(tables, k, t, i, 0);
    }
    if n: nat :| Falls(tables, k, t, i, n) {
      FallsInert(tables, k, t, i, n);
    }
  }

  lemma {:induction false} FallsInert(tables: map<string, Table>, k: string, t: string, i: nat, n: nat)
    requires Inert(tables, {k}) && Falls(tables, k, t, i, n)
    ensures t == k
    decreases n
  {
    if t != k {
      var f: FkState, j: nat :| f.onDelete == Cascade && PointsAt(tables, t, i, f, j) && Falls(tables, k, f.refTable, j, n - 1);
      assert f in tables[t].def.fks;
      FallsInert(tables, k, f.refTable, j, n - 1);
    }
  }

  lemma InertLoses(tables: map<string, Table>, k: string, t: string, i: nat, f: FkState)
    requires Inert(tables, {k}) && Loses(tables, k, t, i, f)
    ensures f.refTable == k && !Acts(f) && exists j: nat :: PointsAt(tables, t, i, f, j)
  {
    var j: nat :| PointsAt(tables, t, i, f, j) && Goes(tables, k, f.refTable, j);
    InertGoes(tables, k, f.refTable, j);
  }

  lemma PointsFrom(tables: map<string, Table>, t: string, i: nat, f: FkState, j: nat)
    requires PointsAt(tables, t, i, f, j)
    ensures t in tables && i < |tables[t].rows| && f.refTable in tables && j < |tables[f.refTable].rows|
  {
  }

  lemma InertMended(tables: map<string, Table>, k: string, t: string, i: nat)
    requires Inert(tables, {k}) && t in tables && i < |tables[t].rows|
    ensures Mended(tables, k, t, i) == tables[t].rows[i]
  {
    hide Loses, Inert;
    forall f: FkState | Loses(tables, k, t, i, f) ensures !Acts(f) {
      InertLoses(tables, k, t, i, f);
    }
  }

  lemma {:induction false} InertStaying(tables: map<string, Table>, k: string, t: string, n: nat)
    requires Inert(tables, {k}) && t in tables && t != k && n <= |tables[t].rows|
    ensures Staying(tables, k, t, n) == tables[t].rows[..n]
  {
    hide Goes, Mended, Inert;
    if n > 0 {
      InertStaying(tables, k, t, n - 1);
      InertGoes(tables, k, t, n - 1);
      InertMended(tables, k, t, n - 1);
    }
  }

  /** Without actions a DROP TABLE that is not refused only drops. */
  lemma InertDrop(tables: map<string, Table>, k: string)
    requires Inert(tables, {k})
    ensures ImplicitDelete(tables, k).None? <==> Uneven(tables, k)
    ensures ImplicitDelete(tables, k).Some? ==> ImplicitDelete(tables, k).value - {k} == tables - {k}
  {
    hide Goes, Loses, Staying, Inert, Uneven;
    forall t | t in tables && t != k ensures AfterDelete(tables, k)[t] == tables[t] {
      InertStaying(tables, k, t, |tables[t].rows|);
    }
  }

  /** Some table to be dropped leaves violations when its turn comes. */
  ghost predicate UnevenAmong(tables: map<string, Table>, keys: seq<string>) {
    exists i :: 0 <= i < |keys| && Uneven(tables - KeySet(keys[..i]), keys[i])
  }

  lemma {:induction false} DropAllInertly(tables: map<string, Table>, keys: seq<string>)
    requires Inert(tables, KeySet(keys)) && (forall k :: k in keys ==> k in tables) && NoRepeats(keys)
    ensures DropAll(tables, keys) == if UnevenAmong(tables, keys) then None else Some(tables - KeySet(keys))
  {
    hide ImplicitDelete, Uneven;
    if keys == [] {
      assert tables - KeySet(keys) == tables;
    } else {
      var init, k := keys[..|keys| - 1], keys[|keys| - 1];
      DropAllInertly(tables, init);
      UnevenSnoc(tables, keys);
      if !UnevenAmong(tables, init) {
        var left := tables - KeySet(init);
        assert k !in init;
        assert Inert(left, {k});
        InertDrop(left, k);
        assert left - {k} == tables - KeySet(keys);
      }
    }
  }

  lemma UnevenSnoc(tables: map<string, Table>, keys: seq<string>)
    requires keys != []
    ensures var init := keys[..|keys| - 1];
      UnevenAmong(tables, keys) == (UnevenAmong(tables, init) || Uneven(tables - KeySet(init), keys[|keys| - 1]))
  {
    hide Uneven;
    var init := keys[..|keys| - 1];
    assert forall i :: 0 <= i < |init| ==> init[..i] == keys[..i] && init[i] == keys[i];
  }

  // ---- Where every reference has its parent row, violations are rows still referred to ----

  /** The row refers by f to exactly one row. */
  predicate Anchor(tables: map<string, Table>, t: string, i: nat, f: FkState, j: nat) {
    PointsAt(tables, t, i, f, j) && forall l: nat :: l < |tables[f.refTable].rows| && PointsAt(tables, t, i, f, l) ==> l == j
  }

  /** Every reference that is not NULL has exactly one row to refer to. */
  ghost predicate Anchored(tables: map<string, Table>) {
    forall r :: r in References(tables) && Full(tables[r.table].rows[r.row], r.fk) ==> exists j: nat :: Anchor(tables, r.table, r.row, r.fk, j)
  }

  /** The references to the first n rows of k by rows that are not gone when those are. */
  function Open(tables: map<string, Table>, k: string, n: nat): set<Reference> {
    set r | r in References(tables) && OpenAt(tables, k, n, r)
  }

  predicate OpenAt(tables: map<string, Table>, k: string, n: nat, r: Reference) {
    r.fk.refTable == k && (r.table == k ==> r.row >= n) && exists i: nat :: i < n && PointsAt(tables, r.table, r.row, r.fk, i)
  }

  lemma InReferences(tables: map<string, Table>, r: Reference)
    ensures r in References(tables) <==> r.table in tables && r.row < |tables[r.table].rows| && r.fk in tables[r.table].def.fks
  {
  }

  function OwnReferences(k: string, i: nat, fks: set<FkState>): set<Reference> { set f | f in fks :: Reference(k, i, f) }

  lemma {:induction false} OwnSize(k: string, i: nat, fks: set<FkState>)
    ensures |OwnReferences(k, i, fks)| == |fks|
    decreases |fks|
  {
    if fks != {} {
      var f :| f in fks;
      OwnSize(k, i, fks - {f});
      assert OwnReferences(k, i, fks) == OwnReferences(k, i, fks - {f}) + {Reference(k, i, f)};
    }
  }

  lemma AnchoredAt(tables: map<string, Table>, r: Reference) returns (j: nat)
    requires Anchored(tables) && r in References(tables) && Full(tables[r.table].rows[r.row], r.fk)
    ensures Anchor(tables, r.table, r.row, r.fk, j)
  {
    hide References, Anchor, Full;
    j :| Anchor(tables, r.table, r.row, r.fk, j);
  }

  lemma PointsOnce(tables: map<string, Table>, r: Reference, i: nat, j: nat)
    requires Anchored(tables) && PointsAt(tables, r.table, r.row, r.fk, i) && PointsAt(tables, r.table, r.row, r.fk, j)
    ensures i == j
  {
    InReferences(tables, r);
    hide IsKey, References, Anchored;
    var l := AnchoredAt(tables, r);
  }

  lemma NoneAdrift(tables: map<string, Table>, k: string, i: nat)
    requires Anchored(tables) && k in tables && i < |tables[k].rows|
    ensures Adrift(tables, k, i) == {}
  {
    hide IsKey, References, Anchored, Full, Refers;
    forall f | f in tables[k].def.fks && Full(tables[k].rows[i], f) ensures f.refTable in tables {
      InReferences(tables, Reference(k, i, f));
      var j := AnchoredAt(tables, Reference(k, i, f));
    }
  }

  /** Of row n's own references, those astray are the open ones. */
  lemma AstraysOpen(tables: map<string, Table>, k: string, n: nat, f: FkState)
    requires Anchored(tables) && k in tables && n < |tables[k].rows|
    ensures f in Astrays(tables, k, n) <==> Reference(k, n, f) in Open(tables, k, n)
  {
    var r := Reference(k, n, f);
    InReferences(tables, r);
    hide IsKey, References, Anchored;
    if f in Astrays(tables, k, n) {
      var j := AnchoredAt(tables, r);
      assert j < n;
    }
    if r in Open(tables, k, n) {
      var i: nat :| i < n && PointsAt(tables, k, n, f, i);
      forall j: nat | PointsAt(tables, k, n, f, j) ensures j < n {
        PointsOnce(tables, r, i, j);
      }
    }
  }

  lemma OpenNext(tables: map<string, Table>, k: string, n: nat, r: Reference)
    requires Anchored(tables) && k in tables && n < |tables[k].rows|
    ensures r in Open(tables, k, n + 1)
      <==> (r in Open(tables, k, n) && r !in OwnReferences(k, n, Astrays(tables, k, n))) || r in Orphaned(tables, k, n)
    ensures !(r in Open(tables, k, n) && r in Orphaned(tables, k, n))
  {
    AstraysOpen(tables, k, n, r.fk);
    hide PointsAt, References, Anchored, Astrays;
    assert r in OwnReferences(k, n, Astrays(tables, k, n)) <==> r == Reference(k, n, r.fk) && r.fk in Astrays(tables, k, n);
    if r in Orphaned(tables, k, n) {
      forall i: nat | PointsAt(tables, r.table, r.row, r.fk, i) ensures i == n { PointsOnce(tables, r, i, n); }
    }
    if r in Open(tables, k, n + 1) {
      var i: nat :| i < n + 1 && PointsAt(tables, r.table, r.row, r.fk, i);
    }
  }

  lemma OpenStep(tables: map<string, Table>, k: string, n: nat)
    requires Anchored(tables) && k in tables && n < |tables[k].rows|
    ensures |Open(tables, k, n + 1)| == |Open(tables, k, n)| - |Astrays(tables, k, n)| + |Orphaned(tables, k, n)|
    ensures |Astrays(tables, k, n)| <= |Open(tables, k, n)|
  {
    hide Open, Orphaned, Astrays, Anchored, OwnReferences;
    var now, own, orphans := Open(tables, k, n), OwnReferences(k, n, Astrays(tables, k, n)), Orphaned(tables, k, n);
    OwnSize(k, n, Astrays(tables, k, n));
    forall r ensures r in Open(tables, k, n + 1) <==> (r in now && r !in own) || r in orphans
      ensures !(r in now && r in orphans)
    {
      OpenNext(tables, k, n, r);
    }
    forall r | r in own ensures r in now {
      OwnIs(k, n, Astrays(tables, k, n), r);
      AstraysOpen(tables, k, n, r.fk);
    }
    assert Open(tables, k, n + 1) == (now - own) + orphans;
    assert own <= now && |now - own| == |now| - |own| by { Apart(now, own); }
  }

  lemma OwnIs(k: string, i: nat, fks: set<FkState>, r: Reference)
    requires r in OwnReferences(k, i, fks)
    ensures r == Reference(k, i, r.fk) && r.fk in fks
  {
  }

  lemma Apart<T>(a: set<T>, b: set<T>)
    requires b <= a
    ensures |a - b| == |a| - |b|
  {
    assert a == (a - b) + b;
  }

  /** The count is that of the open references. */
  lemma {:induction false} ViolationsOpen(tables: map<string, Table>, k: string, n: nat)
    requires Anchored(tables) && k in tables && n <= |tables[k].rows|
    ensures Violations(tables, k, n) == |Open(tables, k, n)|
  {
    hide Astrays, Adrift, Orphaned, Anchored;
    if n == 0 {
      assert Open(tables, k, 0) == {};
    } else {
      hide Open;
      ViolationsOpen(tables, k, n - 1);
      OpenStep(tables, k, n - 1);
      NoneAdrift(tables, k, n - 1);
    }
  }

  /** Where every reference has its row, SQLite's count refuses exactly a table still referred to from outside, or by RESTRICT from a later row of its own. */
  lemma AnchoredDrop(tables: map<string, Table>, k: string)
    requires Anchored(tables) && k in tables
    ensures Uneven(tables, k) <==> Holding(tables, k)
  {
    var n := |tables[k].rows|;
    ViolationsOpen(tables, k, n);
    hide Anchored, Violations, References, IsKey, Refers;
    if Open(tables, k, n) != {} {
      var r :| r in Open(tables, k, n);
      InReferences(tables, r);
      var i: nat :| i < n && PointsAt(tables, r.table, r.row, r.fk, i);
    }
    if Restricted(tables, k) {
      var i: nat, r: Reference :| Orphans(tables, k, i, r) && r.fk.onDelete == Restrict;
      assert PointsAt(tables, r.table, r.row, r.fk, i);
    }
    if t, i: nat, f: FkState, j: nat :| t != k && f.refTable == k && PointsAt(tables, t, i, f, j) {
      InReferences(tables, Reference(t, i, f));
      assert OpenAt(tables, k, n, Reference(t, i, f));
      assert Reference(t, i, f) in Open(tables, k, n);
    }
    if i: nat, j: nat, f: FkState :| f.onDelete == Restrict && f.refTable == k && i < j && PointsAt(tables, k, j, f, i) {
      assert Orphans(tables, k, i, Reference(k, j, f));
    }
  }

  lemma NotHeld(tables: map<string, Table>, k: string, r: Reference, j: nat)
    requires PointsAt(tables, r.table, r.row, r.fk, j) && r.table != k && !Holding(tables, k)
    ensures r.fk.refTable != k
  {
    hide PointsAt;
    var t, i: nat, f := r.table, r.row, r.fk;
    assert PointsAt(tables, t, i, f, j);
  }

  lemma PointsStay(tables: map<string, Table>, k: string, r: Reference, j: nat)
    requires r.table != k && r.fk.refTable != k
    ensures PointsAt(tables - {k}, r.table, r.row, r.fk, j) <==> PointsAt(tables, r.table, r.row, r.fk, j)
  {
    hide IsKey, Refers;
  }

  lemma AnchorStays(tables: map<string, Table>, k: string, r: Reference, j: nat)
    requires r.table != k && r.fk.refTable != k && Anchor(tables, r.table, r.row, r.fk, j)
    ensures Anchor(tables - {k}, r.table, r.row, r.fk, j)
  {
    PointsStay(tables, k, r, j);
    PointsFrom(tables, r.table, r.row, r.fk, j);
    hide PointsAt;
    var left := tables - {k};
    assert left[r.fk.refTable] == tables[r.fk.refTable];
    forall l: nat | l < |left[r.fk.refTable].rows| && PointsAt(left, r.table, r.row, r.fk, l) ensures l == j {
      PointsStay(tables, k, r, l);
    }
  }

  lemma StaysAnchored(tables: map<string, Table>, k: string)
    requires Anchored(tables) && !Holding(tables, k)
    ensures Anchored(tables - {k})
  {
    var left := tables - {k};
    hide IsKey, Anchored, Refers;
    forall r | r in References(left) && Full(left[r.table].rows[r.row], r.fk) ensures exists j: nat :: Anchor(left, r.table, r.row, r.fk, j) {
      InReferences(left, r);
      InReferences(tables, r);
      var j := AnchoredAt(tables, r);
      NotHeld(tables, k, r, j);
      AnchorStays(tables, k, r, j);
    }
    AnchoredIs(left);
  }

  lemma AnchoredIs(tables: map<string, Table>)
    requires forall r :: r in References(tables) && Full(tables[r.table].rows[r.row], r.fk) ==> exists j: nat :: Anchor(tables, r.table, r.row, r.fk, j)
    ensures Anchored(tables)
  {
    hide References, Anchor, Full;
  }

  lemma {:induction false} AnchoredAmong(tables: map<string, Table>, keys: seq<string>)
    requires Anchored(tables) && (forall k :: k in keys ==> k in tables) && NoRepeats(keys)
    ensures UnevenAmong(tables, keys) <==> HeldAmong(tables, keys)
    ensures !HeldAmong(tables, keys) ==> Anchored(tables - KeySet(keys))
  {
    hide Anchored, Uneven, Holding;
    if keys == [] {
      assert tables - KeySet(keys) == tables;
    } else {
      var init, k := keys[..|keys| - 1], keys[|keys| - 1];
      AnchoredAmong(tables, init);
      UnevenSnoc(tables, keys);
      HeldSnoc(tables, keys);
      if !HeldAmong(tables, init) {
        var left := tables - KeySet(init);
        assert k !in init;
        AnchoredDrop(left, k);
        if !Holding(left, k) {
          StaysAnchored(left, k);
          assert left - {k} == tables - KeySet(keys);
        }
      }
    }
  }

  lemma HeldSnoc(tables: map<string, Table>, keys: seq<string>)
    requires keys != []
    ensures var init := keys[..|keys| - 1];
      HeldAmong(tables, keys) == (HeldAmong(tables, init) || Holding(tables - KeySet(init), keys[|keys| - 1]))
  {
    hide Holding;
    var init := keys[..|keys| - 1];
    assert forall i :: 0 <= i < |init| ==> init[..i] == keys[..i] && init[i] == keys[i];
  }
}
