/// The script of a plan that rebuilds nothing, with enforcement on: it first trims the
/// surviving tables, then drops tables one after another, then adds what is new.
module Sparing {
  import opened Text
  import opened Sequences
  import opened TypeNames
  import opened Snapshots
  import opened Plan
  import opened PlanOrder
  import opened Mirror
  import opened Script
  import opened Database
  import opened Obstructions
  import opened Locality
  import opened Runs
  import opened WellFormed
  import opened PlanIds
  import opened Shape
  import opened Agreement
  import opened InPlaceTables
  import opened InPlaceRuns
  import opened InPlaceEnd
  import opened ScriptUnits
  import opened PlanUnits
  import opened TableRuns
  import opened Convergence
  import opened Drops

  // ---- What the drops find, and what they spare ----

  function Gone(s: TableSnapshot, t: TableSnapshot): set<string> { set k | k in ColumnMap(s) && k !in ColumnMap(t) }

  function Unindexed(s: TableSnapshot, t: TableSnapshot): set<string> { set k | k in SecondaryMap(s) && IndexAdded(t, s, k) }

  function Cut(rows: seq<Row>, gone: set<string>): seq<Row> {
    seq(|rows|, i requires 0 <= i < |rows| => rows[i] - gone)
  }

  /** A surviving table without the columns and indexes the plan drops. */
  function Trimmed(s: TableSnapshot, t: TableSnapshot, x: Table): Table {
    Table(x.def.(cols := x.def.cols - Gone(s, t), indexes := x.def.indexes - Unindexed(s, t)), Cut(x.rows, Gone(s, t)))
  }

  function TrimmedTables(sm: map<string, TableSnapshot>, tm: map<string, TableSnapshot>, tables: map<string, Table>): map<string, Table> {
    map k | k in tables :: if k in sm && k in tm then Trimmed(sm[k], tm[k], tables[k]) else tables[k]
  }

  predicate IsDropEntry(e: Entry) { e.op == DropTable }

  /** The tables the plan drops, in plan order. */
  function DropKeys(plan: seq<Entry>): seq<string> { Map(CreateKey, Filter(plan, IsDropEntry)) }

  function Refilled(x: Table, rows: seq<Row>): Table {
    x.(rows := seq(|rows|, i requires 0 <= i < |rows| => map c | c in x.def.cols :: Get(rows[i], c)))
  }

  /** The database as if it had held from the start only the rows the drops leave; None when a drop is refused. */
  ghost function Spared(source: Snapshot, target: Snapshot, plan: seq<Entry>, db: Db): Option<Db> {
    var kept := DropAll(TrimmedTables(TableMap(source), TableMap(target), db.tables), DropKeys(plan));
    if kept.None? then None
    else Some(db.(tables := map k | k in db.tables :: if k in kept.value then Refilled(db.tables[k], kept.value[k].rows) else db.tables[k]))
  }

  // ---- Cutting a plan by phase ----

  predicate CutAt(es: seq<Entry>, n: nat, phase: nat) {
    && n <= |es| && (forall i :: 0 <= i < n ==> Phase(es[i].op) < phase) && forall i :: n <= i < |es| ==> Phase(es[i].op) >= phase
  }

  lemma {:induction false} CutPhases(es: seq<Entry>, phase: nat) returns (n: nat)
    requires PhasesAscend(es)
    ensures CutAt(es, n, phase)
  {
    hide Phase;
    if es == [] {
      n := 0;
    } else {
      var init, last := es[..|es| - 1], es[|es| - 1];
      assert forall i :: 0 <= i < |init| ==> init[i] == es[i];
      n := CutPhases(init, phase);
      if Phase(last.op) < phase {
        n := |es|;
      }
    }
  }

  lemma OwnCut(es: seq<Entry>, n: nat, phase: nat, k: string) returns (m: nat)
    requires CutAt(es, n, phase)
    ensures m <= |Own(es, k)| && CutAt(Own(es, k), m, phase)
    ensures Own(es[..n], k) == Own(es, k)[..m] && Own(es[n..], k) == Own(es, k)[m..]
  {
    hide Phase, Lower, Own;
    assert es == es[..n] + es[n..];
    OwnConcat(es[..n], es[n..], k);
    m := |Own(es[..n], k)|;
    OwnMembers(es[..n], k);
    OwnMembers(es[n..], k);
    var own := Own(es, k);
    forall i | 0 <= i < m ensures Phase(own[i].op) < phase {
      assert own[i] in Own(es[..n], k);
    }
    forall i | m <= i < |own| ensures Phase(own[i].op) >= phase {
      assert own[i] == Own(es[n..], k)[i - m];
      assert own[i] in Own(es[n..], k);
    }
  }

  lemma OwnConcat(a: seq<Entry>, b: seq<Entry>, k: string)
    ensures Own(a + b, k) == Own(a, k) + Own(b, k)
  {
    hide Lower;
    FilterConcat(a, b, OnTable(k));
  }

  // ---- The early entries of a surviving table ----

  lemma TrimmedIsMid(s: TableSnapshot, t: TableSnapshot, d: Done, x: Table)
    requires d == Done({}, Gone(s, t), {}, Unindexed(s, t))
    ensures Mid(t, d, x) == Trimmed(s, t, x)
  {
    hide ColumnMap, SecondaryMap, IndexAdded, TargetColumns, TargetIndexes, TargetDefaults, Gone, Unindexed;
    PatchOnlyGone(x.def.cols, d.dropped, TargetColumns(t));
    PatchOnlyGone(x.def.indexes, d.unindexed, TargetIndexes(t));
    forall i | 0 <= i < |x.rows| ensures Patched(x.rows[i], d.dropped, {}, TargetDefaults(t)) == x.rows[i] - d.dropped {
      PatchOnlyGone(x.rows[i], d.dropped, TargetDefaults(t));
    }
  }

  lemma PatchOnlyGone<T>(base: map<string, T>, gone: set<string>, pool: map<string, T>)
    ensures Patched(base, gone, {}, pool) == base - gone
  {
  }

  lemma HoldsEarly(es: seq<Entry>, m: nat, op: Op, k: string)
    requires CutAt(es, m, 40)
    ensures Holds(es[..m], op, k) <==> Holds(es, op, k) && Phase(op) < 40
  {
    hide EntryKey;
    if Holds(es, op, k) && Phase(op) < 40 {
      var e :| e in es && e.op == op && EntryKey(e) == k;
      var i :| 0 <= i < |es| && es[i] == e;
      assert i < m;
      assert es[..m][i] == e;
    }
    if Holds(es[..m], op, k) {
      var e :| e in es[..m] && e.op == op && EntryKey(e) == k;
      var i :| 0 <= i < m && es[i] == e;
    }
  }

  lemma GoneIs(s: TableSnapshot, t: TableSnapshot, k: string)
    ensures (k in Gone(s, t) <==> ColumnAdded(t, s, k)) && (k in Unindexed(s, t) <==> IndexAdded(t, s, k))
  {
    hide ColumnMap, SameIndex;
  }

  lemma EarlyAt(s: TableSnapshot, t: TableSnapshot, es: seq<Entry>, m: nat, k: string)
    requires Ready(s, t, DoneBy(es)) && DoneOk(s, t, DoneBy(es)) && CutAt(es, m, 40)
    ensures var d := DoneBy(es[..m]);
      && k !in d.added && k !in d.indexed && (k in d.dropped <==> k in Gone(s, t)) && (k in d.unindexed <==> k in Unindexed(s, t))
  {
    assert k in DoneBy(es).dropped <==> ColumnAdded(t, s, k);
    assert k in DoneBy(es).unindexed <==> IndexAdded(t, s, k);
    hide DoneBy, CutAt, Holds, Gone, Unindexed, Ready, DoneOk, ColumnAdded, IndexAdded;
    GoneIs(s, t, k);
    DoneHas(es[..m], k);
    DoneHas(es, k);
    HoldsEarly(es, m, AddColumn, k);
    HoldsEarly(es, m, DropColumn, k);
    HoldsEarly(es, m, AddIndex, k);
    HoldsEarly(es, m, DropIndex, k);
  }

  lemma EarlyDone(s: TableSnapshot, t: TableSnapshot, opts: Options, es: seq<Entry>, m: nat)
    requires TablePlan(s, t, opts, es) && AllInPlace(s, t, es) && CutAt(es, m, 40)
    ensures m <= |es| && DoneBy(es[..m]) == Done({}, Gone(s, t), {}, Unindexed(s, t))
  {
    hide TablePlan, DoneBy, InPlaceEntry, Ready, DoneOk, Gone, Unindexed;
    DoneIsOk(s, t, es);
    ReadyAtEnd(s, t, opts, es);
    CutWithin(es, m, 40);
    forall k
      ensures k !in DoneBy(es[..m]).added && k !in DoneBy(es[..m]).indexed
      ensures (k in DoneBy(es[..m]).dropped <==> k in Gone(s, t)) && (k in DoneBy(es[..m]).unindexed <==> k in Unindexed(s, t))
    {
      EarlyAt(s, t, es, m, k);
    }
  }

  lemma EarlyFits(s: TableSnapshot, t: TableSnapshot, es: seq<Entry>, m: nat, rows: seq<Row>)
    requires AllInPlace(s, t, es) && CutAt(es, m, 40)
    ensures AllInPlace(s, t, es[..m]) && EntriesFit(s, t, es[..m], rows)
  {
    hide InPlaceEntry, ColumnAddable, IndexDataFits, TargetColumn;
    forall i | 0 <= i < m ensures InPlaceEntry(s, t, es[..m][i]) {
      assert InPlaceEntry(s, t, es[i]);
    }
  }

  lemma TrimRun(s: TableSnapshot, t: TableSnapshot, opts: Options, es: seq<Entry>, m: nat, x: Table)
    requires WfTable(s) && WfTable(t) && InPlace(s, t, opts) && CommonColumn(s, t) && Starts(s, t, x) && TablePlan(s, t, opts, es)
    requires CutAt(es, m, 40)
    ensures AllInPlace(s, t, es[..m]) && EntriesRun(s, t, es[..m], x) == Some(Trimmed(s, t, x))
  {
    AllShapes(s, t, opts, es);
    InPlaceAgrees(s, t, opts);
    hide WfTable, InPlace, CommonColumn, Starts, TablePlan, Agrees, Mid, EntriesFit, EntriesRun, InPlaceEntry, DoneBy, CutAt, Trimmed;
    assert m <= |es| by { CutWithin(es, m, 40); }
    EarlyFits(s, t, es, m, x.rows);
    PrefixRun(s, t, opts, es, m, x);
    EarlyDone(s, t, opts, es, m);
    TrimmedIsMid(s, t, DoneBy(es[..m]), x);
  }

  lemma CutWithin(es: seq<Entry>, n: nat, phase: nat)
    requires CutAt(es, n, phase)
    ensures n <= |es|
  {
    hide Phase;
  }

  // ---- The three parts of the script ----

  lemma FilterDirect(es: seq<Entry>, k: string)
    ensures Filter(Map(DirectBlock, es), OfKey(k)) == Map(DirectBlock, Own(es, k))
  {
    hide Lower, Own, Filter;
    DirectBlocks(es, es, {}, {}, k);
    BlocksDirect(es, es);
  }

  lemma {:induction false} BlocksDirect(es: seq<Entry>, all: seq<Entry>)
    ensures Blocks(es, all, {}, {}) == Map(DirectBlock, es)
  {
    hide Lower, GroupOf;
    if es != [] {
      BlocksDirect(es[1..], all);
      assert Map(DirectBlock, es) == [Direct(es[0])] + Map(DirectBlock, es[1..]);
    }
  }

  /** A plan that rebuilds nothing, cut before and after its drops of tables. */
  ghost predicate Parted(source: Snapshot, target: Snapshot, opts: Options, plan: seq<Entry>, forced: set<string>, a: nat, b: nat) {
    && PlanSetting(source, target, opts, plan, forced) && ScriptRuns(source, target, plan, forced)
    && Rebuilds(source, target, plan, forced) == {} && CutAt(plan, a, 40) && CutAt(plan, b, 41)
  }

  lemma PartedFacts(source: Snapshot, target: Snapshot, opts: Options, plan: seq<Entry>, forced: set<string>, a: nat, b: nat)
    requires Parted(source, target, opts, plan, forced, a, b)
    ensures var w, x := NamesOf(source, target), EmissionOf(source, target, plan);
      && a <= b <= |plan| && RunsOk(w, x, Map(DirectBlock, plan))
      && ScriptUnitList(source, target, plan, forced) == UnitsOf(x, Map(DirectBlock, plan))
  {
    assert a <= b by {
      var phase := if b < |plan| then Phase(plan[b].op) else 0;
    }
    hide PlanSetting, NamesOf, EmissionOf, UnitsOf, UnitsOk, BlocksOk, Rebuilds, Phase;
    UnitListOk(source, target, plan, forced);
    BlocksDirect(plan, plan);
  }

  lemma SliceOk(w: Names, x: Emission, es: seq<Entry>, lo: nat, hi: nat)
    requires RunsOk(w, x, Map(DirectBlock, es)) && lo <= hi <= |es|
    ensures RunsOk(w, x, Map(DirectBlock, es[lo..hi]))
    ensures UnitsOf(x, Map(DirectBlock, es[lo..hi])) == UnitsOf(x, Map(DirectBlock, es))[lo..hi]
  {
    hide BlockOk, UnitOf, UnitOk;
    var all, part := Map(DirectBlock, es), Map(DirectBlock, es[lo..hi]);
    assert forall i :: 0 <= i < hi - lo ==> part[i] == all[lo + i];
    forall i | 0 <= i < hi - lo ensures BlockOk(x, part[i]) && UnitOk(w, UnitOf(x, part[i])) {
      assert BlockOk(x, all[lo + i]);
      assert UnitsOf(x, all)[lo + i] == UnitOf(x, all[lo + i]);
    }
  }

  lemma DirectUnit(x: Emission, e: Entry)
    requires BlockOk(x, Direct(e))
    ensures var u := UnitOf(x, Direct(e));
      && u.Single? && u.key == Lower(e.table) && (IsDrop(u) <==> e.op == DropTable) && (u.sql.CreateTableSql? <==> e.op == CreateTable)
  {
    hide Lower, ColumnOf, FindIndex, TableBodyOf, ColumnDefOf, IndexExecName, IndexColumns, DropIndexName, Trim, StubDefault;
  }

  lemma PartRun(source: Snapshot, target: Snapshot, opts: Options, plan: seq<Entry>, forced: set<string>, a: nat, b: nat, lo: nat, hi: nat,
                k: string, ot: Option<Table>)
    requires Parted(source, target, opts, plan, forced, a, b) && lo <= hi <= |plan|
    ensures |ScriptUnitList(source, target, plan, forced)| == |plan|
    ensures var w, x := NamesOf(source, target), EmissionOf(source, target, plan);
      var u, own := ScriptUnitList(source, target, plan, forced)[lo..hi], Map(DirectBlock, Own(plan[lo..hi], k));
      UnitsOk(w, u) && RunsOk(w, x, own) && TableRun(w, u, k, ot) == BlockRun(w, x, own, k, ot)
  {
    hide Parted, NamesOf, EmissionOf, UnitOk, UnitOf, BlocksOk, BlockOk, Filter, Own, TableRun, UnitsOk;
    PartedFacts(source, target, opts, plan, forced, a, b);
    var w, x := NamesOf(source, target), EmissionOf(source, target, plan);
    SliceOk(w, x, plan, lo, hi);
    FilterDirect(plan[lo..hi], k);
    OnlyOwnBlocks(w, x, Map(DirectBlock, plan[lo..hi]), Map(DirectBlock, Own(plan[lo..hi], k)), k, ot);
  }

  lemma PartNone(source: Snapshot, target: Snapshot, opts: Options, plan: seq<Entry>, forced: set<string>, a: nat, b: nat, lo: nat, hi: nat,
                 k: string, ot: Option<Table>)
    requires Parted(source, target, opts, plan, forced, a, b) && lo <= hi <= |plan| && Own(plan[lo..hi], k) == []
    ensures |ScriptUnitList(source, target, plan, forced)| == |plan|
    ensures var w, u := NamesOf(source, target), ScriptUnitList(source, target, plan, forced)[lo..hi];
      UnitsOk(w, u) && TableRun(w, u, k, ot) == Some(ot)
  {
    hide *;
    PartRun(source, target, opts, plan, forced, a, b, lo, hi, k, ot);
    NoDirect();
    NoBlocks(NamesOf(source, target), EmissionOf(source, target, plan), k, ot);
  }

  lemma PlanEntryPhase(source: Snapshot, target: Snapshot, opts: Options, plan: seq<Entry>, e: Entry, k: string)
    requires WholePlan(source, target, opts, plan) && e in plan && Lower(e.table) == k
    ensures k !in TableMap(source) || k !in TableMap(target) ==>
      (e.op == CreateTable && k in TableMap(target) && k !in TableMap(source)) || (e.op == DropTable && k in TableMap(source) && k !in TableMap(target))
    ensures k in TableMap(source) && k in TableMap(target) && Lower(TableMap(target)[k].name) == k ==> e.op != DropTable
  {
    hide TableMap, DistinctTags, PhasesAscend, DiffTable, Lower;
    if k in TableMap(source) && k in TableMap(target) {
      TableEntries(Sqlite, TableMap(source)[k], TableMap(target)[k], opts);
      assert OfTable(TableMap(target)[k].name)(e);
    }
  }

  lemma NoneOwn(es: seq<Entry>, k: string)
    requires forall i :: 0 <= i < |es| ==> Lower(es[i].table) != k
    ensures Own(es, k) == []
  {
    hide Lower;
    FilterNone(es, OnTable(k));
  }

  /** Before the drops only tables of both sides have entries, between them only tables to drop, after them only the target's. */
  lemma WhoWhen(source: Snapshot, target: Snapshot, opts: Options, plan: seq<Entry>, a: nat, b: nat, k: string)
    requires WholePlan(source, target, opts, plan) && WfSnapshot(target) && CutAt(plan, a, 40) && CutAt(plan, b, 41) && a <= b <= |plan|
    ensures k !in TableMap(source) || k !in TableMap(target) ==> Own(plan[..a], k) == []
    ensures k !in TableMap(source) || k in TableMap(target) ==> Own(plan[a..b], k) == []
    ensures k !in TableMap(target) ==> Own(plan[b..], k) == []
    ensures forall i :: a <= i < b ==> plan[i].op == DropTable
    ensures forall i :: (0 <= i < a || b <= i < |plan|) ==> plan[i].op != DropTable
    ensures forall i :: 0 <= i < a ==> plan[i].op != CreateTable
  {
    forall i | 0 <= i < |plan|
      ensures a <= i < b <==> plan[i].op == DropTable
      ensures plan[i].op == CreateTable ==> b <= i
    {
    }
    hide CutAt, WholePlan, WfSnapshot, TableMap, Own, Lower;
    if k in TableMap(target) {
      TablesWf(target, k);
    }
    forall i | 0 <= i < |plan| && Lower(plan[i].table) == k
      ensures k !in TableMap(source) || k !in TableMap(target) ==> a <= i
      ensures a <= i < b ==> k in TableMap(source) && k !in TableMap(target)
      ensures b <= i ==> k in TableMap(target)
    {
      PlanEntryPhase(source, target, opts, plan, plan[i], k);
    }
    if k !in TableMap(source) || k !in TableMap(target) {
      NoneOwn(plan[..a], k);
    }
    if k !in TableMap(source) || k in TableMap(target) {
      NoneOwn(plan[a..b], k);
    }
    if k !in TableMap(target) {
      NoneOwn(plan[b..], k);
    }
  }

  // ---- Before the drops ----

  lemma TrimmedAimed(s: TableSnapshot, t: TableSnapshot, x: Table, fks: set<FkState>)
    ensures Trimmed(s, t, Aimed(x, fks)) == Aimed(Trimmed(s, t, x), fks)
  {
    hide Gone, Unindexed, Cut;
  }

  lemma EarlyTrim(source: Snapshot, target: Snapshot, opts: Options, plan: seq<Entry>, forced: set<string>, a: nat, b: nat, k: string, x: Table)
    requires Parted(source, target, opts, plan, forced, a, b) && k in TableMap(source) && k in TableMap(target)
    requires Starts(TableMap(source)[k], TableMap(target)[k], x)
    ensures a <= |ScriptUnitList(source, target, plan, forced)|
    ensures var w, u := NamesOf(source, target), ScriptUnitList(source, target, plan, forced)[..a];
      UnitsOk(w, u) && TableRun(w, u, k, Some(x)) == Some(Some(Trimmed(TableMap(source)[k], TableMap(target)[k], x)))
  {
    PartedIs(source, target, opts, plan, forced, a, b);
    hide *;
    PartedFacts(source, target, opts, plan, forced, a, b);
    SettingPair(source, target, opts, plan, forced);
    SettingChosen(source, target, opts, plan, forced);
    TablesWf(source, k);
    TablesWf(target, k);
    CommonOf(source, target, k);
    NotIn(k, Rebuilds(source, target, plan, forced));
    StaysInPlace(source, target, opts, plan, forced, k);
    OwnIsTablePlan(source, target, opts, plan, k);
    var s, t, own := TableMap(source)[k], TableMap(target)[k], Own(plan, k);
    var m := OwnCut(plan, a, 40, k);
    TrimRun(s, t, opts, own, m, x);
    FromStart(plan, a);
    PartRun(source, target, opts, plan, forced, a, b, 0, a, k, Some(x));
    EmissionIs(source, target, plan);
    SqliteKind(source);
    InPlaceRun(NamesOf(source, target), EmissionOf(source, target, plan), own[..m], k, x);
    LiftIs(EntriesRun(s, t, own[..m], x));
  }

  lemma NotIn(k: string, s: set<string>)
    requires s == {}
    ensures k !in s
  {
  }

  lemma FromStart<T>(s: seq<T>, n: nat)
    requires n <= |s|
    ensures s[0..n] == s[..n]
  {
  }

  lemma PartedIs(source: Snapshot, target: Snapshot, opts: Options, plan: seq<Entry>, forced: set<string>, a: nat, b: nat)
    requires Parted(source, target, opts, plan, forced, a, b)
    ensures PlanSetting(source, target, opts, plan, forced) && ScriptRuns(source, target, plan, forced) && Rebuilds(source, target, plan, forced) == {}
    ensures CutAt(plan, a, 40) && CutAt(plan, b, 41)
  {
    hide PlanSetting, ScriptRuns, Rebuilds, CutAt;
  }

  lemma PlanUnit(source: Snapshot, target: Snapshot, opts: Options, plan: seq<Entry>, forced: set<string>, a: nat, b: nat, i: nat)
    requires Parted(source, target, opts, plan, forced, a, b) && i < |plan|
    ensures |ScriptUnitList(source, target, plan, forced)| == |plan|
    ensures var u := ScriptUnitList(source, target, plan, forced)[i];
      && u.Single? && u.key == Lower(plan[i].table) && (IsDrop(u) <==> plan[i].op == DropTable) && (u.sql.CreateTableSql? <==> plan[i].op == CreateTable)
  {
    hide Parted, NamesOf, EmissionOf, UnitsOk, UnitOf, BlockOk, Lower, IsDrop, ScriptUnitList;
    PartedFacts(source, target, opts, plan, forced, a, b);
    var x, blocks := EmissionOf(source, target, plan), Map(DirectBlock, plan);
    assert BlockOk(x, blocks[i]);
    DirectUnit(x, plan[i]);
  }

  lemma KindsOf(u: seq<Unit>, plan: seq<Entry>, a: nat, b: nat)
    requires a <= b <= |u| == |plan|
    requires forall i :: 0 <= i < |u| ==> u[i].Single? && (IsDrop(u[i]) <==> plan[i].op == DropTable) && (u[i].sql.CreateTableSql? <==> plan[i].op == CreateTable)
    requires forall i :: a <= i < b ==> plan[i].op == DropTable
    requires forall i :: (0 <= i < a || b <= i < |plan|) ==> plan[i].op != DropTable
    requires forall i :: 0 <= i < a ==> plan[i].op != CreateTable
    ensures Mild(u[..a]) && AllDrops(u[a..b]) && Mild(u[b..]) && forall k :: !Redeclared(u[..a], k)
  {
    hide IsDrop;
  }

  /** The kinds of the units in the three parts. */
  lemma PartKinds(source: Snapshot, target: Snapshot, opts: Options, plan: seq<Entry>, forced: set<string>, a: nat, b: nat)
    requires Parted(source, target, opts, plan, forced, a, b)
    ensures var u := ScriptUnitList(source, target, plan, forced);
      && a <= b <= |u| == |plan| && (forall i :: 0 <= i < |u| ==> u[i].Single? && u[i].key == Lower(plan[i].table))
      && Mild(u[..a]) && AllDrops(u[a..b]) && Mild(u[b..]) && forall k :: !Redeclared(u[..a], k)
  {
    hide *;
    PartedIs(source, target, opts, plan, forced, a, b);
    PartedFacts(source, target, opts, plan, forced, a, b);
    SettingChosen(source, target, opts, plan, forced);
    WhoWhen(source, target, opts, plan, a, b, "");
    var u := ScriptUnitList(source, target, plan, forced);
    forall i | 0 <= i < |plan|
      ensures |u| == |plan| && u[i].Single? && u[i].key == Lower(plan[i].table)
      ensures IsDrop(u[i]) <==> plan[i].op == DropTable
      ensures u[i].sql.CreateTableSql? <==> plan[i].op == CreateTable
    {
      PlanUnit(source, target, opts, plan, forced, a, b, i);
    }
    UnitCount(source, target, opts, plan, forced, a, b);
    KindsOf(u, plan, a, b);
  }

  lemma UnitCount(source: Snapshot, target: Snapshot, opts: Options, plan: seq<Entry>, forced: set<string>, a: nat, b: nat)
    requires Parted(source, target, opts, plan, forced, a, b)
    ensures |ScriptUnitList(source, target, plan, forced)| == |plan|
  {
    hide Parted, NamesOf, EmissionOf, UnitsOk, UnitOf, BlockOk, ScriptUnitList;
    PartedFacts(source, target, opts, plan, forced, a, b);
  }

  lemma SlicedUnits(w: Names, u: seq<Unit>, a: nat, b: nat)
    requires UnitsOk(w, u) && a <= b <= |u|
    ensures UnitsOk(w, u[..a]) && UnitsOk(w, u[a..b]) && UnitsOk(w, u[b..]) && u == u[..a] + (u[a..b] + u[b..])
  {
    hide UnitOk;
  }

  lemma PartsOk(source: Snapshot, target: Snapshot, opts: Options, plan: seq<Entry>, forced: set<string>, a: nat, b: nat)
    requires Parted(source, target, opts, plan, forced, a, b)
    ensures var w, u := NamesOf(source, target), ScriptUnitList(source, target, plan, forced);
      && a <= b <= |u| && UnitsOk(w, u) && UnitsOk(w, u[..a]) && UnitsOk(w, u[a..b]) && UnitsOk(w, u[b..])
      && u == u[..a] + (u[a..b] + u[b..])
  {
    hide *;
    PartedIs(source, target, opts, plan, forced, a, b);
    PartKinds(source, target, opts, plan, forced, a, b);
    UnitListOk(source, target, plan, forced);
    SlicedUnits(NamesOf(source, target), ScriptUnitList(source, target, plan, forced), a, b);
  }

  lemma EarlyAny(source: Snapshot, target: Snapshot, opts: Options, plan: seq<Entry>, forced: set<string>, a: nat, b: nat, k: string, x: Table)
    requires Parted(source, target, opts, plan, forced, a, b) && k in TableMap(source) && k in TableMap(target)
    requires StandsTable(TableMap(source)[k], TableMap(target), k, x, opts.ignoreDefaults)
    ensures a <= |ScriptUnitList(source, target, plan, forced)|
    ensures var w, u := NamesOf(source, target), ScriptUnitList(source, target, plan, forced)[..a];
      UnitsOk(w, u) && TableRun(w, u, k, Some(x)) == Some(Some(Trimmed(TableMap(source)[k], TableMap(target)[k], x)))
  {
    hide *;
    var s, t := TableMap(source)[k], TableMap(target)[k];
    var d := Aimed(x, FkStates(s));
    StandsStarts(s, TableMap(target), k, x, opts.ignoreDefaults);
    EarlyTrim(source, target, opts, plan, forced, a, b, k, d);
    PartKinds(source, target, opts, plan, forced, a, b);
    var u := ScriptUnitList(source, target, plan, forced)[..a];
    AimedTwice(x, FkStates(s));
    RunAimed(NamesOf(source, target), u, k, d, x.def.fks);
    AimedSome(Trimmed(s, t, d), x.def.fks);
    TrimmedAimed(s, t, d, x.def.fks);
  }

  lemma AimedSome(t: Table, fks: set<FkState>)
    ensures AimedMaybe(Some(Some(t)), fks) == Some(Some(Aimed(t, fks)))
  {
  }

  lemma StandsStarts(s: TableSnapshot, tm: map<string, TableSnapshot>, k: string, x: Table, ignore: bool)
    requires StandsTable(s, tm, k, x, ignore) && k in tm
    ensures Starts(s, tm[k], Aimed(x, FkStates(s))) && Lists(Aimed(x, FkStates(s)).def.fks) == Lists(x.def.fks)
  {
    hide FkStates, UserIndexStates, SameColumns, PkColumns, UniqueLists, Lists;
    IgnoreAll(x.def.cols, s, ignore);
  }

  lemma TrimmedLookup(sm: map<string, TableSnapshot>, tm: map<string, TableSnapshot>, tables: map<string, Table>, k: string)
    ensures Lookup(TrimmedTables(sm, tm, tables), k)
      == if k in tables then Some(if k in sm && k in tm then Trimmed(sm[k], tm[k], tables[k]) else tables[k]) else None
    ensures TrimmedTables(sm, tm, tables).Keys == tables.Keys
  {
    hide Trimmed;
  }

  /** The early part trims every surviving table and leaves the others alone. */
  lemma EarlyTable(source: Snapshot, target: Snapshot, opts: Options, plan: seq<Entry>, forced: set<string>, a: nat, b: nat, k: string, db: Db)
    requires Parted(source, target, opts, plan, forced, a, b) && Stands(db, source, target, opts.ignoreDefaults)
    ensures a <= |ScriptUnitList(source, target, plan, forced)|
    ensures var w, u := NamesOf(source, target), ScriptUnitList(source, target, plan, forced)[..a];
      UnitsOk(w, u) && TableRun(w, u, k, Lookup(db.tables, k)) == Some(Lookup(TrimmedTables(TableMap(source), TableMap(target), db.tables), k))
  {
    hide *;
    PartedIs(source, target, opts, plan, forced, a, b);
    PartedFacts(source, target, opts, plan, forced, a, b);
    SettingChosen(source, target, opts, plan, forced);
    StandsAt(db, source, target, opts.ignoreDefaults, k);
    LookupIs(db, k);
    TrimmedLookup(TableMap(source), TableMap(target), db.tables, k);
    if k in TableMap(source) && k in TableMap(target) {
      EarlyAny(source, target, opts, plan, forced, a, b, k, db.tables[k]);
    } else {
      WhoWhen(source, target, opts, plan, a, b, k);
      FromStart(plan, a);
      PartNone(source, target, opts, plan, forced, a, b, 0, a, k, Lookup(db.tables, k));
      PartKinds(source, target, opts, plan, forced, a, b);
      FromStart(ScriptUnitList(source, target, plan, forced), a);
    }
  }

  lemma SameLookups(a: map<string, Table>, b: map<string, Table>)
    requires forall k :: Lookup(a, k) == Lookup(b, k)
    ensures a == b
  {
    forall k ensures k in a <==> k in b { assert Lookup(a, k) == Lookup(b, k); }
    forall k | k in a ensures a[k] == b[k] { assert Lookup(a, k) == Lookup(b, k); }
  }

  lemma MildSingles(units: seq<Unit>)
    requires Mild(units)
    ensures forall i :: 0 <= i < |units| ==> units[i].Single?
  {
  }

  lemma EarlyRun(source: Snapshot, target: Snapshot, opts: Options, plan: seq<Entry>, forced: set<string>, a: nat, b: nat, db: Db)
    requires Parted(source, target, opts, plan, forced, a, b) && Stands(db, source, target, opts.ignoreDefaults)
    ensures a <= |ScriptUnitList(source, target, plan, forced)|
    ensures var sqls := AllSqls(ScriptUnitList(source, target, plan, forced)[..a]);
      Run(sqls, db) == if Obstructed(sqls, CatalogOf(db), db.views) then None
                       else Some(db.(tables := TrimmedTables(TableMap(source), TableMap(target), db.tables)))
  {
    hide *;
    PartKinds(source, target, opts, plan, forced, a, b);
    PartsOk(source, target, opts, plan, forced, a, b);
    PartedIs(source, target, opts, plan, forced, a, b);
    SettingPair(source, target, opts, plan, forced);
    StandsOk(db, source, target, opts.ignoreDefaults);
    var w, u := NamesOf(source, target), ScriptUnitList(source, target, plan, forced)[..a];
    forall k ensures TableRun(w, u, k, Lookup(db.tables, k)) == Some(Lookup(TrimmedTables(TableMap(source), TableMap(target), db.tables), k)) {
      EarlyTable(source, target, opts, plan, forced, a, b, k, db);
    }
    RunUnits(w, u, db);
    var r := Run(AllSqls(u), db);
    if r.Some? {
      TracksParts(w, u, db, r.value);
      MildSingles(u);
      forall k ensures Lookup(r.value.tables, k) == Lookup(TrimmedTables(TableMap(source), TableMap(target), db.tables), k) {
        TracksAt(w, u, db, r.value, k);
        AimTableSingles(u, k, TableRun(w, u, k, Lookup(db.tables, k)).value);
      }
      SameLookups(r.value.tables, TrimmedTables(TableMap(source), TableMap(target), db.tables));
      DbIs(db, r.value);
    }
  }

  lemma DbIs(db: Db, end: Db)
    requires end.enforce == db.enforce && end.views == db.views
    ensures end == db.(tables := end.tables)
  {
  }

  // ---- The drops ----

  lemma DroppedPart(source: Snapshot, target: Snapshot, opts: Options, plan: seq<Entry>, forced: set<string>, a: nat, b: nat)
    requires Parted(source, target, opts, plan, forced, a, b)
    ensures a <= b <= |ScriptUnitList(source, target, plan, forced)|
    ensures UnitKeys(ScriptUnitList(source, target, plan, forced)[a..b]) == DropKeys(plan)
  {
    hide *;
    PartKinds(source, target, opts, plan, forced, a, b);
    PartedIs(source, target, opts, plan, forced, a, b);
    SettingChosen(source, target, opts, plan, forced);
    WhoWhen(source, target, opts, plan, a, b, "");
    DropsOf(ScriptUnitList(source, target, plan, forced), plan, a, b);
  }

  lemma FilterThree(x: seq<Entry>, y: seq<Entry>, z: seq<Entry>)
    requires forall i :: 0 <= i < |x| ==> x[i].op != DropTable
    requires forall i :: 0 <= i < |y| ==> y[i].op == DropTable
    requires forall i :: 0 <= i < |z| ==> z[i].op != DropTable
    ensures Filter(x + (y + z), IsDropEntry) == y
  {
    hide Filter;
    FilterConcat(x, y + z, IsDropEntry);
    FilterConcat(y, z, IsDropEntry);
    FilterNone(x, IsDropEntry);
    FilterNone(z, IsDropEntry);
    FilterKeepsAll(y, IsDropEntry);
    assert [] + (y + []) == y;
  }

  lemma ThreeSlices<T>(s: seq<T>, a: nat, b: nat)
    requires a <= b <= |s|
    ensures s == s[..a] + (s[a..b] + s[b..])
  {
  }

  lemma OpsSliced(plan: seq<Entry>, a: nat, b: nat)
    requires a <= b <= |plan| && forall i :: 0 <= i < |plan| ==> (plan[i].op == DropTable <==> a <= i < b)
    ensures forall i :: 0 <= i < |plan[..a]| ==> plan[..a][i].op != DropTable
    ensures forall i :: 0 <= i < |plan[a..b]| ==> plan[a..b][i].op == DropTable
    ensures forall i :: 0 <= i < |plan[b..]| ==> plan[b..][i].op != DropTable
  {
  }

  lemma DropEntries(plan: seq<Entry>, a: nat, b: nat)
    requires a <= b <= |plan| && forall i :: 0 <= i < |plan| ==> (plan[i].op == DropTable <==> a <= i < b)
    ensures Filter(plan, IsDropEntry) == plan[a..b]
  {
    hide *;
    ThreeSlices(plan, a, b);
    OpsSliced(plan, a, b);
    FilterThree(plan[..a], plan[a..b], plan[b..]);
  }

  lemma DropsOf(u: seq<Unit>, plan: seq<Entry>, a: nat, b: nat)
    requires a <= b <= |u| == |plan| && forall i :: 0 <= i < |u| ==> u[i].key == Lower(plan[i].table)
    requires forall i :: 0 <= i < |plan| ==> (plan[i].op == DropTable <==> a <= i < b)
    ensures UnitKeys(u[a..b]) == DropKeys(plan)
  {
    DropEntries(plan, a, b);
    hide Lower, Filter;
    assert forall i :: 0 <= i < b - a ==> u[a..b][i] == u[a + i] && plan[a..b][i] == plan[a + i];
  }

  lemma DropRun(source: Snapshot, target: Snapshot, opts: Options, plan: seq<Entry>, forced: set<string>, a: nat, b: nat, mid: Db)
    requires Parted(source, target, opts, plan, forced, a, b) && mid.enforce
    ensures a <= b <= |ScriptUnitList(source, target, plan, forced)|
    ensures var r := DropAll(mid.tables, DropKeys(plan));
      Run(AllSqls(ScriptUnitList(source, target, plan, forced)[a..b]), mid) == if r.None? then None else Some(mid.(tables := r.value))
  {
    hide *;
    PartKinds(source, target, opts, plan, forced, a, b);
    PartsOk(source, target, opts, plan, forced, a, b);
    DroppedPart(source, target, opts, plan, forced, a, b);
    RunDrops(NamesOf(source, target), ScriptUnitList(source, target, plan, forced)[a..b], mid);
  }

  // ---- After the drops ----

  lemma KeptRows(s: TableSnapshot, t: TableSnapshot, x: Table, y: Table)
    requires RowsTyped(y) && y.def == Trimmed(s, t, x).def
    ensures Trimmed(s, t, Refilled(x, y.rows)) == y && RowsTyped(Refilled(x, y.rows))
  {
    hide Gone, Unindexed;
    var z := Trimmed(s, t, Refilled(x, y.rows));
    forall i | 0 <= i < |y.rows| ensures z.rows[i] == y.rows[i] {
      assert y.rows[i].Keys == x.def.cols.Keys - Gone(s, t);
    }
  }

  lemma TrimmedTyped(s: TableSnapshot, t: TableSnapshot, x: Table)
    requires RowsTyped(x)
    ensures RowsTyped(Trimmed(s, t, x))
  {
    hide Gone, Unindexed;
  }

  lemma RefilledStands(s: TableSnapshot, tm: map<string, TableSnapshot>, k: string, x: Table, rows: seq<Row>, ignore: bool)
    requires StandsTable(s, tm, k, x, ignore)
    ensures StandsTable(s, tm, k, Refilled(x, rows), ignore)
  {
    hide FkStates, UserIndexStates, RealisesButPk, PkColumns, Lists;
    assert Aimed(Refilled(x, rows), FkStates(s)).def == Aimed(x, FkStates(s)).def;
  }

  /** What the drops keep of a surviving table. */
  lemma KeptTable(sm: map<string, TableSnapshot>, tm: map<string, TableSnapshot>, tables: map<string, Table>, keys: seq<string>, k: string)
    requires DropAll(TrimmedTables(sm, tm, tables), keys).Some? && k in tables && k !in keys && RowsTyped(tables[k])
    ensures var kept := DropAll(TrimmedTables(sm, tm, tables), keys).value;
      k in kept && RowsTyped(kept[k]) && kept[k].def == (if k in sm && k in tm then Trimmed(sm[k], tm[k], tables[k]).def else tables[k].def)
  {
    hide RowsTyped, Trimmed, DropAll;
    TrimmedLookup(sm, tm, tables, k);
    DropAllKeeps(TrimmedTables(sm, tm, tables), keys);
    if k in sm && k in tm {
      TrimmedTyped(sm[k], tm[k], tables[k]);
    }
  }

  lemma DropKeysAre(source: Snapshot, target: Snapshot, opts: Options, plan: seq<Entry>, k: string)
    requires WholePlan(source, target, opts, plan) && WfSnapshot(source) && WfSnapshot(target)
    ensures k in DropKeys(plan) <==> k in TableMap(source) && k !in TableMap(target)
  {
    hide TableMap, WfSnapshot, Lower, DiffTable, DistinctTags, PhasesAscend;
    FilterMember(plan, IsDropEntry);
    MapMember(CreateKey, Filter(plan, IsDropEntry), k);
    if k in TableMap(source) && k !in TableMap(target) {
      TablesWf(source, k);
      var e := Mk(DropTable, TableMap(source)[k].name, "", opts);
      assert e in plan && IsDropEntry(e);
    }
    if k in DropKeys(plan) {
      var e :| e in Filter(plan, IsDropEntry) && CreateKey(e) == k;
      if k in TableMap(target) {
        TablesWf(target, k);
      }
      PlanEntryPhase(source, target, opts, plan, e, k);
      PlanEntryKnown(source, target, opts, e);
    }
  }

  lemma PlanEntryKnown(source: Snapshot, target: Snapshot, opts: Options, e: Entry)
    requires FromPlan(Sqlite, TableMap(source), TableMap(target), opts, e)
    ensures Lower(e.table) in TableMap(source) || Lower(e.table) in TableMap(target)
  {
    hide TableMap, Lower, DiffTable;
  }

  lemma SparedLookup(source: Snapshot, target: Snapshot, plan: seq<Entry>, db: Db, k: string)
    requires Spared(source, target, plan, db).Some?
    ensures var kept := DropAll(TrimmedTables(TableMap(source), TableMap(target), db.tables), DropKeys(plan));
      && kept.Some?
      && Lookup(Spared(source, target, plan, db).value.tables, k)
           == if k !in db.tables then None else if k in kept.value then Some(Refilled(db.tables[k], kept.value[k].rows)) else Some(db.tables[k])
    ensures var r := Spared(source, target, plan, db).value; r.tables.Keys == db.tables.Keys && r.views == db.views && r.enforce == db.enforce
  {
    hide TableMap, TrimmedTables, DropAll, DropKeys, Refilled;
  }

  lemma SparedStands(source: Snapshot, target: Snapshot, plan: seq<Entry>, db: Db, ignore: bool)
    requires Stands(db, source, target, ignore) && Spared(source, target, plan, db).Some?
    ensures Stands(Spared(source, target, plan, db).value, source, target, ignore)
  {
    hide TableMap, ViewMap, StandsTable, Spared, Refilled, DropAll, TrimmedTables, DropKeys;
    var r := Spared(source, target, plan, db).value;
    SparedLookup(source, target, plan, db, "");
    forall k | k in r.tables ensures StandsTable(TableMap(source)[k], TableMap(target), k, r.tables[k], ignore) {
      SparedLookup(source, target, plan, db, k);
      var kept := DropAll(TrimmedTables(TableMap(source), TableMap(target), db.tables), DropKeys(plan)).value;
      if k in kept {
        RefilledStands(TableMap(source)[k], TableMap(target), k, db.tables[k], kept[k].rows, ignore);
      }
    }
  }

  /** The late part of a table from what the drops kept is its whole script from what they spare. */
  lemma LateTable(source: Snapshot, target: Snapshot, opts: Options, plan: seq<Entry>, forced: set<string>, a: nat, b: nat, k: string, db: Db)
    requires Parted(source, target, opts, plan, forced, a, b) && Stands(db, source, target, opts.ignoreDefaults)
    requires Spared(source, target, plan, db).Some?
    ensures ScriptRuns(source, target, plan, forced) && b <= |ScriptUnitList(source, target, plan, forced)|
    ensures var kept, left := DropAll(TrimmedTables(TableMap(source), TableMap(target), db.tables), DropKeys(plan)), Spared(source, target, plan, db).value;
      var w, u := NamesOf(source, target), ScriptUnitList(source, target, plan, forced)[b..];
      kept.Some? && UnitsOk(w, u) && TableRun(w, u, k, Lookup(kept.value, k)) == TableScript(source, target, plan, forced, k, Lookup(left.tables, k))
  {
    hide *;
    PartedIs(source, target, opts, plan, forced, a, b);
    PartedFacts(source, target, opts, plan, forced, a, b);
    PartsOk(source, target, opts, plan, forced, a, b);
    SettingChosen(source, target, opts, plan, forced);
    SparedLookup(source, target, plan, db, k);
    if k in TableMap(source) && k in TableMap(target) {
      LateBoth(source, target, opts, plan, forced, a, b, k, db);
    } else {
      LateOther(source, target, opts, plan, forced, a, b, k, db);
    }
  }

  lemma LateBoth(source: Snapshot, target: Snapshot, opts: Options, plan: seq<Entry>, forced: set<string>, a: nat, b: nat, k: string, db: Db)
    requires Parted(source, target, opts, plan, forced, a, b) && Stands(db, source, target, opts.ignoreDefaults)
    requires Spared(source, target, plan, db).Some? && k in TableMap(source) && k in TableMap(target)
    ensures ScriptRuns(source, target, plan, forced) && b <= |ScriptUnitList(source, target, plan, forced)|
    ensures var kept, left := DropAll(TrimmedTables(TableMap(source), TableMap(target), db.tables), DropKeys(plan)), Spared(source, target, plan, db).value;
      var w, u := NamesOf(source, target), ScriptUnitList(source, target, plan, forced)[b..];
      kept.Some? && UnitsOk(w, u) && TableRun(w, u, k, Lookup(kept.value, k)) == TableScript(source, target, plan, forced, k, Lookup(left.tables, k))
  {
    hide *;
    PartedIs(source, target, opts, plan, forced, a, b);
    PartsOk(source, target, opts, plan, forced, a, b);
    SettingChosen(source, target, opts, plan, forced);
    SparedLookup(source, target, plan, db, k);
    StandsAt(db, source, target, opts.ignoreDefaults, k);
    DropKeysAre(source, target, opts, plan, k);
    StandsTyped(TableMap(source)[k], TableMap(target), k, db.tables[k], opts.ignoreDefaults);
    KeptTable(TableMap(source), TableMap(target), db.tables, DropKeys(plan), k);
    var kept := DropAll(TrimmedTables(TableMap(source), TableMap(target), db.tables), DropKeys(plan)).value;
    var x := Refilled(db.tables[k], kept[k].rows);
    KeptRows(TableMap(source)[k], TableMap(target)[k], db.tables[k], kept[k]);
    RefilledStands(TableMap(source)[k], TableMap(target), k, db.tables[k], kept[k].rows, opts.ignoreDefaults);
    EarlyAny(source, target, opts, plan, forced, a, b, k, x);
    ThroughDrops(source, target, opts, plan, forced, a, b, k, Some(x));
    LookupOf(kept, k);
  }

  lemma LookupOf(m: map<string, Table>, k: string)
    ensures Lookup(m, k) == if k in m then Some(m[k]) else None
  {
  }

  lemma StandsTyped(s: TableSnapshot, tm: map<string, TableSnapshot>, k: string, x: Table, ignore: bool)
    requires StandsTable(s, tm, k, x, ignore)
    ensures RowsTyped(x)
  {
    hide FkStates, UserIndexStates, RealisesButPk, PkColumns, Lists, RowsTyped;
  }

  /** A table that is not dropped: its script is its early part and then its late part. */
  lemma ThroughDrops(source: Snapshot, target: Snapshot, opts: Options, plan: seq<Entry>, forced: set<string>, a: nat, b: nat, k: string, ot: Option<Table>)
    requires Parted(source, target, opts, plan, forced, a, b) && (k !in TableMap(source) || k in TableMap(target))
    ensures ScriptRuns(source, target, plan, forced) && a <= b <= |ScriptUnitList(source, target, plan, forced)|
    ensures var w, u := NamesOf(source, target), ScriptUnitList(source, target, plan, forced);
      && UnitsOk(w, u[..a]) && UnitsOk(w, u[b..])
      && TableScript(source, target, plan, forced, k, ot) == var r := TableRun(w, u[..a], k, ot); if r.None? then None else TableRun(w, u[b..], k, r.value)
  {
    hide *;
    PartedIs(source, target, opts, plan, forced, a, b);
    PartedFacts(source, target, opts, plan, forced, a, b);
    PartsOk(source, target, opts, plan, forced, a, b);
    SettingChosen(source, target, opts, plan, forced);
    WhoWhen(source, target, opts, plan, a, b, k);
    UnitListOk(source, target, plan, forced);
    var w, u := NamesOf(source, target), ScriptUnitList(source, target, plan, forced);
    RunsConcat(w, u[a..b], u[b..], k, ot);
    RunsConcat(w, u[..a], u[a..b] + u[b..], k, ot);
    var r := TableRun(w, u[..a], k, ot);
    if r.Some? {
      RunsConcat(w, u[a..b], u[b..], k, r.value);
      PartNone(source, target, opts, plan, forced, a, b, a, b, k, r.value);
    }
  }

  lemma LateOther(source: Snapshot, target: Snapshot, opts: Options, plan: seq<Entry>, forced: set<string>, a: nat, b: nat, k: string, db: Db)
    requires Parted(source, target, opts, plan, forced, a, b) && Stands(db, source, target, opts.ignoreDefaults)
    requires Spared(source, target, plan, db).Some? && (k !in TableMap(source) || k !in TableMap(target))
    ensures ScriptRuns(source, target, plan, forced) && b <= |ScriptUnitList(source, target, plan, forced)|
    ensures var kept, left := DropAll(TrimmedTables(TableMap(source), TableMap(target), db.tables), DropKeys(plan)), Spared(source, target, plan, db).value;
      var w, u := NamesOf(source, target), ScriptUnitList(source, target, plan, forced)[b..];
      kept.Some? && UnitsOk(w, u) && TableRun(w, u, k, Lookup(kept.value, k)) == TableScript(source, target, plan, forced, k, Lookup(left.tables, k))
  {
    hide *;
    PartedIs(source, target, opts, plan, forced, a, b);
    PartedFacts(source, target, opts, plan, forced, a, b);
    PartsOk(source, target, opts, plan, forced, a, b);
    SettingChosen(source, target, opts, plan, forced);
    WhoWhen(source, target, opts, plan, a, b, k);
    SparedLookup(source, target, plan, db, k);
    StandsAt(db, source, target, opts.ignoreDefaults, k);
    DropKeysAre(source, target, opts, plan, k);
    var kept := DropAll(TrimmedTables(TableMap(source), TableMap(target), db.tables), DropKeys(plan)).value;
    DropAllKeeps(TrimmedTables(TableMap(source), TableMap(target), db.tables), DropKeys(plan));
    TrimmedLookup(TableMap(source), TableMap(target), db.tables, k);
    LookupOf(kept, k);
    KeySetIs(DropKeys(plan), k);
    UnitCount(source, target, opts, plan, forced, a, b);
    if k in TableMap(target) {
      ThroughDrops(source, target, opts, plan, forced, a, b, k, None);
      FromStart(plan, a);
      FromStart(ScriptUnitList(source, target, plan, forced), a);
      PartNone(source, target, opts, plan, forced, a, b, 0, a, k, None);
    } else {
      ToEnd(plan, b);
      ToEnd(ScriptUnitList(source, target, plan, forced), b);
      PartNone(source, target, opts, plan, forced, a, b, b, |plan|, k, None);
      if k in TableMap(source) {
        DroppedEnds(source, target, opts, plan, forced, k, db.tables[k]);
      } else {
        AbsentEnds(source, target, opts, plan, forced, k);
      }
    }
  }

  lemma ToEnd<T>(s: seq<T>, n: nat)
    requires n <= |s|
    ensures s[n..|s|] == s[n..]
  {
  }

  lemma KeySetIs(keys: seq<string>, k: string)
    ensures k in KeySet(keys) <==> k in keys
  {
  }

  // ---- The whole script ----

  /**
   * The run of a script from `db`, table by table: it ends exactly when `clear` holds and the table's own
   * statements succeed from its state in `left`, and leaves the table as those do, its foreign keys aimed.
   */
  ghost predicate RunsAs(source: Snapshot, target: Snapshot, plan: seq<Entry>, forced: set<string>, left: Db, clear: bool, r: Option<Db>)
    requires ScriptRuns(source, target, plan, forced)
  {
    && (r.Some? <==> clear && forall k :: TableScript(source, target, plan, forced, k, Lookup(left.tables, k)).Some?)
    && (r.Some? ==>
          && r.value.views == left.views && r.value.enforce == left.enforce
          && forall k :: TableScript(source, target, plan, forced, k, Lookup(left.tables, k)).Some?
               && Lookup(r.value.tables, k)
                    == AimTable(ScriptUnitList(source, target, plan, forced), k, TableScript(source, target, plan, forced, k, Lookup(left.tables, k)).value))
  }

  lemma KeptOk(w: Names, sm: map<string, TableSnapshot>, tm: map<string, TableSnapshot>, db: Db, keys: seq<string>)
    requires DbOk(w, db) && DropAll(TrimmedTables(sm, tm, db.tables), keys).Some?
    ensures DbOk(w, db.(tables := DropAll(TrimmedTables(sm, tm, db.tables), keys).value))
  {
    hide DropAll, Gone, Unindexed, Cut;
    DropAllKeeps(TrimmedTables(sm, tm, db.tables), keys);
    var kept := DropAll(TrimmedTables(sm, tm, db.tables), keys).value;
    forall k | k in kept ensures TableOk(w, k, kept[k]) {
      assert TableOk(w, k, db.tables[k]);
    }
  }

  lemma ThreeParts(u: seq<Unit>, a: nat, b: nat, db: Db)
    requires a <= b <= |u|
    ensures Run(AllSqls(u), db) == Then(Then(Run(AllSqls(u[..a]), db), AllSqls(u[a..b])), AllSqls(u[b..]))
    ensures var c, early, drops := CatalogOf(db), AllSqls(u[..a]), AllSqls(u[a..b]);
      Obstructed(AllSqls(u), c, db.views)
        == (Obstructed(early, c, db.views) || Obstructed(drops, CatalogAfter(early, c), db.views)
            || Obstructed(AllSqls(u[b..]), CatalogAfter(drops, CatalogAfter(early, c)), db.views))
  {
    hide *;
    var x, y, z := u[..a], u[a..b], u[b..];
    assert u == x + (y + z);
    AllSqlsConcat(x, y + z);
    AllSqlsConcat(y, z);
    RunConcat(AllSqls(x), AllSqls(y) + AllSqls(z), db);
    ThenIs(Run(AllSqls(x), db), AllSqls(y) + AllSqls(z));
    ThenIs(Run(AllSqls(x), db), AllSqls(y));
    var r := Run(AllSqls(x), db);
    if r.Some? {
      RunConcat(AllSqls(y), AllSqls(z), r.value);
    } else {
      ThenIs(None, AllSqls(z));
    }
    ObstructedConcat(AllSqls(x), AllSqls(y) + AllSqls(z), CatalogOf(db), db.views);
    ObstructedConcat(AllSqls(y), AllSqls(z), CatalogAfter(AllSqls(x), CatalogOf(db)), db.views);
  }

  lemma ThenIs(r: Option<Db>, sqls: seq<Sql>)
    ensures Then(r, sqls) == if r.None? then None else Run(sqls, r.value)
  {
    hide Run;
  }

  lemma {:induction false} DropsUnblocked(units: seq<Unit>, c: Catalog, views: map<string, set<string>>)
    requires AllDrops(units)
    ensures !Obstructed(AllSqls(units), c, views)
  {
    hide UnitSqls, Catalogued, Obstructed, CatalogAfter;
    if units == [] {
      NoSqls(c, views);
    } else {
      var init, u := units[..|units| - 1], units[|units| - 1];
      DropsUnblocked(init, c, views);
      ObstructedConcat(AllSqls(init), UnitSqls(u), c, views);
      assert IsDrop(u);
      OneDrop(u, CatalogAfter(AllSqls(init), c), views);
    }
  }

  lemma NoSqls(c: Catalog, views: map<string, set<string>>)
    ensures !Obstructed(AllSqls([]), c, views)
  {
  }

  lemma OneDrop(u: Unit, c: Catalog, views: map<string, set<string>>)
    requires IsDrop(u)
    ensures !Obstructed(UnitSqls(u), c, views)
  {
    ObstructedOne(u.sql, c, views);
  }

  /** After the drops: the late part runs as each table's script from what the drops spare. */
  lemma LateRun(source: Snapshot, target: Snapshot, opts: Options, plan: seq<Entry>, forced: set<string>, a: nat, b: nat, db: Db, mid: Db)
    requires Parted(source, target, opts, plan, forced, a, b) && Stands(db, source, target, opts.ignoreDefaults)
    requires Spared(source, target, plan, db).Some?
    requires var kept := DropAll(TrimmedTables(TableMap(source), TableMap(target), db.tables), DropKeys(plan));
      kept.Some? && mid == db.(tables := kept.value)
    ensures ScriptRuns(source, target, plan, forced) && b <= |ScriptUnitList(source, target, plan, forced)|
    ensures var sqls := AllSqls(ScriptUnitList(source, target, plan, forced)[b..]);
      RunsAs(source, target, plan, forced, Spared(source, target, plan, db).value, !Obstructed(sqls, CatalogOf(mid), mid.views), Run(sqls, mid))
  {
    hide *;
    PartedIs(source, target, opts, plan, forced, a, b);
    PartKinds(source, target, opts, plan, forced, a, b);
    PartsOk(source, target, opts, plan, forced, a, b);
    SettingPair(source, target, opts, plan, forced);
    StandsOk(db, source, target, opts.ignoreDefaults);
    SparedLookup(source, target, plan, db, "");
    var w, u, left := NamesOf(source, target), ScriptUnitList(source, target, plan, forced)[b..], Spared(source, target, plan, db).value;
    KeptOk(w, TableMap(source), TableMap(target), db, DropKeys(plan));
    forall k ensures TableRun(w, u, k, Lookup(mid.tables, k)) == TableScript(source, target, plan, forced, k, Lookup(left.tables, k)) {
      LateTable(source, target, opts, plan, forced, a, b, k, db);
    }
    RunUnits(w, u, mid);
    var r := Run(AllSqls(u), mid);
    if r.Some? {
      TracksParts(w, u, mid, r.value);
      AllSingle(source, target, opts, plan, forced, a, b);
      MildSingles(u);
      forall k ensures TableScript(source, target, plan, forced, k, Lookup(left.tables, k)).Some?
        && Lookup(r.value.tables, k) == AimTable(ScriptUnitList(source, target, plan, forced), k, TableScript(source, target, plan, forced, k, Lookup(left.tables, k)).value)
      {
        TracksAt(w, u, mid, r.value, k);
        AimTableSingles(u, k, TableRun(w, u, k, Lookup(mid.tables, k)).value);
        AimTableSingles(ScriptUnitList(source, target, plan, forced), k, TableRun(w, u, k, Lookup(mid.tables, k)).value);
      }
    }
    RunsAsIs(source, target, plan, forced, left, !Obstructed(AllSqls(u), CatalogOf(mid), mid.views), r);
  }

  lemma AllSingle(source: Snapshot, target: Snapshot, opts: Options, plan: seq<Entry>, forced: set<string>, a: nat, b: nat)
    requires Parted(source, target, opts, plan, forced, a, b)
    ensures var u := ScriptUnitList(source, target, plan, forced); forall i :: 0 <= i < |u| ==> u[i].Single?
  {
    hide *;
    PartKinds(source, target, opts, plan, forced, a, b);
  }

  lemma RunsAsIs(source: Snapshot, target: Snapshot, plan: seq<Entry>, forced: set<string>, left: Db, clear: bool, r: Option<Db>)
    requires ScriptRuns(source, target, plan, forced)
    requires r.Some? <==> clear && forall k :: TableScript(source, target, plan, forced, k, Lookup(left.tables, k)).Some?
    requires r.Some? ==> r.value.views == left.views && r.value.enforce == left.enforce
    requires r.Some? ==> forall k :: TableScript(source, target, plan, forced, k, Lookup(left.tables, k)).Some?
    requires var units := ScriptUnitList(source, target, plan, forced);
      r.Some? ==> forall k :: Lookup(r.value.tables, k) == AimTable(units, k, TableScript(source, target, plan, forced, k, Lookup(left.tables, k)).value)
    ensures RunsAs(source, target, plan, forced, left, clear, r)
  {
    hide ScriptRuns, TableScript, ScriptUnitList, AimTable, Lookup;
  }

  /** With enforcement on and nothing rebuilt. */
  lemma SparedRun(source: Snapshot, target: Snapshot, opts: Options, plan: seq<Entry>, forced: set<string>, db: Db)
    requires PlanSetting(source, target, opts, plan, forced) && ScriptRuns(source, target, plan, forced) && Stands(db, source, target, opts.ignoreDefaults)
    requires Rebuilds(source, target, plan, forced) == {} && db.enforce
    ensures var all, left := AllSqls(ScriptUnitList(source, target, plan, forced)), Spared(source, target, plan, db);
      RunsAs(source, target, plan, forced, if left.Some? then left.value else db, !Obstructed(all, CatalogOf(db), db.views) && left.Some?, Run(all, db))
  {
    hide *;
    SettingChosen(source, target, opts, plan, forced);
    PlanAscending(source, target, opts, plan);
    var a := CutPhases(plan, 40);
    var b := CutPhases(plan, 41);
    PartedHolds(source, target, opts, plan, forced, a, b);
    PartsOk(source, target, opts, plan, forced, a, b);
    PartKinds(source, target, opts, plan, forced, a, b);
    SettingPair(source, target, opts, plan, forced);
    StandsOk(db, source, target, opts.ignoreDefaults);
    NamesUnique(NamesOf(source, target), db);
    var u := ScriptUnitList(source, target, plan, forced);
    ThreeParts(u, a, b, db);
    EarlyRun(source, target, opts, plan, forced, a, b, db);
    DropsUnblocked(u[a..b], CatalogAfter(AllSqls(u[..a]), CatalogOf(db)), db.views);
    var r := Run(AllSqls(u[..a]), db);
    ThenIs(r, AllSqls(u[a..b]));
    ThenIs(Then(r, AllSqls(u[a..b])), AllSqls(u[b..]));
    SparedIs(source, target, plan, db);
    if r.Some? {
      RunCatalog(AllSqls(u[..a]), db);
      DropRun(source, target, opts, plan, forced, a, b, r.value);
      var q := Run(AllSqls(u[a..b]), r.value);
      if q.Some? {
        RunCatalog(AllSqls(u[a..b]), r.value);
        LateRun(source, target, opts, plan, forced, a, b, db, q.value);
      } else {
        RunsAsStopped(source, target, plan, forced, db, false);
      }
    } else {
      RunsAsStopped(source, target, plan, forced, if Spared(source, target, plan, db).Some? then Spared(source, target, plan, db).value else db, false);
    }
  }

  lemma SparedIs(source: Snapshot, target: Snapshot, plan: seq<Entry>, db: Db)
    ensures Spared(source, target, plan, db).Some? <==> DropAll(TrimmedTables(TableMap(source), TableMap(target), db.tables), DropKeys(plan)).Some?
  {
    hide TableMap, TrimmedTables, DropAll, DropKeys, Refilled;
  }

  lemma RunsAsStopped(source: Snapshot, target: Snapshot, plan: seq<Entry>, forced: set<string>, left: Db, clear: bool)
    requires ScriptRuns(source, target, plan, forced) && !clear
    ensures RunsAs(source, target, plan, forced, left, clear, None)
  {
    hide ScriptRuns, TableScript, ScriptUnitList, AimTable, Lookup;
  }

  lemma PlanAscending(source: Snapshot, target: Snapshot, opts: Options, plan: seq<Entry>)
    requires WholePlan(source, target, opts, plan)
    ensures PhasesAscend(plan)
  {
    hide PhasesAscend, FromPlan, TableMap, DistinctTags;
  }

  lemma PartedHolds(source: Snapshot, target: Snapshot, opts: Options, plan: seq<Entry>, forced: set<string>, a: nat, b: nat)
    requires PlanSetting(source, target, opts, plan, forced) && ScriptRuns(source, target, plan, forced)
    requires Rebuilds(source, target, plan, forced) == {} && CutAt(plan, a, 40) && CutAt(plan, b, 41)
    ensures Parted(source, target, opts, plan, forced, a, b)
  {
    hide PlanSetting, ScriptRuns, Rebuilds, CutAt;
  }
}
