/// What sorting and the dependency order keep of a plan: every entry once, the
/// phases ascending, referenced tables created first unless on a cycle.
module PlanOrder {
  import opened Text
  import opened Sequences
  import opened TypeNames
  import opened Snapshots
  import opened Graph
  import opened Plan

  function CreateKey(e: Entry): string { Lower(e.table) }

  function Creates(entries: seq<Entry>): seq<Entry> { Filter(entries, IsCreate) }

  /** At most one create entry per table. */
  predicate DistinctCreates(entries: seq<Entry>) {
    NoRepeats(KeptKeys(entries, CreateKey, IsCreate))
  }

  // ---- The entries of one table's comparison ----

  function OfTable(table: string): Entry -> bool {
    (e: Entry) => e.table == table && e.op != CreateTable && e.op != DropTable
  }

  lemma ColumnEntries(kind: DatabaseKind, table: string, src: TableSnapshot, tgt: TableSnapshot, opts: Options)
    ensures forall e :: e in DiffColumns(kind, table, src, tgt, opts) ==> OfTable(table)(e)
  {
    hide ColumnFlags, ColumnMap, Pairing;
    var sc, tc := ColumnMap(src), ColumnMap(tgt);
    PairingAll(sc.Keys, tc.Keys, ColumnBoth(kind, table, sc, tc, opts),
               ColumnPart(AddColumn, table, tc, opts), ColumnPart(DropColumn, table, sc, opts), OfTable(table));
  }

  lemma SecondaryEntries(table: string, src: TableSnapshot, tgt: TableSnapshot, opts: Options)
    ensures forall e :: e in DiffSecondary(table, src, tgt, opts) ==> OfTable(table)(e)
  {
    hide IndexObject, SecondaryMap, Pairing, SameIndex;
    var si, ti := SecondaryMap(src), SecondaryMap(tgt);
    PairingAll(si.Keys, ti.Keys, IndexBoth(table, si, ti, opts),
               IndexPart(AddIndex, table, ti, opts), IndexPart(DropIndex, table, si, opts), OfTable(table));
  }

  lemma IndexEntries(table: string, src: TableSnapshot, tgt: TableSnapshot, opts: Options)
    ensures forall e :: e in DiffIndexes(table, src, tgt, opts) ==> OfTable(table)(e)
  {
    hide DiffSecondary, IndexObject, FirstPrimary, IndexSig;
    SecondaryEntries(table, src, tgt, opts);
  }

  lemma ForeignKeyEntries(table: string, src: TableSnapshot, tgt: TableSnapshot, opts: Options)
    ensures forall e :: e in DiffForeignKeys(table, src, tgt, opts) ==> OfTable(table)(e)
  {
    hide FkObject, FkMap, Pairing, SameForeignKey;
    var sf, tf := FkMap(src), FkMap(tgt);
    PairingAll(sf.Keys, tf.Keys, FkBoth(table, sf, tf, opts),
               FkPart(AddForeignKey, table, tf, opts), FkPart(DropForeignKey, table, sf, opts), OfTable(table));
  }

  lemma TableEntries(kind: DatabaseKind, src: TableSnapshot, tgt: TableSnapshot, opts: Options)
    ensures forall e :: e in DiffTable(kind, src, tgt, opts) ==> OfTable(tgt.name)(e)
  {
    hide DiffColumns, DiffIndexes, DiffForeignKeys;
    ColumnEntries(kind, tgt.name, src, tgt, opts);
    IndexEntries(tgt.name, src, tgt, opts);
    ForeignKeyEntries(tgt.name, src, tgt, opts);
  }

  /** Keys of a table map are its tables' lower-cased names. */
  predicate Keyed(m: map<string, TableSnapshot>) {
    forall k :: k in m ==> Lower(m[k].name) == k
  }

  // ---- Every collected create entry names its own table ----

  /** One table's comparison creates nothing; a missing table is created once. */
  lemma PieceCreates(kind: DatabaseKind, sm: map<string, TableSnapshot>, tm: map<string, TableSnapshot>, opts: Options, k: string)
    requires Keyed(tm) && k in tm
    ensures var f := TargetPart(sm.Keys, TableBoth(kind, sm, tm, opts), TablePart(CreateTable, tm, opts));
      KeptKeys(f(k), CreateKey, IsCreate) == [] || KeptKeys(f(k), CreateKey, IsCreate) == [k]
  {
    hide DiffTable;
    if k in sm {
      TableEntries(kind, sm[k], tm[k], opts);
      var d := DiffTable(kind, sm[k], tm[k], opts);
      assert forall i :: 0 <= i < |d| ==> d[i] in d;
      FilterNone(d, IsCreate);
    } else {
      FilterOne(Mk(CreateTable, tm[k].name, "", opts), IsCreate);
    }
  }

  lemma DropsCreateNothing(sm: map<string, TableSnapshot>, tm: map<string, TableSnapshot>, opts: Options)
    ensures Filter(FlatMap(SortedKeys(sm.Keys), SourcePart(tm.Keys, TablePart(DropTable, sm, opts))), IsCreate) == []
  {
    var g := SourcePart(tm.Keys, TablePart(DropTable, sm, opts));
    var drops := FlatMap(SortedKeys(sm.Keys), g);
    forall i | 0 <= i < |drops| ensures !IsCreate(drops[i]) {
      FlatMapMember(SortedKeys(sm.Keys), g, drops[i]);
    }
    FilterNone(drops, IsCreate);
  }

  lemma CollectedCreates(kind: DatabaseKind, sm: map<string, TableSnapshot>, tm: map<string, TableSnapshot>, opts: Options)
    requires Keyed(tm)
    ensures DistinctCreates(Collected(kind, sm, tm, opts))
  {
    var f := TargetPart(sm.Keys, TableBoth(kind, sm, tm, opts), TablePart(CreateTable, tm, opts));
    var g := SourcePart(tm.Keys, TablePart(DropTable, sm, opts));
    var keys := SortedKeys(tm.Keys);
    SortedKeysAscend(tm.Keys);
    forall k | k in keys ensures KeptKeys(f(k), CreateKey, IsCreate) == [] || KeptKeys(f(k), CreateKey, IsCreate) == [k] {
      PieceCreates(kind, sm, tm, opts, k);
    }
    KeptKeysDistinct(keys, f, CreateKey, IsCreate);
    DropsCreateNothing(sm, tm, opts);
    KeptKeysConcat(FlatMap(keys, f), FlatMap(SortedKeys(sm.Keys), g), CreateKey, IsCreate);
  }

  // ---- Sorting and placing permute ----

  lemma {:induction false} CreateMapAt(entries: seq<Entry>, k: string)
    requires k in CreateMap(entries)
    ensures CreateMap(entries)[k] in Creates(entries) && CreateKey(CreateMap(entries)[k]) == k
  {
    var init, e := entries[..|entries| - 1], entries[|entries| - 1];
    if IsCreate(e) && k == Lower(e.table) {
      assert e in Filter(init, IsCreate) + [e];
    } else {
      CreateMapAt(init, k);
    }
  }

  lemma {:induction false} CreateMapHas(entries: seq<Entry>, e: Entry)
    requires e in Creates(entries)
    ensures CreateKey(e) in CreateMap(entries)
  {
    var init, last := entries[..|entries| - 1], entries[|entries| - 1];
    if !(IsCreate(last) && e == last) {
      assert e in Filter(init, IsCreate);
      CreateMapHas(init, e);
    }
  }

  lemma CreateMapIs(entries: seq<Entry>, e: Entry)
    requires DistinctCreates(entries) && e in Creates(entries)
    ensures CreateKey(e) in CreateMap(entries) && CreateMap(entries)[CreateKey(e)] == e
  {
    hide CreateMap, Filter;
    var cs := Creates(entries);
    CreateMapHas(entries, e);
    CreateMapAt(entries, CreateKey(e));
    var other := CreateMap(entries)[CreateKey(e)];
    var i :| 0 <= i < |cs| && cs[i] == e;
    var j :| 0 <= j < |cs| && cs[j] == other;
    var keys := KeptKeys(entries, CreateKey, IsCreate);
    assert keys[i] == CreateKey(e) == keys[j];
  }

  /** The dependency order lists the create entries of the plan, each once. */
  lemma TopoPermutes(entries: seq<Entry>, tm: map<string, TableSnapshot>)
    requires DistinctCreates(entries)
    ensures multiset(TopoCreateTables(entries, tm)) == multiset(Creates(entries))
    ensures forall e :: e in TopoCreateTables(entries, tm) ==> IsCreate(e)
  {
    hide CreateMap, Filter, CreateGraph, TopoOrder, Placed, OnCycle;
    var byKey := CreateMap(entries);
    var g := CreateGraph(byKey.Keys, tm);
    var order, cs, topo := TopoOrder(g), Creates(entries), TopoCreateTables(entries, tm);
    TopoOrderPlaces(g);
    FilterMember(entries, IsCreate);
    forall i | 0 <= i < |topo| ensures CreateKey(topo[i]) == order[i] && topo[i] in cs {
      assert order[i] in order;
      CreateMapAt(entries, order[i]);
    }
    assert NoRepeats(topo);
    assert NoRepeats(cs) by {
      assert forall i :: 0 <= i < |cs| ==> KeptKeys(entries, CreateKey, IsCreate)[i] == CreateKey(cs[i]);
    }
    forall e | e in cs ensures e in topo {
      CreateMapIs(entries, e);
      assert CreateKey(e) in order;
      var j :| 0 <= j < |order| && order[j] == CreateKey(e);
      assert topo[j] == e;
    }
    SameMembers(topo, cs);
  }

  /** Sorting keeps the create entries. */
  lemma SortCreates(collected: seq<Entry>)
    requires DistinctCreates(collected)
    ensures var sorted := SortBy(BeforeInPlan, collected);
      DistinctCreates(sorted) && multiset(Creates(sorted)) == multiset(Creates(collected))
  {
    var sorted := SortBy(BeforeInPlan, collected);
    FilterPermuted(sorted, collected, IsCreate);
    MapPermuted(CreateKey, Creates(collected), Creates(sorted));
    PermutedNoRepeats(KeptKeys(collected, CreateKey, IsCreate), KeptKeys(sorted, CreateKey, IsCreate));
  }

  /** The ordered plan is a permutation that keeps every op at its sorted place. */
  lemma OrderPermutes(collected: seq<Entry>, tm: map<string, TableSnapshot>)
    requires DistinctCreates(collected)
    ensures var r, sorted := OrderEntries(collected, tm), SortBy(BeforeInPlan, collected);
      && multiset(r) == multiset(collected)
      && Creates(r) == TopoCreateTables(sorted, tm)
      && |r| == |sorted| && forall i :: 0 <= i < |r| ==> r[i].op == sorted[i].op
  {
    var sorted := SortBy(BeforeInPlan, collected);
    SortCreates(collected);
    var topo := TopoCreateTables(sorted, tm);
    TopoPermutes(sorted, tm);
    assert |multiset(topo)| == |topo| && |multiset(Creates(sorted))| == |Creates(sorted)|;
    SubstituteKeeps(sorted, topo, IsCreate);
    SubstitutePermutes(sorted, topo, IsCreate);
  }

  // ---- Phases ascend ----

  lemma PhaseDigits(p: nat, q: nat)
    requires p < 100 && q < 100 && Leq(Pad3(p), Pad3(q))
    ensures p <= q
  {
    var a, b := Pad3(p), Pad3(q);
    assert a[0] == b[0] == '0';
    assert a[1..] == [a[1], a[2]] && b[1..] == [b[1], b[2]];
    assert a[1..][1..] == [a[2]] && b[1..][1..] == [b[2]];
    assert Leq(a[1..], b[1..]);
    assert a[1] == Digit(p / 10) && b[1] == Digit(q / 10);
    assert p / 10 < q / 10 || (p / 10 == q / 10 && Leq([a[2]], [b[2]]));
    if p / 10 == q / 10 {
      assert a[2] <= b[2];
      assert p % 10 <= q % 10;
      assert p == p / 10 * 10 + p % 10 && q == q / 10 * 10 + q % 10;
    }
  }

  lemma PhaseOfOrder(a: Entry, b: Entry)
    requires BeforeInPlan(a, b)
    ensures Phase(a.op) <= Phase(b.op)
  {
    hide Leq, Lower, OpName;
    var x, y := Pad3(Phase(a.op)), Pad3(Phase(b.op));
    var restA := "\0" + Lower(a.table) + "\0" + Lower(a.obj) + "\0" + Id(a);
    var restB := "\0" + Lower(b.table) + "\0" + Lower(b.obj) + "\0" + Id(b);
    assert SortKey(a) == x + restA && SortKey(b) == y + restB;
    LeqByPrefix(x, y, restA, restB);
    PhaseDigits(Phase(a.op), Phase(b.op));
  }

  lemma BeforeInPlanIsOrder()
    ensures IsOrder(BeforeInPlan)
  {
    hide Leq, SortKey;
    forall x, y ensures BeforeInPlan(x, y) || BeforeInPlan(y, x) {
      LeqTotal(SortKey(x), SortKey(y));
    }
    forall x, y, z | BeforeInPlan(x, y) && BeforeInPlan(y, z) ensures BeforeInPlan(x, z) {
      LeqTransitive(SortKey(x), SortKey(y), SortKey(z));
    }
  }

  /** Phases never fall along a plan. */
  predicate PhasesAscend(entries: seq<Entry>) {
    forall i, j :: 0 <= i < j < |entries| ==> Phase(entries[i].op) <= Phase(entries[j].op)
  }

  lemma OrderedPhases(collected: seq<Entry>, tm: map<string, TableSnapshot>)
    requires DistinctCreates(collected)
    ensures PhasesAscend(OrderEntries(collected, tm))
  {
    hide OrderEntries, Phase;
    OrderPermutes(collected, tm);
    BeforeInPlanIsOrder();
    SortSorted(BeforeInPlan, collected);
    var r, sorted := OrderEntries(collected, tm), SortBy(BeforeInPlan, collected);
    forall i, j | 0 <= i < j < |r| ensures Phase(r[i].op) <= Phase(r[j].op) {
      PhaseOfOrder(sorted[i], sorted[j]);
    }
  }

  // ---- Referenced tables are created first ----

  /** The graph whose cycles the create statements warn about. */
  function PlanGraph(entries: seq<Entry>, tm: map<string, TableSnapshot>): Graph {
    CreateGraph(CreateMap(entries).Keys, tm)
  }

  lemma CreateMapKeys(entries: seq<Entry>, k: string)
    ensures k in CreateMap(entries) <==> exists e :: e in Creates(entries) && CreateKey(e) == k
  {
    if k in CreateMap(entries) {
      CreateMapAt(entries, k);
    }
    if e :| e in Creates(entries) && CreateKey(e) == k {
      CreateMapHas(entries, e);
    }
  }

  lemma PermutedGraph(a: seq<Entry>, b: seq<Entry>, tm: map<string, TableSnapshot>)
    requires forall e :: e in Creates(a) <==> e in Creates(b)
    ensures PlanGraph(a, tm) == PlanGraph(b, tm)
  {
    forall k ensures k in CreateMap(a) <==> k in CreateMap(b) {
      CreateMapKeys(a, k);
      CreateMapKeys(b, k);
    }
    assert CreateMap(a).Keys == CreateMap(b).Keys;
  }

  /**
   * A foreign key from created table e to created table r: r is created first,
   * or both lie on a cycle of the plan's graph.
   */
  lemma CreatedFirst(collected: seq<Entry>, tm: map<string, TableSnapshot>, e: Entry, r: Entry)
    requires DistinctCreates(collected)
    requires var plan := OrderEntries(collected, tm); e in Creates(plan) && r in Creates(plan)
    requires CreateKey(e) in tm && CreateKey(r) != CreateKey(e)
    requires exists fk :: fk in tm[CreateKey(e)].foreignKeys && Lower(fk.referencedTable) == CreateKey(r)
    ensures var plan := OrderEntries(collected, tm); var g := PlanGraph(plan, tm);
      || (exists i, j :: 0 <= i < j < |plan| && plan[i] == r && plan[j] == e)
      || (OnCycle(g, CreateKey(e)) && OnCycle(g, CreateKey(r)))
  {
    hide OrderEntries, OnCycle, Placed, TopoOrder, CreateMap, Filter;
    var plan, sorted := OrderEntries(collected, tm), SortBy(BeforeInPlan, collected);
    OrderPermutes(collected, tm);
    SortCreates(collected);
    var topo := TopoCreateTables(sorted, tm);
    TopoPermutes(sorted, tm);
    assert forall x :: x in topo <==> x in multiset(topo);
    assert forall x :: x in Creates(sorted) <==> x in multiset(Creates(sorted));
    PermutedGraph(plan, sorted, tm);
    var g := PlanGraph(sorted, tm);
    var order := TopoOrder(g);
    TopoOrderPlaces(g);
    var a := PlaceOf(sorted, tm, r);
    var b := PlaceOf(sorted, tm, e);
    assert CreateKey(r) in ReferencesTo(tm[CreateKey(e)].foreignKeys, CreateKey(e), g.Nodes());
    assert CreateKey(r) in g.deps[order[b]];
    if CreateKey(r) in order[..b] {
      var c :| 0 <= c < b && order[c] == CreateKey(r);
      assert c == a;
      var i, j := FilterBefore(plan, IsCreate, a, b);
    }
  }

  lemma PlaceOf(sorted: seq<Entry>, tm: map<string, TableSnapshot>, e: Entry) returns (i: nat)
    requires DistinctCreates(sorted) && e in Creates(sorted)
    ensures i < |TopoOrder(PlanGraph(sorted, tm))| == |TopoCreateTables(sorted, tm)|
    ensures TopoOrder(PlanGraph(sorted, tm))[i] == CreateKey(e) && TopoCreateTables(sorted, tm)[i] == e
  {
    hide OnCycle, Placed, TopoOrder, CreateMap, Filter;
    CreateMapIs(sorted, e);
    var order := TopoOrder(PlanGraph(sorted, tm));
    TopoOrderPlaces(PlanGraph(sorted, tm));
    assert CreateKey(e) in order;
    i :| 0 <= i < |order| && order[i] == CreateKey(e);
  }
}
