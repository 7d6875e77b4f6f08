/// What the script of the whole plan does to each table: create, drop, rebuild
/// or change in place.
module TableRuns {
  import opened Text
  import opened Sequences
  import opened TypeNames
  import opened Snapshots
  import opened Plan
  import opened PlanOrder
  import opened Mirror
  import opened Script
  import opened Database
  import opened Locality
  import opened Runs
  import opened WellFormed
  import opened PlanIds
  import opened Shape
  import opened Agreement
  import opened InPlaceTables
  import opened InPlaceRuns
  import opened InPlaceEnd
  import opened ScriptUnits
  import opened PlanUnits

  ghost predicate RunsOk(w: Names, x: Emission, blocks: seq<Block>) {
    BlocksOk(x, blocks) && UnitsOk(w, UnitsOf(x, blocks))
  }

  /** The run of table k over the script's blocks. */
  ghost function BlockRun(w: Names, x: Emission, blocks: seq<Block>, k: string, ot: Option<Table>): Option<Option<Table>>
    requires RunsOk(w, x, blocks)
  {
    TableRun(w, UnitsOf(x, blocks), k, ot)
  }

  lemma OnlyOwnBlocks(w: Names, x: Emission, blocks: seq<Block>, own: seq<Block>, k: string, ot: Option<Table>)
    requires RunsOk(w, x, blocks) && Filter(blocks, OfKey(k)) == own
    ensures RunsOk(w, x, own) && BlockRun(w, x, blocks, k, ot) == BlockRun(w, x, own, k, ot)
  {
    hide BlocksOk, UnitsOk, UnitsOf, TableRun, Filter;
    FilteredRun(w, x, blocks, k, ot);
  }

  lemma NoBlocks(w: Names, x: Emission, k: string, ot: Option<Table>)
    ensures RunsOk(w, x, []) && BlockRun(w, x, [], k, ot) == Some(ot)
  {
    EmptyRun(w, x, k, ot);
    assert UnitsOf(x, []) == [];
  }

  lemma OneBlock(w: Names, x: Emission, b: Block, k: string, ot: Option<Table>)
    requires RunsOk(w, x, [b]) && BlockKey(b) == k
    ensures BlockOk(x, b) && UnitOk(w, UnitOf(x, b)) && BlockRun(w, x, [b], k, ot) == UnitStep(w, UnitOf(x, b), ot)
  {
    hide BlockOk, UnitOk, UnitStep, UnitOf, BlockKey, TableRun, BlocksOk, UnitsOf, UnitsOk;
    NoBlocks(w, x, k, ot);
    assert [] + [b] == [b];
    SnocOk(w, x, [], b);
    SnocRun(w, x, [], b, k, ot);
  }

  // ---- A rebuilt table ----

  lemma GroupRun(w: Names, x: Emission, all: seq<Entry>, phase: nat, k: string, old0: Table)
    requires RunsOk(w, x, [GroupOf(all, k, phase)]) && x.kind == Sqlite
    requires k in x.src && k in x.tgt && WfTable(x.tgt[k]) && CommonColumn(x.src[k], x.tgt[k])
    requires old0.def.cols.Keys == ColumnMap(x.src[k]).Keys
    ensures BlockRun(w, x, [GroupOf(all, k, phase)], k, Some(old0))
      == if RebuildFits(x.src[k], x.tgt[k], old0.rows) then Some(Some(Rebuilt(x.src[k], x.tgt[k], old0.rows))) else None
  {
    hide WfTable, CommonColumn, ColumnMap, RunsOk, BlockRun, RebuildFits, Rebuilt, Filter, AnyNonReversible, RebuildStep, TmpNameOf, TableBodyOf,
      CommonColumns, OrderedColumns, UserIndexes, CreateIndexes, UnitOk;
    GroupKey(all, k, phase);
    OneBlock(w, x, GroupOf(all, k, phase), k, Some(old0));
    RebuildTable(x.src[k], x.tgt[k], old0);
  }

  // ---- A table changed in place ----

  lemma DirectSnoc(init: seq<Entry>, e: Entry)
    ensures Map(DirectBlock, init + [e]) == Map(DirectBlock, init) + [Direct(e)]
  {
  }

  lemma DirectStepIs(w: Names, x: Emission, e: Entry, k: string, y: Table)
    requires x.kind == Sqlite && k in x.src && k in x.tgt && Lower(e.table) == k
    requires WfTable(x.src[k]) && WfTable(x.tgt[k]) && InPlaceEntry(x.src[k], x.tgt[k], e)
    requires BlockOk(x, Direct(e)) && UnitOk(w, UnitOf(x, Direct(e)))
    ensures UnitStep(w, UnitOf(x, Direct(e)), Some(y)) == Lift(EntryStep(x.src[k], x.tgt[k], e, y))
  {
    hide WfTable, InPlaceEntry, DirectSql, Lower, UnitOk, EntryStep, SingleStep;
    DirectIsStep(x.src[k], x.tgt[k], e, y);
  }

  lemma {:induction false} InPlaceRun(w: Names, x: Emission, es: seq<Entry>, k: string, y: Table)
    requires x.kind == Sqlite && k in x.src && k in x.tgt && WfTable(x.src[k]) && WfTable(x.tgt[k])
    requires AllInPlace(x.src[k], x.tgt[k], es) && Lower(x.tgt[k].name) == k
    requires RunsOk(w, x, Map(DirectBlock, es))
    ensures BlockRun(w, x, Map(DirectBlock, es), k, Some(y)) == Lift(EntriesRun(x.src[k], x.tgt[k], es, y))
  {
    hide WfTable, InPlaceEntry, Lower, UnitOk, BlockOk, UnitOf, UnitStep, EntryStep, RunsOk, BlockRun;
    if es == [] {
      NoBlocks(w, x, k, Some(y));
      assert Map(DirectBlock, es) == [];
    } else {
      var init, e := es[..|es| - 1], es[|es| - 1];
      assert es == init + [e];
      DirectSnoc(init, e);
      SplitRuns(w, x, Map(DirectBlock, init), Direct(e), k, Some(y));
      assert InPlaceEntry(x.src[k], x.tgt[k], e);
      EntryTable(x.src[k], x.tgt[k], e);
      assert AllInPlace(x.src[k], x.tgt[k], init) by { assert forall i :: 0 <= i < |init| ==> init[i] == es[i]; }
      InPlaceRun(w, x, init, k, y);
      var before := EntriesRun(x.src[k], x.tgt[k], init, y);
      if before.Some? {
        DirectStepIs(w, x, e, k, before.value);
      }
    }
  }

  lemma EntryTable(s: TableSnapshot, t: TableSnapshot, e: Entry)
    requires InPlaceEntry(s, t, e)
    ensures e.table == t.name
  {
    hide ColumnMap, SecondaryMap, Lower, Trim, IsUserIndex, SameIndex;
  }

  lemma SplitRuns(w: Names, x: Emission, blocks: seq<Block>, b: Block, k: string, ot: Option<Table>)
    requires RunsOk(w, x, blocks + [b])
    ensures RunsOk(w, x, blocks) && BlockOk(x, b) && UnitOk(w, UnitOf(x, b))
    ensures BlockRun(w, x, blocks + [b], k, ot)
      == var before := BlockRun(w, x, blocks, k, ot);
         if before.None? || BlockKey(b) != k then before else UnitStep(w, UnitOf(x, b), before.value)
  {
    hide BlockOk, UnitOk, UnitStep, UnitOf, BlockKey, TableRun, BlocksOk, UnitsOf, UnitsOk;
    SnocOk(w, x, blocks, b);
    SnocRun(w, x, blocks, b, k, ot);
  }

  // ---- Created and dropped tables ----

  lemma CreateRun(w: Names, x: Emission, e: Entry, k: string)
    requires x.kind == Sqlite && k in x.tgt && WfTable(x.tgt[k]) && e.op == CreateTable && Lower(e.table) == k
    requires RunsOk(w, x, [Direct(e)])
    ensures BlockRun(w, x, [Direct(e)], k, None) == if DefaultsOk(x.tgt[k]) then Some(Some(Table(DefOfBody(TableBodyOf(Sqlite, x.tgt[k])), []))) else None
  {
    hide WfTable, Lower, RunsOk, BlockRun, UnitOk, BodyOk, DefOfBody, TableBodyOf, DefaultsOk;
    OneBlock(w, x, Direct(e), k, None);
    WfBodyOk(x.tgt[k]);
  }

  lemma DropRun(w: Names, x: Emission, e: Entry, k: string, y: Table)
    requires e.op == DropTable && Lower(e.table) == k && RunsOk(w, x, [Direct(e)])
    ensures BlockRun(w, x, [Direct(e)], k, Some(y)) == Some(None)
  {
    hide Lower, RunsOk, BlockRun, UnitOk;
    OneBlock(w, x, Direct(e), k, Some(y));
  }

  // ---- The plan's entries of one table ----

  lemma OwnMembers(entries: seq<Entry>, k: string)
    ensures forall e :: e in Own(entries, k) <==> e in entries && Lower(e.table) == k
  {
    FilterMember(entries, OnTable(k));
  }

  lemma {:induction false} OwnTags(entries: seq<Entry>, k: string)
    requires DistinctTags(entries)
    ensures DistinctTags(Own(entries, k))
  {
    hide TagOf, Lower;
    var own := Own(entries, k);
    forall a, b | 0 <= a < b < |own| ensures TagOf(own[a]) != TagOf(own[b]) {
      var i, j := FilterBefore(entries, OnTable(k), a, b);
      assert Map(TagOf, entries)[i] != Map(TagOf, entries)[j];
    }
  }

  lemma OwnPhases(entries: seq<Entry>, k: string)
    requires PhasesAscend(entries)
    ensures PhasesAscend(Own(entries, k))
  {
    hide Phase, Lower;
    var own := Own(entries, k);
    forall a, b | 0 <= a < b < |own| ensures Phase(own[a].op) <= Phase(own[b].op) {
      var i, j := FilterBefore(entries, OnTable(k), a, b);
    }
  }

  lemma OnlyOne(es: seq<Entry>, e: Entry)
    requires DistinctTags(es) && forall x :: x in es <==> x == e
    ensures es == [e]
  {
    hide TagOf;
    assert |es| > 1 ==> Map(TagOf, es)[0] != Map(TagOf, es)[1];
    assert e in es;
    forall i | 0 <= i < |es| ensures es[i] == e { assert es[i] in es; }
  }

  /** The plan: every entry of the comparison once, phases ascending. */
  ghost predicate WholePlan(source: Snapshot, target: Snapshot, opts: Options, plan: seq<Entry>) {
    && (forall e :: e in plan <==> FromPlan(Sqlite, TableMap(source), TableMap(target), opts, e))
    && DistinctTags(plan) && PhasesAscend(plan)
  }

  lemma DiffIsWholePlan(source: Snapshot, target: Snapshot, opts: Options)
    requires WfSnapshot(source) && WfSnapshot(target)
    ensures WholePlan(source, target, opts, Diff(source, target, opts).value)
  {
    assert source.kind == Sqlite && target.kind == Sqlite && Comparable(source, target);
    PlanIdsDistinct(source, target, opts);
    hide FromPlan, DistinctTags, PhasesAscend, WfSnapshot, TableMap, Collected, OrderEntries;
    var plan := Diff(source, target, opts).value;
    forall e ensures e in plan <==> FromPlan(Sqlite, TableMap(source), TableMap(target), opts, e) {
      PlanEntries(source, target, opts, e);
    }
    TableMapKeyed(target);
    CollectedCreates(source.kind, TableMap(source), TableMap(target), opts);
    OrderedPhases(Collected(source.kind, TableMap(source), TableMap(target), opts), TableMap(target));
  }

  lemma OwnIsTablePlan(source: Snapshot, target: Snapshot, opts: Options, plan: seq<Entry>, k: string)
    requires WholePlan(source, target, opts, plan) && k in TableMap(source) && k in TableMap(target)
    requires Lower(TableMap(target)[k].name) == k
    ensures TablePlan(TableMap(source)[k], TableMap(target)[k], opts, Own(plan, k))
  {
    hide DistinctTags, PhasesAscend, TableMap, DiffTable, Own, Lower;
    var s, t := TableMap(source)[k], TableMap(target)[k];
    OwnMembers(plan, k);
    OwnTags(plan, k);
    OwnPhases(plan, k);
    TableEntries(Sqlite, s, t, opts);
    forall e ensures e in Own(plan, k) <==> e in DiffTable(Sqlite, s, t, opts) {
      assert e in DiffTable(Sqlite, s, t, opts) ==> OfTable(t.name)(e);
    }
  }

  lemma OwnCreate(source: Snapshot, target: Snapshot, opts: Options, plan: seq<Entry>, k: string)
    requires WholePlan(source, target, opts, plan) && k !in TableMap(source) && k in TableMap(target)
    requires Lower(TableMap(target)[k].name) == k
    ensures Own(plan, k) == [Mk(CreateTable, TableMap(target)[k].name, "", opts)]
  {
    hide DistinctTags, PhasesAscend, TableMap, DiffTable, Own, Lower;
    OwnMembers(plan, k);
    OwnTags(plan, k);
    OnlyOne(Own(plan, k), Mk(CreateTable, TableMap(target)[k].name, "", opts));
  }

  lemma OwnDrop(source: Snapshot, target: Snapshot, opts: Options, plan: seq<Entry>, k: string)
    requires WholePlan(source, target, opts, plan) && k in TableMap(source) && k !in TableMap(target)
    requires Lower(TableMap(source)[k].name) == k
    ensures Own(plan, k) == [Mk(DropTable, TableMap(source)[k].name, "", opts)]
  {
    hide DistinctTags, PhasesAscend, TableMap, DiffTable, Own, Lower;
    OwnMembers(plan, k);
    OwnTags(plan, k);
    OnlyOne(Own(plan, k), Mk(DropTable, TableMap(source)[k].name, "", opts));
  }

  lemma OwnNone(source: Snapshot, target: Snapshot, opts: Options, plan: seq<Entry>, k: string)
    requires WholePlan(source, target, opts, plan) && k !in TableMap(source) && k !in TableMap(target)
    ensures Own(plan, k) == []
  {
    hide DistinctTags, PhasesAscend, TableMap, DiffTable, Own, Lower;
    OwnMembers(plan, k);
    HasMember(Own(plan, k));
  }
}
