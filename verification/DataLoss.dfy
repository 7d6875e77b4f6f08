/// A selection without an irreversible statement loses no row and no value.
module DataLoss {
  import opened Text
  import opened Sequences
  import opened TypeNames
  import opened Snapshots
  import opened Plan
  import opened PlanOrder
  import opened Mirror
  import opened Script
  import opened Database
  import opened Obstructions
  import opened Locality
  import opened Runs
  import opened WellFormed
  import opened PlanIds
  import opened Shape
  import opened Agreement
  import opened InPlaceTables
  import opened InPlaceRuns
  import opened InPlaceEnd
  import opened ScriptUnits
  import opened PlanUnits
  import opened TableRuns
  import opened Convergence
  import opened Drops
  import opened Sparing
  import opened FullScript
  import opened Rollback
  import opened SyncTheorems
  import opened Coverage

  // ---- The statements of a block ----

  predicate SomeLossy(statements: seq<Statement>) { exists i :: 0 <= i < |statements| && statements[i].nonReversible }

  lemma LossyConcat(a: seq<Statement>, b: seq<Statement>)
    ensures SomeLossy(a + b) <==> SomeLossy(a) || SomeLossy(b)
  {
    var s := a + b;
    assert forall i :: 0 <= i < |a| ==> s[i] == a[i];
    assert forall i :: 0 <= i < |b| ==> s[|a| + i] == b[i];
    if SomeLossy(b) {
      var i :| 0 <= i < |b| && b[i].nonReversible;
      assert s[|a| + i].nonReversible;
    }
  }

  lemma {:induction false} LossyBlocks(x: Emission, blocks: seq<Block>)
    requires AllStatements(x, blocks).Ok?
    ensures SomeLossy(AllStatements(x, blocks).value) <==> exists i :: 0 <= i < |blocks| && BlockLossy(blocks[i])
  {
    hide BlockStatements, BlockLossy;
    if blocks != [] {
      var init, last := blocks[..|blocks| - 1], blocks[|blocks| - 1];
      LossyBlocks(x, init);
      BlockCarries(x, last);
      var st := BlockStatements(x, last).value;
      LossyConcat(AllStatements(x, init).value, st);
      assert SomeLossy(st) <==> BlockLossy(last) by { assert st[0].nonReversible == BlockLossy(last); }
      assert forall i :: 0 <= i < |init| ==> init[i] == blocks[i];
    }
  }

  /** The script has an irreversible statement exactly when one of its entries is irreversible. */
  lemma WrappedLossy(out: seq<Statement>, rebuild: set<string>)
    ensures SomeLossy(Wrapped(out, rebuild)) <==> SomeLossy(out)
  {
    if rebuild != {} {
      LossyConcat([PRAGMA_OFF], out);
      LossyConcat([PRAGMA_OFF] + out, [PRAGMA_ON]);
    }
  }

  // ---- Rows that survive ----

  /** The later row has every column of the earlier one, with the same value. */
  predicate RowKept(a: Row, b: Row) { forall c :: c in a ==> c in b && b[c] == a[c] }

  /** Same rows in the same order, every value kept, no column gone. */
  predicate TableKept(x: Table, y: Table) {
    && x.def.cols.Keys <= y.def.cols.Keys
    && |y.rows| == |x.rows| && forall i :: 0 <= i < |x.rows| ==> RowKept(x.rows[i], y.rows[i])
  }

  predicate Survives(x: Table, oy: Option<Table>) { oy.Some? && RowsTyped(oy.value) && TableKept(x, oy.value) }

  lemma KeptChain(x: Table, y: Table, z: Table)
    requires TableKept(x, y) && TableKept(y, z)
    ensures TableKept(x, z)
  {
  }

  lemma StepKeeps(s: TableSnapshot, t: TableSnapshot, e: Entry, y: Table)
    requires InPlaceEntry(s, t, e) && !NonReversible(e) && RowsTyped(y)
    ensures var r := EntryStep(s, t, e, y); r.Some? ==> RowsTyped(r.value) && TableKept(y, r.value)
  {
    hide ColumnMap, SecondaryMap, Lower, Trim, IsUserIndex, SameIndex, TargetColumn, DefaultValue, DistinctOn, ColumnAddable, IndexStateOf, Within;
  }

  lemma {:induction false} EntriesKeep(s: TableSnapshot, t: TableSnapshot, es: seq<Entry>, x: Table)
    requires AllInPlace(s, t, es) && (forall i :: 0 <= i < |es| ==> !NonReversible(es[i])) && RowsTyped(x)
    ensures var r := EntriesRun(s, t, es, x); r.Some? ==> RowsTyped(r.value) && TableKept(x, r.value)
  {
    hide InPlaceEntry, EntryStep, NonReversible, RowsTyped, TableKept;
    if es == [] {
      KeptSelf(x);
    } else {
      var init, e := es[..|es| - 1], es[|es| - 1];
      assert forall i :: 0 <= i < |init| ==> init[i] == es[i];
      EntriesKeep(s, t, init, x);
      var y := EntriesRun(s, t, init, x);
      if y.Some? {
        assert InPlaceEntry(s, t, es[|es| - 1]);
        StepKeeps(s, t, e, y.value);
        var z := EntryStep(s, t, e, y.value);
        if z.Some? {
          KeptChain(x, y.value, z.value);
        }
      }
    }
  }

  lemma KeptSelf(x: Table)
    ensures TableKept(x, x)
  {
  }

  /** A rebuild that drops no column keeps every value. */
  lemma RebuiltKept(s: TableSnapshot, t: TableSnapshot, x: Table)
    requires WfTable(t) && RowsTyped(x) && x.def.cols.Keys == ColumnMap(s).Keys && ColumnMap(s).Keys <= ColumnMap(t).Keys
    ensures Survives(x, Some(Rebuilt(s, t, x.rows)))
  {
    RebuiltRealises(s, t, x.rows);
    hide WfTable, ColumnMap, DefOfBody, TableBodyOf, UserIndexStates, PkColumns, UniqueLists, FkStates, SameColumn, DefaultValue;
  }

  // ---- One table under a selection ----

  /** A rebuilt table's plan entries are all picked. */
  ghost predicate WholeTables(source: Snapshot, target: Snapshot, opts: Options, picked: seq<Entry>) {
    forall e :: FromPlan(Sqlite, TableMap(source), TableMap(target), opts, e) ==>
      Lower(e.table) !in Rebuilds(source, target, picked, {}) || e in picked
  }

  /** Part of the plan, rebuilt tables whole, nothing irreversible. */
  ghost predicate Harmless(source: Snapshot, target: Snapshot, opts: Options, picked: seq<Entry>) {
    && Chosen(source, target, opts, picked, {}) && WholeTables(source, target, opts, picked)
    && forall e :: e in picked ==> !NonReversible(e)
  }

  lemma NoDropEntries(source: Snapshot, target: Snapshot, opts: Options, picked: seq<Entry>, k: string, e: Entry)
    requires Harmless(source, target, opts, picked) && k in Rebuilds(source, target, picked, {})
    requires k in TableMap(source) && k in TableMap(target) && Lower(TableMap(target)[k].name) == k
    requires e in DiffTable(Sqlite, TableMap(source)[k], TableMap(target)[k], opts)
    ensures e.op != DropColumn
  {
    var s, t := TableMap(source)[k], TableMap(target)[k];
    hide TableMap, Lower, Rebuilds, DiffTable, Chosen;
    TableEntries(Sqlite, s, t, opts);
    assert OfTable(t.name)(e);
    assert FromPlan(Sqlite, TableMap(source), TableMap(target), opts, e);
  }

  lemma DropListed(source: Snapshot, target: Snapshot, opts: Options, picked: seq<Entry>, k: string)
    requires Harmless(source, target, opts, picked) && k in Rebuilds(source, target, picked, {})
    requires k in TableMap(source) && k in TableMap(target) && Lower(TableMap(target)[k].name) == k
    ensures ColumnMap(TableMap(source)[k]).Keys <= ColumnMap(TableMap(target)[k]).Keys
  {
    hide TableMap, ColumnMap, Lower, Rebuilds, DiffTable, EntryKey, Harmless;
    var s, t := TableMap(source)[k], TableMap(target)[k];
    forall e | e in DiffTable(Sqlite, s, t, opts) ensures e.op != DropColumn {
      NoDropEntries(source, target, opts, picked, k, e);
    }
    forall c | c in ColumnMap(s) ensures c in ColumnMap(t) {
      if ColumnAdded(t, s, c) {
        DropColumnListed(s, t, opts, c);
      }
    }
  }

  lemma HarmlessRuns(source: Snapshot, target: Snapshot, opts: Options, picked: seq<Entry>)
    requires Harmless(source, target, opts, picked)
    ensures Chosen(source, target, opts, picked, {})
    ensures WfPair(source, target) && WfSnapshot(source) && WfSnapshot(target) && source.kind == Sqlite
    ensures forall e :: e in picked ==> FromPlan(Sqlite, TableMap(source), TableMap(target), opts, e) && !NonReversible(e)
  {
    hide Chosen, NonReversible, FromPlan, TableMap, Rebuilds, WfPair, WfSnapshot;
    ChosenParts(source, target, opts, picked, {});
  }

  /** The picked entries of a table that is not rebuilt are in-place entries. */
  lemma PickedInPlace(source: Snapshot, target: Snapshot, opts: Options, picked: seq<Entry>, k: string)
    requires Harmless(source, target, opts, picked) && k !in Rebuilds(source, target, picked, {})
    requires k in TableMap(source) && k in TableMap(target) && WfTable(TableMap(source)[k]) && WfTable(TableMap(target)[k])
    ensures AllInPlace(TableMap(source)[k], TableMap(target)[k], Own(picked, k))
    ensures forall i :: 0 <= i < |Own(picked, k)| ==> !NonReversible(Own(picked, k)[i])
  {
    hide Harmless, TableMap, Lower, Rebuilds, DiffTable, WfTable, NonReversible, Own, InPlaceEntry, NeedsRebuild, Chosen, WfPair, ScriptRuns, WfSnapshot;
    HarmlessRuns(source, target, opts, picked);
    OwnMembers(picked, k);
    var own := Own(picked, k);
    forall i | 0 <= i < |own| ensures InPlaceEntry(TableMap(source)[k], TableMap(target)[k], own[i]) && !NonReversible(own[i]) {
      assert own[i] in own;
      NotRebuilt(source, target, picked, {}, own[i]);
      InPlaceShape(TableMap(source)[k], TableMap(target)[k], opts, own[i]);
    }
  }

  /** A source table without a counterpart has no harmless entry. */
  lemma PickedNone(source: Snapshot, target: Snapshot, opts: Options, picked: seq<Entry>, k: string)
    requires Harmless(source, target, opts, picked) && k in TableMap(source) && k !in TableMap(target)
    ensures Own(picked, k) == []
  {
    hide Harmless, TableMap, Lower, Rebuilds, DiffTable, Own, Chosen, WfPair, ScriptRuns, WfSnapshot;
    HarmlessRuns(source, target, opts, picked);
    OwnMembers(picked, k);
    HasMember(Own(picked, k));
  }

  /** Table k's own part of a harmless selection keeps its data. */
  lemma OwnKept(source: Snapshot, target: Snapshot, opts: Options, picked: seq<Entry>, k: string, x: Table)
    requires Harmless(source, target, opts, picked) && ScriptRuns(source, target, picked, {})
    requires k in TableMap(source) && RowsTyped(x) && x.def.cols.Keys == ColumnMap(TableMap(source)[k]).Keys
    ensures var r := TableScript(source, target, picked, {}, k, Some(x)); r.Some? ==> Survives(x, r.value)
  {
    hide *;
    HarmlessRuns(source, target, opts, picked);
    TablesWf(source, k);
    EmissionIs(source, target, picked);
    ScriptBlocksAre(source, target, picked, {}, k);
    var w, e := NamesOf(source, target), EmissionOf(source, target, picked);
    var own := Own(picked, k);
    if k in Rebuilds(source, target, picked, {}) {
      RebuildsBoth(source, target, opts, picked, {});
      TablesWf(target, k);
      CommonOf(source, target, k);
      RebuiltHasEntries(source, target, picked, {}, k);
      var phase := Phase(own[0].op);
      TableBlocks(source, target, picked, {}, k, Some(x), [GroupOf(picked, k, phase)]);
      GroupRun(w, e, picked, phase, k, x);
      DropListed(source, target, opts, picked, k);
      RebuiltKept(TableMap(source)[k], TableMap(target)[k], x);
    } else if k in TableMap(target) {
      TablesWf(target, k);
      PickedInPlace(source, target, opts, picked, k);
      TableBlocks(source, target, picked, {}, k, Some(x), Map(DirectBlock, own));
      InPlaceRun(w, e, own, k, x);
      var r := EntriesRun(TableMap(source)[k], TableMap(target)[k], own, x);
      EntriesKeep(TableMap(source)[k], TableMap(target)[k], own, x);
      LiftIs(r);
      if r.Some? {
        SurvivesIs(x, r.value);
      }
    } else {
      PickedNone(source, target, opts, picked, k);
      NoDirect();
      TableBlocks(source, target, picked, {}, k, Some(x), []);
      NoBlocks(w, e, k, Some(x));
      KeptSelf(x);
      SurvivesIs(x, x);
    }
  }

  lemma SurvivesIs(x: Table, y: Table)
    ensures Survives(x, Some(y)) <==> RowsTyped(y) && TableKept(x, y)
  {
    hide RowsTyped, TableKept;
  }

  // ---- The whole script ----

  lemma DirectNoDrop(x: Emission, e: Entry)
    requires BlockOk(x, Direct(e)) && !NonReversible(e)
    ensures UnitOf(x, Direct(e)).Single? && !IsDrop(UnitOf(x, Direct(e)))
  {
    hide Lower, UnitOf, IsDrop;
    DirectUnit(x, e);
  }

  /** A harmless selection that rebuilds nothing drops nothing. */
  lemma HarmlessMild(source: Snapshot, target: Snapshot, opts: Options, picked: seq<Entry>)
    requires Harmless(source, target, opts, picked) && ScriptRuns(source, target, picked, {}) && Rebuilds(source, target, picked, {}) == {}
    ensures Mild(ScriptUnitList(source, target, picked, {}))
  {
    hide Harmless, ScriptRuns, NonReversible, UnitOk, BlockOk, UnitOf, EmissionOf, NamesOf, Rebuilds, Blocks, IsDrop, FromPlan, Chosen, WfPair, WfSnapshot, BlockFrom, UnitsOk;
    HarmlessRuns(source, target, opts, picked);
    UnitListOk(source, target, picked, {});
    BlocksFrom(picked, picked, Rebuilds(source, target, picked, {}), {});
    var x, blocks, units := EmissionOf(source, target, picked), ScriptBlocks(source, target, picked, {}), ScriptUnitList(source, target, picked, {});
    forall i | 0 <= i < |units| ensures units[i].Single? && !IsDrop(units[i]) {
      assert BlockOk(x, blocks[i]);
      BlockFromIs(picked, Rebuilds(source, target, picked, {}), blocks[i]);
      OnlyDirect(picked, Rebuilds(source, target, picked, {}), blocks[i]);
      DirectNoDrop(x, blocks[i].entry);
    }
  }

  lemma OnlyDirect(picked: seq<Entry>, rebuild: set<string>, b: Block)
    requires BlockFrom(picked, rebuild, b) && rebuild == {}
    ensures b.Direct? && b == Direct(b.entry)
  {
    hide Lower;
  }

  lemma AimedSurvives(x: Table, units: seq<Unit>, k: string, y: Option<Table>)
    requires Survives(x, y)
    ensures Survives(x, AimTable(units, k, y))
  {
    hide AimAll, RowKept;
  }

  /** The tables after a harmless run. */
  lemma HarmlessRun(source: Snapshot, target: Snapshot, opts: Options, picked: seq<Entry>, db: Db, k: string)
    requires Harmless(source, target, opts, picked) && ScriptRuns(source, target, picked, {})
    requires k in db.tables && k in TableMap(source) && RowsTyped(db.tables[k])
    requires db.tables[k].def.cols.Keys == ColumnMap(TableMap(source)[k]).Keys
    requires DbOk(NamesOf(source, target), db)
    requires db.enforce ==> Rebuilds(source, target, picked, {}) == {}
    ensures var r := Run(AllSqls(ScriptUnitList(source, target, picked, {})), db);
      r.Some? ==> Survives(db.tables[k], Lookup(r.value.tables, k))
  {
    hide *;
    HarmlessRuns(source, target, opts, picked);
    PairWf(source, target);
    UnitListOk(source, target, picked, {});
    var w, units := NamesOf(source, target), ScriptUnitList(source, target, picked, {});
    if db.enforce {
      HarmlessMild(source, target, opts, picked);
    }
    RunUnits(w, units, db);
    LookupIs(db, k);
    var r := Run(AllSqls(units), db);
    if r.Some? {
      TracksAt(w, units, db, r.value, k);
      OwnKept(source, target, opts, picked, k, db.tables[k]);
      AimedSurvives(db.tables[k], units, k, TableRun(w, units, k, Some(db.tables[k])).value);
    }
  }

  // ---- From statements back to entries ----

  lemma QuietBlocks(source: Snapshot, target: Snapshot, picked: seq<Entry>, e: Entry)
    requires e in picked && forall b :: b in ScriptBlocks(source, target, picked, {}) ==> !BlockLossy(b)
    ensures !NonReversible(e)
  {
    hide Rebuilds, Filter, Own, NonReversible, Lower, Blocks, AnyNonReversible, ScriptBlocks;
    var k, blocks := Lower(e.table), ScriptBlocks(source, target, picked, {});
    OwnMembers(picked, k);
    ScriptBlocksAre(source, target, picked, {}, k);
    FilterMember(blocks, OfKey(k));
    var own := Own(picked, k);
    if k in Rebuilds(source, target, picked, {}) {
      var g := GroupOf(picked, k, Phase(own[0].op));
      assert g in Filter(blocks, OfKey(k));
      GroupLossy(picked, k, Phase(own[0].op), e);
    } else {
      var i :| 0 <= i < |own| && own[i] == e;
      assert Map(DirectBlock, own)[i] == Direct(e);
      assert Direct(e) in Filter(blocks, OfKey(k));
    }
  }

  lemma GroupLossy(all: seq<Entry>, k: string, phase: nat, e: Entry)
    requires e in Own(all, k) && !BlockLossy(GroupOf(all, k, phase))
    ensures !NonReversible(e)
  {
    hide NonReversible, Filter, Ids;
    var own := Own(all, k);
    var i :| 0 <= i < |own| && own[i] == e;
  }

  lemma NoLossyEntries(source: Snapshot, target: Snapshot, picked: seq<Entry>)
    requires ScriptRuns(source, target, picked, {})
    requires EmitScript(source, target, picked, {}).Ok? && !SomeLossy(EmitScript(source, target, picked, {}).value.0)
    ensures forall e :: e in picked ==> !NonReversible(e)
  {
    hide ScriptRuns, EmitScript, Rebuilds, NonReversible, BlockLossy, Blocks, EmissionOf, AllStatements, Wrapped, SomeLossy, ScriptBlocks;
    EmitIs(source, target, picked, {});
    var x, blocks := EmissionOf(source, target, picked), ScriptBlocks(source, target, picked, {});
    WrappedLossy(AllStatements(x, blocks).value, Rebuilds(source, target, picked, {}));
    LossyBlocks(x, blocks);
    forall b | b in blocks ensures !BlockLossy(b) {
      var i :| 0 <= i < |blocks| && blocks[i] == b;
    }
    forall e | e in picked ensures !NonReversible(e) {
      QuietBlocks(source, target, picked, e);
    }
  }

  lemma AcceptedWhole(source: Snapshot, target: Snapshot, opts: Options, selected: seq<string>)
    requires WfPair(source, target) && SelectEntries(source, target, PlanOf(source, target, opts), selected).Ok?
    ensures WholeTables(source, target, opts, Picked(PlanOf(source, target, opts), selected))
  {
    var plan := PlanOf(source, target, opts);
    hide SelectEntries, FromPlan, TableMap, Rebuilds, Lower, Id, WfPair, PlanOf, DistinctTags, PhasesAscend, SelectedRebuilds, Picked, WfSnapshot, Ids, Comparable, Diff;
    PairWf(source, target);
    PlanIs(source, target, opts);
    DiffIsWholePlan(source, target, opts);
    Accepted(source, target, plan, selected);
    PickedMembers(plan, selected);
    SelectedIs(source, target, Picked(plan, selected));
  }

  lemma HarmlessIs(source: Snapshot, target: Snapshot, opts: Options, picked: seq<Entry>)
    requires Chosen(source, target, opts, picked, {}) && WholeTables(source, target, opts, picked)
    requires forall e :: e in picked ==> !NonReversible(e)
    ensures Harmless(source, target, opts, picked)
  {
  }

  lemma SourceTable(db: Db, source: Snapshot, target: Snapshot, opts: Options, k: string)
    requires IsSource(db, source, target, opts) && k in db.tables
    ensures k in TableMap(source) && RowsTyped(db.tables[k])
    ensures db.tables[k].def.cols.Keys == ColumnMap(TableMap(source)[k]).Keys
  {
    hide RowsTyped, TableMap, ViewMap, ColumnMap, SameColumn, PkColumns, UniqueLists, FkStates, UserIndexStates;
  }

  /** The pragma bracket changes nothing for a table. */
  lemma EmittedHarmless(source: Snapshot, target: Snapshot, opts: Options, picked: seq<Entry>, db: Db, k: string)
    requires Harmless(source, target, opts, picked) && IsSource(db, source, target, opts) && k in db.tables
    requires ScriptRuns(source, target, picked, {})
    ensures EmitScript(source, target, picked, {}).Ok?
    ensures var r := Run(Sqls(EmitScript(source, target, picked, {}).value.0), db);
      r.Some? ==> Survives(db.tables[k], Lookup(r.value.tables, k))
  {
    hide *;
    HarmlessRuns(source, target, opts, picked);
    EmitIs(source, target, picked, {});
    IsSourceStands(db, source, target, opts);
    var rebuild := Rebuilds(source, target, picked, {});
    var p := Paused(db, rebuild);
    PausedStands(db, source, target, rebuild, opts.ignoreDefaults);
    PausedIs(db, rebuild);
    StandsOk(p, source, target, opts.ignoreDefaults);
    SourceTable(db, source, target, opts, k);
    HarmlessRun(source, target, opts, picked, p, k);
    var all := AllStatements(EmissionOf(source, target, picked), ScriptBlocks(source, target, picked, {})).value;
    WrappedRun(all, rebuild, db);
  }

  /**
   * An accepted selection whose forward script has no statement marked
   * irreversible, run to the end on the source database: every table is still
   * there, with all its columns and rows and every value.
   */
  lemma NoSilentLoss(source: Snapshot, target: Snapshot, opts: Options, selected: seq<string>, db: Db)
    requires WfPair(source, target) && IsSource(db, source, target, opts)
    requires SelectEntries(source, target, PlanOf(source, target, opts), selected).Ok?
    ensures var picked := SelectEntries(source, target, PlanOf(source, target, opts), selected).value;
      var g := Generate(source, target, picked, opts);
      g.Ok? && !SomeLossy(g.value.statements) ==>
        var r := Run(Sqls(g.value.statements), db);
        r.Some? ==> forall k :: k in db.tables ==> Survives(db.tables[k], Lookup(r.value.tables, k))
  {
    hide *;
    var plan := PlanOf(source, target, opts);
    var picked := SelectEntries(source, target, plan, selected).value;
    Accepted(source, target, plan, selected);
    PickedMembers(plan, selected);
    PartGenerates(source, target, opts, picked);
    NothingForced(source, target);
    PartChosen(source, target, opts, picked, {});
    var g := Generate(source, target, picked, opts);
    if g.Ok? && !SomeLossy(g.value.statements) {
      BothWaysIs(source, target, picked, ReverseOf(source, target, opts, picked));
      ScriptIsOk(source, target, opts, picked, {});
      NoLossyEntries(source, target, picked);
      AcceptedWhole(source, target, opts, selected);
      HarmlessIs(source, target, opts, picked);
      var r := Run(Sqls(g.value.statements), db);
      if r.Some? {
        forall k | k in db.tables ensures Survives(db.tables[k], Lookup(r.value.tables, k)) {
          EmittedHarmless(source, target, opts, picked, db, k);
        }
      }
    }
  }
}
