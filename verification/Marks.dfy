/// What each emitted statement is marked with: irreversible exactly when one of
/// its ids is of something whose values the change loses, cyclic exactly when it
/// creates a table on a cycle of references, and the table and phase of its entries.
module Marks {
  import opened Text
  import opened Sequences
  import opened TypeNames
  import opened Snapshots
  import opened Graph
  import opened Plan
  import opened PlanOrder
  import opened Mirror
  import opened Script
  import opened WellFormed
  import opened PlanIds
  import opened ScriptUnits
  import opened PlanUnits
  import opened TableRuns
  import opened Convergence
  import opened Rollback
  import opened Coverage
  import opened PlanMeaning

  // ---- Which ids lose values ----

  ghost predicate ColumnReshaped(source: Snapshot, target: Snapshot, id: string) {
    exists k, c :: Shared(source, target, k) && c in ColumnMap(TableMap(source)[k]) && c in ColumnMap(TableMap(target)[k])
                   && Reshaped(ColumnMap(TableMap(source)[k])[c], ColumnMap(TableMap(target)[k])[c]) && Named(id, k, c, "alter_column")
  }

  /** Of a table or column only the source has, or of a column whose normalised type or nullability differs. */
  ghost predicate Loses(source: Snapshot, target: Snapshot, id: string) {
    TableLost(source, target, id, "drop_table") || ColumnLost(source, target, id, "drop_column") || ColumnReshaped(source, target, id)
  }

  /** The same of a tag. */
  ghost predicate LosingTag(source: Snapshot, target: Snapshot, tag: Tag) {
    var sm, tm, k, c := TableMap(source), TableMap(target), tag.table, tag.obj;
    match tag.op
    case DropTable => true
    case DropColumn => true
    case AlterColumn => k in sm && k in tm && c in ColumnMap(sm[k]) && c in ColumnMap(tm[k]) && Reshaped(ColumnMap(sm[k])[c], ColumnMap(tm[k])[c])
    case _ => false
  }

  lemma LosingId(source: Snapshot, target: Snapshot, opts: Options, tag: Tag)
    requires Calls(source, target, opts, tag) && LosingTag(source, target, tag)
    ensures Loses(source, target, IdOf(tag))
  {
    hide TableMap, ColumnMap, ColumnDiffers, Reshaped;
    assert Named(IdOf(tag), tag.table, tag.obj, OpName(tag.op));
    if tag.op == AlterColumn {
      assert Shared(source, target, tag.table);
    }
  }

  lemma LosingTagOf(source: Snapshot, target: Snapshot, opts: Options, id: string) returns (tag: Tag)
    requires Loses(source, target, id)
    ensures Calls(source, target, opts, tag) && LosingTag(source, target, tag) && IdOf(tag) == id
  {
    hide TableMap, ColumnMap, Reshaped;
    if TableLost(source, target, id, "drop_table") {
      var k :| k in TableMap(source) && k !in TableMap(target) && Named(id, k, "", "drop_table");
      tag := Tag(k, "", DropTable);
    } else if ColumnLost(source, target, id, "drop_column") {
      var k, c :| Shared(source, target, k) && c in ColumnMap(TableMap(source)[k]) && c !in ColumnMap(TableMap(target)[k]) && Named(id, k, c, "drop_column");
      tag := Tag(k, c, DropColumn);
    } else {
      var k, c :| Shared(source, target, k) && c in ColumnMap(TableMap(source)[k]) && c in ColumnMap(TableMap(target)[k])
                  && Reshaped(ColumnMap(TableMap(source)[k])[c], ColumnMap(TableMap(target)[k])[c]) && Named(id, k, c, "alter_column");
      tag := Tag(k, c, AlterColumn);
    }
  }

  lemma LosingEntry(source: Snapshot, target: Snapshot, e: Entry, opts: Options)
    requires Flagged(TableMap(source), TableMap(target), opts, e)
    ensures NonReversible(e) <==> LosingTag(source, target, TagOf(e))
  {
    hide TableMap, ColumnMap, Lower, NormalizeType, DefaultsDiffer;
  }

  /** An entry is irreversible exactly when its id is of something that loses values. */
  lemma LossExactly(source: Snapshot, target: Snapshot, opts: Options, e: Entry)
    requires WfSnapshot(source) && WfSnapshot(target) && e in PlanOf(source, target, opts)
    ensures NonReversible(e) <==> Loses(source, target, Id(e))
  {
    hide *;
    EntryReads(source, target, opts, e);
    LosingEntry(source, target, e, opts);
    EntryCalls(source, target, opts, e);
    IdIsTag(e);
    if NonReversible(e) {
      LosingId(source, target, opts, TagOf(e));
    }
    if Loses(source, target, Id(e)) {
      var tag := LosingTagOf(source, target, opts, Id(e));
      OneReading(source, target, opts, e, tag);
    }
  }

  // ---- Statements ----

  /** The entries whose id the statement carries. */
  predicate Carries(entries: seq<Entry>, st: Statement, e: Entry) { e in entries && Id(e) in st.entryIds }

  /** Some statement marks of a script, told by the ids it carries and the two snapshots. */
  ghost predicate Labelled(source: Snapshot, target: Snapshot, entries: seq<Entry>, st: Statement) {
    && (st.nonReversible <==> exists id :: id in st.entryIds && Loses(source, target, id))
    && (st.fkCycle <==> exists e :: Carries(entries, st, e) && e.op == CreateTable
                                    && OnCycle(PlanGraph(entries, TableMap(target)), Lower(e.table)))
    && (forall e :: Carries(entries, st, e) ==> Lower(st.table) == Lower(e.table) && st.phase <= Phase(e.op))
    && (exists e :: Carries(entries, st, e) && st.phase == Phase(e.op))
  }

  /** A pragma belongs to no entry and is marked with nothing. */
  predicate Unlabelled(st: Statement) { st.sql.PragmaForeignKeys? && st.entryIds == [] && !st.nonReversible && !st.fkCycle }

  lemma DirectLabels(x: Emission, e: Entry, st: Statement)
    requires BlockStatements(x, Direct(e)).Ok? && st in BlockStatements(x, Direct(e)).value
    ensures st.entryIds == [Id(e)] && st.nonReversible == NonReversible(e) && st.phase == Phase(e.op) && st.table == e.table
    ensures st.fkCycle <==> e.op == CreateTable && Lower(e.table) in x.cyclic
  {
    hide DirectSql, Lower, NonReversible, Id;
  }

  lemma GroupLabels(x: Emission, b: Block, st: Statement)
    requires b.Group? && BlockStatements(x, b).Ok? && st in BlockStatements(x, b).value
    ensures st.entryIds == b.ids && st.nonReversible == b.nr && st.phase == b.phase && !st.fkCycle
    ensures b.key in x.tgt && st.table == x.tgt[b.key].name
  {
    hide TmpNameOf, TableBodyOf, CommonColumns, UserIndexes, OrderedColumns, Lower, CreateIndexOf, Id;
  }

  /** Plan entries with one id agree in table and op. */
  lemma SameIdSameTag(source: Snapshot, target: Snapshot, opts: Options, a: Entry, b: Entry)
    requires WfSnapshot(source) && WfSnapshot(target) && a in PlanOf(source, target, opts) && b in PlanOf(source, target, opts)
    requires Id(a) == Id(b)
    ensures Lower(a.table) == Lower(b.table) && a.op == b.op
  {
    hide *;
    EntryCalls(source, target, opts, b);
    IdIsTag(b);
    OneReading(source, target, opts, a, TagOf(b));
    TagReads(a);
    TagReads(b);
  }

  lemma TagReads(e: Entry)
    ensures TagOf(e).table == Lower(e.table) && TagOf(e).op == e.op
  {
  }

  lemma CyclicIs(source: Snapshot, target: Snapshot, entries: seq<Entry>, e: Entry)
    requires e in entries && e.op == CreateTable
    ensures Lower(e.table) in EmissionOf(source, target, entries).cyclic
      <==> OnCycle(PlanGraph(entries, TableMap(target)), Lower(e.table))
  {
    hide TableMap, TakenNames, OnCycle, PlanGraph, CreateMap, Lower;
    CreatedKey(entries, Lower(e.table));
  }

  lemma DirectLabelled(source: Snapshot, target: Snapshot, opts: Options, entries: seq<Entry>, e: Entry, st: Statement)
    requires WfSnapshot(source) && WfSnapshot(target) && (forall x :: x in entries ==> x in PlanOf(source, target, opts)) && e in entries
    requires BlockStatements(EmissionOf(source, target, entries), Direct(e)).Ok?
    requires st in BlockStatements(EmissionOf(source, target, entries), Direct(e)).value
    ensures Labelled(source, target, entries, st)
  {
    hide EmissionOf, TableMap, WfSnapshot, PlanOf, Id, Lower, OnCycle, PlanGraph, Loses, Phase, NonReversible, BlockStatements;
    DirectLabels(EmissionOf(source, target, entries), e, st);
    LossExactly(source, target, opts, e);
    if e.op == CreateTable {
      CyclicIs(source, target, entries, e);
    }
    forall y | Carries(entries, st, y) ensures Lower(y.table) == Lower(e.table) && y.op == e.op {
      SameIdSameTag(source, target, opts, y, e);
    }
    assert Id(e) in st.entryIds;
    assert Carries(entries, st, e);
  }

  /** Every block of a script is one entry's, or the group of a table with entries. */
  lemma BlockOrigin(source: Snapshot, target: Snapshot, entries: seq<Entry>, forced: set<string>, b: Block)
    requires b in ScriptBlocks(source, target, entries, forced)
    ensures var own := Own(entries, BlockKey(b));
      if b.Direct? then b.entry in entries else own != [] && b == GroupOf(entries, b.key, Phase(own[0].op))
  {
    hide ScriptBlocks, Rebuilds, Filter, Own, GroupOf, Phase, Lower;
    var k, blocks := BlockKey(b), ScriptBlocks(source, target, entries, forced);
    ScriptBlocksAre(source, target, entries, forced, k);
    FilterMember(blocks, OfKey(k));
    assert b in Filter(blocks, OfKey(k));
    OwnMembers(entries, k);
    if k !in Rebuilds(source, target, entries, forced) {
      MapMember(DirectBlock, Own(entries, k), b);
    } else {
      GroupParts(entries, k, Phase(Own(entries, k)[0].op));
    }
  }

  lemma GroupLoses(entries: seq<Entry>, k: string, phase: nat)
    ensures GroupOf(entries, k, phase).nr <==> exists e :: e in entries && Lower(e.table) == k && NonReversible(e)
  {
    hide NonReversible, Lower, Id;
    OwnMembers(entries, k);
    var own := Own(entries, k);
    if e :| e in entries && Lower(e.table) == k && NonReversible(e) {
      var i :| 0 <= i < |own| && own[i] == e;
    }
  }

  /** Exactly the entries of a table are carried by its group. */
  lemma GroupCarries(source: Snapshot, target: Snapshot, opts: Options, entries: seq<Entry>, k: string, st: Statement)
    requires WfSnapshot(source) && WfSnapshot(target) && forall x :: x in entries ==> x in PlanOf(source, target, opts)
    requires st.entryIds == Map(Id, Own(entries, k))
    ensures forall e :: Carries(entries, st, e) <==> e in entries && Lower(e.table) == k
    ensures forall id :: id in st.entryIds ==> exists e :: e in entries && Lower(e.table) == k && Id(e) == id
  {
    hide *;
    OwnMembers(entries, k);
    var own := Own(entries, k);
    forall id | id in st.entryIds ensures exists e :: e in entries && Lower(e.table) == k && Id(e) == id {
      MapMember(Id, own, id);
    }
    forall e ensures Carries(entries, st, e) <==> e in entries && Lower(e.table) == k {
      CarriesIs(entries, st, e);
      MapMember(Id, own, Id(e));
      if Carries(entries, st, e) {
        var o :| o in own && Id(o) == Id(e);
        SameIdSameTag(source, target, opts, e, o);
      }
    }
  }

  lemma CarriesIs(entries: seq<Entry>, st: Statement, e: Entry)
    ensures Carries(entries, st, e) <==> e in entries && Id(e) in st.entryIds
  {
    hide Id;
  }

  lemma CreatesNew(source: Snapshot, target: Snapshot, opts: Options, e: Entry)
    requires WfSnapshot(source) && WfSnapshot(target) && e in PlanOf(source, target, opts) && e.op == CreateTable
    ensures Lower(e.table) !in TableMap(source)
  {
    EntryCalls(source, target, opts, e);
    hide TableMap, Lower, PlanOf, WfSnapshot, TableCalls;
  }

  lemma GroupLabelled(source: Snapshot, target: Snapshot, opts: Options, entries: seq<Entry>, b: Block, st: Statement)
    requires WfSnapshot(source) && WfSnapshot(target) && (forall x :: x in entries ==> x in PlanOf(source, target, opts)) && PhasesAscend(entries)
    requires var own := Own(entries, BlockKey(b)); b.Group? && own != [] && b == GroupOf(entries, b.key, Phase(own[0].op))
    requires BlockStatements(EmissionOf(source, target, entries), b).Ok?
    requires st in BlockStatements(EmissionOf(source, target, entries), b).value
    ensures Labelled(source, target, entries, st)
  {
    hide TableMap, WfSnapshot, PlanOf, Id, Lower, OnCycle, PlanGraph, Loses, Phase, NonReversible, RebuildStatements, Own, GroupOf, PhasesAscend,
      AnyNonReversible, CyclicSet, TakenNames;
    var k, own := b.key, Own(entries, b.key);
    GroupLabels(EmissionOf(source, target, entries), b, st);
    GroupParts(entries, k, Phase(own[0].op));
    GroupCarries(source, target, opts, entries, k, st);
    GroupLoses(entries, k, Phase(own[0].op));
    OwnMembers(entries, k);
    OwnPhases(entries, k);
    TablesWf(target, k);
    forall e | Carries(entries, st, e) ensures (NonReversible(e) <==> Loses(source, target, Id(e))) && e.op != CreateTable && Phase(own[0].op) <= Phase(e.op) {
      LossExactly(source, target, opts, e);
      if e.op == CreateTable {
        CreatesNew(source, target, opts, e);
      }
      FirstPhase(own, e);
    }
    assert own[0] in own;
    assert Carries(entries, st, own[0]);
    if st.nonReversible {
      var e :| e in entries && Lower(e.table) == k && NonReversible(e);
      assert Carries(entries, st, e);
    }
    if id :| id in st.entryIds && Loses(source, target, id) {
      var e :| e in entries && Lower(e.table) == k && Id(e) == id;
      assert Carries(entries, st, e);
    }
    assert forall e :: Carries(entries, st, e) ==> Lower(st.table) == Lower(e.table) && st.phase <= Phase(e.op);
  }

  lemma FirstPhase(own: seq<Entry>, e: Entry)
    requires PhasesAscend(own) && e in own
    ensures Phase(own[0].op) <= Phase(e.op)
  {
    hide Phase;
  }

  /** Every statement of a script is labelled by what it carries; the pragmas carry nothing. */
  lemma LabelsExactly(source: Snapshot, target: Snapshot, opts: Options, entries: seq<Entry>, forced: set<string>, i: nat)
    requires WfSnapshot(source) && WfSnapshot(target) && (forall e :: e in entries ==> e in PlanOf(source, target, opts)) && PhasesAscend(entries)
    requires EmitScript(source, target, entries, forced).Ok? && i < |EmitScript(source, target, entries, forced).value.0|
    ensures var st := EmitScript(source, target, entries, forced).value.0[i];
      if st.sql.PragmaForeignKeys? then Unlabelled(st) else Labelled(source, target, entries, st)
  {
    EmitStops(source, target, entries, forced);
    hide EmissionOf, Blocks, Rebuilds, Ids, AllStatements, BlockIds, ScriptBlocks, EmitScript, Labelled, PlanOf, PhasesAscend, WfSnapshot, Own, GroupOf;
    var x, blocks := EmissionOf(source, target, entries), ScriptBlocks(source, target, entries, forced);
    StoppedNotOk(AllStatements(x, blocks));
    var all, st := AllStatements(x, blocks).value, EmitScript(source, target, entries, forced).value.0;
    var wrapped := Rebuilds(source, target, entries, forced) != {};
    if wrapped && (i == 0 || i == |st| - 1) {
      assert Unlabelled(st[i]);
    } else {
      var j := if wrapped then i - 1 else i;
      assert st[i] == all[j];
      var m := FromBlock(x, blocks, j);
      BodyNoPragma(x, blocks);
      BlockOrigin(source, target, entries, forced, blocks[m]);
      if blocks[m].Direct? {
        DirectLabelled(source, target, opts, entries, blocks[m].entry, st[i]);
      } else {
        GroupLabelled(source, target, opts, entries, blocks[m], st[i]);
      }
    }
  }

  // ---- The order of a script ----

  function BlockPhase(b: Block): nat { if b.Direct? then Phase(b.entry.op) else b.phase }

  /** The blocks' phases start at p or later and never fall. */
  predicate Ascend(blocks: seq<Block>, p: nat) {
    && (forall i :: 0 <= i < |blocks| ==> p <= BlockPhase(blocks[i]))
    && forall i, j :: 0 <= i < j < |blocks| ==> BlockPhase(blocks[i]) <= BlockPhase(blocks[j])
  }

  lemma AscendCons(head: Block, tail: seq<Block>, p: nat)
    requires Ascend(tail, p) && BlockPhase(head) == p
    ensures Ascend([head] + tail, p)
  {
    hide BlockPhase;
  }

  lemma AscendFrom(blocks: seq<Block>, p: nat, q: nat)
    requires Ascend(blocks, q) && p <= q
    ensures Ascend(blocks, p)
  {
    hide BlockPhase;
  }

  lemma FirstPhases(entries: seq<Entry>)
    requires PhasesAscend(entries) && entries != []
    ensures PhasesAscend(entries[1..])
    ensures |entries| > 1 ==> Phase(entries[0].op) <= Phase(entries[1].op)
  {
    hide Phase;
  }

  lemma {:induction false} BlocksAscend(entries: seq<Entry>, all: seq<Entry>, rebuild: set<string>, done: set<string>, p: nat)
    requires PhasesAscend(entries) && (entries != [] ==> p <= Phase(entries[0].op))
    ensures Ascend(Blocks(entries, all, rebuild, done), p)
  {
    hide Phase, Lower, Id, PhasesAscend, Ascend, GroupOf, BlockPhase;
    if entries == [] {
      NoneAscend(p);
    } else {
      var e, rest := entries[0], entries[1..];
      var k, q := Lower(e.table), Phase(e.op);
      FirstPhases(entries);
      if k in rebuild {
        if k in done {
          BlocksAscend(rest, all, rebuild, done, q);
        } else {
          BlocksAscend(rest, all, rebuild, done + {k}, q);
          GroupPhase(all, k, q);
          AscendCons(GroupOf(all, k, q), Blocks(rest, all, rebuild, done + {k}), q);
        }
      } else {
        BlocksAscend(rest, all, rebuild, done, q);
        DirectPhase(e);
        AscendCons(Direct(e), Blocks(rest, all, rebuild, done), q);
      }
      AscendFrom(Blocks(entries, all, rebuild, done), p, q);
    }
  }

  lemma NoneAscend(p: nat)
    ensures Ascend([], p)
  {
  }

  lemma DirectPhase(e: Entry)
    ensures BlockPhase(Direct(e)) == Phase(e.op)
  {
  }

  lemma GroupPhase(all: seq<Entry>, k: string, phase: nat)
    ensures BlockPhase(GroupOf(all, k, phase)) == phase
  {
    hide Id, Filter, AnyNonReversible;
  }

  lemma BlockInPhase(x: Emission, b: Block, st: Statement)
    requires BlockStatements(x, b).Ok? && st in BlockStatements(x, b).value
    ensures st.phase == BlockPhase(b)
  {
    hide BlockStatements, Phase, Id, NonReversible, Lower;
    if b.Direct? {
      DirectLabels(x, b.entry, st);
    } else {
      GroupLabels(x, b, st);
    }
  }

  lemma {:induction false} StatementsAscend(x: Emission, blocks: seq<Block>)
    requires AllStatements(x, blocks).Ok? && Ascend(blocks, 0)
    ensures var st := AllStatements(x, blocks).value; forall i, j :: 0 <= i < j < |st| ==> st[i].phase <= st[j].phase
  {
    hide BlockStatements, BlockPhase, BlockIds;
    if blocks != [] {
      var init, last := blocks[..|blocks| - 1], blocks[|blocks| - 1];
      StatementsAscend(x, init);
      var before, own := AllStatements(x, init).value, BlockStatements(x, last).value;
      forall i | 0 <= i < |own| ensures own[i].phase == BlockPhase(last) {
        assert own[i] in own;
        BlockInPhase(x, last, own[i]);
      }
      forall i | 0 <= i < |before| ensures before[i].phase <= BlockPhase(last) {
        var m := FromBlock(x, init, i);
        BlockInPhase(x, init[m], before[i]);
      }
    }
  }

  lemma PhaseRange(op: Op)
    ensures 0 < Phase(op) < 255
  {
  }

  predicate InPhaseOrder(script: seq<Statement>) { forall i, j :: 0 <= i < j < |script| ==> script[i].phase <= script[j].phase }

  /** Along a script the phases never fall: a rebuild stands where the first entry of its table stands in the plan. */
  lemma ScriptAscends(source: Snapshot, target: Snapshot, entries: seq<Entry>, forced: set<string>)
    requires PhasesAscend(entries) && EmitScript(source, target, entries, forced).Ok?
    ensures InPhaseOrder(EmitScript(source, target, entries, forced).value.0)
  {
    EmitStops(source, target, entries, forced);
    hide EmissionOf, Blocks, Rebuilds, AllStatements, BlockPhase, EmitScript, PhasesAscend, Own, Phase, GroupOf, BlockKey, Ascend;
    var x, blocks := EmissionOf(source, target, entries), ScriptBlocks(source, target, entries, forced);
    StoppedNotOk(AllStatements(x, blocks));
    BlocksAscend(entries, entries, Rebuilds(source, target, entries, forced), {}, 0);
    StatementsAscend(x, blocks);
    var all, st := AllStatements(x, blocks).value, EmitScript(source, target, entries, forced).value.0;
    forall i | 0 <= i < |all| ensures 0 < all[i].phase < 255 {
      var m := FromBlock(x, blocks, i);
      var b := blocks[m];
      BlockInPhase(x, b, all[i]);
      BlockOrigin(source, target, entries, forced, b);
      if b.Direct? {
        DirectPhase(b.entry);
        PhaseRange(b.entry.op);
      } else {
        var first := Own(entries, BlockKey(b))[0];
        GroupPhase(entries, b.key, Phase(first.op));
        PhaseRange(first.op);
      }
    }
    if Rebuilds(source, target, entries, forced) != {} {
      assert forall i :: 0 < i < |st| - 1 ==> st[i] == all[i - 1];
    }
  }

  // ---- Accepted selections ----

  lemma FilterPhases(plan: seq<Entry>, p: Entry -> bool)
    requires PhasesAscend(plan)
    ensures PhasesAscend(Filter(plan, p))
  {
    hide Phase;
    var part := Filter(plan, p);
    forall a, b | 0 <= a < b < |part| ensures Phase(part[a].op) <= Phase(part[b].op) {
      var i, j := FilterBefore(plan, p, a, b);
    }
  }

  lemma PlanPhases(source: Snapshot, target: Snapshot, opts: Options)
    requires WfSnapshot(source) && WfSnapshot(target)
    ensures PhasesAscend(PlanOf(source, target, opts))
  {
    PlanIs(source, target, opts);
    DiffIsWholePlan(source, target, opts);
    hide PlanOf, Diff, Phase, WfSnapshot, DistinctTags, FromPlan, PhasesAscend;
  }

  lemma PickedPhases(plan: seq<Entry>, selected: seq<string>)
    requires PhasesAscend(plan)
    ensures PhasesAscend(Picked(plan, selected))
  {
    hide Phase, Id;
    FilterPhases(plan, PickedBy(selected));
  }

  lemma ReversePhases(source: Snapshot, target: Snapshot, opts: Options, entries: seq<Entry>)
    requires PhasesAscend(PlanOf(target, source, opts))
    ensures PhasesAscend(ReverseOf(source, target, opts, entries))
  {
    hide Phase, Id, PlanOf, MirrorIds;
    FilterPhases(PlanOf(target, source, opts), WithIds(set id | id in MirrorIds(entries)));
  }

  ghost predicate AllLabelled(source: Snapshot, target: Snapshot, entries: seq<Entry>, script: seq<Statement>) {
    forall i :: 0 <= i < |script| ==>
      if script[i].sql.PragmaForeignKeys? then Unlabelled(script[i]) else Labelled(source, target, entries, script[i])
  }

  lemma EmittedLabels(source: Snapshot, target: Snapshot, opts: Options, entries: seq<Entry>, forced: set<string>)
    requires WfSnapshot(source) && WfSnapshot(target) && (forall e :: e in entries ==> e in PlanOf(source, target, opts)) && PhasesAscend(entries)
    requires EmitScript(source, target, entries, forced).Ok?
    ensures AllLabelled(source, target, entries, EmitScript(source, target, entries, forced).value.0)
  {
    hide EmitScript, Unlabelled, Labelled, WfSnapshot, PhasesAscend, PlanOf;
    var script := EmitScript(source, target, entries, forced).value.0;
    forall i | 0 <= i < |script|
      ensures if script[i].sql.PragmaForeignKeys? then Unlabelled(script[i]) else Labelled(source, target, entries, script[i])
    {
      LabelsExactly(source, target, opts, entries, forced, i);
    }
  }

  /**
   * For every accepted selection: a statement of the script is irreversible exactly when an id it carries
   * loses values going from source to target, a statement of the rollback exactly when one does going back;
   * and both scripts are labelled with the tables, phases and cycles of what they carry, in the order of the phases.
   */
  lemma SelectionMarked(source: Snapshot, target: Snapshot, opts: Options, selected: seq<string>)
    requires WfPair(source, target)
    requires SelectEntries(source, target, PlanOf(source, target, opts), selected).Ok?
    requires Generate(source, target, Picked(PlanOf(source, target, opts), selected), opts).Ok?
    ensures var picked := Picked(PlanOf(source, target, opts), selected);
      var script, reverse := Generate(source, target, picked, opts).value, ReverseOf(source, target, opts, picked);
      && (forall st :: st in script.statements ==> (st.nonReversible <==> exists id :: id in st.entryIds && Loses(source, target, id)))
      && (forall st :: st in script.rollback ==> (st.nonReversible <==> exists id :: id in st.entryIds && Loses(target, source, id)))
      && AllLabelled(source, target, picked, script.statements) && AllLabelled(target, source, reverse, script.rollback)
      && InPhaseOrder(script.statements) && InPhaseOrder(script.rollback)
  {
    hide *;
    PairWf(source, target);
    WfPairSymmetric(source, target);
    PairWf(target, source);
    var plan := PlanOf(source, target, opts);
    PickedMembers(plan, selected);
    PlanPhases(source, target, opts);
    PickedPhases(plan, selected);
    PlanPhases(target, source, opts);
    var picked := Picked(plan, selected);
    ReversePhases(source, target, opts, picked);
    PartGenerates(source, target, opts, picked);
    ReversePart(source, target, opts, picked);
    var rebuild, reverse, script := Rebuilds(source, target, picked, {}), ReverseOf(source, target, opts, picked), Generate(source, target, picked, opts).value;
    EmittedLabels(source, target, opts, picked, {});
    EmittedLabels(target, source, opts, reverse, rebuild);
    ScriptAscends(source, target, picked, {});
    ScriptAscends(target, source, reverse, rebuild);
    LossLabelled(source, target, picked, script.statements);
    LossLabelled(target, source, reverse, script.rollback);
  }

  lemma LossLabelled(source: Snapshot, target: Snapshot, entries: seq<Entry>, script: seq<Statement>)
    requires AllLabelled(source, target, entries, script)
    ensures forall st :: st in script ==> (st.nonReversible <==> exists id :: id in st.entryIds && Loses(source, target, id))
  {
    hide Loses, Carries, OnCycle, PlanGraph, Lower, Phase, TableMap;
    forall st | st in script ensures st.nonReversible <==> exists id :: id in st.entryIds && Loses(source, target, id) {
      var i :| 0 <= i < |script| && script[i] == st;
    }
  }

  // ---- The graph behind the cycle mark ----

  /** An edge runs from a created table to another created table it references. */
  lemma CycleEdges(entries: seq<Entry>, tm: map<string, TableSnapshot>, a: string, b: string)
    ensures a in PlanGraph(entries, tm).deps && b in PlanGraph(entries, tm).deps[a]
      <==> && (exists e :: e in entries && e.op == CreateTable && Lower(e.table) == a)
           && (exists e :: e in entries && e.op == CreateTable && Lower(e.table) == b)
           && a in tm && a != b && exists f :: f in tm[a].foreignKeys && Lower(f.referencedTable) == b
  {
    hide CreateMap, Lower;
    CreatedKey(entries, a);
    CreatedKey(entries, b);
  }

  lemma CreatedKey(entries: seq<Entry>, k: string)
    ensures k in CreateMap(entries) <==> exists e :: e in entries && e.op == CreateTable && Lower(e.table) == k
  {
    hide CreateMap, Lower;
    CreateMapKeys(entries, k);
    FilterMember(entries, IsCreate);
    forall e ensures e in Creates(entries) <==> e in entries && e.op == CreateTable {
    }
  }
}
