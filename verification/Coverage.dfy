/// What an accepted selection becomes: every selected id on exactly one run of
/// consecutive statements, rebuilt tables whole, the rollback rebuilding what was rebuilt.
module Coverage {
  import opened Text
  import opened Sequences
  import opened TypeNames
  import opened Snapshots
  import opened Plan
  import opened PlanOrder
  import opened Mirror
  import opened Script
  import opened Database
  import opened Obstructions
  import opened Locality
  import opened Runs
  import opened WellFormed
  import opened PlanIds
  import opened ScriptUnits
  import opened PlanUnits
  import opened TableRuns
  import opened Convergence
  import opened FullScript
  import opened Rollback

  // ---- Which ids a block carries ----

  function BlockIds(b: Block): seq<string> { if b.Direct? then [Id(b.entry)] else b.ids }

  /** All ids of the blocks, block after block. */
  function CarriedIds(blocks: seq<Block>): seq<string> {
    if blocks == [] then [] else BlockIds(blocks[0]) + CarriedIds(blocks[1..])
  }

  lemma IdsConcat(a: seq<Entry>, b: seq<Entry>)
    ensures Ids(a + b) == Ids(a) + Ids(b)
  {
    hide Id;
    MapConcat(Id, a, b);
  }

  /** Entries of tables already emitted do not come again. */
  function NotDone(rebuild: set<string>, done: set<string>): Entry -> bool {
    (e: Entry) => !(Lower(e.table) in rebuild && Lower(e.table) in done)
  }

  lemma NotDoneCons(e: Entry, rest: seq<Entry>, rebuild: set<string>, done: set<string>)
    ensures Filter([e] + rest, NotDone(rebuild, done))
         == (if Lower(e.table) in rebuild && Lower(e.table) in done then [] else [e]) + Filter(rest, NotDone(rebuild, done))
  {
    hide Lower;
    FilterConcat([e], rest, NotDone(rebuild, done));
    FilterOne(e, NotDone(rebuild, done));
  }

  /** Opening the group of table k takes out exactly its entries. */
  lemma {:induction false} GroupTakes(entries: seq<Entry>, rebuild: set<string>, done: set<string>, k: string)
    requires k in rebuild && k !in done
    ensures multiset(Ids(Filter(entries, NotDone(rebuild, done))))
         == multiset(Ids(Own(entries, k))) + multiset(Ids(Filter(entries, NotDone(rebuild, done + {k}))))
  {
    hide Lower, Id, Filter, Own, Ids;
    if entries == [] {
      FilterNone(entries, NotDone(rebuild, done));
      FilterNone(entries, NotDone(rebuild, done + {k}));
      OwnNothing(k);
      NoIds();
    } else {
      var e, rest := entries[0], entries[1..];
      assert entries == [e] + rest;
      NotDoneCons(e, rest, rebuild, done);
      NotDoneCons(e, rest, rebuild, done + {k});
      OwnCons(e, rest, k);
      GroupTakes(rest, rebuild, done, k);
      IdsConcat([e], Filter(rest, NotDone(rebuild, done)));
      IdsConcat([e], Filter(rest, NotDone(rebuild, done + {k})));
      IdsConcat([e], Own(rest, k));
      EmptyConcat(Filter(rest, NotDone(rebuild, done)));
      EmptyConcat(Filter(rest, NotDone(rebuild, done + {k})));
      EmptyConcat(Own(rest, k));
    }
  }

  lemma EmptyConcat<T>(s: seq<T>)
    ensures [] + s == s
  {
  }

  lemma OwnNothing(k: string)
    ensures Own([], k) == []
  {
  }

  lemma NoIds()
    ensures Ids([]) == []
  {
  }

  lemma GroupIds(all: seq<Entry>, k: string, phase: nat)
    ensures BlockIds(GroupOf(all, k, phase)) == Ids(Own(all, k))
  {
  }

  /**
   * From any point of the loop: the blocks still to come carry the ids of the
   * entries still to come, those of a table opened later all at once.
   */
  lemma {:induction false} BlocksCarry(pre: seq<Entry>, entries: seq<Entry>, rebuild: set<string>, done: set<string>)
    requires forall e :: e in pre && Lower(e.table) in rebuild ==> Lower(e.table) in done
    ensures multiset(CarriedIds(Blocks(entries, pre + entries, rebuild, done)))
         == multiset(Ids(Filter(entries, NotDone(rebuild, done))))
    decreases |entries|
  {
    hide Lower, Id, Filter, Own, Ids, GroupOf;
    if entries == [] {
      FilterNone(entries, NotDone(rebuild, done));
      NoIds();
    } else {
      var e, rest, all := entries[0], entries[1..], pre + entries;
      assert entries == [e] + rest;
      assert all == (pre + [e]) + rest;
      var k := Lower(e.table);
      NotDoneCons(e, rest, rebuild, done);
      EmptyConcat(Filter(rest, NotDone(rebuild, done)));
      if k in rebuild {
        if k in done {
          BlocksCarry(pre + [e], rest, rebuild, done);
        } else {
          BlocksCarry(pre + [e], rest, rebuild, done + {k});
          GroupIds(all, k, Phase(e.op));
          GroupTakes(entries, rebuild, done, k);
          NotDoneCons(e, rest, rebuild, done + {k});
          EmptyConcat(Filter(rest, NotDone(rebuild, done + {k})));
          OwnBefore(pre, entries, k);
          CarryCons(GroupOf(all, k, Phase(e.op)), Blocks(rest, all, rebuild, done + {k}));
        }
      } else {
        BlocksCarry(pre + [e], rest, rebuild, done);
        CarryCons(Direct(e), Blocks(rest, all, rebuild, done));
        IdsConcat([e], Filter(rest, NotDone(rebuild, done)));
        OneId(e);
      }
    }
  }

  lemma CarryCons(b: Block, rest: seq<Block>)
    ensures multiset(CarriedIds([b] + rest)) == multiset(BlockIds(b)) + multiset(CarriedIds(rest))
  {
    hide BlockIds;
    assert ([b] + rest)[1..] == rest;
  }

  lemma OneId(e: Entry)
    ensures Ids([e]) == [Id(e)] && BlockIds(Direct(e)) == [Id(e)]
  {
  }

  /** No earlier entry belongs to a table whose group has not been opened. */
  lemma OwnBefore(pre: seq<Entry>, entries: seq<Entry>, k: string)
    requires forall e :: e in pre ==> Lower(e.table) != k
    ensures Own(pre + entries, k) == Own(entries, k)
  {
    hide Lower;
    FilterConcat(pre, entries, OnTable(k));
    FilterNone(pre, OnTable(k));
  }

  /** The script's blocks carry every entry's id, each once. */
  lemma ScriptCarries(source: Snapshot, target: Snapshot, entries: seq<Entry>, forced: set<string>)
    ensures multiset(CarriedIds(ScriptBlocks(source, target, entries, forced))) == multiset(Ids(entries))
  {
    hide Lower, Ids, Rebuilds, Blocks, CarriedIds;
    var rebuild := Rebuilds(source, target, entries, forced);
    BlocksCarry([], entries, rebuild, {});
    EmptyConcat(entries);
    FilterKeepsAll(entries, NotDone(rebuild, {}));
  }

  // ---- Accepted selections ----

  /** What SelectEntries accepts: ids of the plan, and rebuilt tables whole. */
  lemma Accepted(source: Snapshot, target: Snapshot, plan: seq<Entry>, selected: seq<string>)
    ensures var r := SelectEntries(source, target, plan, selected);
      && (r.Ok? <==> (forall id :: id in selected ==> id in Ids(plan))
                     && forall e :: e in plan && Lower(e.table) in SelectedRebuilds(source, target, Picked(plan, selected)) ==> Id(e) in selected)
      && (r.Ok? ==> r.value == Picked(plan, selected))
  {
    hide Ids, Id, Lower, SelectedRebuilds, Picked;
  }

  lemma PickedMembers(plan: seq<Entry>, selected: seq<string>)
    ensures forall e :: e in Picked(plan, selected) <==> e in plan && Id(e) in selected
  {
    hide Id;
    FilterMember(plan, PickedBy(selected));
  }

  /** The two rebuild sets agree: the selection check and the script look at the same tables. */
  lemma SelectedIs(source: Snapshot, target: Snapshot, picked: seq<Entry>)
    ensures SelectedRebuilds(source, target, picked) == Rebuilds(source, target, picked, {})
  {
    hide NeedsRebuild, TableMap, Lower, CyclicSet, TakenNames;
  }

  /** A rebuilt table's group holds every plan entry of the table. */
  lemma GroupsWhole(source: Snapshot, target: Snapshot, plan: seq<Entry>, selected: seq<string>, k: string)
    requires SelectEntries(source, target, plan, selected).Ok? && k in Rebuilds(source, target, Picked(plan, selected), {})
    ensures Own(Picked(plan, selected), k) == Own(plan, k)
  {
    Accepted(source, target, plan, selected);
    SelectedIs(source, target, Picked(plan, selected));
    hide SelectEntries, Id, Lower, Rebuilds, SelectedRebuilds, Ids;
    OwnOfPicked(plan, selected, k);
  }

  lemma {:induction false} OwnOfPicked(plan: seq<Entry>, selected: seq<string>, k: string)
    requires forall e :: e in plan && Lower(e.table) == k ==> Id(e) in selected
    ensures Own(Picked(plan, selected), k) == Own(plan, k)
  {
    hide Id, Lower;
    if plan != [] {
      var init, e := plan[..|plan| - 1], plan[|plan| - 1];
      assert plan == init + [e];
      OwnOfPicked(init, selected, k);
      PickedSnoc(init, e, selected);
      OwnSnoc(init, e, k);
      OwnSnoc(Picked(init, selected), e, k);
    }
  }

  lemma PickedSnoc(init: seq<Entry>, e: Entry, selected: seq<string>)
    ensures Picked(init + [e], selected) == if Id(e) in selected then Picked(init, selected) + [e] else Picked(init, selected)
  {
    hide Id;
    FilterConcat(init, [e], PickedBy(selected));
    FilterOne(e, PickedBy(selected));
  }

  lemma OwnSnoc(init: seq<Entry>, e: Entry, k: string)
    ensures Own(init + [e], k) == if Lower(e.table) == k then Own(init, k) + [e] else Own(init, k)
  {
    hide Lower;
    FilterConcat(init, [e], OnTable(k));
    FilterOne(e, OnTable(k));
  }

  lemma {:induction false} PickedIdsOnce(plan: seq<Entry>, selected: seq<string>)
    requires NoRepeats(Ids(plan))
    ensures NoRepeats(Ids(Picked(plan, selected)))
  {
    hide Id;
    FilterNoRepeats(plan, Id, PickedBy(selected));
  }

  // ---- Generate accepts any part of the plan ----

  lemma PartChosen(source: Snapshot, target: Snapshot, opts: Options, entries: seq<Entry>, forced: set<string>)
    requires WfPair(source, target) && (forall e :: e in entries ==> e in PlanOf(source, target, opts))
    requires forced <= TableMap(source).Keys * TableMap(target).Keys
    ensures Chosen(source, target, opts, entries, forced)
  {
    PairWf(source, target);
    PlanIs(source, target, opts);
    DiffIsWholePlan(source, target, opts);
    hide WfPair, Diff, PlanOf, TableMap, FromPlan, WfSnapshot, DistinctTags, PhasesAscend, Comparable;
  }

  /** The rollback entries of a selection: the reverse plan's entries whose ids mirror a selected one. */
  function ReverseOf(source: Snapshot, target: Snapshot, opts: Options, entries: seq<Entry>): seq<Entry> {
    Filter(PlanOf(target, source, opts), WithIds(set id | id in MirrorIds(entries)))
  }

  lemma ReversePart(source: Snapshot, target: Snapshot, opts: Options, entries: seq<Entry>)
    ensures forall e :: e in ReverseOf(source, target, opts, entries) <==>
      e in PlanOf(target, source, opts) && Id(e) in MirrorIds(entries)
  {
    hide PlanOf, MirrorIds, Id;
    FilterMember(PlanOf(target, source, opts), WithIds(set id | id in MirrorIds(entries)));
  }

  /** Any part of the plan generates, or panics on the default of a column added directly. */
  lemma PartGenerates(source: Snapshot, target: Snapshot, opts: Options, entries: seq<Entry>)
    requires WfPair(source, target) && forall e :: e in entries ==> e in PlanOf(source, target, opts)
    ensures var rebuild, reverse, g := Rebuilds(source, target, entries, {}), ReverseOf(source, target, opts, entries), Generate(source, target, entries, opts);
      && rebuild <= TableMap(target).Keys * TableMap(source).Keys
      && if !NoStubsBothWays(source, target, entries, reverse) then g == Panic else
         && EmitScript(source, target, entries, {}).Ok? && EmitScript(target, source, reverse, rebuild).Ok?
         && var back := EmitScript(target, source, reverse, rebuild).value;
         && back.1 == Rebuilds(target, source, reverse, rebuild)
         && g == Ok(ScriptResult(EmitScript(source, target, entries, {}).value.0, back.0, rebuild != {} || back.1 != {}, true))
  {
    hide *;
    PairWf(source, target);
    WfPairSymmetric(source, target);
    PlanIs(source, target, opts);
    PlanIs(target, source, opts);
    SupportedPair(source, target);
    NothingForced(source, target);
    PartChosen(source, target, opts, entries, {});
    ChosenEmits(source, target, opts, entries, {});
    RebuildsBoth(source, target, opts, entries, {});
    var rebuild, reverse := Rebuilds(source, target, entries, {}), ReverseOf(source, target, opts, entries);
    ReversePart(source, target, opts, entries);
    SwapBoth(source, target, rebuild);
    PartChosen(target, source, opts, reverse, rebuild);
    ChosenEmits(target, source, opts, reverse, rebuild);
    ReverseIs(source, target, opts, entries);
    BothWaysIs(source, target, entries, reverse);
    GenerateParts(source, target, entries, opts);
    PanicStopped(EmitScript(target, source, reverse, rebuild));
  }

  lemma ReverseIs(source: Snapshot, target: Snapshot, opts: Options, entries: seq<Entry>)
    ensures ReverseOf(source, target, opts, entries) == Filter(PlanOf(target, source, opts), WithIds(set id | id in MirrorIds(entries)))
  {
    hide PlanOf, MirrorIds, Filter;
  }

  lemma SwapBoth(source: Snapshot, target: Snapshot, keys: set<string>)
    requires keys <= TableMap(source).Keys * TableMap(target).Keys
    ensures keys <= TableMap(target).Keys * TableMap(source).Keys
  {
    hide TableMap;
  }

  /** What is rebuilt forward is rebuilt back, for every part of the plan. */
  lemma PartRebuiltBack(source: Snapshot, target: Snapshot, opts: Options, entries: seq<Entry>)
    requires WfPair(source, target) && forall e :: e in entries ==> e in PlanOf(source, target, opts)
    ensures var rebuild := Rebuilds(source, target, entries, {});
      rebuild <= Rebuilds(target, source, ReverseOf(source, target, opts, entries), rebuild)
  {
    PairWf(source, target);
    ReversePart(source, target, opts, entries);
    var rebuild := Rebuilds(source, target, entries, {});
    hide WfPair, WfSnapshot, Diff, NeedsRebuild, PlanOf, TableMap, CyclicSet, TakenNames, Lower, ReverseOf, MirrorIds;
    forall k | k in rebuild ensures k in Rebuilds(target, source, ReverseOf(source, target, opts, entries), rebuild) {
      var e :| e in entries && Lower(e.table) == k;
      MirrorEntry(source, target, opts, e);
      var r :| r in PlanOf(target, source, opts) && TagOf(r) == MirrorTag(e);
      MirroredIdIn(entries, e, r);
      assert r in ReverseOf(source, target, opts, entries) && Lower(r.table) == k;
    }
  }

  lemma MirroredIdIn(entries: seq<Entry>, e: Entry, r: Entry)
    requires e in entries && TagOf(r) == MirrorTag(e)
    ensures Id(r) in MirrorIds(entries)
  {
    MirrorIdsByTag(entries);
    IdIsTag(r);
    hide IdOf, TagOf, MirrorTag, Id, MirrorId;
    MapMember(MirrorTag, entries, MirrorTag(e));
    MapMember(IdOf, Map(MirrorTag, entries), IdOf(MirrorTag(e)));
  }

  // ---- Statements ----

  function BlockLossy(b: Block): bool { if b.Direct? then NonReversible(b.entry) else b.nr }

  /** A block's statements carry its ids and its irreversibility. */
  lemma BlockCarries(x: Emission, b: Block)
    requires BlockStatements(x, b).Ok?
    ensures var st := BlockStatements(x, b).value;
      st != [] && forall i :: 0 <= i < |st| ==> st[i].entryIds == BlockIds(b) && st[i].nonReversible == BlockLossy(b)
  {
    hide DirectSql, TmpNameOf, TableBodyOf, CommonColumns, UserIndexes, OrderedColumns, Lower, CreateIndexOf, NonReversible, Id;
  }

  /** Where block j's statements stand, and that every other statement comes from another block. */
  lemma {:induction false} BlockRange(x: Emission, blocks: seq<Block>, j: nat) returns (lo: nat, hi: nat)
    requires AllStatements(x, blocks).Ok? && j < |blocks|
    ensures var st := AllStatements(x, blocks).value;
      && BlockStatements(x, blocks[j]).Ok? && lo < hi <= |st| && st[lo..hi] == BlockStatements(x, blocks[j]).value
      && forall i :: 0 <= i < |st| && !(lo <= i < hi) ==> exists m :: 0 <= m < |blocks| && m != j && st[i].entryIds == BlockIds(blocks[m])
  {
    hide BlockStatements, BlockIds, BlockLossy;
    var init, last := blocks[..|blocks| - 1], blocks[|blocks| - 1];
    var before, own := AllStatements(x, init).value, BlockStatements(x, last).value;
    var st := AllStatements(x, blocks).value;
    BlockCarries(x, last);
    if j == |blocks| - 1 {
      lo, hi := |before|, |st|;
      forall i | 0 <= i < |before| ensures exists m :: 0 <= m < |blocks| && m != j && st[i].entryIds == BlockIds(blocks[m]) {
        var m := FromBlock(x, init, i);
        assert blocks[m] == init[m];
      }
    } else {
      lo, hi := BlockRange(x, init, j);
      assert st[lo..hi] == before[lo..hi];
      forall i | 0 <= i < |st| && !(lo <= i < hi) ensures exists m :: 0 <= m < |blocks| && m != j && st[i].entryIds == BlockIds(blocks[m]) {
        if i < |before| {
          var m :| 0 <= m < |init| && m != j && before[i].entryIds == BlockIds(init[m]);
          assert blocks[m] == init[m];
        } else {
          assert st[i] == own[i - |before|] && blocks[|blocks| - 1] == last;
        }
      }
    }
  }

  lemma {:induction false} FromBlock(x: Emission, blocks: seq<Block>, i: nat) returns (m: nat)
    requires AllStatements(x, blocks).Ok? && i < |AllStatements(x, blocks).value|
    ensures var st := AllStatements(x, blocks).value[i];
      m < |blocks| && st.entryIds == BlockIds(blocks[m]) && BlockStatements(x, blocks[m]).Ok? && st in BlockStatements(x, blocks[m]).value
  {
    hide BlockStatements, BlockIds, BlockLossy;
    var init, last := blocks[..|blocks| - 1], blocks[|blocks| - 1];
    var before := AllStatements(x, init).value;
    if i < |before| {
      m := FromBlock(x, init, i);
    } else {
      BlockCarries(x, last);
      m := |blocks| - 1;
      assert AllStatements(x, blocks).value[i] == BlockStatements(x, last).value[i - |before|];
    }
  }

  lemma {:induction false} CarriedIn(blocks: seq<Block>, j: nat, id: string)
    requires j < |blocks| && id in BlockIds(blocks[j])
    ensures id in CarriedIds(blocks)
  {
    hide BlockIds;
    if j > 0 {
      CarriedIn(blocks[1..], j - 1, id);
    }
  }

  lemma {:induction false} IdsApart(blocks: seq<Block>, j: nat, m: nat, id: string)
    requires NoRepeats(CarriedIds(blocks)) && j < m < |blocks| && id in BlockIds(blocks[j])
    ensures id !in BlockIds(blocks[m])
  {
    hide BlockIds;
    var first, rest := BlockIds(blocks[0]), CarriedIds(blocks[1..]);
    assert CarriedIds(blocks) == first + rest;
    if j > 0 {
      assert forall a, b :: 0 <= a < b < |rest| ==> rest[a] == (first + rest)[|first| + a] && rest[b] == (first + rest)[|first| + b];
      IdsApart(blocks[1..], j - 1, m - 1, id);
    } else {
      RepeatsNot(first, rest, id);
      if id in BlockIds(blocks[m]) {
        CarriedIn(blocks[1..], m - 1, id);
      }
    }
  }

  lemma RepeatsNot(a: seq<string>, b: seq<string>, x: string)
    requires NoRepeats(a + b) && x in a
    ensures x !in b
  {
    var i :| 0 <= i < |a| && a[i] == x;
    forall j | 0 <= j < |b| ensures b[j] != x {
      assert (a + b)[i] != (a + b)[|a| + j];
    }
  }

  /** What an entry becomes: one direct statement, or its table's whole rebuild with the ids of all the table's entries. */
  ghost predicate Becomes(x: Emission, entries: seq<Entry>, rebuild: set<string>, e: Entry, run: seq<Statement>) {
    var k := Lower(e.table);
    if k in rebuild then
      && k in x.src && k in x.tgt && Sqls(run) == UnitSqls(RebuildUnit(x.kind, k, x.src[k], x.tgt[k], x.taken))
      && forall i :: 0 <= i < |run| ==> run[i].entryIds == Ids(Own(entries, k))
    else |run| == 1 && run[0].entryIds == [Id(e)] && EntrySql(x, e) == Ok(run[0].sql)
  }

  /** Exactly the statements lo..hi carry the entry's id, and they are what it becomes. */
  ghost predicate CarriedAt(x: Emission, entries: seq<Entry>, rebuild: set<string>, e: Entry, st: seq<Statement>, lo: nat, hi: nat) {
    && lo < hi <= |st| && (forall i :: 0 <= i < |st| ==> (Id(e) in st[i].entryIds <==> lo <= i < hi))
    && Becomes(x, entries, rebuild, e, st[lo..hi])
  }

  ghost predicate CarriedOnce(x: Emission, entries: seq<Entry>, rebuild: set<string>, e: Entry, st: seq<Statement>) {
    exists lo: nat, hi: nat :: CarriedAt(x, entries, rebuild, e, st, lo, hi)
  }

  /** The block an entry belongs to. */
  lemma EntryBlock(source: Snapshot, target: Snapshot, entries: seq<Entry>, forced: set<string>, e: Entry) returns (j: nat)
    requires e in entries
    ensures var blocks, rebuild, k := ScriptBlocks(source, target, entries, forced), Rebuilds(source, target, entries, forced), Lower(e.table);
      && j < |blocks| && Id(e) in BlockIds(blocks[j])
      && if k in rebuild then blocks[j].Group? && blocks[j].key == k && blocks[j].ids == Ids(Own(entries, k)) else blocks[j] == Direct(e)
  {
    hide Rebuilds, Filter, Own, Id, Lower, Blocks, AnyNonReversible, Phase, Ids, ScriptBlocks;
    var k, blocks := Lower(e.table), ScriptBlocks(source, target, entries, forced);
    OwnMembers(entries, k);
    ScriptBlocksAre(source, target, entries, forced, k);
    FilterMember(blocks, OfKey(k));
    var own := Own(entries, k);
    var i :| 0 <= i < |own| && own[i] == e;
    var b := if k in Rebuilds(source, target, entries, forced) then GroupOf(entries, k, Phase(own[0].op)) else Direct(e);
    if k in Rebuilds(source, target, entries, forced) {
      assert b in Filter(blocks, OfKey(k));
      GroupParts(entries, k, Phase(own[0].op));
      MapMember(Id, own, Id(e));
    } else {
      assert Map(DirectBlock, own)[i] == Direct(e);
      assert Direct(e) in Filter(blocks, OfKey(k));
    }
    j :| 0 <= j < |blocks| && blocks[j] == b;
  }

  lemma GroupParts(entries: seq<Entry>, k: string, phase: nat)
    ensures var b := GroupOf(entries, k, phase); b.Group? && b.key == k && b.phase == phase && b.ids == Map(Id, Own(entries, k)) == Ids(Own(entries, k))
  {
    hide Id, Filter, AnyNonReversible;
  }

  lemma BlockBecomes(x: Emission, entries: seq<Entry>, rebuild: set<string>, e: Entry, b: Block)
    requires BlockStatements(x, b).Ok?
    requires var k := Lower(e.table);
      if k in rebuild then b.Group? && b.key == k && b.ids == Ids(Own(entries, k)) else b == Direct(e)
    ensures Becomes(x, entries, rebuild, e, BlockStatements(x, b).value)
  {
    BlockCarries(x, b);
    BlockSqls(x, b);
    hide DirectSql, Lower, Id, Own, UnitSqls, RebuildStatements, NonReversible, TmpNameOf, TableBodyOf, CommonColumns, OrderedColumns, UserIndexes;
  }

  /** Each entry's id is on exactly one run of consecutive statements, which is what the entry becomes. */
  lemma BodyCarries(source: Snapshot, target: Snapshot, entries: seq<Entry>, forced: set<string>, e: Entry) returns (lo: nat, hi: nat)
    requires NoRepeats(Ids(entries)) && e in entries
    requires AllStatements(EmissionOf(source, target, entries), ScriptBlocks(source, target, entries, forced)).Ok?
    ensures CarriedAt(EmissionOf(source, target, entries), entries, Rebuilds(source, target, entries, forced), e,
                      AllStatements(EmissionOf(source, target, entries), ScriptBlocks(source, target, entries, forced)).value, lo, hi)
  {
    hide EmissionOf, Blocks, Rebuilds, Ids, Id, Lower, AllStatements, BlockStatements, BlockIds, CarriedIds, Becomes, Own, ScriptBlocks, NoRepeats, BlockLossy;
    var x, blocks, rebuild := EmissionOf(source, target, entries), ScriptBlocks(source, target, entries, forced), Rebuilds(source, target, entries, forced);
    var st := AllStatements(x, blocks).value;
    var j := EntryBlock(source, target, entries, forced, e);
    ScriptCarries(source, target, entries, forced);
    PermutedNoRepeats(Ids(entries), CarriedIds(blocks));
    lo, hi := BlockRange(x, blocks, j);
    BlockCarries(x, blocks[j]);
    BlockBecomes(x, entries, rebuild, e, blocks[j]);
    forall i | 0 <= i < |st| ensures Id(e) in st[i].entryIds <==> lo <= i < hi {
      if lo <= i < hi {
        assert st[lo..hi][i - lo] == st[i];
      } else {
        var m :| 0 <= m < |blocks| && m != j && st[i].entryIds == BlockIds(blocks[m]);
        if j < m {
          IdsApart(blocks, j, m, Id(e));
        } else if Id(e) in BlockIds(blocks[m]) {
          IdsApart(blocks, m, j, Id(e));
        }
      }
    }
  }

  lemma WrappedCarries(x: Emission, entries: seq<Entry>, rebuild: set<string>, e: Entry, out: seq<Statement>, lo: nat, hi: nat)
    requires CarriedAt(x, entries, rebuild, e, out, lo, hi)
    ensures CarriedOnce(x, entries, rebuild, e, Wrapped(out, rebuild))
  {
    hide Becomes, Id;
    var st := Wrapped(out, rebuild);
    if rebuild == {} {
      assert CarriedAt(x, entries, rebuild, e, st, lo, hi);
    } else {
      assert st[lo + 1..hi + 1] == out[lo..hi];
      assert CarriedAt(x, entries, rebuild, e, st, lo + 1, hi + 1);
    }
  }

  /**
   * In the emitted script each entry's id is on exactly one run of consecutive statements: its own
   * direct statement, or the whole rebuild of its table, with the ids of all of that table's entries.
   */
  lemma StatementsCarry(source: Snapshot, target: Snapshot, entries: seq<Entry>, forced: set<string>, e: Entry)
    requires NoRepeats(Ids(entries)) && e in entries && EmitScript(source, target, entries, forced).Ok?
    ensures CarriedOnce(EmissionOf(source, target, entries), entries, Rebuilds(source, target, entries, forced), e,
                        EmitScript(source, target, entries, forced).value.0)
  {
    hide *;
    EmitStops(source, target, entries, forced);
    var x, all := EmissionOf(source, target, entries), AllStatements(EmissionOf(source, target, entries), ScriptBlocks(source, target, entries, forced));
    StoppedNotOk(all);
    var lo, hi := BodyCarries(source, target, entries, forced, e);
    WrappedCarries(x, entries, Rebuilds(source, target, entries, forced), e, all.value, lo, hi);
  }

  lemma StoppedNotOk(all: Outcome<seq<Statement>>)
    ensures !all.Ok? ==> !Stopped<seq<Statement>, (seq<Statement>, set<string>)>(all).Ok?
  {
  }

  /** Every id on a statement is that of an entry. */
  lemma OnlyEntries(source: Snapshot, target: Snapshot, entries: seq<Entry>, forced: set<string>)
    requires EmitScript(source, target, entries, forced).Ok?
    ensures var st := EmitScript(source, target, entries, forced).value.0;
      forall i, id :: 0 <= i < |st| && id in st[i].entryIds ==> id in Ids(entries)
  {
    EmitStops(source, target, entries, forced);
    var x, blocks := EmissionOf(source, target, entries), ScriptBlocks(source, target, entries, forced);
    StoppedNotOk(AllStatements(x, blocks));
    hide EmissionOf, Blocks, Rebuilds, Ids, AllStatements, BlockIds, CarriedIds, ScriptBlocks, EmitScript;
    var all, st := AllStatements(x, blocks).value, EmitScript(source, target, entries, forced).value.0;
    ScriptCarries(source, target, entries, forced);
    forall i, id | 0 <= i < |all| && id in all[i].entryIds ensures id in Ids(entries) {
      var m := FromBlock(x, blocks, i);
      CarriedIn(blocks, m, id);
      assert id in multiset(CarriedIds(blocks));
    }
    forall i, id | 0 <= i < |st| && id in st[i].entryIds ensures id in Ids(entries) {
      if Rebuilds(source, target, entries, forced) != {} {
        assert 0 < i < |st| - 1;
        assert st[i] == all[i - 1];
      }
    }
  }

  // ---- The theorem ----

  lemma SelectedIds(plan: seq<Entry>, selected: seq<string>)
    requires forall id :: id in selected ==> id in Ids(plan)
    ensures forall id :: id in Ids(Picked(plan, selected)) <==> id in selected
  {
    PickedMembers(plan, selected);
    hide Id, Picked;
    forall id ensures id in Ids(Picked(plan, selected)) <==> id in selected {
      MapMember(Id, Picked(plan, selected), id);
      MapMember(Id, plan, id);
    }
  }

  lemma SameOwn(x: Emission, plan: seq<Entry>, picked: seq<Entry>, rebuild: set<string>, e: Entry, st: seq<Statement>)
    requires CarriedOnce(x, picked, rebuild, e, st) && (Lower(e.table) in rebuild ==> Own(picked, Lower(e.table)) == Own(plan, Lower(e.table)))
    ensures CarriedOnce(x, plan, rebuild, e, st)
  {
    hide Lower, Id, Own, UnitSqls, RebuildUnit, EntrySql, Sqls;
    var lo: nat, hi: nat :| CarriedAt(x, picked, rebuild, e, st, lo, hi);
    assert CarriedAt(x, plan, rebuild, e, st, lo, hi);
  }

  /**
   * An accepted selection generates, or panics on the default of a column added directly.  Every selected
   * entry's id is on exactly one run of consecutive statements of the forward script: its own direct
   * statement, or the whole rebuild of its table with the ids of all of the table's plan entries; no
   * other ids occur; and the rollback rebuilds what was rebuilt.
   */
  lemma SelectionCovered(source: Snapshot, target: Snapshot, opts: Options, selected: seq<string>)
    requires WfPair(source, target)
    requires SelectEntries(source, target, PlanOf(source, target, opts), selected).Ok?
    ensures var plan, picked := PlanOf(source, target, opts), SelectEntries(source, target, PlanOf(source, target, opts), selected).value;
      var rebuild, reverse := Rebuilds(source, target, picked, {}), ReverseOf(source, target, opts, picked);
      var x, g := EmissionOf(source, target, picked), Generate(source, target, picked, opts);
      && (forall id :: id in selected ==> exists e :: e in plan && Id(e) == id)
      && (if !NoStubsBothWays(source, target, picked, reverse) then g == Panic else
          && g.Ok?
          && (forall e :: e in plan && Id(e) in selected ==> CarriedOnce(x, plan, rebuild, e, g.value.statements))
          && (forall i, id :: 0 <= i < |g.value.statements| && id in g.value.statements[i].entryIds ==> id in selected))
      && rebuild <= Rebuilds(target, source, reverse, rebuild)
  {
    hide *;
    PairWf(source, target);
    PlanIs(source, target, opts);
    PlanIdsDistinct(source, target, opts);
    var plan := PlanOf(source, target, opts);
    Accepted(source, target, plan, selected);
    PickedMembers(plan, selected);
    var picked := Picked(plan, selected);
    PartGenerates(source, target, opts, picked);
    PartRebuiltBack(source, target, opts, picked);
    PickedIdsOnce(plan, selected);
    SelectedIds(plan, selected);
    forall id | id in selected ensures exists e :: e in plan && Id(e) == id {
      MapMember(Id, plan, id);
      IdsIs(plan);
    }
    if NoStubsBothWays(source, target, picked, ReverseOf(source, target, opts, picked)) {
      OnlyEntries(source, target, picked, {});
      forall e | e in plan && Id(e) in selected
        ensures CarriedOnce(EmissionOf(source, target, picked), plan, Rebuilds(source, target, picked, {}), e, EmitScript(source, target, picked, {}).value.0)
      {
        StatementsCarry(source, target, picked, {}, e);
        if Lower(e.table) in Rebuilds(source, target, picked, {}) {
          GroupsWhole(source, target, plan, selected, Lower(e.table));
        }
        SameOwn(EmissionOf(source, target, picked), plan, picked, Rebuilds(source, target, picked, {}), e, EmitScript(source, target, picked, {}).value.0);
      }
    }
  }

  // ---- The pragma bracket ----

  predicate NoPragma(statements: seq<Statement>) { forall i :: 0 <= i < |statements| ==> !statements[i].sql.PragmaForeignKeys? }

  lemma BlockNoPragma(x: Emission, b: Block)
    ensures var r := BlockStatements(x, b); r.Ok? ==> NoPragma(r.value)
  {
    hide TmpNameOf, TableBodyOf, CommonColumns, UserIndexes, OrderedColumns, Lower, FindIndex, ColumnOf, IndexColumns, IndexExecName, NonReversible,
      DropIndexName, ColumnDefOf, Trim;
  }

  lemma {:induction false} BodyNoPragma(x: Emission, blocks: seq<Block>)
    ensures var r := AllStatements(x, blocks); r.Ok? ==> NoPragma(r.value)
  {
    hide BlockStatements;
    if blocks != [] {
      BodyNoPragma(x, blocks[..|blocks| - 1]);
      BlockNoPragma(x, blocks[|blocks| - 1]);
    }
  }

  /** The pragma pair brackets a script exactly when it rebuilds something, and stands nowhere else. */
  lemma BracketIffRebuild(source: Snapshot, target: Snapshot, entries: seq<Entry>, forced: set<string>)
    ensures var out := EmitScript(source, target, entries, forced);
      out.Ok? ==>
        var (statements, rebuild) := out.value;
        if rebuild == {} then NoPragma(statements)
        else exists body :: statements == [PRAGMA_OFF] + body + [PRAGMA_ON] && NoPragma(body)
  {
    hide AllStatements, RebuildSet, Blocks, EmissionOf, NoPragma;
    var x := EmissionOf(source, target, entries);
    var blocks := Blocks(entries, entries, RebuildSet(x, entries, forced), {});
    BodyNoPragma(x, blocks);
  }

  predicate HasPragma(statements: seq<Statement>) { exists st :: st in statements && st.sql.PragmaForeignKeys? }

  lemma PragmaIffRebuild(source: Snapshot, target: Snapshot, entries: seq<Entry>, forced: set<string>)
    ensures var out := EmitScript(source, target, entries, forced); out.Ok? ==> (HasPragma(out.value.0) <==> out.value.1 != {})
  {
    hide EmitScript;
    BracketIffRebuild(source, target, entries, forced);
    var out := EmitScript(source, target, entries, forced);
    if out.Ok? && out.value.1 != {} {
      assert out.value.0[0] == PRAGMA_OFF;
    }
  }

  /** Only databases of one kind compare, Redis never; and a script is generated for SQLite on both sides alone. */
  lemma OtherKindsRefused(source: Snapshot, target: Snapshot, entries: seq<Entry>, opts: Options)
    ensures Diff(source, target, opts).Ok? <==> source.kind == target.kind != Redis
    ensures !(source.kind == target.kind == Sqlite) ==> Generate(source, target, entries, opts) == Fail
  {
    hide EmitScript, OrderEntries, Collected, MirrorIds, Filter;
  }

  lemma DiffComparable(source: Snapshot, target: Snapshot, opts: Options)
    requires Supported(source, target)
    ensures Diff(target, source, opts).Ok?
  {
    hide OrderEntries, Collected;
  }

  /** The script has pragmas to be run outside the transaction exactly when a PRAGMA stands in it or in its rollback. */
  lemma PragmasOutside(source: Snapshot, target: Snapshot, entries: seq<Entry>, opts: Options)
    ensures var g := Generate(source, target, entries, opts);
      g.Ok? ==> g.value.ddlInTx && (g.value.pragmasOutsideTx <==> HasPragma(g.value.statements) || HasPragma(g.value.rollback))
  {
    hide EmitScript, Diff, MirrorIds, Filter, HasPragma;
    var forward := EmitScript(source, target, entries, {});
    if Supported(source, target) && forward.Ok? {
      DiffComparable(source, target, opts);
      PragmaIffRebuild(source, target, entries, {});
      var reverse := Filter(Diff(target, source, opts).value, WithIds(set id | id in MirrorIds(entries)));
      PragmaIffRebuild(target, source, reverse, forward.value.1);
    }
  }
}
