/// The emission loop, the selection check and Generate as the program runs them.
module Emitter {
  import opened Text
  import opened Sequences
  import opened TypeNames
  import opened Snapshots
  import opened Graph
  import opened Plan
  import opened PlanOrder
  import opened Mirror
  import opened Script
  import opened ScriptUnits
  import opened Runs
  import opened Locality
  import opened TableRuns
  import opened Coverage
  import opened Generator

  // ---- Rebuild statements ----

  method CommonNames(src: TableSnapshot, cols: seq<ColumnInfo>) returns (common: seq<string>)
    ensures common == CommonColumns(src, cols)
  {
    hide ColumnMap, Lower;
    var sc := ColumnMap(src);
    common := [];
    for i := 0 to |cols|
      invariant common + CommonColumns(src, cols[i..]) == CommonColumns(src, cols)
    {
      assert cols[i..][1..] == cols[i + 1..];
      if Lower(cols[i].name) in sc {
        common := common + [cols[i].name];
      }
    }
  }

  method UserIndexList(t: TableSnapshot) returns (user: seq<IndexInfo>)
    ensures user == UserIndexes(t)
  {
    hide IsAutoIndex;
    var found: seq<IndexInfo> := [];
    for i := 0 to |t.indexes|
      invariant found == Filter(t.indexes[..i], IsUserIndex)
    {
      assert t.indexes[..i + 1][..i] == t.indexes[..i];
      var idx := t.indexes[i];
      if idx.primary || IsAutoIndex(idx.name) {
        continue;
      }
      found := found + [idx];
    }
    assert t.indexes[..|t.indexes|] == t.indexes;
    user := SortBy(BeforeExecName(t), found);
  }

  method EmitRebuild(kind: DatabaseKind, tgt: TableSnapshot, src: TableSnapshot, taken: set<string>, ids: seq<string>, phase: nat, nr: bool)
    returns (out: seq<Statement>)
    ensures out == RebuildStatements(kind, tgt, src, taken, ids, phase, nr)
  {
    hide TmpNameOf, TableBodyOf, CommonColumns, UserIndexes, OrderedColumns, CreateIndexOf;
    var tmp := TmpName(tgt.name, taken);
    var common := CommonNames(src, OrderedColumns(tgt));
    out := [Stmt(ids, CreateTableSql(tmp, TableBodyOf(kind, tgt)), phase, tgt.name, nr),
            Stmt(ids, InsertSelect(tmp, common, src.name), phase, tgt.name, nr),
            Stmt(ids, DropTableSql(src.name), phase, tgt.name, nr),
            Stmt(ids, RenameSql(tmp, tgt.name), phase, tgt.name, nr)];
    ghost var head := out;
    var user := UserIndexList(tgt);
    for i := 0 to |user|
      invariant out == head + IndexStatements(tgt, user[..i], ids, phase, nr)
    {
      assert IndexStatements(tgt, user[..i + 1], ids, phase, nr)
        == IndexStatements(tgt, user[..i], ids, phase, nr) + [Stmt(ids, CreateIndexOf(tgt, user[i]), phase, tgt.name, nr)];
      out := out + [Stmt(ids, CreateIndexOf(tgt, user[i]), phase, tgt.name, nr)];
    }
    assert user[..|user|] == user;
  }

  // ---- Which tables to rebuild, and what their groups absorb ----

  method FindRebuilds(x: Emission, entries: seq<Entry>, forced: set<string>) returns (rebuild: set<string>)
    ensures rebuild == RebuildSet(x, entries, forced)
  {
    hide NeedsRebuild, Lower;
    rebuild := {};
    for i := 0 to |entries|
      invariant rebuild == RebuildSet(x, entries[..i], forced)
    {
      var e := entries[i];
      var k := Lower(e.table);
      assert forall y :: y in entries[..i + 1] <==> y in entries[..i] || y == e;
      if k in forced || NeedsRebuild(e, Lookup(x.src, k), Lookup(x.tgt, k)) {
        rebuild := rebuild + {k};
      }
    }
    assert entries[..|entries|] == entries;
  }

  datatype Absorbed = Absorbed(ids: seq<string>, phase: nat, nr: bool)

  function AbsorbedOf(entries: seq<Entry>, k: string): Absorbed
    requires Own(entries, k) != []
  {
    var own := Own(entries, k);
    Absorbed(Ids(own), Phase(own[0].op), AnyNonReversible(own))
  }

  /** The groups of the rebuilt tables met so far. */
  predicate GroupsAre(groups: map<string, Absorbed>, entries: seq<Entry>, rebuild: set<string>) {
    && groups.Keys <= rebuild
    && forall k :: k in rebuild ==>
         (k in groups <==> Own(entries, k) != []) && (k in groups ==> groups[k] == AbsorbedOf(entries, k))
  }

  lemma AbsorbNext(pre: seq<Entry>, e: Entry)
    ensures var k := Lower(e.table);
      && Own(pre + [e], k) != []
      && AbsorbedOf(pre + [e], k) ==
           if Own(pre, k) == [] then Absorbed([Id(e)], Phase(e.op), NonReversible(e))
           else Absorbed(AbsorbedOf(pre, k).ids + [Id(e)], AbsorbedOf(pre, k).phase, AbsorbedOf(pre, k).nr || NonReversible(e))
  {
    hide Lower, Id, Filter, NonReversible;
    var k := Lower(e.table);
    OwnSnoc(pre, e, k);
    IdsConcat(Own(pre, k), [e]);
    OneId(e);
    NoIds();
    AnyNext(Own(pre, k), e);
  }

  lemma AnyNext(own: seq<Entry>, e: Entry)
    ensures AnyNonReversible(own + [e]) <==> AnyNonReversible(own) || NonReversible(e)
  {
    hide NonReversible;
    var all := own + [e];
    assert all[|own|] == e;
    assert forall i :: 0 <= i < |own| ==> all[i] == own[i];
  }

  lemma OthersSame(pre: seq<Entry>, e: Entry, l: string)
    requires Lower(e.table) != l
    ensures Own(pre + [e], l) == Own(pre, l)
  {
    hide Lower;
    OwnSnoc(pre, e, l);
  }

  method Absorb(entries: seq<Entry>, rebuild: set<string>) returns (groups: map<string, Absorbed>)
    ensures GroupsAre(groups, entries, rebuild)
  {
    hide Lower, Id, NonReversible, Own, Phase;
    groups := map[];
    NoneOwned(rebuild);
    for i := 0 to |entries|
      invariant GroupsAre(groups, entries[..i], rebuild)
    {
      var e := entries[i];
      var k := Lower(e.table);
      assert entries[..i + 1] == entries[..i] + [e];
      forall l | l in rebuild && l != k ensures Own(entries[..i + 1], l) == Own(entries[..i], l) {
        OthersSame(entries[..i], e, l);
      }
      if k !in rebuild {
        continue;
      }
      AbsorbNext(entries[..i], e);
      var g := if k in groups then groups[k] else Absorbed([], Phase(e.op), false);
      groups := groups[k := Absorbed(g.ids + [Id(e)], g.phase, g.nr || NonReversible(e))];
    }
    assert entries[..|entries|] == entries;
  }

  lemma NoneOwned(rebuild: set<string>)
    ensures forall k :: k in rebuild ==> Own([], k) == []
  {
  }

  // ---- The emission loop ----

  /** The first block that is refused or panics decides the outcome. */
  lemma {:induction false} BlockStops(x: Emission, done: seq<Block>, b: Block, rest: seq<Block>)
    requires AllStatements(x, done).Ok? && !BlockStatements(x, b).Ok?
    ensures AllStatements(x, done + ([b] + rest)) == BlockStatements(x, b)
  {
    hide BlockStatements;
    var all := done + ([b] + rest);
    if rest == [] {
      assert all[..|all| - 1] == done;
    } else {
      assert all[..|all| - 1] == done + ([b] + rest[..|rest| - 1]);
      BlockStops(x, done, b, rest[..|rest| - 1]);
    }
  }

  lemma EmitNext(x: Emission, blocks: seq<Block>, b: Block)
    requires AllStatements(x, blocks).Ok? && BlockStatements(x, b).Ok?
    ensures AllStatements(x, blocks + [b]) == Ok(AllStatements(x, blocks).value + BlockStatements(x, b).value)
  {
    hide BlockStatements;
    assert (blocks + [b])[..|blocks|] == blocks;
  }

  lemma OneMore(blocks: seq<Block>, b: Block, rest: seq<Block>)
    ensures blocks + ([b] + rest) == (blocks + [b]) + rest
  {
  }

  lemma NothingYet(x: Emission)
    ensures AllStatements(x, []) == Ok([])
  {
  }

  /** The first entry of a table is the first of its own entries. */
  lemma FirstOwn(entries: seq<Entry>, i: nat, k: string)
    requires i < |entries| && Lower(entries[i].table) == k && forall j :: 0 <= j < i ==> Lower(entries[j].table) != k
    ensures Own(entries, k) != [] && Own(entries, k)[0] == entries[i]
  {
    hide Lower, Own;
    var pre, rest := entries[..i], entries[i + 1..];
    assert entries == pre + ([entries[i]] + rest);
    forall e | e in pre ensures Lower(e.table) != k {
      var j :| 0 <= j < i && entries[j] == e;
    }
    OwnBefore(pre, [entries[i]] + rest, k);
    OwnCons(entries[i], rest, k);
  }

  /** The group standing at entry i, as the absorbed data gives it. */
  lemma GroupAt(entries: seq<Entry>, i: nat, rebuild: set<string>, groups: map<string, Absorbed>)
    requires i < |entries| && GroupsAre(groups, entries, rebuild)
    requires forall j :: 0 <= j < i ==> Lower(entries[j].table) != Lower(entries[i].table)
    ensures var e := entries[i]; var k := Lower(e.table);
      k in rebuild ==> k in groups && GroupOf(entries, k, Phase(e.op)) == Group(k, groups[k].ids, groups[k].phase, groups[k].nr)
  {
    hide Lower, Filter, Phase, AnyNonReversible, Ids;
    FirstOwn(entries, i, Lower(entries[i].table));
  }

  lemma InGroups(entries: seq<Entry>, i: nat, rebuild: set<string>, groups: map<string, Absorbed>)
    requires i < |entries| && GroupsAre(groups, entries, rebuild)
    ensures Lower(entries[i].table) in groups <==> Lower(entries[i].table) in rebuild
  {
    hide Lower, Own;
    OwnMembers(entries, Lower(entries[i].table));
    assert entries[i] in entries;
    assert entries[i] in Own(entries, Lower(entries[i].table));
  }

  lemma GroupIs(x: Emission, k: string, g: Absorbed)
    ensures BlockStatements(x, Group(k, g.ids, g.phase, g.nr)) ==
      if k !in x.tgt || k !in x.src then Fail
      else Ok(RebuildStatements(x.kind, x.tgt[k], x.src[k], x.taken, g.ids, g.phase, g.nr))
  {
    hide RebuildStatements;
  }

  lemma DirectIs(x: Emission, e: Entry)
    ensures BlockStatements(x, Direct(e)) ==
      var k := Lower(e.table);
      var sql := DirectSql(x.kind, e, Lookup(x.src, k), Lookup(x.tgt, k));
      if !sql.Ok? then Stopped(sql)
      else Ok([Statement([Id(e)], sql.value, Phase(e.op), e.table, NonReversible(e), e.op == CreateTable && k in x.cyclic)])
  {
    hide DirectSql, Lower, Id;
  }

  lemma BlocksAt(entries: seq<Entry>, i: nat, rebuild: set<string>, done: set<string>)
    requires i < |entries|
    ensures var e := entries[i]; var k := Lower(e.table);
      Blocks(entries[i..], entries, rebuild, done) ==
        if k in rebuild && k in done then Blocks(entries[i + 1..], entries, rebuild, done)
        else if k in rebuild then [GroupOf(entries, k, Phase(e.op))] + Blocks(entries[i + 1..], entries, rebuild, done + {k})
        else [Direct(e)] + Blocks(entries[i + 1..], entries, rebuild, done)
  {
    hide Lower, GroupOf;
    assert entries[i..][1..] == entries[i + 1..];
  }

  method EmitBlocks(x: Emission, entries: seq<Entry>, rebuild: set<string>, groups: map<string, Absorbed>) returns (r: Outcome<seq<Statement>>)
    requires GroupsAre(groups, entries, rebuild)
    ensures r == AllStatements(x, Blocks(entries, entries, rebuild, {}))
  {
    hide AllStatements, BlockStatements, Lower, NonReversible, Id, RebuildStatements, DirectSql, GroupsAre, Blocks, GroupOf, Phase;
    var out: seq<Statement> := [];
    var done: set<string> := {};
    ghost var all := Blocks(entries, entries, rebuild, {});
    ghost var blocks: seq<Block> := [];
    NothingYet(x);
    assert entries[0..] == entries;
    for i := 0 to |entries|
      invariant AllStatements(x, blocks) == Ok(out)
      invariant all == blocks + Blocks(entries[i..], entries, rebuild, done)
      invariant done <= rebuild && forall j :: 0 <= j < i && Lower(entries[j].table) in rebuild ==> Lower(entries[j].table) in done
    {
      var e := entries[i];
      var k := Lower(e.table);
      BlocksAt(entries, i, rebuild, done);
      InGroups(entries, i, rebuild, groups);
      if k in groups {
        if k in done {
          continue;
        }
        GroupAt(entries, i, rebuild, groups);
        done := done + {k};
        var g := groups[k];
        ghost var b := GroupOf(entries, k, Phase(e.op));
        GroupIs(x, k, g);
        if k !in x.tgt || k !in x.src {
          BlockStops(x, blocks, b, Blocks(entries[i + 1..], entries, rebuild, done));
          return Fail;
        }
        var group := EmitRebuild(x.kind, x.tgt[k], x.src[k], x.taken, g.ids, g.phase, g.nr);
        EmitNext(x, blocks, b);
        OneMore(blocks, b, Blocks(entries[i + 1..], entries, rebuild, done));
        out := out + group;
        blocks := blocks + [b];
        continue;
      }
      DirectIs(x, e);
      var sql := DirectSql(x.kind, e, Lookup(x.src, k), Lookup(x.tgt, k));
      if !sql.Ok? {
        BlockStops(x, blocks, Direct(e), Blocks(entries[i + 1..], entries, rebuild, done));
        return Stopped(sql);
      }
      EmitNext(x, blocks, Direct(e));
      OneMore(blocks, Direct(e), Blocks(entries[i + 1..], entries, rebuild, done));
      out := out + [Statement([Id(e)], sql.value, Phase(e.op), e.table, NonReversible(e), e.op == CreateTable && k in x.cyclic)];
      blocks := blocks + [Direct(e)];
    }
    NoneLeft(entries, rebuild, done);
    assert all == blocks;
    r := Ok(out);
  }

  lemma NoneLeft(entries: seq<Entry>, rebuild: set<string>, done: set<string>)
    ensures Blocks(entries[|entries|..], entries, rebuild, done) == []
  {
  }

  method BuildViewMap(s: Snapshot) returns (m: map<string, TableSnapshot>)
    ensures m == ViewMap(s)
  {
    m := map[];
    for i := 0 to |s.tables|
      invariant m == FirstWins(s.tables[..i], TableKey, IsView)
    {
      var t := s.tables[i];
      assert s.tables[..i + 1][..i] == s.tables[..i];
      if !IsView(t) {
        continue;
      }
      var k := Lower(t.name);
      if k !in m {
        m := m[k := t];
      }
    }
    assert s.tables[..|s.tables|] == s.tables;
  }

  method CyclicKeysOf(entries: seq<Entry>, tm: map<string, TableSnapshot>) returns (cyclic: set<string>)
    ensures cyclic == CyclicSet(entries, tm)
  {
    hide OnCycle, CreateMap, NoRepeats, CyclicKeys, SortedKeys;
    var byKey := BuildCreateMap(entries);
    var g := CreateGraph(byKey.Keys, tm);
    var keys := FkCycleKeys(g);
    cyclic := set k | k in keys;
    forall k ensures k in cyclic <==> k in CyclicSet(entries, tm) {
      CycleNode(g, k);
    }
  }

  /** emitScript: the statements of one direction and the tables it rebuilds. */
  method Emit(source: Snapshot, target: Snapshot, entries: seq<Entry>, forced: set<string>) returns (r: Outcome<(seq<Statement>, set<string>)>)
    ensures r == EmitScript(source, target, entries, forced)
  {
    hide TableMap, ViewMap, RebuildSet, GroupsAre, AllStatements, Blocks, CyclicSet;
    var src := BuildTableMap(source);
    var tgt := BuildTableMap(target);
    var sv := BuildViewMap(source);
    var tv := BuildViewMap(target);
    var taken := src.Keys + tgt.Keys + sv.Keys + tv.Keys;
    var cyclic := CyclicKeysOf(entries, tgt);
    var x := Emission(source.kind, src, tgt, taken, cyclic);
    assert x == EmissionOf(source, target, entries);
    var rebuild := FindRebuilds(x, entries, forced);
    var groups := Absorb(entries, rebuild);
    var out := EmitBlocks(x, entries, rebuild, groups);
    if !out.Ok? {
      return Stopped(out);
    }
    if |rebuild| == 0 {
      return Ok((out.value, rebuild));
    }
    var wrapped := [PRAGMA_OFF];
    wrapped := wrapped + out.value;
    wrapped := wrapped + [PRAGMA_ON];
    r := Ok((wrapped, rebuild));
  }

  // ---- Generate ----

  method MirroredIds(entries: seq<Entry>) returns (want: set<string>)
    ensures want == set id | id in MirrorIds(entries)
  {
    hide MirrorId, Id;
    want := {};
    for i := 0 to |entries|
      invariant want == set id | id in MirrorIds(entries[..i])
    {
      assert MirrorIds(entries[..i + 1]) == MirrorIds(entries[..i]) + [MirrorId(Id(entries[i]))];
      want := want + {MirrorId(Id(entries[i]))};
    }
    assert entries[..|entries|] == entries;
  }

  method KeepIds(entries: seq<Entry>, want: set<string>) returns (kept: seq<Entry>)
    ensures kept == Filter(entries, WithIds(want))
  {
    hide Id;
    kept := [];
    for i := 0 to |entries|
      invariant kept == Filter(entries[..i], WithIds(want))
    {
      assert entries[..i + 1][..i] == entries[..i];
      if Id(entries[i]) in want {
        kept := kept + [entries[i]];
      }
    }
    assert entries[..|entries|] == entries;
  }

  /** After the kind check the reverse comparison cannot be refused. */
  lemma ComparableDiffs(source: Snapshot, target: Snapshot, opts: Options)
    ensures Comparable(source, target) ==> Diff(source, target, opts).Ok?
  {
  }

  /** Generate: the forward script, then the rollback of the mirrored entries, rebuilding again what was rebuilt. */
  method GenerateScript(source: Snapshot, target: Snapshot, entries: seq<Entry>, opts: Options) returns (r: Outcome<ScriptResult>)
    ensures r == Generate(source, target, entries, opts)
  {
    hide EmitScript, Diff, MirrorIds, Filter;
    if source.kind == Redis || target.kind == Redis || source.kind != target.kind || source.kind != Sqlite {
      return Fail;
    }
    var forward := Emit(source, target, entries, {});
    if !forward.Ok? {
      return Stopped(forward);
    }
    var want := MirroredIds(entries);
    var rev := Compare(target, source, opts);
    ComparableDiffs(target, source, opts);
    var reverse := KeepIds(rev.value, want);
    var back := Emit(target, source, reverse, forward.value.1);
    if !back.Ok? {
      return Stopped(back);
    }
    r := Ok(ScriptResult(forward.value.0, back.value.0, forward.value.1 != {} || back.value.1 != {}, true));
  }

  // ---- SelectEntries ----

  /** SelectEntries: refuse stale ids, pick in plan order, refuse a rebuilt table picked in part. */
  method Select(source: Snapshot, target: Snapshot, plan: seq<Entry>, selected: seq<string>) returns (r: Outcome<seq<Entry>>)
    ensures r == SelectEntries(source, target, plan, selected)
  {
    hide TableMap, RebuildSet, Id, Lower, Filter, Ids;
    var inPlan: set<string> := {};
    NoIds();
    for i := 0 to |plan|
      invariant inPlan == set id | id in Ids(plan[..i])
    {
      IdsNext(plan, i);
      inPlan := inPlan + {Id(plan[i])};
    }
    assert plan[..|plan|] == plan;
    for i := 0 to |selected|
      invariant forall j :: 0 <= j < i ==> selected[j] in inPlan
    {
      if selected[i] !in inPlan {
        assert Stale(plan, selected);
        return Fail;
      }
    }
    var want := set id | id in selected;
    var picked: seq<Entry> := [];
    FilterNone(plan[..0], PickedBy(selected));
    for i := 0 to |plan|
      invariant picked == Picked(plan[..i], selected)
    {
      assert plan[..i + 1] == plan[..i] + [plan[i]];
      PickedSnoc(plan[..i], plan[i], selected);
      if Id(plan[i]) in want {
        picked := picked + [plan[i]];
      }
    }
    var src := BuildTableMap(source);
    var tgt := BuildTableMap(target);
    var rebuild := FindRebuilds(Emission(source.kind, src, tgt, {}, {}), picked, {});
    assert rebuild == SelectedRebuilds(source, target, picked);
    for i := 0 to |plan|
      invariant forall j :: 0 <= j < i ==> Lower(plan[j].table) !in rebuild || Id(plan[j]) in selected
    {
      if Lower(plan[i].table) in rebuild && Id(plan[i]) !in want {
        assert plan[i] in plan;
        return Fail;
      }
    }
    r := Ok(picked);
  }

  lemma IdsNext(plan: seq<Entry>, i: nat)
    requires i < |plan|
    ensures Ids(plan[..i + 1]) == Ids(plan[..i]) + [Id(plan[i])]
  {
    assert plan[..i + 1] == plan[..i] + [plan[i]];
    IdsConcat(plan[..i], [plan[i]]);
    OneId(plan[i]);
  }
}
