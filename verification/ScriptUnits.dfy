/// From the emitted statements to units: what each block does to its own table.
module ScriptUnits {
  import opened Text
  import opened Sequences
  import opened TypeNames
  import opened Snapshots
  import opened Plan
  import opened PlanOrder
  import opened Mirror
  import opened Script
  import opened Database
  import opened Locality
  import opened Runs
  import opened WellFormed
  import opened Shape
  import opened Agreement
  import opened InPlaceTables
  import opened InPlaceRuns

  function SqlOf(s: Statement): Sql { s.sql }

  function Sqls(statements: seq<Statement>): seq<Sql> { Map(SqlOf, statements) }

  function BlockKey(b: Block): string { if b.Direct? then Lower(b.entry.table) else b.key }

  function RebuildUnit(kind: DatabaseKind, k: string, s: TableSnapshot, t: TableSnapshot, taken: set<string>): Unit {
    Rebuild(k, TmpNameOf(t.name, taken), s.name, t.name, TableBodyOf(kind, t),
            CommonColumns(s, OrderedColumns(t)), CreateIndexes(t, UserIndexes(t)))
  }

  function EntrySql(x: Emission, e: Entry): Outcome<Sql> {
    DirectSql(x.kind, e, Lookup(x.src, Lower(e.table)), Lookup(x.tgt, Lower(e.table)))
  }

  predicate BlockOk(x: Emission, b: Block) {
    match b
    case Direct(e) => EntrySql(x, e).Ok?
    case Group(k, _, _, _) => k in x.src && k in x.tgt
  }

  function UnitOf(x: Emission, b: Block): Unit
    requires BlockOk(x, b)
  {
    match b
    case Direct(e) => Single(Lower(e.table), EntrySql(x, e).value)
    case Group(k, _, _, _) => RebuildUnit(x.kind, k, x.src[k], x.tgt[k], x.taken)
  }

  predicate BlocksOk(x: Emission, blocks: seq<Block>) { forall i :: 0 <= i < |blocks| ==> BlockOk(x, blocks[i]) }

  function UnitsOf(x: Emission, blocks: seq<Block>): (r: seq<Unit>)
    requires BlocksOk(x, blocks)
    ensures |r| == |blocks| && forall i :: 0 <= i < |r| ==> r[i] == UnitOf(x, blocks[i])
  {
    seq(|blocks|, i requires 0 <= i < |blocks| => UnitOf(x, blocks[i]))
  }

  lemma UnitOfKey(x: Emission, b: Block)
    requires BlockOk(x, b)
    ensures UnitOf(x, b).key == BlockKey(b)
  {
    hide EntrySql, TmpNameOf, TableBodyOf, CommonColumns, UserIndexes, CreateIndexes, Lower, OrderedColumns;
  }

  // ---- Statements are the units' statements ----

  lemma BlockSqls(x: Emission, b: Block)
    ensures var r := BlockStatements(x, b);
      && (r.Ok? <==> BlockOk(x, b))
      && (r.Ok? ==> Sqls(r.value) == UnitSqls(UnitOf(x, b)))
  {
    hide DirectSql, TmpNameOf, TableBodyOf, CommonColumns, UserIndexes, OrderedColumns, Lower, CreateIndexOf, NonReversible;
    if b.Group? && BlockOk(x, b) {
      var s, t := x.src[b.key], x.tgt[b.key];
      var idxs := UserIndexes(t);
      var stmts := IndexStatements(t, idxs, b.ids, b.phase, b.nr);
      assert Sqls(stmts) == CreateIndexes(t, idxs);
      var head := RebuildStatements(x.kind, t, s, x.taken, b.ids, b.phase, b.nr)[..4];
      MapConcat(SqlOf, head, stmts);
    }
  }

  lemma {:induction false} StatementSqls(x: Emission, blocks: seq<Block>)
    ensures var r := AllStatements(x, blocks);
      && (r.Ok? <==> BlocksOk(x, blocks))
      && (r.Ok? ==> Sqls(r.value) == AllSqls(UnitsOf(x, blocks)))
  {
    hide BlockOk, BlockStatements, UnitSqls, UnitOf;
    if blocks != [] {
      var init, last := blocks[..|blocks| - 1], blocks[|blocks| - 1];
      StatementSqls(x, init);
      BlockSqls(x, last);
      assert forall i :: 0 <= i < |init| ==> init[i] == blocks[i];
      if AllStatements(x, blocks).Ok? {
        MapConcat(SqlOf, AllStatements(x, init).value, BlockStatements(x, last).value);
        var us := UnitsOf(x, blocks);
        assert us[..|us| - 1] == UnitsOf(x, init);
      }
    }
  }

  /** Where no entry is refused, one that panics makes the whole emission panic. */
  lemma {:induction false} PanicStops(x: Emission, blocks: seq<Block>)
    requires forall i :: 0 <= i < |blocks| ==> !BlockStatements(x, blocks[i]).Fail?
    ensures AllStatements(x, blocks).Ok? || (AllStatements(x, blocks) == Panic && exists i :: 0 <= i < |blocks| && BlockStatements(x, blocks[i]) == Panic)
  {
    hide BlockStatements;
    if blocks != [] {
      var init := blocks[..|blocks| - 1];
      assert forall i :: 0 <= i < |init| ==> init[i] == blocks[i];
      PanicStops(x, init);
    }
  }

  // ---- The blocks of one table ----

  function OfKey(k: string): Block -> bool { (b: Block) => BlockKey(b) == k }

  function DirectBlock(e: Entry): Block { Direct(e) }

  function Own(entries: seq<Entry>, k: string): seq<Entry> { Filter(entries, OnTable(k)) }

  lemma OwnCons(e: Entry, rest: seq<Entry>, k: string)
    ensures Own([e] + rest, k) == (if Lower(e.table) == k then [e] else []) + Own(rest, k)
  {
    hide Lower;
    FilterConcat([e], rest, OnTable(k));
    FilterOne(e, OnTable(k));
  }

  lemma KeyCons(b: Block, rest: seq<Block>, k: string)
    ensures Filter([b] + rest, OfKey(k)) == (if BlockKey(b) == k then [b] else []) + Filter(rest, OfKey(k))
  {
    hide BlockKey;
    FilterConcat([b], rest, OfKey(k));
    FilterOne(b, OfKey(k));
  }

  /** An untouched-by-rebuild table's blocks are its entries, one by one. */
  lemma {:induction false} DirectBlocks(entries: seq<Entry>, all: seq<Entry>, rebuild: set<string>, done: set<string>, k: string)
    requires k !in rebuild
    ensures Filter(Blocks(entries, all, rebuild, done), OfKey(k)) == Map(DirectBlock, Own(entries, k))
  {
    if entries != [] {
      var e, rest := entries[0], entries[1..];
      hide Lower, Own, Filter, GroupOf;
      assert entries == [e] + rest;
      OwnCons(e, rest, k);
      var l := Lower(e.table);
      if l in rebuild {
        if l in done {
          DirectBlocks(rest, all, rebuild, done, k);
        } else {
          var g := GroupOf(all, l, Phase(e.op));
          GroupKey(all, l, Phase(e.op));
          KeyCons(g, Blocks(rest, all, rebuild, done + {l}), k);
          DirectBlocks(rest, all, rebuild, done + {l}, k);
        }
      } else {
        KeyCons(Direct(e), Blocks(rest, all, rebuild, done), k);
        DirectBlocks(rest, all, rebuild, done, k);
        MapConcat(DirectBlock, if l == k then [e] else [], Own(rest, k));
      }
    }
  }

  lemma GroupKey(all: seq<Entry>, k: string, phase: nat)
    ensures BlockKey(GroupOf(all, k, phase)) == k
  {
  }

  /** A rebuilt table has one block, standing where its first entry stands. */
  lemma {:induction false} GroupBlocks(entries: seq<Entry>, all: seq<Entry>, rebuild: set<string>, done: set<string>, k: string)
    requires k in rebuild
    ensures Filter(Blocks(entries, all, rebuild, done), OfKey(k))
         == if k in done || Own(entries, k) == [] then [] else [GroupOf(all, k, Phase(Own(entries, k)[0].op))]
  {
    if entries != [] {
      var e, rest := entries[0], entries[1..];
      hide Lower, Own, Filter, GroupOf;
      assert entries == [e] + rest;
      OwnCons(e, rest, k);
      var l := Lower(e.table);
      if l in rebuild {
        if l in done {
          GroupBlocks(rest, all, rebuild, done, k);
        } else {
          var g := GroupOf(all, l, Phase(e.op));
          GroupKey(all, l, Phase(e.op));
          KeyCons(g, Blocks(rest, all, rebuild, done + {l}), k);
          GroupBlocks(rest, all, rebuild, done + {l}, k);
        }
      } else {
        KeyCons(Direct(e), Blocks(rest, all, rebuild, done), k);
        GroupBlocks(rest, all, rebuild, done, k);
      }
    }
  }

  // ---- One table's run only sees its own blocks ----

  lemma SnocOk(w: Names, x: Emission, blocks: seq<Block>, b: Block)
    ensures BlocksOk(x, blocks + [b]) <==> BlocksOk(x, blocks) && BlockOk(x, b)
    ensures BlocksOk(x, blocks + [b]) ==>
      && UnitsOf(x, blocks + [b]) == UnitsOf(x, blocks) + [UnitOf(x, b)]
      && (UnitsOk(w, UnitsOf(x, blocks + [b])) <==> UnitsOk(w, UnitsOf(x, blocks)) && UnitOk(w, UnitOf(x, b)))
  {
    hide BlockOk, UnitOf, UnitOk;
    var all := blocks + [b];
    assert forall i :: 0 <= i < |blocks| ==> all[i] == blocks[i];
    assert all[|blocks|] == b;
    if BlocksOk(x, all) {
      assert UnitsOf(x, all) == UnitsOf(x, blocks) + [UnitOf(x, b)];
      assert UnitsOf(x, all)[|blocks|] == UnitOf(x, b);
      assert forall i :: 0 <= i < |blocks| ==> UnitsOf(x, all)[i] == UnitsOf(x, blocks)[i];
    }
  }

  lemma SnocRun(w: Names, x: Emission, blocks: seq<Block>, b: Block, k: string, ot: Option<Table>)
    requires BlocksOk(x, blocks) && BlockOk(x, b) && UnitsOk(w, UnitsOf(x, blocks)) && UnitOk(w, UnitOf(x, b))
    ensures BlocksOk(x, blocks + [b]) && UnitsOk(w, UnitsOf(x, blocks + [b]))
    ensures TableRun(w, UnitsOf(x, blocks + [b]), k, ot)
      == var before := TableRun(w, UnitsOf(x, blocks), k, ot);
         if before.None? || BlockKey(b) != k then before else UnitStep(w, UnitOf(x, b), before.value)
  {
    SnocOk(w, x, blocks, b);
    hide BlockOk, UnitOf, UnitOk, UnitStep, UnitsOf, BlocksOk, UnitsOk, BlockKey;
    UnitOfKey(x, b);
    var us := UnitsOf(x, blocks);
    assert (us + [UnitOf(x, b)])[..|us|] == us;
  }

  lemma KeySnoc(init: seq<Block>, b: Block, k: string)
    ensures Filter(init + [b], OfKey(k)) == if BlockKey(b) == k then Filter(init, OfKey(k)) + [b] else Filter(init, OfKey(k))
  {
    hide BlockKey;
    FilterConcat(init, [b], OfKey(k));
    FilterOne(b, OfKey(k));
  }

  /** The run of table k over these blocks. */
  ghost predicate SameRun(w: Names, x: Emission, a: seq<Block>, b: seq<Block>, k: string, ot: Option<Table>) {
    && BlocksOk(x, a) && UnitsOk(w, UnitsOf(x, a)) && BlocksOk(x, b) && UnitsOk(w, UnitsOf(x, b))
    && TableRun(w, UnitsOf(x, a), k, ot) == TableRun(w, UnitsOf(x, b), k, ot)
  }

  lemma SameRunSnoc(w: Names, x: Emission, a: seq<Block>, b: seq<Block>, last: Block, k: string, ot: Option<Table>)
    requires SameRun(w, x, a, b, k, ot) && BlockOk(x, last) && UnitOk(w, UnitOf(x, last))
    ensures if BlockKey(last) == k then SameRun(w, x, a + [last], b + [last], k, ot) else SameRun(w, x, a + [last], b, k, ot)
  {
    hide BlockOk, UnitOf, UnitOk, UnitStep, BlockKey, TableRun, BlocksOk, UnitsOk, UnitsOf;
    SnocRun(w, x, a, last, k, ot);
    if BlockKey(last) == k {
      SnocRun(w, x, b, last, k, ot);
    }
  }

  lemma EmptyRun(w: Names, x: Emission, k: string, ot: Option<Table>)
    ensures SameRun(w, x, [], [], k, ot)
  {
    assert BlocksOk(x, []) && UnitsOf(x, []) == [];
  }

  lemma {:induction false} FilteredRun(w: Names, x: Emission, blocks: seq<Block>, k: string, ot: Option<Table>)
    requires BlocksOk(x, blocks) && UnitsOk(w, UnitsOf(x, blocks))
    ensures SameRun(w, x, blocks, Filter(blocks, OfKey(k)), k, ot)
  {
    hide BlockOk, UnitOf, UnitOk, UnitStep, BlockKey, TableRun, BlocksOk, UnitsOk, UnitsOf, Filter, SameRun;
    if blocks == [] {
      FilterNone(blocks, OfKey(k));
      EmptyRun(w, x, k, ot);
    } else {
      var init, last := blocks[..|blocks| - 1], blocks[|blocks| - 1];
      assert blocks == init + [last];
      SnocOk(w, x, init, last);
      FilteredRun(w, x, init, k, ot);
      SameRunSnoc(w, x, init, Filter(init, OfKey(k)), last, k, ot);
      KeySnoc(init, last, k);
    }
  }
}
