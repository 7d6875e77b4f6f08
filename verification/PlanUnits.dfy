/// Every unit a script is made of stays within its own table's names.
module PlanUnits {
  import opened Text
  import opened Sequences
  import opened TypeNames
  import opened Snapshots
  import opened Plan
  import opened PlanOrder
  import opened Mirror
  import opened Script
  import opened Database
  import opened Locality
  import opened Runs
  import opened WellFormed
  import opened Shape
  import opened Agreement
  import opened InPlaceTables
  import opened ScriptUnits

  /** Entries taken from the plan of a well-formed pair, and tables forced to be rebuilt. */
  ghost predicate Chosen(source: Snapshot, target: Snapshot, opts: Options, entries: seq<Entry>, forced: set<string>) {
    && WfPair(source, target)
    && (forall e :: e in entries ==> FromPlan(Sqlite, TableMap(source), TableMap(target), opts, e))
    && forced <= TableMap(source).Keys * TableMap(target).Keys
  }

  ghost function Rebuilds(source: Snapshot, target: Snapshot, entries: seq<Entry>, forced: set<string>): set<string> {
    RebuildSet(EmissionOf(source, target, entries), entries, forced)
  }

  ghost function ScriptBlocks(source: Snapshot, target: Snapshot, entries: seq<Entry>, forced: set<string>): seq<Block> {
    Blocks(entries, entries, Rebuilds(source, target, entries, forced), {})
  }

  lemma NeedsBoth(sm: map<string, TableSnapshot>, tm: map<string, TableSnapshot>, opts: Options, e: Entry)
    requires FromPlan(Sqlite, sm, tm, opts, e) && NeedsRebuild(e, Lookup(sm, Lower(e.table)), Lookup(tm, Lower(e.table)))
    ensures Lower(e.table) in sm && Lower(e.table) in tm
  {
    hide Lower, DiffTable, IndexNeedsRebuild, InSomeIndex, ColumnOf, Trim;
  }

  lemma RebuildsBoth(source: Snapshot, target: Snapshot, opts: Options, entries: seq<Entry>, forced: set<string>)
    requires Chosen(source, target, opts, entries, forced)
    ensures Rebuilds(source, target, entries, forced) <= TableMap(source).Keys * TableMap(target).Keys
  {
    hide WfPair, Lower, FromPlan, NeedsRebuild, TableMap, CyclicSet, TakenNames;
    forall k | k in Rebuilds(source, target, entries, forced) ensures k in TableMap(source) && k in TableMap(target) {
      var e :| e in entries && Lower(e.table) == k
        && (k in forced || NeedsRebuild(e, Lookup(TableMap(source), k), Lookup(TableMap(target), k)));
      if k !in forced {
        NeedsBoth(TableMap(source), TableMap(target), opts, e);
      }
    }
  }

  lemma NotRebuilt(source: Snapshot, target: Snapshot, entries: seq<Entry>, forced: set<string>, e: Entry)
    requires e in entries && Lower(e.table) !in Rebuilds(source, target, entries, forced)
    ensures !NeedsRebuild(e, Lookup(TableMap(source), Lower(e.table)), Lookup(TableMap(target), Lower(e.table)))
  {
    hide Lower, NeedsRebuild, TableMap, CyclicSet, TakenNames;
  }

  /** A block is a direct statement of a table that is not rebuilt, or the group of one that is. */
  predicate BlockFrom(entries: seq<Entry>, rebuild: set<string>, b: Block) {
    if b.Direct? then b.entry in entries && Lower(b.entry.table) !in rebuild else b.key in rebuild
  }

  lemma {:induction false} BlocksFrom(entries: seq<Entry>, all: seq<Entry>, rebuild: set<string>, done: set<string>)
    ensures forall i :: 0 <= i < |Blocks(entries, all, rebuild, done)| ==> BlockFrom(entries, rebuild, Blocks(entries, all, rebuild, done)[i])
  {
    hide Lower, Ids, Filter, AnyNonReversible;
    if entries != [] {
      var e, rest, k := entries[0], entries[1..], Lower(entries[0].table);
      var next := if k in rebuild && k !in done then done + {k} else done;
      BlocksFrom(rest, all, rebuild, next);
      var tail := Blocks(rest, all, rebuild, next);
      assert forall i :: 0 <= i < |tail| ==> BlockFrom(rest, rebuild, tail[i]);
    }
  }

  // ---- Unit by unit ----

  /** What the names of a pair are. */
  lemma PairNames(source: Snapshot, target: Snapshot, k: string)
    ensures var w, sm, tm := NamesOf(source, target), TableMap(source), TableMap(target);
      && (k in w.tables <==> k in sm || k in tm)
      && (k in w.tables ==> k in w.owned && w.owned[k] == OwnedNames(sm, tm, k))
      && w.taken == TakenNames(source, target)
  {
    hide TableMap, OwnedNames, TakenNames;
  }

  lemma OwnsIndex(sm: map<string, TableSnapshot>, tm: map<string, TableSnapshot>, k: string, idx: IndexInfo)
    requires IsUserIndex(idx) && ((k in sm && idx in sm[k].indexes) || (k in tm && idx in tm[k].indexes))
    ensures Lower(idx.name) in OwnedNames(sm, tm, k)
  {
    hide Lower, IsAutoIndex;
  }

  /** The added column has a default on which generation panics. */
  predicate Stub(e: Entry, tgt: Option<TableSnapshot>) {
    e.op == AddColumn && tgt.Some? && ColumnOf(tgt.value, e.obj).Some? && StubDefault(ColumnOf(tgt.value, e.obj).value.defaultValue)
  }

  lemma StubPanics(e: Entry, src: Option<TableSnapshot>, tgt: Option<TableSnapshot>)
    ensures DirectSql(Sqlite, e, src, tgt) == Panic <==> Stub(e, tgt)
  {
    hide ColumnOf, StubDefault, FindIndex, TableBodyOf, ColumnDefOf, CreateIndexOf, DropIndexName, Trim;
  }

  lemma DirectShape(s: TableSnapshot, t: TableSnapshot, e: Entry)
    requires WfTable(s) && WfTable(t) && InPlaceEntry(s, t, e) && !Stub(e, Some(t))
    ensures var q, k := DirectSql(Sqlite, e, Some(s), Some(t)), EntryKey(e);
      q.Ok? && e.table == t.name
      && (e.op == AddIndex ==> k in SecondaryMap(t)) && (e.op == DropIndex ==> k in SecondaryMap(s)) &&
      match e.op
      case AddColumn => q.value.AddColumnSql? && q.value.table == t.name
      case DropColumn => q.value.DropColumnSql? && q.value.table == t.name
      case AddIndex => q.value.CreateIndexSql? && q.value.table == t.name && q.value.name == SecondaryMap(t)[k].name
                       && SecondaryMap(t)[k] in t.indexes && IsUserIndex(SecondaryMap(t)[k])
      case DropIndex => q.value.DropIndexSql? && q.value.name == SecondaryMap(s)[k].name
                        && SecondaryMap(s)[k] in s.indexes && IsUserIndex(SecondaryMap(s)[k])
      case _ => false
  {
    var k := EntryKey(e);
    hide WfTable, ColumnMap, SecondaryMap, Lower, Trim, IsUserIndex, SameIndex, FindIndex, ColumnDefOf, IndexColumns, IndexObject, StubDefault;
    match e.op
    case AddColumn =>
      ColumnNameOk(t, k);
      TrimmedKey(e.obj);
    case AddIndex =>
      FindsUserIndex(t, k);
      SecondaryMapKeyed(t, k);
    case DropIndex =>
      FindsUserIndex(s, k);
      SecondaryMapKeyed(s, k);
    case _ =>
  }

  lemma UserName(idx: IndexInfo)
    requires IsUserIndex(idx)
    ensures !IsAutoIndex(idx.name)
  {
  }

  /** The names of table k, present on both sides. */
  predicate BothNames(w: Names, sm: map<string, TableSnapshot>, tm: map<string, TableSnapshot>, k: string) {
    && k in sm && k in tm && k in w.tables && k in w.owned && w.owned[k] == OwnedNames(sm, tm, k)
    && Lower(sm[k].name) == k && Lower(tm[k].name) == k
  }

  lemma InPlaceUnitOk(w: Names, sm: map<string, TableSnapshot>, tm: map<string, TableSnapshot>, k: string, e: Entry)
    requires BothNames(w, sm, tm, k) && WfTable(sm[k]) && WfTable(tm[k]) && InPlaceEntry(sm[k], tm[k], e) && !Stub(e, Some(tm[k]))
    ensures var q := DirectSql(Sqlite, e, Some(sm[k]), Some(tm[k])); q.Ok? && SingleOk(w, k, q.value)
  {
    hide WfTable, OwnedNames, DirectSql, SecondaryMap, Lower, IsUserIndex, IsAutoIndex, InPlaceEntry, DefOfBody, EntryKey, IndexSqlOk, Stub;
    var s, t, c := sm[k], tm[k], EntryKey(e);
    DirectShape(s, t, e);
    var q := DirectSql(Sqlite, e, Some(s), Some(t)).value;
    if e.op == AddIndex {
      OwnsIndex(sm, tm, k, SecondaryMap(t)[c]);
      UserName(SecondaryMap(t)[c]);
      AddIndexOk(w, k, q);
    } else if e.op == DropIndex {
      OwnsIndex(sm, tm, k, SecondaryMap(s)[c]);
    }
  }

  lemma AddIndexOk(w: Names, k: string, q: Sql)
    requires q.CreateIndexSql? && Lower(q.table) == k && !IsAutoIndex(q.name) && k in w.owned && Lower(q.name) in w.owned[k]
    ensures IndexSqlOk(w, k, q)
  {
  }

  lemma BothAreNamed(source: Snapshot, target: Snapshot, k: string)
    requires WfSnapshot(source) && WfSnapshot(target) && k in TableMap(source) && k in TableMap(target)
    ensures BothNames(NamesOf(source, target), TableMap(source), TableMap(target), k)
    ensures WfTable(TableMap(source)[k]) && WfTable(TableMap(target)[k])
  {
    hide WfSnapshot, TableMap, WfTable, OwnedNames, NamesOf, Lower;
    TablesWf(source, k);
    TablesWf(target, k);
    PairNames(source, target, k);
  }

  lemma CreateUnitOk(source: Snapshot, target: Snapshot, k: string)
    requires WfSnapshot(target) && k in TableMap(target) && k !in TableMap(source)
    ensures var t := TableMap(target)[k]; SingleOk(NamesOf(source, target), k, CreateTableSql(t.name, TableBodyOf(Sqlite, t)))
  {
    hide WfSnapshot, TableMap, WfTable, OwnedNames, NamesOf, Lower, TableBodyOf, IsAutoIndex, DefOfBody;
    TablesWf(target, k);
    PairNames(source, target, k);
    PlainName(TableMap(target)[k]);
  }

  lemma DirectUnitOk(source: Snapshot, target: Snapshot, opts: Options, e: Entry)
    requires WfPair(source, target) && FromPlan(Sqlite, TableMap(source), TableMap(target), opts, e)
    requires !NeedsRebuild(e, Lookup(TableMap(source), Lower(e.table)), Lookup(TableMap(target), Lower(e.table)))
    requires !Stub(e, Lookup(TableMap(target), Lower(e.table)))
    ensures var k := Lower(e.table);
      var q := DirectSql(Sqlite, e, Lookup(TableMap(source), k), Lookup(TableMap(target), k));
      q.Ok? && SingleOk(NamesOf(source, target), k, q.value)
  {
    var k := Lower(e.table);
    var sm, tm := TableMap(source), TableMap(target);
    hide WfTable, DiffTable, NeedsRebuild, TableMap, WfSnapshot, OwnedNames, NamesOf, NamesOk, CommonColumn, ViewMap, TableBodyOf, IsAutoIndex, Lower,
      InPlaceEntry, DefOfBody, BothNames, SingleOk, Stub;
    if k in sm && k in tm {
      BothAreNamed(source, target, k);
      InPlaceShape(sm[k], tm[k], opts, e);
      InPlaceUnitOk(NamesOf(source, target), sm, tm, k, e);
    } else if k in tm {
      CreateUnitOk(source, target, k);
    } else {
      PairNames(source, target, k);
      DropUnitOk(NamesOf(source, target), k, e);
    }
  }

  lemma DropUnitOk(w: Names, k: string, e: Entry)
    requires k in w.tables && k in w.owned && Lower(e.table) == k
    ensures SingleOk(w, k, DropTableSql(e.table))
  {
    hide Lower;
  }

  lemma PlainName(t: TableSnapshot)
    requires WfTable(t)
    ensures !IsAutoIndex(t.name)
  {
  }

  // ---- Rebuild units ----

  lemma TrimHead(s: string)
    requires s != [] && !IsSpace(s[0])
    ensures Trim(s) != [] && Trim(s)[0] == s[0]
  {
    TrimRightHead(s);
  }

  lemma {:induction false} TrimRightHead(s: string)
    requires s != [] && !IsSpace(s[0])
    ensures TrimRight(s) != [] && TrimRight(s)[0] == s[0]
  {
    if IsSpace(s[|s| - 1]) {
      TrimRightHead(s[..|s| - 1]);
    }
  }

  lemma TmpShape(base: string, n: nat)
    ensures !IsAutoIndex(TmpCandidate(base, n))
  {
    var c := TmpCandidate(base, n);
    hide Decimal;
    assert c[0] == TMP[0] == 'p';
    TrimHead(c);
    assert Lower(Trim(c))[0] == 'p';
  }

  lemma TmpUsable(base: string, taken: set<string>)
    ensures var c := TmpNameOf(base, taken); !IsAutoIndex(c) && Lower(c) !in taken
  {
    hide TmpNameOf, TmpCandidate, IsAutoIndex;
    var n := TmpNameFree(base, taken);
    TmpShape(base, n);
  }

  lemma GroupIndexesOk(w: Names, sm: map<string, TableSnapshot>, tm: map<string, TableSnapshot>, k: string)
    requires BothNames(w, sm, tm, k) && WfTable(tm[k])
    ensures var idxs := CreateIndexes(tm[k], UserIndexes(tm[k]));
      forall i :: 0 <= i < |idxs| ==> idxs[i].CreateIndexSql? && IndexSqlOk(w, k, idxs[i])
  {
    var t := tm[k];
    hide WfTable, OwnedNames, UserIndexes, Lower, IndexSqlOk, CreateIndexOf, WfIndexes, IsUserIndex, DistinctIndexes, BothNames;
    var idxs := UserIndexes(t);
    WfParts(t);
    UserIndexList(t);
    forall i | 0 <= i < |idxs| ensures CreateIndexOf(t, idxs[i]).CreateIndexSql? && IndexSqlOk(w, k, CreateIndexOf(t, idxs[i])) {
      assert idxs[i] in idxs;
      IndexUnitOk(w, sm, tm, k, idxs[i]);
      IsCreateIndex(t, idxs[i]);
    }
  }

  lemma IsCreateIndex(t: TableSnapshot, idx: IndexInfo)
    ensures CreateIndexOf(t, idx).CreateIndexSql?
  {
  }

  lemma GroupUnitOk(w: Names, sm: map<string, TableSnapshot>, tm: map<string, TableSnapshot>, k: string)
    requires BothNames(w, sm, tm, k) && WfTable(tm[k])
    ensures UnitOk(w, RebuildUnit(Sqlite, k, sm[k], tm[k], w.taken))
  {
    hide WfTable, OwnedNames, TmpNameOf, TableBodyOf, IsAutoIndex, UserIndexes, Lower, CreateIndexes, CommonColumns, IndexSqlOk, OrderedColumns;
    TmpUsable(tm[k].name, w.taken);
    GroupIndexesOk(w, sm, tm, k);
  }

  lemma IndexUnitOk(w: Names, sm: map<string, TableSnapshot>, tm: map<string, TableSnapshot>, k: string, idx: IndexInfo)
    requires BothNames(w, sm, tm, k) && WfTable(tm[k]) && idx in tm[k].indexes && IsUserIndex(idx)
    ensures IndexSqlOk(w, k, CreateIndexOf(tm[k], idx))
  {
    var t := tm[k];
    hide WfTable, Lower, IsUserIndex, IsAutoIndex, NameOk, WfIndexes, OwnedNames, WfIndex, IndexColumns, WfColumns, WfForeignKeys;
    WfParts(t);
    IndexNames(t, idx);
    NamedKey(t, idx);
    OwnsIndex(sm, tm, k, idx);
    UserName(idx);
  }

  // ---- All blocks ----

  lemma DirectBlockOk(source: Snapshot, target: Snapshot, opts: Options, entries: seq<Entry>, forced: set<string>, e: Entry)
    requires Chosen(source, target, opts, entries, forced)
    requires e in entries && Lower(e.table) !in Rebuilds(source, target, entries, forced) && !Stub(e, Lookup(TableMap(target), Lower(e.table)))
    ensures var x := EmissionOf(source, target, entries); BlockOk(x, Direct(e)) && UnitOk(NamesOf(source, target), UnitOf(x, Direct(e)))
  {
    var x := EmissionOf(source, target, entries);
    ChosenParts(source, target, opts, entries, forced);
    hide WfPair, TableMap, FromPlan, Rebuilds, NamesOf, Lower, SingleOk, TakenNames, CyclicSet, DirectSql, NeedsRebuild, Chosen, Stub;
    NotRebuilt(source, target, entries, forced, e);
    DirectUnitOk(source, target, opts, e);
  }

  lemma ChosenParts(source: Snapshot, target: Snapshot, opts: Options, entries: seq<Entry>, forced: set<string>)
    requires Chosen(source, target, opts, entries, forced)
    ensures WfPair(source, target) && WfSnapshot(source) && WfSnapshot(target) && source.kind == Sqlite && target.kind == Sqlite
    ensures forall e :: e in entries ==> FromPlan(Sqlite, TableMap(source), TableMap(target), opts, e)
  {
    hide TableMap, FromPlan, WfTable, NamesOk, ViewMap, CommonColumn;
  }

  lemma GroupBlockOk(source: Snapshot, target: Snapshot, opts: Options, entries: seq<Entry>, forced: set<string>, b: Block)
    requires Chosen(source, target, opts, entries, forced) && b.Group? && b.key in Rebuilds(source, target, entries, forced)
    ensures var x := EmissionOf(source, target, entries); BlockOk(x, b) && UnitOk(NamesOf(source, target), UnitOf(x, b))
  {
    ChosenParts(source, target, opts, entries, forced);
    hide WfPair, WfSnapshot, TableMap, FromPlan, Rebuilds, Lower, TakenNames, CyclicSet, RebuildUnit, Chosen, UnitOk, BothNames, WfTable, NamesOf;
    RebuildsBoth(source, target, opts, entries, forced);
    BothAreNamed(source, target, b.key);
    PairNames(source, target, b.key);
    GroupUnitOk(NamesOf(source, target), TableMap(source), TableMap(target), b.key);
  }

  /** No added column emitted directly has a default on which generation panics. */
  ghost predicate NoStubs(source: Snapshot, target: Snapshot, entries: seq<Entry>, forced: set<string>) {
    forall e :: e in entries && Lower(e.table) !in Rebuilds(source, target, entries, forced) ==> !Stub(e, Lookup(TableMap(target), Lower(e.table)))
  }

  lemma BlockUnitOk(source: Snapshot, target: Snapshot, opts: Options, entries: seq<Entry>, forced: set<string>, b: Block)
    requires Chosen(source, target, opts, entries, forced)
    requires BlockFrom(entries, Rebuilds(source, target, entries, forced), b) && NoStubs(source, target, entries, forced)
    ensures var x := EmissionOf(source, target, entries); BlockOk(x, b) && UnitOk(NamesOf(source, target), UnitOf(x, b))
  {
    hide Chosen, Rebuilds, EmissionOf, BlockOk, UnitOk, UnitOf, NamesOf, Lower, Stub, TableMap;
    if b.Direct? {
      DirectBlockOk(source, target, opts, entries, forced, b.entry);
    } else {
      GroupBlockOk(source, target, opts, entries, forced, b);
    }
  }

  /** The script of chosen entries is made of units that keep to their tables. */
  lemma ScriptUnitsOk(source: Snapshot, target: Snapshot, opts: Options, entries: seq<Entry>, forced: set<string>)
    requires Chosen(source, target, opts, entries, forced) && NoStubs(source, target, entries, forced)
    ensures var x, blocks := EmissionOf(source, target, entries), ScriptBlocks(source, target, entries, forced);
      BlocksOk(x, blocks) && UnitsOk(NamesOf(source, target), UnitsOf(x, blocks))
  {
    hide Chosen, EmissionOf, BlockOk, UnitOk, UnitOf, NamesOf, Rebuilds, Blocks, BlockFrom, NoStubs;
    var x, blocks := EmissionOf(source, target, entries), ScriptBlocks(source, target, entries, forced);
    BlocksFrom(entries, entries, Rebuilds(source, target, entries, forced), {});
    forall i | 0 <= i < |blocks| ensures BlockOk(x, blocks[i]) && UnitOk(NamesOf(source, target), UnitOf(x, blocks[i])) {
      BlockUnitOk(source, target, opts, entries, forced, blocks[i]);
    }
  }

  // ---- When generation panics ----

  lemma DirectStops(x: Emission, e: Entry)
    requires x.kind == Sqlite
    ensures var r, q := BlockStatements(x, Direct(e)), DirectSql(Sqlite, e, Lookup(x.src, Lower(e.table)), Lookup(x.tgt, Lower(e.table)));
      (r.Ok? <==> q.Ok?) && (r == Panic <==> q == Panic)
  {
    hide DirectSql, Lower, Id, NonReversible;
  }

  lemma DirectNotRefused(source: Snapshot, target: Snapshot, opts: Options, entries: seq<Entry>, forced: set<string>, e: Entry)
    requires Chosen(source, target, opts, entries, forced) && e in entries && Lower(e.table) !in Rebuilds(source, target, entries, forced)
    ensures var r := BlockStatements(EmissionOf(source, target, entries), Direct(e));
      !r.Fail? && (r == Panic ==> Stub(e, Lookup(TableMap(target), Lower(e.table))))
  {
    ChosenParts(source, target, opts, entries, forced);
    hide Chosen, Rebuilds, NamesOf, Lower, TableMap, Stub, CyclicSet, TakenNames, DirectSql, WfPair, WfSnapshot, FromPlan, BlockStatements, SingleOk;
    var x, k := EmissionOf(source, target, entries), Lower(e.table);
    DirectStops(x, e);
    StubPanics(e, Lookup(x.src, k), Lookup(x.tgt, k));
    if !Stub(e, Lookup(TableMap(target), k)) {
      NotRebuilt(source, target, entries, forced, e);
      DirectUnitOk(source, target, opts, e);
    }
  }

  lemma BlockNotRefused(source: Snapshot, target: Snapshot, opts: Options, entries: seq<Entry>, forced: set<string>, b: Block)
    requires Chosen(source, target, opts, entries, forced) && BlockFrom(entries, Rebuilds(source, target, entries, forced), b)
    ensures var r := BlockStatements(EmissionOf(source, target, entries), b);
      !r.Fail? && (r == Panic ==> b.Direct? && Stub(b.entry, Lookup(TableMap(target), Lower(b.entry.table))))
  {
    hide Chosen, Rebuilds, BlockOk, UnitOk, UnitOf, NamesOf, Lower, TableMap, Stub, EmissionOf, BlockStatements;
    if b.Direct? {
      DirectNotRefused(source, target, opts, entries, forced, b.entry);
    } else {
      BlockSqls(EmissionOf(source, target, entries), b);
      GroupBlockOk(source, target, opts, entries, forced, b);
    }
  }

  lemma BlockFromIs(entries: seq<Entry>, rebuild: set<string>, b: Block)
    requires BlockFrom(entries, rebuild, b)
    ensures b.Direct? ==> b.entry in entries && Lower(b.entry.table) !in rebuild
  {
    hide Lower;
  }

  lemma DirectStands(source: Snapshot, target: Snapshot, entries: seq<Entry>, forced: set<string>, e: Entry)
    requires e in entries && Lower(e.table) !in Rebuilds(source, target, entries, forced) && source.kind == Sqlite
    requires BlocksOk(EmissionOf(source, target, entries), ScriptBlocks(source, target, entries, forced))
    ensures !Stub(e, Lookup(TableMap(target), Lower(e.table)))
  {
    hide Rebuilds, Blocks, Stub, Lower, TableMap, CyclicSet, TakenNames, DirectSql, Filter;
    var x, k, blocks := EmissionOf(source, target, entries), Lower(e.table), ScriptBlocks(source, target, entries, forced);
    DirectBlocks(entries, entries, Rebuilds(source, target, entries, forced), {}, k);
    FilterMember(entries, OnTable(k));
    var own := Own(entries, k);
    assert e in own;
    var i :| 0 <= i < |own| && own[i] == e;
    assert Map(DirectBlock, own)[i] == Direct(e);
    FilterMember(blocks, OfKey(k));
    assert Direct(e) in blocks;
    var j :| 0 <= j < |blocks| && blocks[j] == Direct(e);
    assert BlockOk(x, blocks[j]);
    StubPanics(e, Lookup(x.src, k), Lookup(x.tgt, k));
  }

  /** Chosen entries always generate, unless one of them adds a column with such a default directly: then it panics. */
  lemma EmitsOrPanics(source: Snapshot, target: Snapshot, opts: Options, entries: seq<Entry>, forced: set<string>)
    requires Chosen(source, target, opts, entries, forced)
    ensures var all := AllStatements(EmissionOf(source, target, entries), ScriptBlocks(source, target, entries, forced));
      (all.Ok? <==> NoStubs(source, target, entries, forced)) && (!all.Ok? ==> all == Panic)
  {
    hide Chosen, EmissionOf, Rebuilds, Blocks, BlockFrom, Stub, Lower, BlockStatements, AllStatements, TableMap, BlocksOk, UnitsOk, UnitsOf;
    var x, blocks := EmissionOf(source, target, entries), ScriptBlocks(source, target, entries, forced);
    assert source.kind == Sqlite by { ChosenParts(source, target, opts, entries, forced); }
    BlocksFrom(entries, entries, Rebuilds(source, target, entries, forced), {});
    forall i | 0 <= i < |blocks|
      ensures !BlockStatements(x, blocks[i]).Fail?
      ensures BlockStatements(x, blocks[i]) == Panic ==> !NoStubs(source, target, entries, forced)
    {
      BlockNotRefused(source, target, opts, entries, forced, blocks[i]);
      BlockFromIs(entries, Rebuilds(source, target, entries, forced), blocks[i]);
    }
    PanicStops(x, blocks);
    if AllStatements(x, blocks).Ok? {
      StatementSqls(x, blocks);
      forall e | e in entries && Lower(e.table) !in Rebuilds(source, target, entries, forced) ensures !Stub(e, Lookup(TableMap(target), Lower(e.table))) {
        DirectStands(source, target, entries, forced, e);
      }
    }
  }
}
