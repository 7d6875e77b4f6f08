/// Tables changed in place: the state after every prefix of the table's entries,
/// and the target's shape at the end.
module InPlaceTables {
  import opened Text
  import opened Sequences
  import opened Normalize
  import opened TypeNames
  import opened Snapshots
  import opened Plan
  import opened PlanOrder
  import opened Mirror
  import opened Script
  import opened Defaults
  import opened Database
  import opened Locality
  import opened WellFormed
  import opened PlanIds
  import opened Shape
  import opened Agreement

  function EntryKey(e: Entry): string { Lower(e.obj) }

  // ---- What an entry does to its table ----

  function TargetColumn(t: TableSnapshot, k: string): ColState
    requires k in ColumnMap(t)
  {
    ColOf(ColumnDefOf(Sqlite, ColumnMap(t)[k]))
  }

  /** The entries an in-place table can have, and the object each is about. */
  predicate InPlaceEntry(s: TableSnapshot, t: TableSnapshot, e: Entry) {
    var k := EntryKey(e);
    && e.table == t.name
    && match e.op
       case AddColumn => ColumnAdded(s, t, k) && e.obj == ColumnMap(t)[k].name
       case DropColumn => ColumnAdded(t, s, k) && Lower(Trim(e.obj)) == k
       case AddIndex => IndexAdded(s, t, k) && IsUserIndex(SecondaryMap(t)[k]) && e.obj == SecondaryMap(t)[k].name
       case DropIndex => IndexAdded(t, s, k) && IsUserIndex(SecondaryMap(s)[k]) && e.obj == SecondaryMap(s)[k].name
       case _ => false
  }

  function EntryStep(s: TableSnapshot, t: TableSnapshot, e: Entry, x: Table): Option<Table>
    requires InPlaceEntry(s, t, e)
  {
    var k := EntryKey(e);
    match e.op
    case AddColumn => AddColumnTo(x, k, TargetColumn(t, k))
    case DropColumn => DropColumnFrom(x, k)
    case AddIndex => AddIndexTo(x, k, IndexStateOf(SecondaryMap(t)[k]))
    case DropIndex => DropIndexFrom(x, k)
  }

  lemma InPlaceShape(s: TableSnapshot, t: TableSnapshot, opts: Options, e: Entry)
    requires WfTable(s) && WfTable(t) && e in DiffTable(Sqlite, s, t, opts) && !NeedsRebuild(e, Some(s), Some(t))
    ensures InPlaceEntry(s, t, e)
  {
    hide WfColumns, WfIndexes, WfForeignKeys, DiffColumns, DiffIndexes, DiffForeignKeys, ColumnMap, SecondaryMap, Lower, Trim,
      IsUserIndex, IndexNeedsRebuild, SameIndex, IsAutoIndex, InSomeIndex;
    InTable(s, t, opts, e);
    Families(Sqlite, t.name, s, t, opts);
    TableEntries(Sqlite, s, t, opts);
    assert OfTable(t.name)(e);
    if e in DiffColumns(Sqlite, t.name, s, t, opts) {
      ColumnEntry(Sqlite, t.name, s, t, opts, e);
      if e.op == DropColumn {
        ColumnNameOk(s, EntryKey(e));
        TrimmedKey(e.obj);
      }
    } else if e in DiffIndexes(t.name, s, t, opts) {
      IndexShape(s, t, opts, e);
    }
  }

  lemma ColumnNameOk(t: TableSnapshot, k: string)
    requires WfTable(t) && k in ColumnMap(t)
    ensures NameOk(ColumnMap(t)[k].name) && Lower(ColumnMap(t)[k].name) == k
  {
    hide WfIndexes, WfForeignKeys, NameOk, ColumnMap;
    ColumnMapKeyed(t, k);
  }

  lemma IndexNameOk(t: TableSnapshot, k: string)
    requires WfTable(t) && k in SecondaryMap(t)
    ensures var x := SecondaryMap(t)[k]; WfIndex(t, x) && x in t.indexes && IndexObject(x) == x.name && Lower(x.name) == k
  {
    hide WfColumns, WfForeignKeys, NameOk, SecondaryMap;
    SecondaryMapKeyed(t, k);
    NamedKey(t, SecondaryMap(t)[k]);
  }

  /** A change to the primary key always forces a rebuild. */
  lemma PrimaryRebuilds(s: TableSnapshot, t: TableSnapshot, opts: Options, e: Entry)
    requires WfIndexes(s) && WfIndexes(t)
    requires e in PrimaryEntries(t.name, FirstPrimary(s.indexes), FirstPrimary(t.indexes), opts)
    ensures NeedsRebuild(e, Some(s), Some(t))
  {
    hide WfIndexes, IsUserIndex, IndexNeedsRebuild, FirstPrimary, IndexSig, IndexObject;
    var sp, tp := FirstPrimary(s.indexes), FirstPrimary(t.indexes);
    if sp.Some? {
      IndexRebuild(s, sp.value);
      NotUser(sp.value);
    }
    if tp.Some? {
      IndexRebuild(t, tp.value);
      NotUser(tp.value);
    }
  }

  /** The user index an entry adds or drops. */
  predicate UserIndexEntry(s: TableSnapshot, t: TableSnapshot, e: Entry) {
    var k := EntryKey(e);
    || (e.op == AddIndex && IndexAdded(s, t, k) && IsUserIndex(SecondaryMap(t)[k]) && e.obj == SecondaryMap(t)[k].name)
    || (e.op == DropIndex && IndexAdded(t, s, k) && IsUserIndex(SecondaryMap(s)[k]) && e.obj == SecondaryMap(s)[k].name)
  }

  lemma SecondaryShape(s: TableSnapshot, t: TableSnapshot, opts: Options, e: Entry)
    requires WfTable(s) && WfTable(t) && IndexChange(t.name, s, t, opts, e, EntryKey(e)) && !NeedsRebuild(e, Some(s), Some(t))
    ensures UserIndexEntry(s, t, e)
  {
    hide WfTable, SecondaryMap, Lower, IsUserIndex, IndexNeedsRebuild, SameIndex, IndexObject, WfIndex;
    var k := EntryKey(e);
    if e.op == AddIndex {
      IndexNameOk(t, k);
      WfParts(t);
      IndexRebuild(t, SecondaryMap(t)[k]);
    } else {
      IndexNameOk(s, k);
      WfParts(s);
      IndexRebuild(s, SecondaryMap(s)[k]);
    }
  }

  lemma WfParts(t: TableSnapshot)
    requires WfTable(t)
    ensures WfColumns(t) && WfIndexes(t) && WfForeignKeys(t)
  {
  }

  lemma IndexShape(s: TableSnapshot, t: TableSnapshot, opts: Options, e: Entry)
    requires WfTable(s) && WfTable(t) && e in DiffIndexes(t.name, s, t, opts) && !NeedsRebuild(e, Some(s), Some(t))
    ensures UserIndexEntry(s, t, e)
  {
    WfParts(s);
    WfParts(t);
    hide WfTable, WfIndexes, DiffSecondary, IndexChange, UserIndexEntry, PrimaryEntries, NeedsRebuild, FirstPrimary;
    if e in PrimaryEntries(t.name, FirstPrimary(s.indexes), FirstPrimary(t.indexes), opts) {
      PrimaryRebuilds(s, t, opts, e);
    }
    SecondaryEntry(t.name, s, t, opts, e);
    SecondaryShape(s, t, opts, e);
  }

  lemma NotUser(x: IndexInfo)
    ensures x.primary ==> !IsUserIndex(x)
  {
  }

  /** The statement of an in-place entry does to its table what the entry says. */
  lemma DirectIsStep(s: TableSnapshot, t: TableSnapshot, e: Entry, x: Table)
    requires WfTable(s) && WfTable(t) && InPlaceEntry(s, t, e) && DirectSql(Sqlite, e, Some(s), Some(t)).Ok?
    ensures var q := DirectSql(Sqlite, e, Some(s), Some(t));
      SingleStep(q.value, Some(x)) == Lift(EntryStep(s, t, e, x))
  {
    var k := EntryKey(e);
    hide WfTable, ColumnMap, SecondaryMap, Lower, Trim, IsUserIndex, SameIndex, AddColumnTo, DropColumnFrom, AddIndexTo, DropIndexFrom,
      FindIndex, ColumnDefOf, IndexColumns, IndexObject;
    match e.op
    case AddColumn =>
      ColumnNameOk(t, k);
      TrimmedKey(e.obj);
      NameKept(ColumnMap(t)[k]);
    case AddIndex =>
      FindsUserIndex(t, k);
    case DropIndex =>
      FindsUserIndex(s, k);
    case _ =>
  }

  lemma NameKept(c: ColumnInfo)
    ensures ColumnDefOf(Sqlite, c).name == c.name
  {
  }

  lemma FindsUserIndex(t: TableSnapshot, k: string)
    requires WfTable(t) && k in SecondaryMap(t)
    ensures var x := SecondaryMap(t)[k];
      && FindIndex(t, x.name) == Some(x) && IndexExecName(t, x) == x.name && Lower(x.name) == k
      && CreateIndexOf(t, x) == CreateIndexSql(x.unique, x.name, t.name, IndexColumns(x))
  {
    IndexNameOk(t, k);
    hide SecondaryMap, FindIndex, WfColumns, WfForeignKeys, ColumnMap;
    FindsIndex(t, SecondaryMap(t)[k]);
    NamedKey(t, SecondaryMap(t)[k]);
  }

  // ---- What has been done so far ----

  datatype Done = Done(added: set<string>, dropped: set<string>, indexed: set<string>, unindexed: set<string>)

  const NOTHING := Done({}, {}, {}, {})

  function DoneWith(d: Done, e: Entry): Done {
    match e.op
    case AddColumn => d.(added := d.added + {EntryKey(e)})
    case DropColumn => d.(dropped := d.dropped + {EntryKey(e)})
    case AddIndex => d.(indexed := d.indexed + {EntryKey(e)})
    case DropIndex => d.(unindexed := d.unindexed + {EntryKey(e)})
    case _ => d
  }

  function DoneBy(es: seq<Entry>): Done {
    if es == [] then NOTHING else DoneWith(DoneBy(es[..|es| - 1]), es[|es| - 1])
  }

  predicate Holds(es: seq<Entry>, op: Op, k: string) { exists e :: e in es && e.op == op && EntryKey(e) == k }

  lemma {:induction false} DoneHas(es: seq<Entry>, k: string)
    ensures var d := DoneBy(es);
      && (k in d.added <==> Holds(es, AddColumn, k)) && (k in d.dropped <==> Holds(es, DropColumn, k))
      && (k in d.indexed <==> Holds(es, AddIndex, k)) && (k in d.unindexed <==> Holds(es, DropIndex, k))
  {
    if es != [] {
      var init, e := es[..|es| - 1], es[|es| - 1];
      DoneHas(init, k);
      assert es == init + [e];
      hide EntryKey;
      HoldsSnoc(init, e, AddColumn, k);
      HoldsSnoc(init, e, DropColumn, k);
      HoldsSnoc(init, e, AddIndex, k);
      HoldsSnoc(init, e, DropIndex, k);
    }
  }

  lemma HoldsSnoc(init: seq<Entry>, e: Entry, op: Op, k: string)
    ensures Holds(init + [e], op, k) <==> Holds(init, op, k) || (e.op == op && EntryKey(e) == k)
  {
    hide EntryKey;
    assert forall x :: x in init + [e] <==> x in init || x == e;
  }

  // ---- The state in closed form ----

  /** A map without the keys gone, and with those of `more` taken from another map. */
  function Patched<T>(base: map<string, T>, gone: set<string>, more: set<string>, pool: map<string, T>): map<string, T> {
    (base - gone) + map k | k in more && k in pool :: pool[k]
  }

  lemma PatchedAt<T>(base: map<string, T>, gone: set<string>, more: set<string>, pool: map<string, T>, k: string)
    ensures var r := Patched(base, gone, more, pool);
      && (k in r <==> (k in base && k !in gone) || (k in more && k in pool))
      && (k in r ==> r[k] == if k in more && k in pool then pool[k] else base[k])
  {
  }

  lemma PatchMore<T>(base: map<string, T>, gone: set<string>, more: set<string>, pool: map<string, T>, k: string)
    requires k in pool
    ensures Patched(base, gone, more + {k}, pool) == Patched(base, gone, more, pool)[k := pool[k]]
  {
  }

  lemma PatchGone<T>(base: map<string, T>, gone: set<string>, more: set<string>, pool: map<string, T>, k: string)
    requires k !in more || k !in pool
    ensures Patched(base, gone + {k}, more, pool) == Patched(base, gone, more, pool) - {k}
  {
  }

  lemma PatchNothing<T>(base: map<string, T>, pool: map<string, T>)
    ensures Patched(base, {}, {}, pool) == base
  {
  }

  function TargetColumns(t: TableSnapshot): map<string, ColState> {
    map k | k in ColumnMap(t) :: TargetColumn(t, k)
  }

  function TargetDefaults(t: TableSnapshot): map<string, Value> {
    map k | k in ColumnMap(t) :: DefaultValue(TargetColumn(t, k).dflt)
  }

  function TargetIndexes(t: TableSnapshot): map<string, IndexState> {
    map k | k in SecondaryMap(t) :: IndexStateOf(SecondaryMap(t)[k])
  }

  function MidColumns(t: TableSnapshot, d: Done, cols: map<string, ColState>): map<string, ColState> {
    Patched(cols, d.dropped, d.added, TargetColumns(t))
  }

  function MidIndexes(t: TableSnapshot, d: Done, indexes: map<string, IndexState>): map<string, IndexState> {
    Patched(indexes, d.unindexed, d.indexed, TargetIndexes(t))
  }

  function MidRows(t: TableSnapshot, d: Done, rows: seq<Row>): (r: seq<Row>)
    ensures |r| == |rows|
  {
    PatchedRows(rows, d.dropped, d.added, TargetDefaults(t))
  }

  function PatchedRows(rows: seq<Row>, gone: set<string>, more: set<string>, pool: Row): (r: seq<Row>)
    ensures |r| == |rows|
  {
    seq(|rows|, i requires 0 <= i < |rows| => Patched(rows[i], gone, more, pool))
  }

  lemma PatchRowsMore(rows: seq<Row>, gone: set<string>, more: set<string>, pool: Row, k: string)
    requires k in pool
    ensures PatchedRows(rows, gone, more + {k}, pool) == WithColumn(PatchedRows(rows, gone, more, pool), k, pool[k])
  {
    hide Patched;
    forall i | 0 <= i < |rows| ensures Patched(rows[i], gone, more + {k}, pool) == Patched(rows[i], gone, more, pool)[k := pool[k]] {
      PatchMore(rows[i], gone, more, pool, k);
    }
  }

  lemma PatchRowsGone(rows: seq<Row>, gone: set<string>, more: set<string>, pool: Row, k: string)
    requires k !in more || k !in pool
    ensures PatchedRows(rows, gone + {k}, more, pool) == WithoutColumn(PatchedRows(rows, gone, more, pool), k)
  {
    hide Patched;
    forall i | 0 <= i < |rows| ensures Patched(rows[i], gone + {k}, more, pool) == Patched(rows[i], gone, more, pool) - {k} {
      PatchGone(rows[i], gone, more, pool, k);
    }
  }

  lemma PatchRowsNothing(rows: seq<Row>, pool: Row)
    ensures PatchedRows(rows, {}, {}, pool) == rows
  {
    hide Patched;
    forall i | 0 <= i < |rows| ensures Patched(rows[i], {}, {}, pool) == rows[i] { PatchNothing(rows[i], pool); }
  }

  function Mid(t: TableSnapshot, d: Done, x: Table): Table {
    Table(x.def.(cols := MidColumns(t, d, x.def.cols), indexes := MidIndexes(t, d, x.def.indexes)), MidRows(t, d, x.rows))
  }

  lemma MidNothing(t: TableSnapshot, x: Table)
    ensures Mid(t, NOTHING, x) == x
  {
    hide Patched, TargetColumns, TargetDefaults, TargetIndexes, PatchedRows;
    PatchNothing(x.def.cols, TargetColumns(t));
    PatchNothing(x.def.indexes, TargetIndexes(t));
    PatchRowsNothing(x.rows, TargetDefaults(t));
  }

  /** Where the closed form is taken: sets of changes the plan calls for. */
  predicate DoneOk(s: TableSnapshot, t: TableSnapshot, d: Done) {
    && (forall k :: k in d.added ==> ColumnAdded(s, t, k)) && (forall k :: k in d.dropped ==> ColumnAdded(t, s, k))
    && (forall k :: k in d.indexed ==> IndexAdded(s, t, k)) && (forall k :: k in d.unindexed ==> IndexAdded(t, s, k))
  }

  /** A starting table of the source's shape, its primary key being that of either side. */
  predicate Starts(s: TableSnapshot, t: TableSnapshot, x: Table) {
    RealisesButPk(x.def, s, true) && RowsTyped(x) && PkOfEither(x.def, s, t)
  }

  predicate PkOfEither(def: TableDef, s: TableSnapshot, t: TableSnapshot) {
    def.pk == LowerAll(PkColumns(s)) || def.pk == LowerAll(PkColumns(t))
  }

  lemma AddColumnStep(s: TableSnapshot, t: TableSnapshot, d: Done, x: Table, k: string)
    requires Starts(s, t, x) && DoneOk(s, t, d) && ColumnAdded(s, t, k) && k !in d.added
    ensures AddColumnTo(Mid(t, d, x), k, TargetColumn(t, k))
      == if ColumnAddable(TargetColumn(t, k), x.rows) then Some(Mid(t, d.(added := d.added + {k}), x)) else None
  {
    assert k !in x.def.cols;
    TargetHas(t, k);
    hide ColumnMap, TargetColumn, DefaultValue, ClauseOk, Fillable, Patched, TargetColumns, TargetDefaults, TargetIndexes, PatchedRows,
      Starts, DoneOk, WithColumn;
    PatchedAt(x.def.cols, d.dropped, d.added, TargetColumns(t), k);
    PatchMore(x.def.cols, d.dropped, d.added, TargetColumns(t), k);
    PatchRowsMore(x.rows, d.dropped, d.added, TargetDefaults(t), k);
    assert MidRows(t, d, x.rows) == [] <==> x.rows == [];
  }

  lemma TargetHas(t: TableSnapshot, k: string)
    ensures k in TargetColumns(t) <==> k in ColumnMap(t)
    ensures k in TargetDefaults(t) <==> k in ColumnMap(t)
    ensures k in TargetIndexes(t) <==> k in SecondaryMap(t)
    ensures k in ColumnMap(t) ==> TargetColumns(t)[k] == TargetColumn(t, k) && TargetDefaults(t)[k] == DefaultValue(TargetColumn(t, k).dflt)
    ensures k in SecondaryMap(t) ==> TargetIndexes(t)[k] == IndexStateOf(SecondaryMap(t)[k])
  {
    hide ColumnMap, SecondaryMap, TargetColumn, DefaultValue, IndexStateOf;
  }

  lemma DropOne(x: Table, k: string, c: string)
    requires k in x.def.cols && c in x.def.cols && c != k && !ColumnUsed(x.def, k)
    ensures DropColumnFrom(x, k) == Some(Table(x.def.(cols := x.def.cols - {k}), WithoutColumn(x.rows, k)))
  {
    hide ColumnUsed;
    assert c in x.def.cols.Keys;
  }

  lemma StaysColumn(s: TableSnapshot, t: TableSnapshot, d: Done, x: Table) returns (c: string)
    requires Starts(s, t, x) && DoneOk(s, t, d) && CommonColumn(s, t)
    ensures c in ColumnMap(t) && c in x.def.cols && c !in d.dropped
  {
    hide ColumnMap, PkColumns, UniqueLists, FkStates, UserIndexStates, IndexAdded;
    c :| c in ColumnMap(s) && c in ColumnMap(t);
  }

  lemma DropColumnStep(s: TableSnapshot, t: TableSnapshot, d: Done, x: Table, k: string)
    requires Starts(s, t, x) && DoneOk(s, t, d) && ColumnAdded(t, s, k) && k !in d.dropped && CommonColumn(s, t)
    requires !ColumnUsed(Mid(t, d, x).def, k)
    ensures DropColumnFrom(Mid(t, d, x), k) == Some(Mid(t, d.(dropped := d.dropped + {k}), x))
  {
    var c := StaysColumn(s, t, d, x);
    assert k in x.def.cols;
    hide ColumnMap, TargetColumn, Patched, TargetColumns, TargetDefaults, TargetIndexes, PatchedRows, ColumnUsed,
      Starts, DoneOk, WithoutColumn, CommonColumn, DropColumnFrom;
    TargetHas(t, k);
    PatchedAt(x.def.cols, d.dropped, d.added, TargetColumns(t), k);
    PatchedAt(x.def.cols, d.dropped, d.added, TargetColumns(t), c);
    DropOne(Mid(t, d, x), k, c);
    PatchGone(x.def.cols, d.dropped, d.added, TargetColumns(t), k);
    PatchRowsGone(x.rows, d.dropped, d.added, TargetDefaults(t), k);
  }

  lemma DropIndexStep(s: TableSnapshot, t: TableSnapshot, d: Done, x: Table, k: string)
    requires Starts(s, t, x) && IndexAdded(t, s, k) && IsUserIndex(SecondaryMap(s)[k]) && k !in d.unindexed && d.indexed == {}
    ensures DropIndexFrom(Mid(t, d, x), k) == Some(Mid(t, d.(unindexed := d.unindexed + {k}), x))
  {
    assert k in x.def.indexes by { hide SameColumns, PkColumns, UniqueLists, FkStates, SameIndex; }
    hide Patched, TargetColumns, TargetDefaults, TargetIndexes, PatchedRows, Starts, SameIndex, SecondaryMap, IsUserIndex;
    PatchedAt(x.def.indexes, d.unindexed, d.indexed, TargetIndexes(t), k);
    PatchGone(x.def.indexes, d.unindexed, d.indexed, TargetIndexes(t), k);
  }

  lemma AddIndexStep(s: TableSnapshot, t: TableSnapshot, d: Done, x: Table, k: string)
    requires Starts(s, t, x) && WfTable(t) && IndexAdded(s, t, k) && k !in d.indexed
    requires MidRows(t, d, x.rows) == Fit(s, t, x.rows) && MidColumns(t, d, x.def.cols).Keys == ColumnMap(t).Keys
    requires k in SecondaryMap(s) ==> k in d.unindexed
    ensures AddIndexTo(Mid(t, d, x), k, IndexStateOf(SecondaryMap(t)[k]))
      == if IndexDataFits(SecondaryMap(t)[k], Fit(s, t, x.rows)) then Some(Mid(t, d.(indexed := d.indexed + {k}), x)) else None
  {
    IndexNameOk(t, k);
    TargetHas(t, k);
    var idx := SecondaryMap(t)[k];
    IndexColumnsKnown(t, idx);
    LowerAllKnown(IndexColumns(idx), t, MidColumns(t, d, x.def.cols));
    StartIndexes(s, t, x, k);
    hide WfTable, ColumnMap, SecondaryMap, SameIndex, WfIndex, IndexColumns, Fit, DistinctOn, Within, IsUserIndex,
      Patched, TargetColumns, TargetDefaults, TargetIndexes, PatchedRows, Starts, LowerAll;
    PatchedAt(x.def.indexes, d.unindexed, d.indexed, TargetIndexes(t), k);
    PatchMore(x.def.indexes, d.unindexed, d.indexed, TargetIndexes(t), k);
    NonEmptyIndex(idx);
  }

  lemma NonEmptyIndex(idx: IndexInfo)
    ensures IndexStateOf(idx) == IndexState(idx.unique, LowerAll(IndexColumns(idx)))
    ensures |LowerAll(IndexColumns(idx))| == |IndexColumns(idx)|
  {
  }

  lemma StartIndexes(s: TableSnapshot, t: TableSnapshot, x: Table, k: string)
    requires Starts(s, t, x)
    ensures k in x.def.indexes ==> k in SecondaryMap(s)
  {
    hide SameColumns, PkColumns, UniqueLists, FkStates, SecondaryMap, IsUserIndex;
  }

  // ---- A column to be dropped is in use nowhere ----

  lemma IndexColumnsFrom(idx: IndexInfo, k: string)
    requires k in LowerAll(IndexColumns(idx))
    ensures exists c :: c in idx.columns && Lower(c.name) == k
  {
    hide Lower;
    var sorted := SortBy(BeforeByPosition, idx.columns);
    SortMembers(BeforeByPosition, idx.columns);
    var i :| 0 <= i < |IndexColumns(idx)| && LowerAll(IndexColumns(idx))[i] == k;
    assert sorted[i] in sorted;
  }

  lemma UsedByIndex(t: TableSnapshot, idx: IndexInfo, k: string)
    requires idx in t.indexes && k in LowerAll(IndexColumns(idx))
    ensures InSomeIndex(t, k)
  {
    hide Lower, IndexColumns;
    IndexColumnsFrom(idx, k);
  }

  lemma NotInPk(s: TableSnapshot, k: string)
    requires WfColumns(s) && k in ColumnMap(s) && !ColumnMap(s)[k].isPrimaryKey && !InSomeIndex(s, k)
    ensures k !in LowerAll(PkColumns(s))
  {
    hide Lower, ColumnMap, WfColumns, IndexColumns, OrderedColumns, FirstPrimary, InSomeIndex;
    var p := FirstPrimary(s.indexes);
    if k in LowerAll(PkColumns(s)) {
      if p.Some? && p.value.columns != [] {
        UsedByIndex(s, p.value, k);
      } else {
        var flagged := FlaggedColumns(OrderedColumns(s));
        var i :| 0 <= i < |flagged| && Lower(flagged[i]) == k;
        var c := FlaggedAt(OrderedColumns(s), i);
        OrderedDistinct(s);
        ColumnFound(s, c);
      }
    }
  }

  lemma NotKnown(t: TableSnapshot, k: string)
    requires WfTable(t) && k !in ColumnMap(t)
    ensures k !in LowerAll(PkColumns(t))
  {
    hide Lower, ColumnMap, WfColumns, WfIndexes, WfForeignKeys, PkColumns;
    PkKnown(t);
    forall i | 0 <= i < |PkColumns(t)| ensures LowerAll(PkColumns(t))[i] != k {}
  }

  lemma NotInUniques(s: TableSnapshot, k: string, u: seq<string>)
    requires !InSomeIndex(s, k) && u in UniqueLists(s)
    ensures k !in u
  {
    hide InSomeIndex, IndexColumns, IsUniqueConstraint, LowerAll;
    var x :| x in s.indexes && IsUniqueConstraint(x) && LowerAll(IndexColumns(x)) == u;
    if k in u {
      UsedByIndex(s, x, k);
    }
  }

  lemma NotInFks(t: TableSnapshot, k: string, f: FkState)
    requires WfForeignKeys(t) && k !in ColumnMap(t) && f in FkStates(t)
    ensures k !in f.columns
  {
    hide ColumnMap, WfForeignKey, FkKey, FkObjectKey, FkOf, FkClauseOf;
    var x :| x in t.foreignKeys && FkOf(FkClauseOf(x)) == f;
    FkColumnsKnown(t, x, k);
  }

  lemma FkColumnsKnown(t: TableSnapshot, x: ForeignKeyInfo, k: string)
    requires WfForeignKey(t, x) && k !in ColumnMap(t)
    ensures k !in FkOf(FkClauseOf(x)).columns
  {
    hide ColumnMap, Lower, NameOk;
    forall i | 0 <= i < |x.columns| ensures LowerAll(x.columns)[i] != k {}
  }

  lemma NotInIndexes(s: TableSnapshot, t: TableSnapshot, d: Done, x: Table, k: string, n: string)
    requires x.def.indexes == UserIndexStates(s) && WfTable(t) && k !in ColumnMap(t) && !InSomeIndex(s, k)
    requires n in MidIndexes(t, d, x.def.indexes)
    ensures k !in MidIndexes(t, d, x.def.indexes)[n].columns
  {
    hide WfTable, SecondaryMap, ColumnMap, InSomeIndex, IndexColumns, LowerAll, IsUserIndex, WfIndex;
    TargetHas(t, n);
    PatchedAt(x.def.indexes, d.unindexed, d.indexed, TargetIndexes(t), n);
    hide Patched, TargetIndexes;
    if n in d.indexed && n in SecondaryMap(t) {
      var idx := SecondaryMap(t)[n];
      IndexNameOk(t, n);
      IndexColumnsInTable(t, idx, k);
    } else {
      SecondaryMapKeyed(s, n);
      if k in LowerAll(IndexColumns(SecondaryMap(s)[n])) {
        UsedByIndex(s, SecondaryMap(s)[n], k);
      }
    }
  }

  lemma IndexColumnsInTable(t: TableSnapshot, idx: IndexInfo, k: string)
    requires WfIndex(t, idx) && k !in ColumnMap(t)
    ensures k !in LowerAll(IndexColumns(idx))
  {
    IndexColumnsKnown(t, idx);
    hide Lower, ColumnMap, IndexColumns, WfIndex;
    forall i | 0 <= i < |IndexColumns(idx)| ensures LowerAll(IndexColumns(idx))[i] != k {}
  }

  lemma DropAllowed(s: TableSnapshot, t: TableSnapshot, opts: Options, k: string)
    requires Agrees(s, t, opts) && ColumnAdded(t, s, k)
    ensures !ColumnMap(s)[k].isPrimaryKey && !InSomeIndex(s, k)
  {
    hide ColumnMap, InSomeIndex, UniqueLists, FkStates, OnlyUserIndexes, SamePk, ColumnFlags;
  }

  lemma StartDef(s: TableSnapshot, t: TableSnapshot, x: Table)
    requires Starts(s, t, x)
    ensures PkOfEither(x.def, s, t) && x.def.uniques == UniqueLists(s)
    ensures x.def.fks == FkStates(s) && x.def.indexes == UserIndexStates(s)
  {
    hide PkColumns, UniqueLists, FkStates, UserIndexStates, SameColumns;
  }

  lemma UnusedIs(def: TableDef, k: string)
    requires k !in def.pk && (forall u :: u in def.uniques ==> k !in u) && (forall f :: f in def.fks ==> k !in f.columns)
    requires forall n :: n in def.indexes ==> k !in def.indexes[n].columns
    ensures !ColumnUsed(def, k)
  {
  }

  lemma DroppedUnused(s: TableSnapshot, t: TableSnapshot, opts: Options, d: Done, x: Table, k: string)
    requires WfTable(s) && WfTable(t) && Agrees(s, t, opts) && Starts(s, t, x) && ColumnAdded(t, s, k)
    ensures !ColumnUsed(Mid(t, d, x).def, k)
  {
    hide Starts, WfTable, WfColumns, WfForeignKeys, Agrees, ColumnMap, InSomeIndex, PkColumns, UniqueLists, FkStates, MidIndexes, MidColumns, MidRows,
      ColumnUsed, LowerAll, UserIndexStates;
    DropAllowed(s, t, opts, k);
    StartDef(s, t, x);
    WfParts(s);
    WfParts(t);
    AgreedFks(s, t, opts);
    NotInPk(s, k);
    NotKnown(t, k);
    var def := Mid(t, d, x).def;
    forall u | u in def.uniques ensures k !in u { NotInUniques(s, k, u); }
    forall f | f in def.fks ensures k !in f.columns { NotInFks(t, k, f); }
    forall n | n in def.indexes ensures k !in def.indexes[n].columns { NotInIndexes(s, t, d, x, k, n); }
    UnusedIs(def, k);
  }

  lemma AgreedFks(s: TableSnapshot, t: TableSnapshot, opts: Options)
    requires Agrees(s, t, opts)
    ensures FkStates(s) == FkStates(t)
  {
    hide FkStates, UniqueLists, SamePk, OnlyUserIndexes, InSomeIndex, ColumnMap, ColumnFlags;
  }
}
