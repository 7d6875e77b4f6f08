/// The entries of an in-place table in plan order: they succeed exactly when the
/// data allows each, and leave the target's shape.
module InPlaceRuns {
  import opened Text
  import opened Sequences
  import opened Normalize
  import opened TypeNames
  import opened Snapshots
  import opened Plan
  import opened PlanOrder
  import opened Mirror
  import opened Script
  import opened Defaults
  import opened Database
  import opened Locality
  import opened WellFormed
  import opened PlanIds
  import opened Shape
  import opened Agreement
  import opened InPlaceTables

  predicate AllInPlace(s: TableSnapshot, t: TableSnapshot, es: seq<Entry>) {
    forall i :: 0 <= i < |es| ==> InPlaceEntry(s, t, es[i])
  }

  function EntriesRun(s: TableSnapshot, t: TableSnapshot, es: seq<Entry>, x: Table): Option<Table>
    requires AllInPlace(s, t, es)
  {
    if es == [] then Some(x) else
    var before := EntriesRun(s, t, es[..|es| - 1], x);
    if before.None? then None else EntryStep(s, t, es[|es| - 1], before.value)
  }

  /** The data lets the entry through: ADD COLUMN and unique CREATE INDEX look at the rows. */
  predicate EntryFits(s: TableSnapshot, t: TableSnapshot, e: Entry, rows: seq<Row>)
    requires InPlaceEntry(s, t, e)
  {
    match e.op
    case AddColumn => ColumnAddable(TargetColumn(t, EntryKey(e)), rows)
    case AddIndex => IndexDataFits(SecondaryMap(t)[EntryKey(e)], Fit(s, t, rows))
    case _ => true
  }

  predicate EntriesFit(s: TableSnapshot, t: TableSnapshot, es: seq<Entry>, rows: seq<Row>)
    requires AllInPlace(s, t, es)
  {
    forall i :: 0 <= i < |es| ==> EntryFits(s, t, es[i], rows)
  }

  // ---- Where the entries stand ----

  /** All entries of the table's comparison, each once, phases ascending. */
  ghost predicate TablePlan(s: TableSnapshot, t: TableSnapshot, opts: Options, es: seq<Entry>) {
    && (forall e :: e in es <==> e in DiffTable(Sqlite, s, t, opts))
    && DistinctTags(es) && PhasesAscend(es)
  }

  lemma AddColumnListed(s: TableSnapshot, t: TableSnapshot, opts: Options, k: string)
    requires ColumnAdded(s, t, k)
    ensures exists e :: e in DiffTable(Sqlite, s, t, opts) && e.op == AddColumn && EntryKey(e) == k
  {
    hide ColumnMap, DiffColumns, DiffIndexes, DiffForeignKeys;
    ColumnMapKeyed(t, k);
    var e := Mk(AddColumn, t.name, ColumnMap(t)[k].name, opts);
    ColumnEntry(Sqlite, t.name, s, t, opts, e);
    InTable(s, t, opts, e);
  }

  lemma DropColumnListed(s: TableSnapshot, t: TableSnapshot, opts: Options, k: string)
    requires ColumnAdded(t, s, k)
    ensures exists e :: e in DiffTable(Sqlite, s, t, opts) && e.op == DropColumn && EntryKey(e) == k
  {
    hide ColumnMap, DiffColumns, DiffIndexes, DiffForeignKeys;
    ColumnMapKeyed(s, k);
    var e := Mk(DropColumn, t.name, ColumnMap(s)[k].name, opts);
    ColumnEntry(Sqlite, t.name, s, t, opts, e);
    InTable(s, t, opts, e);
  }

  lemma DropIndexListed(s: TableSnapshot, t: TableSnapshot, opts: Options, k: string)
    requires IndexAdded(t, s, k)
    ensures exists e :: e in DiffTable(Sqlite, s, t, opts) && e.op == DropIndex && EntryKey(e) == k
  {
    hide SecondaryMap, SameIndex, DiffColumns, DiffSecondary, PrimaryEntries, DiffForeignKeys, IndexObject, Lower;
    SecondaryMapKeyed(s, k);
    KeyOfObject(SecondaryMap(s)[k]);
    var e := Mk(DropIndex, t.name, IndexObject(SecondaryMap(s)[k]), opts);
    SecondaryEntry(t.name, s, t, opts, e);
    InTable(s, t, opts, e);
    assert EntryKey(e) == k;
  }

  lemma AddIndexListed(s: TableSnapshot, t: TableSnapshot, opts: Options, k: string)
    requires IndexAdded(s, t, k)
    ensures exists e :: e in DiffTable(Sqlite, s, t, opts) && e.op == AddIndex && EntryKey(e) == k
  {
    hide SecondaryMap, SameIndex, DiffColumns, DiffSecondary, PrimaryEntries, DiffForeignKeys, IndexObject, Lower;
    SecondaryMapKeyed(t, k);
    KeyOfObject(SecondaryMap(t)[k]);
    var e := Mk(AddIndex, t.name, IndexObject(SecondaryMap(t)[k]), opts);
    SecondaryEntry(t.name, s, t, opts, e);
    InTable(s, t, opts, e);
    assert EntryKey(e) == k;
  }

  /** Entries of an earlier phase stand before entry n. */
  lemma EarlierPhase(es: seq<Entry>, n: nat, op: Op, k: string)
    requires PhasesAscend(es) && n < |es| && Phase(op) < Phase(es[n].op) && Holds(es, op, k)
    ensures Holds(es[..n], op, k)
  {
    hide EntryKey;
    var e :| e in es && e.op == op && EntryKey(e) == k;
    var j :| 0 <= j < |es| && es[j] == e;
    assert !(n < j);
    assert j < n;
    assert es[..n][j] == e;
  }

  /** Everything of the earlier phases is done. */
  ghost predicate Ready(s: TableSnapshot, t: TableSnapshot, d: Done) {
    && (forall k :: ColumnAdded(s, t, k) ==> k in d.added)
    && (forall k :: ColumnAdded(t, s, k) ==> k in d.dropped)
    && (forall k :: IndexAdded(t, s, k) ==> k in d.unindexed)
  }

  lemma HoldsIfListed(s: TableSnapshot, t: TableSnapshot, opts: Options, es: seq<Entry>, op: Op, k: string)
    requires TablePlan(s, t, opts, es) && exists e :: e in DiffTable(Sqlite, s, t, opts) && e.op == op && EntryKey(e) == k
    ensures Holds(es, op, k)
  {
    hide DiffTable, EntryKey, DistinctTags, PhasesAscend;
  }

  lemma ReadyAt(s: TableSnapshot, t: TableSnapshot, opts: Options, es: seq<Entry>, n: nat)
    requires TablePlan(s, t, opts, es) && n < |es| && es[n].op == AddIndex
    ensures Ready(s, t, DoneBy(es[..n]))
  {
    hide DiffTable, EntryKey, DistinctTags, ColumnAdded, IndexAdded, Holds, DoneBy, TablePlan;
    assert PhasesAscend(es) by { PlanAscends(s, t, opts, es); }
    hide PhasesAscend;
    forall k | ColumnAdded(s, t, k) ensures k in DoneBy(es[..n]).added {
      AddColumnListed(s, t, opts, k);
      HoldsIfListed(s, t, opts, es, AddColumn, k);
      EarlierPhase(es, n, AddColumn, k);
      DoneHas(es[..n], k);
    }
    forall k | ColumnAdded(t, s, k) ensures k in DoneBy(es[..n]).dropped {
      DropColumnListed(s, t, opts, k);
      HoldsIfListed(s, t, opts, es, DropColumn, k);
      EarlierPhase(es, n, DropColumn, k);
      DoneHas(es[..n], k);
    }
    forall k | IndexAdded(t, s, k) ensures k in DoneBy(es[..n]).unindexed {
      DropIndexListed(s, t, opts, k);
      HoldsIfListed(s, t, opts, es, DropIndex, k);
      EarlierPhase(es, n, DropIndex, k);
      DoneHas(es[..n], k);
    }
  }

  lemma PlanAscends(s: TableSnapshot, t: TableSnapshot, opts: Options, es: seq<Entry>)
    requires TablePlan(s, t, opts, es)
    ensures PhasesAscend(es)
  {
  }

  lemma ReadyAtEnd(s: TableSnapshot, t: TableSnapshot, opts: Options, es: seq<Entry>)
    requires TablePlan(s, t, opts, es)
    ensures Ready(s, t, DoneBy(es)) && forall k :: IndexAdded(s, t, k) ==> k in DoneBy(es).indexed
  {
    hide DiffTable, EntryKey, ColumnAdded, IndexAdded, Holds, DoneBy, TablePlan;
    forall k | ColumnAdded(s, t, k) ensures k in DoneBy(es).added {
      AddColumnListed(s, t, opts, k);
      HoldsIfListed(s, t, opts, es, AddColumn, k);
      DoneHas(es, k);
    }
    forall k | ColumnAdded(t, s, k) ensures k in DoneBy(es).dropped {
      DropColumnListed(s, t, opts, k);
      HoldsIfListed(s, t, opts, es, DropColumn, k);
      DoneHas(es, k);
    }
    forall k | IndexAdded(t, s, k) ensures k in DoneBy(es).unindexed {
      DropIndexListed(s, t, opts, k);
      HoldsIfListed(s, t, opts, es, DropIndex, k);
      DoneHas(es, k);
    }
    forall k | IndexAdded(s, t, k) ensures k in DoneBy(es).indexed {
      AddIndexListed(s, t, opts, k);
      HoldsIfListed(s, t, opts, es, AddIndex, k);
      DoneHas(es, k);
    }
  }

  // ---- Ready rows and columns are the target's ----

  lemma ReadyColumns(s: TableSnapshot, t: TableSnapshot, d: Done, cols: map<string, ColState>)
    requires Ready(s, t, d) && DoneOk(s, t, d) && cols.Keys == ColumnMap(s).Keys
    ensures MidColumns(t, d, cols).Keys == ColumnMap(t).Keys
  {
    hide ColumnMap, Patched, TargetColumns, IndexAdded, TargetColumn;
    forall k ensures k in MidColumns(t, d, cols) <==> k in ColumnMap(t) {
      PatchedAt(cols, d.dropped, d.added, TargetColumns(t), k);
      TargetHas(t, k);
      assert ColumnAdded(s, t, k) || ColumnAdded(t, s, k) || (k in ColumnMap(s) <==> k in ColumnMap(t));
    }
  }

  lemma ReadyRow(s: TableSnapshot, t: TableSnapshot, d: Done, row: Row)
    requires Ready(s, t, d) && DoneOk(s, t, d) && row.Keys == ColumnMap(s).Keys
    ensures Patched(row, d.dropped, d.added, TargetDefaults(t)) == FitRow(s, t, row)
  {
    hide ColumnMap, Patched, TargetDefaults, IndexAdded, TargetColumn, DefaultValue;
    var r := Patched(row, d.dropped, d.added, TargetDefaults(t));
    forall k ensures (k in r <==> k in ColumnMap(t)) && (k in r ==> r[k] == FitRow(s, t, row)[k]) {
      PatchedAt(row, d.dropped, d.added, TargetDefaults(t), k);
      TargetHas(t, k);
      assert ColumnAdded(s, t, k) || ColumnAdded(t, s, k) || (k in ColumnMap(s) <==> k in ColumnMap(t));
      if ColumnAdded(s, t, k) {
        AddedDefault(t, k);
      }
    }
  }

  lemma AddedDefault(t: TableSnapshot, k: string)
    requires k in ColumnMap(t)
    ensures DefaultValue(TargetColumn(t, k).dflt) == DefaultValue(ColumnMap(t)[k].defaultValue)
  {
    hide ColumnMap, DefaultValue, StoredDefault, NormalizeType;
    DefinedColumn(ColumnMap(t)[k]);
  }

  lemma ReadyRows(s: TableSnapshot, t: TableSnapshot, d: Done, x: Table)
    requires Ready(s, t, d) && DoneOk(s, t, d) && Starts(s, t, x)
    ensures MidRows(t, d, x.rows) == Fit(s, t, x.rows)
  {
    assert x.def.cols.Keys == ColumnMap(s).Keys;
    hide ColumnMap, Patched, TargetDefaults, FitRow, Ready, DoneOk, Realises;
    forall i | 0 <= i < |x.rows| ensures MidRows(t, d, x.rows)[i] == FitRow(s, t, x.rows[i]) {
      ReadyRow(s, t, d, x.rows[i]);
    }
  }

  // ---- One more entry ----

  lemma DoneIsOk(s: TableSnapshot, t: TableSnapshot, es: seq<Entry>)
    requires AllInPlace(s, t, es)
    ensures DoneOk(s, t, DoneBy(es))
  {
    hide DoneBy, ColumnAdded, IndexAdded, EntryKey, ColumnMap, SecondaryMap, IsUserIndex;
    var d := DoneBy(es);
    forall k ensures (k in d.added ==> ColumnAdded(s, t, k)) && (k in d.dropped ==> ColumnAdded(t, s, k))
      && (k in d.indexed ==> IndexAdded(s, t, k)) && (k in d.unindexed ==> IndexAdded(t, s, k))
    {
      DoneHas(es, k);
    }
  }

  lemma FreshAt(es: seq<Entry>, n: nat)
    requires DistinctTags(es) && n < |es| && forall i :: 0 <= i < |es| ==> es[i].table == es[n].table
    ensures !Holds(es[..n], es[n].op, EntryKey(es[n]))
  {
    hide Lower;
    forall j | 0 <= j < n ensures TagOf(es[..n][j]) != TagOf(es[n]) {
      assert Map(TagOf, es)[j] != Map(TagOf, es)[n];
    }
    assert forall e :: e in es[..n] ==> TagOf(e) != TagOf(es[n]) && e.table == es[n].table;
  }

  lemma NoneIndexed(es: seq<Entry>, n: nat)
    requires PhasesAscend(es) && n < |es| && es[n].op == DropIndex
    ensures DoneBy(es[..n]).indexed == {}
  {
    forall j | 0 <= j < n ensures es[..n][j].op != AddIndex {
      assert Phase(es[j].op) <= Phase(es[n].op);
    }
    assert forall e :: e in es[..n] ==> e.op != AddIndex;
    forall k ensures k !in DoneBy(es[..n]).indexed {
      DoneHas(es[..n], k);
    }
  }

  lemma ReplacedIndex(s: TableSnapshot, t: TableSnapshot, d: Done, k: string)
    requires Ready(s, t, d) && IndexAdded(s, t, k) && k in SecondaryMap(s)
    ensures k in d.unindexed
  {
    hide SecondaryMap, IndexSig, ColumnAdded;
    assert IndexAdded(t, s, k);
  }

  lemma StepAt(s: TableSnapshot, t: TableSnapshot, opts: Options, es: seq<Entry>, n: nat, x: Table)
    requires WfTable(s) && WfTable(t) && Agrees(s, t, opts) && CommonColumn(s, t) && Starts(s, t, x)
    requires TablePlan(s, t, opts, es) && AllInPlace(s, t, es) && n < |es|
    ensures EntryStep(s, t, es[n], Mid(t, DoneBy(es[..n]), x))
         == if EntryFits(s, t, es[n], x.rows) then Some(Mid(t, DoneWith(DoneBy(es[..n]), es[n]), x)) else None
  {
    var e, k, d := es[n], EntryKey(es[n]), DoneBy(es[..n]);
    assert InPlaceEntry(s, t, e);
    assert forall i :: 0 <= i < |es| ==> InPlaceEntry(s, t, es[i]) && es[i].table == e.table by { SameTable(s, t, es, n); }
    assert PhasesAscend(es) && DistinctTags(es) by { hide Agrees, WfTable; }
    hide WfTable, Agrees, CommonColumn, Starts, TablePlan, ColumnMap, SecondaryMap, Mid, DoneBy, IndexDataFits, ColumnAddable,
      TargetColumn, IndexStateOf, AddColumnTo, DropColumnFrom, AddIndexTo, DropIndexFrom, PhasesAscend, DistinctTags, Fit, Ready, DoneOk,
      SameIndex, IsUserIndex, Lower;
    assert AllInPlace(s, t, es[..n]);
    DoneIsOk(s, t, es[..n]);
    FreshAt(es, n);
    DoneHas(es[..n], k);
    match e.op
    case AddColumn => AddColumnStep(s, t, d, x, k);
    case DropColumn =>
      DroppedUnused(s, t, opts, d, x, k);
      DropColumnStep(s, t, d, x, k);
    case DropIndex =>
      NoneIndexed(es, n);
      DropIndexStep(s, t, d, x, k);
    case AddIndex =>
      ReadyAt(s, t, opts, es, n);
      ReadyRows(s, t, d, x);
      StartColumns(s, t, x);
      ReadyColumns(s, t, d, x.def.cols);
      if k in SecondaryMap(s) {
        ReplacedIndex(s, t, d, k);
      }
      AddIndexStep(s, t, d, x, k);
    case _ =>
  }

  lemma SameTable(s: TableSnapshot, t: TableSnapshot, es: seq<Entry>, n: nat)
    requires AllInPlace(s, t, es) && n < |es|
    ensures forall i :: 0 <= i < |es| ==> InPlaceEntry(s, t, es[i]) && es[i].table == es[n].table
  {
    hide ColumnAdded, IndexAdded, SecondaryMap, ColumnMap, EntryKey, IsUserIndex;
  }

  lemma StartColumns(s: TableSnapshot, t: TableSnapshot, x: Table)
    requires Starts(s, t, x)
    ensures x.def.cols.Keys == ColumnMap(s).Keys
  {
    hide PkColumns, UniqueLists, FkStates, UserIndexStates, SameColumn;
  }

  // ---- All entries ----

  lemma {:induction false} PrefixRun(s: TableSnapshot, t: TableSnapshot, opts: Options, es: seq<Entry>, n: nat, x: Table)
    requires WfTable(s) && WfTable(t) && Agrees(s, t, opts) && CommonColumn(s, t) && Starts(s, t, x)
    requires TablePlan(s, t, opts, es) && AllInPlace(s, t, es) && n <= |es| && AllInPlace(s, t, es[..n])
    ensures EntriesRun(s, t, es[..n], x)
         == if EntriesFit(s, t, es[..n], x.rows) then Some(Mid(t, DoneBy(es[..n]), x)) else None
  {
    hide WfTable, Agrees, CommonColumn, Starts, TablePlan, Mid, EntryFits, EntryStep, InPlaceEntry, DoneWith;
    if n == 0 {
      MidNothing(t, x);
    } else {
      var pre := es[..n];
      assert pre[..|pre| - 1] == es[..n - 1] && pre[|pre| - 1] == es[n - 1];
      assert AllInPlace(s, t, es[..n - 1]);
      PrefixRun(s, t, opts, es, n - 1, x);
      StepAt(s, t, opts, es, n - 1, x);
      assert EntriesFit(s, t, pre, x.rows) <==> EntriesFit(s, t, es[..n - 1], x.rows) && EntryFits(s, t, es[n - 1], x.rows) by {
        assert forall i :: 0 <= i < n - 1 ==> es[..n - 1][i] == pre[i];
      }
    }
  }
}
