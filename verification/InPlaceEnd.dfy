/// Where the entries of an in-place table end: in the target's shape, with every
/// row carried over, exactly when the data lets them all through.
module InPlaceEnd {
  import opened Text
  import opened Sequences
  import opened Normalize
  import opened TypeNames
  import opened Snapshots
  import opened Plan
  import opened PlanOrder
  import opened Mirror
  import opened Script
  import opened Defaults
  import opened Database
  import opened Locality
  import opened WellFormed
  import opened PlanIds
  import opened Shape
  import opened Agreement
  import opened InPlaceTables
  import opened InPlaceRuns

  lemma UnalteredColumn(c: ColState, a: ColumnInfo, b: ColumnInfo, opts: Options)
    requires SameColumn(c, a, opts.ignoreDefaults) && ColumnFlags(Sqlite, a, b, opts) == []
    ensures SameColumn(c, b, opts.ignoreDefaults)
  {
    hide NormalizeType, NormalizeDefault;
  }

  lemma EndColumns(s: TableSnapshot, t: TableSnapshot, opts: Options, d: Done, cols: map<string, ColState>)
    requires Ready(s, t, d) && DoneOk(s, t, d) && SameColumns(cols, s, opts.ignoreDefaults) && Agrees(s, t, opts)
    ensures SameColumns(MidColumns(t, d, cols), t, opts.ignoreDefaults)
  {
    ReadyColumns(s, t, d, cols);
    hide ColumnMap, Patched, TargetColumns, IndexAdded, SameColumn, UniqueLists, FkStates, SamePk, OnlyUserIndexes, InSomeIndex, ColumnFlags;
    var mid := MidColumns(t, d, cols);
    forall k | k in mid ensures SameColumn(mid[k], ColumnMap(t)[k], opts.ignoreDefaults) {
      PatchedAt(cols, d.dropped, d.added, TargetColumns(t), k);
      TargetHas(t, k);
      assert k in ColumnMap(t);
      if k in d.added {
        DefinedColumn(ColumnMap(t)[k]);
        IgnoreMore(TargetColumn(t, k), ColumnMap(t)[k], opts.ignoreDefaults);
      } else {
        assert !ColumnAltered(Sqlite, s, t, opts, k);
        UnalteredColumn(cols[k], ColumnMap(s)[k], ColumnMap(t)[k], opts);
      }
    }
  }

  lemma IgnoreMore(c: ColState, i: ColumnInfo, ignore: bool)
    requires SameColumn(c, i, false)
    ensures SameColumn(c, i, ignore)
  {
  }

  lemma KeptIndex(s: TableSnapshot, t: TableSnapshot, k: string)
    requires WfTable(s) && WfTable(t) && k in SecondaryMap(s) && k in SecondaryMap(t) && SameIndex(SecondaryMap(s)[k], SecondaryMap(t)[k])
    ensures IndexStateOf(SecondaryMap(s)[k]) == IndexStateOf(SecondaryMap(t)[k])
    ensures IsUserIndex(SecondaryMap(s)[k]) == IsUserIndex(SecondaryMap(t)[k])
  {
    IndexNameOk(s, k);
    IndexNameOk(t, k);
    SecondaryMapKeyed(s, k);
    SecondaryMapKeyed(t, k);
    hide WfTable, SecondaryMap, IndexSig, IndexColumns, IsAutoIndex, NameOk, Lower, ColumnMap, IndexKey, IndexObject;
    var a, b := SecondaryMap(s)[k], SecondaryMap(t)[k];
    SigColumns(s, t, a, b);
    AutoByKey(a, b);
  }

  lemma EndIndex(s: TableSnapshot, t: TableSnapshot, opts: Options, d: Done, k: string)
    requires WfTable(s) && WfTable(t) && Ready(s, t, d) && DoneOk(s, t, d) && Agrees(s, t, opts)
    requires forall l :: IndexAdded(s, t, l) ==> l in d.indexed
    ensures var m, u := MidIndexes(t, d, UserIndexStates(s)), UserIndexStates(t);
      (k in m <==> k in u) && (k in m ==> m[k] == u[k])
  {
    OnlyUsers(s, t, opts, k);
    assert k in d.indexed <==> IndexAdded(s, t, k);
    assert k in d.unindexed <==> IndexAdded(t, s, k);
    hide WfTable, Ready, DoneOk, Agrees, Patched, TargetIndexes, SecondaryMap, IsUserIndex, SameIndex, IndexStateOf;
    PatchedAt(UserIndexStates(s), d.unindexed, d.indexed, TargetIndexes(t), k);
    TargetHas(t, k);
    SameIndexSymmetric(s, t, k);
    if k in SecondaryMap(s) && k in SecondaryMap(t) && SameIndex(SecondaryMap(s)[k], SecondaryMap(t)[k]) {
      KeptIndex(s, t, k);
    }
  }

  lemma SameIndexSymmetric(s: TableSnapshot, t: TableSnapshot, k: string)
    ensures k in SecondaryMap(s) && k in SecondaryMap(t)
      ==> SameIndex(SecondaryMap(s)[k], SecondaryMap(t)[k]) == SameIndex(SecondaryMap(t)[k], SecondaryMap(s)[k])
  {
    hide SecondaryMap, IndexSig;
  }

  lemma OnlyUsers(s: TableSnapshot, t: TableSnapshot, opts: Options, k: string)
    requires Agrees(s, t, opts)
    ensures (IndexAdded(s, t, k) ==> IsUserIndex(SecondaryMap(t)[k])) && (IndexAdded(t, s, k) ==> IsUserIndex(SecondaryMap(s)[k]))
  {
    hide SecondaryMap, IsUserIndex, SameIndex, UniqueLists, FkStates, SamePk, ColumnAltered, InSomeIndex, ColumnMap;
  }

  lemma EndIndexes(s: TableSnapshot, t: TableSnapshot, opts: Options, d: Done)
    requires WfTable(s) && WfTable(t) && Ready(s, t, d) && DoneOk(s, t, d) && Agrees(s, t, opts)
    requires forall l :: IndexAdded(s, t, l) ==> l in d.indexed
    ensures MidIndexes(t, d, UserIndexStates(s)) == UserIndexStates(t)
  {
    hide WfTable, Ready, DoneOk, Agrees, MidIndexes, UserIndexStates, IndexAdded;
    forall k ensures var m, u := MidIndexes(t, d, UserIndexStates(s)), UserIndexStates(t); (k in m <==> k in u) && (k in m ==> m[k] == u[k]) {
      EndIndex(s, t, opts, d, k);
    }
  }

  /** In-place changes reach the target's shape in everything but the primary key, which they leave alone. */
  lemma EndRealises(s: TableSnapshot, t: TableSnapshot, opts: Options, d: Done, x: Table)
    requires WfTable(s) && WfTable(t) && Ready(s, t, d) && DoneOk(s, t, d) && Agrees(s, t, opts) && Starts(s, t, x)
    requires SameColumns(x.def.cols, s, opts.ignoreDefaults)
    requires forall l :: IndexAdded(s, t, l) ==> l in d.indexed
    ensures var y := Mid(t, d, x);
      y.rows == Fit(s, t, x.rows) && RowsTyped(y) && y.def.pk == x.def.pk && RealisesButPk(y.def, t, opts.ignoreDefaults)
  {
    hide WfTable, Ready, DoneOk, Agrees, IndexAdded, MidColumns, MidIndexes, MidRows, PkColumns, UniqueLists, FkStates, UserIndexStates, ColumnMap,
      SameColumn, Starts, LowerAll, FitRow, SameColumns;
    ReadyRows(s, t, d, x);
    EndIndexes(s, t, opts, d);
    AgreedFks(s, t, opts);
    AgreedUniques(s, t, opts);
    StartDef(s, t, x);
    EndColumns(s, t, opts, d, x.def.cols);
    EndKeys(MidColumns(t, d, x.def.cols), t, opts.ignoreDefaults);
    FitKeys(s, t, x.rows);
  }

  lemma EndKeys(cols: map<string, ColState>, t: TableSnapshot, ignore: bool)
    requires SameColumns(cols, t, ignore)
    ensures cols.Keys == ColumnMap(t).Keys
  {
    hide ColumnMap, SameColumn;
  }

  lemma FitKeys(s: TableSnapshot, t: TableSnapshot, rows: seq<Row>)
    ensures forall i :: 0 <= i < |rows| ==> Fit(s, t, rows)[i].Keys == ColumnMap(t).Keys
  {
    hide ColumnMap, DefaultValue;
  }

  lemma AgreedUniques(s: TableSnapshot, t: TableSnapshot, opts: Options)
    requires Agrees(s, t, opts)
    ensures UniqueLists(s) == UniqueLists(t)
  {
    hide FkStates, UniqueLists, SamePk, OnlyUserIndexes, InSomeIndex, ColumnMap, ColumnFlags;
  }

  // ---- The data condition, without the plan ----

  /** Every new column can be added and every new unique index holds on the carried-over rows. */
  ghost predicate InPlaceFits(s: TableSnapshot, t: TableSnapshot, rows: seq<Row>) {
    && (forall k :: ColumnAdded(s, t, k) ==> ColumnAddable(TargetColumn(t, k), rows))
    && (forall k :: IndexAdded(s, t, k) ==> IndexDataFits(SecondaryMap(t)[k], Fit(s, t, rows)))
  }

  /** The DEFAULT clause of every new column is one SQLite takes. */
  ghost predicate AddedDefaultsOk(s: TableSnapshot, t: TableSnapshot) {
    forall k :: ColumnAdded(s, t, k) ==> ClauseOk(TargetColumn(t, k).dflt)
  }

  /** Every new column can be filled in and every new unique index holds on the carried-over rows. */
  ghost predicate InPlaceData(s: TableSnapshot, t: TableSnapshot, rows: seq<Row>) {
    && (forall k :: ColumnAdded(s, t, k) ==> Fillable(TargetColumn(t, k), rows))
    && (forall k :: IndexAdded(s, t, k) ==> IndexDataFits(SecondaryMap(t)[k], Fit(s, t, rows)))
  }

  lemma InPlaceFitsIs(s: TableSnapshot, t: TableSnapshot, rows: seq<Row>)
    ensures InPlaceFits(s, t, rows) <==> AddedDefaultsOk(s, t) && InPlaceData(s, t, rows)
  {
    hide ColumnMap, SecondaryMap, TargetColumn, Fillable, ClauseOk, IndexDataFits, Fit;
    if InPlaceFits(s, t, rows) {
      forall k | ColumnAdded(s, t, k) ensures ClauseOk(TargetColumn(t, k).dflt) && Fillable(TargetColumn(t, k), rows) {
        assert ColumnAddable(TargetColumn(t, k), rows);
      }
    }
  }

  lemma FitsByEntry(s: TableSnapshot, t: TableSnapshot, opts: Options, es: seq<Entry>, rows: seq<Row>)
    requires TablePlan(s, t, opts, es) && AllInPlace(s, t, es)
    ensures EntriesFit(s, t, es, rows) <==> InPlaceFits(s, t, rows)
  {
    hide TablePlan, TargetColumn, ColumnAddable, IndexDataFits, Fit, ColumnMap, SecondaryMap, SameIndex, IsUserIndex, DiffTable, Lower, Trim;
    if EntriesFit(s, t, es, rows) {
      forall k | ColumnAdded(s, t, k) ensures ColumnAddable(TargetColumn(t, k), rows) {
        AddColumnListed(s, t, opts, k);
        HoldsIfListed(s, t, opts, es, AddColumn, k);
        var e :| e in es && e.op == AddColumn && EntryKey(e) == k;
        var i :| 0 <= i < |es| && es[i] == e;
        assert EntryFits(s, t, es[i], rows);
      }
      forall k | IndexAdded(s, t, k) ensures IndexDataFits(SecondaryMap(t)[k], Fit(s, t, rows)) {
        AddIndexListed(s, t, opts, k);
        HoldsIfListed(s, t, opts, es, AddIndex, k);
        var e :| e in es && e.op == AddIndex && EntryKey(e) == k;
        var i :| 0 <= i < |es| && es[i] == e;
        assert EntryFits(s, t, es[i], rows);
      }
    }
    if InPlaceFits(s, t, rows) {
      forall i | 0 <= i < |es| ensures EntryFits(s, t, es[i], rows) {
        assert InPlaceEntry(s, t, es[i]);
      }
    }
  }

  lemma AllShapes(s: TableSnapshot, t: TableSnapshot, opts: Options, es: seq<Entry>)
    requires WfTable(s) && WfTable(t) && InPlace(s, t, opts) && TablePlan(s, t, opts, es)
    ensures AllInPlace(s, t, es)
  {
    hide WfTable, DiffTable, NeedsRebuild, InPlaceEntry, DistinctTags, PhasesAscend;
    forall i | 0 <= i < |es| ensures InPlaceEntry(s, t, es[i]) {
      assert es[i] in es;
      InPlaceShape(s, t, opts, es[i]);
    }
  }

  /**
   * The entries of an in-place table run to the end exactly when the data fits;
   * then every row is carried over, and all but the primary key is the target's.
   */
  lemma InPlaceTable(s: TableSnapshot, t: TableSnapshot, opts: Options, es: seq<Entry>, x: Table)
    requires WfTable(s) && WfTable(t) && InPlace(s, t, opts) && CommonColumn(s, t) && Starts(s, t, x) && TablePlan(s, t, opts, es)
    requires SameColumns(x.def.cols, s, opts.ignoreDefaults)
    ensures AllInPlace(s, t, es)
    ensures var r := EntriesRun(s, t, es, x);
      && (r.Some? <==> InPlaceFits(s, t, x.rows))
      && (r.Some? ==> r.value.rows == Fit(s, t, x.rows) && RowsTyped(r.value)
                      && r.value.def.pk == x.def.pk && RealisesButPk(r.value.def, t, opts.ignoreDefaults))
  {
    AllShapes(s, t, opts, es);
    InPlaceAgrees(s, t, opts);
    hide WfTable, InPlace, CommonColumn, Starts, TablePlan, Agrees, Mid, EntriesFit, InPlaceFits, RealisesButPk, RowsTyped, Fit, SameColumns,
      EntriesRun, InPlaceEntry, DoneBy, Ready, DoneOk, IndexAdded;
    assert es[..|es|] == es;
    PrefixRun(s, t, opts, es, |es|, x);
    FitsByEntry(s, t, opts, es, x.rows);
    ReadyAtEnd(s, t, opts, es);
    DoneIsOk(s, t, es);
    EndRealises(s, t, opts, DoneBy(es), x);
  }
}
