/// The generated script and its rollback, run one after the other
/// (go/pkg/schemadiff/ddl.go:880-914).
module Rollback {
  import opened Text
  import opened Sequences
  import opened TypeNames
  import opened Snapshots
  import opened Plan
  import opened PlanOrder
  import opened Mirror
  import opened Script
  import opened Database
  import opened Locality
  import opened Runs
  import opened WellFormed
  import opened PlanIds
  import opened Shape
  import opened Agreement
  import opened InPlaceTables
  import opened InPlaceEnd
  import opened ScriptUnits
  import opened PlanUnits
  import opened TableRuns
  import opened Convergence
  import opened FullScript

  function PlanOf(source: Snapshot, target: Snapshot, opts: Options): seq<Entry> {
    var d := Diff(source, target, opts);
    if d.Ok? then d.value else []
  }

  lemma PlanIs(source: Snapshot, target: Snapshot, opts: Options)
    requires WfSnapshot(source) && WfSnapshot(target)
    ensures Diff(source, target, opts) == Ok(PlanOf(source, target, opts)) && Comparable(source, target) && source.kind == Sqlite
  {
  }

  // ---- The rollback entries are the reverse plan ----

  lemma ReverseIsWhole(source: Snapshot, target: Snapshot, opts: Options)
    requires WfSnapshot(source) && WfSnapshot(target)
    ensures var want := set id | id in MirrorIds(PlanOf(source, target, opts));
      Filter(PlanOf(target, source, opts), WithIds(want)) == PlanOf(target, source, opts)
  {
    PlanIs(source, target, opts);
    PlanIs(target, source, opts);
    MirrorLaw(source, target, opts);
    hide WfSnapshot, Diff, Id, MirrorIds, Comparable, PlanOf;
    var fwd, rev := PlanOf(source, target, opts), PlanOf(target, source, opts);
    var want := set id | id in MirrorIds(fwd);
    forall i | 0 <= i < |rev| ensures WithIds(want)(rev[i]) {
      assert Ids(rev)[i] == Id(rev[i]);
      assert Id(rev[i]) in Ids(rev) && Id(rev[i]) in multiset(Ids(rev));
      assert Id(rev[i]) in multiset(MirrorIds(fwd));
    }
    FilterKeepsAll(rev, WithIds(want));
  }

  // ---- Every table rebuilt forward is rebuilt back ----

  lemma MirrorEntry(source: Snapshot, target: Snapshot, opts: Options, e: Entry)
    requires WfSnapshot(source) && WfSnapshot(target) && e in PlanOf(source, target, opts)
    ensures exists r :: r in PlanOf(target, source, opts) && TagOf(r) == MirrorTag(e)
  {
    PlanIs(source, target, opts);
    PlanIs(target, source, opts);
    TagLaw(source, target, opts);
    hide WfSnapshot, Diff, TagOf, MirrorTag, Comparable, PlanOf;
    var fwd, rev := PlanOf(source, target, opts), PlanOf(target, source, opts);
    MapMember(MirrorTag, fwd, MirrorTag(e));
    assert MirrorTag(e) in multiset(Map(MirrorTag, fwd));
    assert MirrorTag(e) in multiset(Map(TagOf, rev));
    MapMember(TagOf, rev, MirrorTag(e));
  }

  lemma RebuiltBack(source: Snapshot, target: Snapshot, opts: Options)
    requires WfSnapshot(source) && WfSnapshot(target)
    ensures var rebuilt := Rebuilds(source, target, PlanOf(source, target, opts), {});
      rebuilt <= Rebuilds(target, source, PlanOf(target, source, opts), rebuilt)
  {
    var fwd, rev := PlanOf(source, target, opts), PlanOf(target, source, opts);
    var rebuilt := Rebuilds(source, target, fwd, {});
    hide WfSnapshot, Diff, NeedsRebuild, PlanOf, TableMap, CyclicSet, TakenNames, Lower;
    forall k | k in rebuilt ensures k in Rebuilds(target, source, rev, rebuilt) {
      var e :| e in fwd && Lower(e.table) == k;
      MirrorEntry(source, target, opts, e);
      var r :| r in rev && TagOf(r) == MirrorTag(e);
      assert Lower(r.table) == k;
    }
  }

  // ---- What Generate returns for the whole plan ----

  lemma EmitStops(source: Snapshot, target: Snapshot, entries: seq<Entry>, forced: set<string>)
    ensures var all, rebuild := AllStatements(EmissionOf(source, target, entries), ScriptBlocks(source, target, entries, forced)), Rebuilds(source, target, entries, forced);
      EmitScript(source, target, entries, forced) == if all.Ok? then Ok((Wrapped(all.value, rebuild), rebuild)) else Stopped(all)
  {
    hide EmissionOf, Blocks, Wrapped, AllStatements, RebuildSet;
  }

  lemma ChosenEmits(source: Snapshot, target: Snapshot, opts: Options, entries: seq<Entry>, forced: set<string>)
    requires Chosen(source, target, opts, entries, forced)
    ensures var out := EmitScript(source, target, entries, forced);
      && (out.Ok? <==> NoStubs(source, target, entries, forced))
      && (if out.Ok? then out.value.1 == Rebuilds(source, target, entries, forced) else out == Panic)
  {
    hide *;
    EmitsOrPanics(source, target, opts, entries, forced);
    EmitStops(source, target, entries, forced);
    var all := AllStatements(EmissionOf(source, target, entries), ScriptBlocks(source, target, entries, forced));
    if !all.Ok? {
      StoppedIs(all);
    }
  }

  lemma StoppedIs(all: Outcome<seq<Statement>>)
    requires all == Panic
    ensures Stopped<seq<Statement>, (seq<Statement>, set<string>)>(all) == Panic
  {
  }

  lemma EmitsOk(source: Snapshot, target: Snapshot, opts: Options, forced: set<string>)
    requires WfPair(source, target) && forced <= TableMap(source).Keys * TableMap(target).Keys
    ensures var plan := PlanOf(source, target, opts);
      var out := EmitScript(source, target, plan, forced);
      && (out.Ok? <==> NoStubs(source, target, plan, forced))
      && (if out.Ok? then out.value.1 == Rebuilds(source, target, plan, forced) else out == Panic)
  {
    hide *;
    PairWf(source, target);
    PlanIs(source, target, opts);
    DiffIsWholePlan(source, target, opts);
    var plan := PlanOf(source, target, opts);
    Setting(source, target, opts, plan, forced);
    SettingChosen(source, target, opts, plan, forced);
    ChosenEmits(source, target, opts, plan, forced);
  }

  lemma RebuildsAreCommon(source: Snapshot, target: Snapshot, opts: Options)
    requires WfPair(source, target)
    ensures Rebuilds(source, target, PlanOf(source, target, opts), {}) <= TableMap(target).Keys * TableMap(source).Keys
  {
    hide *;
    PairWf(source, target);
    PlanIs(source, target, opts);
    DiffIsWholePlan(source, target, opts);
    var plan := PlanOf(source, target, opts);
    Setting(source, target, opts, plan, {});
    SettingChosen(source, target, opts, plan, {});
    RebuildsBoth(source, target, opts, plan, {});
  }

  ghost function Forward(source: Snapshot, target: Snapshot, opts: Options): Outcome<(seq<Statement>, set<string>)> {
    EmitScript(source, target, PlanOf(source, target, opts), {})
  }

  ghost function Back(source: Snapshot, target: Snapshot, opts: Options): Outcome<(seq<Statement>, set<string>)> {
    EmitScript(target, source, PlanOf(target, source, opts), Rebuilds(source, target, PlanOf(source, target, opts), {}))
  }

  /** Neither the script of these entries nor its rollback adds a column on whose default generation panics. */
  ghost predicate NoStubsBothWays(source: Snapshot, target: Snapshot, entries: seq<Entry>, reverse: seq<Entry>) {
    NoStubs(source, target, entries, {}) && NoStubs(target, source, reverse, Rebuilds(source, target, entries, {}))
  }

  lemma GenerateParts(source: Snapshot, target: Snapshot, entries: seq<Entry>, opts: Options)
    requires Supported(source, target)
    ensures var fwd := EmitScript(source, target, entries, {});
      var want := set id | id in MirrorIds(entries);
      if fwd.Fail? then Generate(source, target, entries, opts).Fail?
      else if fwd == Panic then Generate(source, target, entries, opts) == Panic
      else var back := EmitScript(target, source, Filter(Diff(target, source, opts).value, WithIds(want)), fwd.value.1);
           Generate(source, target, entries, opts)
             == if !back.Ok? then Stopped(back) else Ok(ScriptResult(fwd.value.0, back.value.0, fwd.value.1 != {} || back.value.1 != {}, true))
  {
    hide EmitScript, Diff, MirrorIds, Filter;
  }

  /**
   * The whole plan generates exactly when neither direction adds a column with such a default, and panics
   * otherwise; the rollback is the reverse plan's script, forced to rebuild what was rebuilt.
   */
  lemma GenerateWhole(source: Snapshot, target: Snapshot, opts: Options)
    requires WfPair(source, target)
    ensures var fwd, back, g := Forward(source, target, opts), Back(source, target, opts), Generate(source, target, PlanOf(source, target, opts), opts);
      if NoStubsBothWays(source, target, PlanOf(source, target, opts), PlanOf(target, source, opts))
      then fwd.Ok? && back.Ok? && g == Ok(ScriptResult(fwd.value.0, back.value.0, fwd.value.1 != {} || back.value.1 != {}, true))
      else g == Panic
  {
    hide *;
    PairWf(source, target);
    WfPairSymmetric(source, target);
    PlanIs(source, target, opts);
    PlanIs(target, source, opts);
    SupportedPair(source, target);
    BothWaysIs(source, target, PlanOf(source, target, opts), PlanOf(target, source, opts));
    NothingForced(source, target);
    EmitsOk(source, target, opts, {});
    RebuildsAreCommon(source, target, opts);
    EmitsOk(target, source, opts, Rebuilds(source, target, PlanOf(source, target, opts), {}));
    ReverseIsWhole(source, target, opts);
    ForwardIs(source, target, opts);
    GenerateParts(source, target, PlanOf(source, target, opts), opts);
    PanicStopped(Back(source, target, opts));
  }

  lemma PanicStopped(o: Outcome<(seq<Statement>, set<string>)>)
    ensures o == Panic ==> Stopped<(seq<Statement>, set<string>), ScriptResult>(o) == Panic
  {
  }

  lemma NothingForced(source: Snapshot, target: Snapshot)
    ensures {} <= TableMap(source).Keys * TableMap(target).Keys
  {
    hide TableMap;
  }

  lemma BothWaysIs(source: Snapshot, target: Snapshot, entries: seq<Entry>, reverse: seq<Entry>)
    ensures NoStubsBothWays(source, target, entries, reverse)
      <==> NoStubs(source, target, entries, {}) && NoStubs(target, source, reverse, Rebuilds(source, target, entries, {}))
  {
    hide NoStubs, Rebuilds;
  }

  lemma ForwardIs(source: Snapshot, target: Snapshot, opts: Options)
    ensures Forward(source, target, opts) == EmitScript(source, target, PlanOf(source, target, opts), {})
    ensures Back(source, target, opts)
         == EmitScript(target, source, PlanOf(target, source, opts), Rebuilds(source, target, PlanOf(source, target, opts), {}))
  {
    hide EmitScript, PlanOf, Rebuilds;
  }

  lemma SupportedPair(source: Snapshot, target: Snapshot)
    requires Comparable(source, target) && source.kind == Sqlite
    ensures Supported(source, target)
  {
  }
}
