/// The comparison and the generator as the program runs them: loops over sorted
/// keys, local maps and growing lists, each proved to compute its specification.
module Generator {
  import opened Text
  import opened Sequences
  import opened TypeNames
  import opened Snapshots
  import opened Graph
  import opened Plan
  import opened PlanOrder
  import opened Mirror
  import opened Script
  import opened ScriptUnits

  // ---- The comparison ----

  lemma FlatMapNext<T>(keys: seq<string>, i: nat, f: string -> seq<T>)
    requires i < |keys|
    ensures FlatMap(keys[..i + 1], f) == FlatMap(keys[..i], f) + f(keys[i])
  {
    assert keys[..i + 1][..i] == keys[..i];
  }

  lemma FlatMapAll<T>(keys: seq<string>, f: string -> seq<T>)
    ensures FlatMap(keys[..|keys|], f) == FlatMap(keys, f)
  {
    assert keys[..|keys|] == keys;
  }

  /** What the comparison says about a column of the target. */
  lemma ColumnOfTarget(kind: DatabaseKind, table: string, sc: map<string, ColumnInfo>, tc: map<string, ColumnInfo>, opts: Options, k: string)
    requires k in tc
    ensures TargetPart(sc.Keys, ColumnBoth(kind, table, sc, tc, opts), ColumnPart(AddColumn, table, tc, opts))(k) ==
            if k !in sc then [Mk(AddColumn, table, tc[k].name, opts)]
            else if ColumnFlags(kind, sc[k], tc[k], opts) == [] then []
            else [Mk(AlterColumn, table, tc[k].name, opts).(flags := ColumnFlags(kind, sc[k], tc[k], opts))]
  {
    hide ColumnFlags, Mk;
  }

  lemma ColumnOfSource(table: string, sc: map<string, ColumnInfo>, tc: map<string, ColumnInfo>, opts: Options, k: string)
    requires k in sc
    ensures SourcePart(tc.Keys, ColumnPart(DropColumn, table, sc, opts))(k) == if k in tc then [] else [Mk(DropColumn, table, sc[k].name, opts)]
  {
    hide Mk;
  }

  method CompareColumns(kind: DatabaseKind, table: string, src: TableSnapshot, tgt: TableSnapshot, opts: Options) returns (out: seq<Entry>)
    ensures out == DiffColumns(kind, table, src, tgt, opts)
  {
    hide ColumnMap, FlatMap, SortedKeys, ColumnFlags, Mk, TargetPart, SourcePart, ColumnBoth, ColumnPart;
    var sc, tc := ColumnMap(src), ColumnMap(tgt);
    ghost var both, add, drop := ColumnBoth(kind, table, sc, tc, opts), ColumnPart(AddColumn, table, tc, opts), ColumnPart(DropColumn, table, sc, opts);
    ghost var f, g := TargetPart(sc.Keys, both, add), SourcePart(tc.Keys, drop);
    out := [];
    var tk, sk := SortedKeys(tc.Keys), SortedKeys(sc.Keys);
    Start(tk, f);
    for i := 0 to |tk|
      invariant out == FlatMap(tk[..i], f)
    {
      var k := tk[i];
      assert k in tk;
      FlatMapNext(tk, i, f);
      ColumnOfTarget(kind, table, sc, tc, opts, k);
      var c := tc[k];
      if k !in sc {
        out := out + [Mk(AddColumn, table, c.name, opts)];
        continue;
      }
      var flags := ColumnFlags(kind, sc[k], c, opts);
      if flags == [] {
        continue;
      }
      out := out + [Mk(AlterColumn, table, c.name, opts).(flags := flags)];
    }
    FlatMapAll(tk, f);
    ghost var first := out;
    Start(sk, g);
    for i := 0 to |sk|
      invariant out == first + FlatMap(sk[..i], g)
    {
      var k := sk[i];
      assert k in sk;
      FlatMapNext(sk, i, g);
      ColumnOfSource(table, sc, tc, opts, k);
      if k in tc {
        continue;
      }
      out := out + [Mk(DropColumn, table, sc[k].name, opts)];
    }
    FlatMapAll(sk, g);
  }

  lemma Start<T>(keys: seq<string>, f: string -> seq<T>)
    ensures FlatMap(keys[..0], f) == []
  {
  }

  method ComparePrimary(table: string, sp: Option<IndexInfo>, tp: Option<IndexInfo>, opts: Options) returns (out: seq<Entry>)
    ensures out == PrimaryEntries(table, sp, tp, opts)
  {
    hide IndexSig, IndexObject, Mk;
    out := [];
    if sp.Some? && tp.Some? {
      if IndexSig(sp.value) != IndexSig(tp.value) {
        out := [Mk(DropIndex, table, IndexObject(sp.value), opts), Mk(AddIndex, table, IndexObject(tp.value), opts)];
      }
    } else if sp.Some? {
      out := [Mk(DropIndex, table, IndexObject(sp.value), opts)];
    } else if tp.Some? {
      out := [Mk(AddIndex, table, IndexObject(tp.value), opts)];
    }
  }

  /** What the comparison says about a secondary index of the target. */
  lemma IndexOfTarget(table: string, si: map<string, IndexInfo>, ti: map<string, IndexInfo>, opts: Options, k: string)
    requires k in ti
    ensures TargetPart(si.Keys, IndexBoth(table, si, ti, opts), IndexPart(AddIndex, table, ti, opts))(k) ==
            if k !in si then [Mk(AddIndex, table, IndexObject(ti[k]), opts)]
            else if SameIndex(si[k], ti[k]) then []
            else [Mk(DropIndex, table, IndexObject(si[k]), opts), Mk(AddIndex, table, IndexObject(ti[k]), opts)]
  {
    hide SameIndex, IndexObject, Mk;
  }

  lemma IndexOfSource(table: string, si: map<string, IndexInfo>, ti: map<string, IndexInfo>, opts: Options, k: string)
    requires k in si
    ensures SourcePart(ti.Keys, IndexPart(DropIndex, table, si, opts))(k) == if k in ti then [] else [Mk(DropIndex, table, IndexObject(si[k]), opts)]
  {
    hide IndexObject, Mk;
  }

  method CompareSecondary(table: string, src: TableSnapshot, tgt: TableSnapshot, opts: Options) returns (out: seq<Entry>)
    ensures out == DiffSecondary(table, src, tgt, opts)
  {
    hide SecondaryMap, FlatMap, SortedKeys, SameIndex, IndexObject, Mk, TargetPart, SourcePart, IndexBoth, IndexPart;
    var si, ti := SecondaryMap(src), SecondaryMap(tgt);
    ghost var both, add, drop := IndexBoth(table, si, ti, opts), IndexPart(AddIndex, table, ti, opts), IndexPart(DropIndex, table, si, opts);
    ghost var f, g := TargetPart(si.Keys, both, add), SourcePart(ti.Keys, drop);
    out := [];
    var tk, sk := SortedKeys(ti.Keys), SortedKeys(si.Keys);
    Start(tk, f);
    for i := 0 to |tk|
      invariant out == FlatMap(tk[..i], f)
    {
      var k := tk[i];
      assert k in tk;
      FlatMapNext(tk, i, f);
      IndexOfTarget(table, si, ti, opts, k);
      var t := ti[k];
      if k !in si {
        out := out + [Mk(AddIndex, table, IndexObject(t), opts)];
        continue;
      }
      if SameIndex(si[k], t) {
        continue;
      }
      out := out + [Mk(DropIndex, table, IndexObject(si[k]), opts), Mk(AddIndex, table, IndexObject(t), opts)];
    }
    FlatMapAll(tk, f);
    ghost var first := out;
    Start(sk, g);
    for i := 0 to |sk|
      invariant out == first + FlatMap(sk[..i], g)
    {
      var k := sk[i];
      assert k in sk;
      FlatMapNext(sk, i, g);
      IndexOfSource(table, si, ti, opts, k);
      if k in ti {
        continue;
      }
      out := out + [Mk(DropIndex, table, IndexObject(si[k]), opts)];
    }
    FlatMapAll(sk, g);
  }

  method CompareIndexes(table: string, src: TableSnapshot, tgt: TableSnapshot, opts: Options) returns (out: seq<Entry>)
    ensures out == DiffIndexes(table, src, tgt, opts)
  {
    hide DiffSecondary, PrimaryEntries, FirstPrimary;
    out := ComparePrimary(table, FirstPrimary(src.indexes), FirstPrimary(tgt.indexes), opts);
    var secondary := CompareSecondary(table, src, tgt, opts);
    out := out + secondary;
  }

  /** What the comparison says about a foreign key of the target. */
  lemma FkOfTarget(table: string, sf: map<string, ForeignKeyInfo>, tf: map<string, ForeignKeyInfo>, opts: Options, k: string)
    requires k in tf
    ensures TargetPart(sf.Keys, FkBoth(table, sf, tf, opts), FkPart(AddForeignKey, table, tf, opts))(k) ==
            if k !in sf then [Mk(AddForeignKey, table, FkObject(tf[k]), opts)]
            else if SameForeignKey(sf[k], tf[k]) then []
            else [Mk(DropForeignKey, table, FkObject(sf[k]), opts), Mk(AddForeignKey, table, FkObject(tf[k]), opts)]
  {
    hide SameForeignKey, FkObject, Mk;
  }

  lemma FkOfSource(table: string, sf: map<string, ForeignKeyInfo>, tf: map<string, ForeignKeyInfo>, opts: Options, k: string)
    requires k in sf
    ensures SourcePart(tf.Keys, FkPart(DropForeignKey, table, sf, opts))(k) == if k in tf then [] else [Mk(DropForeignKey, table, FkObject(sf[k]), opts)]
  {
    hide FkObject, Mk;
  }

  method CompareForeignKeys(table: string, src: TableSnapshot, tgt: TableSnapshot, opts: Options) returns (out: seq<Entry>)
    ensures out == DiffForeignKeys(table, src, tgt, opts)
  {
    hide FkMap, FlatMap, SortedKeys, SameForeignKey, FkObject, Mk, TargetPart, SourcePart, FkBoth, FkPart;
    var sf, tf := FkMap(src), FkMap(tgt);
    ghost var both, add, drop := FkBoth(table, sf, tf, opts), FkPart(AddForeignKey, table, tf, opts), FkPart(DropForeignKey, table, sf, opts);
    ghost var f, g := TargetPart(sf.Keys, both, add), SourcePart(tf.Keys, drop);
    out := [];
    var tk, sk := SortedKeys(tf.Keys), SortedKeys(sf.Keys);
    Start(tk, f);
    for i := 0 to |tk|
      invariant out == FlatMap(tk[..i], f)
    {
      var k := tk[i];
      assert k in tk;
      FlatMapNext(tk, i, f);
      FkOfTarget(table, sf, tf, opts, k);
      var t := tf[k];
      if k !in sf {
        out := out + [Mk(AddForeignKey, table, FkObject(t), opts)];
        continue;
      }
      if SameForeignKey(sf[k], t) {
        continue;
      }
      out := out + [Mk(DropForeignKey, table, FkObject(sf[k]), opts), Mk(AddForeignKey, table, FkObject(t), opts)];
    }
    FlatMapAll(tk, f);
    ghost var first := out;
    Start(sk, g);
    for i := 0 to |sk|
      invariant out == first + FlatMap(sk[..i], g)
    {
      var k := sk[i];
      assert k in sk;
      FlatMapNext(sk, i, g);
      FkOfSource(table, sf, tf, opts, k);
      if k in tf {
        continue;
      }
      out := out + [Mk(DropForeignKey, table, FkObject(sf[k]), opts)];
    }
    FlatMapAll(sk, g);
  }

  method CompareTable(kind: DatabaseKind, src: TableSnapshot, tgt: TableSnapshot, opts: Options) returns (out: seq<Entry>)
    ensures out == DiffTable(kind, src, tgt, opts)
  {
    hide DiffColumns, DiffIndexes, DiffForeignKeys;
    out := CompareColumns(kind, tgt.name, src, tgt, opts);
    var indexes := CompareIndexes(tgt.name, src, tgt, opts);
    var fks := CompareForeignKeys(tgt.name, src, tgt, opts);
    out := out + indexes;
    out := out + fks;
  }

  // ---- The order of created tables ----

  method BuildCreateMap(entries: seq<Entry>) returns (byKey: map<string, Entry>)
    ensures byKey == CreateMap(entries)
  {
    byKey := map[];
    for i := 0 to |entries|
      invariant byKey == CreateMap(entries[..i])
    {
      assert entries[..i + 1][..i] == entries[..i];
      var e := entries[i];
      if e.op == CreateTable {
        byKey := byKey[Lower(e.table) := e];
      }
    }
    assert entries[..|entries|] == entries;
  }

  /** topoCreateTables: the closure's depth-first search, then the entries in that order. */
  method OrderCreates(sorted: seq<Entry>, tm: map<string, TableSnapshot>) returns (order: seq<Entry>)
    ensures order == TopoCreateTables(sorted, tm)
  {
    hide CreateMap, CreateGraph, TopoOrder, Placed, OnCycle, NoRepeats;
    var byKey := BuildCreateMap(sorted);
    var g := CreateGraph(byKey.Keys, tm);
    TopoOrderPlaces(g);
    var keys := DepthFirstOrder(g);
    order := [];
    for i := 0 to |keys|
      invariant |order| == i && forall j :: 0 <= j < i ==> keys[j] in byKey && order[j] == byKey[keys[j]]
    {
      assert keys[i] in keys;
      order := order + [byKey[keys[i]]];
    }
  }

  /** What the comparison says about a table of the target. */
  lemma TableOfTarget(kind: DatabaseKind, src: map<string, TableSnapshot>, tgt: map<string, TableSnapshot>, opts: Options, k: string)
    requires k in tgt
    ensures TargetPart(src.Keys, TableBoth(kind, src, tgt, opts), TablePart(CreateTable, tgt, opts))(k) ==
            if k in src then DiffTable(kind, src[k], tgt[k], opts) else [Mk(CreateTable, tgt[k].name, "", opts)]
  {
    hide DiffTable, Mk;
  }

  lemma TableOfSource(src: map<string, TableSnapshot>, tgt: map<string, TableSnapshot>, opts: Options, k: string)
    requires k in src
    ensures SourcePart(tgt.Keys, TablePart(DropTable, src, opts))(k) == if k in tgt then [] else [Mk(DropTable, src[k].name, "", opts)]
  {
    hide Mk;
  }

  method Collect(kind: DatabaseKind, src: map<string, TableSnapshot>, tgt: map<string, TableSnapshot>, opts: Options) returns (out: seq<Entry>)
    ensures out == Collected(kind, src, tgt, opts)
  {
    hide FlatMap, SortedKeys, DiffTable, Mk, TargetPart, SourcePart, TableBoth, TablePart;
    ghost var both, add, drop := TableBoth(kind, src, tgt, opts), TablePart(CreateTable, tgt, opts), TablePart(DropTable, src, opts);
    ghost var f, g := TargetPart(src.Keys, both, add), SourcePart(tgt.Keys, drop);
    out := [];
    var tk, sk := SortedKeys(tgt.Keys), SortedKeys(src.Keys);
    Start(tk, f);
    for i := 0 to |tk|
      invariant out == FlatMap(tk[..i], f)
    {
      var k := tk[i];
      assert k in tk;
      FlatMapNext(tk, i, f);
      TableOfTarget(kind, src, tgt, opts, k);
      if k in src {
        var own := CompareTable(kind, src[k], tgt[k], opts);
        out := out + own;
        continue;
      }
      out := out + [Mk(CreateTable, tgt[k].name, "", opts)];
    }
    FlatMapAll(tk, f);
    ghost var first := out;
    Start(sk, g);
    for i := 0 to |sk|
      invariant out == first + FlatMap(sk[..i], g)
    {
      var k := sk[i];
      assert k in sk;
      FlatMapNext(sk, i, g);
      TableOfSource(src, tgt, opts, k);
      if k in tgt {
        continue;
      }
      out := out + [Mk(DropTable, src[k].name, "", opts)];
    }
    FlatMapAll(sk, g);
  }

  lemma SubstituteNext(sorted: seq<Entry>, create: seq<Entry>, i: nat, ci: nat)
    requires i < |sorted| && ci <= |create|
    ensures Substitute(sorted[i..], create[ci..], IsCreate) ==
      if IsCreate(sorted[i]) && ci < |create| then [create[ci]] + Substitute(sorted[i + 1..], create[ci + 1..], IsCreate)
      else [sorted[i]] + Substitute(sorted[i + 1..], create[ci..], IsCreate)
  {
    assert sorted[i..][1..] == sorted[i + 1..];
    if ci < |create| {
      assert create[ci..][1..] == create[ci + 1..];
    }
  }

  lemma Regrouped(a: seq<Entry>, x: Entry, b: seq<Entry>)
    ensures a + ([x] + b) == (a + [x]) + b
  {
  }

  /** The create entries take, in dependency order, the places of the create entries. */
  method PlaceCreates(sorted: seq<Entry>, create: seq<Entry>) returns (res: seq<Entry>)
    ensures res == Substitute(sorted, create, IsCreate)
  {
    hide Substitute;
    res := [];
    var ci := 0;
    assert sorted[0..] == sorted && create[0..] == create;
    for i := 0 to |sorted|
      invariant ci <= |create|
      invariant res + Substitute(sorted[i..], create[ci..], IsCreate) == Substitute(sorted, create, IsCreate)
    {
      SubstituteNext(sorted, create, i, ci);
      if sorted[i].op == CreateTable && ci < |create| {
        Regrouped(res, create[ci], Substitute(sorted[i + 1..], create[ci + 1..], IsCreate));
        res := res + [create[ci]];
        ci := ci + 1;
        continue;
      }
      Regrouped(res, sorted[i], Substitute(sorted[i + 1..], create[ci..], IsCreate));
      res := res + [sorted[i]];
    }
    NothingToPlace(sorted, create[ci..]);
  }

  lemma NothingToPlace(sorted: seq<Entry>, create: seq<Entry>)
    ensures Substitute(sorted[|sorted|..], create, IsCreate) == []
  {
  }

  /** Diff: collect, sort stably, put the create entries in dependency order. */
  method Compare(source: Snapshot, target: Snapshot, opts: Options) returns (r: Outcome<seq<Entry>>)
    ensures r == Diff(source, target, opts)
  {
    hide TableMap, Collected, TopoCreateTables, SortBy, Substitute;
    if source.kind == Redis || target.kind == Redis {
      return Fail;
    }
    if source.kind != target.kind {
      return Fail;
    }
    var src := BuildTableMap(source);
    var tgt := BuildTableMap(target);
    var out := Collect(source.kind, src, tgt, opts);
    var sorted := SortBy(BeforeInPlan, out);
    var create := OrderCreates(sorted, tgt);
    var res := PlaceCreates(sorted, create);
    r := Ok(res);
  }
}
