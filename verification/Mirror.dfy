/// Entry ids and the mirror law: comparing the other way round yields exactly
/// the mirrored ids (go/pkg/schemadiff/ddl.go:827-853).
module Mirror {
  import opened Text
  import opened Sequences
  import opened TypeNames
  import opened Snapshots
  import opened Plan
  import opened PlanOrder

  // ---- Ids ----

  /** What an id is made of: table key, lower-cased object, op. */
  datatype Tag = Tag(table: string, obj: string, op: Op)

  function TagOf(e: Entry): Tag { Tag(Lower(e.table), Lower(e.obj), e.op) }

  function MirrorTag(e: Entry): Tag { Tag(Lower(e.table), Lower(e.obj), Inverse(e.op)) }

  function IdOf(t: Tag): string { t.table + "/" + t.obj + "/" + OpName(t.op) }

  lemma OpNameShape(op: Op)
    ensures Free(OpName(op), '/') && 9 <= |OpName(op)| <= 16
  {
  }

  lemma OpNameInjective(a: Op, b: Op)
    requires OpName(a) == OpName(b)
    ensures a == b
  {
    var m, n := OpName(a), OpName(b);
    assert |m| == |n| && m[0] == n[0] && m[5] == n[5];
  }

  lemma OpNamedFinds(op: Op)
    ensures OpNamed(OpName(op)) == Some(op)
  {
    hide OpName;
    assert OPS[0] == CreateTable && OPS[1] == DropTable && OPS[2] == AddColumn && OPS[3] == DropColumn
        && OPS[4] == AlterColumn && OPS[5] == AddIndex && OPS[6] == DropIndex
        && OPS[7] == AddForeignKey && OPS[8] == DropForeignKey;
    var r := OpNamedIn(OPS, OpName(op));
    if r.Some? {
      OpNameInjective(r.value, op);
    }
  }

  function LastSlash(s: string): (r: int)
    ensures -1 <= r < |s|
    ensures r >= 0 ==> s[r] == '/'
  {
    if s == [] then -1 else if s[|s| - 1] == '/' then |s| - 1 else LastSlash(s[..|s| - 1])
  }

  lemma {:induction false} LastSlashIs(head: string, tail: string)
    requires Free(tail, '/')
    ensures LastSlash(head + "/" + tail) == |head|
  {
    var s := head + "/" + tail;
    if tail != [] {
      assert s[|s| - 1] == tail[|tail| - 1];
      assert s[..|s| - 1] == head + "/" + tail[..|tail| - 1];
      LastSlashIs(head, tail[..|tail| - 1]);
    }
  }

  /** mirrorID: only the op behind the last slash changes. */
  function MirrorId(id: string): string {
    var i := LastSlash(id);
    if i < 0 then id else
    var op := OpNamed(id[i + 1..]);
    if op.None? then id else id[..i] + "/" + OpName(Inverse(op.value))
  }

  /** On an entry's id mirrorID swaps the op for its inverse, whatever the names hold. */
  lemma MirrorIdOf(t: Tag)
    ensures MirrorId(IdOf(t)) == IdOf(t.(op := Inverse(t.op)))
  {
    hide OpName, OpNamed;
    OpNameShape(t.op);
    OpNamedFinds(t.op);
    var head := t.table + "/" + t.obj;
    LastSlashIs(head, OpName(t.op));
    assert IdOf(t)[|head| + 1..] == OpName(t.op);
    assert IdOf(t)[..|head|] == head;
  }

  lemma MirrorIdInvolutive(t: Tag)
    ensures MirrorId(MirrorId(IdOf(t))) == IdOf(t)
  {
    hide OpName, IdOf, MirrorId;
    MirrorIdOf(t);
    MirrorIdOf(t.(op := Inverse(t.op)));
  }

  /** Ids tell entries apart when table names hold no slash. */
  lemma IdInjective(a: Tag, b: Tag)
    requires Free(a.table, '/') && Free(b.table, '/') && IdOf(a) == IdOf(b)
    ensures a == b
  {
    hide OpName;
    OpNameShape(a.op);
    OpNameShape(b.op);
    LastSlashIs(a.table + "/" + a.obj, OpName(a.op));
    LastSlashIs(b.table + "/" + b.obj, OpName(b.op));
    var n := |a.table + "/" + a.obj|;
    assert IdOf(a)[n + 1..] == OpName(a.op) && IdOf(b)[n + 1..] == OpName(b.op);
    OpNameInjective(a.op, b.op);
    assert IdOf(a)[..n] == a.table + "/" + a.obj && IdOf(b)[..n] == b.table + "/" + b.obj;
    assert a.table + ['/'] + a.obj == b.table + ['/'] + b.obj;
    FirstOccurrence(a.table, b.table, a.obj, b.obj, '/');
  }

  // ---- One table compared both ways ----

  lemma MirrorColumnBoth(kind: DatabaseKind, tn: string, sn: string, sc: map<string, ColumnInfo>,
                         tc: map<string, ColumnInfo>, opts: Options, k: string)
    requires Lower(sn) == Lower(tn) && k in sc && k in tc && Lower(sc[k].name) == Lower(tc[k].name)
    ensures Map(MirrorTag, ColumnBoth(kind, tn, sc, tc, opts)(k)) == Map(TagOf, ColumnBoth(kind, sn, tc, sc, opts)(k))
  {
    hide ColumnFlags, Lower;
    FlagsSymmetric(kind, sc[k], tc[k], opts);
  }

  lemma MirrorColumns(kind: DatabaseKind, s: TableSnapshot, t: TableSnapshot, opts: Options)
    requires Lower(s.name) == Lower(t.name)
    ensures multiset(Map(MirrorTag, DiffColumns(kind, t.name, s, t, opts)))
         == multiset(Map(TagOf, DiffColumns(kind, s.name, t, s, opts)))
  {
    hide Pairing, ColumnBoth, Lower;
    var sc, tc := ColumnMap(s), ColumnMap(t);
    assert forall k :: k in sc ==> Lower(sc[k].name) == k by { FirstWinsKeys(s.columns, ColumnKey, AnyColumn); }
    assert forall k :: k in tc ==> Lower(tc[k].name) == k by { FirstWinsKeys(t.columns, ColumnKey, AnyColumn); }
    forall k | k in sc.Keys * tc.Keys
      ensures Map(MirrorTag, ColumnBoth(kind, t.name, sc, tc, opts)(k)) == Map(TagOf, ColumnBoth(kind, s.name, tc, sc, opts)(k))
    {
      MirrorColumnBoth(kind, t.name, s.name, sc, tc, opts, k);
    }
    MirrorPairing(sc.Keys, tc.Keys, MirrorTag, TagOf,
      ColumnBoth(kind, t.name, sc, tc, opts), ColumnPart(AddColumn, t.name, tc, opts), ColumnPart(DropColumn, t.name, sc, opts),
      ColumnBoth(kind, s.name, tc, sc, opts), ColumnPart(AddColumn, s.name, sc, opts), ColumnPart(DropColumn, s.name, tc, opts));
  }

  lemma FlagsSymmetric(kind: DatabaseKind, s: ColumnInfo, t: ColumnInfo, opts: Options)
    ensures ColumnFlags(kind, s, t, opts) == ColumnFlags(kind, t, s, opts)
  {
  }

  lemma MirrorIndexBoth(tn: string, sn: string, si: map<string, IndexInfo>, ti: map<string, IndexInfo>, opts: Options, k: string)
    requires Lower(sn) == Lower(tn) && k in si && k in ti
    ensures multiset(Map(MirrorTag, IndexBoth(tn, si, ti, opts)(k))) == multiset(Map(TagOf, IndexBoth(sn, ti, si, opts)(k)))
  {
    hide IndexSig, IndexObject, Lower;
    if !SameIndex(si[k], ti[k]) {
      SwapPair(Mk(DropIndex, tn, IndexObject(si[k]), opts), Mk(AddIndex, tn, IndexObject(ti[k]), opts),
               Mk(DropIndex, sn, IndexObject(ti[k]), opts), Mk(AddIndex, sn, IndexObject(si[k]), opts));
    }
  }

  lemma MirrorSecondary(s: TableSnapshot, t: TableSnapshot, opts: Options)
    requires Lower(s.name) == Lower(t.name)
    ensures multiset(Map(MirrorTag, DiffSecondary(t.name, s, t, opts)))
         == multiset(Map(TagOf, DiffSecondary(s.name, t, s, opts)))
  {
    hide Pairing, IndexBoth, IndexObject, Lower, SecondaryMap;
    var si, ti := SecondaryMap(s), SecondaryMap(t);
    forall k | k in si.Keys * ti.Keys
      ensures multiset(Map(MirrorTag, IndexBoth(t.name, si, ti, opts)(k))) == multiset(Map(TagOf, IndexBoth(s.name, ti, si, opts)(k)))
    {
      MirrorIndexBoth(t.name, s.name, si, ti, opts, k);
    }
    MirrorPairing(si.Keys, ti.Keys, MirrorTag, TagOf,
      IndexBoth(t.name, si, ti, opts), IndexPart(AddIndex, t.name, ti, opts), IndexPart(DropIndex, t.name, si, opts),
      IndexBoth(s.name, ti, si, opts), IndexPart(AddIndex, s.name, si, opts), IndexPart(DropIndex, s.name, ti, opts));
  }

  /** A drop-and-add pair mirrors into the pair with the roles exchanged. */
  lemma SwapPair(d: Entry, a: Entry, d': Entry, a': Entry)
    requires MirrorTag(d) == TagOf(a') && MirrorTag(a) == TagOf(d')
    ensures multiset(Map(MirrorTag, [d, a])) == multiset(Map(TagOf, [d', a']))
  {
    hide Lower, Inverse;
    assert Map(MirrorTag, [d, a]) == [MirrorTag(d), MirrorTag(a)];
    assert Map(TagOf, [d', a']) == [TagOf(d'), TagOf(a')];
  }

  lemma MirrorPrimary(s: TableSnapshot, t: TableSnapshot, opts: Options)
    requires Lower(s.name) == Lower(t.name)
    ensures multiset(Map(MirrorTag, PrimaryEntries(t.name, FirstPrimary(s.indexes), FirstPrimary(t.indexes), opts)))
         == multiset(Map(TagOf, PrimaryEntries(s.name, FirstPrimary(t.indexes), FirstPrimary(s.indexes), opts)))
  {
    hide FirstPrimary, IndexSig, IndexObject;
    var sp, tp := FirstPrimary(s.indexes), FirstPrimary(t.indexes);
    if sp.Some? && tp.Some? && IndexSig(sp.value) != IndexSig(tp.value) {
      var d, a := Mk(DropIndex, t.name, IndexObject(sp.value), opts), Mk(AddIndex, t.name, IndexObject(tp.value), opts);
      var d', a' := Mk(DropIndex, s.name, IndexObject(tp.value), opts), Mk(AddIndex, s.name, IndexObject(sp.value), opts);
      assert PrimaryEntries(t.name, sp, tp, opts) == [d, a];
      assert PrimaryEntries(s.name, tp, sp, opts) == [d', a'];
      SwapPair(d, a, d', a');
    }
  }

  lemma MirrorFkBoth(tn: string, sn: string, sf: map<string, ForeignKeyInfo>, tf: map<string, ForeignKeyInfo>, opts: Options, k: string)
    requires Lower(sn) == Lower(tn) && k in sf && k in tf
    ensures multiset(Map(MirrorTag, FkBoth(tn, sf, tf, opts)(k))) == multiset(Map(TagOf, FkBoth(sn, tf, sf, opts)(k)))
  {
    hide FkObject, JoinLower, ReferencedTable, Lower;
    if !SameForeignKey(sf[k], tf[k]) {
      SwapPair(Mk(DropForeignKey, tn, FkObject(sf[k]), opts), Mk(AddForeignKey, tn, FkObject(tf[k]), opts),
               Mk(DropForeignKey, sn, FkObject(tf[k]), opts), Mk(AddForeignKey, sn, FkObject(sf[k]), opts));
    }
  }

  lemma MirrorForeignKeys(s: TableSnapshot, t: TableSnapshot, opts: Options)
    requires Lower(s.name) == Lower(t.name)
    ensures multiset(Map(MirrorTag, DiffForeignKeys(t.name, s, t, opts)))
         == multiset(Map(TagOf, DiffForeignKeys(s.name, t, s, opts)))
  {
    hide Pairing, FkBoth, FkObject, Lower, FkMap;
    var sf, tf := FkMap(s), FkMap(t);
    forall k | k in sf.Keys * tf.Keys
      ensures multiset(Map(MirrorTag, FkBoth(t.name, sf, tf, opts)(k))) == multiset(Map(TagOf, FkBoth(s.name, tf, sf, opts)(k)))
    {
      MirrorFkBoth(t.name, s.name, sf, tf, opts, k);
    }
    MirrorPairing(sf.Keys, tf.Keys, MirrorTag, TagOf,
      FkBoth(t.name, sf, tf, opts), FkPart(AddForeignKey, t.name, tf, opts), FkPart(DropForeignKey, t.name, sf, opts),
      FkBoth(s.name, tf, sf, opts), FkPart(AddForeignKey, s.name, sf, opts), FkPart(DropForeignKey, s.name, tf, opts));
  }

  lemma MapMultisetConcat<T, U>(f: T -> U, a: seq<T>, b: seq<T>)
    ensures multiset(Map(f, a + b)) == multiset(Map(f, a)) + multiset(Map(f, b))
  {
    MapConcat(f, a, b);
  }

  lemma MirrorTable(kind: DatabaseKind, s: TableSnapshot, t: TableSnapshot, opts: Options)
    requires Lower(s.name) == Lower(t.name)
    ensures multiset(Map(MirrorTag, DiffTable(kind, s, t, opts))) == multiset(Map(TagOf, DiffTable(kind, t, s, opts)))
  {
    hide DiffColumns, DiffSecondary, DiffForeignKeys, PrimaryEntries, FirstPrimary, Map;
    MirrorColumns(kind, s, t, opts);
    MirrorPrimary(s, t, opts);
    MirrorSecondary(s, t, opts);
    MirrorForeignKeys(s, t, opts);
    var c, p, x, f := DiffColumns(kind, t.name, s, t, opts),
      PrimaryEntries(t.name, FirstPrimary(s.indexes), FirstPrimary(t.indexes), opts),
      DiffSecondary(t.name, s, t, opts), DiffForeignKeys(t.name, s, t, opts);
    MapMultisetConcat(MirrorTag, c + (p + x), f);
    MapMultisetConcat(MirrorTag, c, p + x);
    MapMultisetConcat(MirrorTag, p, x);
    var c', p', x', f' := DiffColumns(kind, s.name, t, s, opts),
      PrimaryEntries(s.name, FirstPrimary(t.indexes), FirstPrimary(s.indexes), opts),
      DiffSecondary(s.name, t, s, opts), DiffForeignKeys(s.name, t, s, opts);
    MapMultisetConcat(TagOf, c' + (p' + x'), f');
    MapMultisetConcat(TagOf, c', p' + x');
    MapMultisetConcat(TagOf, p', x');
  }

  // ---- The mirror law ----

  lemma MirrorCollected(kind: DatabaseKind, sm: map<string, TableSnapshot>, tm: map<string, TableSnapshot>, opts: Options)
    requires Keyed(sm) && Keyed(tm)
    ensures multiset(Map(MirrorTag, Collected(kind, sm, tm, opts))) == multiset(Map(TagOf, Collected(kind, tm, sm, opts)))
  {
    hide Pairing, DiffTable;
    forall k | k in sm.Keys * tm.Keys
      ensures multiset(Map(MirrorTag, TableBoth(kind, sm, tm, opts)(k))) == multiset(Map(TagOf, TableBoth(kind, tm, sm, opts)(k)))
    {
      MirrorTable(kind, sm[k], tm[k], opts);
    }
    MirrorPairing(sm.Keys, tm.Keys, MirrorTag, TagOf,
      TableBoth(kind, sm, tm, opts), TablePart(CreateTable, tm, opts), TablePart(DropTable, sm, opts),
      TableBoth(kind, tm, sm, opts), TablePart(CreateTable, sm, opts), TablePart(DropTable, tm, opts));
  }

  lemma TableMapKeyed(s: Snapshot)
    ensures Keyed(TableMap(s))
  {
    FirstWinsKeys(s.tables, TableKey, IsTable);
  }

  /** A plan is a permutation of the collected entries. */
  lemma DiffPermutes(source: Snapshot, target: Snapshot, opts: Options)
    requires Comparable(source, target)
    ensures multiset(Diff(source, target, opts).value)
         == multiset(Collected(source.kind, TableMap(source), TableMap(target), opts))
  {
    hide OrderEntries, Collected;
    TableMapKeyed(target);
    CollectedCreates(source.kind, TableMap(source), TableMap(target), opts);
    OrderPermutes(Collected(source.kind, TableMap(source), TableMap(target), opts), TableMap(target));
  }

  function Ids(entries: seq<Entry>): seq<string> { Map(Id, entries) }

  lemma IdsIs(plan: seq<Entry>)
    ensures Ids(plan) == Map(Id, plan)
  {
    hide Id;
  }

  function MirrorIds(entries: seq<Entry>): seq<string> { Map(MirrorId, Ids(entries)) }

  lemma TagLaw(source: Snapshot, target: Snapshot, opts: Options)
    requires Comparable(source, target)
    ensures multiset(Map(TagOf, Diff(target, source, opts).value)) == multiset(Map(MirrorTag, Diff(source, target, opts).value))
  {
    hide OrderEntries, Collected, Map;
    var sm, tm := TableMap(source), TableMap(target);
    TableMapKeyed(source);
    TableMapKeyed(target);
    DiffPermutes(source, target, opts);
    DiffPermutes(target, source, opts);
    MapPermuted(MirrorTag, Diff(source, target, opts).value, Collected(source.kind, sm, tm, opts));
    MapPermuted(TagOf, Diff(target, source, opts).value, Collected(source.kind, tm, sm, opts));
    MirrorCollected(source.kind, sm, tm, opts);
  }

  lemma MirrorIdsByTag(entries: seq<Entry>)
    ensures MirrorIds(entries) == Map(IdOf, Map(MirrorTag, entries))
    ensures Ids(entries) == Map(IdOf, Map(TagOf, entries))
  {
    hide OpName, MirrorId;
    forall i | 0 <= i < |entries| ensures MirrorId(Id(entries[i])) == IdOf(MirrorTag(entries[i])) {
      MirrorIdOf(TagOf(entries[i]));
      assert Id(entries[i]) == IdOf(TagOf(entries[i]));
    }
  }

  /** The ids of the reverse comparison are the mirrored ids, each as often. */
  lemma MirrorLaw(source: Snapshot, target: Snapshot, opts: Options)
    requires Comparable(source, target)
    ensures multiset(Ids(Diff(target, source, opts).value)) == multiset(MirrorIds(Diff(source, target, opts).value))
  {
    hide OrderEntries, Collected, Map, Ids, MirrorIds, IdOf;
    TagLaw(source, target, opts);
    var fwd, rev := Diff(source, target, opts), Diff(target, source, opts);
    MirrorIdsByTag(fwd.value);
    MirrorIdsByTag(rev.value);
    MapPermuted(IdOf, Map(TagOf, rev.value), Map(MirrorTag, fwd.value));
  }
}
