/// The completion-schema cache (go/internal/tui/app_schema.go:19-200): what each section under
/// the cache's lock does, as a class and as functions on its state.
module CompletionCache {
  import opened Text

  /** A live connection, told from others by identity. */
  datatype Conn = Conn(id: nat, kind: string)

  /** A published frame; only its column names are read. */
  datatype Frame = Frame(id: nat, columns: seq<string>)

  datatype Column = Column(name: string, info: string)

  datatype Schema = Schema(current: seq<string>, engine: string, tables: map<string, seq<string>>)

  datatype Snap = Snap(schema: Schema, ver: nat, be: Option<Conn>, frame: Option<Frame>)

  datatype Cache = Cache(backend: Option<Conn>, listed: bool, ns: map<string, string>, cols: map<string, seq<string>>,
                         meta: map<string, seq<Column>>, fetched: set<string>, ver: nat, builds: nat, snap: Option<Snap>)

  const EMPTY := Cache(None, false, map[], map[], map[], {}, 0, 0, None)

  /** The answer a rebuild would give: the frame's columns and, of the cache's own connection, its tables. */
  function Assemble(c: Cache, be: Option<Conn>, f: Option<Frame>): Schema {
    Schema(if f.Some? then f.value.columns else [], if be.Some? then be.value.kind else "",
           if be.Some? && c.backend == be then c.cols else map[])
  }

  function Rebound(c: Cache, be: Conn): Cache {
    if c.backend == Some(be) then c else Cache(Some(be), false, map[], map[], map[], {}, c.ver + 1, c.builds, None)
  }

  function Pending(names: map<string, string>): map<string, seq<string>> { map t | t in names :: [] }

  /** Tables become known with columns pending; columns already fetched stay. */
  function WithList(c: Cache, be: Conn, names: map<string, string>): Cache {
    if c.backend == Some(be) && !c.listed then
      c.(listed := true, ns := c.ns + names, cols := Pending(names) + c.cols, ver := c.ver + 1)
    else c
  }

  function Probed(c: Cache, be: Conn, t: string): Option<string> {
    if c.backend == Some(be) && t in c.ns && t !in c.fetched then Some(c.ns[t]) else None
  }

  function WithColumns(c: Cache, be: Conn, t: string, cols: seq<string>, meta: seq<Column>): Cache {
    if c.backend == Some(be) then
      c.(fetched := c.fetched + {t}, cols := c.cols[t := cols], meta := c.meta[t := meta], ver := c.ver + 1)
    else c
  }

  predicate Fresh(c: Cache, be: Option<Conn>, f: Option<Frame>) {
    c.snap.Some? && c.snap.value.ver == c.ver && c.snap.value.be == be && c.snap.value.frame == f
  }

  function Completed(c: Cache, be: Option<Conn>, f: Option<Frame>): (Cache, Schema) {
    if Fresh(c, be, f) then (c, c.snap.value.schema)
    else
      var s := Assemble(c, be, f);
      (c.(snap := Some(Snap(s, c.ver, be, f)), builds := c.builds + 1), s)
  }

  /** A snapshot of the current version is what a rebuild would give. */
  ghost predicate MemoRight(c: Cache) {
    c.snap.Some? ==>
      c.snap.value.ver <= c.ver &&
      (c.snap.value.ver == c.ver ==> c.snap.value.schema == Assemble(c, c.snap.value.be, c.snap.value.frame))
  }

  /** The answer is a rebuild's, and asking again with nothing changed builds nothing. */
  lemma CompletedIsRebuild(c: Cache, be: Option<Conn>, f: Option<Frame>)
    requires MemoRight(c)
    ensures var (c', s) := Completed(c, be, f);
      s == Assemble(c, be, f) && MemoRight(c') && Completed(c', be, f) == (c', s)
  {
  }

  // ---- The listing ----

  /** What a catalog query answers: the namespaces, each with its tables unless that query failed. */
  type Catalog = seq<(string, Option<seq<string>>)>

  /** A table belongs to the first namespace that lists it. */
  function NamesOf(catalog: Catalog): map<string, string> {
    if catalog == [] then map[]
    else
      var (n, tables) := catalog[|catalog| - 1];
      var before := NamesOf(catalog[..|catalog| - 1]);
      if tables.None? then before else Claimed(tables.value, n) + before
  }

  function Claimed(ts: seq<string>, n: string): map<string, string> { map t | t in ts :: n }

  lemma ClaimNone(n: string, before: map<string, string>)
    ensures Claimed([], n) + before == before
  {
  }

  lemma ClaimNext(ts: seq<string>, k: nat, n: string, before: map<string, string>)
    requires k < |ts|
    ensures var now, next := Claimed(ts[..k], n) + before, Claimed(ts[..k + 1], n) + before;
      next == if ts[k] in now then now else now[ts[k] := n]
  {
    assert ts[..k + 1] == ts[..k] + [ts[k]];
  }

  predicate Lists(catalog: Catalog, i: nat, t: string)
    requires i < |catalog|
  {
    catalog[i].1.Some? && t in catalog[i].1.value
  }

  lemma {:induction false} FirstNamespace(catalog: Catalog, t: string)
    ensures t in NamesOf(catalog) <==> exists i: nat :: i < |catalog| && Lists(catalog, i, t)
    ensures t in NamesOf(catalog) ==>
      exists i: nat :: i < |catalog| && Lists(catalog, i, t) && NamesOf(catalog)[t] == catalog[i].0
                       && forall j: nat :: j < i ==> !Lists(catalog, j, t)
  {
    if catalog != [] {
      var init := catalog[..|catalog| - 1];
      FirstNamespace(init, t);
      assert forall i: nat :: i < |init| ==> Lists(init, i, t) == Lists(catalog, i, t);
      assert t in NamesOf(catalog) <==> t in NamesOf(init) || Lists(catalog, |catalog| - 1, t);
    }
  }

  method BuildNames(catalog: Catalog) returns (ns: map<string, string>)
    ensures ns == NamesOf(catalog)
  {
    ns := map[];
    hide Claimed;
    for i := 0 to |catalog|
      invariant ns == NamesOf(catalog[..i])
    {
      assert catalog[..i + 1][..i] == catalog[..i];
      var (n, tables) := catalog[i];
      if tables.Some? {
        ghost var before := ns;
        ClaimNone(n, before);
        var ts := tables.value;
        assert ts[..0] == [];
        for k := 0 to |ts|
          invariant ns == Claimed(ts[..k], n) + before
        {
          ClaimNext(ts, k, n, before);
          if ts[k] !in ns {
            ns := ns[ts[k] := n];
          }
        }
        assert ts[..|ts|] == ts;
        assert ns == NamesOf(catalog[..i + 1]);
      }
    }
    assert catalog[..|catalog|] == catalog;
  }

  // ---- The cache object ----

  lemma ListNext(names: map<string, string>, todo: set<string>, t: string, ns: map<string, string>, cols: map<string, seq<string>>)
    requires t in todo && todo <= names.Keys
    ensures ns + (names - (todo - {t})) == (ns + (names - todo))[t := names[t]]
    ensures var c := Pending(names - todo) + cols;
      Pending(names - (todo - {t})) + cols == if t in c then c else c[t := []]
  {
  }

  lemma ListNone(names: map<string, string>, ns: map<string, string>, cols: map<string, seq<string>>)
    ensures ns + (names - names.Keys) == ns && Pending(names - names.Keys) + cols == cols && names - {} == names
  {
  }

  class SchemaCache {
    var backend: Option<Conn>
    var listed: bool
    var ns: map<string, string>
    var cols: map<string, seq<string>>
    var meta: map<string, seq<Column>>
    var fetched: set<string>
    var ver: nat
    var builds: nat
    var snap: Schema
    var snapOK: bool
    var snapVer: nat
    var snapBe: Option<Conn>
    var snapFrame: Option<Frame>

    constructor ()
      ensures State() == EMPTY
    {
      backend, listed, ns, cols, meta, fetched, ver, builds := None, false, map[], map[], map[], {}, 0, 0;
      snap, snapOK, snapVer, snapBe, snapFrame := Schema([], "", map[]), false, 0, None, None;
    }

    function State(): Cache
      reads this
    {
      Cache(backend, listed, ns, cols, meta, fetched, ver, builds, if snapOK then Some(Snap(snap, snapVer, snapBe, snapFrame)) else None)
    }

    method ResetFor(be: Conn)
      modifies this
      ensures State() == Rebound(old(State()), be)
    {
      if backend == Some(be) {
        return;
      }
      backend, listed := Some(be), false;
      ns, cols, meta, fetched := map[], map[], map[], {};
      ver := ver + 1;
      snapOK := false;
    }

    /** The first locked section of a warm-up. */
    method Bind(be: Conn) returns (needList: bool)
      modifies this
      ensures State() == Rebound(old(State()), be) && needList == !State().listed
    {
      ResetFor(be);
      needList := !listed;
    }

    method CommitList(be: Conn, names: map<string, string>)
      modifies this
      ensures State() == WithList(old(State()), be, names)
    {
      hide Pending;
      if backend == Some(be) && !listed {
        listed := true;
        var todo := names.Keys;
        ListNone(names, ns, cols);
        while todo != {}
          invariant todo <= names.Keys && unchanged(`backend, `meta, `fetched, `ver, `builds, `snap, `snapOK, `snapVer, `snapBe, `snapFrame)
          invariant listed && ns == old(ns) + (names - todo) && cols == Pending(names - todo) + old(cols)
          decreases todo
        {
          var t :| t in todo;
          ListNext(names, todo, t, old(ns), old(cols));
          ns := ns[t := names[t]];
          if t !in cols {
            cols := cols[t := []];
          }
          todo := todo - {t};
        }
        ver := ver + 1;
      }
    }

    method Probe(be: Conn, t: string) returns (r: Option<string>)
      ensures r == Probed(State(), be, t)
    {
      var known := t in ns;
      if backend != Some(be) || !known || t in fetched {
        return None;
      }
      return Some(ns[t]);
    }

    method CommitColumns(be: Conn, t: string, names: seq<string>, info: seq<Column>)
      modifies this
      ensures State() == WithColumns(old(State()), be, t, names, info)
    {
      if backend == Some(be) {
        fetched := fetched + {t};
        cols := cols[t := names];
        meta := meta[t := info];
        ver := ver + 1;
      }
    }

    /** The fetched tables, copied one by one. */
    method CopyTables() returns (tables: map<string, seq<string>>)
      ensures tables == cols
    {
      tables := map[];
      var todo := cols.Keys;
      while todo != {}
        invariant todo <= cols.Keys && tables == cols - todo
        decreases todo
      {
        var t :| t in todo;
        tables := tables[t := cols[t]];
        todo := todo - {t};
      }
      assert cols - todo == cols;
    }

    method CompletionSchema(be: Option<Conn>, f: Option<Frame>) returns (sc: Schema)
      modifies this
      ensures (State(), sc) == Completed(old(State()), be, f)
    {
      if snapOK && snapVer == ver && snapBe == be && snapFrame == f {
        return snap;
      }
      var current, engine := [], "";
      if f.Some? {
        current := f.value.columns;
      }
      var tables := map[];
      if be.Some? {
        engine := be.value.kind;
        if backend == be {
          tables := CopyTables();
        }
      }
      sc := Schema(current, engine, tables);
      snap, snapOK := sc, true;
      snapVer, snapBe, snapFrame := ver, be, f;
      builds := builds + 1;
    }

    method ColumnMetaFor(be: Option<Conn>, table: string) returns (m: seq<Column>)
      ensures m == if backend == be && table in meta then meta[table] else []
    {
      if backend == be && table in meta {
        return meta[table];
      }
      return [];
    }
  }
}
