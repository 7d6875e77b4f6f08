/// SQLite's query-plan rows as a tree (go/pkg/explain/explain.go:206-266).
module PlanTree {

  const MAX_DEPTH := 64
  const CUT_MARK := " …"

  /** A plan row after its three columns were read. */
  datatype Row = Row(id: int, parent: int, detail: string)

  /** A plan node; its name is "Step id". */
  datatype Node = Node(id: int, detail: string, children: seq<Node>)

  function Ids(rows: seq<Row>): set<int> { set r | r in rows :: r.id }

  predicate IsRoot(r: Row, known: set<int>) { r.parent == r.id || r.parent !in known }

  function RootIds(rows: seq<Row>, known: set<int>): seq<int> {
    if rows == [] then []
    else
      var r := rows[|rows| - 1];
      RootIds(rows[..|rows| - 1], known) + if IsRoot(r, known) then [r.id] else []
  }

  /** The ids of the rows under a parent, in row order. */
  function Kids(rows: seq<Row>, known: set<int>, p: int): seq<int> {
    if rows == [] then []
    else
      var r := rows[|rows| - 1];
      Kids(rows[..|rows| - 1], known, p) + if !IsRoot(r, known) && r.parent == p then [r.id] else []
  }

  /** The detail of an id; the last row with it wins. */
  function Detail(rows: seq<Row>, id: int): string {
    if rows == [] then "" else if rows[|rows| - 1].id == id then rows[|rows| - 1].detail else Detail(rows[..|rows| - 1], id)
  }

  lemma {:induction false} DetailIsLast(rows: seq<Row>, i: nat)
    requires i < |rows| && forall j :: i < j < |rows| ==> rows[j].id != rows[i].id
    ensures Detail(rows, rows[i].id) == rows[i].detail
  {
    if i < |rows| - 1 {
      DetailIsLast(rows[..|rows| - 1], i);
    }
  }

  function Tree(rows: seq<Row>, id: int, depth: nat, onPath: set<int>): (n: Node)
    ensures n.id == id
    decreases MAX_DEPTH - depth, 0, 0
  {
    if depth >= MAX_DEPTH || id in onPath then Node(id, Detail(rows, id) + CUT_MARK, [])
    else Node(id, Detail(rows, id), Trees(rows, Kids(rows, Ids(rows), id), depth + 1, onPath + {id}))
  }

  function Trees(rows: seq<Row>, ids: seq<int>, depth: nat, onPath: set<int>): (r: seq<Node>)
    ensures |r| == |ids|
    decreases MAX_DEPTH - depth, 1, |ids|
  {
    if ids == [] then []
    else Trees(rows, ids[..|ids| - 1], depth, onPath) + [Tree(rows, ids[|ids| - 1], depth, onPath)]
  }

  function Labels(n: Node): set<int> { {n.id} + AllLabels(n.children) }

  function AllLabels(ns: seq<Node>): set<int> {
    if ns == [] then {} else AllLabels(ns[..|ns| - 1]) + Labels(ns[|ns| - 1])
  }

  /** Rows no tree has shown yet, in row order, each with the tree below it. */
  function Rest(rows: seq<Row>, n: nat, shown: set<int>): seq<Node>
    requires n <= |rows|
  {
    if n == 0 then []
    else
      var before := Rest(rows, n - 1, shown);
      var id := rows[n - 1].id;
      before + if id in shown + AllLabels(before) then [] else [Tree(rows, id, 0, {})]
  }

  function Forest(rows: seq<Row>): seq<Node> {
    var top := Trees(rows, RootIds(rows, Ids(rows)), 0, {});
    top + Rest(rows, |rows|, AllLabels(top))
  }

  lemma TreeIs(rows: seq<Row>, id: int, depth: nat, onPath: set<int>)
    ensures Tree(rows, id, depth, onPath) ==
            if depth >= MAX_DEPTH || id in onPath then Node(id, Detail(rows, id) + CUT_MARK, [])
            else Node(id, Detail(rows, id), Trees(rows, Kids(rows, Ids(rows), id), depth + 1, onPath + {id}))
  {
  }

  lemma NoTrees(rows: seq<Row>, depth: nat, onPath: set<int>)
    ensures Trees(rows, [], depth, onPath) == [] && AllLabels([]) == {}
  {
  }

  lemma TreesNext(rows: seq<Row>, ids: seq<int>, i: nat, depth: nat, onPath: set<int>)
    requires i < |ids|
    ensures Trees(rows, ids[..i + 1], depth, onPath) == Trees(rows, ids[..i], depth, onPath) + [Tree(rows, ids[i], depth, onPath)]
  {
    assert ids[..i + 1][..i] == ids[..i];
  }

  lemma LabelsIs(n: Node)
    ensures Labels(n) == {n.id} + AllLabels(n.children)
  {
  }

  lemma LabelsNext(ns: seq<Node>, n: Node)
    ensures AllLabels(ns + [n]) == AllLabels(ns) + Labels(n)
  {
    assert (ns + [n])[..|ns|] == ns;
  }

  lemma RestNext(rows: seq<Row>, n: nat, shown: set<int>)
    requires n < |rows|
    ensures var before, id := Rest(rows, n, shown), rows[n].id;
      Rest(rows, n + 1, shown) == if id in shown + AllLabels(before) then before else before + [Tree(rows, id, 0, {})]
  {
  }

  lemma RestNone(rows: seq<Row>, shown: set<int>)
    ensures Rest(rows, 0, shown) == [] && AllLabels([]) == {}
  {
  }

  // ---- The builder ----

  class Builder {
    const rows: seq<Row>
    const byId: map<int, string>
    const kids: map<int, seq<int>>
    var emitted: set<int>
    var onPath: set<int>

    constructor (rows: seq<Row>, byId: map<int, string>, kids: map<int, seq<int>>)
      ensures this.rows == rows && this.byId == byId && this.kids == kids && emitted == {} && onPath == {}
    {
      this.rows, this.byId, this.kids, emitted, onPath := rows, byId, kids, {}, {};
    }

    ghost predicate Valid() {
      && byId.Keys == Ids(rows) && (forall id :: id in byId ==> byId[id] == Detail(rows, id))
      && (forall p :: Kids(rows, Ids(rows), p) == if p in kids then kids[p] else [])
      && (forall p, c :: c in Kids(rows, Ids(rows), p) ==> c in byId)
    }

    method Top(rootIds: seq<int>) returns (roots: seq<Node>)
      requires Valid() && onPath == {} && emitted == {} && forall id :: id in rootIds ==> id in byId
      modifies this
      ensures roots == Trees(rows, rootIds, 0, {}) && onPath == {} && emitted == AllLabels(roots)
    {
      hide Kids, RootIds, Detail, Labels, Tree;
      roots := [];
      for i := 0 to |rootIds|
        invariant onPath == {} && roots == Trees(rows, rootIds[..i], 0, {}) && emitted == AllLabels(roots)
      {
        assert rootIds[..i + 1][..i] == rootIds[..i];
        var n := Build(rootIds[i], 0);
        LabelsNext(roots, n);
        roots := roots + [n];
      }
      assert rootIds[..|rootIds|] == rootIds;
    }

    /** The tree below an id; ids on the path are restored and every id shown is recorded. */
    method Build(id: int, depth: nat) returns (n: Node)
      requires Valid() && id in byId
      modifies this
      ensures n == Tree(rows, id, depth, old(onPath))
      ensures onPath == old(onPath) && emitted == old(emitted) + Labels(n)
      decreases MAX_DEPTH - depth
    {
      TreeIs(rows, id, depth, onPath);
      hide Kids, Detail, Tree, Trees, Labels, AllLabels, RootIds;
      var detail := byId[id];
      emitted := emitted + {id};
      if depth >= MAX_DEPTH || id in onPath {
        NoTrees(rows, depth, onPath);
        LabelsIs(Node(id, detail + CUT_MARK, []));
        return Node(id, detail + CUT_MARK, []);
      }
      onPath := onPath + {id};
      var children: seq<Node> := [];
      var below := if id in kids then kids[id] else [];
      ghost var path := onPath;
      NoTrees(rows, depth + 1, path);
      for i := 0 to |below|
        invariant onPath == path && children == Trees(rows, below[..i], depth + 1, path)
        invariant emitted == old(emitted) + {id} + AllLabels(children)
      {
        var c := Build(below[i], depth + 1);
        TreesNext(rows, below, i, depth + 1, path);
        LabelsNext(children, c);
        children := children + [c];
      }
      assert below[..|below|] == below;
      onPath := onPath - {id};
      n := Node(id, detail, children);
      LabelsIs(n);
    }

    /** Rows on a cycle hang below no root: each one not shown yet becomes a root of its own. */
    method AddRest(top: seq<Node>) returns (roots: seq<Node>)
      requires Valid() && onPath == {} && emitted == AllLabels(top)
      modifies this
      ensures roots == top + Rest(rows, |rows|, AllLabels(top)) && onPath == {}
    {
      hide Kids, RootIds, Detail, Labels, Tree, Rest, AllLabels;
      roots := top;
      RestNone(rows, AllLabels(top));
      for i := 0 to |rows|
        invariant onPath == {} && roots == top + Rest(rows, i, AllLabels(top))
        invariant emitted == AllLabels(top) + AllLabels(Rest(rows, i, AllLabels(top)))
      {
        var id := rows[i].id;
        assert rows[i] in rows;
        ghost var before := Rest(rows, i, AllLabels(top));
        RestNext(rows, i, AllLabels(top));
        if id !in emitted {
          var n := Build(id, 0);
          LabelsNext(before, n);
          assert roots + [n] == top + (before + [n]);
          roots := roots + [n];
        }
      }
    }
  }

  method IndexRows(rows: seq<Row>) returns (known: set<int>, byId: map<int, string>)
    ensures known == Ids(rows) == byId.Keys && forall id :: id in byId ==> byId[id] == Detail(rows, id)
  {
    known, byId := {}, map[];
    for i := 0 to |rows|
      invariant known == Ids(rows[..i]) == byId.Keys
      invariant forall id :: id in byId ==> byId[id] == Detail(rows[..i], id)
    {
      assert rows[..i + 1] == rows[..i] + [rows[i]] && rows[..i + 1][..i] == rows[..i];
      known := known + {rows[i].id};
      byId := byId[rows[i].id := rows[i].detail];
    }
    assert rows[..|rows|] == rows;
  }

  lemma NoKids(known: set<int>)
    ensures RootIds([], known) == [] && forall p :: Kids([], known, p) == []
  {
  }

  lemma KidsNext(rows: seq<Row>, known: set<int>, i: nat, p: int)
    requires i < |rows|
    ensures var r := rows[i];
      && Kids(rows[..i + 1], known, p) == Kids(rows[..i], known, p) + (if !IsRoot(r, known) && r.parent == p then [r.id] else [])
      && RootIds(rows[..i + 1], known) == RootIds(rows[..i], known) + (if IsRoot(r, known) then [r.id] else [])
  {
    assert rows[..i + 1][..i] == rows[..i];
  }

  lemma {:induction false} KidsKnown(rows: seq<Row>, known: set<int>, p: int)
    ensures forall c :: c in Kids(rows, known, p) ==> c in Ids(rows)
    ensures forall c :: c in RootIds(rows, known) ==> c in Ids(rows)
  {
    if rows != [] {
      KidsKnown(rows[..|rows| - 1], known, p);
      assert rows[|rows| - 1] in rows && forall r :: r in rows[..|rows| - 1] ==> r in rows;
    }
  }

  method LinkRows(rows: seq<Row>, known: set<int>) returns (rootIds: seq<int>, kids: map<int, seq<int>>)
    ensures rootIds == RootIds(rows, known)
    ensures forall p :: Kids(rows, known, p) == if p in kids then kids[p] else []
  {
    rootIds, kids := [], map[];
    NoKids(known);
    hide Kids, RootIds, Ids;
    for i := 0 to |rows|
      invariant rootIds == RootIds(rows[..i], known)
      invariant forall p :: Kids(rows[..i], known, p) == if p in kids then kids[p] else []
    {
      forall p ensures Kids(rows[..i + 1], known, p) == Kids(rows[..i], known, p) + (if !IsRoot(rows[i], known) && rows[i].parent == p then [rows[i].id] else []) {
        KidsNext(rows, known, i, p);
      }
      KidsNext(rows, known, i, 0);
      var e := rows[i];
      if e.parent == e.id || e.parent !in known {
        rootIds := rootIds + [e.id];
        continue;
      }
      kids := kids[e.parent := (if e.parent in kids then kids[e.parent] else []) + [e.id]];
    }
    assert rows[..|rows|] == rows;
  }

  method SqliteTree(rows: seq<Row>) returns (roots: seq<Node>, ok: bool)
    ensures roots == Forest(rows) && ok == (rows != [])
  {
    var known, byId := IndexRows(rows);
    var rootIds, kids := LinkRows(rows, known);
    forall p ensures forall c :: c in Kids(rows, known, p) ==> c in known {
      KidsKnown(rows, known, p);
    }
    KidsKnown(rows, known, 0);
    var b := new Builder(rows, byId, kids);
    hide Kids, RootIds, Detail, Labels, Tree, Trees, Rest, AllLabels;
    roots := b.Top(rootIds);
    roots := b.AddRest(roots);
    EveryRowShown(rows);
    ok := |roots| > 0;
  }

  // ---- Every row is shown ----

  lemma LabelHead(n: Node)
    ensures n.id in Labels(n)
  {
  }

  lemma {:induction false} RestShows(rows: seq<Row>, n: nat, shown: set<int>, k: nat)
    requires k < n <= |rows|
    ensures rows[k].id in shown + AllLabels(Rest(rows, n, shown))
  {
    hide Kids, RootIds, Detail, Labels, Tree, Ids;
    var before, all := Rest(rows, n - 1, shown), Rest(rows, n, shown);
    if k < n - 1 {
      RestShows(rows, n - 1, shown, k);
    }
    var t := Tree(rows, rows[n - 1].id, 0, {});
    LabelsNext(before, t);
    LabelHead(t);
    assert all == before || all == before + [t];
  }

  lemma {:induction false} LabelsJoin(a: seq<Node>, b: seq<Node>)
    ensures AllLabels(a + b) == AllLabels(a) + AllLabels(b)
  {
    if b == [] {
      assert a + b == a;
    } else {
      LabelsJoin(a, b[..|b| - 1]);
      assert (a + b)[..|a + b| - 1] == a + b[..|b| - 1];
    }
  }

  /** Whatever the parent links, cyclic ones included, every row id labels a node. */
  lemma EveryRowShown(rows: seq<Row>)
    ensures Ids(rows) <= AllLabels(Forest(rows))
    ensures rows != [] <==> Forest(rows) != []
  {
    var top := Trees(rows, RootIds(rows, Ids(rows)), 0, {});
    var rest := Rest(rows, |rows|, AllLabels(top));
    LabelsJoin(top, rest);
    forall k | 0 <= k < |rows| ensures rows[k].id in AllLabels(Forest(rows)) {
      RestShows(rows, |rows|, AllLabels(top), k);
    }
    if rows != [] {
      assert rows[0].id in AllLabels(Forest(rows));
    }
  }
}
