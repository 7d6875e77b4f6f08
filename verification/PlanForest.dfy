/// When the plan rows are a forest, the tree drawn is that forest (go/pkg/explain/explain.go:206-266).
module PlanForest {
  import opened PlanTree

  ghost predicate Distinct(rows: seq<Row>) {
    forall i, j :: 0 <= i < j < |rows| ==> rows[i].id != rows[j].id
  }

  /** A level for every row, zero at a root and one more than the parent's elsewhere: the rows form a forest. */
  ghost predicate Leveled(rows: seq<Row>, level: map<int, nat>) {
    && level.Keys == Ids(rows)
    && (forall r :: r in rows ==> if IsRoot(r, Ids(rows)) then level[r.id] == 0 else level[r.id] == level[r.parent] + 1)
  }

  ghost predicate Shallow(rows: seq<Row>, level: map<int, nat>) {
    Distinct(rows) && Leveled(rows, level) && forall x :: x in level ==> level[x] < MAX_DEPTH
  }

  ghost function Find(rows: seq<Row>, x: int): (r: Row)
    requires x in Ids(rows)
    ensures r in rows && r.id == x
  {
    var r :| r in rows && r.id == x;
    r
  }

  lemma FindIs(rows: seq<Row>, r: Row)
    requires Distinct(rows) && r in rows
    ensures r.id in Ids(rows) && Find(rows, r.id) == r
  {
  }

  /** id is x or an ancestor of x. */
  ghost predicate Under(rows: seq<Row>, level: map<int, nat>, x: int, id: int)
    requires Leveled(rows, level) && x in Ids(rows)
    decreases level[x]
  {
    x == id || (!IsRoot(Find(rows, x), Ids(rows)) && Under(rows, level, Find(rows, x).parent, id))
  }

  ghost predicate UnderSome(rows: seq<Row>, level: map<int, nat>, x: int, ids: seq<int>)
    requires Leveled(rows, level) && x in Ids(rows)
  {
    exists c :: c in ids && Under(rows, level, x, c)
  }

  lemma {:induction false} UnderLevel(rows: seq<Row>, level: map<int, nat>, x: int, c: int)
    requires Leveled(rows, level) && x in Ids(rows) && Under(rows, level, x, c)
    ensures c in Ids(rows) && level[c] <= level[x] && (level[c] == level[x] ==> x == c)
    decreases level[x]
  {
    if x != c {
      UnderLevel(rows, level, Find(rows, x).parent, c);
    }
  }

  /** Two ancestors on the same level are the same. */
  lemma {:induction false} UnderOne(rows: seq<Row>, level: map<int, nat>, x: int, c: int, d: int)
    requires Leveled(rows, level) && x in Ids(rows) && Under(rows, level, x, c) && Under(rows, level, x, d)
    requires c in Ids(rows) && d in Ids(rows) && level[c] == level[d]
    ensures c == d
    decreases level[x]
  {
    if x == c {
      UnderLevel(rows, level, x, d);
    } else if x == d {
      UnderLevel(rows, level, x, c);
    } else {
      UnderOne(rows, level, Find(rows, x).parent, c, d);
    }
  }

  lemma {:induction false} KidsAre(rows: seq<Row>, known: set<int>, p: int)
    ensures forall c :: c in Kids(rows, known, p) <==> exists r :: r in rows && !IsRoot(r, known) && r.parent == p && r.id == c
    ensures forall c :: c in RootIds(rows, known) <==> exists r :: r in rows && IsRoot(r, known) && r.id == c
  {
    if rows != [] {
      var init, last := rows[..|rows| - 1], rows[|rows| - 1];
      KidsAre(init, known, p);
      assert rows == init + [last];
    }
  }

  ghost predicate NoRepeats(ids: seq<int>) { forall i, j :: 0 <= i < j < |ids| ==> ids[i] != ids[j] }

  lemma {:induction false} KidsDistinct(rows: seq<Row>, known: set<int>, p: int)
    requires Distinct(rows)
    ensures NoRepeats(Kids(rows, known, p)) && NoRepeats(RootIds(rows, known))
  {
    if rows != [] {
      var init, last := rows[..|rows| - 1], rows[|rows| - 1];
      KidsDistinct(init, known, p);
      KidsAre(init, known, p);
      assert last.id !in Kids(init, known, p) && last.id !in RootIds(init, known);
    }
  }

  /** Being under a node and not the node is being under one of its children. */
  lemma {:induction false} UnderKid(rows: seq<Row>, level: map<int, nat>, x: int, id: int)
    requires Distinct(rows) && Leveled(rows, level) && x in Ids(rows) && id in Ids(rows)
    ensures UnderSome(rows, level, x, Kids(rows, Ids(rows), id)) <==> x != id && Under(rows, level, x, id)
    decreases level[x]
  {
    var known := Ids(rows);
    var kids := Kids(rows, known, id);
    KidsAre(rows, known, id);
    var r := Find(rows, x);
    if !IsRoot(r, known) {
      UnderKid(rows, level, r.parent, id);
      if r.parent == id {
        assert x in kids && Under(rows, level, x, x);
      } else if Under(rows, level, r.parent, id) {
        var c :| c in kids && Under(rows, level, r.parent, c);
        assert Under(rows, level, x, c);
      }
    }
    forall c | c in kids && Under(rows, level, x, c) ensures x != id && Under(rows, level, x, id) {
      KidBelow(rows, level, x, c, id);
    }
  }

  lemma KidBelow(rows: seq<Row>, level: map<int, nat>, x: int, c: int, id: int)
    requires Distinct(rows) && Leveled(rows, level) && x in Ids(rows) && id in Ids(rows)
    requires c in Kids(rows, Ids(rows), id) && Under(rows, level, x, c)
    ensures x != id && Under(rows, level, x, id)
    decreases level[x]
  {
    KidsAre(rows, Ids(rows), id);
    UnderLevel(rows, level, x, c);
    var r :| r in rows && !IsRoot(r, Ids(rows)) && r.parent == id && r.id == c;
    FindIs(rows, r);
    if x != c {
      KidBelow(rows, level, Find(rows, x).parent, c, id);
    }
  }

  lemma {:induction false} UnderRoot(rows: seq<Row>, level: map<int, nat>, x: int)
    requires Distinct(rows) && Leveled(rows, level) && x in Ids(rows)
    ensures UnderSome(rows, level, x, RootIds(rows, Ids(rows)))
    decreases level[x]
  {
    var known := Ids(rows);
    KidsAre(rows, known, 0);
    var r := Find(rows, x);
    if IsRoot(r, known) {
      assert x in RootIds(rows, known) && Under(rows, level, x, x);
    } else {
      UnderRoot(rows, level, r.parent);
      var c :| c in RootIds(rows, known) && Under(rows, level, r.parent, c);
      assert Under(rows, level, x, c);
    }
  }

  // ---- Counting labels ----

  function Occurs(n: Node, x: int): nat { (if n.id == x then 1 else 0) + OccursAll(n.children, x) }

  function OccursAll(ns: seq<Node>, x: int): nat {
    if ns == [] then 0 else OccursAll(ns[..|ns| - 1], x) + Occurs(ns[|ns| - 1], x)
  }

  lemma {:induction false} OccursLabels(n: Node, x: int)
    ensures x in Labels(n) <==> Occurs(n, x) > 0
    decreases n, 1
  {
    OccursAllLabels(n.children, x);
  }

  lemma {:induction false} OccursAllLabels(ns: seq<Node>, x: int)
    ensures x in AllLabels(ns) <==> OccursAll(ns, x) > 0
    decreases ns, 0
  {
    if ns != [] {
      OccursAllLabels(ns[..|ns| - 1], x);
      OccursLabels(ns[|ns| - 1], x);
    }
  }

  // ---- Levels along a path ----

  ghost predicate Above(onPath: set<int>, level: map<int, nat>, d: nat) {
    forall p :: p in onPath ==> p in level && level[p] < d
  }

  ghost predicate OnLevel(rows: seq<Row>, level: map<int, nat>, ids: seq<int>, d: nat)
    requires Leveled(rows, level)
  {
    forall c :: c in ids ==> c in Ids(rows) && level[c] == d
  }

  lemma PathGrows(onPath: set<int>, level: map<int, nat>, id: int)
    requires id in level && Above(onPath, level, level[id])
    ensures id !in onPath && Above(onPath + {id}, level, level[id] + 1)
  {
  }

  lemma ShallowIs(rows: seq<Row>, level: map<int, nat>)
    requires Shallow(rows, level)
    ensures Distinct(rows) && Leveled(rows, level) && level.Keys == Ids(rows)
  {
  }

  lemma KidsOnLevel(rows: seq<Row>, level: map<int, nat>, id: int)
    requires Shallow(rows, level) && id in Ids(rows)
    ensures level[id] < MAX_DEPTH && OnLevel(rows, level, Kids(rows, Ids(rows), id), level[id] + 1)
  {
    hide Distinct;
    KidLevels(rows, level, id);
  }

  lemma LastOnLevel(rows: seq<Row>, level: map<int, nat>, ids: seq<int>, d: nat)
    requires Leveled(rows, level) && ids != [] && OnLevel(rows, level, ids, d) && NoRepeats(ids)
    ensures var init, last := ids[..|ids| - 1], ids[|ids| - 1];
      && OnLevel(rows, level, init, d) && NoRepeats(init) && last !in init && last in Ids(rows) && level[last] == d && ids == init + [last]
  {
  }

  lemma OccursIs(n: Node, x: int)
    ensures Occurs(n, x) == (if n.id == x then 1 else 0) + OccursAll(n.children, x)
  {
  }

  lemma OccursNone(x: int)
    ensures OccursAll([], x) == 0
  {
  }

  /** The tree of a node shows what is under it, once. */
  lemma {:induction false} TreeCounts(rows: seq<Row>, level: map<int, nat>, id: int, onPath: set<int>, x: int)
    requires Shallow(rows, level) && id in Ids(rows) && x in Ids(rows) && Above(onPath, level, level[id])
    ensures Occurs(Tree(rows, id, level[id], onPath), x) == if Under(rows, level, x, id) then 1 else 0
    decreases MAX_DEPTH - level[id], 0, 0
  {
    hide *;
    ShallowIs(rows, level);
    var kids := Kids(rows, Ids(rows), id);
    KidsOnLevel(rows, level, id);
    PathGrows(onPath, level, id);
    TreeIs(rows, id, level[id], onPath);
    KidsDistinct(rows, Ids(rows), id);
    TreesCount(rows, level, kids, level[id] + 1, onPath + {id}, x);
    UnderKid(rows, level, x, id);
    UnderSelf(rows, level, id);
    OccursIs(Tree(rows, id, level[id], onPath), x);
  }

  lemma UnderSelf(rows: seq<Row>, level: map<int, nat>, id: int)
    requires Leveled(rows, level) && id in Ids(rows)
    ensures Under(rows, level, id, id)
  {
  }

  lemma KidLevels(rows: seq<Row>, level: map<int, nat>, id: int)
    requires Leveled(rows, level) && id in Ids(rows)
    ensures forall c :: c in Kids(rows, Ids(rows), id) ==> c in Ids(rows) && level[c] == level[id] + 1
    ensures forall c :: c in RootIds(rows, Ids(rows)) ==> c in Ids(rows) && level[c] == 0
  {
    KidsAre(rows, Ids(rows), id);
  }

  lemma {:induction false} TreesCount(rows: seq<Row>, level: map<int, nat>, ids: seq<int>, d: nat, onPath: set<int>, x: int)
    requires Shallow(rows, level) && x in Ids(rows) && NoRepeats(ids) && OnLevel(rows, level, ids, d) && Above(onPath, level, d)
    ensures OccursAll(Trees(rows, ids, d, onPath), x) == if UnderSome(rows, level, x, ids) then 1 else 0
    decreases MAX_DEPTH - d, 1, |ids|
  {
    hide *;
    ShallowIs(rows, level);
    if ids == [] {
      NoTrees(rows, d, onPath);
      OccursNone(x);
      UnderNone(rows, level, x);
    } else {
      var init, last := ids[..|ids| - 1], ids[|ids| - 1];
      LastOnLevel(rows, level, ids, d);
      TreesCount(rows, level, init, d, onPath, x);
      TreeCounts(rows, level, last, onPath, x);
      TreesNext(rows, ids, |ids| - 1, d, onPath);
      assert ids[..|ids|] == ids;
      OccursNext(Trees(rows, init, d, onPath), Tree(rows, last, d, onPath), x);
      OnlyOne(rows, level, x, init, last, d);
    }
  }

  lemma UnderNone(rows: seq<Row>, level: map<int, nat>, x: int)
    requires Leveled(rows, level) && x in Ids(rows)
    ensures !UnderSome(rows, level, x, [])
  {
  }

  lemma OccursNext(ns: seq<Node>, n: Node, x: int)
    ensures OccursAll(ns + [n], x) == OccursAll(ns, x) + Occurs(n, x)
  {
    assert (ns + [n])[..|ns|] == ns;
  }

  lemma OnlyOne(rows: seq<Row>, level: map<int, nat>, x: int, ids: seq<int>, last: int, d: nat)
    requires Leveled(rows, level) && x in Ids(rows) && last !in ids && last in Ids(rows) && level[last] == d
    requires OnLevel(rows, level, ids, d)
    ensures UnderSome(rows, level, x, ids + [last]) <==> UnderSome(rows, level, x, ids) || Under(rows, level, x, last)
    ensures !(UnderSome(rows, level, x, ids) && Under(rows, level, x, last))
  {
    forall c | c in ids && Under(rows, level, x, c) ensures !Under(rows, level, x, last) {
      if Under(rows, level, x, last) {
        UnderOne(rows, level, x, c, last);
      }
    }
    assert forall c :: c in ids + [last] <==> c in ids || c == last;
  }

  // ---- Edges ----

  /** Every edge drawn, in any plan, is a link between rows. */
  predicate Linked(rows: seq<Row>, n: Node) {
    forall i :: 0 <= i < |n.children| ==> n.children[i].id in Kids(rows, Ids(rows), n.id) && Linked(rows, n.children[i])
  }

  /** A node drawn in full: its row's detail, and its children exactly the rows under it, in order. */
  predicate Whole(rows: seq<Row>, n: Node) {
    && n.detail == Detail(rows, n.id)
    && |n.children| == |Kids(rows, Ids(rows), n.id)|
    && forall i :: 0 <= i < |n.children| ==> n.children[i].id == Kids(rows, Ids(rows), n.id)[i] && Whole(rows, n.children[i])
  }

  lemma {:induction false} TreesAt(rows: seq<Row>, ids: seq<int>, d: nat, onPath: set<int>, i: nat)
    requires i < |ids|
    ensures Trees(rows, ids, d, onPath)[i] == Tree(rows, ids[i], d, onPath)
  {
    if i < |ids| - 1 {
      TreesAt(rows, ids[..|ids| - 1], d, onPath, i);
    }
  }

  /** A row that is its own parent, or whose parent is no row, is a root of the tree drawn. */
  lemma RootsDrawn(rows: seq<Row>, r: Row)
    requires r in rows && (r.parent == r.id || forall x :: x in rows ==> x.id != r.parent)
    ensures exists i :: 0 <= i < |Forest(rows)| && Forest(rows)[i].id == r.id
  {
    hide Tree, Trees, Rest, AllLabels, Kids;
    var roots := RootIds(rows, Ids(rows));
    KidsAre(rows, Ids(rows), r.id);
    assert IsRoot(r, Ids(rows)) && r in rows;
    assert r.id in roots;
    var i :| 0 <= i < |roots| && roots[i] == r.id;
    TreesAt(rows, roots, 0, {}, i);
    assert Forest(rows)[i] == Trees(rows, roots, 0, {})[i];
  }

  lemma {:induction false} LabelsConcat(a: seq<Node>, b: seq<Node>)
    ensures AllLabels(a + b) == AllLabels(a) + AllLabels(b)
  {
    hide Labels;
    if b == [] {
      assert a + b == a;
    } else {
      var init := b[..|b| - 1];
      assert (a + b)[..|a + b| - 1] == a + init;
      LabelsConcat(a, init);
    }
  }

  lemma {:induction false} RestNew(rows: seq<Row>, n: nat, shown: set<int>, i: nat)
    requires n <= |rows| && i < |Rest(rows, n, shown)|
    ensures var rest := Rest(rows, n, shown); rest[i].id !in shown + AllLabels(rest[..i])
  {
    hide Tree, AllLabels;
    var before, rest := Rest(rows, n - 1, shown), Rest(rows, n, shown);
    if i < |before| {
      RestNew(rows, n - 1, shown, i);
      assert rest[..i] == before[..i];
    } else {
      assert rest[..i] == before;
    }
  }

  /** A root drawn only because no root row leads to it stands in no tree drawn before. */
  lemma ExtraRootsNew(rows: seq<Row>, i: nat)
    requires |RootIds(rows, Ids(rows))| <= i < |Forest(rows)|
    ensures Forest(rows)[i].id !in AllLabels(Forest(rows)[..i])
  {
    hide Tree, Rest, AllLabels, RootIds;
    var top := Trees(rows, RootIds(rows, Ids(rows)), 0, {});
    hide Trees;
    var rest := Rest(rows, |rows|, AllLabels(top));
    RestNew(rows, |rows|, AllLabels(top), i - |top|);
    assert Forest(rows)[..i] == top + rest[..i - |top|];
    LabelsConcat(top, rest[..i - |top|]);
  }

  lemma {:induction false} TreeLinked(rows: seq<Row>, id: int, d: nat, onPath: set<int>)
    ensures Linked(rows, Tree(rows, id, d, onPath))
    decreases MAX_DEPTH - d
  {
    var kids := Kids(rows, Ids(rows), id);
    var n := Tree(rows, id, d, onPath);
    forall i | 0 <= i < |n.children| ensures n.children[i].id in kids && Linked(rows, n.children[i]) {
      TreesAt(rows, kids, d + 1, onPath + {id}, i);
      TreeLinked(rows, kids[i], d + 1, onPath + {id});
    }
  }

  lemma {:induction false} TreeWhole(rows: seq<Row>, level: map<int, nat>, id: int, onPath: set<int>)
    requires Shallow(rows, level) && id in Ids(rows) && Above(onPath, level, level[id])
    ensures Whole(rows, Tree(rows, id, level[id], onPath))
    decreases MAX_DEPTH - level[id]
  {
    hide Kids, Tree, Trees, Detail, Shallow, Leveled, Distinct, Above;
    ShallowIs(rows, level);
    var kids := Kids(rows, Ids(rows), id);
    KidsOnLevel(rows, level, id);
    PathGrows(onPath, level, id);
    TreeIs(rows, id, level[id], onPath);
    var n := Tree(rows, id, level[id], onPath);
    forall i | 0 <= i < |n.children| ensures n.children[i].id == kids[i] && Whole(rows, n.children[i]) {
      TreesAt(rows, kids, level[id] + 1, onPath + {id}, i);
      TreeWhole(rows, level, kids[i], onPath + {id});
    }
  }

  lemma {:induction false} NothingLeft(rows: seq<Row>, n: nat, shown: set<int>)
    requires n <= |rows| && forall k :: 0 <= k < n ==> rows[k].id in shown
    ensures Rest(rows, n, shown) == []
  {
    if n > 0 {
      NothingLeft(rows, n - 1, shown);
    }
  }

  /** Distinct ids in a forest less than 64 deep: every id labels exactly one node, roots are the root rows, and each node's children are its rows. */
  lemma ForestExact(rows: seq<Row>, level: map<int, nat>)
    requires Shallow(rows, level)
    ensures forall x :: x in Ids(rows) ==> OccursAll(Forest(rows), x) == 1
    ensures |Forest(rows)| == |RootIds(rows, Ids(rows))|
    ensures forall i :: 0 <= i < |Forest(rows)| ==> Forest(rows)[i].id == RootIds(rows, Ids(rows))[i] && Whole(rows, Forest(rows)[i])
  {
    hide Tree, Trees, Rest, OccursAll, Under, UnderSome, RootIds, Whole;
    var known := Ids(rows);
    var roots := RootIds(rows, known);
    var top := Trees(rows, roots, 0, {});
    KidsDistinct(rows, known, 0);
    forall x | x in known ensures OccursAll(top, x) == 1 && x in AllLabels(top) {
      KidLevels(rows, level, x);
      TreesCount(rows, level, roots, 0, {}, x);
      UnderRoot(rows, level, x);
      OccursAllLabels(top, x);
    }
    NothingLeft(rows, |rows|, AllLabels(top));
    assert Forest(rows) == top;
    forall i | 0 <= i < |top| ensures top[i].id == roots[i] && Whole(rows, top[i]) {
      KidsKnown(rows, known, 0);
      KidLevels(rows, level, roots[i]);
      TreesAt(rows, roots, 0, {}, i);
      TreeWhole(rows, level, roots[i], {});
    }
  }

  lemma {:induction false} RestLinked(rows: seq<Row>, n: nat, shown: set<int>)
    requires n <= |rows|
    ensures forall t :: t in Rest(rows, n, shown) ==> Linked(rows, t)
  {
    hide Tree, Linked, AllLabels;
    if n > 0 {
      RestLinked(rows, n - 1, shown);
      TreeLinked(rows, rows[n - 1].id, 0, {});
    }
  }

  /** Whatever the rows, every edge of the forest drawn is a link between rows. */
  lemma ForestLinked(rows: seq<Row>)
    ensures forall t :: t in Forest(rows) ==> Linked(rows, t)
  {
    hide Rest, Tree, Linked, RootIds;
    var roots := RootIds(rows, Ids(rows));
    var top := Trees(rows, roots, 0, {});
    forall i | 0 <= i < |top| ensures Linked(rows, top[i]) {
      TreesAt(rows, roots, 0, {}, i);
      TreeLinked(rows, roots[i], 0, {});
    }
    RestLinked(rows, |rows|, AllLabels(top));
  }
}
