/// The dependency graph between newly created tables: the depth-first order of
/// topoCreateTables (go/pkg/schemadiff/schemadiff.go:494-539) and the cycle
/// search of fkCycleKeys (go/pkg/schemadiff/ddl.go:103-153).
module Graph {
  import opened Text
  import opened Sequences

  /** Each node's dependencies, as the program's deps map. */
  datatype Graph = Graph(deps: map<string, seq<string>>) {
    predicate Valid() {
      forall k, r :: k in deps && r in deps[k] ==> r in deps && r != k
    }

    function Nodes(): set<string> { deps.Keys }
  }

  // ---- Reachability ----

  ghost predicate ReachesIn(g: Graph, a: string, b: string, n: nat)
    decreases n
  {
    if n == 0 then a == b else a in g.deps && exists c :: c in g.deps[a] && ReachesIn(g, c, b, n - 1)
  }

  ghost predicate Reaches(g: Graph, a: string, b: string) {
    exists n: nat :: ReachesIn(g, a, b, n)
  }

  /** k lies on a cycle: one of its dependencies leads back to it. */
  ghost predicate OnCycle(g: Graph, k: string) {
    k in g.deps && exists d :: d in g.deps[k] && Reaches(g, d, k)
  }

  lemma {:induction false} ReachesInTransitive(g: Graph, a: string, b: string, c: string, m: nat, n: nat)
    requires ReachesIn(g, a, b, m) && ReachesIn(g, b, c, n)
    ensures ReachesIn(g, a, c, m + n)
    decreases m
  {
    if m > 0 {
      var d :| d in g.deps[a] && ReachesIn(g, d, b, m - 1);
      ReachesInTransitive(g, d, b, c, m - 1, n);
    }
  }

  lemma ReachesTransitive(g: Graph, a: string, b: string, c: string)
    requires Reaches(g, a, b) && Reaches(g, b, c)
    ensures Reaches(g, a, c)
  {
    var m :| ReachesIn(g, a, b, m);
    var n :| ReachesIn(g, b, c, n);
    ReachesInTransitive(g, a, b, c, m, n);
  }

  lemma ReachesEdge(g: Graph, a: string, b: string)
    requires a in g.deps && b in g.deps[a]
    ensures Reaches(g, a, b)
  {
    assert ReachesIn(g, b, b, 0);
    assert ReachesIn(g, a, b, 1);
  }

  lemma ReachesSelf(g: Graph, a: string)
    ensures Reaches(g, a, a)
  {
    assert ReachesIn(g, a, a, 0);
  }

  /** An edge whose target leads back to its source puts both ends on a cycle. */
  lemma EdgeOnCycle(g: Graph, a: string, b: string)
    requires g.Valid() && a in g.deps && b in g.deps[a] && Reaches(g, b, a)
    ensures OnCycle(g, a) && OnCycle(g, b)
  {
    var n: nat :| ReachesIn(g, b, a, n);
    assert n > 0;
    var d :| d in g.deps[b] && ReachesIn(g, d, a, n - 1);
    assert Reaches(g, d, a);
    ReachesEdge(g, a, b);
    ReachesTransitive(g, d, a, b);
  }

  // ---- The depth-first order ----

  function Visit(g: Graph, visited: set<string>, order: seq<string>, k: string): (r: (set<string>, seq<string>))
    requires g.Valid() && k in g.deps && visited <= g.Nodes()
    ensures visited <= r.0 <= g.Nodes()
    decreases g.Nodes() - visited, 0
  {
    if k in visited then (visited, order) else
    var (v, o) := VisitAll(g, visited + {k}, order, g.deps[k]);
    (v, o + [k])
  }

  function VisitAll(g: Graph, visited: set<string>, order: seq<string>, ks: seq<string>): (r: (set<string>, seq<string>))
    requires g.Valid() && visited <= g.Nodes() && forall k :: k in ks ==> k in g.deps
    ensures visited <= r.0 <= g.Nodes()
    decreases g.Nodes() - visited, |ks| + 1
  {
    if ks == [] then (visited, order) else
    var (v, o) := Visit(g, visited, order, ks[0]);
    VisitAll(g, v, o, ks[1..])
  }

  function TopoOrder(g: Graph): seq<string>
    requires g.Valid()
  {
    VisitAll(g, {}, [], SortedKeys(g.Nodes())).1
  }

  /** The recursive closure of the program, threading `visited` and `order`. */
  method DepthFirst(g: Graph, visited: set<string>, order: seq<string>, k: string)
    returns (visited': set<string>, order': seq<string>)
    requires g.Valid() && k in g.deps && visited <= g.Nodes()
    ensures (visited', order') == Visit(g, visited, order, k)
    decreases g.Nodes() - visited
  {
    if k in visited {
      return visited, order;
    }
    visited', order' := visited + {k}, order;
    var ds := g.deps[k];
    for i := 0 to |ds|
      invariant visited + {k} <= visited' <= g.Nodes()
      invariant VisitAll(g, visited', order', ds[i..]) == VisitAll(g, visited + {k}, order, ds)
    {
      assert ds[i..][1..] == ds[i + 1..];
      assert ds[i] in ds;
      visited', order' := DepthFirst(g, visited', order', ds[i]);
    }
    order' := order' + [k];
  }

  method DepthFirstOrder(g: Graph) returns (order: seq<string>)
    requires g.Valid()
    ensures order == TopoOrder(g)
  {
    hide SortedKeys, Visit;
    order := [];
    var visited: set<string> := {};
    var keys := SortedKeys(g.Nodes());
    for i := 0 to |keys|
      invariant visited <= g.Nodes()
      invariant VisitAll(g, visited, order, keys[i..]).1 == TopoOrder(g)
    {
      assert keys[i..][1..] == keys[i + 1..];
      assert keys[i] in keys;
      visited, order := DepthFirst(g, visited, order, keys[i]);
    }
  }

  /** Every dependency of a placed node was placed before it, or leads back to it. */
  ghost predicate Placed(g: Graph, order: seq<string>) {
    forall i, r :: 0 <= i < |order| && order[i] in g.deps && r in g.deps[order[i]] ==>
      r in order[..i] || Reaches(g, r, order[i])
  }

  /** Nodes entered but not yet placed: the search path. */
  ghost predicate OpenPath(g: Graph, visited: set<string>, order: seq<string>, k: string) {
    forall x :: x in visited && x !in order ==> Reaches(g, x, k)
  }

  ghost predicate SearchState(g: Graph, visited: set<string>, order: seq<string>) {
    NoRepeats(order) && Placed(g, order) && visited <= g.Nodes() && forall x :: x in order ==> x in visited
  }

  /** The search extends the order by exactly the nodes it newly entered. */
  ghost predicate Extends(visited: set<string>, order: seq<string>, v: set<string>, o: seq<string>) {
    && |order| <= |o| && o[..|order|] == order && visited <= v
    && (forall x :: x in v && x !in visited ==> x in o && x !in order)
    && (forall x :: x in o && x !in order ==> x in v && x !in visited)
  }

  lemma PlaceLast(g: Graph, order: seq<string>, k: string)
    requires Placed(g, order) && k in g.deps
    requires forall r :: r in g.deps[k] ==> r in order || Reaches(g, r, k)
    ensures Placed(g, order + [k])
  {
    var o := order + [k];
    forall i, r | 0 <= i < |o| && o[i] in g.deps && r in g.deps[o[i]]
      ensures r in o[..i] || Reaches(g, r, o[i])
    {
      if i < |order| {
        assert o[..i] == order[..i] && o[i] == order[i];
      } else {
        assert o[..i] == order;
      }
    }
  }

  lemma {:induction false} VisitPlaces(g: Graph, visited: set<string>, order: seq<string>, k: string)
    requires g.Valid() && k in g.deps && SearchState(g, visited, order) && OpenPath(g, visited, order, k)
    ensures var (v, o) := Visit(g, visited, order, k);
      SearchState(g, v, o) && Extends(visited, order, v, o) && k in v
    decreases g.Nodes() - visited, 0
  {
    if k !in visited {
      var visited1 := visited + {k};
      forall x, d | x in visited1 && x !in order && d in g.deps[k] ensures Reaches(g, x, d) {
        ReachesEdge(g, k, d);
        if x != k {
          ReachesTransitive(g, x, k, d);
        }
      }
      VisitAllPlaces(g, visited1, order, g.deps[k]);
      var (v, o) := VisitAll(g, visited1, order, g.deps[k]);
      assert k !in o by {
        assert k !in order;
      }
      forall r | r in g.deps[k] ensures r in o || Reaches(g, r, k) {
        assert r in v;
      }
      PlaceLast(g, o, k);
      assert (o + [k])[..|order|] == o[..|order|];
      ConcatNoRepeats(o, [k]);
    }
  }

  lemma {:induction false} VisitAllPlaces(g: Graph, visited: set<string>, order: seq<string>, ks: seq<string>)
    requires g.Valid() && (forall k :: k in ks ==> k in g.deps) && SearchState(g, visited, order)
    requires forall k :: k in ks ==> OpenPath(g, visited, order, k)
    ensures var (v, o) := VisitAll(g, visited, order, ks);
      SearchState(g, v, o) && Extends(visited, order, v, o) && forall k :: k in ks ==> k in v
    decreases g.Nodes() - visited, |ks| + 1
  {
    if ks != [] {
      VisitPlaces(g, visited, order, ks[0]);
      var (v1, o1) := Visit(g, visited, order, ks[0]);
      forall k | k in ks[1..] ensures OpenPath(g, v1, o1, k) {
        assert OpenPath(g, visited, order, k);
        assert forall x :: x in order ==> x in o1[..|order|];
      }
      VisitAllPlaces(g, v1, o1, ks[1..]);
      var (v, o) := VisitAll(g, v1, o1, ks[1..]);
      assert o[..|order|] == o[..|o1|][..|order|];
      assert forall x :: x in order ==> x in o1[..|order|];
      assert forall x :: x in o1 ==> x in o[..|o1|];
    }
  }

  /**
   * The order lists every node once, and an edge is out of order only when its
   * ends lie on a common cycle.
   */
  lemma TopoOrderPlaces(g: Graph)
    requires g.Valid()
    ensures NoRepeats(TopoOrder(g)) && (forall k :: k in TopoOrder(g) <==> k in g.Nodes())
    ensures Placed(g, TopoOrder(g))
    ensures forall i, r :: 0 <= i < |TopoOrder(g)| && r in g.deps[TopoOrder(g)[i]] ==>
      r in TopoOrder(g)[..i] || (OnCycle(g, TopoOrder(g)[i]) && OnCycle(g, r))
  {
    VisitAllPlaces(g, {}, [], SortedKeys(g.Nodes()));
    var o := TopoOrder(g);
    forall i, r | 0 <= i < |o| && r in g.deps[o[i]] && r !in o[..i]
      ensures OnCycle(g, o[i]) && OnCycle(g, r)
    {
      assert Reaches(g, r, o[i]);
      EdgeOnCycle(g, o[i], r);
    }
  }

  // ---- Where a node stands that no reference binds ----

  ghost predicate FromSome(g: Graph, ks: seq<string>, x: string) { exists k :: k in ks && Reaches(g, k, x) }

  lemma FromHead(g: Graph, ks: seq<string>, x: string)
    requires ks != [] && (Reaches(g, ks[0], x) || FromSome(g, ks[1..], x))
    ensures FromSome(g, ks, x)
  {
    hide Reaches;
    if Reaches(g, ks[0], x) {
      assert ks[0] in ks;
    } else {
      var k :| k in ks[1..] && Reaches(g, k, x);
      assert k in ks;
    }
  }

  lemma FromDeps(g: Graph, k: string, x: string)
    requires k in g.deps && FromSome(g, g.deps[k], x)
    ensures Reaches(g, k, x)
  {
    hide Reaches;
    var d :| d in g.deps[k] && Reaches(g, d, x);
    ReachesEdge(g, k, d);
    ReachesTransitive(g, k, d, x);
  }

  lemma {:induction false} VisitReached(g: Graph, visited: set<string>, order: seq<string>, k: string)
    requires g.Valid() && k in g.deps && visited <= g.Nodes()
    ensures var o := Visit(g, visited, order, k).1;
      |order| <= |o| && o[..|order|] == order && forall i :: |order| <= i < |o| ==> Reaches(g, k, o[i])
    decreases g.Nodes() - visited, 0
  {
    hide Reaches, FromSome;
    if k in visited {
      assert order[..|order|] == order;
    } else {
      ReachesSelf(g, k);
      VisitAllReached(g, visited + {k}, order, g.deps[k]);
      var o := VisitAll(g, visited + {k}, order, g.deps[k]).1;
      forall i | |order| <= i < |o| ensures Reaches(g, k, o[i]) {
        FromDeps(g, k, o[i]);
      }
      assert (o + [k])[..|order|] == o[..|order|];
    }
  }

  lemma {:induction false} VisitAllReached(g: Graph, visited: set<string>, order: seq<string>, ks: seq<string>)
    requires g.Valid() && visited <= g.Nodes() && forall k :: k in ks ==> k in g.deps
    ensures var o := VisitAll(g, visited, order, ks).1;
      |order| <= |o| && o[..|order|] == order && forall i :: |order| <= i < |o| ==> FromSome(g, ks, o[i])
    decreases g.Nodes() - visited, |ks| + 1
  {
    hide Reaches, FromSome;
    if ks == [] {
      assert order[..|order|] == order;
    } else {
      VisitReached(g, visited, order, ks[0]);
      var (v, o1) := Visit(g, visited, order, ks[0]);
      VisitAllReached(g, v, o1, ks[1..]);
      var o := VisitAll(g, v, o1, ks[1..]).1;
      assert o == VisitAll(g, visited, order, ks).1;
      assert o[..|order|] == o[..|o1|][..|order|];
      forall i | |order| <= i < |o| ensures FromSome(g, ks, o[i]) {
        assert i < |o1| ==> o[i] == o[..|o1|][i] == o1[i];
        FromHead(g, ks, o[i]);
      }
    }
  }

  /** Some node no later by name than y leads to x. */
  ghost predicate PulledBy(g: Graph, x: string, y: string) { exists z :: Leq(z, y) && Reaches(g, z, x) }

  predicate Ascending(ks: seq<string>) { forall i, j :: 0 <= i < j < |ks| ==> Leq(ks[i], ks[j]) }

  lemma {:induction false} RootsInOrder(g: Graph, visited: set<string>, order: seq<string>, ks: seq<string>, i: nat, j: nat)
    requires g.Valid() && (forall k :: k in ks ==> k in g.deps) && SearchState(g, visited, order) && Ascending(ks)
    requires (forall x :: x in visited ==> x in order) && forall x :: x in g.Nodes() ==> x in visited || x in ks
    requires |order| <= i < j < |VisitAll(g, visited, order, ks).1|
    ensures var o := VisitAll(g, visited, order, ks).1; PulledBy(g, o[i], o[j])
    decreases |ks|
  {
    hide Visit, PulledBy, Reaches, Leq, Placed;
    if ks != [] {
      var k := ks[0];
      VisitPlaces(g, visited, order, k);
      VisitReached(g, visited, order, k);
      var (v, o1) := Visit(g, visited, order, k);
      assert forall x :: x in v ==> x in o1 by {
        assert forall x :: x in order ==> x in o1[..|order|];
      }
      VisitAllPlaces(g, v, o1, ks[1..]);
      var o := VisitAll(g, visited, order, ks).1;
      assert o == VisitAll(g, v, o1, ks[1..]).1;
      assert o[..|o1|] == o1;
      if i < |o1| {
        assert o[i] == o[..|o1|][i] == o1[i];
        NewIsRoot(g, visited, order, ks, o1, o, j);
        Pulled(g, k, o[i], o[j]);
      } else {
        RootsInOrder(g, v, o1, ks[1..], i, j);
      }
    }
  }

  lemma Pulled(g: Graph, z: string, x: string, y: string)
    requires Leq(z, y) && Reaches(g, z, x)
    ensures PulledBy(g, x, y)
  {
  }

  /** What is placed from now on is a root still to come, so no earlier by name than the next one. */
  lemma NewIsRoot(g: Graph, visited: set<string>, order: seq<string>, ks: seq<string>, o1: seq<string>, o: seq<string>, j: nat)
    requires ks != [] && Ascending(ks) && |order| <= j < |o| && |order| <= |o1| <= |o| && o[..|o1|] == o1 && o1[..|order|] == order
    requires NoRepeats(o) && (forall x :: x in o ==> x in g.Nodes())
    requires (forall x :: x in visited ==> x in order) && forall x :: x in g.Nodes() ==> x in visited || x in ks
    ensures Leq(ks[0], o[j])
  {
    hide Leq;
    var y := o[j];
    forall i | 0 <= i < |order| ensures order[i] != y {
      assert o[i] == o[..|o1|][i] == o1[i] == o1[..|order|][i];
    }
    assert y in o;
    var m :| 0 <= m < |ks| && ks[m] == y;
    if m == 0 {
      LeqTotal(y, y);
    }
  }

  /** Nodes come in the order of their names, except that one is pulled forward to stand before what leads to it. */
  lemma TopoOrderByName(g: Graph, i: nat, j: nat)
    requires g.Valid() && i < j < |TopoOrder(g)|
    ensures PulledBy(g, TopoOrder(g)[i], TopoOrder(g)[j])
  {
    hide PulledBy, Leq, VisitAll;
    SortedKeysAscend(g.Nodes());
    RootsInOrder(g, {}, [], SortedKeys(g.Nodes()), i, j);
  }

  // ---- The cycle search ----

  /** What the search has covered: k's dependencies, closed under `seen`. */
  ghost predicate Covered(g: Graph, k: string, seen: set<string>, stack: seq<string>)
    requires k in g.deps
  {
    && (forall d :: d in g.deps[k] ==> d in seen || d in stack)
    && (forall n, d :: n in seen && n in g.deps && d in g.deps[n] ==> d in seen || d in stack)
  }

  lemma {:induction false} ClosedReach(g: Graph, k: string, seen: set<string>, a: string, b: string, n: nat)
    requires g.Valid() && k in g.deps && seen <= g.Nodes() && Covered(g, k, seen, [])
    requires a in seen && ReachesIn(g, a, b, n)
    ensures b in seen
    decreases n
  {
    if n > 0 {
      var c :| c in g.deps[a] && ReachesIn(g, c, b, n - 1);
      ClosedReach(g, k, seen, c, b, n - 1);
    }
  }

  /** Everything on the stack or seen was reached from a dependency of k. */
  ghost predicate Found(g: Graph, k: string, n: string)
    requires k in g.deps
  {
    exists d :: d in g.deps[k] && Reaches(g, d, n)
  }

  lemma FoundNext(g: Graph, k: string, n: string)
    requires k in g.deps && n in g.deps && Found(g, k, n)
    ensures forall e :: e in g.deps[n] ==> Found(g, k, e)
  {
    var d :| d in g.deps[k] && Reaches(g, d, n);
    forall e | e in g.deps[n] ensures Found(g, k, e) {
      ReachesEdge(g, n, e);
      ReachesTransitive(g, d, n, e);
    }
  }

  lemma NotFound(g: Graph, k: string, seen: set<string>)
    requires g.Valid() && k in g.deps && seen <= g.Nodes() && k !in seen && Covered(g, k, seen, [])
    ensures !OnCycle(g, k)
  {
    if OnCycle(g, k) {
      var d :| d in g.deps[k] && Reaches(g, d, k);
      var n: nat :| ReachesIn(g, d, k, n);
      ClosedReach(g, k, seen, d, k, n);
      assert false;
    }
  }

  ghost predicate Searching(g: Graph, k: string, seen: set<string>, stack: seq<string>)
    requires k in g.deps
  {
    && seen <= g.Nodes() && k !in seen && Covered(g, k, seen, stack)
    && forall d :: d in stack ==> d in g.deps && Found(g, k, d)
  }

  lemma PopSeen(g: Graph, k: string, seen: set<string>, rest: seq<string>, n: string)
    requires k in g.deps && Searching(g, k, seen, rest + [n]) && n in seen
    ensures Searching(g, k, seen, rest)
  {
    assert forall d :: d in rest + [n] <==> d in rest || d == n;
  }

  lemma PopNew(g: Graph, k: string, seen: set<string>, rest: seq<string>, n: string)
    requires g.Valid() && k in g.deps && Searching(g, k, seen, rest + [n]) && n != k
    ensures n in g.deps && Searching(g, k, seen + {n}, rest + g.deps[n])
  {
    assert n in rest + [n];
    FoundNext(g, k, n);
    assert forall d :: d in rest + [n] <==> d in rest || d == n;
    assert forall d :: d in rest + g.deps[n] <==> d in rest || d in g.deps[n];
  }

  lemma SearchStarts(g: Graph, k: string)
    requires g.Valid() && k in g.deps
    ensures Searching(g, k, {}, g.deps[k])
  {
    forall d | d in g.deps[k] ensures Found(g, k, d) {
      ReachesSelf(g, d);
    }
  }

  lemma SearchHits(g: Graph, k: string, seen: set<string>, rest: seq<string>)
    requires k in g.deps && Searching(g, k, seen, rest + [k])
    ensures OnCycle(g, k)
  {
    assert k in rest + [k];
  }

  lemma SearchEnds(g: Graph, k: string, seen: set<string>)
    requires g.Valid() && k in g.deps && Searching(g, k, seen, [])
    ensures !OnCycle(g, k)
  {
    NotFound(g, k, seen);
  }

  method LeadsBack(g: Graph, k: string) returns (back: bool)
    requires g.Valid() && k in g.deps
    ensures back <==> OnCycle(g, k)
  {
    hide OnCycle, Searching;
    var seen: set<string> := {};
    var stack := g.deps[k];
    SearchStarts(g, k);
    while |stack| > 0
      invariant Searching(g, k, seen, stack)
      decreases g.Nodes() - seen, |stack|
    {
      var n := stack[|stack| - 1];
      assert stack == stack[..|stack| - 1] + [n];
      stack := stack[..|stack| - 1];
      if n == k {
        SearchHits(g, k, seen, stack);
        return true;
      }
      if n in seen {
        PopSeen(g, k, seen, stack, n);
        continue;
      }
      PopNew(g, k, seen, stack, n);
      seen := seen + {n};
      stack := stack + g.deps[n];
    }
    assert stack == [];
    SearchEnds(g, k, seen);
    back := false;
  }

  /** The keys on a cycle, in the given order. */
  ghost function CyclicKeys(g: Graph, keys: seq<string>): (r: seq<string>) {
    if keys == [] then []
    else if OnCycle(g, keys[|keys| - 1]) then CyclicKeys(g, keys[..|keys| - 1]) + [keys[|keys| - 1]]
    else CyclicKeys(g, keys[..|keys| - 1])
  }

  lemma {:induction false} CyclicKeysMember(g: Graph, keys: seq<string>)
    ensures forall k :: k in CyclicKeys(g, keys) <==> k in keys && OnCycle(g, k)
    ensures NoRepeats(keys) ==> NoRepeats(CyclicKeys(g, keys))
  {
    if keys != [] {
      var init, last := keys[..|keys| - 1], keys[|keys| - 1];
      CyclicKeysMember(g, init);
      assert keys == init + [last];
      ConcatNoRepeats(init, [last]);
      ConcatNoRepeats(CyclicKeys(g, init), [last]);
    }
  }

  /** A cycle needs two tables: self-references are no dependencies. */
  lemma SmallGraphAcyclic(g: Graph, k: string)
    requires g.Valid() && |g.deps| < 2
    ensures !OnCycle(g, k)
  {
    if OnCycle(g, k) {
      var d :| d in g.deps[k] && Reaches(g, d, k);
      SubsetSize({d, k}, g.deps.Keys);
      assert false;
    }
  }

  lemma CycleNode(g: Graph, k: string)
    ensures OnCycle(g, k) ==> k in g.Nodes()
  {
  }

  /** Exactly the nodes on some cycle, in ascending order. */
  method FkCycleKeys(g: Graph) returns (cyclic: seq<string>)
    requires g.Valid()
    ensures cyclic == CyclicKeys(g, SortedKeys(g.Nodes()))
    ensures NoRepeats(cyclic) && forall k :: k in cyclic <==> OnCycle(g, k)
  {
    hide OnCycle, SortedKeys, NoRepeats;
    cyclic := [];
    var keys := SortedKeys(g.Nodes());
    forall k | OnCycle(g, k) ensures k in keys {
      CycleNode(g, k);
    }
    SortedKeysDistinct(g.Nodes());
    CyclicKeysMember(g, keys);
    if |g.deps| < 2 {
      forall k ensures !OnCycle(g, k) {
        SmallGraphAcyclic(g, k);
      }
      HasMember(CyclicKeys(g, keys));
      return;
    }
    for i := 0 to |keys|
      invariant cyclic == CyclicKeys(g, keys[..i])
    {
      assert keys[..i + 1][..i] == keys[..i];
      assert keys[i] in keys;
      var back := LeadsBack(g, keys[i]);
      if back {
        cyclic := cyclic + [keys[i]];
      }
    }
    assert keys[..|keys|] == keys;
  }

  lemma {:induction false} SubsetSize<T>(a: set<T>, b: set<T>)
    requires a <= b
    ensures |a| <= |b|
  {
    if a != {} {
      var x :| x in a;
      SubsetSize(a - {x}, b - {x});
    }
  }
}
