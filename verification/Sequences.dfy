/// Sequence building blocks of the plan generator: stable sorting, first-wins
/// indexing by key, and the two-sided comparison every diff level runs.
module Sequences {
  import opened Text

  function Map<T, U>(f: T -> U, s: seq<T>): (r: seq<U>)
    ensures |r| == |s| && forall i :: 0 <= i < |s| ==> r[i] == f(s[i])
  {
    seq(|s|, i requires 0 <= i < |s| => f(s[i]))
  }

  function FlatMap<T>(keys: seq<string>, f: string -> seq<T>): seq<T> {
    if keys == [] then [] else FlatMap(keys[..|keys| - 1], f) + f(keys[|keys| - 1])
  }

  function Filter<T>(s: seq<T>, p: T -> bool): seq<T> {
    if s == [] then []
    else if p(s[|s| - 1]) then Filter(s[..|s| - 1], p) + [s[|s| - 1]]
    else Filter(s[..|s| - 1], p)
  }

  predicate NoRepeats<T(==)>(s: seq<T>) {
    forall i, j :: 0 <= i < j < |s| ==> s[i] != s[j]
  }

  // ---- Multisets of sequences ----

  lemma {:induction false} MultisetCount<T>(s: seq<T>)
    ensures NoRepeats(s) <==> forall x :: multiset(s)[x] <= 1
  {
    if s != [] {
      var init, last := s[..|s| - 1], s[|s| - 1];
      assert s == init + [last];
      MultisetCount(init);
      assert last in init <==> multiset(init)[last] > 0;
      assert forall x :: multiset(s)[x] == multiset(init)[x] + if x == last then 1 else 0;
      ConcatNoRepeats(init, [last]);
    }
  }

  lemma ConcatNoRepeats<T>(a: seq<T>, b: seq<T>)
    ensures NoRepeats(a + b) <==> NoRepeats(a) && NoRepeats(b) && forall x :: x in a ==> x !in b
  {
    var s := a + b;
    assert forall i :: 0 <= i < |a| ==> s[i] == a[i];
    assert forall j :: 0 <= j < |b| ==> s[|a| + j] == b[j];
    if NoRepeats(s) {
      forall i, j | 0 <= i < j < |b| ensures b[i] != b[j] {
        assert s[|a| + i] != s[|a| + j];
      }
      forall i, j | 0 <= i < |a| && 0 <= j < |b| ensures a[i] != b[j] {
        assert s[i] != s[|a| + j];
      }
    } else {
      var i, j :| 0 <= i < j < |s| && s[i] == s[j];
      assert i < |a| <= j ==> a[i] in a && a[i] == b[j - |a|];
    }
  }

  lemma PermutedNoRepeats<T>(s: seq<T>, t: seq<T>)
    requires multiset(s) == multiset(t) && NoRepeats(s)
    ensures NoRepeats(t)
  {
    MultisetCount(s);
    MultisetCount(t);
  }

  lemma MapConcat<T, U>(f: T -> U, a: seq<T>, b: seq<T>)
    ensures Map(f, a + b) == Map(f, a) + Map(f, b)
  {
  }

  function Without<T>(s: seq<T>, i: nat): seq<T>
    requires i < |s|
  {
    s[..i] + s[i + 1..]
  }

  lemma WithoutMultiset<T>(s: seq<T>, i: nat)
    requires i < |s|
    ensures multiset(s) == multiset(Without(s, i)) + multiset{s[i]}
    ensures multiset(Without(s, i)) == multiset(s) - multiset{s[i]}
  {
    assert s == s[..i] + [s[i]] + s[i + 1..];
  }

  lemma MapWithout<T, U>(f: T -> U, s: seq<T>, i: nat)
    requires i < |s|
    ensures multiset(Map(f, s)) == multiset(Map(f, Without(s, i))) + multiset{f(s[i])}
  {
    WithoutMultiset(Map(f, s), i);
    assert Without(Map(f, s), i) == Map(f, Without(s, i));
  }

  lemma {:induction false} MapPermuted<T, U>(f: T -> U, a: seq<T>, b: seq<T>)
    requires multiset(a) == multiset(b)
    ensures multiset(Map(f, a)) == multiset(Map(f, b))
    decreases |a|
  {
    if a == [] {
      assert |multiset(b)| == 0;
      assert b == [];
    } else {
      assert a[0] in multiset(b);
      var i :| 0 <= i < |b| && b[i] == a[0];
      WithoutMultiset(a, 0);
      WithoutMultiset(b, i);
      MapPermuted(f, Without(a, 0), Without(b, i));
      MapWithout(f, a, 0);
      MapWithout(f, b, i);
    }
  }

  // ---- Stable insertion sort: sort.SliceStable and sort.Strings ----

  function InsertBy<T>(leq: (T, T) -> bool, x: T, s: seq<T>): (r: seq<T>)
    ensures multiset(r) == multiset(s) + multiset{x}
  {
    if s == [] then [x]
    else if leq(x, s[0]) then [x] + s
    else
      assert s == [s[0]] + s[1..];
      [s[0]] + InsertBy(leq, x, s[1..])
  }

  /** Equal elements keep their order: x goes before the first element it may precede. */
  function SortBy<T>(leq: (T, T) -> bool, s: seq<T>): (r: seq<T>)
    ensures multiset(r) == multiset(s) && |r| == |s|
  {
    if s == [] then [] else
    assert s == [s[0]] + s[1..];
    var r := InsertBy(leq, s[0], SortBy(leq, s[1..]));
    assert |multiset(r)| == |r| && |multiset(s)| == |s|;
    r
  }

  ghost predicate IsOrder<T(!new)>(leq: (T, T) -> bool) {
    && (forall x, y :: leq(x, y) || leq(y, x))
    && (forall x, y, z :: leq(x, y) && leq(y, z) ==> leq(x, z))
  }

  ghost predicate Sorted<T(!new)>(leq: (T, T) -> bool, s: seq<T>) {
    forall i, j :: 0 <= i < j < |s| ==> leq(s[i], s[j])
  }

  lemma {:induction false} InsertSorted<T(!new)>(leq: (T, T) -> bool, x: T, s: seq<T>)
    requires IsOrder(leq) && Sorted(leq, s)
    ensures Sorted(leq, InsertBy(leq, x, s))
  {
    if s != [] && !leq(x, s[0]) {
      InsertSorted(leq, x, s[1..]);
      var rest := InsertBy(leq, x, s[1..]);
      forall j | 0 <= j < |rest| ensures leq(s[0], rest[j]) {
        assert rest[j] in multiset(rest);
        assert rest[j] in multiset(s[1..]) || rest[j] == x;
      }
    }
  }

  lemma {:induction false} SortSorted<T(!new)>(leq: (T, T) -> bool, s: seq<T>)
    requires IsOrder(leq)
    ensures Sorted(leq, SortBy(leq, s))
  {
    if s != [] {
      SortSorted(leq, s[1..]);
      InsertSorted(leq, s[0], SortBy(leq, s[1..]));
    }
  }

  lemma FilterCons<T>(x: T, s: seq<T>, p: T -> bool)
    ensures Filter([x] + s, p) == (if p(x) then [x] else []) + Filter(s, p)
  {
    hide Filter;
    FilterConcat([x], s, p);
    FilterOne(x, p);
  }

  lemma {:induction false} InsertStable<T>(leq: (T, T) -> bool, x: T, s: seq<T>, p: T -> bool)
    requires forall y :: y in s && p(x) && p(y) ==> leq(x, y)
    ensures Filter(InsertBy(leq, x, s), p) == (if p(x) then [x] else []) + Filter(s, p)
  {
    hide Filter;
    if s == [] {
      assert [x] == [x] + s;
      FilterCons(x, s, p);
    } else if leq(x, s[0]) {
      FilterCons(x, s, p);
    } else {
      var y, rest := s[0], s[1..];
      assert s == [y] + rest && y in s;
      InsertStable(leq, x, rest, p);
      FilterCons(y, InsertBy(leq, x, rest), p);
      FilterCons(y, rest, p);
    }
  }

  /** The sort is stable: elements none of which has to go before another keep their order. */
  lemma {:induction false} SortStable<T>(leq: (T, T) -> bool, s: seq<T>, p: T -> bool)
    requires forall x, y :: x in s && y in s && p(x) && p(y) ==> leq(x, y)
    ensures Filter(SortBy(leq, s), p) == Filter(s, p)
  {
    hide Filter, InsertBy;
    if s != [] {
      var x, rest := s[0], s[1..];
      assert s == [x] + rest;
      SortStable(leq, rest, p);
      forall y | y in SortBy(leq, rest) && p(x) && p(y) ensures leq(x, y) {
        assert y in multiset(SortBy(leq, rest));
        assert y in multiset(rest);
        assert x in s && y in s;
      }
      InsertStable(leq, x, SortBy(leq, rest), p);
      FilterCons(x, rest, p);
    }
  }

  /** Two orders that agree on the elements sort them alike. */
  lemma {:induction false} SortAgrees<T>(a: (T, T) -> bool, b: (T, T) -> bool, s: seq<T>)
    requires forall i, j :: 0 <= i < j < |s| ==> a(s[i], s[j]) == b(s[i], s[j])
    ensures SortBy(a, s) == SortBy(b, s)
  {
    if s != [] {
      SortAgrees(a, b, s[1..]);
      forall y | y in SortBy(a, s[1..]) ensures a(s[0], y) == b(s[0], y) {
        assert y in multiset(SortBy(a, s[1..]));
        assert y in multiset(s[1..]);
      }
      InsertAgrees(a, b, s[0], SortBy(a, s[1..]));
    }
  }

  lemma {:induction false} InsertAgrees<T>(a: (T, T) -> bool, b: (T, T) -> bool, x: T, s: seq<T>)
    requires forall y :: y in s ==> a(x, y) == b(x, y)
    ensures InsertBy(a, x, s) == InsertBy(b, x, s)
  {
    if s != [] {
      InsertAgrees(a, b, x, s[1..]);
    }
  }

  lemma SortMembers<T>(leq: (T, T) -> bool, s: seq<T>)
    ensures forall x :: x in SortBy(leq, s) <==> x in s
  {
    forall x ensures x in SortBy(leq, s) <==> x in s {
      assert x in SortBy(leq, s) <==> x in multiset(SortBy(leq, s));
    }
  }

  // ---- First-wins indexing ----

  /** The first kept item under each key: how the program indexes a snapshot. */
  function FirstWins<T>(items: seq<T>, key: T -> string, keep: T -> bool): map<string, T> {
    if items == [] then map[] else
    var m := FirstWins(items[..|items| - 1], key, keep);
    var x := items[|items| - 1];
    if !keep(x) || key(x) in m then m else m[key(x) := x]
  }

  ghost predicate DistinctKeys<T(!new)>(items: seq<T>, key: T -> string, keep: T -> bool) {
    forall i, j :: 0 <= i < j < |items| && keep(items[i]) && keep(items[j]) ==> key(items[i]) != key(items[j])
  }

  lemma {:induction false} FirstWinsKeys<T(!new)>(items: seq<T>, key: T -> string, keep: T -> bool)
    ensures var m := FirstWins(items, key, keep);
      && (forall k :: k in m ==> m[k] in items && keep(m[k]) && key(m[k]) == k)
      && (forall x :: x in items && keep(x) ==> key(x) in m)
  {
    if items != [] {
      var init, x := items[..|items| - 1], items[|items| - 1];
      FirstWinsKeys(init, key, keep);
      assert forall y :: y in items <==> y in init || y == x;
    }
  }

  lemma FirstWinsFinds<T(!new)>(items: seq<T>, key: T -> string, keep: T -> bool, x: T)
    requires DistinctKeys(items, key, keep) && x in items && keep(x)
    ensures key(x) in FirstWins(items, key, keep) && FirstWins(items, key, keep)[key(x)] == x
  {
    FirstWinsKeys(items, key, keep);
    var y := FirstWins(items, key, keep)[key(x)];
    var i :| 0 <= i < |items| && items[i] == x;
    var j :| 0 <= j < |items| && items[j] == y;
    assert !(i < j) && !(j < i);
  }

  // ---- The two-sided comparison ----

  /**
   * What diffing two keyed collections emits: per target key the common or the
   * added entries, then per source-only key the dropped ones, keys ascending.
   */
  function Pairing<T>(src: set<string>, tgt: set<string>,
                      both: string -> seq<T>, add: string -> seq<T>, drop: string -> seq<T>): seq<T>
  {
    FlatMap(SortedKeys(tgt), TargetPart(src, both, add)) + FlatMap(SortedKeys(src), SourcePart(tgt, drop))
  }

  function TargetPart<T>(src: set<string>, both: string -> seq<T>, add: string -> seq<T>): string -> seq<T> {
    k => if k in src then both(k) else add(k)
  }

  function SourcePart<T>(tgt: set<string>, drop: string -> seq<T>): string -> seq<T> {
    k => if k in tgt then [] else drop(k)
  }

  lemma {:induction false} FlatMapMember<T>(keys: seq<string>, f: string -> seq<T>, x: T)
    ensures x in FlatMap(keys, f) <==> exists k :: k in keys && x in f(k)
  {
    if keys != [] {
      var init, last := keys[..|keys| - 1], keys[|keys| - 1];
      FlatMapMember(init, f, x);
      assert forall k :: k in keys <==> k in init || k == last;
    }
  }

  /** The entries the comparison emits on behalf of one key. */
  function Piece<T>(src: set<string>, tgt: set<string>,
                    both: string -> seq<T>, add: string -> seq<T>, drop: string -> seq<T>, k: string): seq<T>
  {
    if k in tgt then (if k in src then both(k) else add(k)) else if k in src then drop(k) else []
  }

  lemma PairingMember<T>(src: set<string>, tgt: set<string>,
                         both: string -> seq<T>, add: string -> seq<T>, drop: string -> seq<T>, x: T)
    ensures x in Pairing(src, tgt, both, add, drop) <==> exists k :: x in Piece(src, tgt, both, add, drop, k)
  {
    hide FlatMap, SortedKeys, TargetPart, SourcePart, Piece;
    var f, g := TargetPart(src, both, add), SourcePart(tgt, drop);
    FlatMapMember(SortedKeys(tgt), f, x);
    FlatMapMember(SortedKeys(src), g, x);
    forall k ensures x in Piece(src, tgt, both, add, drop, k) <==> (k in tgt && x in f(k)) || (k in src && x in g(k)) {
      PieceParts(src, tgt, both, add, drop, k);
    }
  }

  lemma PieceParts<T>(src: set<string>, tgt: set<string>,
                      both: string -> seq<T>, add: string -> seq<T>, drop: string -> seq<T>, k: string)
    ensures var p := Piece(src, tgt, both, add, drop, k);
      && (k in tgt ==> TargetPart(src, both, add)(k) == p && SourcePart(tgt, drop)(k) == [])
      && (k !in tgt && k in src ==> SourcePart(tgt, drop)(k) == p)
      && (k !in tgt && k !in src ==> p == [])
  {
  }

  lemma SortedKeysDistinct(keys: set<string>)
    ensures NoRepeats(SortedKeys(keys))
  {
    hide SortedKeys;
    SortedKeysAscend(keys);
  }

  /** An entry that only the piece under k can hold. */
  lemma PairingAt<T>(src: set<string>, tgt: set<string>,
                     both: string -> seq<T>, add: string -> seq<T>, drop: string -> seq<T>, x: T, k: string)
    requires forall l :: x in Piece(src, tgt, both, add, drop, l) ==> l == k
    ensures x in Pairing(src, tgt, both, add, drop) <==> x in Piece(src, tgt, both, add, drop, k)
  {
    hide Pairing, Piece;
    PairingMember(src, tgt, both, add, drop, x);
  }

  // ---- Sums of multisets over key sets ----

  ghost function Sum<T>(keys: set<string>, f: string -> seq<T>): multiset<T> {
    if keys == {} then multiset{} else
    var k := LeastKey(keys);
    multiset(f(k)) + Sum(keys - {k}, f)
  }

  lemma {:induction false} SumRemove<T>(keys: set<string>, f: string -> seq<T>, k: string)
    requires k in keys
    ensures Sum(keys, f) == multiset(f(k)) + Sum(keys - {k}, f)
  {
    var l := LeastKey(keys);
    if k != l {
      SumRemove(keys - {l}, f, k);
      SumRemove(keys - {k}, f, l);
      assert keys - {l} - {k} == keys - {k} - {l};
    }
  }

  lemma {:induction false} SumSplit<T>(a: set<string>, b: set<string>, f: string -> seq<T>)
    requires a !! b
    ensures Sum(a + b, f) == Sum(a, f) + Sum(b, f)
  {
    if a == {} {
      assert a + b == b;
    } else {
      var k := LeastKey(a);
      SumSplit(a - {k}, b, f);
      SumRemove(a + b, f, k);
      assert a + b - {k} == (a - {k}) + b;
    }
  }

  lemma {:induction false} SumAgrees<T>(keys: set<string>, f: string -> seq<T>, g: string -> seq<T>)
    requires forall k :: k in keys ==> multiset(f(k)) == multiset(g(k))
    ensures Sum(keys, f) == Sum(keys, g)
  {
    if keys != {} {
      SumAgrees(keys - {LeastKey(keys)}, f, g);
    }
  }

  lemma {:induction false} FlatMapSum<T>(keys: set<string>, order: seq<string>, f: string -> seq<T>)
    requires NoRepeats(order) && forall k :: k in order <==> k in keys
    ensures multiset(FlatMap(order, f)) == Sum(keys, f)
  {
    if order == [] {
      assert keys == {};
    } else {
      var last := order[|order| - 1];
      FlatMapSum(keys - {last}, order[..|order| - 1], f);
      SumRemove(keys, f, last);
    }
  }

  lemma PairingSum<T>(src: set<string>, tgt: set<string>,
                      both: string -> seq<T>, add: string -> seq<T>, drop: string -> seq<T>)
    ensures multiset(Pairing(src, tgt, both, add, drop))
         == Sum(src * tgt, both) + Sum(tgt - src, add) + Sum(src - tgt, drop)
  {
    var f, g := TargetPart(src, both, add), SourcePart(tgt, drop);
    TargetSum(src, tgt, both, add);
    SourceSum(src, tgt, drop);
    var a, b := FlatMap(SortedKeys(tgt), f), FlatMap(SortedKeys(src), g);
    assert multiset(a + b) == multiset(a) + multiset(b);
  }

  lemma TargetSum<T>(src: set<string>, tgt: set<string>, both: string -> seq<T>, add: string -> seq<T>)
    ensures multiset(FlatMap(SortedKeys(tgt), TargetPart(src, both, add)))
         == Sum(src * tgt, both) + Sum(tgt - src, add)
  {
    var f := TargetPart(src, both, add);
    SortedKeysDistinct(tgt);
    FlatMapSum(tgt, SortedKeys(tgt), f);
    SumSplit(src * tgt, tgt - src, f);
    assert src * tgt + (tgt - src) == tgt;
    SumAgrees(src * tgt, f, both);
    SumAgrees(tgt - src, f, add);
  }

  lemma SourceSum<T>(src: set<string>, tgt: set<string>, drop: string -> seq<T>)
    ensures multiset(FlatMap(SortedKeys(src), SourcePart(tgt, drop))) == Sum(src - tgt, drop)
  {
    var g := SourcePart(tgt, drop);
    SortedKeysDistinct(src);
    FlatMapSum(src, SortedKeys(src), g);
    SumSplit(src * tgt, src - tgt, g);
    assert src * tgt + (src - tgt) == src;
    SumAgrees(src - tgt, g, drop);
    SumEmpty(src * tgt, g);
  }

  lemma {:induction false} SumEmpty<T>(keys: set<string>, f: string -> seq<T>)
    requires forall k :: k in keys ==> f(k) == []
    ensures Sum(keys, f) == multiset{}
  {
    if keys != {} {
      SumEmpty(keys - {LeastKey(keys)}, f);
    }
  }

  // ---- Membership and distinctness of a pairing ----

  lemma PairingNoRepeats<T(!new)>(src: set<string>, tgt: set<string>, both: string -> seq<T>,
                                  add: string -> seq<T>, drop: string -> seq<T>, piece: string -> seq<T>)
    requires forall k :: piece(k) == Piece(src, tgt, both, add, drop, k)
    requires forall k :: NoRepeats(piece(k))
    requires forall k, l, x :: k != l && x in piece(k) ==> x !in piece(l)
    ensures NoRepeats(Pairing(src, tgt, both, add, drop))
  {
    hide FlatMap, SortedKeys, TargetPart, SourcePart, Piece, NoRepeats;
    var f, g := TargetPart(src, both, add), SourcePart(tgt, drop);
    SortedKeysDistinct(src);
    SortedKeysDistinct(tgt);
    forall k ensures (k in tgt ==> f(k) == piece(k) && g(k) == []) && (k !in tgt && k in src ==> g(k) == piece(k)) {
      PieceParts(src, tgt, both, add, drop, k);
    }
    FlatMapNoRepeats(SortedKeys(tgt), f, piece);
    FlatMapNoRepeats(SortedKeys(src), g, piece);
    forall x | x in FlatMap(SortedKeys(tgt), f) ensures x !in FlatMap(SortedKeys(src), g) {
      FlatMapMember(SortedKeys(tgt), f, x);
      FlatMapMember(SortedKeys(src), g, x);
      var k :| k in SortedKeys(tgt) && x in f(k);
      assert forall l :: l in SortedKeys(src) && l !in tgt ==> l != k;
    }
    ConcatNoRepeats(FlatMap(SortedKeys(tgt), f), FlatMap(SortedKeys(src), g));
  }

  lemma {:induction false} FlatMapNoRepeats<T(!new)>(keys: seq<string>, f: string -> seq<T>, piece: string -> seq<T>)
    requires NoRepeats(keys)
    requires forall k :: k in keys ==> f(k) == [] || f(k) == piece(k)
    requires forall k :: NoRepeats(piece(k))
    requires forall k, l, x :: k != l && x in piece(k) ==> x !in piece(l)
    ensures NoRepeats(FlatMap(keys, f))
  {
    if keys != [] {
      var init, last := keys[..|keys| - 1], keys[|keys| - 1];
      FlatMapNoRepeats(init, f, piece);
      forall x | x in FlatMap(init, f) ensures x !in f(last) {
        FlatMapMember(init, f, x);
        var k :| k in init && x in f(k);
        assert x in piece(k) && k != last;
      }
      ConcatNoRepeats(FlatMap(init, f), f(last));
    }
  }

  /** Under a label that tells the pieces and their elements apart, no two entries of a pairing share a label. */
  lemma PairingDistinct<T(!new), U(!new)>(f: T -> U, src: set<string>, tgt: set<string>,
                                    both: string -> seq<T>, add: string -> seq<T>, drop: string -> seq<T>)
    requires forall k :: NoRepeats(Map(f, Piece(src, tgt, both, add, drop, k)))
    requires forall k, l, x, y :: k != l && x in Piece(src, tgt, both, add, drop, k) && y in Piece(src, tgt, both, add, drop, l)
               ==> f(x) != f(y)
    ensures NoRepeats(Map(f, Pairing(src, tgt, both, add, drop)))
  {
    hide Pairing, NoRepeats;
    MapPairing(f, src, tgt, both, add, drop);
    var own := (k: string) => Piece(src, tgt, both, add, drop, k);
    var piece := Mapped(f, own);
    forall k ensures piece(k) == Piece(src, tgt, Mapped(f, both), Mapped(f, add), Mapped(f, drop), k) {}
    forall k, l, u | k != l && u in piece(k) ensures u !in piece(l) {
      var i :| 0 <= i < |own(k)| && f(own(k)[i]) == u;
      forall j | 0 <= j < |own(l)| ensures f(own(l)[j]) != u {
        assert own(k)[i] in own(k) && own(l)[j] in own(l);
      }
    }
    PairingNoRepeats(src, tgt, Mapped(f, both), Mapped(f, add), Mapped(f, drop), piece);
  }

  // ---- Filtering ----

  lemma {:induction false} FilterMember<T(!new)>(s: seq<T>, p: T -> bool)
    ensures forall x :: x in Filter(s, p) <==> x in s && p(x)
  {
    if s != [] {
      FilterMember(s[..|s| - 1], p);
      assert forall x :: x in s <==> x in s[..|s| - 1] || x == s[|s| - 1];
    }
  }

  lemma {:induction false} FilterConcat<T>(a: seq<T>, b: seq<T>, p: T -> bool)
    ensures Filter(a + b, p) == Filter(a, p) + Filter(b, p)
  {
    if b == [] {
      assert a + b == a;
    } else {
      assert (a + b)[..|a + b| - 1] == a + b[..|b| - 1];
      FilterConcat(a, b[..|b| - 1], p);
    }
  }

  lemma {:induction false} FilterKeepsAll<T>(s: seq<T>, p: T -> bool)
    requires forall i :: 0 <= i < |s| ==> p(s[i])
    ensures Filter(s, p) == s
  {
    if s != [] {
      FilterKeepsAll(s[..|s| - 1], p);
      assert s == s[..|s| - 1] + [s[|s| - 1]];
    }
  }

  lemma FilterOne<T>(x: T, p: T -> bool)
    ensures Filter([x], p) == if p(x) then [x] else []
  {
    assert Filter([x][..0], p) == [];
  }

  lemma {:induction false} FilterNone<T>(s: seq<T>, p: T -> bool)
    requires forall i :: 0 <= i < |s| ==> !p(s[i])
    ensures Filter(s, p) == []
  {
    if s != [] {
      FilterNone(s[..|s| - 1], p);
    }
  }

  lemma {:induction false} FilterMultiset<T>(s: seq<T>, p: T -> bool, x: T)
    ensures multiset(Filter(s, p))[x] == if p(x) then multiset(s)[x] else 0
  {
    if s != [] {
      FilterMultiset(s[..|s| - 1], p, x);
      assert s == s[..|s| - 1] + [s[|s| - 1]];
    }
  }

  lemma FilterPermuted<T(!new)>(a: seq<T>, b: seq<T>, p: T -> bool)
    requires multiset(a) == multiset(b)
    ensures multiset(Filter(a, p)) == multiset(Filter(b, p))
  {
    forall x ensures multiset(Filter(a, p))[x] == multiset(Filter(b, p))[x] {
      FilterMultiset(a, p, x);
      FilterMultiset(b, p, x);
    }
  }

  lemma SameMembers<T(!new)>(a: seq<T>, b: seq<T>)
    requires NoRepeats(a) && NoRepeats(b) && forall x :: x in a <==> x in b
    ensures multiset(a) == multiset(b)
  {
    MultisetCount(a);
    MultisetCount(b);
    forall x ensures multiset(a)[x] == multiset(b)[x] {
      assert x in a <==> multiset(a)[x] > 0;
      assert x in b <==> multiset(b)[x] > 0;
    }
  }

  lemma MapMember<T(!new), U>(f: T -> U, s: seq<T>, y: U)
    ensures y in Map(f, s) <==> exists x :: x in s && f(x) == y
  {
    var r := Map(f, s);
    if y in r {
      var i :| 0 <= i < |r| && r[i] == y;
      assert s[i] in s && f(s[i]) == y;
    }
    if x :| x in s && f(x) == y {
      var i :| 0 <= i < |s| && s[i] == x;
      assert r[i] == y;
    }
  }

  lemma HasMember<T(!new)>(s: seq<T>)
    ensures s == [] || exists x :: x in s
  {
    if s != [] {
      assert s[0] in s;
    }
  }

  /** The keys of the kept elements. */
  function KeptKeys<T>(s: seq<T>, key: T -> string, p: T -> bool): seq<string> {
    Map(key, Filter(s, p))
  }

  lemma KeptKeysConcat<T>(a: seq<T>, b: seq<T>, key: T -> string, p: T -> bool)
    ensures KeptKeys(a + b, key, p) == KeptKeys(a, key, p) + KeptKeys(b, key, p)
  {
    FilterConcat(a, b, p);
    MapConcat(key, Filter(a, p), Filter(b, p));
  }

  lemma {:induction false} KeptKeysDistinct<T>(keys: seq<string>, f: string -> seq<T>, key: T -> string, p: T -> bool)
    requires NoRepeats(keys)
    requires forall k :: k in keys ==> KeptKeys(f(k), key, p) == [] || KeptKeys(f(k), key, p) == [k]
    ensures NoRepeats(KeptKeys(FlatMap(keys, f), key, p))
    ensures forall k :: k in KeptKeys(FlatMap(keys, f), key, p) ==> k in keys
  {
    if keys != [] {
      var init, last := keys[..|keys| - 1], keys[|keys| - 1];
      KeptKeysDistinct(init, f, key, p);
      var before := KeptKeys(FlatMap(init, f), key, p);
      KeptKeysConcat(FlatMap(init, f), f(last), key, p);
      ConcatNoRepeats(before, KeptKeys(f(last), key, p));
    }
  }

  lemma {:induction false} FilterNoRepeats<T(!new)>(s: seq<T>, key: T -> string, p: T -> bool)
    requires NoRepeats(Map(key, s))
    ensures NoRepeats(KeptKeys(s, key, p))
    ensures forall k :: k in KeptKeys(s, key, p) ==> k in Map(key, s)
  {
    if s != [] {
      var init, x := s[..|s| - 1], s[|s| - 1];
      assert s == init + [x];
      MapConcat(key, init, [x]);
      ConcatNoRepeats(Map(key, init), [key(x)]);
      assert Map(key, [x]) == [key(x)];
      FilterNoRepeats(init, key, p);
      KeptKeysConcat(init, [x], key, p);
      FilterOne(x, p);
      ConcatNoRepeats(KeptKeys(init, key, p), KeptKeys([x], key, p));
    }
  }

  /** Filtering and sorting distinct items keeps them distinct and keeps exactly the chosen ones. */
  lemma SortedFilter<T(!new)>(leq: (T, T) -> bool, s: seq<T>, key: T -> string, p: T -> bool)
    requires forall i, j :: 0 <= i < j < |s| ==> key(s[i]) != key(s[j])
    ensures var r := SortBy(leq, Filter(s, p));
      && (forall i, j :: 0 <= i < j < |r| ==> key(r[i]) != key(r[j]))
      && (forall x :: x in r <==> x in s && p(x))
  {
    hide SortBy, Filter;
    var kept := Filter(s, p);
    var r := SortBy(leq, kept);
    FilterMember(s, p);
    SortMembers(leq, kept);
    FilterNoRepeats(s, key, p);
    MapPermuted(key, kept, r);
    PermutedNoRepeats(Map(key, kept), Map(key, r));
    assert forall i :: 0 <= i < |r| ==> Map(key, r)[i] == key(r[i]);
  }

  /** Every entry of a pairing has what every entry of its parts has. */
  lemma PairingAll<T(!new)>(src: set<string>, tgt: set<string>, both: string -> seq<T>,
                            add: string -> seq<T>, drop: string -> seq<T>, p: T -> bool)
    requires forall k, x :: x in both(k) ==> p(x)
    requires forall k, x :: x in add(k) ==> p(x)
    requires forall k, x :: x in drop(k) ==> p(x)
    ensures forall x :: x in Pairing(src, tgt, both, add, drop) ==> p(x)
  {
    hide Pairing;
    forall x | x in Pairing(src, tgt, both, add, drop) ensures p(x) {
      PairingMember(src, tgt, both, add, drop, x);
      var k :| x in Piece(src, tgt, both, add, drop, k);
    }
  }

  // ---- Replacing the elements of one kind, in place ----

  /** Elements satisfying p give way, in order, to the substitutes. */
  function Substitute<T>(s: seq<T>, subs: seq<T>, p: T -> bool): seq<T> {
    if s == [] then []
    else if p(s[0]) && subs != [] then [subs[0]] + Substitute(s[1..], subs[1..], p)
    else [s[0]] + Substitute(s[1..], subs, p)
  }

  lemma {:induction false} SubstituteKeeps<T(!new)>(s: seq<T>, subs: seq<T>, p: T -> bool)
    requires |subs| == |Filter(s, p)| && forall x :: x in subs ==> p(x)
    ensures var r := Substitute(s, subs, p);
      && |r| == |s| && (forall i :: 0 <= i < |s| ==> r[i] == s[i] || (p(r[i]) && p(s[i])))
      && Filter(r, p) == subs
  {
    hide Filter;
    if s == [] {
      FilterNone(s, p);
    } else {
      var e, rest := s[0], s[1..];
      assert s == [e] + rest;
      FilterConcat([e], rest, p);
      FilterOne(e, p);
      if p(e) {
        SubstituteKeeps(rest, subs[1..], p);
        FilterConcat([subs[0]], Substitute(rest, subs[1..], p), p);
        FilterOne(subs[0], p);
      } else {
        SubstituteKeeps(rest, subs, p);
        FilterConcat([e], Substitute(rest, subs, p), p);
      }
    }
  }

  /** Counting the elements of the other kind: none is lost. */
  lemma {:induction false} SubstituteOthers<T(!new)>(s: seq<T>, subs: seq<T>, p: T -> bool, x: T)
    requires |subs| == |Filter(s, p)| && (forall y :: y in subs ==> p(y)) && !p(x)
    ensures multiset(Substitute(s, subs, p))[x] == multiset(s)[x]
  {
    hide Filter;
    if s != [] {
      var e, rest := s[0], s[1..];
      assert s == [e] + rest;
      FilterConcat([e], rest, p);
      FilterOne(e, p);
      SubstituteOthers(rest, if p(e) then subs[1..] else subs, p, x);
    }
  }

  /** Substituting a permutation of the replaced elements is a permutation. */
  lemma SubstitutePermutes<T(!new)>(s: seq<T>, subs: seq<T>, p: T -> bool)
    requires multiset(subs) == multiset(Filter(s, p)) && forall x :: x in subs ==> p(x)
    ensures multiset(Substitute(s, subs, p)) == multiset(s)
  {
    var r := Substitute(s, subs, p);
    assert |multiset(subs)| == |subs| && |multiset(Filter(s, p))| == |Filter(s, p)|;
    SubstituteKeeps(s, subs, p);
    forall x ensures multiset(r)[x] == multiset(s)[x] {
      FilterMultiset(r, p, x);
      FilterMultiset(s, p, x);
      if !p(x) {
        SubstituteOthers(s, subs, p, x);
      }
    }
  }

  // ---- Comparing in the other direction ----

  function Mapped<T, U>(f: T -> U, g: string -> seq<T>): string -> seq<U> {
    k => Map(f, g(k))
  }

  lemma {:induction false} MapFlatMap<T, U>(f: T -> U, keys: seq<string>, g: string -> seq<T>)
    ensures Map(f, FlatMap(keys, g)) == FlatMap(keys, Mapped(f, g))
  {
    if keys != [] {
      var init, last := keys[..|keys| - 1], keys[|keys| - 1];
      MapFlatMap(f, init, g);
      MapConcat(f, FlatMap(init, g), g(last));
    }
  }

  lemma {:induction false} FlatMapAgrees<T>(keys: seq<string>, f: string -> seq<T>, g: string -> seq<T>)
    requires forall k :: k in keys ==> f(k) == g(k)
    ensures FlatMap(keys, f) == FlatMap(keys, g)
  {
    if keys != [] {
      FlatMapAgrees(keys[..|keys| - 1], f, g);
    }
  }

  lemma MapParts<T, U>(f: T -> U, src: set<string>, tgt: set<string>,
                       both: string -> seq<T>, add: string -> seq<T>, drop: string -> seq<T>, k: string)
    ensures Mapped(f, TargetPart(src, both, add))(k) == TargetPart(src, Mapped(f, both), Mapped(f, add))(k)
    ensures Mapped(f, SourcePart(tgt, drop))(k) == SourcePart(tgt, Mapped(f, drop))(k)
  {
  }

  lemma MapPairing<T, U>(f: T -> U, src: set<string>, tgt: set<string>,
                         both: string -> seq<T>, add: string -> seq<T>, drop: string -> seq<T>)
    ensures Map(f, Pairing(src, tgt, both, add, drop))
         == Pairing(src, tgt, Mapped(f, both), Mapped(f, add), Mapped(f, drop))
  {
    hide FlatMap, SortedKeys, Map, TargetPart, SourcePart, Mapped;
    var a, b := TargetPart(src, both, add), SourcePart(tgt, drop);
    var a', b' := TargetPart(src, Mapped(f, both), Mapped(f, add)), SourcePart(tgt, Mapped(f, drop));
    MapConcat(f, FlatMap(SortedKeys(tgt), a), FlatMap(SortedKeys(src), b));
    MapFlatMap(f, SortedKeys(tgt), a);
    MapFlatMap(f, SortedKeys(src), b);
    forall k ensures Mapped(f, a)(k) == a'(k) && Mapped(f, b)(k) == b'(k) { MapParts(f, src, tgt, both, add, drop, k); }
    FlatMapAgrees(SortedKeys(tgt), Mapped(f, a), a');
    FlatMapAgrees(SortedKeys(src), Mapped(f, b), b');
  }

  /** Comparing the other way round yields the mirrored entries, key by key. */
  lemma MirrorPairing<T, U>(src: set<string>, tgt: set<string>, f: T -> U, g: T -> U,
                            both: string -> seq<T>, add: string -> seq<T>, drop: string -> seq<T>,
                            both': string -> seq<T>, add': string -> seq<T>, drop': string -> seq<T>)
    requires forall k :: k in src * tgt ==> multiset(Map(f, both(k))) == multiset(Map(g, both'(k)))
    requires forall k :: k in tgt - src ==> Map(f, add(k)) == Map(g, drop'(k))
    requires forall k :: k in src - tgt ==> Map(f, drop(k)) == Map(g, add'(k))
    ensures multiset(Map(f, Pairing(src, tgt, both, add, drop)))
         == multiset(Map(g, Pairing(tgt, src, both', add', drop')))
  {
    hide Pairing, Sum, Map;
    MapPairing(f, src, tgt, both, add, drop);
    MapPairing(g, tgt, src, both', add', drop');
    PairingSum(src, tgt, Mapped(f, both), Mapped(f, add), Mapped(f, drop));
    PairingSum(tgt, src, Mapped(g, both'), Mapped(g, add'), Mapped(g, drop'));
    assert src * tgt == tgt * src;
    SumAgrees(src * tgt, Mapped(f, both), Mapped(g, both'));
    SumAgrees(tgt - src, Mapped(f, add), Mapped(g, drop'));
    SumAgrees(src - tgt, Mapped(f, drop), Mapped(g, add'));
  }

  /** Filtering keeps the order: earlier survivors stand earlier. */
  lemma {:induction false} FilterBefore<T>(s: seq<T>, p: T -> bool, a: nat, b: nat) returns (i: nat, j: nat)
    requires a < b < |Filter(s, p)|
    ensures i < j < |s| && s[i] == Filter(s, p)[a] && s[j] == Filter(s, p)[b]
  {
    var init := s[..|s| - 1];
    if b < |Filter(init, p)| {
      i, j := FilterBefore(init, p, a, b);
    } else {
      j := |s| - 1;
      i := FilterAt(init, p, a);
    }
  }

  lemma {:induction false} FilterAt<T>(s: seq<T>, p: T -> bool, a: nat) returns (i: nat)
    requires a < |Filter(s, p)|
    ensures i < |s| && s[i] == Filter(s, p)[a] && p(s[i])
  {
    var init := s[..|s| - 1];
    if a < |Filter(init, p)| {
      i := FilterAt(init, p, a);
    } else {
      i := |s| - 1;
    }
  }
}
