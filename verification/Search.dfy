/// Row search with its caches (go/internal/tuidata/search.go:54-329): a cached search returns
/// what a search without a cache returns, whatever the cache was used for before.
module Search {
  import opened Text

  const MAX_CELLS := 200000

  /** The display string of every cell, column by column. */
  datatype Grid = Grid(rows: nat, cells: seq<seq<string>>) {
    ghost predicate Valid() {
      (forall c :: 0 <= c < |cells| ==> |cells[c]| == rows) && (cells == [] ==> rows == 0)
    }
  }

  /** A published frame never changes; the caches tell frames apart by identity. */
  class Frame {
    const g: Grid

    constructor (g: Grid)
      ensures this.g == g
    {
      this.g := g;
    }
  }

  type Lower = string -> string

  /** The next code point on a case-folding orbit. */
  type Fold = char -> char

  // ---- What matches ----

  predicate Contains(s: string, t: string) {
    exists i :: 0 <= i <= |s| && StandsAt(s, t, i)
  }

  predicate StandsAt(s: string, t: string, i: nat) { i + |t| <= |s| && s[i..i + |t|] == t }

  function Join(parts: seq<string>): string {
    if parts == [] then "" else if |parts| == 1 then parts[0] else Join(parts[..|parts| - 1]) + " " + parts[|parts| - 1]
  }

  function RowText(g: Grid, r: nat): string
    requires g.Valid() && r < g.rows
  {
    Join(seq(|g.cells|, c requires 0 <= c < |g.cells| => g.cells[c][r]))
  }

  /** Where part c starts when the parts stand in order with one character between. */
  function PartStart(parts: seq<string>, c: nat): nat
    requires c <= |parts|
  {
    if c == 0 then 0 else PartStart(parts, c - 1) + |parts[c - 1]| + 1
  }

  lemma {:induction false} PartStartPrefix(parts: seq<string>, n: nat, c: nat)
    requires c <= n <= |parts|
    ensures PartStart(parts[..n], c) == PartStart(parts, c)
  {
    if c > 0 {
      PartStartPrefix(parts, n, c - 1);
    }
  }

  /** Every part stands in the joined text in its place, a blank in front of all but the first, nothing behind the last. */
  lemma {:induction false} JoinHolds(parts: seq<string>, c: nat)
    requires c < |parts|
    ensures var s, i := Join(parts), PartStart(parts, c);
      && StandsAt(s, parts[c], i) && (c > 0 ==> s[i - 1] == ' ')
      && |s| == PartStart(parts, |parts|) - 1
    decreases |parts|
  {
    var n := |parts| - 1;
    PartStartPrefix(parts, n, n);
    if n > 0 {
      var init := parts[..n];
      JoinHolds(init, if c < n then c else 0);
      PartStartPrefix(parts, n, c - if c < n then 0 else 1);
      assert Join(parts) == Join(init) + " " + parts[n];
    }
  }

  /** Every cell of a row stands in the row's text, in column order, with one blank between. */
  lemma RowTextHolds(g: Grid, r: nat, c: nat)
    requires g.Valid() && r < g.rows && c < |g.cells|
    ensures var cells := seq(|g.cells|, k requires 0 <= k < |g.cells| => g.cells[k][r]);
      var s, i := RowText(g, r), PartStart(cells, c);
      && StandsAt(s, g.cells[c][r], i) && (c > 0 ==> s[i - 1] == ' ')
      && |s| == PartStart(cells, |cells|) - 1
  {
    JoinHolds(seq(|g.cells|, k requires 0 <= k < |g.cells| => g.cells[k][r]), c);
  }

  function BeforeNul(s: string): string {
    if s == "" || s[0] == '\0' then "" else [s[0]] + BeforeNul(s[1..])
  }

  /** Of a line the search reads what stands before its first NUL. */
  lemma {:induction false} BeforeNulIs(s: string)
    ensures var t := BeforeNul(s); t <= s && '\0' !in t && (|t| < |s| ==> s[|t|] == '\0')
  {
    if s != "" && s[0] != '\0' {
      BeforeNulIs(s[1..]);
      assert s == [s[0]] + s[1..];
    }
  }

  /** A code point with everything its folds lead to before coming back, up to 64 steps. */
  function Orbit(fold: Fold, p: char): set<char> { {p} + From(fold, p, fold(p), 0) }

  function From(fold: Fold, p: char, cur: char, n: nat): set<char>
    decreases 64 - n
  {
    if n >= 64 || cur == p then {} else {cur} + From(fold, p, fold(cur), n + 1)
  }

  /** The pattern occurs in order, not necessarily together, each character folded. */
  ghost predicate Subsequence(fold: Fold, pat: string, s: string) {
    exists at: seq<nat> :: Embeds(fold, pat, s, at)
  }

  predicate Embeds(fold: Fold, pat: string, s: string, at: seq<nat>) {
    && |at| == |pat|
    && (forall k :: 0 <= k < |at| ==> at[k] < |s| && s[at[k]] in Orbit(fold, pat[k]))
    && (forall j, k :: 0 <= j < k < |at| ==> at[j] < at[k])
  }

  ghost predicate ExactHit(g: Grid, needle: string, r: nat)
    requires g.Valid() && r < g.rows
  {
    exists c :: 0 <= c < |g.cells| && Contains(g.cells[c][r], needle)
  }

  ghost predicate FoldedHit(lower: Lower, g: Grid, cols: seq<nat>, needle: string, r: nat)
    requires g.Valid() && r < g.rows
  {
    exists i :: 0 <= i < |cols| && cols[i] < |g.cells| && Contains(lower(g.cells[cols[i]][r]), lower(needle))
  }

  ghost predicate FuzzyHit(fold: Fold, g: Grid, needle: string, r: nat)
    requires g.Valid() && r < g.rows
  {
    Subsequence(fold, needle, BeforeNul(RowText(g, r)))
  }

  ghost function ExactHits(g: Grid, needle: string): set<nat>
    requires g.Valid()
  {
    set r: nat | r < g.rows && ExactHit(g, needle, r)
  }

  ghost function FoldedHits(lower: Lower, g: Grid, cols: seq<nat>, needle: string): set<nat>
    requires g.Valid()
  {
    set r: nat | r < g.rows && FoldedHit(lower, g, cols, needle, r)
  }

  ghost function FuzzyHits(fold: Fold, g: Grid, needle: string): set<nat>
    requires g.Valid()
  {
    set r: nat | r < g.rows && FuzzyHit(fold, g, needle, r)
  }

  /** The hits among the first n rows, in order. */
  ghost function Rows(hits: set<nat>, n: nat): seq<nat> {
    if n == 0 then [] else Rows(hits, n - 1) + if n - 1 in hits then [n - 1] else []
  }

  lemma {:induction false} RowsAreHits(hits: set<nat>, n: nat)
    ensures var rs := Rows(hits, n);
      && (forall r: nat :: r in rs <==> r < n && r in hits)
      && (forall i, j :: 0 <= i < j < |rs| ==> rs[i] < rs[j])
  {
    if n > 0 {
      RowsAreHits(hits, n - 1);
      var before := Rows(hits, n - 1);
      assert forall i :: 0 <= i < |before| ==> before[i] in before;
    }
  }

  /** The empty needle is in every row. */
  lemma EmptyExact(g: Grid, r: nat)
    requires g.Valid() && r < g.rows
    ensures ExactHit(g, "", r)
  {
    assert StandsAt(g.cells[0][r], "", 0);
    assert Contains(g.cells[0][r], "");
  }

  lemma EmptyFuzzy(fold: Fold, g: Grid, r: nat)
    requires g.Valid() && r < g.rows
    ensures FuzzyHit(fold, g, "", r)
  {
    assert Embeds(fold, "", BeforeNul(RowText(g, r)), []);
  }

  // ---- Matching a pattern greedily ----

  function Greedy(fold: Fold, pat: string, s: string): bool {
    if pat == "" then true else if s == "" then false
    else if s[0] in Orbit(fold, pat[0]) then Greedy(fold, pat[1..], s[1..]) else Greedy(fold, pat, s[1..])
  }

  function Up(at: seq<nat>): seq<nat> { seq(|at|, k requires 0 <= k < |at| => at[k] + 1) }

  lemma EmbedsLater(fold: Fold, pat: string, s: string, at: seq<nat>)
    requires s != "" && Embeds(fold, pat, s[1..], at)
    ensures Embeds(fold, pat, s, Up(at))
    ensures forall c :: s[0] in Orbit(fold, c) ==> Embeds(fold, [c] + pat, s, [0] + Up(at))
  {
  }

  function Down(at: seq<nat>): seq<nat>
    requires forall k :: 0 <= k < |at| ==> at[k] > 0
  {
    seq(|at|, k requires 0 <= k < |at| => at[k] - 1)
  }

  /** An embedding can always take the first character that fits. */
  lemma EmbedsFirst(fold: Fold, pat: string, s: string, at: seq<nat>)
    requires s != "" && pat != "" && Embeds(fold, pat, s, at)
    ensures s[0] in Orbit(fold, pat[0]) ==> Embeds(fold, pat[1..], s[1..], Down(at[1..]))
    ensures s[0] !in Orbit(fold, pat[0]) ==> at[0] > 0 && Embeds(fold, pat, s[1..], Down(at))
  {
    hide Orbit;
    assert forall k :: 0 < k < |at| ==> at[0] < at[k];
  }

  /** The greedy scan finds a pattern exactly when it is a subsequence. */
  lemma {:induction false} GreedyIsSubsequence(fold: Fold, pat: string, s: string)
    ensures Greedy(fold, pat, s) <==> Subsequence(fold, pat, s)
  {
    if pat == "" {
      assert Embeds(fold, pat, s, []);
    } else if s == "" {
      assert forall at :: Embeds(fold, pat, s, at) ==> |at| > 0 && at[0] < |s|;
    } else {
      var here := s[0] in Orbit(fold, pat[0]);
      var p := if here then pat[1..] else pat;
      GreedyIsSubsequence(fold, p, s[1..]);
      if Greedy(fold, p, s[1..]) {
        var at :| Embeds(fold, p, s[1..], at);
        EmbedsLater(fold, p, s, at);
        assert [pat[0]] + pat[1..] == pat;
      }
      if Subsequence(fold, pat, s) {
        var at :| Embeds(fold, pat, s, at);
        EmbedsFirst(fold, pat, s, at);
      }
    }
  }

  function Iterate(fold: Fold, p: char, n: nat): char { if n == 0 then p else fold(Iterate(fold, p, n - 1)) }

  lemma {:induction false} IterateJoin(fold: Fold, p: char, k: nat, i: nat)
    ensures Iterate(fold, p, k + i) == Iterate(fold, Iterate(fold, p, k), i)
  {
    if i > 0 {
      IterateJoin(fold, p, k, i - 1);
    }
  }

  lemma {:induction false} FromHas(fold: Fold, p: char, n: nat, i: nat)
    requires n < i <= 64 && forall j :: 0 < j <= i ==> Iterate(fold, p, j) != p
    ensures Iterate(fold, p, i) in From(fold, p, Iterate(fold, p, n + 1), n)
    decreases i - n
  {
    assert Iterate(fold, p, n + 1) != p;
    if n + 1 < i {
      FromHas(fold, p, n + 1, i);
    }
  }

  /** When folding comes back to p within 65 steps, the orbit holds everything folding reaches from p. */
  lemma {:induction false} OrbitIsWhole(fold: Fold, p: char, k: nat, i: nat)
    requires 1 <= k <= 65 && Iterate(fold, p, k) == p
    ensures Iterate(fold, p, i) in Orbit(fold, p)
    decreases k, i
  {
    if i >= k {
      IterateJoin(fold, p, k, i - k);
      OrbitIsWhole(fold, p, k, i - k);
    } else if j :| 0 < j < k && Iterate(fold, p, j) == p {
      OrbitIsWhole(fold, p, j, i);
    } else if i > 0 {
      FromHas(fold, p, 0, i);
      assert Iterate(fold, p, 1) == fold(Iterate(fold, p, 0)) == fold(p);
    }
  }

  // ---- Searching, with and without a cache ----

  method BuildOrbit(fold: Fold, p: char) returns (m: set<char>)
    ensures m == Orbit(fold, p)
  {
    m := {p};
    var cur := fold(p);
    var n := 0;
    while n < 64 && cur != p
      invariant 0 <= n <= 64 && Orbit(fold, p) == m + From(fold, p, cur, n)
      decreases 64 - n
    {
      m := m + {cur};
      cur := fold(cur);
      n := n + 1;
    }
  }

  /** The indices of the lines holding the pattern as a folded subsequence before their first NUL. */
  method FuzzyMatchIndices(fold: Fold, needle: string, hay: seq<string>) returns (out: seq<nat>)
    ensures needle == "" ==> out == []
    ensures needle != "" ==> forall i: nat :: i in out <==> i < |hay| && Subsequence(fold, needle, BeforeNul(hay[i]))
    ensures forall i, j :: 0 <= i < j < |out| ==> out[i] < out[j]
  {
    out := [];
    if |needle| == 0 {
      return;
    }
    var orbits: seq<set<char>> := [];
    for k := 0 to |needle|
      invariant |orbits| == k && forall j :: 0 <= j < k ==> orbits[j] == Orbit(fold, needle[j])
    {
      var m := BuildOrbit(fold, needle[k]);
      orbits := orbits + [m];
    }
    for i := 0 to |hay|
      invariant forall k: nat :: k in out <==> k < i && Subsequence(fold, needle, BeforeNul(hay[k]))
      invariant forall j, k :: 0 <= j < k < |out| ==> out[j] < out[k]
    {
      GreedyIsSubsequence(fold, needle, BeforeNul(hay[i]));
      var found := Scan(fold, needle, orbits, BeforeNul(hay[i]));
      if found {
        assert forall j :: 0 <= j < |out| ==> out[j] in out;
        out := out + [i];
      }
    }
  }

  method Scan(fold: Fold, pat: string, orbits: seq<set<char>>, s: string) returns (found: bool)
    requires pat != "" && |orbits| == |pat| && forall j :: 0 <= j < |pat| ==> orbits[j] == Orbit(fold, pat[j])
    ensures found == Greedy(fold, pat, s)
  {
    var at := 0;
    for k := 0 to |s|
      invariant 0 <= at < |pat| && Greedy(fold, pat, s) == Greedy(fold, pat[at..], s[k..])
    {
      assert s[k..][1..] == s[k + 1..] && pat[at..][1..] == pat[at + 1..];
      if s[k] in orbits[at] {
        at := at + 1;
        if at == |pat| {
          return true;
        }
      }
    }
    assert s[|s|..] == "" && pat[at..] != "";
    return false;
  }

  lemma {:induction false} SortedUnique(a: seq<nat>, b: seq<nat>)
    requires forall i, j :: 0 <= i < j < |a| ==> a[i] < a[j]
    requires forall i, j :: 0 <= i < j < |b| ==> b[i] < b[j]
    requires forall r :: r in a <==> r in b
    ensures a == b
  {
    if a != [] && b != [] {
      var x, y := a[|a| - 1], b[|b| - 1];
      assert x in b && y in a && x == y;
      var c, d := a[..|a| - 1], b[..|b| - 1];
      forall r ensures r in c <==> r in d {
        assert r in c ==> r in a && r < x;
        assert r in d ==> r in b && r < y;
      }
      SortedUnique(c, d);
      assert a == c + [x] && b == d + [y];
    } else {
      HasMember(a);
      HasMember(b);
    }
  }

  lemma HasMember(s: seq<nat>)
    ensures s == [] || exists r: nat :: r in s
  {
    if s != [] {
      assert s[0] in s;
    }
  }

  // ---- The caches ----

  /** Every searched cell folded to lower case, keyed by frame and column list. */
  class FoldCache {
    var f: Frame?
    var rows: nat
    var ncols: nat
    var cols: seq<nat>
    var vals: Option<seq<seq<string>>>
    var builds: nat

    constructor ()
      ensures f == null && vals == None
    {
      f, rows, ncols, cols, vals, builds := null, 0, 0, [], None, 0;
    }

    ghost predicate Valid(lower: Lower)
      reads this
    {
      vals.Some? ==> f != null && f.g.Valid() && rows == f.g.rows && ncols == |f.g.cells| && vals.value == Lowered(lower, f.g, cols)
    }

    method Lookup(lower: Lower, g: Frame, want: seq<nat>) returns (r: Option<seq<seq<string>>>)
      requires Valid(lower) && g.g.Valid()
      modifies this
      ensures Valid(lower) && (r.Some? ==> r.value == Lowered(lower, g.g, want))
    {
      if vals == None {
        return None;
      }
      if f != g || rows != g.g.rows || ncols != |g.g.cells| || cols != want {
        f, rows, ncols, cols, vals := null, 0, 0, [], None;
        return None;
      }
      return vals;
    }

    method Build(lower: Lower, g: Frame, want: seq<nat>) returns (r: Option<seq<seq<string>>>)
      requires g.g.Valid()
      modifies this
      ensures Valid(lower) && r == Some(Lowered(lower, g.g, want)) && builds == old(builds) + 1
    {
      var out: seq<seq<string>> := [];
      for i := 0 to |want|
        invariant |out| == i && forall k :: 0 <= k < i ==> out[k] == Lowered(lower, g.g, want)[k]
      {
        var v: seq<string> := [];
        if want[i] < |g.g.cells| {
          for r := 0 to g.g.rows
            invariant |v| == r && forall k :: 0 <= k < r ==> v[k] == lower(g.g.cells[want[i]][k])
          {
            v := v + [lower(g.g.cells[want[i]][r])];
          }
        }
        assert v == Lowered(lower, g.g, want)[i];
        out := out + [v];
      }
      assert out == Lowered(lower, g.g, want);
      f, rows, ncols, cols, vals, builds := g, g.g.rows, |g.g.cells|, want, Some(out), builds + 1;
      return vals;
    }
  }

  ghost function Lowered(lower: Lower, g: Grid, cols: seq<nat>): seq<seq<string>>
    requires g.Valid()
  {
    seq(|cols|, i requires 0 <= i < |cols| => if cols[i] < |g.cells| then LoweredColumn(lower, g.cells[cols[i]]) else [])
  }

  function LoweredColumn(lower: Lower, cells: seq<string>): seq<string> {
    seq(|cells|, r requires 0 <= r < |cells| => lower(cells[r]))
  }

  /** Case-insensitive search in some columns. */
  method SearchExactColsFold(lower: Lower, f: Frame, cols: seq<nat>, needle: string, cache: FoldCache?) returns (out: seq<nat>)
    requires f.g.Valid() && (cache != null ==> cache.Valid(lower))
    modifies cache
    ensures out == Rows(FoldedHits(lower, f.g, cols, needle), f.g.rows)
    ensures cache != null ==> cache.Valid(lower)
  {
    var low := lower(needle);
    var vals: Option<seq<seq<string>>> := None;
    if cache != null {
      vals := cache.Lookup(lower, f, cols);
      if vals == None && f.g.rows * |cols| <= MAX_CELLS {
        vals := cache.Build(lower, f, cols);
      }
    }
    out := [];
    for r := 0 to f.g.rows
      invariant out == Rows(FoldedHits(lower, f.g, cols, needle), r)
    {
      var i := 0;
      while i < |cols|
        invariant 0 <= i <= |cols|
        invariant out == Rows(FoldedHits(lower, f.g, cols, needle), r)
        invariant forall k :: 0 <= k < i ==> !(cols[k] < |f.g.cells| && Contains(lower(f.g.cells[cols[k]][r]), low))
      {
        if cols[i] < |f.g.cells| {
          var cell := if vals.Some? then vals.value[i][r] else lower(f.g.cells[cols[i]][r]);
          if Contains(cell, low) {
            out := out + [r];
            break;
          }
        }
        i := i + 1;
      }
    }
  }

  class CellCache {
    var f: Frame?
    var rows: nat
    var ncols: nat
    var vals: Option<seq<seq<string>>>
    var builds: nat

    constructor ()
      ensures f == null && vals == None
    {
      f, rows, ncols, vals, builds := null, 0, 0, None, 0;
    }

    ghost predicate Valid()
      reads this
    {
      vals.Some? ==> f != null && rows == f.g.rows && ncols == |f.g.cells| && vals.value == f.g.cells
    }

    method Lookup(g: Frame) returns (r: Option<seq<seq<string>>>)
      requires Valid()
      modifies this
      ensures Valid() && (r.Some? ==> r.value == g.g.cells)
    {
      if vals == None {
        return None;
      }
      if f != g || rows != g.g.rows || ncols != |g.g.cells| {
        f, rows, ncols, vals := null, 0, 0, None;
        return None;
      }
      return vals;
    }

    method Build(g: Frame) returns (r: Option<seq<seq<string>>>)
      requires g.g.Valid()
      modifies this
      ensures Valid() && r == Some(g.g.cells) && builds == old(builds) + 1
    {
      var out: seq<seq<string>> := [];
      for c := 0 to |g.g.cells|
        invariant out == g.g.cells[..c]
      {
        var v: seq<string> := [];
        for r := 0 to g.g.rows
          invariant v == g.g.cells[c][..r]
        {
          v := v + [g.g.cells[c][r]];
        }
        assert v == g.g.cells[c] && g.g.cells[..c + 1] == g.g.cells[..c] + [g.g.cells[c]];
        out := out + [v];
      }
      f, rows, ncols, vals, builds := g, g.g.rows, |g.g.cells|, Some(out), builds + 1;
      return vals;
    }
  }

  /** Case-sensitive search in every column. */
  method SearchExactCached(f: Frame, needle: string, cache: CellCache?) returns (out: seq<nat>)
    requires f.g.Valid() && (cache != null ==> cache.Valid())
    modifies cache
    ensures out == Rows(ExactHits(f.g, needle), f.g.rows)
    ensures cache != null ==> cache.Valid()
  {
    hide RowText, Subsequence, Contains, BeforeNul;
    out := [];
    if needle == "" {
      for r := 0 to f.g.rows
        invariant out == Rows(ExactHits(f.g, needle), r)
        modifies {}
      {
        EmptyExact(f.g, r);
        out := out + [r];
      }
      return;
    }
    var vals: Option<seq<seq<string>>> := None;
    if cache != null {
      vals := cache.Lookup(f);
      if vals == None && f.g.rows * |f.g.cells| <= MAX_CELLS {
        vals := cache.Build(f);
      }
    }
    for r := 0 to f.g.rows
      invariant out == Rows(ExactHits(f.g, needle), r)
    {
      var c := 0;
      while c < |f.g.cells|
        invariant 0 <= c <= |f.g.cells|
        invariant out == Rows(ExactHits(f.g, needle), r)
        invariant forall k :: 0 <= k < c ==> !Contains(f.g.cells[k][r], needle)
      {
        var cell := if vals.Some? then vals.value[c][r] else f.g.cells[c][r];
        if Contains(cell, needle) {
          out := out + [r];
          break;
        }
        c := c + 1;
      }
    }
  }

  method JoinFrameRows(f: Frame) returns (hay: seq<string>)
    requires f.g.Valid()
    ensures |hay| == f.g.rows && forall r :: 0 <= r < f.g.rows ==> hay[r] == RowText(f.g, r)
  {
    hay := [];
    for r := 0 to f.g.rows
      invariant |hay| == r && forall k :: 0 <= k < r ==> hay[k] == RowText(f.g, k)
    {
      var parts: seq<string> := [];
      for c := 0 to |f.g.cells|
        invariant |parts| == c && forall k :: 0 <= k < c ==> parts[k] == f.g.cells[k][r]
      {
        parts := parts + [f.g.cells[c][r]];
      }
      assert parts == seq(|f.g.cells|, c requires 0 <= c < |f.g.cells| => f.g.cells[c][r]);
      hay := hay + [Join(parts)];
    }
  }

  class FuzzyCache {
    var f: Frame?
    var rows: nat
    var ncols: nat
    var hay: Option<seq<string>>
    var builds: nat

    constructor ()
      ensures f == null && hay == None
    {
      f, rows, ncols, hay, builds := null, 0, 0, None, 0;
    }

    ghost predicate Valid()
      reads this
    {
      hay.Some? ==> f != null && f.g.Valid() && rows == f.g.rows && ncols == |f.g.cells| && AreTexts(f.g, hay.value)
    }

    method Lookup(g: Frame) returns (r: Option<seq<string>>)
      requires Valid() && g.g.Valid()
      modifies this
      ensures Valid() && (r.Some? ==> AreTexts(g.g, r.value))
    {
      if hay == None {
        return None;
      }
      if f != g || rows != g.g.rows || ncols != |g.g.cells| {
        f, rows, ncols, hay := null, 0, 0, None;
        return None;
      }
      return hay;
    }

    method Build(g: Frame) returns (r: seq<string>)
      requires g.g.Valid()
      modifies this
      ensures Valid() && AreTexts(g.g, r) && builds == old(builds) + 1
    {
      r := JoinFrameRows(g);
      f, rows, ncols, hay, builds := g, g.g.rows, |g.g.cells|, Some(r), builds + 1;
    }
  }

  ghost predicate AreTexts(g: Grid, hay: seq<string>)
    requires g.Valid()
  {
    |hay| == g.rows && forall r :: 0 <= r < g.rows ==> hay[r] == RowText(g, r)
  }

  /** Fuzzy search over the joined text of each row. */
  method SearchFuzzyFold(fold: Fold, f: Frame, needle: string, cache: FuzzyCache?) returns (out: seq<nat>)
    requires f.g.Valid() && (cache != null ==> cache.Valid())
    modifies cache
    ensures out == Rows(FuzzyHits(fold, f.g, needle), f.g.rows)
    ensures cache != null ==> cache.Valid()
  {
    hide RowText, Subsequence, Contains, BeforeNul;
    out := [];
    if needle == "" {
      for i := 0 to f.g.rows
        invariant out == Rows(FuzzyHits(fold, f.g, needle), i)
        modifies {}
      {
        EmptyFuzzy(fold, f.g, i);
        out := out + [i];
      }
      return;
    }
    var hay: Option<seq<string>> := None;
    if cache != null {
      hay := cache.Lookup(f);
    }
    var lines: seq<string>;
    if hay.Some? {
      lines := hay.value;
    } else if cache != null && f.g.rows * |f.g.cells| <= MAX_CELLS {
      lines := cache.Build(f);
    } else {
      lines := JoinFrameRows(f);
    }
    out := FuzzyMatchIndices(fold, needle, lines);
    RowsAreHits(FuzzyHits(fold, f.g, needle), f.g.rows);
    SortedUnique(out, Rows(FuzzyHits(fold, f.g, needle), f.g.rows));
  }
}
