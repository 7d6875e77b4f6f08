/// Column layout of the result grid (go/internal/tui/tableview.go:1126-1230):
/// shrinking widths to a budget, and scrolling a column into view.
module Layout {

  function Sum(s: seq<int>): int {
    if s == [] then 0 else Sum(s[..|s| - 1]) + s[|s| - 1]
  }

  function Min(a: int, b: int): int { if a < b then a else b }

  function Max(a: int, b: int): int { if a < b then b else a }

  function Clamp(v: int, lo: int, hi: int): int {
    if hi < lo then lo else if v < lo then lo else if v > hi then hi else v
  }

  // ---- fitWidths ----

  /** The widths capped at a level. */
  function Capped(nats: seq<int>, level: int): (r: seq<int>)
    ensures |r| == |nats|
  {
    seq(|nats|, i requires 0 <= i < |nats| => Min(nats[i], level))
  }

  function SumCap(nats: seq<int>, level: int): int { Sum(Capped(nats, level)) }

  /** How many columns the level cuts. */
  function Over(nats: seq<int>, level: int): nat {
    if nats == [] then 0 else Over(nats[..|nats| - 1], level) + if nats[|nats| - 1] > level then 1 else 0
  }

  lemma CappedInit(nats: seq<int>, level: int)
    requires nats != []
    ensures Capped(nats, level)[..|nats| - 1] == Capped(nats[..|nats| - 1], level)
    ensures SumCap(nats, level) == SumCap(nats[..|nats| - 1], level) + Min(nats[|nats| - 1], level)
  {
  }

  /** One level more gives each cut column one cell more. */
  lemma {:induction false} NextLevel(nats: seq<int>, level: int)
    ensures SumCap(nats, level + 1) == SumCap(nats, level) + Over(nats, level)
  {
    if nats != [] {
      NextLevel(nats[..|nats| - 1], level);
      CappedInit(nats, level);
      CappedInit(nats, level + 1);
    }
  }

  lemma {:induction false} CapOne(nats: seq<int>)
    requires forall i :: 0 <= i < |nats| ==> nats[i] >= 1
    ensures SumCap(nats, 1) == |nats|
  {
    if nats != [] {
      CapOne(nats[..|nats| - 1]);
      CappedInit(nats, 1);
    }
  }

  lemma CapAll(nats: seq<int>, level: int)
    requires forall i :: 0 <= i < |nats| ==> nats[i] <= level
    ensures SumCap(nats, level) == Sum(nats)
  {
    assert Capped(nats, level) == nats;
  }

  /** Cut columns take the level, the first `extra` of them one cell more. */
  function Spread(nats: seq<int>, level: int, extra: int): (r: seq<int>)
    ensures |r| == |nats|
  {
    if nats == [] then [] else
    var init, w := nats[..|nats| - 1], nats[|nats| - 1];
    Spread(init, level, extra) + [if w <= level then w else if Over(init, level) < extra then level + 1 else level]
  }

  lemma {:induction false} SpreadSum(nats: seq<int>, level: int, extra: nat)
    ensures Sum(Spread(nats, level, extra)) == SumCap(nats, level) + Min(extra, Over(nats, level))
  {
    if nats != [] {
      var init := nats[..|nats| - 1];
      SpreadSum(init, level, extra);
      CappedInit(nats, level);
      var r := Spread(nats, level, extra);
      assert r[..|r| - 1] == Spread(init, level, extra);
    }
  }

  lemma {:induction false} SpreadEach(nats: seq<int>, level: int, extra: int, i: nat)
    requires i < |nats|
    ensures var w := Spread(nats, level, extra)[i];
      if nats[i] <= level then w == nats[i] else w == level || w == level + 1
  {
    if i < |nats| - 1 {
      SpreadEach(nats[..|nats| - 1], level, extra, i);
    }
  }

  /** What a fitting layout is: the whole budget used, no column gone or widened, and the cuts even. */
  ghost predicate Fitting(nats: seq<int>, avail: int, out: seq<int>) {
    && |out| == |nats| && Sum(out) == avail
    && (forall i :: 0 <= i < |out| ==> 1 <= out[i] <= nats[i])
    && (forall i, j :: 0 <= i < |out| && 0 <= j < |out| && out[i] < nats[i] ==> out[j] <= out[i] + 1)
  }

  lemma SpreadFits(nats: seq<int>, avail: int, level: int)
    requires forall i :: 0 <= i < |nats| ==> nats[i] >= 1
    requires level >= 1 && SumCap(nats, level) <= avail < SumCap(nats, level + 1)
    ensures Fitting(nats, avail, Spread(nats, level, avail - SumCap(nats, level)))
  {
    var extra := avail - SumCap(nats, level);
    NextLevel(nats, level);
    SpreadSum(nats, level, extra);
    var out := Spread(nats, level, extra);
    forall i | 0 <= i < |out| ensures if nats[i] <= level then out[i] == nats[i] else out[i] == level || out[i] == level + 1 {
      SpreadEach(nats, level, extra, i);
    }
  }

  /** Higher levels never sum to less. */
  lemma {:induction false} CapMonotone(nats: seq<int>, a: int, b: int)
    requires a <= b
    ensures SumCap(nats, a) <= SumCap(nats, b)
  {
    if nats != [] {
      CapMonotone(nats[..|nats| - 1], a, b);
      CappedInit(nats, a);
      CappedInit(nats, b);
    }
  }

  method CapSum(nats: seq<int>, level: int) returns (s: int)
    ensures s == SumCap(nats, level)
  {
    s := 0;
    for i := 0 to |nats|
      invariant s == SumCap(nats[..i], level)
    {
      assert nats[..i + 1][..i] == nats[..i];
      CappedInit(nats[..i + 1], level);
      s := s + Min(nats[i], level);
    }
    assert nats[..|nats|] == nats;
  }

  /** The largest level whose capped widths fit, by binary search. */
  method FindLevel(nats: seq<int>, avail: int, maxW: int) returns (level: int)
    requires maxW >= 1 && SumCap(nats, 1) <= avail < SumCap(nats, maxW + 1)
    ensures level >= 1 && SumCap(nats, level) <= avail < SumCap(nats, level + 1)
    ensures forall l :: l > level ==> SumCap(nats, l) > avail
  {
    hide SumCap;
    var lo, hi := 1, maxW;
    while lo < hi
      invariant 1 <= lo <= hi && SumCap(nats, lo) <= avail < SumCap(nats, hi + 1)
      decreases hi - lo
    {
      var mid := (lo + hi + 1) / 2;
      var s := CapSum(nats, mid);
      if s <= avail {
        lo := mid;
      } else {
        hi := mid - 1;
      }
    }
    level := lo;
    forall l | l > level ensures SumCap(nats, l) > avail {
      CapMonotone(nats, level + 1, l);
    }
  }

  /** Shrinks the widest columns first, never below one cell; leaves widths that fit alone. */
  method FitWidths(nats: seq<int>, avail: int) returns (out: array<int>)
    requires forall i :: 0 <= i < |nats| ==> nats[i] >= 1
    ensures fresh(out) && out.Length == |nats|
    ensures Sum(nats) <= avail ==> out[..] == nats
    ensures Sum(nats) > avail && avail < |nats| ==> forall i :: 0 <= i < |nats| ==> out[i] == 1
    ensures Sum(nats) > avail && avail >= |nats| ==> Fitting(nats, avail, out[..])
  {
    hide SumCap, Over, Spread;
    out := new int[|nats|](i requires 0 <= i < |nats| => nats[i]);
    var total, maxW := 0, 0;
    for i := 0 to |nats|
      invariant total == Sum(nats[..i]) && forall j :: 0 <= j < i ==> nats[j] <= maxW
      invariant i > 0 ==> maxW >= 1
      invariant out[..] == nats
    {
      assert nats[..i + 1][..i] == nats[..i];
      total := total + nats[i];
      if nats[i] > maxW {
        maxW := nats[i];
      }
    }
    assert nats[..|nats|] == nats;
    if total <= avail || |nats| == 0 {
      return;
    }
    if avail < |nats| {
      for i := 0 to |nats|
        invariant forall j :: 0 <= j < i ==> out[j] == 1
      {
        out[i] := 1;
      }
      return;
    }
    CapOne(nats);
    CapAll(nats, maxW + 1);
    var level := FindLevel(nats, avail, maxW);
    var capped := CapSum(nats, level);
    SpreadFits(nats, avail, level);
    Trim(out, nats, level, avail - capped);
  }

  lemma SpreadNext(nats: seq<int>, i: nat, level: int, extra: int)
    requires i < |nats|
    ensures var w, over := nats[i], Over(nats[..i], level);
      && Spread(nats[..i + 1], level, extra) == Spread(nats[..i], level, extra) + [if w <= level then w else if over < extra then level + 1 else level]
      && Over(nats[..i + 1], level) == over + if w > level then 1 else 0
  {
    assert nats[..i + 1][..i] == nats[..i];
  }

  /** The last loop: cut columns to the level, handing out the spare cells from the left. */
  method Trim(out: array<int>, nats: seq<int>, level: int, spare: int)
    requires out[..] == nats && spare >= 0
    modifies out
    ensures out[..] == Spread(nats, level, spare)
  {
    var extra := spare;
    assert out.Length == |nats|;
    for i := 0 to |nats|
      invariant (forall j :: i <= j < |nats| ==> out[j] == nats[j])
      invariant out[..i] == Spread(nats[..i], level, spare)
      invariant extra == if Over(nats[..i], level) < spare then spare - Over(nats[..i], level) else 0
    {
      SpreadNext(nats, i, level, spare);
      ghost var before := out[..i];
      if out[i] > level {
        out[i] := level;
        if extra > 0 {
          out[i] := out[i] + 1;
          extra := extra - 1;
        }
      }
      assert out[..i] == before && out[..i + 1] == before + [out[i]];
    }
    assert nats[..|nats|] == nats && out[..|nats|] == out[..];
  }

  /** Whether compact fitting would shrink a column too far. */
  method AutoExpand(nats: seq<int>, fitted: seq<int>) returns (expand: bool)
    requires |nats| == |fitted|
    ensures expand <==> exists i :: 0 <= i < |nats| && (fitted[i] * 10 < nats[i] * 6 || (nats[i] > 8 && fitted[i] < 5))
  {
    for i := 0 to |nats|
      invariant forall j :: 0 <= j < i ==> !(fitted[j] * 10 < nats[j] * 6 || (nats[j] > 8 && fitted[j] < 5))
    {
      if fitted[i] * 10 < nats[i] * 6 {
        return true;
      }
      if nats[i] > 8 && fitted[i] < 5 {
        return true;
      }
    }
    return false;
  }

  // ---- The scroll window ----

  /** Cells taken by columns a..b with one separator between neighbours. */
  function Span(nats: seq<int>, a: nat, b: nat): int
    requires a <= b <= |nats|
  {
    if a == b then 0 else Sum(nats[a..b]) + (b - a - 1)
  }

  lemma SumSnoc(s: seq<int>, x: int)
    ensures Sum(s + [x]) == Sum(s) + x
  {
    assert (s + [x])[..|s|] == s;
  }

  lemma SpanNext(nats: seq<int>, a: nat, b: nat)
    requires a <= b < |nats|
    ensures Span(nats, a, b + 1) == Span(nats, a, b) + nats[b] + (if a < b then 1 else 0)
  {
    assert nats[a..b + 1] == nats[a..b] + [nats[b]];
    SumSnoc(nats[a..b], nats[b]);
  }

  /** How many columns from off on are shown: as many as fit, and at least one. */
  function Shown(nats: seq<int>, off: nat, avail: int, n: nat): (r: nat)
    requires off < |nats| && 1 <= n && off + n <= |nats|
    ensures n <= r && off + r <= |nats|
    decreases |nats| - off - n
  {
    if off + n == |nats| || Span(nats, off, off + n + 1) > avail then n else Shown(nats, off, avail, n + 1)
  }

  lemma {:induction false} ShownReaches(nats: seq<int>, off: nat, avail: int, n: nat, c: nat)
    requires forall i :: 0 <= i < |nats| ==> nats[i] >= 1
    requires off < |nats| && 1 <= n && off + n <= |nats| && off <= c < |nats|
    requires c < off + n || Span(nats, off, c + 1) <= avail
    ensures c < off + Shown(nats, off, avail, n)
    decreases |nats| - off - n
  {
    if c >= off + n {
      SpanMonotone(nats, off, off + n + 1, c + 1);
      ShownReaches(nats, off, avail, n + 1, c);
    }
  }

  lemma {:induction false} SpanMonotone(nats: seq<int>, a: nat, b: nat, c: nat)
    requires forall i :: 0 <= i < |nats| ==> nats[i] >= 1
    requires a <= b <= c <= |nats|
    ensures Span(nats, a, b) <= Span(nats, a, c)
    decreases c - b
  {
    if b < c {
      SpanNext(nats, a, c - 1);
      SpanMonotone(nats, a, b, c - 1);
    }
  }

  lemma {:induction false} ShownFits(nats: seq<int>, off: nat, avail: int, n: nat)
    requires off < |nats| && 1 <= n && off + n <= |nats| && (n == 1 || Span(nats, off, off + n) <= avail)
    ensures var k := Shown(nats, off, avail, n);
      && (k == 1 || Span(nats, off, off + k) <= avail)
      && (off + k == |nats| || Span(nats, off, off + k + 1) > avail)
    decreases |nats| - off - n
  {
    if off + n < |nats| && Span(nats, off, off + n + 1) <= avail {
      ShownFits(nats, off, avail, n + 1);
    }
  }

  function FirstWidth(w: int, avail: int): int { if w > avail then avail else w }

  /** The shown columns and their widths; a first column wider than the view is cut to it. */
  method VisibleColumns(nats: seq<int>, colOff: int, avail: int) returns (cols: seq<nat>, widths: seq<int>)
    requires forall i :: 0 <= i < |nats| ==> nats[i] >= 1
    ensures nats == [] ==> cols == [] && widths == []
    ensures nats != [] ==>
      var off := Clamp(colOff, 0, |nats| - 1);
      && |cols| == |widths| == Shown(nats, off, avail, 1)
      && (forall i :: 0 <= i < |cols| ==> cols[i] == off + i && widths[i] == if i == 0 then FirstWidth(nats[off], avail) else nats[off + i])
  {
    cols, widths := [], [];
    var start: nat := Clamp(colOff, 0, Max(0, |nats| - 1));
    var used := 0;
    var c := start;
    while c < |nats|
      invariant start <= c <= |nats| && (nats != [] ==> start < |nats|)
      invariant |cols| == |widths| == c - start && used == Span(nats, start, c)
      invariant forall i :: 0 <= i < |cols| ==> cols[i] == start + i && widths[i] == if i == 0 then FirstWidth(nats[start], avail) else nats[start + i]
      invariant c > start ==> Shown(nats, start, avail, 1) == Shown(nats, start, avail, c - start)
      decreases |nats| - c
    {
      var need := nats[c];
      if |cols| > 0 {
        need := need + 1;
      }
      SpanNext(nats, start, c);
      if used + need > avail && |cols| > 0 {
        break;
      }
      var w := nats[c];
      if used + need > avail {
        w := avail;
      }
      cols := cols + [c];
      widths := widths + [w];
      used := used + need;
      c := c + 1;
    }
  }

  /** The first offset from `off` on at which column `cursor` is shown whole, or the cursor's own. */
  function Scrolled(nats: seq<int>, off: nat, cursor: nat, avail: int): (r: nat)
    requires off <= cursor < |nats|
    ensures off <= r <= cursor
    decreases cursor - off
  {
    if Span(nats, off, cursor + 1) <= avail || off == cursor then off else Scrolled(nats, off + 1, cursor, avail)
  }

  predicate CutOff(nats: seq<int>, off: nat, cursor: nat, avail: int)
    requires cursor < |nats|
  {
    off < cursor && Span(nats, off, cursor + 1) > avail
  }

  lemma {:induction false} ScrolledFits(nats: seq<int>, off: nat, cursor: nat, avail: int)
    requires off <= cursor < |nats|
    ensures var r := Scrolled(nats, off, cursor, avail);
      && (r == cursor || Span(nats, r, cursor + 1) <= avail)
      && (forall k: nat :: off <= k < r ==> CutOff(nats, k, cursor, avail))
    decreases cursor - off
  {
    if Span(nats, off, cursor + 1) > avail && off < cursor {
      ScrolledFits(nats, off + 1, cursor, avail);
    }
  }

  /** Moves the offset just far enough for the cursor's column to be shown. */
  method ScrollColIntoView(nats: seq<int>, colOff: nat, cursor: nat, avail: int) returns (r: nat)
    requires cursor < |nats|
    ensures r == if cursor < colOff then cursor else Scrolled(nats, colOff, cursor, avail)
  {
    if cursor < colOff {
      return cursor;
    }
    var off := colOff;
    while off <= cursor
      invariant colOff <= off <= cursor
      invariant Scrolled(nats, colOff, cursor, avail) == Scrolled(nats, off, cursor, avail)
      decreases cursor - off
    {
      var w := 0;
      for c := off to cursor + 1
        invariant w == Span(nats, off, c)
      {
        SpanNext(nats, off, c);
        if c > off {
          w := w + 1;
        }
        w := w + nats[c];
      }
      if w <= avail || off == cursor {
        return off;
      }
      off := off + 1;
    }
    return cursor;
  }

  /** The widths VisibleColumns draws from an offset, side by side. */
  function Drawn(nats: seq<int>, off: nat, avail: int): (r: seq<int>)
    requires off < |nats|
    ensures |r| == Shown(nats, off, avail, 1)
  {
    [FirstWidth(nats[off], avail)] + nats[off + 1..off + Shown(nats, off, avail, 1)]
  }

  lemma SumPrepend(a: int, s: seq<int>)
    ensures Sum([a] + s) == a + Sum(s)
  {
    if s != [] {
      SumPrepend(a, s[..|s| - 1]);
      assert ([a] + s)[..|s|] == [a] + s[..|s| - 1];
    }
  }

  lemma DrawnFits(nats: seq<int>, off: nat, avail: int)
    requires forall i :: 0 <= i < |nats| ==> nats[i] >= 1
    requires off < |nats| && avail >= 1
    ensures var drawn := Drawn(nats, off, avail);
      && Sum(drawn) + |drawn| - 1 <= avail
      && (forall c :: off <= c < off + |drawn| && nats[c] <= avail ==> drawn[c - off] == nats[c])
  {
    var k := Shown(nats, off, avail, 1);
    ShownFits(nats, off, avail, 1);
    SumPrepend(FirstWidth(nats[off], avail), nats[off + 1..off + k]);
    SpanHead(nats, off, k);
  }

  lemma SpanHead(nats: seq<int>, off: nat, k: nat)
    requires 1 <= k && off + k <= |nats|
    ensures Span(nats, off, off + k) == nats[off] + Sum(nats[off + 1..off + k]) + k - 1
  {
    SumPrepend(nats[off], nats[off + 1..off + k]);
    assert nats[off..off + k] == [nats[off]] + nats[off + 1..off + k];
  }

  /** After scrolling, the cursor's column is on screen and the screen is wide enough for what is drawn. */
  lemma {:induction false} CursorInView(nats: seq<int>, colOff: nat, cursor: nat, avail: int)
    requires forall i :: 0 <= i < |nats| ==> nats[i] >= 1
    requires avail >= 1 && cursor < |nats|
    ensures var off := if cursor < colOff then cursor else Scrolled(nats, colOff, cursor, avail);
      var drawn := Drawn(nats, off, avail);
      && off <= cursor < off + |drawn|
      && (nats[cursor] <= avail ==> drawn[cursor - off] == nats[cursor])
      && Sum(drawn) + |drawn| - 1 <= avail
  {
    hide *;
    var off := if cursor < colOff then cursor else Scrolled(nats, colOff, cursor, avail);
    if cursor >= colOff {
      ScrolledFits(nats, colOff, cursor, avail);
    }
    ShownReaches(nats, off, avail, 1, cursor);
    DrawnFits(nats, off, avail);
  }
}
