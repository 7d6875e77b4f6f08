/// Natural column widths and their two caches (go/internal/tui/tableview.go:862-1098):
/// whatever frames, windows and caps came before, a cached answer is the measured one.
module Widths {

  import opened Layout

  const MAX_CELLS := 200000
  const SAMPLE_ROWS := 200
  const SPAN_ROWS := 2 * SAMPLE_ROWS
  const SPAN_LEAD := SAMPLE_ROWS / 2
  const WORD := 0x1_0000_0000

  /** What the caches read of a frame: the display width of every column name and every cell. */
  datatype Table = Table(rows: nat, names: seq<nat>, cells: seq<seq<nat>>) {
    ghost predicate Valid() {
      && |cells| == |names| && (names == [] ==> rows == 0)
      && (forall c :: 0 <= c < |cells| ==> |cells[c]| == rows)
      && (forall c, r :: 0 <= c < |cells| && 0 <= r < rows ==> cells[c][r] < WORD)
    }
  }

  /** A published frame never changes; the caches tell frames apart by identity. */
  class Frame {
    const t: Table

    constructor (t: Table)
      ensures this.t == t
    {
      this.t := t;
    }
  }

  function Widest(w: nat, cells: seq<nat>): nat {
    if cells == [] then w else Max(Widest(w, cells[..|cells| - 1]), cells[|cells| - 1])
  }

  lemma {:induction false} WidestIsMax(w: nat, cells: seq<nat>)
    ensures w <= Widest(w, cells) && forall i :: 0 <= i < |cells| ==> cells[i] <= Widest(w, cells)
    ensures Widest(w, cells) == w || Widest(w, cells) in cells
  {
    if cells != [] {
      WidestIsMax(w, cells[..|cells| - 1]);
    }
  }

  lemma {:induction false} WidestGrows(w: nat, cells: seq<nat>, k: nat)
    requires k <= |cells|
    ensures Widest(w, cells[..k]) <= Widest(w, cells)
  {
    if k < |cells| {
      WidestGrows(w, cells[..|cells| - 1], k);
      assert cells[..|cells| - 1][..k] == cells[..k];
    } else {
      assert cells[..k] == cells;
    }
  }

  /** The cells of a column that a window looks at. */
  function Seen(t: Table, lo: int, hi: int, c: nat): seq<nat>
    requires c < |t.cells| && |t.cells[c]| == t.rows
  {
    var l := Clamp(lo, 0, t.rows);
    t.cells[c][l..Clamp(hi, l, t.rows)]
  }

  /** Per column: the widest of the name and the seen cells, capped at capW and floored at one. */
  ghost function Natural(t: Table, lo: int, hi: int, capW: int): (r: seq<int>)
    requires t.Valid()
    ensures |r| == |t.names|
  {
    seq(|t.names|, c requires 0 <= c < |t.names| => Clamp(Widest(t.names[c], Seen(t, lo, hi, c)), 1, capW))
  }

  /** A natural width is the widest of the column's name and the window's cells, but at least one and at most the cap. */
  lemma NaturalIsWidest(t: Table, lo: nat, hi: nat, capW: int, c: nat)
    requires t.Valid() && c < |t.names| && lo <= hi <= t.rows && capW >= 1
    ensures var v := Natural(t, lo, hi, capW)[c];
      && 1 <= v <= capW
      && (v < capW ==> t.names[c] <= v && forall r :: lo <= r < hi ==> t.cells[c][r] <= v)
      && (v > 1 ==> t.names[c] >= v || exists r :: lo <= r < hi && t.cells[c][r] >= v)
  {
    var seen, w := Seen(t, lo, hi, c), Widest(t.names[c], Seen(t, lo, hi, c));
    WidestIsMax(t.names[c], seen);
    assert seen == t.cells[c][lo..hi];
    forall r | lo <= r < hi ensures t.cells[c][r] <= w {
      assert seen[r - lo] == t.cells[c][r];
    }
    if w != t.names[c] {
      var i :| 0 <= i < |seen| && seen[i] == w;
      assert t.cells[c][lo + i] == w;
    }
  }

  /** Stopping at the cap does not change the capped maximum. */
  lemma EarlyStop(w: nat, cells: seq<nat>, k: nat, capW: int)
    requires k <= |cells| && Widest(w, cells[..k]) >= capW
    ensures Clamp(capW, 1, capW) == Clamp(Widest(w, cells), 1, capW)
  {
    WidestGrows(w, cells, k);
  }

  lemma WidestNext(w: nat, cells: seq<nat>, k: nat)
    requires k < |cells|
    ensures Widest(w, cells[..k + 1]) == Max(Widest(w, cells[..k]), cells[k])
  {
    assert cells[..k + 1][..k] == cells[..k];
  }

  method NaturalWidths(f: Frame, low: int, high: int, capW: int) returns (out: array<int>)
    requires f.t.Valid()
    ensures fresh(out) && out[..] == Natural(f.t, low, high, capW)
  {
    var lo := Clamp(low, 0, f.t.rows);
    var hi := Clamp(high, lo, f.t.rows);
    out := new int[|f.t.names|];
    for c := 0 to |f.t.names|
      invariant forall k :: 0 <= k < c ==> out[k] == Natural(f.t, low, high, capW)[k]
    {
      ghost var seen := Seen(f.t, low, high, c);
      var w: int := f.t.names[c];
      var r := lo;
      while r < hi
        invariant lo <= r <= hi && w == Widest(f.t.names[c], seen[..r - lo])
        invariant forall k :: 0 <= k < c ==> out[k] == Natural(f.t, low, high, capW)[k]
      {
        WidestNext(f.t.names[c], seen, r - lo);
        var cw := f.t.cells[c][r];
        if cw > w {
          w := cw;
        }
        if w >= capW {
          EarlyStop(f.t.names[c], seen, r - lo + 1, capW);
          w := capW;
          break;
        }
        r := r + 1;
      }
      assert r == hi ==> seen[..r - lo] == seen;
      assert Clamp(w, 1, capW) == Natural(f.t, low, high, capW)[c];
      out[c] := Clamp(w, 1, capW);
    }
  }

  // ---- The per-cell cache ----

  /** A slot holds the width plus one in an unsigned 32-bit word; zero is an empty slot. */
  function Stored(w: nat): (s: nat)
    ensures s < WORD
  {
    (w + 1) % WORD
  }

  /** A filled slot gives the width back exactly when it was below 2^32 - 1; 2^32 - 1 stays an empty slot. */
  lemma StoredBack(w: nat)
    ensures Stored(w) != 0 && Stored(w) - 1 == w <==> w < WORD - 1
    ensures w == WORD - 1 ==> Stored(w) == 0
  {
  }

  /** The cell a slot stands for. */
  function SlotCell(t: Table, base: int, span: int, i: int): nat
    requires span > 0
  {
    var c, r := i / span, base + i % span;
    if 0 <= c < |t.cells| && 0 <= r < |t.cells[c]| then t.cells[c][r] else 0
  }

  lemma SlotOf(t: Table, base: int, span: int, col: nat, r: int)
    requires t.Valid() && 0 < span && 0 <= base <= r < base + span && base + span <= t.rows && col < |t.cells|
    ensures var i := col * span + (r - base);
      0 <= i < span * |t.cells| && SlotCell(t, base, span, i) == t.cells[col][r]
  {
    var k := r - base;
    DivMod(col, span, k);
    Inside(col, |t.cells|, span, k);
  }

  lemma DivMod(q: nat, d: int, k: int)
    requires 0 <= k < d
    ensures (q * d + k) / d == q && (q * d + k) % d == k
  {
    var n := q * d + k;
    var x := n / d - q;
    assert d * x == d * (n / d) - d * q;
    assert d * x == k - n % d;
    Multiple(d, x);
  }

  lemma Multiple(d: int, x: int)
    requires d > 0
    ensures x >= 1 ==> d * x >= d
    ensures x <= -1 ==> d * x <= -d
  {
  }

  lemma Inside(col: nat, n: nat, span: int, k: int)
    requires col < n && 0 <= k < span
    ensures 0 <= col * span + k < span * n
  {
    assert span * n == span * col + span * (n - col);
    Multiple(span, n - col);
  }

  lemma SlotsCounted(span: int, cols: int)
    requires span > 0 && cols > 0
    ensures span * cols >= 0
  {
  }

  class WidthCache {
    var f: Frame?
    var rows: int
    var ncols: int
    var base: int
    var span: int
    var buf: array?<nat>
    var builds: int
    var clears: int
    var reanchors: int
    var outside: int
    var computed: int

    constructor ()
      ensures Valid() && buf == null && outside == 0
    {
      f, rows, ncols, base, span, buf := null, 0, 0, 0, 0, null;
      builds, clears, reanchors, outside, computed := 0, 0, 0, 0, 0;
    }

    /** Every filled slot holds the width of the cell it stands for. */
    ghost predicate Valid()
      reads this, buf
    {
      buf != null ==>
        && f != null && f.t.Valid() && rows == f.t.rows && ncols == |f.t.names|
        && 0 < span && 0 <= base && base + span <= rows && (span == rows || span == SPAN_ROWS) && buf.Length == span * ncols
        && forall i :: 0 <= i < buf.Length ==> buf[i] == 0 || buf[i] == Stored(SlotCell(f.t, base, span, i))
    }

    predicate Covers(lo: int, hi: int)
      reads this
    {
      base <= lo && hi <= base + span
    }

    ghost predicate Ready(g: Frame, lo: int, hi: int)
      reads this, buf
    {
      && Valid()
      && (buf != null ==> f == g && (hi - lo <= SAMPLE_ROWS ==> Covers(lo, hi)))
    }

    method Clear()
      requires buf != null
      modifies buf
      ensures forall i :: 0 <= i < buf.Length ==> buf[i] == 0
    {
      for i := 0 to buf.Length
        invariant forall j :: 0 <= j < i ==> buf[j] == 0
      {
        buf[i] := 0;
      }
    }

    /** Makes the cache answer for a frame and a window, keeping what it can. */
    method Align(g: Frame, lo: int, hi: int)
      requires Valid() && g.t.Valid() && 0 <= lo <= hi <= g.t.rows
      modifies this, buf
      ensures Ready(g, lo, hi) && outside == old(outside)
      ensures buf == old(buf) || buf == null || fresh(buf)
    {
      if f != g || rows != g.t.rows || ncols != |g.t.names| {
        Reset(g, lo, hi);
        return;
      }
      if buf == null || Covers(lo, hi) {
        return;
      }
      reanchors := reanchors + 1;
      base := Clamp(lo - SPAN_LEAD, 0, rows - span);
      Clear();
      clears := clears + 1;
      computed := 0;
    }

    method Reset(g: Frame, lo: int, hi: int)
      requires g.t.Valid() && 0 <= lo <= hi <= g.t.rows
      modifies this, buf
      ensures Ready(g, lo, hi) && outside == old(outside)
      ensures buf == old(buf) || buf == null || fresh(buf)
    {
      f, rows, ncols, computed := g, g.t.rows, |g.t.names|, 0;
      base, span := 0, 0;
      if rows <= 0 || ncols <= 0 {
        buf := null;
        return;
      }
      var limit := MAX_CELLS / ncols;
      var sp := 0;
      if rows <= limit {
        sp := rows;
      } else if SPAN_ROWS <= limit {
        sp := if rows < SPAN_ROWS then rows else SPAN_ROWS;
        base := Clamp(lo - SPAN_LEAD, 0, rows - sp);
      }
      if sp <= 0 {
        buf := null;
        return;
      }
      span := sp;
      SlotsCounted(sp, ncols);
      Renew(sp * ncols);
    }

    /** An empty buffer of n slots: the old one when it has that size. */
    method Renew(n: nat)
      modifies this`buf, this`clears, this`builds, buf
      ensures buf != null && buf.Length == n && forall i :: 0 <= i < n ==> buf[i] == 0
      ensures buf == old(buf) || fresh(buf)
    {
      if buf != null && buf.Length == n {
        Clear();
        clears := clears + 1;
        return;
      }
      buf := new nat[n](_ => 0);
      builds := builds + 1;
    }
  }

  ghost function Footprint(c: WidthCache?): set<object>
    reads c
  {
    if c == null then {} else if c.buf == null then {c} else {c, c.buf}
  }

  /** One cell's width, from its slot when the cache covers it and measured otherwise. */
  method CellWidth(c: WidthCache?, f: Frame, r: int, col: nat) returns (w: nat)
    requires f.t.Valid() && col < |f.t.cells| && 0 <= r < f.t.rows
    requires c != null ==> c.Valid() && (c.buf != null ==> c.f == f)
    modifies Footprint(c)
    ensures w == f.t.cells[col][r]
    ensures c != null ==> c.Valid() && c.buf == old(c.buf) && c.f == old(c.f) && c.base == old(c.base) && c.span == old(c.span)
    ensures c != null ==> c.outside == old(c.outside) + if c.buf != null && !(c.base <= r < c.base + c.span) then 1 else 0
  {
    if c == null || c.buf == null {
      return f.t.cells[col][r];
    }
    if r < c.base || r >= c.base + c.span {
      c.outside := c.outside + 1;
      return f.t.cells[col][r];
    }
    SlotOf(f.t, c.base, c.span, col, r);
    var i := col * c.span + (r - c.base);
    var v := c.buf[i];
    if v != 0 {
      return v - 1;
    }
    w := f.t.cells[col][r];
    c.buf[i] := (w + 1) % WORD;
    c.computed := c.computed + 1;
  }

  method ColumnWidth(c: WidthCache?, f: Frame, lo: int, hi: int, col: nat, capW: int) returns (out: int)
    requires f.t.Valid() && col < |f.t.names| && 0 <= lo <= hi <= f.t.rows
    requires c != null ==> c.Ready(f, lo, hi)
    modifies Footprint(c)
    ensures out == Natural(f.t, lo, hi, capW)[col]
    ensures c != null ==> c.Ready(f, lo, hi) && c.buf == old(c.buf)
    ensures c != null && hi - lo <= SAMPLE_ROWS ==> c.outside == old(c.outside)
  {
    ghost var seen := Seen(f.t, lo, hi, col);
    var w: int := f.t.names[col];
    var r := lo;
    while r < hi
      invariant lo <= r <= hi && w == Widest(f.t.names[col], seen[..r - lo])
      invariant c != null ==> c.Ready(f, lo, hi) && c.buf == old(c.buf)
      invariant c != null && hi - lo <= SAMPLE_ROWS ==> c.outside == old(c.outside)
    {
      WidestNext(f.t.names[col], seen, r - lo);
      var cw := CellWidth(c, f, r, col);
      if cw > w {
        w := cw;
      }
      if w >= capW {
        EarlyStop(f.t.names[col], seen, r - lo + 1, capW);
        w := capW;
        break;
      }
      r := r + 1;
    }
    assert r == hi ==> seen[..r - lo] == seen;
    out := Clamp(w, 1, capW);
  }

  /** The cached measure gives the vector NaturalWidths gives, whatever the cache was used for before. */
  method NaturalWidthsCached(f: Frame, low: int, high: int, capW: int, c: WidthCache?) returns (out: array<int>)
    requires f.t.Valid() && (c != null ==> c.Valid())
    modifies Footprint(c)
    ensures fresh(out) && out[..] == Natural(f.t, low, high, capW)
    ensures c != null ==> c.Valid() && fresh(Footprint(c) - old(Footprint(c)))
    ensures c != null && high - low <= SAMPLE_ROWS ==> c.outside == old(c.outside)
  {
    var lo := Clamp(low, 0, f.t.rows);
    var hi := Clamp(high, lo, f.t.rows);
    if c != null {
      c.Align(f, lo, hi);
    }
    out := new int[|f.t.names|];
    for col := 0 to |f.t.names|
      invariant c != null ==> c.Ready(f, lo, hi) && fresh(Footprint(c) - old(Footprint(c))) && out !in Footprint(c)
      invariant c != null && hi - lo <= SAMPLE_ROWS ==> c.outside == old(c.outside)
      invariant forall k :: 0 <= k < col ==> out[k] == Natural(f.t, low, high, capW)[k]
    {
      var w := ColumnWidth(c, f, lo, hi, col, capW);
      out[col] := w;
    }
  }

  // ---- The whole-result cache of a restricted column list ----

  function WindowBounds(rows: nat, base: int, limit: int): (r: (nat, nat))
    ensures r.0 + r.1 <= rows
  {
    var b := if base < 0 then 0 else if base > rows then rows else base;
    (b, if limit < 0 then 0 else if limit > rows - b then rows - b else limit)
  }

  /** The frame built for some columns and a window of rows; a column the parent lacks shows as empty. */
  function Window(t: Table, cols: seq<nat>, base: int, limit: int): (s: Table)
    requires |t.cells| == |t.names| && forall c :: 0 <= c < |t.cells| ==> |t.cells[c]| == t.rows
    ensures s.rows == if cols == [] then 0 else WindowBounds(t.rows, base, limit).1
  {
    var (start, length) := WindowBounds(t.rows, base, limit);
    Table(if cols == [] then 0 else length,
          seq(|cols|, i requires 0 <= i < |cols| => if cols[i] < |t.names| then t.names[cols[i]] else 0),
          seq(|cols|, i requires 0 <= i < |cols| => if cols[i] < |t.cells| then t.cells[cols[i]][start..start + length] else seq(length, _ => 0)))
  }

  lemma WindowValid(t: Table, cols: seq<nat>, base: int, limit: int)
    requires t.Valid()
    ensures Window(t, cols, base, limit).Valid()
    ensures Window(t, cols, base, Window(t, cols, base, limit).rows) == Window(t, cols, base, limit)
  {
    var s := Window(t, cols, base, limit);
    assert cols != [] ==> WindowBounds(t.rows, base, s.rows) == WindowBounds(t.rows, base, limit);
    assert cols == [] ==> s == Table(0, [], []) == Window(t, cols, base, 0);
  }

  /** Measuring the window by its own rows is measuring the parent by absolute rows. */
  lemma WindowSeesParent(t: Table, cols: seq<nat>, base: nat, limit: nat, mlo: nat, mhi: nat, capW: int, i: nat)
    requires t.Valid() && i < |cols| && cols[i] < |t.names| && base + limit <= t.rows && mlo <= mhi <= limit
    requires Window(t, cols, base, limit).Valid()
    ensures Natural(Window(t, cols, base, limit), mlo, mhi, capW)[i] == Natural(t, base + mlo, base + mhi, capW)[cols[i]]
  {
    var w := Window(t, cols, base, limit);
    assert WindowBounds(t.rows, base, limit) == (base, limit) && w.rows == limit;
    assert Seen(w, mlo, mhi, i) == w.cells[i][mlo..mhi] && w.cells[i] == t.cells[cols[i]][base..base + limit];
    assert Seen(t, base + mlo, base + mhi, cols[i]) == t.cells[cols[i]][base + mlo..base + mhi];
    SliceOfSlice(t.cells[cols[i]], base, base + limit, mlo, mhi);
  }

  lemma SliceOfSlice<T>(s: seq<T>, a: nat, b: nat, i: nat, j: nat)
    requires a <= b <= |s| && i <= j <= b - a
    ensures s[a..b][i..j] == s[a + i..a + j]
  {
    var x, y := s[a..b][i..j], s[a + i..a + j];
    forall k | 0 <= k < j - i ensures x[k] == y[k] {
      assert s[a..b][i + k] == s[a + i + k];
    }
  }

  datatype Answer = Panic | Widths(value: seq<int>)

  class TableColsCache {
    var f: Frame?
    var rows: int
    var ncols: int
    var keyCols: seq<nat>
    var base: int
    var win: int
    var mlo: int
    var mhi: int
    var capW: int
    var val: seq<int>
    var valid: bool
    var builds: int
    var hits: int
    var computed: int

    constructor ()
      ensures Valid() && !valid
    {
      f, rows, ncols, keyCols, base, win, mlo, mhi, capW := null, 0, 0, [], 0, 0, 0, 0, 0;
      val, valid, builds, hits, computed := [], false, 0, 0, 0;
    }

    /** The kept vector is the measure of the window its key describes. */
    ghost predicate Valid()
      reads this
    {
      valid ==>
        && f != null && f.t.Valid() && Window(f.t, keyCols, base, win).Valid()
        && val == Natural(Window(f.t, keyCols, base, win), mlo, mhi, capW)
    }

    method Match(g: Frame, cols: seq<nat>, gbase: int, gwin: int, glo: int, ghi: int, cap: int) returns (ok: bool)
      ensures ok <==> && valid && f == g && rows == g.t.rows && ncols == |g.t.names| && keyCols == cols && base == gbase && win == gwin && mlo == glo && mhi == ghi && capW == cap
    {
      if !valid || f != g || rows != g.t.rows || ncols != |g.t.names| {
        return false;
      }
      if base != gbase || win != gwin || mlo != glo || mhi != ghi || capW != cap {
        return false;
      }
      if |keyCols| != |cols| {
        return false;
      }
      for i := 0 to |cols|
        invariant keyCols[..i] == cols[..i]
      {
        if keyCols[i] != cols[i] {
          return false;
        }
      }
      return true;
    }

    /** The miss: one plain measure of the window, kept with its key. */
    method Measure(sub: Frame, orig: Frame, cols: seq<nat>, gbase: int, glo: int, ghi: int, cap: int) returns (out: seq<int>)
      requires orig.t.Valid() && sub.t.Valid() && sub.t == Window(orig.t, cols, gbase, sub.t.rows)
      modifies this
      ensures Valid() && out == Natural(sub.t, glo, ghi, cap)
      ensures hits == old(hits) && builds == old(builds) + 1
    {
      hide Window, WindowBounds, Natural;
      var measured := NaturalWidthsCached(sub, glo, ghi, cap, null);
      f, rows, ncols := orig, orig.t.rows, |orig.t.names|;
      keyCols, val := cols, measured[..];
      base, win, mlo, mhi, capW := gbase, sub.t.rows, glo, ghi, cap;
      valid := true;
      builds := builds + 1;
      computed := computed + (ghi - glo) * |cols|;
      return val;
    }

    /** Whatever was asked before, the answer is a fresh measure of this window; a window past its frame panics. */
    method Get(sub: Frame, orig: Frame, cols: seq<nat>, gbase: int, ghost limit: int, glo: int, ghi: int, cap: int) returns (r: Answer)
      requires Valid() && orig.t.Valid() && sub.t == Window(orig.t, cols, gbase, limit) && sub.t.Valid()
      modifies this
      ensures Valid()
      ensures r == if glo < 0 || ghi > sub.t.rows then Panic else Widths(Natural(sub.t, glo, ghi, cap))
      ensures r.Widths? ==> hits + builds == old(hits + builds) + 1
      ensures r.Panic? ==> unchanged(this)
    {
      hide Window, WindowBounds, Natural;
      var w := sub.t.rows;
      if glo < 0 || ghi > w {
        return Panic;
      }
      WindowValid(orig.t, cols, gbase, limit);
      assert Window(orig.t, cols, gbase, w) == sub.t;
      var hit := Match(orig, cols, gbase, w, glo, ghi, cap);
      if hit {
        hits := hits + 1;
        return Widths(val);
      }
      var measured := Measure(sub, orig, cols, gbase, glo, ghi, cap);
      return Widths(measured);
    }
  }
}
