/// Normalisation of type literals and default expressions
/// (go/pkg/schemadiff/normalize.go), on ASCII text.
module Normalize {
  import opened Text

  // ---- foldSpaces: runs of white space become one blank, ends are trimmed ----

  /** What foldSpaces emits for the rest of the input: `started` once a
      character was written, `pending` when a blank is owed before the next. */
  function FoldFrom(s: string, started: bool, pending: bool): string {
    if s == [] then []
    else if IsSpace(s[0]) then FoldFrom(s[1..], started, started)
    else (if pending then [' '] else []) + [s[0]] + FoldFrom(s[1..], true, false)
  }

  function Fold(s: string): string { FoldFrom(s, false, false) }

  /** Single blanks only, none at the end, and none at the start unless `started`. */
  predicate FoldedAfter(s: string, started: bool) {
    forall i :: 0 <= i < |s| && IsSpace(s[i]) ==>
      && s[i] == ' '
      && i + 1 < |s| && !IsSpace(s[i + 1])
      && (i == 0 ==> started)
  }

  /** The normal form of foldSpaces. */
  predicate Folded(s: string) { FoldedAfter(s, false) }

  lemma FoldNext(s: string, i: nat, started: bool, pending: bool)
    requires i < |s|
    ensures FoldFrom(s[i..], started, pending) ==
            if IsSpace(s[i]) then FoldFrom(s[i + 1..], started, started)
            else (if pending then [' ', s[i]] else [s[i]]) + FoldFrom(s[i + 1..], true, false)
  {
    hide IsSpace;
    assert s[i..] == [s[i]] + s[i + 1..];
  }

  method FoldSpaces(s: string) returns (out: string)
    ensures out == Fold(s)
  {
    out := [];
    var pending := false;
    assert s[0..] == s && FoldFrom("", true, false) == FoldFrom("", true, true) == FoldFrom("", false, false) == "";
    hide IsSpace, FoldFrom;
    for i := 0 to |s|
      invariant pending ==> out != []
      invariant out + FoldFrom(s[i..], out != [], pending) == Fold(s)
    {
      FoldNext(s, i, out != [], pending);
      if IsSpace(s[i]) {
        if out != [] {
          pending := true;
        }
      } else {
        if pending {
          out := out + [' '];
          pending := false;
        }
        out := out + [s[i]];
      }
    }
  }

  lemma FoldedPrepend(c: char, rest: string)
    requires !IsSpace(c) && FoldedAfter(rest, true)
    ensures FoldedAfter([c] + rest, false)
    ensures FoldedAfter([' ', c] + rest, true)
  {
    var r, q := [c] + rest, [' ', c] + rest;
    assert forall i :: 0 < i < |r| ==> r[i] == rest[i - 1];
    assert forall i :: 1 < i < |q| ==> q[i] == rest[i - 2];
  }

  lemma {:induction false} FoldFromFolded(s: string, started: bool, pending: bool)
    requires pending ==> started
    ensures FoldedAfter(FoldFrom(s, started, pending), started)
  {
    if s == [] {
    } else if IsSpace(s[0]) {
      FoldFromFolded(s[1..], started, started);
    } else {
      FoldFromFolded(s[1..], true, false);
      var rest := FoldFrom(s[1..], true, false);
      FoldedPrepend(s[0], rest);
      assert [' '] + [s[0]] + rest == [' ', s[0]] + rest;
    }
  }

  lemma FoldIsFolded(s: string)
    ensures Folded(Fold(s))
  {
    FoldFromFolded(s, false, false);
  }

  /** A normal form is a fixed point, wherever the scan stands. */
  lemma {:induction false} FoldFromFixed(s: string, started: bool)
    requires FoldedAfter(s, started)
    ensures FoldFrom(s, started, false) == s
  {
    if s == [] {
    } else if IsSpace(s[0]) {
      assert s == [' ', s[1]] + s[2..];
      assert s[1..][1..] == s[2..];
      FoldedTail(s, started, 2);
      FoldFromFixed(s[2..], true);
      assert FoldFrom(s, started, false) == FoldFrom(s[1..], true, true);
    } else {
      FoldedTail(s, started, 1);
      FoldFromFixed(s[1..], true);
      assert s == [s[0]] + s[1..];
    }
  }

  lemma FoldedTail(s: string, started: bool, n: nat)
    requires FoldedAfter(s, started) && n <= |s|
    ensures FoldedAfter(s[n..], true)
  {
    var t := s[n..];
    assert forall i :: 0 <= i < |t| ==> t[i] == s[n + i];
    assert forall i :: 0 <= i < |t| && IsSpace(t[i]) ==> IsSpace(s[n + i]) && i + 1 < |t| && t[i + 1] == s[n + i + 1];
  }

  lemma FoldFixed(s: string)
    requires Folded(s)
    ensures Fold(s) == s
  {
    FoldFromFixed(s, false);
  }

  lemma {:induction false} FoldFromLength(s: string, started: bool, pending: bool)
    ensures |FoldFrom(s, started, pending)| <= |s| + if pending then 1 else 0
  {
    if s != [] {
      FoldFromLength(s[1..], if IsSpace(s[0]) then started else true, if IsSpace(s[0]) then started else false);
    }
  }

  lemma FoldedTrimmed(s: string)
    requires Folded(s)
    ensures Trim(s) == s
  {
    if s != [] {
      assert IsSpace(s[0]) ==> 0 < 0;
      TrimmedEnds(s);
    }
  }

  // ---- What folding leaves alone ----

  /** The text without its blanks. */
  function Solid(s: string): string { if s == [] then [] else (if IsSpace(s[0]) then [] else [s[0]]) + Solid(s[1..]) }

  lemma {:induction false} SolidConcat(a: string, b: string)
    ensures Solid(a + b) == Solid(a) + Solid(b)
  {
    if a == [] {
      assert a + b == b;
    } else {
      assert (a + b)[1..] == a[1..] + b;
      SolidConcat(a[1..], b);
    }
  }

  lemma {:induction false} SolidTrimLeft(s: string)
    ensures Solid(TrimLeft(s)) == Solid(s)
  {
    if s != [] && IsSpace(s[0]) {
      SolidTrimLeft(s[1..]);
    }
  }

  lemma {:induction false} SolidTrimRight(s: string)
    ensures Solid(TrimRight(s)) == Solid(s)
  {
    if s != [] && IsSpace(s[|s| - 1]) {
      SolidTrimRight(s[..|s| - 1]);
      assert s == s[..|s| - 1] + [s[|s| - 1]];
      SolidConcat(s[..|s| - 1], [s[|s| - 1]]);
    }
  }

  lemma {:induction false} SolidFold(s: string, started: bool, pending: bool)
    ensures Solid(FoldFrom(s, started, pending)) == Solid(s)
  {
    if s != [] {
      if IsSpace(s[0]) {
        SolidFold(s[1..], started, started);
      } else {
        SolidFold(s[1..], true, false);
        var rest := FoldFrom(s[1..], true, false);
        SolidConcat(if pending then [' '] else [], [s[0]] + rest);
        SolidConcat([s[0]], rest);
        assert (if pending then [' '] else []) + [s[0]] + rest == (if pending then [' '] else []) + ([s[0]] + rest);
      }
    }
  }

  // ---- lowerOutsideQuotes ----

  predicate IsQuote(c: char) { c == '\'' || c == '"' }

  /** The quote still open after c, when `quote` was open before it. */
  function QuoteAfter(quote: Option<char>, c: char): Option<char> {
    match quote
    case Some(q) => if c == q then None else quote
    case None => if IsQuote(c) then Some(c) else None
  }

  function LowerFrom(s: string, quote: Option<char>): (r: string)
    ensures |r| == |s|
  {
    if s == [] then [] else
    [if quote.Some? then s[0] else LowerChar(s[0])] + LowerFrom(s[1..], QuoteAfter(quote, s[0]))
  }

  function LowerOutside(s: string): string { LowerFrom(s, None) }

  method LowerOutsideQuotes(s: string) returns (out: string)
    ensures out == LowerOutside(s)
  {
    out := [];
    var quote := None;
    for i := 0 to |s|
      invariant out + LowerFrom(s[i..], quote) == LowerOutside(s)
    {
      var c := s[i];
      assert s[i..] == [c] + s[i + 1..];
      if quote.Some? {
        if c == quote.value {
          quote := None;
        }
        out := out + [c];
      } else if c == '\'' || c == '"' {
        quote := Some(c);
        out := out + [c];
      } else {
        out := out + [LowerChar(c)];
      }
    }
  }

  /** A blank is no letter and no quote. */
  lemma SpaceStays()
    ensures forall c {:trigger LowerChar(c)} :: IsSpace(LowerChar(c)) == IsSpace(c)
    ensures forall c, q: Option<char> {:trigger QuoteAfter(q, c)} :: IsSpace(c) && (q.Some? ==> IsQuote(q.value)) ==> QuoteAfter(q, c) == q
    ensures forall c, q: Option<char> {:trigger QuoteAfter(q, c)} :: (q.Some? ==> IsQuote(q.value)) ==> (QuoteAfter(q, c).Some? ==> IsQuote(QuoteAfter(q, c).value))
    ensures IsSpace(' ') && LowerChar(' ') == ' '
  {
  }

  /** Folding white space and folding case do not disturb each other. */
  lemma {:induction false} LowerFoldCommute(s: string, started: bool, pending: bool, quote: Option<char>)
    requires quote.Some? ==> IsQuote(quote.value)
    ensures LowerFrom(FoldFrom(s, started, pending), quote) == FoldFrom(LowerFrom(s, quote), started, pending)
  {
    hide IsSpace, IsQuote, QuoteAfter, LowerChar;
    SpaceStays();
    if s != [] {
      var l := LowerFrom(s, quote);
      assert l[1..] == LowerFrom(s[1..], QuoteAfter(quote, s[0]));
      if IsSpace(s[0]) {
        LowerFoldCommute(s[1..], started, started, quote);
      } else {
        LowerFoldCommute(s[1..], true, false, QuoteAfter(quote, s[0]));
        var rest := FoldFrom(s[1..], true, false);
        assert ([s[0]] + rest)[1..] == rest;
        assert ([' '] + ([s[0]] + rest))[1..] == [s[0]] + rest;
        assert [' '] + [s[0]] + rest == [' '] + ([s[0]] + rest);
      }
    }
  }

  lemma {:induction false} LowerPrefix(a: string, b: string, quote: Option<char>)
    ensures LowerFrom(a + b, quote)[..|a|] == LowerFrom(a, quote)
  {
    if a != [] {
      assert (a + b)[1..] == a[1..] + b;
      LowerPrefix(a[1..], b, QuoteAfter(quote, a[0]));
    } else {
      assert a + b == b;
    }
  }

  lemma {:induction false} LowerFromIdempotent(s: string, quote: Option<char>)
    ensures LowerFrom(LowerFrom(s, quote), quote) == LowerFrom(s, quote)
  {
    if s != [] {
      LowerFromIdempotent(s[1..], QuoteAfter(quote, s[0]));
    }
  }

  // ---- matchingClose and stripOuterParens ----

  /** Nesting depth and single-quote state after b[lo..hi]. */
  function Nesting(b: string, lo: nat, hi: nat): (int, bool)
    requires lo <= hi <= |b|
    decreases hi
  {
    if lo == hi then (0, false) else
    var (depth, quoted) := Nesting(b, lo, hi - 1);
    var c := b[hi - 1];
    if c == '\'' then (depth, !quoted)
    else if quoted then (depth, quoted)
    else if c == '(' then (depth + 1, quoted)
    else if c == ')' then (depth - 1, quoted)
    else (depth, quoted)
  }

  /** Position j holds the ')' that brings the nesting opened at `open` back to zero. */
  predicate ClosesAt(b: string, open: nat, j: nat)
    requires open <= j < |b|
  {
    b[j] == ')' && Nesting(b, open, j) == (1, false)
  }

  function CloseFrom(b: string, open: nat, i: nat): (r: int)
    requires open <= i <= |b|
    ensures r == -1 || i <= r < |b|
    decreases |b| - i
  {
    if i == |b| then -1
    else if ClosesAt(b, open, i) then i
    else CloseFrom(b, open, i + 1)
  }

  /** The first position closing the parenthesis at `open`, or -1. */
  function MatchingClose(b: string, open: nat): (r: int)
    requires open <= |b|
    ensures r == -1 || open <= r < |b|
  {
    CloseFrom(b, open, open)
  }

  method FindMatchingClose(b: string, open: nat) returns (r: int)
    requires open < |b| && b[open] == '('
    ensures r == MatchingClose(b, open)
    ensures r >= 0 ==> open < r < |b| && ClosesAt(b, open, r)
    ensures forall j :: open <= j < (if r >= 0 then r else |b|) ==> !ClosesAt(b, open, j)
  {
    var depth, inQuote := 0, false;
    var i := open;
    while i < |b|
      invariant open <= i <= |b|
      invariant (depth, inQuote) == Nesting(b, open, i)
      invariant CloseFrom(b, open, i) == MatchingClose(b, open)
      invariant forall j :: open <= j < i ==> !ClosesAt(b, open, j)
    {
      var c := b[i];
      if c == '\'' {
        inQuote := !inQuote;
      } else if !inQuote {
        if c == '(' {
          depth := depth + 1;
        } else if c == ')' {
          depth := depth - 1;
          if depth == 0 {
            return i;
          }
        }
      }
      i := i + 1;
    }
    return -1;
  }

  function StripOuterParens(s: string): (r: string)
    ensures |r| <= |s|
  {
    if s != [] && s[0] == '(' && MatchingClose(s, 0) == |s| - 1 && |s| > 1 then s[1..|s| - 1] else s
  }

  // ---- Words and tokens ----

  predicate IsWord(c: char) {
    '0' <= c <= '9' || 'a' <= c <= 'z' || 'A' <= c <= 'Z' || c == '_'
  }

  /** Length of the leading run of word characters. */
  function WordLength(t: string): (n: nat)
    ensures n <= |t| && (forall i :: 0 <= i < n ==> IsWord(t[i])) && (n < |t| ==> !IsWord(t[n]))
  {
    if t == [] || !IsWord(t[0]) then 0 else 1 + WordLength(t[1..])
  }

  /** splitToken: the stem of a token and the tail behind it. */
  function Stem(t: string): string { t[..WordLength(t)] }

  function TokenTail(t: string): string { t[WordLength(t)..] }

  function Split(s: string, c: char): (r: seq<string>)
    ensures r != []
  {
    if s == [] then [""] else
    var r := Split(s[1..], c);
    if s[0] == c then [""] + r else [[s[0]] + r[0]] + r[1..]
  }

  predicate HasPrefix(s: string, p: string) { |p| <= |s| && s[..|p|] == p }

  predicate HasSuffix(s: string, p: string) { |p| <= |s| && s[|s| - |p|..] == p }

  // ---- stripTrailingCast ----

  predicate CastToken(t: string) {
    var base, rest := Stem(t), TokenTail(t);
    && base != []
    && ('a' <= base[0] <= 'z' || base[0] == '_')
    && (|| rest == []
        || (HasPrefix(rest, "(") && HasSuffix(rest, ")"))
        || rest == "[]"
        || (HasPrefix(rest, "(") && HasSuffix(rest, ")[]")))
  }

  predicate IsCastTail(t: string) {
    t != [] && forall i :: 0 <= i < |Split(t, ' ')| ==> CastToken(Split(t, ' ')[i])
  }

  /** The scan for the last `::` outside quotes and parentheses. */
  function LastCastFrom(b: string, i: nat, depth: int, quote: Option<char>, last: int): (r: int)
    requires i <= |b| && -1 <= last && last + 1 < |b| + 1
    ensures -1 <= r && (r == last || i <= r < |b| - 1)
    decreases |b| - i
  {
    if i == |b| then last else
    var c := b[i];
    if quote.Some? || IsQuote(c) then LastCastFrom(b, i + 1, depth, QuoteAfter(quote, c), last)
    else if c == '(' then LastCastFrom(b, i + 1, depth + 1, quote, last)
    else if c == ')' then LastCastFrom(b, i + 1, depth - 1, quote, last)
    else if c == ':' && depth == 0 && i + 1 < |b| && b[i + 1] == ':' then LastCastFrom(b, i + 1, depth, quote, i)
    else LastCastFrom(b, i + 1, depth, quote, last)
  }

  function LastCast(b: string): (r: int)
    ensures -1 <= r && (r >= 0 ==> r + 1 < |b|)
  {
    LastCastFrom(b, 0, 0, None, -1)
  }

  function StripTrailingCast(s: string): string {
    var last := LastCast(s);
    if last < 0 then s
    else if IsCastTail(Fold(s[last + 2..])) then Fold(s[..last])
    else s
  }

  method StripCast(s: string) returns (r: string)
    ensures r == StripTrailingCast(s)
  {
    var depth, last := 0, -1;
    var quote: Option<char> := None;
    var i := 0;
    while i < |s|
      invariant 0 <= i <= |s| && -1 <= last && last + 1 < |s| + 1
      invariant LastCastFrom(s, i, depth, quote, last) == LastCast(s)
    {
      var c := s[i];
      if quote.Some? {
        if c == quote.value {
          quote := None;
        }
      } else if IsQuote(c) {
        quote := Some(c);
      } else if c == '(' {
        depth := depth + 1;
      } else if c == ')' {
        depth := depth - 1;
      } else if c == ':' && depth == 0 && i + 1 < |s| && s[i + 1] == ':' {
        last := i;
      }
      i := i + 1;
    }
    if last < 0 {
      return s;
    }
    var tail := FoldSpaces(s[last + 2..]);
    if IsCastTail(tail) {
      r := FoldSpaces(s[..last]);
    } else {
      r := s;
    }
  }

  // ---- NormalizeDefault ----

  /** One round of the peel loop. */
  function PeelOnce(s: string): string {
    Fold(StripTrailingCast(Fold(StripOuterParens(s))))
  }

  lemma PeelShrinks(s: string)
    requires Folded(s)
    ensures Folded(PeelOnce(s)) && (PeelOnce(s) == s || |PeelOnce(s)| < |s|)
  {
    var a := Fold(StripOuterParens(s));
    FoldFromLength(StripOuterParens(s), false, false);
    FoldIsFolded(StripOuterParens(s));
    FoldIsFolded(StripTrailingCast(a));
    FoldFixed(s);
    FoldFixed(a);
    if LastCast(a) >= 0 {
      FoldFromLength(a[..LastCast(a)], false, false);
      FoldIsFolded(a[..LastCast(a)]);
      FoldFixed(Fold(a[..LastCast(a)]));
    }
  }

  /** The fixed point the loop reaches. */
  function Peel(s: string): string
    requires Folded(s)
    decreases |s|
  {
    PeelShrinks(s);
    if PeelOnce(s) == s then s else Peel(PeelOnce(s))
  }

  function NormalizeDefault(raw: Option<string>): Option<string> {
    if raw.None? then None else
    var s := Fold(LowerOutside(Trim(raw.value)));
    FoldIsFolded(LowerOutside(Trim(raw.value)));
    if s == [] then None else
    var p := Peel(s);
    if p == [] || p == "null" then None else Some(p)
  }

  method NormalizeDefaultText(raw: Option<string>) returns (r: Option<string>)
    ensures r == NormalizeDefault(raw)
  {
    if raw.None? {
      return None;
    }
    var lowered := LowerOutsideQuotes(Trim(raw.value));
    var s := FoldSpaces(lowered);
    FoldIsFolded(lowered);
    if s == [] {
      return None;
    }
    var stable := false;
    while !stable
      invariant Folded(s) && Peel(s) == Peel(Fold(LowerOutside(Trim(raw.value))))
      invariant stable ==> PeelOnce(s) == s
      decreases |s|, !stable
    {
      var prev := s;
      PeelShrinks(s);
      s := FoldSpaces(StripOuterParens(s));
      var cast := StripCast(s);
      s := FoldSpaces(cast);
      stable := s == prev;
    }
    if s == [] || s == "null" {
      return None;
    }
    return Some(s);
  }

  /** Text that lower-casing outside quotes leaves alone. */
  predicate LowerStable(s: string) { LowerOutside(s) == s }

  lemma StablePrefix(s: string, n: nat)
    requires n <= |s| && LowerStable(s)
    ensures LowerStable(s[..n])
  {
    LowerPrefix(s[..n], s[n..], None);
    assert s[..n] + s[n..] == s;
  }

  lemma StableFold(s: string)
    requires LowerStable(s)
    ensures LowerStable(Fold(s))
  {
    LowerFoldCommute(s, false, false, None);
  }

  lemma PeelStable(s: string)
    requires LowerStable(s)
    ensures LowerStable(PeelOnce(s))
  {
    var inner := StripOuterParens(s);
    if inner != s {
      assert s == ['('] + s[1..];
      assert LowerOutside(s)[1..] == LowerFrom(s[1..], None);
      assert LowerStable(s[1..]);
      StablePrefix(s[1..], |s| - 2);
      assert s[1..][..|s| - 2] == inner;
    }
    StableFold(inner);
    var a := Fold(inner);
    if LastCast(a) >= 0 {
      StablePrefix(a, LastCast(a));
      StableFold(a[..LastCast(a)]);
    }
    StableFold(StripTrailingCast(a));
  }

  /** The loop ends in a folded, case-stable fixed point. */
  lemma {:induction false} PeelFixed(s: string)
    requires Folded(s) && LowerStable(s)
    ensures Folded(Peel(s)) && LowerStable(Peel(s)) && PeelOnce(Peel(s)) == Peel(s)
    decreases |s|
  {
    PeelShrinks(s);
    if PeelOnce(s) != s {
      PeelStable(s);
      PeelFixed(PeelOnce(s));
    }
  }

  lemma NormalizeDefaultIdempotent(raw: Option<string>)
    ensures NormalizeDefault(NormalizeDefault(raw)) == NormalizeDefault(raw)
  {
    if raw.Some? {
      var t := LowerOutside(Trim(raw.value));
      LowerFromIdempotent(Trim(raw.value), None);
      StableFold(t);
      FoldIsFolded(t);
      PeelFixed(Fold(t));
      var p := Peel(Fold(t));
      FoldFixed(p);
      FoldedTrimmed(p);
    }
  }

  // ---- literalDefault (go/pkg/schemadiff/ddl.go) ----

  /** The default text DDL carries: white space folded, "" for none. */
  function LiteralDefault(raw: Option<string>): string {
    var d := Fold(Trim(if raw.Some? then raw.value else ""));
    if d == [] || Lower(d) == "null" then "" else d
  }

  /** The default clause a database keeps after executing that text. */
  function StoredDefault(raw: Option<string>): Option<string> {
    if LiteralDefault(raw) == "" then None else Some(LiteralDefault(raw))
  }

  lemma {:induction false} NoCast(b: string, i: nat, depth: int, quote: Option<char>)
    requires i <= |b| && Free(b, ':')
    ensures LastCastFrom(b, i, depth, quote, -1) == -1
    decreases |b| - i
  {
    if i < |b| {
      var c := b[i];
      NoCast(b, i + 1, if quote.None? && c == '(' then depth + 1 else if quote.None? && c == ')' then depth - 1 else depth, QuoteAfter(quote, c));
    }
  }

  /** Text without parentheses in front and without a cast is its own normal form. */
  lemma PlainPeels(s: string)
    requires Folded(s) && Free(s, ':') && s != [] && s[0] != '('
    ensures Peel(s) == s
  {
    hide Folded, Fold, Free, LastCastFrom, MatchingClose;
    NoCast(s, 0, 0, None);
    FoldFixed(s);
  }

  lemma NullPeels()
    ensures Folded("null") && Peel("null") == "null"
  {
    hide Peel;
    var s := "null";
    assert |s| == 4 && s[0] == 'n' && s[1] == 'u' && s[2] == 'l' && s[3] == 'l';
    PlainPeels(s);
  }

  lemma NullText(d: string)
    requires Lower(d) == "null"
    ensures LowerOutside(d) == "null"
  {
    assert forall i :: 0 <= i < 4 ==> LowerChar(d[i]) == "null"[i];
    LowerUnquoted(d);
  }

  /** Folding first changes neither the loop's start nor its end. */
  lemma FoldBeforeNormalize(t: string)
    ensures Fold(LowerOutside(Trim(Fold(t)))) == Fold(LowerOutside(t)) == LowerOutside(Fold(t))
  {
    FoldIsFolded(t);
    FoldedTrimmed(Fold(t));
    LowerFoldCommute(t, false, false, None);
    FoldIsFolded(LowerOutside(t));
    FoldFixed(Fold(LowerOutside(t)));
  }

  /** Emitting a default and reading it back compares equal to the original. */
  lemma DefaultSurvivesDdl(raw: Option<string>)
    ensures NormalizeDefault(Some(LiteralDefault(raw))) == NormalizeDefault(raw)
    ensures NormalizeDefault(StoredDefault(raw)) == NormalizeDefault(raw)
  {
    if raw.Some? {
      var t := Trim(raw.value);
      FoldBeforeNormalize(t);
      if Lower(Fold(t)) == "null" {
        NullText(Fold(t));
        NullPeels();
      }
    }
  }

  lemma {:induction false} LowerUnquoted(s: string)
    requires forall i :: 0 <= i < |s| ==> !IsQuote(LowerChar(s[i]))
    ensures LowerOutside(s) == Lower(s)
  {
    if s != [] {
      LowerUnquoted(s[1..]);
      assert Lower(s) == [LowerChar(s[0])] + Lower(s[1..]);
    }
  }
}
