/// What SQLite takes as a column's DEFAULT clause, and what the clause the generator
/// writes still denotes (go/pkg/schemadiff/ddl.go:291-372).
module Defaults {
  import opened Text
  import opened Normalize
  import TypeNames

  // ---- Literals ----

  /** Where the digits from position i end. */
  function DigitsEnd(s: string, i: nat): (e: nat)
    requires i <= |s|
    ensures i <= e <= |s|
    decreases |s| - i
  {
    if i < |s| && IsDigit(s[i]) then DigitsEnd(s, i + 1) else i
  }

  predicate AllDigits(s: string) { s != [] && forall i :: 0 <= i < |s| ==> IsDigit(s[i]) }

  predicate IsHexDigit(c: char) { IsDigit(c) || 'a' <= c <= 'f' || 'A' <= c <= 'F' }

  predicate AllHex(s: string) { forall i :: 0 <= i < |s| ==> IsHexDigit(s[i]) }

  predicate Exponent(s: string) {
    s == "" || ((s[0] == 'e' || s[0] == 'E')
                && AllDigits(if |s| > 1 && (s[1] == '+' || s[1] == '-') then s[2..] else s[1..]))
  }

  predicate Decimals(s: string) {
    var i := DigitsEnd(s, 0);
    var j := if i < |s| && s[i] == '.' then DigitsEnd(s, i + 1) else i;
    (i > 0 || j > 1) && Exponent(s[j..])
  }

  predicate HexInteger(s: string) { |s| > 2 && s[0] == '0' && (s[1] == 'x' || s[1] == 'X') && AllHex(s[2..]) }

  /** After the opening quote at i - 1: the quote closes at the very end, doubled quotes aside. */
  predicate QuotedFrom(b: string, i: nat, q: char)
    requires i <= |b|
    decreases |b| - i
  {
    if i == |b| then false
    else if b[i] != q then QuotedFrom(b, i + 1, q)
    else if i + 1 < |b| && b[i + 1] == q then QuotedFrom(b, i + 2, q)
    else i + 1 == |b|
  }

  predicate Quoted(s: string, q: char) { s != [] && s[0] == q && QuotedFrom(s, 1, q) }

  predicate BlobLiteral(s: string) {
    |s| > 2 && |s| % 2 == 1 && (s[0] == 'x' || s[0] == 'X') && s[1] == '\'' && s[|s| - 1] == '\'' && AllHex(s[2..|s| - 1])
  }

  predicate Bracketed(s: string) {
    |s| > 1 && s[0] == '[' && s[|s| - 1] == ']' && forall i :: 0 <= i < |s| - 1 ==> s[i] != ']'
  }

  predicate ClockWord(s: string) { Lower(s) in {"current_time", "current_date", "current_timestamp"} }

  predicate InWord(c: char) { IsWord(c) || c == '$' || c >= 128 as char }

  /** A bare word: TRUE, FALSE, or a name DEFAULT reads as a string. */
  predicate Word(s: string) { s != "" && !IsDigit(s[0]) && s[0] != '$' && forall i :: 0 <= i < |s| ==> InWord(s[i]) }

  predicate Term(s: string) {
    Decimals(s) || HexInteger(s) || Quoted(s, '\'') || BlobLiteral(s) || Lower(s) == "null" || ClockWord(s)
  }

  /** A name in double quotes, backquotes or brackets, which DEFAULT reads as a string. */
  predicate QuotedWord(s: string) { Quoted(s, '"') || Quoted(s, '`') || Bracketed(s) }

  predicate Signed(s: string) { s != [] && (s[0] == '+' || s[0] == '-') }

  // ---- Parentheses ----

  /** With `depth` parentheses and perhaps a quote open, the outermost closes at the very end. */
  predicate ClosesLast(s: string, i: nat, depth: nat, quote: Option<char>)
    requires i <= |s|
    decreases |s| - i
  {
    if i == |s| then false
    else if quote.Some? || IsQuote(s[i]) then ClosesLast(s, i + 1, depth, QuoteAfter(quote, s[i]))
    else if s[i] == '(' then ClosesLast(s, i + 1, depth + 1, None)
    else if s[i] == ')' && depth <= 1 then i + 1 == |s|
    else ClosesLast(s, i + 1, if s[i] == ')' then depth - 1 else depth, None)
  }

  predicate Parenthesised(s: string) { |s| > 1 && s[0] == '(' && ClosesLast(s, 1, 1, None) }

  // ---- The clause ----

  /** SQLite's DEFAULT takes a literal, a signed one, a word or quoted word, or one parenthesised expression. */
  predicate DefaultClause(d: string) {
    Term(d) || (Signed(d) && Term(TrimLeft(d[1..]))) || Word(d) || QuotedWord(d) || Parenthesised(d)
  }

  /** No clause, or one SQLite takes. */
  predicate ClauseOk(d: Option<string>) { d.None? || DefaultClause(d.value) }

  /** A value at hand, which ADD COLUMN asks of a default when there are rows: no clock, nothing to compute. */
  predicate AtHand(d: string)
    decreases |d|
  {
    || (Term(d) && !ClockWord(d)) || (Word(d) && !ClockWord(d)) || QuotedWord(d)
    || (Signed(d) && (TrimLeftLength(d[1..]); AtHand(TrimLeft(d[1..]))))
    || (Parenthesised(d) && (TrimLength(d[1..|d| - 1]); AtHand(Trim(d[1..|d| - 1]))))
  }

  predicate ValueAtHand(d: Option<string>) { d.None? || AtHand(d.value) }

  lemma TrimLength(s: string)
    ensures |Trim(s)| <= |s|
  {
    TrimLeftLength(s);
    TrimRightLength(TrimLeft(s));
  }

  // ---- What a quoted literal still denotes once the generator has written it ----

  /** Between the quotes of a literal: every quote doubled. */
  predicate Doubled(b: string) {
    b == [] || (if b[0] == '\'' then |b| > 1 && b[1] == '\'' && Doubled(b[2..]) else Doubled(b[1..]))
  }

  function Halved(b: string): string {
    if b == [] then [] else [b[0]] + Halved(if b[0] == '\'' && |b| > 1 then b[2..] else b[1..])
  }

  /** The string a quoted literal denotes. */
  function Denoted(s: string): string
    requires |s| > 1
  {
    Halved(s[1..|s| - 1])
  }

  lemma {:induction false} HalvedInjective(a: string, b: string)
    requires Doubled(a) && Doubled(b) && Halved(a) == Halved(b)
    ensures a == b
  {
    if a != [] && b != [] {
      var n := if a[0] == '\'' then 2 else 1;
      assert Halved(a)[0] == a[0] && Halved(b)[0] == b[0];
      assert Halved(a)[1..] == Halved(a[n..]) && Halved(b)[1..] == Halved(b[n..]);
      HalvedInjective(a[n..], b[n..]);
      assert a == a[..n] + a[n..] && b == b[..n] + b[n..];
    }
  }

  lemma {:induction false} QuotedBody(s: string, i: nat)
    requires i <= |s|
    ensures QuotedFrom(s, i, '\'') <==> i < |s| && s[|s| - 1] == '\'' && Doubled(s[i..|s| - 1])
    decreases |s| - i
  {
    if i < |s| {
      var b := s[i..|s| - 1];
      if i + 1 < |s| {
        assert b[1..] == s[i + 1..|s| - 1];
        QuotedBody(s, i + 1);
        if i + 2 < |s| {
          assert b[2..] == s[i + 2..|s| - 1];
        }
        QuotedBody(s, i + 2);
      }
    }
  }

  /** Folding the rest of a quoted literal keeps its quotes doubled. */
  lemma {:induction false} FoldDoubled(b: string, pending: bool) returns (r: string)
    requires Doubled(b)
    ensures FoldFrom(b + "'", true, pending) == r + "'" && Doubled(r)
  {
    var s := b + "'";
    if b == [] {
      r := if pending then " " else "";
    } else if IsSpace(b[0]) {
      assert s[1..] == b[1..] + "'";
      r := FoldDoubled(b[1..], true);
    } else {
      var n := if b[0] == '\'' then 2 else 1;
      assert s[1..] == b[1..] + "'" && s[n..] == b[n..] + "'";
      var rest := FoldDoubled(b[n..], false);
      assert n == 2 ==> s[1..][1..] == s[2..] && s[1..][0] == '\'';
      r := (if pending then " " else "") + b[..n] + rest;
      DoubledAfter(if pending then " " else "", b[..n], rest);
    }
  }

  lemma DoubledAfter(blank: string, head: string, rest: string)
    requires blank == "" || blank == " "
    requires head == "''" || (|head| == 1 && head[0] != '\'')
    requires Doubled(rest)
    ensures Doubled(blank + head + rest)
  {
    var r := head + rest;
    assert r[|head|..] == rest;
    assert Doubled(r);
    assert blank + head + rest == blank + r;
    assert (" " + r)[1..] == r;
  }

  /**
   * The DEFAULT clause the generator writes for a quoted literal denotes the same string exactly when the
   * literal has single blanks only: folding reaches inside the quotes.
   */
  lemma QuotedDefaultKept(d: string)
    requires Quoted(d, '\'')
    ensures Quoted(LiteralDefault(Some(d)), '\'')
    ensures Denoted(LiteralDefault(Some(d))) == Denoted(d) <==> Folded(d)
  {
    QuotedBody(d, 1);
    var b := d[1..|d| - 1];
    assert d == "'" + (b + "'");
    TrimmedEnds(d);
    var r := FoldDoubled(b, false);
    assert d[1..] == b + "'";
    var e := "'" + (r + "'");
    assert Fold(d) == e;
    assert Lower(e)[0] == '\'' && LiteralDefault(Some(d)) == e;
    assert e[1..|e| - 1] == r;
    QuotedBody(e, 1);
    if Denoted(e) == Denoted(d) {
      HalvedInjective(r, b);
      FoldIsFolded(d);
    }
    if Folded(d) {
      FoldFixed(d);
    }
  }

  /**
   * Nothing is written for blank text and for NULL; of any other default every character but the blanks is written as it
   * stands, letter case included, with single blanks.
   */
  lemma LiteralKeepsText(d: string)
    ensures var w := LiteralDefault(Some(d));
      && (w == "" <==> Solid(d) == "" || Lower(Fold(Trim(d))) == "null")
      && (w != "" ==> Folded(w) && Solid(w) == Solid(d))
  {
    hide Lower;
    SolidTrimLeft(d);
    SolidTrimRight(TrimLeft(d));
    SolidFold(Trim(d), false, false);
    FoldIsFolded(Trim(d));
    SolidOrBlank(Fold(Trim(d)));
  }

  lemma SolidOrBlank(s: string)
    requires Folded(s)
    ensures Solid(s) == "" <==> s == ""
  {
    if s != "" {
      assert !IsSpace(s[0]);
    }
  }

  /** Two blanks inside a literal become one; the comparison takes both texts for the same. */
  lemma BlanksLost()
    ensures var d := "'a  b'"; Quoted(LiteralDefault(Some(d)), '\'') && Denoted(LiteralDefault(Some(d))) != Denoted(d)
    ensures var d := "'a  b'"; NormalizeDefault(Some(LiteralDefault(Some(d)))) == NormalizeDefault(Some(d))
  {
    var d := "'a  b'";
    assert d[2] == ' ' && d[3] == ' ' && !Folded(d);
    QuotedBody(d, 1);
    assert d[1..|d| - 1] == "a  b";
    hide Folded, LiteralDefault, NormalizeDefault, Denoted;
    QuotedDefaultKept(d);
    DefaultSurvivesDdl(Some(d));
  }

  // ---- What the comparison makes of a default ----

  lemma {:induction false} QuotedKeepsCase(d: string, i: nat, q: char)
    requires i <= |d| && IsQuote(q) && QuotedFrom(d, i, q)
    ensures LowerFrom(d[i..], Some(q)) == d[i..]
    decreases |d| - i
  {
    assert d[i..] == [d[i]] + d[i + 1..];
    if d[i] != q {
      QuotedKeepsCase(d, i + 1, q);
    } else if i + 1 < |d| {
      assert d[i + 1..] == [d[i + 1]] + d[i + 2..];
      QuotedKeepsCase(d, i + 2, q);
    }
  }

  lemma {:induction false} QuotedNoCast(d: string, i: nat, q: char)
    requires i <= |d| && IsQuote(q) && QuotedFrom(d, i, q)
    ensures LastCastFrom(d, i, 0, Some(q), -1) == -1
    decreases |d| - i
  {
    if d[i] != q {
      QuotedNoCast(d, i + 1, q);
    } else if i + 1 < |d| {
      QuotedNoCast(d, i + 2, q);
    }
  }

  /** A quoted default with single blanks only is compared letter by letter: nothing in it changes. */
  lemma QuotedUnchanged(d: string, q: char)
    requires IsQuote(q) && Quoted(d, q) && Folded(d)
    ensures NormalizeDefault(Some(d)) == Some(d)
  {
    hide Folded, Fold, QuotedFrom, MatchingClose;
    FoldedTrimmed(d);
    FoldFixed(d);
    assert d == [q] + d[1..];
    QuotedKeepsCase(d, 1, q);
    QuotedNoCast(d, 1, q);
    assert LowerOutside(d) == d;
    assert d[0] != "null"[0];
  }

  lemma LiteralFolds(d: string)
    requires Quoted(d, '\'')
    ensures var w := LiteralDefault(Some(d)); Quoted(w, '\'') && Folded(w) && NormalizeDefault(Some(d)) == Some(w)
  {
    hide QuotedFrom, NormalizeDefault;
    QuotedDefaultKept(d);
    DefaultSurvivesDdl(Some(d));
    var w := LiteralDefault(Some(d));
    FoldIsFolded(Trim(d));
    QuotedUnchanged(w, '\'');
  }

  lemma SameLiteral(d: string, e: string)
    requires Quoted(d, '\'') && Quoted(e, '\'') && Denoted(d) == Denoted(e)
    ensures d == e
  {
    QuotedBody(d, 1);
    QuotedBody(e, 1);
    HalvedInjective(d[1..|d| - 1], e[1..|e| - 1]);
    assert d == "'" + d[1..|d| - 1] + "'" && e == "'" + e[1..|e| - 1] + "'";
  }

  /**
   * Quoted literals compare equal exactly when the clauses written for them denote the same string;
   * with single blanks only, exactly when they themselves do, capitals and small letters apart.
   */
  lemma LiteralsCompare(d: string, e: string)
    requires Quoted(d, '\'') && Quoted(e, '\'')
    ensures Quoted(LiteralDefault(Some(d)), '\'') && Quoted(LiteralDefault(Some(e)), '\'')
    ensures NormalizeDefault(Some(d)) == NormalizeDefault(Some(e))
      <==> Denoted(LiteralDefault(Some(d))) == Denoted(LiteralDefault(Some(e)))
    ensures Folded(d) && Folded(e) ==>
      (NormalizeDefault(Some(d)) == NormalizeDefault(Some(e)) <==> Denoted(d) == Denoted(e))
  {
    hide Folded, LiteralDefault, NormalizeDefault, Halved;
    LiteralFolds(d);
    LiteralFolds(e);
    var v, w := LiteralDefault(Some(d)), LiteralDefault(Some(e));
    if Denoted(v) == Denoted(w) {
      SameLiteral(v, w);
    }
    if Folded(d) && Folded(e) {
      QuotedUnchanged(d, '\'');
      QuotedUnchanged(e, '\'');
      if Denoted(d) == Denoted(e) {
        SameLiteral(d, e);
      }
    }
  }

  // ---- Without quotes ----

  lemma {:induction false} TrimLeftLower(s: string)
    ensures TrimLeft(Lower(s)) == Lower(TrimLeft(s))
  {
    if s != [] && IsSpace(s[0]) {
      assert Lower(s)[1..] == Lower(s[1..]);
      TrimLeftLower(s[1..]);
    }
  }

  lemma {:induction false} TrimRightLower(s: string)
    ensures TrimRight(Lower(s)) == Lower(TrimRight(s))
  {
    if s != [] && IsSpace(s[|s| - 1]) {
      assert Lower(s)[..|s| - 1] == Lower(s[..|s| - 1]);
      TrimRightLower(s[..|s| - 1]);
    }
  }

  predicate Unquoted(s: string) { forall i :: 0 <= i < |s| ==> !IsQuote(s[i]) }

  lemma {:induction false} TrimLeftPart(s: string)
    ensures exists n :: 0 <= n <= |s| && TrimLeft(s) == s[n..]
  {
    if s != [] && IsSpace(s[0]) {
      TrimLeftPart(s[1..]);
      var n :| 0 <= n <= |s[1..]| && TrimLeft(s[1..]) == s[1..][n..];
      assert TrimLeft(s) == s[n + 1..];
    } else {
      assert TrimLeft(s) == s[0..];
    }
  }

  lemma {:induction false} TrimRightPart(s: string)
    ensures exists n :: 0 <= n <= |s| && TrimRight(s) == s[..n]
  {
    if s != [] && IsSpace(s[|s| - 1]) {
      TrimRightPart(s[..|s| - 1]);
      var n :| 0 <= n <= |s| - 1 && TrimRight(s[..|s| - 1]) == s[..|s| - 1][..n];
      assert TrimRight(s) == s[..n];
    } else {
      assert TrimRight(s) == s[..|s|];
    }
  }

  lemma TrimUnquoted(s: string)
    requires Unquoted(s)
    ensures Unquoted(Trim(s))
  {
    TrimLeftPart(s);
    TrimRightPart(TrimLeft(s));
  }

  lemma LowerBare(s: string)
    requires Unquoted(s)
    ensures Unquoted(Lower(s)) && LowerOutside(s) == Lower(s)
  {
    assert forall i :: 0 <= i < |s| ==> LowerChar(s[i]) == s[i] || 'a' <= LowerChar(s[i]) <= 'z';
    LowerUnquoted(s);
  }

  /** Without quotes of either kind the case of a default does not matter. */
  lemma CaseUnseen(d: string, e: string)
    requires Unquoted(d) && Unquoted(e) && Lower(d) == Lower(e)
    ensures NormalizeDefault(Some(d)) == NormalizeDefault(Some(e))
  {
    TrimUnquoted(d);
    TrimUnquoted(e);
    LowerBare(Trim(d));
    LowerBare(Trim(e));
    TrimLeftLower(d);
    TrimRightLower(TrimLeft(d));
    TrimLeftLower(e);
    TrimRightLower(TrimLeft(e));
  }

  predicate Mark(c: char) { IsQuote(c) || c == '(' || c == ')' || c == ':' }

  /** No quotes, parentheses or colons, and single blanks only. */
  predicate Plain(d: string) { d != [] && Folded(d) && forall i :: 0 <= i < |d| ==> !Mark(d[i]) }

  lemma LowerPlain(d: string)
    requires Plain(d)
    ensures Plain(Lower(d)) && LowerOutside(d) == Lower(d) && Trim(d) == d && Fold(Lower(d)) == Lower(d)
  {
    FoldedTrimmed(d);
    LowerBare(d);
    LowerFoldCommute(d, false, false, None);
    FoldFixed(d);
    FoldIsFolded(Lower(d));
    assert forall i :: 0 <= i < |d| ==> LowerChar(d[i]) == d[i] || 'a' <= LowerChar(d[i]) <= 'z';
  }

  function Known(s: string): Option<string> { if s == "null" then None else Some(s) }

  /** Such a default is compared by its lower-cased text; NULL in any case is no default. */
  lemma PlainCompares(d: string)
    requires Plain(d)
    ensures NormalizeDefault(Some(d)) == Known(Lower(d))
  {
    hide Fold, Folded, Peel, LowerOutside;
    LowerPlain(d);
    PlainPeels(Lower(d));
  }

  lemma {:induction false} NestedOnce(s: string, i: nat)
    requires 1 <= i <= |s| && s[0] == '(' && forall j :: 1 <= j < i ==> !Mark(s[j])
    ensures Nesting(s, 0, i) == (1, false)
  {
    if i > 1 {
      NestedOnce(s, i - 1);
    } else {
      assert Nesting(s, 0, 0) == (0, false);
    }
  }

  lemma {:induction false} ClosesAtEnd(s: string, i: nat)
    requires |s| > 1 && s[0] == '(' && s[|s| - 1] == ')' && (forall j :: 1 <= j < |s| - 1 ==> !Mark(s[j])) && i < |s|
    ensures CloseFrom(s, 0, i) == |s| - 1
    decreases |s| - i
  {
    if i < |s| - 1 {
      assert s[i] != ')';
      ClosesAtEnd(s, i + 1);
    } else {
      NestedOnce(s, i);
    }
  }

  lemma Between(a: string, s: string, b: string)
    requires Folded(s) && s != [] && (forall i :: 0 <= i < |a| ==> !IsSpace(a[i])) && (forall i :: 0 <= i < |b| ==> !IsSpace(b[i]))
    ensures Folded(a + s + b)
  {
    var r := a + s + b;
    assert !IsSpace(s[0]) && !IsSpace(s[|s| - 1]);
    forall i | 0 <= i < |r| && IsSpace(r[i]) ensures r[i] == ' ' && i + 1 < |r| && !IsSpace(r[i + 1]) && i > 0 {
      assert r[i] == s[i - |a|] && r[i + 1] == s[i - |a| + 1];
    }
  }

  /** Parentheses around it do not change what it is compared by. */
  lemma ParensUnseen(d: string)
    requires Plain(d)
    ensures NormalizeDefault(Some("(" + d + ")")) == NormalizeDefault(Some(d))
  {
    var l := Lower(d);
    var w, s := "(" + d + ")", "(" + l + ")";
    LowerPlain(d);
    Between("(", d, ")");
    Between("(", l, ")");
    FoldedTrimmed(w);
    FoldFixed(s);
    WrappedLower(d);
    assert forall j :: 1 <= j < |s| - 1 ==> s[j] == l[j - 1];
    ClosesAtEnd(s, 0);
    assert s[1..|s| - 1] == l;
    hide Fold, Folded, LowerOutside, CloseFrom, LastCastFrom, NormalizeDefault;
    PlainCompares(d);
    NoCast(l, 0, 0, None);
    assert PeelOnce(s) == l;
    PlainPeels(l);
    ParensNormal(w, s, l);
  }

  lemma WrappedLower(d: string)
    requires Plain(d)
    ensures LowerOutside("(" + d + ")") == "(" + Lower(d) + ")"
  {
    var w := "(" + d + ")";
    assert forall i :: 0 <= i < |w| ==> w[i] == '(' || w[i] == ')' || w[i] == d[i - 1];
    LowerBare(w);
    LowerConcat("(" + d, ")");
    LowerConcat("(", d);
    assert Lower("(") == "(" && Lower(")") == ")";
  }

  lemma ParensNormal(w: string, s: string, l: string)
    requires Trim(w) == w && LowerOutside(w) == s && Fold(s) == s && Folded(s) && s != [] && PeelOnce(s) == l && Folded(l) && l != [] && Peel(l) == l && l != s
    ensures NormalizeDefault(Some(w)) == Known(l)
  {
    hide Fold, Folded, LowerOutside, PeelOnce;
  }

  // ---- Casts ----

  /** A quoted literal with single blanks, or plain text. */
  predicate Atom(d: string) { Folded(d) && (Quoted(d, '\'') || Plain(d)) }

  lemma {:induction false} PastPlain(w: string, i: nat, end: nat, last: int)
    requires i <= end <= |w| && -1 <= last < |w| && forall j :: i <= j < end ==> !Mark(w[j])
    ensures LastCastFrom(w, i, 0, None, last) == LastCastFrom(w, end, 0, None, last)
    decreases end - i
  {
    if i < end {
      PastPlain(w, i + 1, end, last);
    }
  }

  lemma {:induction false} PastQuoted(d: string, w: string, i: nat)
    requires i <= |d| <= |w| && w[..|d|] == d && QuotedFrom(d, i, '\'')
    ensures LastCastFrom(w, i, 0, Some('\''), -1) == LastCastFrom(w, |d|, 0, None, -1)
    decreases |d| - i
  {
    assert w[i] == d[i];
    if d[i] != '\'' {
      PastQuoted(d, w, i + 1);
    } else if i + 1 < |d| {
      assert w[i + 1] == d[i + 1];
      PastQuoted(d, w, i + 2);
    }
  }

  /** Quoted text in front comes through lower-casing as it is. */
  lemma {:induction false} QuotedInFront(d: string, i: nat, rest: string)
    requires i <= |d| && QuotedFrom(d, i, '\'')
    ensures LowerFrom(d[i..] + rest, Some('\'')) == d[i..] + LowerFrom(rest, None)
    decreases |d| - i
  {
    var s := d[i..] + rest;
    assert s[0] == d[i] && s[1..] == d[i + 1..] + rest && d[i..] == [d[i]] + d[i + 1..];
    if d[i] != '\'' {
      QuotedInFront(d, i + 1, rest);
    } else if i + 1 < |d| {
      assert s[1..][0] == d[i + 1] && s[1..][1..] == d[i + 2..] + rest && d[i + 1..] == [d[i + 1]] + d[i + 2..];
      QuotedInFront(d, i + 2, rest);
    } else {
      assert s[1..] == rest && d[i + 1..] == [];
    }
  }

  lemma {:induction false} LowerFromConcat(a: string, b: string)
    requires Unquoted(a)
    ensures LowerFrom(a + b, None) == Lower(a) + LowerFrom(b, None)
  {
    if a == [] {
      assert a + b == b;
    } else {
      assert (a + b)[1..] == a[1..] + b;
      LowerFromConcat(a[1..], b);
      assert Lower(a) == [LowerChar(a[0])] + Lower(a[1..]);
    }
  }

  lemma LowerCast(t: string)
    requires Unquoted(t)
    ensures LowerFrom("::" + t, None) == "::" + Lower(t)
  {
    hide LowerFrom, Lower;
    LowerFromConcat("::" + t, "");
    assert "::" + t + "" == "::" + t;
    NothingLeft();
    LowerConcat("::", t);
  }

  lemma NothingLeft()
    ensures LowerFrom("", None) == "" && Lower("::") == "::"
  {
  }

  /** Lower-casing leaves the cast behind an atom in place. */
  lemma CastLowered(d: string, t: string)
    requires Atom(d) && Plain(t)
    ensures LowerOutside(d + "::" + t) == LowerOutside(d) + "::" + Lower(t)
  {
    hide Folded, LowerFrom, Lower, QuotedFrom, LastCastFrom;
    var rest := "::" + t;
    var w := d + rest;
    assert w == d + "::" + t && w[..|d|] == d && w[|d|..] == rest;
    LowerCast(t);
    if Plain(d) {
      LowerFromConcat(d, rest);
      LowerBare(d);
    } else {
      assert w[1..] == d[1..] + rest;
      QuotedInFront(d, 1, rest);
      QuotedKeepsCase(d, 1, '\'');
      QuoteStays(d);
      QuoteStays(w);
    }
  }

  lemma QuoteStays(d: string)
    requires d != [] && d[0] == '\''
    ensures LowerOutside(d) == "'" + LowerFrom(d[1..], Some('\''))
  {
  }

  /** The scan finds the cast behind an atom. */
  lemma CastFound(d: string, t: string)
    requires Atom(d) && Plain(t)
    ensures LastCast(d + "::" + t) == |d|
  {
    hide Folded, QuotedFrom, LastCastFrom;
    var w := d + "::" + t;
    assert w[..|d|] == d && w[|d|] == ':' && w[|d| + 1] == ':';
    assert forall j :: 0 <= j < |t| ==> w[|d| + 2 + j] == t[j];
    if Plain(d) {
      assert forall j :: 0 <= j < |d| ==> w[j] == d[j];
      PastPlain(w, 0, |d|, -1);
    } else {
      assert w[0] == d[0];
      PastQuoted(d, w, 1);
      QuoteOpens(w);
    }
    PastPlain(w, |d| + 2, |w|, |d|);
    ColonsScanned(w, |d|);
  }

  lemma QuoteOpens(w: string)
    requires w != [] && w[0] == '\''
    ensures LastCast(w) == LastCastFrom(w, 1, 0, Some('\''), -1)
  {
  }

  lemma ColonsScanned(w: string, n: nat)
    requires n + 2 < |w| && w[n] == ':' && w[n + 1] == ':' && w[n + 2] != ':' && LastCastFrom(w, n + 2, 0, None, n) == LastCastFrom(w, |w|, 0, None, n)
    ensures LastCastFrom(w, n, 0, None, -1) == n
  {
    assert LastCastFrom(w, n + 1, 0, None, n) == LastCastFrom(w, n + 2, 0, None, n);
  }

  lemma Joined(a: string, b: string)
    requires Folded(a) && Folded(b) && a != [] && b != []
    ensures Folded(a + "::" + b)
  {
    var r := a + "::" + b;
    assert !IsSpace(a[0]) && !IsSpace(a[|a| - 1]) && !IsSpace(b[0]) && !IsSpace(b[|b| - 1]);
    forall i | 0 <= i < |r| && IsSpace(r[i]) ensures r[i] == ' ' && i + 1 < |r| && !IsSpace(r[i + 1]) && i > 0 {
      if i < |a| {
        assert r[i] == a[i] && r[i + 1] == a[i + 1];
      } else {
        assert r[i] == b[i - |a| - 2] && r[i + 1] == b[i - |a| - 1];
      }
    }
  }

  /** An atom, lower-cased outside quotes, is the end of the loop. */
  lemma AtomPeels(d: string)
    requires Atom(d)
    ensures var l := LowerOutside(d); Atom(l) && Peel(l) == l && l[0] != '(' && NormalizeDefault(Some(d)) == Known(l)
  {
    hide Folded, Fold, Peel, QuotedFrom, LowerOutside, NormalizeDefault;
    if Plain(d) {
      LowerPlain(d);
      PlainCompares(d);
      PlainPeels(Lower(d));
    } else {
      QuotedPeels(d);
      QuotedUnchanged(d, '\'');
      assert d[0] != "null"[0];
    }
  }

  lemma QuotedPeels(d: string)
    requires Quoted(d, '\'') && Folded(d)
    ensures LowerOutside(d) == d && Peel(d) == d
  {
    hide Folded, Fold, QuotedFrom, MatchingClose;
    FoldFixed(d);
    assert d == ['\''] + d[1..];
    QuotedKeepsCase(d, 1, '\'');
    QuotedNoCast(d, 1, '\'');
  }

  /** A cast to a type behind it does not change what an atom is compared by. */
  lemma CastUnseen(d: string, t: string)
    requires Atom(d) && Plain(t) && IsCastTail(Lower(t))
    ensures NormalizeDefault(Some(d + "::" + t)) == NormalizeDefault(Some(d))
  {
    var l, w, u := LowerOutside(d), d + "::" + t, Lower(t);
    hide Folded, Fold, Peel, Quoted, LowerOutside, NormalizeDefault, IsCastTail, LastCast, Plain;
    AtomPeels(d);
    AtomNonEmpty(d);
    AtomNonEmpty(l);
    PlainParts(t);
    Joined(d, t);
    Joined(l, u);
    CastLowered(d, t);
    CastFound(l, u);
    FoldedTrimmed(w);
    var s := l + "::" + u;
    FoldFixed(s);
    FoldFixed(l);
    FoldFixed(u);
    assert s[|l| + 2..] == u && s[..|l|] == l && s[0] == l[0];
    assert PeelOnce(s) == l;
    ParensNormal(w, s, l);
  }

  lemma AtomNonEmpty(d: string)
    requires Atom(d)
    ensures d != [] && Folded(d)
  {
  }

  lemma PlainParts(t: string)
    requires Plain(t)
    ensures t != [] && Folded(t) && Plain(Lower(t)) && Lower(t) != [] && Folded(Lower(t))
  {
    hide Folded;
    LowerPlain(t);
  }

  lemma {:induction false} OneToken(t: string)
    requires forall i :: 0 <= i < |t| ==> t[i] != ' '
    ensures Split(t, ' ') == [t]
  {
    if t != [] {
      OneToken(t[1..]);
      assert t == [t[0]] + t[1..];
    }
  }

  lemma {:induction false} WholeWord(t: string)
    requires forall i :: 0 <= i < |t| ==> IsWord(t[i])
    ensures WordLength(t) == |t|
  {
    if t != [] {
      WholeWord(t[1..]);
    }
  }

  /** A single word is a type to cast to exactly when it does not begin with a digit. */
  lemma WordCast(t: string)
    requires t != [] && forall i :: 0 <= i < |t| ==> IsWord(t[i])
    ensures IsCastTail(Lower(t)) <==> !IsDigit(t[0])
  {
    var u := Lower(t);
    assert forall i :: 0 <= i < |u| ==> IsWord(u[i]) && u[i] != ' ';
    OneToken(u);
    WholeWord(u);
    assert u[..|u|] == u && u[|u|..] == [];
    assert Split(u, ' ')[0] == u;
  }

  /** A type's size in parentheses and an array's brackets belong to it. */
  lemma SizedCast(w: string, x: string, body: string)
    requires w != [] && ('a' <= w[0] <= 'z' || w[0] == '_') && forall i :: 0 <= i < |w| ==> IsWord(w[i])
    requires Free(body, ' ') && (x == "" || x == "[]" || x == "(" + body + ")" || x == "(" + body + ")[]")
    ensures IsCastTail(w + x)
  {
    var t := w + x;
    assert x != [] ==> !IsWord(x[0]);
    TypeNames.StemConcat(w, x);
    assert forall i :: 0 <= i < |x| && x[i] == ' ' ==> 1 <= i < 1 + |body| && body[i - 1] == ' ';
    assert forall i :: 0 <= i < |t| ==> t[i] != ' ';
    OneToken(t);
    assert Split(t, ' ')[0] == t;
  }

  /** What is no type stays: the whole text is compared. */
  lemma NoCastSeen(d: string, t: string)
    requires Atom(d) && Plain(t) && !IsCastTail(Lower(t))
    ensures NormalizeDefault(Some(d + "::" + t)) == Some(LowerOutside(d) + "::" + Lower(t))
  {
    var l, w, u := LowerOutside(d), d + "::" + t, Lower(t);
    hide Folded, Fold, Quoted, LowerOutside, IsCastTail, LastCast, Plain;
    AtomPeels(d);
    AtomNonEmpty(d);
    AtomNonEmpty(l);
    PlainParts(t);
    Joined(d, t);
    Joined(l, u);
    CastLowered(d, t);
    CastFound(l, u);
    FoldedTrimmed(w);
    var s := l + "::" + u;
    FoldFixed(s);
    FoldFixed(u);
    assert s[|l| + 2..] == u && s[0] == l[0];
    assert s[|l|] == ':';
  }
}
