/// NormalizeType (go/pkg/schemadiff/normalize.go:55-254): the literal every
/// column type is compared by, and its stability under a second pass.
module TypeNames {
  import opened Text
  import opened Sequences
  import opened Normalize

  datatype DatabaseKind = Sqlite | MySql | Postgres | MsSql | Oracle | Redis

  // ---- squeezePunct ----

  predicate Opens(c: char) { c == '(' || c == '[' || c == ',' }

  predicate Closes(c: char) { c == '(' || c == ')' || c == '[' || c == ']' || c == ',' }

  /** What squeezePunct emits for the rest of the input, after writing `prev`. */
  function SqueezeFrom(s: string, prev: Option<char>): string
    decreases |s|
  {
    if s == [] then []
    else if !IsSpace(s[0]) then [s[0]] + SqueezeFrom(s[1..], Some(s[0]))
    else if prev.None? then SqueezeFrom(s[1..], None)
    else
      TrimLeftLength(s);
      var rest := TrimLeft(s);
      if Opens(prev.value) || (rest != [] && Closes(rest[0])) then SqueezeFrom(rest, prev)
      else [' '] + SqueezeFrom(rest, Some(' '))
  }

  lemma SqueezeNext(s: string, i: nat, prev: Option<char>)
    requires i < |s|
    ensures SqueezeFrom(s[i..], prev) ==
            if !IsSpace(s[i]) then [s[i]] + SqueezeFrom(s[i + 1..], Some(s[i]))
            else if prev.None? then SqueezeFrom(s[i + 1..], None)
            else var rest := TrimLeft(s[i..]);
                 if Opens(prev.value) || (rest != [] && Closes(rest[0])) then SqueezeFrom(rest, prev)
                 else [' '] + SqueezeFrom(rest, Some(' '))
  {
    hide IsSpace, Opens, Closes, TrimLeft;
    assert s[i..] == [s[i]] + s[i + 1..];
  }

  /** Where the blanks from position i end. */
  method BlanksEnd(s: string, i: nat) returns (j: nat)
    requires i <= |s|
    ensures i <= j <= |s| && s[j..] == TrimLeft(s[i..])
  {
    hide IsSpace;
    j := i;
    while j < |s| && IsSpace(s[j])
      invariant i <= j <= |s|
      invariant TrimLeft(s[j..]) == TrimLeft(s[i..])
    {
      assert s[j..][1..] == s[j + 1..];
      j := j + 1;
    }
    assert j < |s| ==> s[j..][0] == s[j];
  }

  method SqueezePunct(s: string) returns (out: string)
    ensures out == SqueezeFrom(s, None)
  {
    out := [];
    var i := 0;
    assert s[0..] == s && forall p :: SqueezeFrom("", p) == "";
    hide IsSpace, Opens, Closes, TrimLeft, SqueezeFrom, Last;
    assert Last([]) == None by { LastIs([]); }
    while i < |s|
      invariant 0 <= i <= |s|
      invariant out + SqueezeFrom(s[i..], Last(out)) == SqueezeFrom(s, None)
    {
      SqueezeNext(s, i, Last(out));
      if !IsSpace(s[i]) {
        Written(out, s[i], SqueezeFrom(s[i + 1..], Some(s[i])));
        out := out + [s[i]];
        i := i + 1;
      } else if out == [] {
        LastIs(out);
        i := i + 1;
      } else {
        LastIs(out);
        var prev := out[|out| - 1];
        var j := BlanksEnd(s, i);
        BlanksSkipped(s, i, j);
        var next := if j < |s| then s[j] else ' ';
        if !(Opens(prev) || Closes(next)) {
          Written(out, ' ', SqueezeFrom(s[j..], Some(' ')));
          out := out + [' '];
        }
        i := j;
      }
    }
  }

  lemma LastIs(s: string)
    ensures Last(s) == if s == [] then None else Some(s[|s| - 1])
  {
  }

  lemma Written(out: string, c: char, rest: string)
    ensures out + ([c] + rest) == out + [c] + rest && Last(out + [c]) == Some(c)
  {
  }

  lemma BlanksSkipped(s: string, i: nat, j: nat)
    requires i < |s| && IsSpace(s[i]) && i <= j <= |s| && s[j..] == TrimLeft(s[i..])
    ensures j > i && (j < |s| ==> TrimLeft(s[i..])[0] == s[j]) && !Closes(' ')
  {
    assert s[i..][0] == s[i];
    TrimLeftLength(s[i..]);
  }

  function Last(s: string): Option<char> { if s == [] then None else Some(s[|s| - 1]) }

  /** No blank next to punctuation, single blanks only, none at the end. */
  predicate SqueezedAfter(s: string, prev: Option<char>) {
    && FoldedAfter(s, prev.Some? && !IsSpace(prev.value))
    && (s != [] && IsSpace(s[0]) ==> prev.Some? && !Opens(prev.value))
    && (forall i :: 0 <= i < |s| - 1 ==> !Clashes(s[i], s[i + 1]))
  }

  /** A blank beside punctuation. */
  predicate Clashes(c: char, d: char) { (IsSpace(c) && Closes(d)) || (Opens(c) && IsSpace(d)) }

  predicate Squeezed(s: string) { SqueezedAfter(s, None) }

  lemma SqueezedPrepend(c: char, rest: string, prev: Option<char>)
    requires !IsSpace(c) && SqueezedAfter(rest, Some(c))
    ensures SqueezedAfter([c] + rest, prev)
  {
    var r := [c] + rest;
    FoldedPrepend(c, rest);
    assert FoldedAfter(r, true);
    forall i | 0 <= i < |r| - 1 ensures !Clashes(r[i], r[i + 1]) {
      assert i > 0 ==> r[i] == rest[i - 1];
      assert r[i + 1] == rest[i];
      assert i > 0 ==> !Clashes(rest[i - 1], rest[i - 1 + 1]);
    }
  }

  lemma SqueezedBlank(rest: string, prev: char)
    requires SqueezedAfter(rest, Some(' ')) && rest != [] && !Closes(rest[0])
    requires !IsSpace(prev) && !Opens(prev)
    ensures SqueezedAfter([' '] + rest, Some(prev))
  {
    var r := [' '] + rest;
    assert forall i :: 0 < i < |r| ==> r[i] == rest[i - 1];
    forall i | 0 <= i < |r| - 1 ensures !Clashes(r[i], r[i + 1]) {
      assert i > 0 ==> !Clashes(rest[i - 1], rest[i - 1 + 1]);
    }
  }

  lemma {:induction false} SqueezeNormal(s: string, prev: Option<char>)
    requires FoldedAfter(s, prev.Some? && !IsSpace(prev.value))
    ensures SqueezedAfter(SqueezeFrom(s, prev), prev)
    ensures s != [] && !IsSpace(s[0]) ==> SqueezeFrom(s, prev) != [] && SqueezeFrom(s, prev)[0] == s[0]
    decreases |s|
  {
    if s == [] {
    } else if !IsSpace(s[0]) {
      FoldedTail(s, prev.Some? && !IsSpace(prev.value), 1);
      SqueezeNormal(s[1..], Some(s[0]));
      SqueezedPrepend(s[0], SqueezeFrom(s[1..], Some(s[0])), prev);
    } else {
      var rest := s[1..];
      assert TrimLeft(s) == TrimLeft(rest) == rest;
      assert !IsSpace(rest[0]);
      assert forall i :: 0 <= i < |rest| ==> rest[i] == s[i + 1];
      assert FoldedAfter(rest, false);
      if Opens(prev.value) || Closes(rest[0]) {
        SqueezeNormal(rest, prev);
      } else {
        SqueezeNormal(rest, Some(' '));
        SqueezedBlank(SqueezeFrom(rest, Some(' ')), prev.value);
      }
    }
  }

  lemma SqueezedTail(s: string, prev: Option<char>)
    requires s != [] && SqueezedAfter(s, prev)
    ensures SqueezedAfter(s[1..], Some(s[0]))
  {
    var t := s[1..];
    assert forall i :: 0 <= i < |t| ==> t[i] == s[i + 1];
    FoldedTail(s, prev.Some? && !IsSpace(prev.value), 1);
    assert t != [] ==> !Clashes(s[0], s[0 + 1]);
    forall i | 0 <= i < |t| - 1 ensures !Clashes(t[i], t[i + 1]) {
      assert !Clashes(s[i + 1], s[i + 1 + 1]);
    }
  }

  lemma {:induction false} SqueezeFixed(s: string, prev: Option<char>)
    requires SqueezedAfter(s, prev)
    ensures SqueezeFrom(s, prev) == s
    decreases |s|
  {
    if s == [] {
    } else if !IsSpace(s[0]) {
      SqueezedTail(s, prev);
      SqueezeFixed(s[1..], Some(s[0]));
      assert s == [s[0]] + s[1..];
    } else {
      SqueezedTail(s, prev);
      assert !Clashes(s[0], s[0 + 1]);
      assert s[0] == ' ' && !IsSpace(s[1]) && !Closes(s[1]);
      assert TrimLeft(s) == TrimLeft(s[1..]) == s[1..];
      SqueezeFixed(s[1..], Some(' '));
      assert s == [' '] + s[1..];
    }
  }

  lemma {:induction false} SqueezeLower(s: string, prev: Option<char>)
    requires Lower(s) == s
    ensures Lower(SqueezeFrom(s, prev)) == SqueezeFrom(s, prev)
    decreases |s|
  {
    if s != [] {
      assert forall i :: 0 <= i < |s| ==> LowerChar(s[i]) == s[i];
      assert Lower(s[1..]) == s[1..];
      if !IsSpace(s[0]) {
        SqueezeLower(s[1..], Some(s[0]));
        LowerConcat([s[0]], SqueezeFrom(s[1..], Some(s[0])));
      } else if prev.None? {
        SqueezeLower(s[1..], None);
      } else {
        TrimLeftLength(s);
        TrimLeftSuffix(s);
        var rest := TrimLeft(s);
        assert Lower(rest) == rest;
        SqueezeLower(rest, prev);
        SqueezeLower(rest, Some(' '));
        LowerConcat([' '], SqueezeFrom(rest, Some(' ')));
      }
    }
  }

  lemma {:induction false} TrimLeftSuffix(s: string)
    ensures |TrimLeft(s)| <= |s| && TrimLeft(s) == s[|s| - |TrimLeft(s)|..]
  {
    if s != [] && IsSpace(s[0]) {
      TrimLeftSuffix(s[1..]);
    }
  }

  lemma {:induction false} FoldLower(s: string, started: bool, pending: bool)
    requires Lower(s) == s
    ensures Lower(FoldFrom(s, started, pending)) == FoldFrom(s, started, pending)
  {
    if s != [] {
      assert forall i :: 0 <= i < |s| ==> LowerChar(s[i]) == s[i];
      assert Lower(s[1..]) == s[1..];
      if IsSpace(s[0]) {
        FoldLower(s[1..], started, started);
      } else {
        FoldLower(s[1..], true, false);
        LowerConcat([s[0]], FoldFrom(s[1..], true, false));
        LowerConcat([' '], [s[0]] + FoldFrom(s[1..], true, false));
        assert [' '] + [s[0]] + FoldFrom(s[1..], true, false) == [' '] + ([s[0]] + FoldFrom(s[1..], true, false));
      }
    }
  }

  // ---- The rules every kind shares ----

  function Common(raw: string): string {
    SqueezeFrom(Fold(Lower(Trim(raw))), None)
  }

  /** The normal form of the shared rules. */
  predicate Plain(s: string) { Squeezed(s) && IsLower(s) }

  predicate IsLower(s: string) { forall i :: 0 <= i < |s| ==> LowerChar(s[i]) == s[i] }

  lemma CommonIsPlain(raw: string)
    ensures Plain(Common(raw))
  {
    var l := Lower(Trim(raw));
    LowerIdempotent(Trim(raw));
    FoldIsFolded(l);
    FoldLower(l, false, false);
    SqueezeNormal(Fold(l), None);
    SqueezeLower(Fold(l), None);
    LowerEach(Common(raw));
  }

  lemma LowerEach(s: string)
    ensures Lower(s) == s <==> IsLower(s)
  {
    assert forall i :: 0 <= i < |s| ==> Lower(s)[i] == LowerChar(s[i]);
  }

  lemma PlainFixed(s: string)
    requires Plain(s)
    ensures Common(s) == s && Fold(s) == s
  {
    FoldedTrimmed(s);
    LowerEach(s);
    FoldFixed(s);
    SqueezeFixed(s, None);
  }

  // ---- Tokens of a squeezed literal ----

  predicate SpaceFree(t: string) { forall i :: 0 <= i < |t| ==> !IsSpace(t[i]) }

  /** Non-empty, blank-free tokens whose junctions carry no punctuation. */
  predicate Glued(ts: seq<string>) {
    && (forall i :: 0 <= i < |ts| ==> ts[i] != [] && SpaceFree(ts[i]) && IsLower(ts[i]))
    && (forall i :: 0 <= i < |ts| - 1 ==> !Opens(ts[i][|ts[i]| - 1]))
    && (forall i :: 0 < i < |ts| ==> !Closes(ts[i][0]))
  }

  lemma {:induction false} JoinSplit(s: string, c: char)
    ensures Join(Split(s, c), [c]) == s && forall i :: 0 <= i < |Split(s, c)| ==> Free(Split(s, c)[i], c)
  {
    if s != [] {
      JoinSplit(s[1..], c);
      var r := Split(s[1..], c);
      assert s == [s[0]] + s[1..];
      if s[0] == c {
        assert ([""] + r)[1..] == r;
      } else {
        var q := [[s[0]] + r[0]] + r[1..];
        assert q[1..] == r[1..];
        assert Free(r[0], c) && forall i :: 1 <= i < |q| ==> q[i] == r[i];
        if |r| > 1 {
          assert [s[0]] + r[0] + [c] + Join(r[1..], [c]) == [s[0]] + (r[0] + [c] + Join(r[1..], [c]));
        }
      }
    }
  }

  lemma {:induction false} SplitToken(t: string, c: char)
    requires Free(t, c)
    ensures Split(t, c) == [t]
  {
    if t != [] {
      assert Free(t[1..], c);
      SplitToken(t[1..], c);
      assert [t[0]] + t[1..] == t;
    }
  }

  lemma {:induction false} SplitConcat(t: string, rest: string, c: char)
    requires Free(t, c)
    ensures Split(t + [c] + rest, c) == [t] + Split(rest, c)
  {
    var s := t + [c] + rest;
    if t == [] {
      assert s[1..] == rest;
    } else {
      assert s[1..] == t[1..] + [c] + rest;
      SplitConcat(t[1..], rest, c);
      var r := Split(s[1..], c);
      assert [t[0]] + t[1..] == t;
      assert r[1..] == Split(rest, c);
    }
  }

  lemma {:induction false} SplitJoin(ts: seq<string>, c: char)
    requires ts != [] && forall i :: 0 <= i < |ts| ==> Free(ts[i], c)
    ensures Split(Join(ts, [c]), c) == ts
  {
    if |ts| == 1 {
      SplitToken(ts[0], c);
    } else {
      SplitJoin(ts[1..], c);
      SplitConcat(ts[0], Join(ts[1..], [c]), c);
      assert ts == [ts[0]] + ts[1..];
    }
  }

  function FirstBlank(s: string): (n: nat)
    ensures n <= |s| && Free(s[..n], ' ') && (n < |s| ==> s[n] == ' ')
  {
    if s == [] || s[0] == ' ' then 0 else
    assert s[1..][..FirstBlank(s[1..])] == s[..1 + FirstBlank(s[1..])][1..];
    1 + FirstBlank(s[1..])
  }

  /** Behind a blank, a squeezed literal is squeezed again. */
  lemma PlainTail(s: string, n: nat)
    requires Plain(s) && n < |s| && s[n] == ' '
    ensures 0 < n < |s| - 1 && Plain(s[n + 1..])
    ensures !Opens(s[n - 1]) && !Closes(s[n + 1]) && !IsSpace(s[n + 1])
  {
    assert IsSpace(s[n]);
    FoldedTail(s, false, n + 1);
    ClashTail(s, n + 1);
    assert !Clashes(s[n - 1], s[n - 1 + 1]) && !Clashes(s[n], s[n + 1]);
  }

  lemma ClashTail(s: string, n: nat)
    requires n <= |s| && forall i :: 0 <= i < |s| - 1 ==> !Clashes(s[i], s[i + 1])
    ensures forall i :: 0 <= i < |s[n..]| - 1 ==> !Clashes(s[n..][i], s[n..][i + 1])
  {
    forall i | 0 <= i < |s[n..]| - 1 ensures !Clashes(s[n..][i], s[n..][i + 1]) {
      assert !Clashes(s[n + i], s[n + i + 1]);
    }
  }

  /** A squeezed literal splits into glued tokens. */
  lemma {:induction false} SplitGlued(s: string)
    requires Plain(s) && s != []
    ensures Glued(Split(s, ' ')) && Split(s, ' ')[0][0] == s[0]
    decreases |s|
  {
    var n := FirstBlank(s);
    var t := s[..n];
    assert SpaceFree(t) && IsLower(t) by {
      assert forall i :: 0 <= i < n ==> t[i] == s[i];
    }
    if n == |s| {
      assert t == s;
      SplitToken(s, ' ');
    } else {
      PlainTail(s, n);
      var rest := s[n + 1..];
      assert s == t + [' '] + rest;
      SplitConcat(t, rest, ' ');
      SplitGlued(rest);
      GluedCons(t, Split(rest, ' '));
    }
  }

  lemma GluedCons(t: string, ts: seq<string>)
    requires t != [] && SpaceFree(t) && IsLower(t) && Glued(ts) && ts != []
    requires !Opens(t[|t| - 1]) && !Closes(ts[0][0])
    ensures Glued([t] + ts)
  {
    var r := [t] + ts;
    assert forall i :: 0 < i < |r| ==> r[i] == ts[i - 1];
  }

  lemma SqueezedAppend(t: string, rest: string)
    requires t != [] && SpaceFree(t) && !Opens(t[|t| - 1])
    requires rest != [] && Squeezed(rest) && !Closes(rest[0])
    ensures Squeezed(t + " " + rest)
  {
    var s := t + " " + rest;
    var n := |t|;
    assert forall i :: 0 <= i < n ==> s[i] == t[i];
    assert s[n] == ' ';
    assert forall i :: 0 <= i < |rest| ==> s[n + 1 + i] == rest[i];
    forall i | 0 <= i < |s| && IsSpace(s[i])
      ensures s[i] == ' ' && i + 1 < |s| && !IsSpace(s[i + 1]) && i != 0
    {
      if i > n {
        assert s[i] == rest[i - n - 1];
        assert s[i + 1] == rest[i - n];
      } else {
        assert i == n && s[i + 1] == rest[0];
      }
    }
    forall i | 0 <= i < |s| - 1 ensures !Clashes(s[i], s[i + 1]) {
      if i > n {
        assert !Clashes(rest[i - n - 1], rest[i - n - 1 + 1]);
        assert s[i] == rest[i - n - 1] && s[i + 1] == rest[i - n];
      } else if i == n {
        assert s[i + 1] == rest[0];
      }
    }
  }

  lemma {:induction false} GluedJoin(ts: seq<string>)
    requires Glued(ts)
    ensures Plain(Join(ts, " "))
    ensures ts != [] ==> Join(ts, " ") != [] && Join(ts, " ")[0] == ts[0][0]
  {
    if ts == [] {
    } else if |ts| == 1 {
    } else {
      var tail := ts[1..];
      assert Glued(tail) by {
        assert forall i :: 0 <= i < |tail| ==> tail[i] == ts[i + 1];
      }
      GluedJoin(tail);
      SqueezedAppend(ts[0], Join(tail, " "));
    }
  }

  // ---- MySQL: display widths and zerofill ----

  function DigitRun(t: string): (n: nat)
    ensures n <= |t| && (forall i :: 0 <= i < n ==> IsDigit(t[i])) && (n < |t| ==> !IsDigit(t[n]))
  {
    if t == [] || !IsDigit(t[0]) then 0 else 1 + DigitRun(t[1..])
  }

  predicate AllDigits(s: string) { s != [] && forall i :: 0 <= i < |s| ==> IsDigit(s[i]) }

  predicate IsIntType(w: string) {
    w in ["tinyint", "smallint", "mediumint", "int", "integer", "bigint"]
  }

  /** Where the word at the end of the output starts. */
  function TailStart(out: string): (k: nat)
    ensures k <= |out| && (forall i :: k <= i < |out| ==> IsWord(out[i])) && (k > 0 ==> !IsWord(out[k - 1]))
  {
    if out == [] || !IsWord(out[|out| - 1]) then |out| else
    var init := out[..|out| - 1];
    var k := TailStart(init);
    assert forall i :: k <= i < |init| ==> out[i] == init[i];
    k
  }

  function TailWord(out: string): string { out[TailStart(out)..] }

  /** At '(', the parenthesis holds a bare width, as the loop tests it. */
  predicate WidthAt(rest: string) {
    && rest != [] && rest[0] == '('
    && MatchingClose(rest, 0) >= 1
    && AllDigits(rest[1..MatchingClose(rest, 0)])
  }

  function StripFrom(out: string, rest: string): string
    decreases |rest|
  {
    if rest == [] then out
    else if WidthAt(rest) && IsIntType(TailWord(out)) then StripFrom(out, rest[MatchingClose(rest, 0) + 1..])
    else StripFrom(out + [rest[0]], rest[1..])
  }

  function StripIntWidth(s: string): string { Fold(StripFrom("", s)) }

  method WidthEnd(rest: string) returns (end: nat)
    requires rest != []
    ensures end > 0 <==> WidthAt(rest)
    ensures end > 0 ==> end == MatchingClose(rest, 0) + 1
  {
    end := 0;
    if rest[0] == '(' {
      var close := FindMatchingClose(rest, 0);
      if close >= 0 && AllDigits(rest[1..close]) {
        end := close + 1;
      }
    }
  }

  method StripMySqlIntWidth(s: string) returns (r: string)
    ensures r == StripIntWidth(s)
  {
    var out := "";
    var i := 0;
    while i < |s|
      invariant 0 <= i <= |s|
      invariant StripFrom(out, s[i..]) == StripFrom("", s)
      decreases |s| - i
    {
      ghost var rest := s[i..];
      var end := WidthEnd(s[i..]);
      if end > 0 && IsIntType(TailWord(out)) {
        assert rest[end..] == s[i + end..];
        i := i + end;
      } else {
        assert rest[1..] == s[i + 1..];
        out := out + [s[i]];
        i := i + 1;
      }
    }
    r := FoldSpaces(out);
  }

  lemma {:induction false} NestingOverDigits(b: string, n: nat)
    requires 1 <= n <= |b| && b[0] == '(' && forall i :: 1 <= i < n ==> IsDigit(b[i])
    ensures Nesting(b, 0, n) == (1, false)
  {
    if n > 1 {
      NestingOverDigits(b, n - 1);
    } else {
      assert Nesting(b, 0, 0) == (0, false);
    }
  }

  lemma {:induction false} CloseAfterDigits(b: string, n: nat, i: nat)
    requires 1 <= n < |b| && b[0] == '(' && b[n] == ')' && forall j :: 1 <= j < n ==> IsDigit(b[j])
    requires i <= n
    ensures CloseFrom(b, 0, i) == n
    decreases n - i
  {
    NestingOverDigits(b, n);
    if i < n {
      CloseAfterDigits(b, n, i + 1);
    }
  }

  /** A width is a run of digits closed at once: nothing further right matters. */
  lemma WidthShape(rest: string)
    requires rest != [] && rest[0] == '('
    ensures var n := DigitRun(rest[1..]);
      WidthAt(rest) <==> n >= 1 && n + 1 < |rest| && rest[n + 1] == ')'
    ensures WidthAt(rest) ==> MatchingClose(rest, 0) == DigitRun(rest[1..]) + 1
  {
    var n := DigitRun(rest[1..]);
    assert forall i :: 0 <= i < |rest| - 1 ==> rest[1..][i] == rest[i + 1];
    if n + 1 < |rest| && rest[n + 1] == ')' {
      CloseAfterDigits(rest, n + 1, 0);
      assert rest[1..n + 1] == rest[1..][..n];
    }
    if WidthAt(rest) {
      var c := MatchingClose(rest, 0);
      CloseIsClosing(rest, 0);
      assert rest[c] == ')';
      assert forall i :: 1 <= i < c ==> rest[1..c][i - 1] == rest[i];
      assert n == c - 1 by {
        assert !IsDigit(rest[1..][c - 1]);
        assert forall i :: 0 <= i < c - 1 ==> IsDigit(rest[1..][i]);
      }
    }
  }

  lemma {:induction false} CloseIsClosing(b: string, i: nat)
    requires i <= |b| && CloseFrom(b, 0, i) >= 0
    ensures ClosesAt(b, 0, CloseFrom(b, 0, i))
    decreases |b| - i
  {
    if !ClosesAt(b, 0, i) {
      CloseIsClosing(b, i + 1);
    }
  }

  lemma {:induction false} StripPrefix(out: string, rest: string)
    ensures HasPrefix(StripFrom(out, rest), out)
    decreases |rest|
  {
    if rest != [] {
      if WidthAt(rest) && IsIntType(TailWord(out)) {
        StripPrefix(out, rest[MatchingClose(rest, 0) + 1..]);
      } else {
        StripPrefix(out + [rest[0]], rest[1..]);
        var r := StripFrom(out, rest);
        assert r[..|out|] == r[..|out| + 1][..|out|] == (out + [rest[0]])[..|out|];
      }
    }
  }

  lemma {:induction false} TailStartIs(s: string, k: nat)
    requires k <= |s| && (forall i :: k <= i < |s| ==> IsWord(s[i])) && (k > 0 ==> !IsWord(s[k - 1]))
    ensures TailStart(s) == k
  {
    if k < |s| {
      TailStartIs(s[..|s| - 1], k);
    }
  }

  /** The word at the end never reaches back over a non-word character. */
  lemma TailWordAfter(p: string, c: char, o: string)
    requires !IsWord(c)
    ensures TailWord(p + [c] + o) == TailWord(o)
  {
    var s := p + [c] + o;
    var l := TailStart(o);
    assert forall i :: 0 <= i < |o| ==> s[|p| + 1 + i] == o[i];
    assert s[|p|] == c;
    TailStartIs(s, |p| + 1 + l);
    assert s[|p| + 1 + l..] == o[l..];
  }

  lemma {:induction false} StripAfter(p: string, c: char, o: string, rest: string)
    requires !IsWord(c)
    ensures StripFrom(p + [c] + o, rest) == p + [c] + StripFrom(o, rest)
    decreases |rest|
  {
    if rest != [] {
      TailWordAfter(p, c, o);
      if WidthAt(rest) && IsIntType(TailWord(o)) {
        StripAfter(p, c, o, rest[MatchingClose(rest, 0) + 1..]);
      } else {
        StripAfter(p, c, o + [rest[0]], rest[1..]);
        assert p + [c] + (o + [rest[0]]) == p + [c] + o + [rest[0]];
      }
    }
  }

  lemma WidthStopsAtBlank(a: string, b: string)
    requires a != []
    ensures WidthAt(a + " " + b) <==> WidthAt(a)
    ensures WidthAt(a) ==> MatchingClose(a + " " + b, 0) == MatchingClose(a, 0) < |a|
  {
    if a[0] == '(' {
      var s := a + " " + b;
      WidthShape(a);
      WidthShape(s);
      var n := DigitRun(a[1..]);
      assert forall i :: 0 <= i < |a| - 1 ==> s[1..][i] == a[1..][i];
      assert s[1..][|a| - 1] == ' ';
      DigitRunIs(s[1..], n);
    }
  }

  lemma {:induction false} DigitRunIs(t: string, n: nat)
    requires n < |t| && (forall i :: 0 <= i < n ==> IsDigit(t[i])) && !IsDigit(t[n])
    ensures DigitRun(t) == n
  {
    if n > 0 {
      DigitRunIs(t[1..], n - 1);
    }
  }

  lemma {:induction false} StripConcat(out: string, a: string, b: string)
    ensures StripFrom(out, a + " " + b) == StripFrom(StripFrom(out, a) + " ", b)
    decreases |a|
  {
    var s := a + " " + b;
    if a == [] {
      assert s[1..] == b;
    } else {
      WidthStopsAtBlank(a, b);
      if WidthAt(a) && IsIntType(TailWord(out)) {
        var e := MatchingClose(a, 0) + 1;
        assert s[e..] == a[e..] + " " + b;
        StripConcat(out, a[e..], b);
      } else {
        assert s[1..] == a[1..] + " " + b;
        StripConcat(out + [a[0]], a[1..], b);
      }
    }
  }

  function StripToken(t: string): string { StripFrom("", t) }

  lemma {:induction false} StripJoin(ts: seq<string>)
    ensures StripFrom("", Join(ts, " ")) == Join(Map(StripToken, ts), " ")
  {
    if |ts| > 1 {
      var tail := Join(ts[1..], " ");
      StripConcat("", ts[0], tail);
      var head := StripToken(ts[0]);
      StripAfter(head, ' ', "", tail);
      assert head + " " == head + [' '] + "";
      StripJoin(ts[1..]);
      assert Map(StripToken, ts)[1..] == Map(StripToken, ts[1..]);
    }
  }

  predicate TokenText(s: string) { SpaceFree(s) && IsLower(s) }

  lemma {:induction false} StripText(out: string, rest: string)
    requires TokenText(out) && TokenText(rest)
    ensures TokenText(StripFrom(out, rest)) && (out + rest != [] ==> StripFrom(out, rest) != [])
    decreases |rest|
  {
    hide MatchingClose, TailStart, Lower, IsIntType;
    if rest == [] {
    } else if WidthAt(rest) && IsIntType(TailWord(out)) {
      EmptyNoType(out);
      TokenTextTail(rest, MatchingClose(rest, 0) + 1);
      StripText(out, rest[MatchingClose(rest, 0) + 1..]);
    } else {
      TokenTextTail(rest, 1);
      StripText(out + [rest[0]], rest[1..]);
    }
  }

  lemma EmptyNoType(out: string)
    requires IsIntType(TailWord(out))
    ensures out != [] && IsWord(out[|out| - 1]) && !Opens(out[|out| - 1])
  {
    assert TailWord(out) != [];
  }

  predicate HarmlessEnd(s: string) { s != [] && !Opens(s[|s| - 1]) }

  lemma {:induction false} StripEnd(out: string, rest: string)
    requires if rest == [] then HarmlessEnd(out) else HarmlessEnd(rest)
    ensures HarmlessEnd(StripFrom(out, rest))
    decreases |rest|
  {
    hide MatchingClose, TailStart, IsIntType;
    if rest == [] {
    } else if WidthAt(rest) && IsIntType(TailWord(out)) {
      EmptyNoType(out);
      StripEnd(out, rest[MatchingClose(rest, 0) + 1..]);
    } else {
      StripEnd(out + [rest[0]], rest[1..]);
    }
  }

  lemma TokenTextTail(s: string, n: nat)
    requires TokenText(s) && n <= |s|
    ensures TokenText(s[n..])
  {
  }

  /** Digits behind an emitted parenthesis are no integer type. */
  lemma DigitsNoType(o: string, ds: string)
    requires o != [] && o[|o| - 1] == '(' && forall i :: 0 <= i < |ds| ==> IsDigit(ds[i])
    ensures !IsIntType(TailWord(o + ds))
  {
    assert o + ds == o[..|o| - 1] + ['('] + ds;
    TailWordAfter(o[..|o| - 1], '(', ds);
    TailStartIs(ds, 0);
    assert TailWord(ds) == ds;
  }

  /** Behind an emitted parenthesis the digits, and what ends them, come through. */
  lemma {:induction false} DigitsPass(o: string, rest: string, n: nat)
    requires o != [] && o[|o| - 1] == '(' && n <= |rest| && n <= DigitRun(rest) + 1
    ensures StripFrom(o, rest) == StripFrom(o + rest[..n], rest[n..])
  {
    if n == 0 {
      assert o + rest[..0] == o;
    } else {
      DigitsPass(o, rest, n - 1);
      DigitsNoType(o, rest[..n - 1]);
      var out, left := o + rest[..n - 1], rest[n - 1..];
      assert out + [left[0]] == o + rest[..n] && left[1..] == rest[n..];
      assert StripFrom(out, left) == StripFrom(out + [left[0]], left[1..]);
    }
  }

  lemma {:induction false} StripAgain(out: string, rest: string)
    ensures HasPrefix(StripFrom(out, rest), out)
    ensures StripFrom(out, StripFrom(out, rest)[|out|..]) == StripFrom(out, rest)
    decreases |rest|
  {
    StripPrefix(out, rest);
    if rest == [] {
    } else if WidthAt(rest) && IsIntType(TailWord(out)) {
      StripAgain(out, rest[MatchingClose(rest, 0) + 1..]);
    } else {
      var out' := out + [rest[0]];
      StripAgain(out', rest[1..]);
      var r := StripFrom(out, rest);
      var again := r[|out|..];
      assert again[0] == r[|out|] == out'[|out|];
      assert again[1..] == r[|out'|..];
      if WidthAt(again) && IsIntType(TailWord(out)) {
        NoNewWidth(out, rest);
      }
    }
  }

  lemma NoNewWidth(out: string, rest: string)
    requires rest != [] && rest[0] == '(' && !WidthAt(rest)
    ensures var r := StripFrom(out + ['('], rest[1..]);
      |r| > |out| && r[|out|] == '(' && !WidthAt(r[|out|..])
  {
    var o, body := out + ['('], rest[1..];
    var r, n := StripFrom(o, body), DigitRun(body);
    var m := if n < |body| then n + 1 else n;
    DigitsPass(o, body, m);
    StripPrefix(o + body[..m], body[m..]);
    var tail := r[|o| + m..];
    assert r == o + body[..m] + tail;
    assert r[|out|..] == ['('] + body[..m] + tail;
    assert m == |body| ==> body[m..] == [] && r == o + body[..m];
    assert rest == ['('] + body;
    WidthDecided(body, tail, m);
  }

  /** Whether a parenthesis is a width shows in its digits and the next character. */
  lemma WidthDecided(body: string, tail: string, m: nat)
    requires m == (if DigitRun(body) < |body| then DigitRun(body) + 1 else |body|)
    requires !WidthAt(['('] + body) && (m == |body| == DigitRun(body) ==> tail == [])
    ensures !WidthAt(['('] + body[..m] + tail)
  {
    hide WidthAt, DigitRun;
    var t := body[..m] + tail;
    assert (['('] + body)[1..] == body && (['('] + t)[1..] == t;
    assert ['('] + body[..m] + tail == ['('] + t;
    WidthIffShaped(['('] + body);
    WidthIffShaped(['('] + t);
    ShapeDecided(body, tail, m);
  }

  predicate WidthShaped(t: string) {
    var n := DigitRun(t);
    n >= 1 && n < |t| && t[n] == ')'
  }

  lemma WidthIffShaped(rest: string)
    requires rest != [] && rest[0] == '('
    ensures WidthAt(rest) <==> WidthShaped(rest[1..])
  {
    WidthShape(rest);
  }

  lemma ShapeDecided(body: string, tail: string, m: nat)
    requires m == (if DigitRun(body) < |body| then DigitRun(body) + 1 else |body|)
    requires !WidthShaped(body) && (m == |body| == DigitRun(body) ==> tail == [])
    ensures !WidthShaped(body[..m] + tail)
  {
    hide MatchingClose, StripFrom;
    var n, t := DigitRun(body), body[..m] + tail;
    if n < |body| {
      assert forall i :: 0 <= i < m ==> t[i] == body[i];
      DigitRunIs(t, n);
    } else {
      assert t == body;
    }
  }

  // ---- dropWord, replaceWord, stripOracleScale0 ----

  function Unlike(word: string): string -> bool { t => Stem(t) != word }

  function DropWord(s: string, word: string): string {
    Join(Filter(Split(s, ' '), Unlike(word)), " ")
  }

  function RenameToken(t: string, was: string, now: string): string {
    if Stem(t) == was then now + TokenTail(t) else t
  }

  function ReplaceWord(s: string, was: string, now: string): string {
    Join(Map(t => RenameToken(t, was, now), Split(s, ' ')), " ")
  }

  predicate AllZeros(s: string) { s != [] && forall i :: 0 <= i < |s| ==> s[i] == '0' }

  /** number(10,0) becomes number(10). */
  function UnscaleToken(t: string): string {
    var base, rest := Stem(t), TokenTail(t);
    if base !in ["number", "numeric"] || |rest| < 4 || rest[0] != '(' || rest[|rest| - 1] != ')' then t else
    var fields := Split(rest[1..|rest| - 1], ',');
    if |fields| == 2 && AllDigits(fields[0]) && AllZeros(fields[1]) then base + "(" + fields[0] + ")" else t
  }

  function StripOracleScale0(s: string): string {
    Join(Map(UnscaleToken, Split(s, ' ')), " ")
  }

  method DropWords(s: string, word: string) returns (r: string)
    ensures r == DropWord(s, word)
  {
    var parts, kept := Split(s, ' '), [];
    for i := 0 to |parts|
      invariant kept == Filter(parts[..i], Unlike(word))
    {
      assert parts[..i + 1][..i] == parts[..i];
      if Stem(parts[i]) != word {
        kept := kept + [parts[i]];
      }
    }
    assert parts[..|parts|] == parts;
    r := Join(kept, " ");
  }

  // ---- NormalizeType ----

  function NormalizeType(kind: DatabaseKind, raw: string): string {
    var s := Common(raw);
    match kind
    case MySql => Fold(DropWord(StripIntWidth(s), "zerofill"))
    case Oracle => Fold(StripOracleScale0(ReplaceWord(s, "bpchar", "char")))
    case _ => s
  }

  method NormalizeTypeText(kind: DatabaseKind, raw: string) returns (r: string)
    ensures r == NormalizeType(kind, raw)
  {
    var folded := FoldSpaces(Lower(Trim(raw)));
    r := SqueezePunct(folded);
    if kind == MySql {
      var narrow := StripMySqlIntWidth(r);
      var kept := DropWords(narrow, "zerofill");
      r := FoldSpaces(kept);
    }
    if kind == Oracle {
      r := FoldSpaces(StripOracleScale0(ReplaceWord(r, "bpchar", "char")));
    }
  }

  lemma GluedSpaceFree(ts: seq<string>)
    requires Glued(ts)
    ensures forall i :: 0 <= i < |ts| ==> Free(ts[i], ' ')
  {
    forall i | 0 <= i < |ts| ensures Free(ts[i], ' ') {
      assert SpaceFree(ts[i]);
    }
  }

  /** Keeping some of the glued tokens keeps them glued. */
  lemma {:induction false} FilterGlued(ts: seq<string>, p: string -> bool)
    requires Glued(ts)
    ensures Glued(Filter(ts, p))
  {
    if ts != [] {
      var init, last := ts[..|ts| - 1], ts[|ts| - 1];
      assert Glued(init);
      FilterGlued(init, p);
      FilterMember(init, p);
      var kept := Filter(init, p);
      forall i | 0 <= i < |kept| ensures !Opens(kept[i][|kept[i]| - 1]) {
        assert kept[i] in kept && kept[i] in init;
        var j :| 0 <= j < |init| && init[j] == kept[i];
        assert ts[j] == kept[i];
      }
      if kept != [] && p(last) {
        assert !Closes(last[0]);
      }
    }
  }

  /** Rewriting tokens one by one keeps them glued if the ends keep their kind. */
  lemma MapGlued(ts: seq<string>, f: string -> string)
    requires Glued(ts)
    requires forall t :: t in ts ==> TokenKept(t, f(t))
    ensures Glued(Map(f, ts))
  {
    forall i | 0 <= i < |ts| ensures TokenKept(ts[i], Map(f, ts)[i]) {
      assert ts[i] in ts;
    }
  }

  predicate TokenKept(t: string, r: string) {
    t != [] && SpaceFree(t) && IsLower(t) ==>
      && r != [] && SpaceFree(r) && IsLower(r)
      && (Closes(r[0]) ==> Closes(t[0]))
      && (Opens(r[|r| - 1]) ==> Opens(t[|t| - 1]))
  }

  lemma StripTokenKept(t: string)
    ensures TokenKept(t, StripToken(t)) && StripToken(StripToken(t)) == StripToken(t)
  {
    StripAgain("", t);
    if t != [] && SpaceFree(t) && IsLower(t) {
      StripText("", t);
      if HarmlessEnd(t) {
        StripEnd("", t);
      }
      assert !IsIntType(TailWord(""));
      assert "" + [t[0]] == [t[0]];
      assert StripFrom("", t) == StripFrom([t[0]], t[1..]);
      StripPrefix([t[0]], t[1..]);
      assert StripToken(t)[0] == StripToken(t)[..1][0] == t[0];
    }
  }

  lemma WidthsFixed(ts: seq<string>)
    requires Glued(ts) && forall t :: t in ts ==> StripToken(t) == t
    ensures StripIntWidth(Join(ts, " ")) == Join(ts, " ")
  {
    GluedJoin(ts);
    PlainFixed(Join(ts, " "));
    StripJoin(ts);
    assert forall i :: 0 <= i < |ts| ==> ts[i] in ts;
    assert Map(StripToken, ts) == ts;
  }

  lemma WordsFixed(ts: seq<string>, word: string)
    requires Glued(ts) && word != "" && forall t :: t in ts ==> Stem(t) != word
    ensures DropWord(Join(ts, " "), word) == Join(ts, " ")
  {
    if ts == [] {
      assert Split("", ' ') == [""];
      FilterAll([""], Unlike(word));
    } else {
      GluedSpaceFree(ts);
      SplitJoin(ts, ' ');
      assert forall i :: 0 <= i < |ts| ==> ts[i] in ts;
      FilterAll(ts, Unlike(word));
    }
  }

  /** Tokens that every MySQL rule leaves alone make a fixed literal. */
  lemma MySqlFixed(ts: seq<string>)
    requires Glued(ts) && forall t :: t in ts ==> StripToken(t) == t && Stem(t) != "zerofill"
    ensures NormalizeType(MySql, Join(ts, " ")) == Join(ts, " ")
  {
    GluedJoin(ts);
    PlainFixed(Join(ts, " "));
    WidthsFixed(ts);
    WordsFixed(ts, "zerofill");
  }

  lemma {:induction false} FilterAll<T>(s: seq<T>, p: T -> bool)
    requires forall i :: 0 <= i < |s| ==> p(s[i])
    ensures Filter(s, p) == s
  {
    if s != [] {
      FilterAll(s[..|s| - 1], p);
    }
  }

  /** Stripping widths works token by token. */
  lemma WidthsByToken(s: string) returns (us: seq<string>)
    requires Plain(s) && s != []
    ensures us == Map(StripToken, Split(s, ' ')) && Glued(us)
    ensures StripIntWidth(s) == Join(us, " ") && Split(Join(us, " "), ' ') == us
    ensures forall t :: t in us ==> StripToken(t) == t
  {
    var ts := Split(s, ' ');
    SplitGlued(s);
    JoinSplit(s, ' ');
    us := Map(StripToken, ts);
    forall t ensures TokenKept(t, StripToken(t)) && StripToken(StripToken(t)) == StripToken(t) {
      StripTokenKept(t);
    }
    MapGlued(ts, StripToken);
    StripJoin(ts);
    GluedJoin(us);
    PlainFixed(Join(us, " "));
    GluedSpaceFree(us);
    SplitJoin(us, ' ');
  }

  lemma MySqlByToken(s: string) returns (vs: seq<string>)
    requires Plain(s) && s != []
    ensures NormalizeType(MySql, s) == Join(vs, " ") && Glued(vs)
    ensures forall t :: t in vs ==> StripToken(t) == t && Stem(t) != "zerofill"
  {
    PlainFixed(s);
    var us := WidthsByToken(s);
    var keep := Unlike("zerofill");
    vs := Filter(us, keep);
    FilterMember(us, keep);
    FilterGlued(us, keep);
    GluedJoin(vs);
    PlainFixed(Join(vs, " "));
  }

  lemma MySqlIdempotent(raw: string)
    ensures NormalizeType(MySql, NormalizeType(MySql, raw)) == NormalizeType(MySql, raw)
  {
    var s := Common(raw);
    CommonIsPlain(raw);
    PlainFixed(s);
    if s == [] {
      MySqlFixed([]);
    } else {
      var vs := MySqlByToken(s);
      assert NormalizeType(MySql, raw) == NormalizeType(MySql, s);
      MySqlFixed(vs);
    }
  }

  // ---- Oracle ----

  function OracleToken(t: string): string { UnscaleToken(RenameToken(t, "bpchar", "char")) }

  lemma {:induction false} StemConcat(w: string, rest: string)
    requires (forall i :: 0 <= i < |w| ==> IsWord(w[i])) && (rest != [] ==> !IsWord(rest[0]))
    ensures Stem(w + rest) == w && TokenTail(w + rest) == rest
  {
    assert WordLength(w + rest) == |w| by {
      WordLengthIs(w + rest, |w|);
    }
  }

  lemma {:induction false} WordLengthIs(t: string, n: nat)
    requires n <= |t| && (forall i :: 0 <= i < n ==> IsWord(t[i])) && (n < |t| ==> !IsWord(t[n]))
    ensures WordLength(t) == n
  {
    if n > 0 {
      WordLengthIs(t[1..], n - 1);
    }
  }

  /** Another word in front of the same tail. */
  lemma HeadKept(head: string, now: string, rest: string)
    requires head != [] && now != [] && SpaceFree(now) && IsLower(now) && !Closes(now[0]) && !Opens(now[|now| - 1])
    ensures TokenKept(head + rest, now + rest)
  {
    var t, r := head + rest, now + rest;
    assert rest != [] ==> t[|t| - 1] == rest[|rest| - 1] && r[|r| - 1] == rest[|rest| - 1];
    assert forall i :: 0 <= i < |rest| ==> rest[i] == t[|head| + i];
  }

  lemma CharWord()
    ensures SpaceFree("char") && IsLower("char") && !Closes('c') && !Opens('r')
  {
  }

  lemma RenameKept(t: string)
    ensures var r := RenameToken(t, "bpchar", "char");
      TokenKept(t, r) && RenameToken(r, "bpchar", "char") == r
  {
    if Stem(t) == "bpchar" {
      var rest := TokenTail(t);
      StemConcat("char", rest);
      assert t == "bpchar" + rest;
      CharWord();
      hide TokenKept, SpaceFree, IsLower, Closes, Opens;
      HeadKept("bpchar", "char", rest);
    }
  }

  lemma UnscaleForm(t: string) returns (base: string, digits: string)
    requires UnscaleToken(t) != t
    ensures base == Stem(t) && base in ["number", "numeric"] && AllDigits(digits)
    ensures UnscaleToken(t) == base + ("(" + digits + ")")
    ensures HasPrefix(t, base) && |t| > 0 && t[|t| - 1] == ')'
  {
    hide IsLower, SpaceFree;
    base := Stem(t);
    var rest := TokenTail(t);
    digits := Split(rest[1..|rest| - 1], ',')[0];
    assert t == base + rest;
    assert base + "(" + digits + ")" == base + ("(" + digits + ")");
  }

  lemma UnscaleFixed(base: string, digits: string)
    requires base in ["number", "numeric"] && AllDigits(digits)
    ensures UnscaleToken(base + ("(" + digits + ")")) == base + ("(" + digits + ")")
    ensures Stem(base + ("(" + digits + ")")) == base
  {
    var tail := "(" + digits + ")";
    StemConcat(base, tail);
    assert tail[1..|tail| - 1] == digits;
    assert Free(digits, ',');
    SplitToken(digits, ',');
  }

  lemma UnscaleKept(t: string)
    ensures var r := UnscaleToken(t);
      TokenKept(t, r) && UnscaleToken(r) == r && (r == t || Stem(r) in ["number", "numeric"])
  {
    hide UnscaleToken, Stem;
    var r := UnscaleToken(t);
    if r != t {
      var base, digits := UnscaleForm(t);
      UnscaleFixed(base, digits);
      assert r[0] == base[0] == t[..|base|][0] == t[0];
    }
  }

  lemma OracleTokenKept(t: string)
    ensures TokenKept(t, OracleToken(t)) && OracleToken(OracleToken(t)) == OracleToken(t)
  {
    RenameKept(t);
    UnscaleKept(RenameToken(t, "bpchar", "char"));
  }

  lemma OracleByToken(s: string)
    requires Plain(s) && s != []
    ensures NormalizeType(Oracle, s) == Join(Map(OracleToken, Split(s, ' ')), " ")
    ensures Glued(Map(OracleToken, Split(s, ' ')))
  {
    var rename := t => RenameToken(t, "bpchar", "char");
    var ts := Split(s, ' ');
    PlainFixed(s);
    SplitGlued(s);
    forall t ensures TokenKept(t, rename(t)) {
      RenameKept(t);
    }
    MapGlued(ts, rename);
    var us := Map(rename, ts);
    GluedSpaceFree(us);
    SplitJoin(us, ' ');
    forall t ensures TokenKept(t, OracleToken(t)) {
      OracleTokenKept(t);
    }
    MapGlued(ts, OracleToken);
    assert Map(UnscaleToken, us) == Map(OracleToken, ts);
    GluedJoin(Map(OracleToken, ts));
    PlainFixed(Join(Map(OracleToken, ts), " "));
  }

  lemma OracleIdempotent(raw: string)
    ensures NormalizeType(Oracle, NormalizeType(Oracle, raw)) == NormalizeType(Oracle, raw)
  {
    hide Plain, Glued, TokenKept, Common;
    var s := Common(raw);
    CommonIsPlain(raw);
    PlainFixed(s);
    if s == [] {
      assert Split("", ' ') == [""];
      assert Map(t => RenameToken(t, "bpchar", "char"), [""]) == [""];
      assert Map(UnscaleToken, [""]) == [""];
    } else {
      OracleByToken(s);
      var us := Map(OracleToken, Split(s, ' '));
      GluedJoin(us);
      OracleByToken(Join(us, " "));
      GluedSpaceFree(us);
      SplitJoin(us, ' ');
      forall t ensures OracleToken(OracleToken(t)) == OracleToken(t) {
        OracleTokenKept(t);
      }
      assert Map(OracleToken, us) == us;
    }
  }

  /** A second pass changes nothing, whatever the database kind. */
  lemma NormalizeTypeIdempotent(kind: DatabaseKind, raw: string)
    ensures NormalizeType(kind, NormalizeType(kind, raw)) == NormalizeType(kind, raw)
  {
    match kind
    case MySql => MySqlIdempotent(raw);
    case Oracle => OracleIdempotent(raw);
    case _ =>
      CommonIsPlain(raw);
      PlainFixed(Common(raw));
  }
}
