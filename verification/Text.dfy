/// Text primitives shared by every component: ASCII folding, white space, the
/// byte order Go sorts strings by, joining, and decimal rendering.  A string is
/// a sequence of bytes written as characters.
module Text {

  datatype Option<+T> = None | Some(value: T)

  /** A computation that may be refused, as the program's (value, error) pairs, or that panics. */
  datatype Outcome<+T> = Ok(value: T) | Fail | Panic

  function Stopped<T, U>(o: Outcome<T>): Outcome<U>
    requires !o.Ok?
  {
    if o.Fail? then Fail else Panic
  }

  // ---- ASCII case folding and white space ----

  function LowerChar(c: char): char {
    if 'A' <= c <= 'Z' then (c as int + 32) as char else c
  }

  function Lower(s: string): (r: string)
    ensures |r| == |s|
  {
    seq(|s|, i requires 0 <= i < |s| => LowerChar(s[i]))
  }

  lemma LowerIdempotent(s: string)
    ensures Lower(Lower(s)) == Lower(s)
  {
  }

  lemma LowerConcat(a: string, b: string)
    ensures Lower(a + b) == Lower(a) + Lower(b)
  {
  }

  function LowerAll(names: seq<string>): (r: seq<string>)
    ensures |r| == |names|
  {
    seq(|names|, i requires 0 <= i < |names| => Lower(names[i]))
  }

  predicate IsSpace(c: char) {
    c == ' ' || c == '\t' || c == '\n' || c == '\r' || c == '\U{0B}' || c == '\U{0C}'
  }

  function TrimLeft(s: string): string {
    if s != [] && IsSpace(s[0]) then TrimLeft(s[1..]) else s
  }

  function TrimRight(s: string): string {
    if s != [] && IsSpace(s[|s| - 1]) then TrimRight(s[..|s| - 1]) else s
  }

  /** strings.TrimSpace on ASCII text. */
  function Trim(s: string): string {
    TrimRight(TrimLeft(s))
  }

  lemma TrimmedEnds(s: string)
    requires s != [] && !IsSpace(s[0]) && !IsSpace(s[|s| - 1])
    ensures Trim(s) == s
  {
  }

  /** Text that is not blank at either end is unchanged by lowering then trimming. */
  lemma TrimLower(s: string)
    requires Trim(s) == s
    ensures Trim(Lower(s)) == Lower(s)
  {
    if s != [] {
      TrimLeftLength(s);
      TrimRightLength(TrimLeft(s));
      assert TrimLeft(s) == s;
      assert !IsSpace(s[0]) && !IsSpace(s[|s| - 1]);
      TrimmedEnds(Lower(s));
    }
  }

  lemma {:induction false} TrimLeftLength(s: string)
    ensures |TrimLeft(s)| <= |s|
    ensures s != [] && IsSpace(s[0]) ==> |TrimLeft(s)| < |s|
  {
    if s != [] && IsSpace(s[0]) {
      TrimLeftLength(s[1..]);
    }
  }

  lemma {:induction false} TrimRightLength(s: string)
    ensures |TrimRight(s)| <= |s|
    ensures s != [] && IsSpace(s[|s| - 1]) ==> |TrimRight(s)| < |s|
  {
    if s != [] && IsSpace(s[|s| - 1]) {
      TrimRightLength(s[..|s| - 1]);
    }
  }

  // ---- The byte order on strings ----

  predicate Leq(a: string, b: string) {
    a == [] || (b != [] && (a[0] < b[0] || (a[0] == b[0] && Leq(a[1..], b[1..]))))
  }

  lemma {:induction false} LeqTotal(a: string, b: string)
    ensures Leq(a, b) || Leq(b, a)
  {
    if a != [] && b != [] {
      LeqTotal(a[1..], b[1..]);
    }
  }

  lemma {:induction false} LeqTransitive(a: string, b: string, c: string)
    requires Leq(a, b) && Leq(b, c)
    ensures Leq(a, c)
  {
    if a != [] && a[0] == b[0] == c[0] {
      LeqTransitive(a[1..], b[1..], c[1..]);
    }
  }

  lemma {:induction false} LeqAntisymmetric(a: string, b: string)
    requires Leq(a, b) && Leq(b, a)
    ensures a == b
  {
    if a != [] && b != [] {
      LeqAntisymmetric(a[1..], b[1..]);
      assert a == [a[0]] + a[1..] && b == [b[0]] + b[1..];
    }
  }

  /** The first differing character decides, whatever follows. */
  lemma {:induction false} LeqByPrefix(p: string, q: string, a: string, b: string)
    requires |p| == |q| && Leq(p + a, q + b)
    ensures Leq(p, q)
  {
    if p != [] && p[0] == q[0] {
      assert (p + a)[1..] == p[1..] + a && (q + b)[1..] == q[1..] + b;
      LeqByPrefix(p[1..], q[1..], a, b);
    }
  }

  // ---- Sorted keys of a map ----

  lemma {:induction false} LeastKeyExists(keys: set<string>) returns (k: string)
    requires keys != {}
    ensures k in keys && forall x :: x in keys ==> Leq(k, x)
  {
    var some :| some in keys;
    if keys == {some} {
      k := some;
      LeqTotal(k, k);
    } else {
      var rest := LeastKeyExists(keys - {some});
      LeqTotal(some, rest);
      LeqTotal(some, some);
      k := if Leq(some, rest) then some else rest;
      forall x | x in keys ensures Leq(k, x) {
        if x != some && k == some {
          LeqTransitive(some, rest, x);
        }
      }
    }
  }

  function LeastKey(keys: set<string>): (k: string)
    requires keys != {}
    ensures k in keys && forall x :: x in keys ==> Leq(k, x)
  {
    assert exists k :: k in keys && forall x :: x in keys ==> Leq(k, x) by {
      var k := LeastKeyExists(keys);
    }
    assert forall k, l :: k in keys && l in keys && Leq(k, l) && Leq(l, k) ==> k == l by {
      forall k, l | k in keys && l in keys && Leq(k, l) && Leq(l, k) ensures k == l {
        LeqAntisymmetric(k, l);
      }
    }
    var k :| k in keys && forall x :: x in keys ==> Leq(k, x);
    k
  }

  /** The keys in ascending order, each once. */
  function SortedKeys(keys: set<string>): (r: seq<string>)
    ensures forall x :: x in r <==> x in keys
    ensures |r| == |keys|
  {
    if keys == {} then [] else
    var k := LeastKey(keys);
    [k] + SortedKeys(keys - {k})
  }

  lemma FirstAscends(k: string, rest: seq<string>)
    requires forall j :: 0 <= j < |rest| ==> Leq(k, rest[j]) && k != rest[j]
    requires forall i, j :: 0 <= i < j < |rest| ==> Leq(rest[i], rest[j]) && rest[i] != rest[j]
    ensures forall i, j :: 0 <= i < j < |[k] + rest| ==> Leq(([k] + rest)[i], ([k] + rest)[j]) && ([k] + rest)[i] != ([k] + rest)[j]
  {
    hide Leq;
  }

  lemma {:induction false} SortedKeysAscend(keys: set<string>)
    ensures forall i, j :: 0 <= i < j < |SortedKeys(keys)| ==>
      Leq(SortedKeys(keys)[i], SortedKeys(keys)[j]) && SortedKeys(keys)[i] != SortedKeys(keys)[j]
  {
    hide LeastKey, Leq;
    if keys != {} {
      var k := LeastKey(keys);
      SortedKeysAscend(keys - {k});
      var rest := SortedKeys(keys - {k});
      forall j | 0 <= j < |rest| ensures Leq(k, rest[j]) && k != rest[j] {
        assert rest[j] in rest;
      }
      FirstAscends(k, rest);
    }
  }

  // ---- Joining ----

  function Join(parts: seq<string>, sep: string): string {
    if parts == [] then "" else
    if |parts| == 1 then parts[0] else
    parts[0] + sep + Join(parts[1..], sep)
  }

  predicate Free(s: string, c: char) {
    forall i :: 0 <= i < |s| ==> s[i] != c
  }

  lemma FirstOccurrence(a: string, b: string, x: string, y: string, c: char)
    requires Free(a, c) && Free(b, c) && a + [c] + x == b + [c] + y
    ensures a == b && x == y
  {
    var l, r := a + [c] + x, b + [c] + y;
    assert l[|a|] == c && r[|b|] == c;
    assert forall i :: 0 <= i < |a| ==> l[i] == a[i] != c;
    assert forall i :: 0 <= i < |b| ==> r[i] == b[i] != c;
    assert |a| == |b|;
    assert a == l[..|a|] && b == r[..|b|];
    assert x == l[|a| + 1..] && y == r[|b| + 1..];
  }

  predicate CommaFree(names: seq<string>) { forall i :: 0 <= i < |names| ==> Free(names[i], ',') }

  lemma FirstComma(a: seq<string>)
    requires |a| > 1
    ensures !Free(Join(a, ","), ',')
  {
    assert Join(a, ",")[|a[0]|] == ',';
  }

  /** A comma-joined list of comma-free names determines the list. */
  lemma {:induction false} JoinDetermines(a: seq<string>, b: seq<string>)
    requires a != [] && b != [] && CommaFree(a) && CommaFree(b) && Join(a, ",") == Join(b, ",")
    ensures a == b
  {
    if |a| > 1 {
      FirstComma(a);
    }
    if |b| > 1 {
      FirstComma(b);
    }
    if |a| > 1 {
      FirstOccurrence(a[0], b[0], Join(a[1..], ","), Join(b[1..], ","), ',');
      JoinDetermines(a[1..], b[1..]);
      assert a == [a[0]] + a[1..] && b == [b[0]] + b[1..];
    }
  }

  lemma JoinInjective(a: seq<string>, b: seq<string>)
    requires forall i :: 0 <= i < |a| ==> a[i] != [] && Free(a[i], ',')
    requires forall i :: 0 <= i < |b| ==> b[i] != [] && Free(b[i], ',')
    requires Join(a, ",") == Join(b, ",")
    ensures a == b
  {
    if a != [] && b != [] {
      JoinDetermines(a, b);
    }
  }

  // ---- Decimal rendering ----

  predicate IsDigit(c: char) { '0' <= c <= '9' }

  function Digit(d: nat): char
    requires d < 10
  {
    ('0' as int + d) as char
  }

  function DigitValue(c: char): nat
    requires IsDigit(c)
  {
    c as int - '0' as int
  }

  /** The shortest decimal literal of n: what fmt's %d and strconv print. */
  function Decimal(n: nat): (r: string)
    ensures r != []
  {
    if n < 10 then [Digit(n)] else Decimal(n / 10) + [Digit(n % 10)]
  }

  /** The value of a digit string, read most significant digit first. */
  function DecimalValue(s: string): nat
    requires forall i :: 0 <= i < |s| ==> IsDigit(s[i])
  {
    if s == [] then 0 else
    DecimalValue(s[..|s| - 1]) * 10 + DigitValue(s[|s| - 1])
  }

  lemma {:induction false} DecimalRoundTrip(n: nat)
    ensures forall i :: 0 <= i < |Decimal(n)| ==> IsDigit(Decimal(n)[i])
    ensures DecimalValue(Decimal(n)) == n
    ensures |Decimal(n)| > 1 ==> Decimal(n)[0] != '0'
  {
    if n >= 10 {
      DecimalRoundTrip(n / 10);
      var d := Decimal(n);
      assert d[..|d| - 1] == Decimal(n / 10);
      assert n / 10 < 10 ==> Decimal(n / 10) == [Digit(n / 10)];
    }
  }
}
