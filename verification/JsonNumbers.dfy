/// JSON number literals (go/pkg/protocol/value_msgpack.go:312-377, 604-644): the grammar of
/// section 6 of RFC 8259 and exact 64-bit integers.
module JsonNumbers {
  import opened Text
  import opened JsonStrings

  const MAX_INT64 := 0x7FFF_FFFF_FFFF_FFFF
  const MAX_UINT64 := 0xFFFF_FFFF_FFFF_FFFF
  const MINUS: byte := '-' as int
  const ZERO: byte := '0' as int

  predicate Digit(b: byte) { '0' as int <= b <= '9' as int }

  predicate DigitsIn(t: bytes, i: int, j: int)
    requires 0 <= i && j <= |t|
  {
    forall k :: i <= k < j ==> Digit(t[k])
  }

  predicate AllDigits(t: bytes) { DigitsIn(t, 0, |t|) }

  function Value(t: bytes): nat
    requires AllDigits(t)
  {
    if t == [] then 0 else Value(t[..|t| - 1]) * 10 + (t[|t| - 1] - ZERO)
  }

  lemma {:induction false} ValueGrows(t: bytes, k: nat)
    requires AllDigits(t) && k <= |t|
    ensures Value(t[..k]) <= Value(t)
  {
    if k < |t| {
      ValueGrows(t[..|t| - 1], k);
      assert t[..|t| - 1][..k] == t[..k];
    } else {
      assert t[..k] == t;
    }
  }

  /** The value of a digit string that fits an unsigned 64-bit word. */
  function Uint64(t: bytes): Option<nat> {
    if AllDigits(t) && Value(t) <= MAX_UINT64 then Some(Value(t)) else None
  }

  method DigitsToUint64(t: bytes) returns (u: nat, overflow: bool)
    ensures overflow <==> !AllDigits(t) || Value(t) > MAX_UINT64
    ensures !overflow ==> u == Value(t)
  {
    u := 0;
    for i := 0 to |t|
      invariant AllDigits(t[..i]) && u == Value(t[..i]) <= MAX_UINT64
    {
      var b := t[i];
      if !Digit(b) {
        return 0, true;
      }
      assert t[..i + 1][..i] == t[..i];
      if u > (MAX_UINT64 - (b - ZERO)) / 10 {
        assert AllDigits(t[..i + 1]) && Value(t[..i + 1]) == u * 10 + (b - ZERO) > MAX_UINT64;
        if AllDigits(t) {
          ValueGrows(t, i + 1);
        }
        return 0, true;
      }
      u := u * 10 + (b - ZERO);
    }
    assert t[..|t|] == t;
    return u, false;
  }

  // ---- Integer literals ----

  function Negative(t: bytes): bool { t != [] && t[0] == MINUS }

  function Magnitude(t: bytes): bytes { if Negative(t) then t[1..] else t }

  /** int = zero / ( digit1-9 *DIGIT ), with an optional minus before it. */
  predicate IntLiteral(t: bytes) {
    var m := Magnitude(t);
    m != [] && AllDigits(m) && (m[0] == ZERO ==> |m| == 1)
  }

  function IntValue(t: bytes): int
    requires IntLiteral(t)
  {
    var v: int := Value(Magnitude(t));
    if Negative(t) then -v else v
  }

  predicate FloatMark(c: byte) { c == '.' as int || c == 'e' as int || c == 'E' as int }

  /** Succeeds exactly on integer literals in range, with their value. */
  method ParseInt64Literal(t: bytes) returns (r: Option<int>)
    ensures r == if IntLiteral(t) && -MAX_INT64 - 1 <= IntValue(t) <= MAX_INT64 then Some(IntValue(t)) else None
  {
    if |t| == 0 {
      return None;
    }
    var i := 0;
    var neg := false;
    if t[0] == MINUS {
      i, neg := 1, true;
    }
    if i >= |t| || !Digit(t[i]) {
      return None;
    }
    assert Magnitude(t) == t[i..];
    for k := i to |t|
    {
      if FloatMark(t[k]) {
        assert Magnitude(t)[k - i] == t[k];
        return None;
      }
    }
    if |t| - i > 1 && t[i] == ZERO {
      return None;
    }
    var u, overflow := DigitsToUint64(t[i..]);
    if overflow {
      return None;
    }
    if neg {
      if u <= MAX_INT64 {
        return Some(-u);
      } else if u == MAX_INT64 + 1 {
        return Some(-MAX_INT64 - 1);
      }
      return None;
    }
    if u <= MAX_INT64 {
      return Some(u);
    }
    return None;
  }

  // ---- The grammar ----

  predicate Exponent(t: bytes, c: nat, d: nat) {
    && c < d < |t| && DigitsIn(t, d, |t|) && (t[c] == 'e' as int || t[c] == 'E' as int)
    && (d == c + 1 || (d == c + 2 && (t[c + 1] == '+' as int || t[c + 1] == '-' as int)))
  }

  /** number = [ minus ] int [ frac ] [ exp ], cut before int at a, before frac at b and before exp at c. */
  ghost predicate CutAt(t: bytes, a: nat, b: nat, c: nat) {
    && a < b <= c <= |t|
    && (a == 0 || (a == 1 && t[0] == MINUS))
    && DigitsIn(t, a, b) && (t[a] == ZERO ==> b == a + 1)
    && (c == b || (t[b] == '.' as int && b + 1 < c && DigitsIn(t, b + 1, c)))
    && (c == |t| || exists d: nat :: Exponent(t, c, d))
  }

  ghost predicate IsNumber(t: bytes) {
    exists a: nat, b: nat, c: nat :: CutAt(t, a, b, c)
  }

  function DigitsEnd(t: bytes, i: nat): (e: nat)
    requires i <= |t|
    ensures i <= e <= |t| && DigitsIn(t, i, e) && (e < |t| ==> !Digit(t[e]))
    decreases |t| - i
  {
    if i < |t| && Digit(t[i]) then DigitsEnd(t, i + 1) else i
  }

  lemma {:induction false} DigitsEndAt(t: bytes, i: nat, j: nat)
    requires i <= j <= |t| && DigitsIn(t, i, j) && (j < |t| ==> !Digit(t[j]))
    ensures DigitsEnd(t, i) == j
    decreases j - i
  {
    if i < j {
      DigitsEndAt(t, i + 1, j);
    }
  }

  method SkipDigits(t: bytes, from: nat) returns (i: nat)
    requires from <= |t|
    ensures i == DigitsEnd(t, from)
  {
    i := from;
    while i < |t| && Digit(t[i])
      invariant from <= i <= |t| && DigitsEnd(t, from) == DigitsEnd(t, i)
    {
      i := i + 1;
    }
  }

  function IntStart(t: bytes): nat { if t != [] && t[0] == MINUS then 1 else 0 }

  function FracEnd(t: bytes, b: nat): nat
    requires b <= |t|
  {
    if b < |t| && t[b] == '.' as int then DigitsEnd(t, b + 1) else b
  }

  function ExpStart(t: bytes, c: nat): nat {
    if c + 1 < |t| && (t[c + 1] == '+' as int || t[c + 1] == '-' as int) then c + 2 else c + 1
  }

  /** What one scan from the left accepts. */
  predicate Scans(t: bytes) {
    var a := IntStart(t);
    var b := DigitsEnd(t, a);
    var c := FracEnd(t, b);
    && b > a && (t[a] == ZERO ==> b == a + 1)
    && (b < |t| && t[b] == '.' as int ==> c > b + 1)
    && (c < |t| ==>
          (t[c] == 'e' as int || t[c] == 'E' as int) && ExpStart(t, c) < |t| && DigitsEnd(t, ExpStart(t, c)) == |t|)
  }

  lemma ScanCuts(t: bytes)
    requires Scans(t)
    ensures IsNumber(t)
  {
    var a := IntStart(t);
    var b := DigitsEnd(t, a);
    var c := FracEnd(t, b);
    if c < |t| {
      assert Exponent(t, c, ExpStart(t, c));
    }
    assert CutAt(t, a, b, c);
  }

  /** A number can be cut in one way only: the way the scan cuts it. */
  lemma CutScans(t: bytes, a: nat, b: nat, c: nat)
    requires CutAt(t, a, b, c)
    ensures a == IntStart(t) && b == DigitsEnd(t, a) && c == FracEnd(t, b) && Scans(t)
  {
    assert Digit(t[a]);
    DigitsEndAt(t, a, b);
    if b < c {
      DigitsEndAt(t, b + 1, c);
    }
    if c < |t| {
      var d: nat :| Exponent(t, c, d);
      assert Digit(t[d]);
      DigitsEndAt(t, d, |t|);
    }
  }

  lemma ScansIsGrammar(t: bytes)
    ensures Scans(t) <==> IsNumber(t)
  {
    hide *;
    if Scans(t) {
      ScanCuts(t);
    }
    NumberScans(t);
  }

  lemma NumberScans(t: bytes)
    ensures IsNumber(t) ==> Scans(t)
  {
    if IsNumber(t) {
      var a: nat, b: nat, c: nat :| CutAt(t, a, b, c);
      CutScans(t, a, b, c);
    }
  }

  /** Accepts exactly the literals of the grammar. */
  method ValidNumberLiteral(t: bytes) returns (ok: bool)
    ensures ok <==> IsNumber(t)
  {
    hide IsNumber, DigitsEnd, DigitsIn;
    ScansIsGrammar(t);
    var i := 0;
    if i < |t| && t[i] == MINUS {
      i := i + 1;
    }
    var start := i;
    i := SkipDigits(t, i);
    if i == start || (i - start > 1 && t[start] == ZERO) {
      return false;
    }
    if i < |t| && t[i] == '.' as int {
      i := i + 1;
      var frac := i;
      i := SkipDigits(t, i);
      if i == frac {
        return false;
      }
    }
    if i < |t| && (t[i] == 'e' as int || t[i] == 'E' as int) {
      i := i + 1;
      if i < |t| && (t[i] == '+' as int || t[i] == '-' as int) {
        i := i + 1;
      }
      var exp := i;
      i := SkipDigits(t, i);
      if i == exp {
        return false;
      }
    }
    return i == |t|;
  }

  // ---- Writing integers ----

  function Digits(n: nat): (r: bytes)
    ensures r != [] && AllDigits(r)
  {
    if n < 10 then [ZERO + n] else Digits(n / 10) + [ZERO + n % 10]
  }

  /** The decimal text of an integer. */
  function Decimal(n: int): bytes { if n < 0 then [MINUS] + Digits(-n) else Digits(n) }

  lemma {:induction false} DigitsRead(n: nat)
    ensures Value(Digits(n)) == n && (n > 0 ==> Digits(n)[0] != ZERO) && (n == 0 ==> Digits(n) == [ZERO])
  {
    if n >= 10 {
      DigitsRead(n / 10);
      assert Digits(n)[..|Digits(n)| - 1] == Digits(n / 10);
    } else {
      assert [ZERO + n][..0] == [];
    }
  }

  lemma {:induction false} ValuePositive(t: bytes)
    requires t != [] && AllDigits(t) && t[0] != ZERO
    ensures Value(t) >= 1
  {
    if |t| > 1 {
      ValuePositive(t[..|t| - 1]);
    }
  }

  lemma {:induction false} DigitsOfValue(t: bytes)
    requires t != [] && AllDigits(t) && (t[0] == ZERO ==> |t| == 1)
    ensures Digits(Value(t)) == t
  {
    var init := t[..|t| - 1];
    if |t| > 1 {
      ValuePositive(init);
      DigitsOfValue(init);
      assert t == init + [t[|t| - 1]];
    }
  }

  /** An integer literal is the decimal text of its value, unless it is minus zero. */
  lemma LiteralIsDecimal(t: bytes)
    requires IntLiteral(t)
    ensures Decimal(IntValue(t)) == t <==> t != [MINUS, ZERO]
  {
    var m := Magnitude(t);
    DigitsOfValue(m);
    if Negative(t) {
      assert t == [MINUS] + m;
      if m[0] != ZERO {
        ValuePositive(m);
      } else {
        assert m == [ZERO];
      }
    }
  }

  lemma DecimalIsLiteral(n: int)
    ensures IntLiteral(Decimal(n)) && IntValue(Decimal(n)) == n
  {
    if n < 0 {
      DigitsRead(-n);
      assert Magnitude(Decimal(n)) == Digits(-n);
      if Digits(-n)[0] == ZERO {
        assert false;
      }
    } else {
      DigitsRead(n);
    }
  }
}
