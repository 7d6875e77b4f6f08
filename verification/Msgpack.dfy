/// Scalars between JSON text and MessagePack frames (go/pkg/protocol/value_msgpack.go:45-80,
/// 204-310, 405-528). Floats are left to a conversion; a text is what is left after trimming.
module Msgpack {
  import Text
  import opened JsonStrings
  import opened JsonNumbers

  // ---- Big-endian words ----

  function Pow256(w: nat): (p: nat)
    ensures p > 0
  {
    if w == 0 then 1 else 256 * Pow256(w - 1)
  }

  /** The low w bytes of n, most significant first. */
  function BigEndian(n: int, w: nat): (r: bytes)
    ensures |r| == w
    decreases w
  {
    if w == 0 then [] else BigEndian(n / 256, w - 1) + [n % 256]
  }

  function Word(s: bytes): nat {
    if s == [] then 0 else Word(s[..|s| - 1]) * 256 + s[|s| - 1]
  }

  method UnpackBE(data: bytes, at: nat, width: nat) returns (v: nat)
    requires at + width <= |data|
    ensures v == Word(data[at..at + width])
  {
    ghost var s := data[at..at + width];
    v := 0;
    for k := 0 to width
      invariant v == Word(s[..k])
    {
      assert s[..k + 1][..k] == s[..k] && s[k] == data[at + k];
      v := v * 256 + data[at + k];
    }
    assert s[..width] == s;
  }

  /** Reading back gives the number modulo the word, so a number that fits comes back whole. */
  lemma {:induction false} WordBack(n: int, w: nat)
    ensures Word(BigEndian(n, w)) < Pow256(w)
    ensures 0 <= n < Pow256(w) ==> Word(BigEndian(n, w)) == n
    ensures exists q: int :: Word(BigEndian(n, w)) == Shifted(n, q, w)
    decreases w
  {
    if w == 0 {
      assert Word(BigEndian(n, w)) == Shifted(n, n, w);
    } else {
      WordBack(n / 256, w - 1);
      var s := BigEndian(n, w);
      assert s[..|s| - 1] == BigEndian(n / 256, w - 1);
      var q: int :| Word(BigEndian(n / 256, w - 1)) == Shifted(n / 256, q, w - 1);
      ShiftedNext(n, q, w);
    }
  }

  /** n moved by a whole number of words. */
  function Shifted(n: int, q: int, w: nat): int { n - q * Pow256(w) }

  lemma ShiftedNext(n: int, q: int, w: nat)
    requires w > 0
    ensures Shifted(n / 256, q, w - 1) * 256 + n % 256 == Shifted(n, q, w)
  {
    assert q * Pow256(w) == 256 * (q * Pow256(w - 1));
  }

  lemma Powers()
    ensures Pow256(1) == 0x100 && Pow256(2) == 0x1_0000 && Pow256(4) == 0x1_0000_0000 && Pow256(8) == 0x1_0000_0000_0000_0000
  {
    assert Pow256(0) == 1 && Pow256(3) == 256 * Pow256(2);
    assert Pow256(5) == 256 * Pow256(4) && Pow256(6) == 256 * Pow256(5) && Pow256(7) == 256 * Pow256(6);
  }

  /** A word read as two's complement. */
  function Signed(n: int, w: nat): int { if n < Pow256(w) / 2 then n else n - Pow256(w) }

  lemma SignedBack(v: int, w: nat)
    requires w > 0 && -(Pow256(w) / 2) <= v < Pow256(w) / 2
    ensures Signed(Word(BigEndian(v, w)), w) == v
  {
    hide BigEndian, Word, Shifted;
    WordBack(v, w);
    assert Pow256(w) == 256 * Pow256(w - 1);
    hide Pow256;
    if v < 0 {
      var q: int :| Word(BigEndian(v, w)) == Shifted(v, q, w);
      WrapsOnce(v, q, w);
    }
  }

  lemma WrapsOnce(v: int, q: int, w: nat)
    requires -(Pow256(w) as int) <= v < 0 && 0 <= Shifted(v, q, w) < Pow256(w)
    ensures Shifted(v, q, w) == v + Pow256(w)
  {
    Multiples(Pow256(w), q);
    assert q == -1;
  }

  lemma Multiples(p: int, q: int)
    requires p > 0
    ensures q >= 0 ==> q * p >= 0
    ensures q <= -2 ==> q * p <= -2 * p
  {
    if q <= -2 {
      assert (q + 2) * p <= 0;
    }
  }

  // ---- Text to frame ----

  function StringFrame(p: bytes): bytes {
    var n := |p|;
    (if n < 32 then [0xA0 + n] else if n < 256 then [0xD9, n]
     else if n <= 0xFFFF then [0xDA] + BigEndian(n, 2) else [0xDB] + BigEndian(n, 4)) + p
  }

  function IntFrame(n: int): bytes { [0xD3] + BigEndian(n, 8) }

  function UintFrame(n: nat): bytes { [0xCF] + BigEndian(n, 8) }

  /** Declined text goes to the general decoder; Float is left to the float conversion. */
  datatype Packed = Declined | Float | Frame(data: bytes)

  function FloatFrame(t: bytes): Packed { if Scans(t) then Float else Declined }

  function NumberFrame(t: bytes): Packed
    requires t != []
  {
    var m := Magnitude(t);
    if m == [] || !Digit(m[0]) then Declined
    else if exists k :: 0 <= k < |m| && FloatMark(m[k]) then FloatFrame(t)
    else if |m| > 1 && m[0] == ZERO then Declined
    else
      var u := Uint64(m);
      if u.None? then FloatFrame(t)
      else if Negative(t) then if u.value <= MAX_INT64 + 1 then Frame(IntFrame(-(u.value as int))) else FloatFrame(t)
      else if u.value <= MAX_INT64 then Frame(IntFrame(u.value))
      else Frame(UintFrame(u.value))
  }

  method AppendNumber(t: bytes) returns (r: Packed)
    requires t != []
    ensures r == NumberFrame(t)
  {
    hide IntFrame, UintFrame, IsNumber;
    var i := 0;
    var neg := false;
    if t[0] == MINUS {
      i, neg := 1, true;
    }
    ghost var m := Magnitude(t);
    assert m == t[i..];
    if i >= |t| || !Digit(t[i]) {
      return Declined;
    }
    for k := i to |t|
      invariant forall j :: 0 <= j < k - i ==> !FloatMark(m[j])
    {
      assert t[k] == m[k - i];
      if FloatMark(t[k]) {
        ScansIsGrammar(t);
        var ok := ValidNumberLiteral(t);
        return if ok then Float else Declined;
      }
    }
    if |t| - i > 1 && t[i] == ZERO {
      return Declined;
    }
    var u, overflow := DigitsToUint64(t[i..]);
    if overflow || (neg && u > MAX_INT64 + 1) {
      ScansIsGrammar(t);
      var ok := ValidNumberLiteral(t);
      return if ok then Float else Declined;
    }
    if neg {
      return Frame(IntFrame(-(u as int)));
    }
    if u <= MAX_INT64 {
      return Frame(IntFrame(u));
    }
    return Frame(UintFrame(u));
  }

  const TRUE: bytes := ['t' as int, 'r' as int, 'u' as int, 'e' as int]
  const FALSE: bytes := ['f' as int, 'a' as int, 'l' as int, 's' as int, 'e' as int]
  const NULL: bytes := ['n' as int, 'u' as int, 'l' as int, 'l' as int]

  function MarshalScalar(t: bytes): Packed {
    if t == [] then Declined
    else if t[0] == QUOTE then
      var p := Payload(t);
      if p.None? then Declined else Frame(StringFrame(p.value))
    else if t[0] == 't' as int then if t == TRUE then Frame([0xC3]) else Declined
    else if t[0] == 'f' as int then if t == FALSE then Frame([0xC2]) else Declined
    else if t[0] == 'n' as int then if t == NULL then Frame([0xC0]) else Declined
    else if t[0] == MINUS || Digit(t[0]) then NumberFrame(t)
    else Declined
  }

  // ---- Frame to text ----

  datatype Unpacked = Unhandled | FloatBits | Nil | Json(raw: bytes)

  function PayloadLen(c: byte): nat {
    if c == 0xCC || c == 0xD0 then 1 else if c == 0xCD || c == 0xD1 then 2 else if c == 0xCE || c == 0xD2 || c == 0xCA then 4 else 8
  }

  function UnpackInt(c: byte, n: nat): int {
    if c == 0xD0 then Signed(n, 1) else if c == 0xD1 then Signed(n, 2) else if c == 0xD2 then Signed(n, 4)
    else if c == 0xD3 then Signed(n, 8) else n
  }

  /** Header length and declared payload length of a str8, str16 or str32 frame. */
  function StrHeader(data: bytes): Text.Option<(nat, nat)>
    requires data != []
  {
    var w := if data[0] == 0xD9 then 1 else if data[0] == 0xDA then 2 else 4;
    if |data| < 1 + w then Text.None else Text.Some((1 + w, Word(data[1..1 + w])))
  }

  /** The JSON text of a scalar frame that fills its data exactly. */
  function UnmarshalScalar(data: bytes): Unpacked {
    if data == [] then Unhandled
    else
      var c := data[0];
      if c == 0xC0 then Nil
      else if c == 0xC2 then Json(FALSE)
      else if c == 0xC3 then Json(TRUE)
      else if c <= 0x7F then Json(Decimal(c))
      else if c >= 0xE0 then Json(Decimal((c as int) - 256))
      else if 0xA0 <= c <= 0xBF then if 1 + (c - 0xA0) != |data| then Unhandled else Json(Quoted(data[1..]))
      else if 0xD9 <= c <= 0xDB then
        var h := StrHeader(data);
        if h.None? || h.value.0 + h.value.1 != |data| then Unhandled else Json(Quoted(data[h.value.0..]))
      else if 0xCC <= c <= 0xD3 && c != 0xCF then
        if |data| != 1 + PayloadLen(c) then Unhandled else Json(Decimal(UnpackInt(c, Word(data[1..]))))
      else if c == 0xCF then if |data| != 9 then Unhandled else Json(Decimal(Word(data[1..])))
      else if c == 0xCA then if |data| != 5 then Unhandled else FloatBits
      else if c == 0xCB then if |data| != 9 then Unhandled else FloatBits
      else Unhandled
  }

  // ---- Round trips ----

  lemma HeaderReads(c: byte, n: nat, w: nat, p: bytes)
    requires (c == 0xD9 && w == 1) || (c == 0xDA && w == 2) || (c == 0xDB && w == 4)
    ensures StrHeader([c] + BigEndian(n, w) + p) == Text.Some((1 + w, Word(BigEndian(n, w))))
    ensures ([c] + BigEndian(n, w) + p)[1 + w..] == p
  {
    assert ([c] + BigEndian(n, w) + p)[1..1 + w] == BigEndian(n, w);
  }

  /** A string frame comes back as the quoted payload exactly when its length fits the widest header. */
  lemma StringFrameRoundTrip(p: bytes)
    ensures UnmarshalScalar(StringFrame(p)) == if |p| < 0x1_0000_0000 then Json(Quoted(p)) else Unhandled
  {
    hide Quoted, Decimal, BigEndian, Word, Pow256;
    var n := |p|;
    Powers();
    if n < 32 {
      assert StringFrame(p)[1..] == p;
    } else {
      var c, w := if n < 256 then 0xD9 else if n <= 0xFFFF then 0xDA else 0xDB, if n < 256 then 1 else if n <= 0xFFFF then 2 else 4;
      WordBack(n, w);
      OneByte(n);
      HeaderReads(c, n, w, p);
      assert StringFrame(p) == [c] + BigEndian(n, w) + p;
    }
  }

  /** The shortest of the four string formats: its first byte, the length behind it, then the payload. */
  lemma StringFrameShape(p: bytes)
    requires |p| < 0x1_0000_0000
    ensures var f, n := StringFrame(p), |p|;
      var h := if n < 32 then 1 else if n < 0x100 then 2 else if n < 0x1_0000 then 3 else 5;
      && |f| == h + n && f[h..] == p
      && (if h == 1 then f[0] == 0xA0 + n else f[0] == (if h == 2 then 0xD9 else if h == 3 then 0xDA else 0xDB) && Word(f[1..h]) == n)
  {
    hide Word, BigEndian, Pow256;
    var f, n := StringFrame(p), |p|;
    Powers();
    OneByte(n);
    if n >= 32 {
      var w := if n < 0x100 then 1 else if n < 0x1_0000 then 2 else 4;
      WordBack(n, w);
      assert f[1..1 + w] == BigEndian(n, w);
    }
  }

  lemma OneByte(n: nat)
    ensures n < 256 ==> BigEndian(n, 1) == [n]
  {
    assert BigEndian(n / 256, 0) == [];
  }

  /** Quoted valid UTF-8 shorter than 2^32 bytes survives the way through a frame unchanged. */
  lemma StringRoundTrip(s: bytes)
    requires ValidUtf8(s) && |s| < 0x1_0000_0000
    ensures MarshalScalar(Quoted(s)) == Frame(StringFrame(s)) && UnmarshalScalar(StringFrame(s)) == Json(Quoted(s))
  {
    hide ValidUtf8, StringFrame, UnmarshalScalar, Payload, NumberFrame;
    QuoteRoundTrip(s);
    StringFrameRoundTrip(s);
  }

  lemma IntFrameReads(v: int)
    requires -MAX_INT64 - 1 <= v <= MAX_INT64
    ensures UnmarshalScalar(IntFrame(v)) == Json(Decimal(v))
  {
    hide Decimal, BigEndian, Word, Quoted, Pow256, StrHeader;
    Powers();
    SignedBack(v, 8);
    assert IntFrame(v)[1..] == BigEndian(v, 8);
  }

  lemma UintFrameReads(v: nat)
    requires v <= MAX_UINT64
    ensures UnmarshalScalar(UintFrame(v)) == Json(Decimal(v))
  {
    hide Decimal, BigEndian, Word, Quoted, Pow256, StrHeader;
    Powers();
    WordBack(v, 8);
    assert UintFrame(v)[1..] == BigEndian(v, 8);
  }

  /** Every integer family of the MessagePack specification reads as the number it stands for. */
  lemma IntFamilyReads(c: byte, v: int)
    requires 0xCC <= c <= 0xD3 && c != 0xCF
    requires var p := Pow256(PayloadLen(c)); if c >= 0xD0 then -((p as int) / 2) <= v < p / 2 else 0 <= v < p
    ensures UnmarshalScalar([c] + BigEndian(v, PayloadLen(c))) == Json(Decimal(v))
  {
    hide Decimal, BigEndian, Word, Quoted, StrHeader, Pow256;
    var w := PayloadLen(c);
    var data := [c] + BigEndian(v, w);
    assert data[1..] == BigEndian(v, w);
    if c >= 0xD0 {
      SignedBack(v, w);
    } else {
      WordBack(v, w);
    }
  }

  lemma NoMarks(m: bytes)
    requires AllDigits(m)
    ensures !exists k :: 0 <= k < |m| && FloatMark(m[k])
  {
  }

  /** Without a point or an exponent a number is an integer literal. */
  lemma MarkFreeScans(t: bytes)
    requires t != [] && !(exists k :: 0 <= k < |Magnitude(t)| && FloatMark(Magnitude(t)[k]))
    ensures Scans(t) <==> IntLiteral(t)
  {
    var m, a := Magnitude(t), IntStart(t);
    assert m == t[a..];
    assert forall i :: 0 <= i < |m| ==> m[i] == t[a + i];
    forall i | a <= i < |t| ensures !FloatMark(t[i]) {
      assert m[i - a] == t[i];
    }
    if IntLiteral(t) {
      assert forall i :: a <= i < |t| ==> t[i] == m[i - a];
      DigitsEndAt(t, a, |t|);
    }
  }

  lemma MarkedNotInt(t: bytes)
    requires exists k :: 0 <= k < |Magnitude(t)| && FloatMark(Magnitude(t)[k])
    ensures !IntLiteral(t)
  {
  }

  lemma ScansDigit(t: bytes)
    requires t != [] && Scans(t)
    ensures Magnitude(t) != [] && Digit(Magnitude(t)[0])
  {
    var a := IntStart(t);
    assert Magnitude(t) == t[a..] && DigitsIn(t, a, DigitsEnd(t, a));
  }

  /**
   * A text is declined exactly when it is no JSON number; it becomes an integer frame exactly when it is an integer literal
   * from -2^63 to 2^64 - 1; every other number goes through the float conversion.
   */
  lemma NumbersExactly(t: bytes)
    requires t != []
    ensures NumberFrame(t).Declined? <==> !IsNumber(t)
    ensures NumberFrame(t).Frame? <==> IntLiteral(t) && -MAX_INT64 - 1 <= IntValue(t) <= MAX_UINT64
  {
    hide IsNumber, Scans, Value, IntFrame, UintFrame;
    ScansIsGrammar(t);
    if Scans(t) {
      ScansDigit(t);
    }
    if exists k :: 0 <= k < |Magnitude(t)| && FloatMark(Magnitude(t)[k]) {
      MarkedNotInt(t);
    } else {
      MarkFreeScans(t);
    }
  }

  lemma MarshalInt(t: bytes)
    requires IntLiteral(t) && -MAX_INT64 - 1 <= IntValue(t) <= MAX_UINT64
    ensures MarshalScalar(t) == Frame(if IntValue(t) <= MAX_INT64 then IntFrame(IntValue(t)) else UintFrame(IntValue(t)))
  {
    hide IntFrame, UintFrame, Value, Payload, Scans;
    NoMarks(Magnitude(t));
  }

  /** Every integer literal from -2^63 to 2^64 - 1 survives the way through a frame unchanged, except minus zero. */
  lemma IntRoundTrip(t: bytes)
    requires IntLiteral(t) && -MAX_INT64 - 1 <= IntValue(t) <= MAX_UINT64
    ensures MarshalScalar(t).Frame? && UnmarshalScalar(MarshalScalar(t).data) == Json(Decimal(IntValue(t)))
    ensures UnmarshalScalar(MarshalScalar(t).data) == Json(t) <==> t != [MINUS, ZERO]
  {
    hide UnmarshalScalar, MarshalScalar, IntFrame, UintFrame, Decimal, Value;
    MarshalInt(t);
    LiteralIsDecimal(t);
    var v := IntValue(t);
    if v <= MAX_INT64 {
      IntFrameReads(v);
    } else {
      UintFrameReads(v);
    }
  }

  // ---- true, false and null ----

  /** A literal name is written as the one byte the MessagePack specification gives it. */
  predicate NameByte(t: bytes, b: byte) {
    || (t == ['t' as int, 'r' as int, 'u' as int, 'e' as int] && b == 0xC3)
    || (t == ['f' as int, 'a' as int, 'l' as int, 's' as int, 'e' as int] && b == 0xC2)
    || (t == ['n' as int, 'u' as int, 'l' as int, 'l' as int] && b == 0xC0)
  }

  /** true, false and null survive the way through a frame, and no other text beginning like them makes one. */
  lemma NameRoundTrip(t: bytes, b: byte)
    ensures NameByte(t, b) ==>
      && MarshalScalar(t) == Frame([b])
      && UnmarshalScalar([b]) == if t[0] == 'n' as int then Nil else Json(t)
    ensures t != [] && t[0] in {'t' as int, 'f' as int, 'n' as int} && MarshalScalar(t).Frame? ==>
      |MarshalScalar(t).data| == 1 && NameByte(t, MarshalScalar(t).data[0])
  {
    hide NumberFrame, Payload, Quoted, Decimal;
  }

  /** The one-byte integers read as the numbers from -32 to 127. */
  lemma FixIntReads(n: int)
    requires -32 <= n < 128
    ensures UnmarshalScalar([if n < 0 then n + 256 else n]) == Json(Decimal(n))
  {
    hide Decimal, Quoted;
  }
}
