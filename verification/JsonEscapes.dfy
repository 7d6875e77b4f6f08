/// What the reader of JSON strings makes of every escape (sections 7 and 9 of RFC 8259),
/// and which bodies it takes.
module JsonEscapes {
  import opened Text
  import opened JsonStrings

  // ---- Hexadecimal digits ----

  const LOWER_HEX := "0123456789abcdef"
  const UPPER_HEX := "0123456789ABCDEF"

  /** The byte is the hexadecimal digit d, in either case. */
  predicate IsDigitOf(c: byte, d: nat) { d < 16 && (c == LOWER_HEX[d] as int || c == UPPER_HEX[d] as int) }

  lemma DigitReads(c: byte, d: nat)
    ensures HexValue(c) == Some(d) <==> IsDigitOf(c, d)
  {
    assert LOWER_HEX[10..] == "abcdef" && UPPER_HEX[10..] == "ABCDEF";
    if d < 10 {
      assert LOWER_HEX[d] as int == '0' as int + d && UPPER_HEX[d] as int == '0' as int + d;
    } else if d < 16 {
      assert LOWER_HEX[d] == "abcdef"[d - 10] && UPPER_HEX[d] == "ABCDEF"[d - 10];
      assert LOWER_HEX[d] as int == 'a' as int + (d - 10) && UPPER_HEX[d] as int == 'A' as int + (d - 10);
    }
  }

  /** Four hexadecimal digits, the highest first, each in either case. */
  predicate Spells(a: bytes, v: nat) {
    && |a| == 4 && IsDigitOf(a[0], v / 4096) && IsDigitOf(a[1], v / 256 % 16)
    && IsDigitOf(a[2], v / 16 % 16) && IsDigitOf(a[3], v % 16)
  }

  lemma FourDigits(v: nat)
    ensures v == ((v / 4096 * 16 + v / 256 % 16) * 16 + v / 16 % 16) * 16 + v % 16
  {
    var a := v / 16;
    var b := a / 16;
    Sixteenths(v, a);
    Sixteenths(a, b);
    Sixteenths(b, b / 16);
    assert b == v / 256 && b / 16 == v / 4096;
  }

  lemma Sixteenths(v: nat, a: nat)
    requires a == v / 16
    ensures v == a * 16 + v % 16
  {
  }

  lemma SpellsReads(a: bytes, v: nat)
    requires Spells(a, v)
    ensures HexRead(a) == Some(v)
  {
    hide HexRead, HexValue, IsDigitOf;
    DigitReads(a[0], v / 4096);
    DigitReads(a[1], v / 256 % 16);
    DigitReads(a[2], v / 16 % 16);
    DigitReads(a[3], v % 16);
    assert a == [a[0], a[1], a[2], a[3]];
    HexFour(a[0], a[1], a[2], a[3]);
    FourDigits(v);
  }

  lemma HexValueBound(c: byte)
    ensures HexValue(c).Some? ==> 0 <= HexValue(c).value < 16
  {
  }

  lemma HexParts(a: bytes)
    requires |a| == 4 && HexRead(a).Some?
    ensures HexValue(a[0]).Some? && HexValue(a[1]).Some? && HexValue(a[2]).Some? && HexValue(a[3]).Some?
  {
    hide HexValue;
    assert a[..3][..2] == a[..2] && a[..2][..1] == a[..1];
    assert a[..3][2] == a[2] && a[..2][1] == a[1] && a[..1][0] == a[0];
    assert HexRead(a[..3]).Some?;
    assert HexRead(a[..2]).Some?;
    assert HexRead(a[..1]).Some?;
  }

  lemma Quarters(w: nat, x: nat, y: nat, z: nat)
    requires w < 16 && x < 16 && y < 16 && z < 16
    ensures var v := ((w * 16 + x) * 16 + y) * 16 + z;
      v < 0x10000 && v / 4096 == w && v / 256 % 16 == x && v / 16 % 16 == y && v % 16 == z
  {
    var v := ((w * 16 + x) * 16 + y) * 16 + z;
    assert v / 16 == (w * 16 + x) * 16 + y;
    assert v / 256 == w * 16 + x;
  }

  /** Four bytes read as a number only when they spell it. */
  lemma HexReadSpells(a: bytes, v: nat)
    requires |a| == 4 && HexRead(a) == Some(v)
    ensures Spells(a, v) && v < 0x10000
  {
    hide HexRead, HexValue, IsDigitOf;
    HexParts(a);
    HexValueBound(a[0]);
    HexValueBound(a[1]);
    HexValueBound(a[2]);
    HexValueBound(a[3]);
    assert a == [a[0], a[1], a[2], a[3]];
    HexFour(a[0], a[1], a[2], a[3]);
    Quarters(HexValue(a[0]).value, HexValue(a[1]).value, HexValue(a[2]).value, HexValue(a[3]).value);
    DigitReads(a[0], v / 4096);
    DigitReads(a[1], v / 256 % 16);
    DigitReads(a[2], v / 16 % 16);
    DigitReads(a[3], v % 16);
  }

  // ---- \u escapes ----

  const BACKSLASH: byte := 0x5C

  function UnitEscape(a: bytes): bytes { [BACKSLASH, 'u' as int] + a }

  predicate Scalar(r: int) { 0 <= r < 0xD800 || 0xE000 <= r <= 0x10FFFF }

  /** The UTF-16 halves of a code point from U+10000 on. */
  function HighHalf(r: int): int { 0xD800 + (r - 0x10000) / 0x400 }

  function LowHalf(r: int): int { 0xDC00 + (r - 0x10000) % 0x400 }

  lemma UnitRead(a: bytes, v: nat, rest: bytes)
    requires Spells(a, v)
    ensures Hex4((UnitEscape(a) + rest)[1..][1..]) == Some(v)
  {
    hide HexRead, Spells;
    assert |a| == 4 by { SpellsFour(a, v); }
    SpellsReads(a, v);
    assert (UnitEscape(a) + rest)[1..][1..] == a + rest;
    ReadHex(a, rest, v);
  }

  lemma SpellsFour(a: bytes, v: nat)
    requires Spells(a, v)
    ensures |a| == 4 && v < 0x10000
  {
  }

  /** The two escapes of a code point's halves read as that code point, whatever follows. */
  lemma PairReads(r: int, a: bytes, b: bytes, rest: bytes)
    requires 0x10000 <= r <= 0x10FFFF && Spells(a, HighHalf(r)) && Spells(b, LowHalf(r))
    ensures ReadOne(UnitEscape(a) + UnitEscape(b) + rest) == Some((EncodeRune(r), 12))
    ensures Unescaped(UnitEscape(a) + UnitEscape(b) + rest) == Prepend(EncodeRune(r), Unescaped(rest))
  {
    hide HexRead, Spells, EncodeRune, Unescaped;
    var e := UnitEscape(a) + UnitEscape(b);
    SpellsFour(a, HighHalf(r));
    SpellsFour(b, LowHalf(r));
    UnitRead(a, HighHalf(r), UnitEscape(b) + rest);
    UnitRead(b, LowHalf(r), rest);
    var s := e + rest;
    assert UnitEscape(a) + (UnitEscape(b) + rest) == s;
    assert s[1..][7..] == (UnitEscape(b) + rest)[1..][1..];
    assert s[6] == BACKSLASH && s[7] == 'u' as int;
    assert HighSurrogate(HighHalf(r)) && LowSurrogate(LowHalf(r));
    assert EscapeU(s[1..]) == Some((r, 11));
    RunesNotEmpty(r);
    OneReads(EncodeRune(r), e, rest);
  }

  lemma RunesNotEmpty(r: int)
    ensures EncodeRune(r) != []
  {
  }

  /** One escape of any other scalar value reads as that value, whatever follows. */
  lemma UnitReads(r: int, a: bytes, rest: bytes)
    requires 0 <= r < 0x10000 && Scalar(r) && Spells(a, r)
    ensures ReadOne(UnitEscape(a) + rest) == Some((EncodeRune(r), 6))
    ensures Unescaped(UnitEscape(a) + rest) == Prepend(EncodeRune(r), Unescaped(rest))
  {
    hide HexRead, Spells, EncodeRune, Unescaped;
    SpellsFour(a, r);
    UnitRead(a, r, rest);
    assert ReadOne(UnitEscape(a) + rest) == Some((EncodeRune(r), 6));
    OneReads(EncodeRune(r), UnitEscape(a), rest);
  }

  /** The escape of a low half stands next. */
  ghost predicate LowNext(s: bytes) {
    |s| >= 6 && s[..2] == [BACKSLASH, 'u' as int] && exists v: nat :: LowSurrogate(v) && Spells(s[2..6], v)
  }

  /** A half on its own reads as U+FFFD: a low one, or a high one without a low one behind it. */
  lemma LoneHalfReads(v: nat, a: bytes, rest: bytes)
    requires Spells(a, v) && (LowSurrogate(v) || (HighSurrogate(v) && !LowNext(rest)))
    ensures ReadOne(UnitEscape(a) + rest) == Some((REPLACEMENT, 6))
    ensures Unescaped(UnitEscape(a) + rest) == Prepend(REPLACEMENT, Unescaped(rest))
  {
    hide HexRead, Spells, Unescaped;
    var s := UnitEscape(a) + rest;
    SpellsFour(a, v);
    UnitRead(a, v, rest);
    if HighSurrogate(v) && |s| >= 12 && s[6] == BACKSLASH && s[7] == 'u' as int {
      assert rest[..2] == [BACKSLASH, 'u' as int];
      assert s[1..][7..][..4] == rest[2..6];
      var w := Hex4(s[1..][7..]);
      if w.Some? {
        HexReadSpells(rest[2..6], w.value);
      }
    }
    OneReads(REPLACEMENT, UnitEscape(a), rest);
  }

  /** Without four hexadecimal digits behind it a \u is refused. */
  lemma BadUnitRefused(s: bytes)
    requires |s| >= 2 && s[..2] == [BACKSLASH, 'u' as int]
    requires |s| < 6 || forall v: nat :: !Spells(s[2..6], v)
    ensures ReadOne(s) == None && Unescaped(s) == None
  {
    hide HexRead, Spells;
    assert s[0] == BACKSLASH && s[1] == 'u' as int && s[1..][1..] == s[2..];
    if |s| >= 6 {
      assert s[2..][..4] == s[2..6];
      if HexRead(s[2..6]).Some? {
        HexReadSpells(s[2..6], HexRead(s[2..6]).value);
      }
    }
  }

  // ---- The other escapes, and what needs none ----

  /** The characters behind a backslash, and what each denotes: `"`, `\\`, `/`, b, f, n, r, t. */
  const SHORT: bytes := [0x22, 0x5C, 0x2F, 0x62, 0x66, 0x6E, 0x72, 0x74]

  const DENOTES: bytes := [0x22, 0x5C, 0x2F, 0x08, 0x0C, 0x0A, 0x0D, 0x09]

  lemma ShortReads(i: nat, rest: bytes)
    requires i < |SHORT|
    ensures ReadOne([BACKSLASH, SHORT[i]] + rest) == Some(([DENOTES[i]], 2))
    ensures Unescaped([BACKSLASH, SHORT[i]] + rest) == Prepend([DENOTES[i]], Unescaped(rest))
  {
    hide Unescaped;
    OneReads([DENOTES[i]], [BACKSLASH, SHORT[i]], rest);
  }

  lemma OtherEscapesRefused(e: byte, rest: bytes)
    requires e !in SHORT && e != 'u' as int
    ensures Unescaped([BACKSLASH, e] + rest) == None
  {
    var s := [BACKSLASH, e] + rest;
    assert s[0] == BACKSLASH && s[1] == e;
    assert SHORT[0] != e && SHORT[1] != e && SHORT[2] != e && SHORT[3] != e && SHORT[4] != e && SHORT[5] != e && SHORT[6] != e && SHORT[7] != e;
    assert ReadOne(s) == None;
  }

  /** Anything but a quote, a backslash or a control character stands for itself; quotes and control characters are refused. */
  lemma OthersRead(b: byte, rest: bytes)
    requires b != BACKSLASH
    ensures Unescaped([b] + rest) == if b == 0x22 || b < 0x20 then None else Prepend([b], Unescaped(rest))
  {
    assert ([b] + rest)[1..] == rest;
  }

  lemma LoneBackslashRefused()
    ensures Unescaped([BACKSLASH]) == None
  {
    assert ReadOne([BACKSLASH]) == None;
  }

  // ---- UTF-8 ----

  /** One continuation byte holds six bits. */
  lemma SixBits(r: int)
    requires 0 <= r
    ensures Cont(Low(r)) && Bits(r / 64, Low(r) - 0x80) == r && Low(r) == 0x80 + (r - r / 64 * 64)
    ensures Bits(0, r) == r
  {
  }

  lemma TwoBytes(r: int, rest: bytes)
    requires 0x80 <= r < 0x800
    ensures DecodeRune(EncodeRune(r) + rest) == (r, 2)
  {
    hide Low, Bits, Cont;
    SixBits(r);
    SixBits(r / 64);
    var s := EncodeRune(r) + rest;
    assert s[0] == 0xC0 + r / 64 && s[1] == Low(r);
  }

  lemma ThreeBytes(r: int, rest: bytes)
    requires 0x800 <= r < 0x10000 && Scalar(r)
    ensures DecodeRune(EncodeRune(r) + rest) == (r, 3)
  {
    hide Low, Bits, Cont;
    var q := r / 64;
    SixBits(r);
    SixBits(q);
    SixBits(q / 64);
    var s := EncodeRune(r) + rest;
    assert s[0] == 0xE0 + q / 64 && s[1] == Low(q) && s[2] == Low(r);
    assert s[0] == 0xE0 ==> s[1] >= 0xA0;
    assert s[0] == 0xED ==> s[1] < 0xA0;
  }

  lemma FourBytes(r: int, rest: bytes)
    requires 0x10000 <= r <= 0x10FFFF
    ensures DecodeRune(EncodeRune(r) + rest) == (r, 4)
  {
    hide Low, Bits, Cont;
    var q := r / 64;
    var p := q / 64;
    SixBits(r);
    SixBits(q);
    SixBits(p);
    SixBits(p / 64);
    var s := EncodeRune(r) + rest;
    assert s[0] == 0xF0 + p / 64 && s[1] == Low(p) && s[2] == Low(q) && s[3] == Low(r);
    assert s[0] == 0xF0 ==> s[1] >= 0x90;
    assert s[0] == 0xF4 ==> s[1] < 0x90;
  }

  /** The bytes of a scalar value decode to it, whatever follows. */
  lemma RuneDecodes(r: int, rest: bytes)
    requires Scalar(r)
    ensures DecodeRune(EncodeRune(r) + rest) == (r, |EncodeRune(r)|)
  {
    if r < 0x80 {
    } else if r < 0x800 {
      TwoBytes(r, rest);
    } else if r < 0x10000 {
      ThreeBytes(r, rest);
    } else {
      FourBytes(r, rest);
    }
  }

  // ---- What the writer escapes ----

  predicate NeedsEscape(b: byte) { b < 0x20 || b in {0x22, 0x5C, 0x3C, 0x3E, 0x26} }

  /**
   * A byte below 0x80 is written as itself unless it is a control character, a quote, a backslash, `<`, `>` or `&`: then by
   * its short escape (form feed, tabulator and the like), `<`, `>`, `&` and the rest in four hexadecimal digits.
   */
  lemma AsciiWritten(b: byte)
    requires b < 0x80
    ensures !NeedsEscape(b) ==> EscapeAscii(b) == [b]
    ensures forall i: nat :: i < |SHORT| && SHORT[i] != 0x2F && DENOTES[i] == b ==> EscapeAscii(b) == [BACKSLASH, SHORT[i]]
    ensures NeedsEscape(b) && b !in DENOTES ==> Spells(EscapeAscii(b)[2..], b) && EscapeAscii(b) == UnitEscape(EscapeAscii(b)[2..])
  {
    hide Spells;
    if NeedsEscape(b) && b !in DENOTES {
      assert DENOTES[0] != b && DENOTES[1] != b && DENOTES[3] != b && DENOTES[4] != b && DENOTES[5] != b && DENOTES[6] != b && DENOTES[7] != b;
      var a: bytes := ['0' as int, '0' as int, Hex(b / 16), Hex(b % 16)];
      assert EscapeAscii(b) == UnitEscape(a);
      assert EscapeAscii(b)[2..] == a;
      HexReadsBack(b / 16);
      HexReadsBack(b % 16);
      HexFour('0' as int, '0' as int, Hex(b / 16), Hex(b % 16));
      HexReadSpells(a, b);
    }
  }

  /** No markup or control character, and no quote or separator, stands in quoted text as itself. */
  lemma {:induction false} EscapedSafe(s: bytes, i: nat)
    requires i < |Escaped(s)|
    ensures Escaped(s)[i] >= 0x20 && Escaped(s)[i] !in {0x3C, 0x3E, 0x26}
    ensures Escaped(s)[i] == 0x22 ==> i > 0 && Escaped(s)[i - 1] == BACKSLASH
  {
    hide Escape, IllFormed, DecodeRune;
    EscapeSafe(s);
    var e, rest := Escape(s), Escaped(s[DecodeRune(s).1..]);
    assert Escaped(s) == e + rest;
    if i < |e| {
      assert Escaped(s)[i] == e[i] && (i > 0 ==> Escaped(s)[i - 1] == e[i - 1]);
    } else {
      EscapedSafe(s[DecodeRune(s).1..], i - |e|);
      assert Escaped(s)[i] == rest[i - |e|] && (i > |e| ==> Escaped(s)[i - 1] == rest[i - |e| - 1]);
    }
  }

  predicate Safe(e: bytes) {
    forall i :: 0 <= i < |e| ==>
      && e[i] >= 0x20 && e[i] !in {0x3C, 0x3E, 0x26}
      && (e[i] == 0x22 ==> i > 0 && e[i - 1] == BACKSLASH)
  }

  lemma EscapeSafe(s: bytes)
    requires s != []
    ensures Safe(Escape(s))
  {
    hide EscapeAscii, Bits, Cont;
    if s[0] < 0x80 {
      AsciiSafe(s[0]);
    } else if !IllFormed(s) {
      HighHead(s);
    }
  }

  lemma AsciiSafe(b: byte)
    requires b < 0x80
    ensures Safe(EscapeAscii(b))
  {
  }

  lemma HighHead(s: bytes)
    requires s != [] && s[0] >= 0x80 && !IllFormed(s)
    ensures forall i :: 0 <= i < DecodeRune(s).1 ==> s[i] >= 0x80
  {
    hide Bits;
  }

  /** The line and paragraph separators, which JavaScript takes for line ends, are written as escapes. */
  lemma SeparatorWritten(s: bytes)
    requires s != [] && s[0] >= 0x80 && DecodeRune(s).0 in {0x2028, 0x2029}
    ensures |Escape(s)| == 6 && Escape(s) == UnitEscape(Escape(s)[2..]) && Spells(Escape(s)[2..], DecodeRune(s).0)
  {
    hide Spells, Bits, Cont;
    var c := DecodeRune(s).0;
    var a: bytes := ['2' as int, '0' as int, '2' as int, Hex(c % 16)];
    assert Escape(s) == UnitEscape(a);
    assert Escape(s)[2..] == a;
    HexReadsBack(c % 16);
    HexFour('2' as int, '0' as int, '2' as int, Hex(c % 16));
    HexReadSpells(a, c);
  }
}
