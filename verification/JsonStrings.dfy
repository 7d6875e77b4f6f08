/// JSON string text (go/pkg/protocol/value_json.go:27-86, value_msgpack.go:85-199): quoting
/// bytes and reading the quoted text back (section 7 of RFC 8259).
module JsonStrings {
  import opened Text

  type byte = b: int | 0 <= b < 256

  type bytes = seq<byte>

  const RUNE_ERROR := 0xFFFD
  const REPLACEMENT: bytes := [0xEF, 0xBF, 0xBD]

  // ---- UTF-8 ----

  predicate Cont(b: byte) { 0x80 <= b < 0xC0 }

  /** Six more bits of a code point. */
  function Bits(high: int, low: int): int { high * 64 + low }

  /** The code point at the head and its length; an ill-formed head is U+FFFD of length one (RFC 3629, section 4). */
  function DecodeRune(s: bytes): (r: (int, nat))
    requires s != []
    ensures 1 <= r.1 <= |s| && r.1 <= 4
  {
    var b := s[0];
    if b < 0x80 then (b as int, 1)
    else if 0xC2 <= b < 0xE0 && |s| >= 2 && Cont(s[1]) then (Bits(Bits(0, b - 0xC0), s[1] - 0x80), 2)
    else if 0xE0 <= b < 0xF0 && |s| >= 3 && Cont(s[1]) && Cont(s[2]) && (b == 0xE0 ==> s[1] >= 0xA0) && (b == 0xED ==> s[1] < 0xA0) then
      (Bits(Bits(Bits(0, b - 0xE0), s[1] - 0x80), s[2] - 0x80), 3)
    else if 0xF0 <= b < 0xF5 && |s| >= 4 && Cont(s[1]) && Cont(s[2]) && Cont(s[3]) && (b == 0xF0 ==> s[1] >= 0x90) && (b == 0xF4 ==> s[1] < 0x90) then
      (Bits(Bits(Bits(Bits(0, b - 0xF0), s[1] - 0x80), s[2] - 0x80), s[3] - 0x80), 4)
    else (RUNE_ERROR, 1)
  }

  function Low(r: int): byte { 0x80 + r % 64 }

  lemma BitsBack(high: int, low: int)
    requires 0 <= low < 64
    ensures Bits(high, low) / 64 == high && Low(Bits(high, low)) == 0x80 + low
  {
  }

  /** The bytes of a code point; what is not a Unicode scalar value is written as U+FFFD. */
  function EncodeRune(r: int): bytes {
    if 0 <= r < 0x80 then [r]
    else if 0x80 <= r < 0x800 then [0xC0 + r / 64, Low(r)]
    else if r < 0 || 0xD800 <= r < 0xE000 || r > 0x10FFFF then REPLACEMENT
    else if r < 0x10000 then [0xE0 + r / 64 / 64, Low(r / 64), Low(r)]
    else [0xF0 + r / 64 / 64 / 64, Low(r / 64 / 64), Low(r / 64), Low(r)]
  }

  predicate IllFormed(s: bytes)
    requires s != []
  {
    s[0] >= 0x80 && DecodeRune(s) == (RUNE_ERROR, 1)
  }

  lemma EncodeDecoded(s: bytes)
    requires s != [] && !IllFormed(s)
    ensures EncodeRune(DecodeRune(s).0) == s[..DecodeRune(s).1]
  {
    var b, n := s[0], DecodeRune(s).1;
    if n == 2 {
      BitsBack(b - 0xC0, s[1] - 0x80);
    } else if n == 3 {
      var x := Bits(b - 0xE0, s[1] - 0x80);
      BitsBack(b - 0xE0, s[1] - 0x80);
      BitsBack(x, s[2] - 0x80);
    } else if n == 4 {
      var x := Bits(b - 0xF0, s[1] - 0x80);
      var y := Bits(x, s[2] - 0x80);
      BitsBack(b - 0xF0, s[1] - 0x80);
      BitsBack(x, s[2] - 0x80);
      BitsBack(y, s[3] - 0x80);
    }
  }

  /** Text with each ill-formed byte replaced by U+FFFD. */
  function Sanitised(s: bytes): bytes {
    if s == [] then [] else Unit(s) + Sanitised(s[DecodeRune(s).1..])
  }

  function Unit(s: bytes): bytes
    requires s != []
  {
    if IllFormed(s) then REPLACEMENT else s[..DecodeRune(s).1]
  }

  predicate ValidUtf8(s: bytes) {
    s == [] || (!IllFormed(s) && ValidUtf8(s[DecodeRune(s).1..]))
  }

  /** Valid text is exactly what needs no replacement. */
  lemma {:induction false} SanitisedIsSame(s: bytes)
    ensures |s| <= |Sanitised(s)|
    ensures Sanitised(s) == s <==> ValidUtf8(s)
  {
    if s != [] {
      var n := DecodeRune(s).1;
      SanitisedIsSame(s[n..]);
      assert s == s[..n] + s[n..];
      if Sanitised(s) == s && !IllFormed(s) {
        assert Sanitised(s)[n..] == Sanitised(s[n..]);
      }
    }
  }

  // ---- Quoting ----

  function Hex(n: int): byte
    requires 0 <= n < 16
  {
    if n < 10 then '0' as int + n else 'a' as int - 10 + n
  }

  predicate Plain(b: byte) {
    b >= 0x20 && b != '"' as int && b != '\\' as int && b != '<' as int && b != '>' as int && b != '&' as int
  }

  function EscapeAscii(b: byte): bytes
    requires b < 0x80
  {
    if Plain(b) then [b]
    else if b == '\\' as int || b == '"' as int then ['\\' as int, b]
    else if b == 8 then ['\\' as int, 'b' as int]
    else if b == 12 then ['\\' as int, 'f' as int]
    else if b == 10 then ['\\' as int, 'n' as int]
    else if b == 13 then ['\\' as int, 'r' as int]
    else if b == 9 then ['\\' as int, 't' as int]
    else ['\\' as int, 'u' as int, '0' as int, '0' as int, Hex(b / 16), Hex(b % 16)]
  }

  function SeparatorEscape(c: int): bytes { ['\\' as int, 'u' as int, '2' as int, '0' as int, '2' as int, Hex(c % 16)] }

  /** How the head of the text is written. */
  function Escape(s: bytes): bytes
    requires s != []
  {
    if s[0] < 0x80 then EscapeAscii(s[0])
    else if IllFormed(s) then REPLACEMENT
    else
      var (c, n) := DecodeRune(s);
      if c == 0x2028 || c == 0x2029 then SeparatorEscape(c) else s[..n]
  }

  function Escaped(s: bytes): bytes {
    if s == [] then [] else Escape(s) + Escaped(s[DecodeRune(s).1..])
  }

  const QUOTE: byte := '"' as int

  function Quoted(s: bytes): (r: bytes)
    ensures |r| >= 2 && r[0] == QUOTE && r[|r| - 1] == QUOTE
  {
    [QUOTE] + Escaped(s) + [QUOTE]
  }

  /** Appends the quoted text, copying runs that need no escape in one piece. */
  method AppendJsonString(prefix: bytes, src: bytes) returns (dst: bytes)
    ensures dst == prefix + Quoted(src)
  {
    hide Escaped, Escape, EscapeAscii, DecodeRune, IllFormed;
    dst := prefix + [QUOTE];
    var start, i := 0, 0;
    assert src[0..] == src;
    while i < |src|
      invariant 0 <= start <= i <= |src|
      invariant prefix + [QUOTE] + Escaped(src) == dst + src[start..i] + Escaped(src[i..])
      decreases |src| - i
    {
      HeadAt(src, i);
      EscapeOf(src[i..]);
      ghost var n := DecodeRune(src[i..]).1;
      ghost var tail := Escaped(src[i + n..]);
      var b := src[i];
      if b < 0x80 {
        if Plain(b) {
          RunGrows(dst, src, start, i, i + 1, tail);
          i := i + 1;
          continue;
        }
        Copied(dst, src[start..i], EscapeAscii(b), tail, src, i + 1);
        dst := dst + src[start..i] + EscapeAscii(b);
        i := i + 1;
        start := i;
        continue;
      }
      var win := src[i..if |src| < i + 4 then |src| else i + 4];
      WindowDecodes(src, i);
      var (c, size) := DecodeRune(win);
      if c == RUNE_ERROR && size == 1 {
        Copied(dst, src[start..i], REPLACEMENT, tail, src, i + 1);
        dst := dst + src[start..i] + REPLACEMENT;
        i := i + 1;
        start := i;
        continue;
      }
      if c == 0x2028 || c == 0x2029 {
        Copied(dst, src[start..i], SeparatorEscape(c), tail, src, i + size);
        dst := dst + src[start..i] + SeparatorEscape(c);
        i := i + size;
        start := i;
        continue;
      }
      RunGrows(dst, src, start, i, i + size, tail);
      i := i + size;
    }
    NothingEscaped();
    assert src[i..] == [] && src[start..i] == src[start..];
    assert dst + src[start..] + [] == dst + src[start..];
    dst := dst + src[start..];
    assert dst == prefix + [QUOTE] + Escaped(src);
    dst := dst + [QUOTE];
    assert dst == prefix + ([QUOTE] + Escaped(src) + [QUOTE]);
  }

  lemma NothingEscaped()
    ensures Escaped([]) == []
  {
  }

  lemma EscapeOf(s: bytes)
    requires s != []
    ensures var (c, n) := DecodeRune(s);
      Escape(s) == if s[0] < 0x80 then EscapeAscii(s[0]) else if c == RUNE_ERROR && n == 1 then REPLACEMENT
                   else if c == 0x2028 || c == 0x2029 then SeparatorEscape(c) else s[..n]
    ensures s[0] < 0x80 ==> DecodeRune(s).1 == 1 && (Plain(s[0]) ==> EscapeAscii(s[0]) == s[..1])
  {
  }

  lemma HeadAt(src: bytes, i: nat)
    requires i < |src|
    ensures var n := DecodeRune(src[i..]).1; i + n <= |src| && Escaped(src[i..]) == Escape(src[i..]) + Escaped(src[i + n..])
  {
    assert src[i..][DecodeRune(src[i..]).1..] == src[i + DecodeRune(src[i..]).1..];
  }

  lemma RunGrows(dst: bytes, src: bytes, start: nat, i: nat, j: nat, tail: bytes)
    requires start <= i <= j <= |src|
    ensures dst + src[start..i] + (src[i..][..j - i] + tail) == dst + src[start..j] + tail
  {
    assert src[i..][..j - i] == src[i..j] && src[start..j] == src[start..i] + src[i..j];
  }

  lemma Copied(dst: bytes, run: bytes, e: bytes, tail: bytes, src: bytes, j: nat)
    requires j <= |src|
    ensures dst + run + (e + tail) == dst + run + e + src[j..j] + tail
  {
  }

  lemma WindowDecodes(src: bytes, i: nat)
    requires i < |src|
    ensures DecodeRune(src[i..if |src| < i + 4 then |src| else i + 4]) == DecodeRune(src[i..])
  {
  }

  // ---- Reading back ----

  function HexValue(c: byte): Option<int> {
    if '0' as int <= c <= '9' as int then Some(c - '0' as int)
    else if 'a' as int <= c <= 'f' as int then Some(c - 'a' as int + 10)
    else if 'A' as int <= c <= 'F' as int then Some(c - 'A' as int + 10)
    else None
  }

  /** Hexadecimal digits read from left to right. */
  function HexRead(s: bytes): Option<nat> {
    if s == [] then Some(0)
    else
      var before, last := HexRead(s[..|s| - 1]), HexValue(s[|s| - 1]);
      if before.None? || last.None? then None else Some(before.value * 16 + last.value)
  }

  function Hex4(s: bytes): Option<nat> { if |s| < 4 then None else HexRead(s[..4]) }

  method ParseHex4(b: bytes, at: nat) returns (r: Option<nat>)
    requires at <= |b|
    ensures r == Hex4(b[at..])
  {
    if at + 4 > |b| {
      return None;
    }
    ghost var s := b[at..][..4];
    var v := 0;
    for k := 0 to 4
      invariant HexRead(s[..k]) == Some(v)
    {
      assert s[..k + 1][..k] == s[..k] && b[at + k] == s[k];
      var c := b[at + k];
      if '0' as int <= c <= '9' as int {
        v := v * 16 + (c - '0' as int);
      } else if 'a' as int <= c <= 'f' as int {
        v := v * 16 + (c - 'a' as int + 10);
      } else if 'A' as int <= c <= 'F' as int {
        v := v * 16 + (c - 'A' as int + 10);
      } else {
        HexStops(s, k + 1);
        return None;
      }
    }
    assert s[..4] == s;
    return Some(v);
  }

  lemma {:induction false} HexStops(s: bytes, k: nat)
    requires k <= |s| && HexRead(s[..k]).None?
    ensures HexRead(s).None?
    decreases |s|
  {
    if k == |s| {
      assert s[..k] == s;
    } else {
      assert s[..|s| - 1][..k] == s[..k];
      HexStops(s[..|s| - 1], k);
    }
  }

  predicate HighSurrogate(v: int) { 0xD800 <= v <= 0xDBFF }

  predicate LowSurrogate(v: int) { 0xDC00 <= v <= 0xDFFF }

  /** A \u escape from its u on, a surrogate pair taken together: the code point and the bytes read. */
  function EscapeU(s: bytes): (r: Option<(int, nat)>)
    requires s != []
    ensures r.Some? ==> 5 <= r.value.1 <= |s|
  {
    var v1 := Hex4(s[1..]);
    if v1.None? then None
    else if !HighSurrogate(v1.value) then Some((v1.value, 5))
    else if |s| < 11 || s[5] != '\\' as int || s[6] != 'u' as int then Some((RUNE_ERROR, 5))
    else
      var v2 := Hex4(s[7..]);
      if v2.None? || !LowSurrogate(v2.value) then Some((RUNE_ERROR, 5))
      else Some((0x10000 + (v1.value - 0xD800) * 1024 + (v2.value - 0xDC00), 11))
  }

  /** A byte that may not stand in a body unescaped. */
  predicate Bare(b: byte) { b == QUOTE || b < 0x20 }

  /** One character or escape at the head of a body: its bytes and how many were read. */
  function ReadOne(s: bytes): (r: Option<(bytes, nat)>)
    requires s != []
    ensures r.Some? ==> 1 <= r.value.1 <= |s|
  {
    if Bare(s[0]) then None
    else if s[0] != '\\' as int then Some(([s[0]], 1))
    else if |s| < 2 then None
    else
      var e := s[1];
      if e == QUOTE || e == '\\' as int || e == '/' as int then Some(([e], 2))
      else if e == 'b' as int then Some(([8], 2))
      else if e == 'f' as int then Some(([12], 2))
      else if e == 'n' as int then Some(([10], 2))
      else if e == 'r' as int then Some(([13], 2))
      else if e == 't' as int then Some(([9], 2))
      else if e == 'u' as int then
        var u := EscapeU(s[1..]);
        if u.None? then None else Some((EncodeRune(u.value.0), 1 + u.value.1))
      else None
  }

  function Prepend(p: bytes, r: Option<bytes>): Option<bytes> { if r.None? then None else Some(p + r.value) }

  function Unescaped(s: bytes): Option<bytes> {
    if s == [] then Some([])
    else
      var one := ReadOne(s);
      if one.None? then None else Prepend(one.value.0, Unescaped(s[one.value.1..]))
  }

  function Payload(t: bytes): Option<bytes> {
    if |t| < 2 || t[|t| - 1] != QUOTE then None else Unescaped(t[1..|t| - 1])
  }

  lemma {:induction false} NoEscapes(s: bytes)
    requires '\\' as int !in s && forall i :: 0 <= i < |s| ==> !Bare(s[i])
    ensures Unescaped(s) == Some(s)
  {
    if s != [] {
      NoEscapes(s[1..]);
      assert s == [s[0]] + s[1..];
    }
  }

  lemma {:induction false} BareStops(s: bytes, i: nat)
    requires '\\' as int !in s && i < |s| && Bare(s[i])
    ensures Unescaped(s) == None
  {
    if i > 0 {
      BareStops(s[1..], i - 1);
    }
  }

  lemma UnescapeNext(body: bytes, i: nat, out: bytes)
    requires i < |body|
    ensures var one := ReadOne(body[i..]);
      if one.None? then Prepend(out, Unescaped(body[i..])).None?
      else i + one.value.1 <= |body| && Prepend(out, Unescaped(body[i..])) == Prepend(out + one.value.0, Unescaped(body[i + one.value.1..]))
  {
    var one := ReadOne(body[i..]);
    if one.Some? {
      assert body[i..][one.value.1..] == body[i + one.value.1..];
      PrependTwice(out, one.value.0, Unescaped(body[i + one.value.1..]));
    }
  }

  lemma PrependTwice(p: bytes, q: bytes, r: Option<bytes>)
    ensures Prepend(p, Prepend(q, r)) == Prepend(p + q, r)
  {
    if r.Some? {
      assert p + (q + r.value) == p + q + r.value;
    }
  }

  lemma UnescapeEnd(s: bytes, out: bytes)
    requires s == []
    ensures Prepend(out, Unescaped(s)) == Some(out)
  {
    assert out + [] == out;
  }

  lemma UnescapeStart(s: bytes)
    ensures Prepend([], Unescaped(s)) == Unescaped(s) && s[0..] == s
  {
    if Unescaped(s).Some? {
      assert [] + Unescaped(s).value == Unescaped(s).value;
    }
  }

  /** The decoded text of a quoted string; t starts with a quote. */
  method JsonStringPayload(t: bytes) returns (r: Option<bytes>)
    ensures r == Payload(t)
  {
    if |t| < 2 || t[|t| - 1] != QUOTE {
      return None;
    }
    var body := t[1..|t| - 1];
    hide Unescaped;
    if '\\' as int !in body {
      for i := 0 to |body|
        invariant forall k :: 0 <= k < i ==> !Bare(body[k])
      {
        if body[i] == QUOTE || body[i] < 0x20 {
          BareStops(body, i);
          return None;
        }
      }
      NoEscapes(body);
      return Some(body);
    }
    r := UnescapeBody(body);
  }

  method UnescapeBody(body: bytes) returns (r: Option<bytes>)
    ensures r == Unescaped(body)
  {
    hide *;
    var out: bytes := [];
    var i := 0;
    UnescapeStart(body);
    while i < |body|
      invariant 0 <= i <= |body| && Unescaped(body) == Prepend(out, Unescaped(body[i..]))
      decreases |body| - i
    {
      UnescapeNext(body, i, out);
      var one := ReadOne(body[i..]);
      if one.None? {
        return None;
      }
      out := out + one.value.0;
      i := i + one.value.1;
    }
    UnescapeEnd(body[i..], out);
    return Some(out);
  }

  // ---- The round trip ----

  lemma ReadHex(h: bytes, rest: bytes, v: nat)
    requires |h| == 4 && HexRead(h) == Some(v)
    ensures Hex4(h + rest) == Some(v)
  {
    assert (h + rest)[..4] == h;
  }

  lemma HexReadsBack(n: int)
    requires 0 <= n < 16
    ensures HexValue(Hex(n)) == Some(n)
  {
  }

  lemma HexFour(a: byte, b: byte, c: byte, d: byte)
    requires HexValue(a).Some? && HexValue(b).Some? && HexValue(c).Some? && HexValue(d).Some?
    ensures HexRead([a, b, c, d]) == Some(((HexValue(a).value * 16 + HexValue(b).value) * 16 + HexValue(c).value) * 16 + HexValue(d).value)
  {
    assert [a, b, c, d][..3] == [a, b, c] && [a, b, c][..2] == [a, b] && [a, b][..1] == [a];
    assert HexRead([]) == Some(0) && [a][..0] == [];
    assert HexRead([a]) == HexValue(a);
    assert HexRead([a, b]) == Some(HexValue(a).value * 16 + HexValue(b).value);
    assert HexRead([a, b, c]) == Some((HexValue(a).value * 16 + HexValue(b).value) * 16 + HexValue(c).value);
  }

  /** A written \u escape of a plain code point reads as its bytes. */
  lemma ReadU(a: byte, b: byte, c: byte, d: byte, rest: bytes, v: nat)
    requires HexRead([a, b, c, d]) == Some(v) && !HighSurrogate(v)
    ensures ReadOne(['\\' as int, 'u' as int, a, b, c, d] + rest) == Some((EncodeRune(v), 6))
  {
    var s: bytes := ['\\' as int, 'u' as int, a, b, c, d] + rest;
    assert s[1..][1..] == [a, b, c, d] + rest;
    ReadHex([a, b, c, d], rest, v);
  }

  lemma {:induction false} HighBytesPass(p: bytes, rest: bytes)
    requires forall i :: 0 <= i < |p| ==> p[i] >= 0x80
    ensures Unescaped(p + rest) == Prepend(p, Unescaped(rest))
  {
    if p == [] {
      assert p + rest == rest;
      UnescapeStart(rest);
    } else {
      HighBytesPass(p[1..], rest);
      assert (p + rest)[1..] == p[1..] + rest && ReadOne(p + rest) == Some(([p[0]], 1));
      PrependTwice([p[0]], p[1..], Unescaped(rest));
      assert [p[0]] + p[1..] == p;
    }
  }

  lemma AsciiReads(b: byte, rest: bytes)
    requires b < 0x80
    ensures ReadOne(EscapeAscii(b) + rest) == Some(([b], |EscapeAscii(b)|))
  {
    var e := EscapeAscii(b);
    if |e| == 6 {
      HexReadsBack(b / 16);
      HexReadsBack(b % 16);
      HexFour('0' as int, '0' as int, Hex(b / 16), Hex(b % 16));
      ReadU('0' as int, '0' as int, Hex(b / 16), Hex(b % 16), rest, b);
    }
  }

  lemma SeparatorReads(s: bytes, rest: bytes)
    requires s != [] && DecodeRune(s).0 in {0x2028, 0x2029}
    ensures ReadOne(Escape(s) + rest) == Some((Unit(s), 6)) && |Escape(s)| == 6
  {
    var c := DecodeRune(s).0;
    HexReadsBack(c % 16);
    HexFour('2' as int, '0' as int, '2' as int, Hex(c % 16));
    ReadU('2' as int, '0' as int, '2' as int, Hex(c % 16), rest, c);
    EncodeDecoded(s);
  }

  lemma OneReads(p: bytes, e: bytes, rest: bytes)
    requires e != [] && ReadOne(e + rest) == Some((p, |e|))
    ensures Unescaped(e + rest) == Prepend(p, Unescaped(rest))
  {
    assert (e + rest)[|e|..] == rest;
  }

  lemma EscapeReads(s: bytes, rest: bytes)
    requires s != []
    ensures Unescaped(Escape(s) + rest) == Prepend(Unit(s), Unescaped(rest))
  {
    if s[0] < 0x80 {
      AsciiReads(s[0], rest);
      OneReads([s[0]], Escape(s), rest);
      assert Unit(s) == [s[0]];
    } else if DecodeRune(s).0 in {0x2028, 0x2029} {
      SeparatorReads(s, rest);
      OneReads(Unit(s), Escape(s), rest);
    } else {
      HighBytesPass(Unit(s), rest);
    }
  }

  lemma {:induction false} UnescapesBack(s: bytes)
    ensures Unescaped(Escaped(s)) == Some(Sanitised(s))
  {
    if s != [] {
      var n := DecodeRune(s).1;
      UnescapesBack(s[n..]);
      EscapeReads(s, Escaped(s[n..]));
    }
  }

  /** Reading quoted text gives the text with ill-formed bytes replaced, so it gives the text itself exactly when that is valid UTF-8. */
  lemma QuoteRoundTrip(s: bytes)
    ensures Payload(Quoted(s)) == Some(Sanitised(s))
    ensures Payload(Quoted(s)) == Some(s) <==> ValidUtf8(s)
  {
    var t := Quoted(s);
    assert t[1..|t| - 1] == Escaped(s);
    UnescapesBack(s);
    SanitisedIsSame(s);
  }
}
