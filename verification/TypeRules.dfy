/// Which column types compare equal: the MySQL and Oracle rules read off the words of a
/// type and the sizes behind them (go/pkg/schemadiff/normalize.go:233-254).
module TypeRules {
  import opened Text
  import opened Sequences
  import opened Normalize
  import opened TypeNames

  // ---- Types as words with sizes ----

  /** One word of a type with the sizes in the parentheses behind it, as in `numeric(10,2)`. */
  datatype Token = Token(word: string, sizes: seq<string>)

  predicate WordText(w: string) { w != [] && IsLower(w) && forall i :: 0 <= i < |w| ==> IsWord(w[i]) }

  predicate SizesOk(sizes: seq<string>) { forall i :: 0 <= i < |sizes| ==> AllDigits(sizes[i]) }

  predicate TokenOk(t: Token) { WordText(t.word) && SizesOk(t.sizes) }

  function Suffix(t: Token): string { if t.sizes == [] then "" else "(" + Join(t.sizes, ",") + ")" }

  function Rendered(t: Token): string { t.word + Suffix(t) }

  function TypeText(ts: seq<Token>): string { Join(Map(Rendered, ts), " ") }

  ghost predicate TypeOk(ts: seq<Token>) { ts != [] && forall t :: t in ts ==> TokenOk(t) }

  predicate IntWord(w: string) { w in {"tinyint", "smallint", "mediumint", "int", "integer", "bigint"} }

  predicate NumberWord(w: string) { w in {"number", "numeric"} }

  /** MySQL: the display width of an integer type goes. */
  function MySqlToken(t: Token): Token { if IntWord(t.word) && |t.sizes| == 1 then t.(sizes := []) else t }

  /** Oracle: bpchar is char, and a scale of zeros goes. */
  function OracleType(t: Token): Token {
    if t.word == "bpchar" then t.(word := "char")
    else if NumberWord(t.word) && |t.sizes| == 2 && (forall i :: 0 <= i < |t.sizes[1]| ==> t.sizes[1][i] == '0')
      then t.(sizes := [t.sizes[0]])
    else t
  }

  // ---- One token ----

  predicate SizeText(s: string) { forall i :: 0 <= i < |s| ==> IsDigit(s[i]) || s[i] == ',' }

  lemma {:induction false} SizesText(sizes: seq<string>)
    requires SizesOk(sizes)
    ensures SizeText(Join(sizes, ","))
  {
    if |sizes| > 1 {
      assert SizesOk(sizes[1..]);
      SizesText(sizes[1..]);
    }
  }

  lemma RenderedText(t: Token)
    requires TokenOk(t)
    ensures var r := Rendered(t);
      && r != [] && SpaceFree(r) && IsLower(r) && !Closes(r[0]) && !Opens(r[|r| - 1])
      && Stem(r) == t.word && TokenTail(r) == Suffix(t)
  {
    var r, x := Rendered(t), Suffix(t);
    SizesText(t.sizes);
    assert forall i :: 0 <= i < |x| ==> x[i] == '(' || x[i] == ')' || IsDigit(x[i]) || x[i] == ',';
    assert forall i :: 0 <= i < |r| ==> r[i] == if i < |t.word| then t.word[i] else x[i - |t.word|];
    assert x != [] ==> !IsWord(x[0]);
    StemConcat(t.word, x);
  }

  /** Text without an opening parenthesis passes through the width scan. */
  lemma {:induction false} WidthFree(out: string, w: string, rest: string)
    requires Free(w, '(')
    ensures StripFrom(out, w + rest) == StripFrom(out + w, rest)
    decreases |w|
  {
    if w == [] {
      assert w + rest == rest && out + w == out;
    } else {
      assert (w + rest)[0] == w[0] && (w + rest)[1..] == w[1..] + rest;
      WidthFree(out + [w[0]], w[1..], rest);
      assert out + [w[0]] + w[1..] == out + w;
    }
  }

  lemma DigitsThen(d: string, rest: string)
    requires AllDigits(d) && rest != [] && !IsDigit(rest[0])
    ensures DigitRun(d + rest) == |d|
  {
    DigitRunIs(d + rest, |d|);
  }

  lemma WidthOf(t: Token)
    requires TokenOk(t) && t.sizes != []
    ensures WidthAt(Suffix(t)) <==> |t.sizes| == 1
    ensures WidthAt(Suffix(t)) ==> MatchingClose(Suffix(t), 0) + 1 == |Suffix(t)|
  {
    hide MatchingClose, WidthAt, AllDigits, DigitRun;
    var x, d := Suffix(t), t.sizes[0];
    WidthShape(x);
    var rest := if |t.sizes| == 1 then ")" else "," + Join(t.sizes[1..], ",") + ")";
    assert x[1..] == d + rest;
    DigitsThen(d, rest);
    DigitsSome(d);
    assert x[|d| + 1] == rest[0];
  }

  lemma DigitsSome(d: string)
    requires AllDigits(d)
    ensures d != []
  {
  }

  /** A suffix the width scan does not drop comes through. */
  lemma SuffixPasses(t: Token, out: string)
    requires TokenOk(t) && t.sizes != [] && !(|t.sizes| == 1 && IsIntType(TailWord(out)))
    ensures StripFrom(out, Suffix(t)) == out + Suffix(t)
  {
    hide MatchingClose, WidthAt, TailWord, Join, IsIntType;
    var x := Suffix(t);
    WidthOf(t);
    SizesText(t.sizes);
    var body := Join(t.sizes, ",") + ")";
    assert x == "(" + body && x[1..] == body + "" && out + ['('] + body == out + x && out + [x[0]] == out + ['('];
    assert Free(body, '(');
    WidthFree(out + ['('], body, "");
  }

  lemma SuffixParts(t: Token)
    requires TokenOk(t) && t.sizes != []
    ensures var x := Suffix(t);
      && |x| > 2 && x[0] == '(' && x[|x| - 1] == ')' && x[1..|x| - 1] == Join(t.sizes, ",") && (|t.sizes| == 2 ==> |x| >= 5)
  {
    assert AllDigits(t.sizes[0]);
    if |t.sizes| == 2 {
      assert AllDigits(t.sizes[1]);
      assert Join(t.sizes[1..], ",") == t.sizes[1];
    }
  }

  lemma WholeTail(w: string)
    requires WordText(w)
    ensures TailWord(w) == w && Free(w, '(')
  {
    TailStartIs(w, 0);
    assert w[0..] == w;
  }

  lemma IntWords(w: string)
    ensures IsIntType(w) <==> IntWord(w)
  {
  }

  /** The width behind an integer word is dropped. */
  lemma WidthDropped(t: Token)
    requires TokenOk(t) && |t.sizes| == 1 && IsIntType(TailWord(t.word))
    ensures StripFrom(t.word, Suffix(t)) == t.word
  {
    hide MatchingClose, WidthAt, TailWord, IsIntType, Suffix;
    var x := Suffix(t);
    WidthOf(t);
    SuffixParts(t);
    assert x[|x|..] == "";
  }

  lemma StripRendered(t: Token)
    requires TokenOk(t)
    ensures StripToken(Rendered(t)) == Rendered(MySqlToken(t))
  {
    hide MatchingClose, WidthAt, TailWord, Join, IsIntType, IntWord, StripFrom, WordText, SizesOk;
    var w, x := t.word, Suffix(t);
    WholeTail(w);
    IntWords(w);
    WidthFree("", w, x);
    assert "" + w == w;
    if t.sizes == [] {
      NothingStripped(w);
      assert w + x == w;
    } else if |t.sizes| == 1 && IsIntType(w) {
      WidthDropped(t);
      assert Rendered(t.(sizes := [])) == w;
    } else {
      SuffixPasses(t, w);
    }
  }

  lemma NothingStripped(w: string)
    ensures StripFrom(w, "") == w
  {
  }

  lemma RenameRendered(t: Token)
    requires TokenOk(t)
    ensures RenameToken(Rendered(t), "bpchar", "char") == Rendered(if t.word == "bpchar" then t.(word := "char") else t)
  {
    hide Stem, TokenTail, Suffix;
    RenderedText(t);
    SuffixOnly(t);
  }

  lemma SuffixOnly(t: Token)
    ensures Suffix(t.(word := "char")) == Suffix(t)
  {
  }

  lemma SizesSplit(t: Token)
    requires TokenOk(t) && t.sizes != []
    ensures Split(Join(t.sizes, ","), ',') == t.sizes
  {
    forall i | 0 <= i < |t.sizes| ensures Free(t.sizes[i], ',') {
      assert AllDigits(t.sizes[i]);
    }
    assert [','] == ",";
    SplitJoin(t.sizes, ',');
  }

  function FieldsUnscaled(t: string, base: string, fields: seq<string>): string {
    if |fields| == 2 && AllDigits(fields[0]) && AllZeros(fields[1]) then base + "(" + fields[0] + ")" else t
  }

  lemma UnscaleIs(t: string, base: string, rest: string)
    requires base == Stem(t) && rest == TokenTail(t)
    ensures UnscaleToken(t) ==
      if !NumberWord(base) || |rest| < 4 || rest[0] != '(' || rest[|rest| - 1] != ')' then t
      else FieldsUnscaled(t, base, Split(rest[1..|rest| - 1], ','))
  {
    hide Stem, TokenTail, Split, AllZeros, AllDigits;
  }

  lemma UnscaleRendered(t: Token)
    requires TokenOk(t)
    ensures UnscaleToken(Rendered(t)) == Rendered(
      if NumberWord(t.word) && |t.sizes| == 2 && AllZeros(t.sizes[1]) then t.(sizes := [t.sizes[0]]) else t)
  {
    hide Stem, TokenTail, Split, Join, AllZeros, AllDigits, WordText, UnscaleToken, NumberWord, Suffix, IsLower, SpaceFree;
    RenderedText(t);
    var x := Suffix(t);
    UnscaleIs(Rendered(t), t.word, x);
    if t.sizes == [] {
      NoSuffix(t);
    } else {
      SuffixParts(t);
      SizesSplit(t);
      OneSize(t);
      assert t.word + "(" + t.sizes[0] + ")" == t.word + ("(" + t.sizes[0] + ")");
    }
  }

  lemma NoSuffix(t: Token)
    requires t.sizes == []
    ensures Suffix(t) == ""
  {
  }

  lemma OneSize(t: Token)
    requires TokenOk(t) && t.sizes != []
    ensures Suffix(t.(sizes := [t.sizes[0]])) == "(" + t.sizes[0] + ")" && AllDigits(t.sizes[0])
  {
  }

  // ---- Whole types ----

  lemma TypeGlued(ts: seq<Token>)
    requires forall t :: t in ts ==> TokenOk(t)
    ensures Glued(Map(Rendered, ts))
  {
    hide Rendered, TokenOk, Opens, Closes, SpaceFree, IsLower;
    var rs := Map(Rendered, ts);
    forall i | 0 <= i < |ts|
      ensures rs[i] != [] && SpaceFree(rs[i]) && IsLower(rs[i]) && !Closes(rs[i][0]) && !Opens(rs[i][|rs[i]| - 1])
    {
      assert ts[i] in ts;
      RenderedText(ts[i]);
    }
  }

  lemma TypePlain(ts: seq<Token>)
    requires TypeOk(ts)
    ensures var s := TypeText(ts); Plain(s) && s != [] && Common(s) == s && Split(s, ' ') == Map(Rendered, ts)
  {
    hide Rendered, TokenOk, Plain, Glued, Common, Split;
    TypeGlued(ts);
    GluedJoin(Map(Rendered, ts));
    PlainFixed(TypeText(ts));
    GluedSpaceFree(Map(Rendered, ts));
    SplitJoin(Map(Rendered, ts), ' ');
  }

  lemma {:induction false} KeepRendered(ts: seq<Token>, word: string)
    requires forall t :: t in ts ==> TokenOk(t)
    ensures Filter(Map(Rendered, ts), Unlike(word)) == Map(Rendered, Filter(ts, (t: Token) => t.word != word))
  {
    hide Rendered, TokenOk, Stem;
    if ts != [] {
      var init, last := ts[..|ts| - 1], ts[|ts| - 1];
      var rs := Map(Rendered, ts);
      KeepRendered(init, word);
      RenderedText(last);
      assert rs[..|rs| - 1] == Map(Rendered, init);
    }
  }

  function MySqlType(ts: seq<Token>): seq<Token> {
    Filter(Map(MySqlToken, ts), (t: Token) => t.word != "zerofill")
  }

  lemma MySqlOk(ts: seq<Token>)
    requires TypeOk(ts)
    ensures forall t :: t in Map(MySqlToken, ts) ==> TokenOk(t)
    ensures forall t :: t in MySqlType(ts) ==> TokenOk(t)
  {
    hide TokenOk, SizesOk, WordText;
    var us := Map(MySqlToken, ts);
    forall i | 0 <= i < |us| ensures TokenOk(us[i]) {
      assert ts[i] in ts;
      StillOk(ts[i]);
    }
    FilterMember(us, (t: Token) => t.word != "zerofill");
  }

  lemma StillOk(t: Token)
    requires TokenOk(t)
    ensures TokenOk(MySqlToken(t)) && TokenOk(OracleType(t))
  {
    assert WordText("char");
  }

  /** MySQL compares a type by its words without zerofill, integer types without their width. */
  lemma MySqlExactly(ts: seq<Token>)
    requires TypeOk(ts)
    ensures NormalizeType(MySql, TypeText(ts)) == TypeText(MySqlType(ts))
  {
    hide Rendered, TokenOk, Plain, Glued, Common, Split, Stem, StripFrom, Fold, MySqlToken;
    var s, us := TypeText(ts), Map(MySqlToken, ts);
    TypePlain(ts);
    var vs := WidthsByToken(s);
    forall i | 0 <= i < |ts| ensures vs[i] == Rendered(us[i]) {
      assert ts[i] in ts;
      StripRendered(ts[i]);
    }
    assert vs == Map(Rendered, us);
    MySqlOk(ts);
    KeepRendered(us, "zerofill");
    TypeGlued(MySqlType(ts));
    GluedJoin(Map(Rendered, MySqlType(ts)));
    PlainFixed(TypeText(MySqlType(ts)));
  }

  /** Oracle compares a type with bpchar read as char and scales of zeros left out. */
  lemma OracleExactly(ts: seq<Token>)
    requires TypeOk(ts)
    ensures NormalizeType(Oracle, TypeText(ts)) == TypeText(Map(OracleType, ts))
  {
    hide Rendered, TokenOk, Plain, Common, Split, Stem, Fold, OracleToken;
    TypePlain(ts);
    OracleByToken(TypeText(ts));
    forall i | 0 <= i < |ts| ensures OracleToken(Rendered(ts[i])) == Rendered(OracleType(ts[i])) {
      assert ts[i] in ts;
      OracleRendered(ts[i]);
    }
    assert Map(OracleToken, Map(Rendered, ts)) == Map(Rendered, Map(OracleType, ts));
  }

  lemma OracleRendered(t: Token)
    requires TokenOk(t)
    ensures OracleToken(Rendered(t)) == Rendered(OracleType(t))
  {
    hide Rendered, UnscaleToken, RenameToken, IsWord, LowerChar;
    RenameRendered(t);
    var u := if t.word == "bpchar" then t.(word := "char") else t;
    StillOk(t);
    UnscaleRendered(u);
    if |t.sizes| == 2 {
      ZerosAre(t, t.sizes[1]);
    }
  }

  lemma ZerosAre(t: Token, s: string)
    requires TokenOk(t) && |t.sizes| == 2 && s == t.sizes[1]
    ensures AllZeros(s) <==> forall i :: 0 <= i < |s| ==> s[i] == '0'
  {
    assert AllDigits(t.sizes[1]);
  }

  /** The other kinds compare by the text itself. */
  lemma OthersExactly(kind: DatabaseKind, ts: seq<Token>)
    requires TypeOk(ts) && kind != MySql && kind != Oracle
    ensures NormalizeType(kind, TypeText(ts)) == TypeText(ts)
  {
    hide Common, TypeText;
    TypePlain(ts);
  }

  // ---- Which types compare equal ----

  lemma RenderedInjective(a: Token, b: Token)
    requires TokenOk(a) && TokenOk(b) && Rendered(a) == Rendered(b)
    ensures a == b
  {
    hide Stem, TokenTail, WordText;
    RenderedText(a);
    RenderedText(b);
    var x := Suffix(a);
    if x != [] {
      assert x[1..|x| - 1] == Join(a.sizes, ",") && x[1..|x| - 1] == Join(b.sizes, ",");
      SizesSplit(a);
      SizesSplit(b);
    }
  }

  /** A type's text has one reading. */
  lemma TypeTextInjective(ts: seq<Token>, us: seq<Token>)
    requires (forall t :: t in ts ==> TokenOk(t)) && (forall u :: u in us ==> TokenOk(u)) && TypeText(ts) == TypeText(us)
    ensures ts == us
  {
    hide TokenOk, Rendered, Plain, Split, Glued;
    TypeGlued(ts);
    TypeGlued(us);
    GluedJoin(Map(Rendered, ts));
    GluedJoin(Map(Rendered, us));
    if ts != [] && us != [] {
      TypePlain(ts);
      TypePlain(us);
      forall i | 0 <= i < |ts| ensures ts[i] == us[i] {
        assert ts[i] in ts && us[i] in us;
        assert Map(Rendered, ts)[i] == Rendered(ts[i]) && Map(Rendered, us)[i] == Rendered(us[i]);
        RenderedInjective(ts[i], us[i]);
      }
    } else {
      NothingJoined();
    }
  }

  lemma NothingJoined()
    ensures Join([], " ") == ""
  {
  }

  /** Two types compare equal exactly when they agree after the kind's rules. */
  lemma TypesCompare(ts: seq<Token>, us: seq<Token>)
    requires TypeOk(ts) && TypeOk(us)
    ensures NormalizeType(MySql, TypeText(ts)) == NormalizeType(MySql, TypeText(us)) <==> MySqlType(ts) == MySqlType(us)
    ensures NormalizeType(Oracle, TypeText(ts)) == NormalizeType(Oracle, TypeText(us)) <==> Map(OracleType, ts) == Map(OracleType, us)
    ensures forall kind :: kind != MySql && kind != Oracle ==>
      (NormalizeType(kind, TypeText(ts)) == NormalizeType(kind, TypeText(us)) <==> ts == us)
  {
    hide TokenOk, TypeText, NormalizeType, MySqlType, OracleType, Map;
    MySqlExactly(ts);
    MySqlExactly(us);
    OracleExactly(ts);
    OracleExactly(us);
    MySqlOk(ts);
    MySqlOk(us);
    OracleOk(ts);
    OracleOk(us);
    if TypeText(MySqlType(ts)) == TypeText(MySqlType(us)) {
      TypeTextInjective(MySqlType(ts), MySqlType(us));
    }
    if TypeText(Map(OracleType, ts)) == TypeText(Map(OracleType, us)) {
      TypeTextInjective(Map(OracleType, ts), Map(OracleType, us));
    }
    if TypeText(ts) == TypeText(us) {
      TypeTextInjective(ts, us);
    }
    forall kind: DatabaseKind | kind != MySql && kind != Oracle
      ensures NormalizeType(kind, TypeText(ts)) == NormalizeType(kind, TypeText(us)) <==> ts == us
    {
      OthersExactly(kind, ts);
      OthersExactly(kind, us);
    }
  }

  lemma OracleOk(ts: seq<Token>)
    requires TypeOk(ts)
    ensures forall t :: t in Map(OracleType, ts) ==> TokenOk(t)
  {
    hide TokenOk, OracleType;
    var us := Map(OracleType, ts);
    forall i | 0 <= i < |us| ensures TokenOk(us[i]) {
      assert ts[i] in ts;
      StillOk(ts[i]);
    }
  }

  // ---- Letters and blanks ----

  lemma {:induction false} SolidLower(s: string)
    ensures Solid(Lower(s)) == Lower(Solid(s))
  {
    if s != [] {
      assert Lower(s)[1..] == Lower(s[1..]);
      SolidLower(s[1..]);
      LowerConcat(if IsSpace(s[0]) then [] else [s[0]], Solid(s[1..]));
    }
  }

  lemma {:induction false} SolidSqueeze(s: string, prev: Option<char>)
    ensures Solid(SqueezeFrom(s, prev)) == Solid(s)
    decreases |s|
  {
    if s != [] {
      if !IsSpace(s[0]) {
        SolidSqueeze(s[1..], Some(s[0]));
        SolidConcat([s[0]], SqueezeFrom(s[1..], Some(s[0])));
      } else if prev.None? {
        SolidSqueeze(s[1..], None);
      } else {
        TrimLeftLength(s);
        SolidTrimLeft(s);
        var rest := TrimLeft(s);
        SolidSqueeze(rest, prev);
        SolidSqueeze(rest, Some(' '));
        SolidConcat([' '], SqueezeFrom(rest, Some(' ')));
      }
    }
  }

  /** The shared rules touch nothing but case and blanks: every other character stays in its place, lower-cased. */
  lemma CommonKeepsText(raw: string)
    ensures Solid(Common(raw)) == Lower(Solid(raw))
  {
    SolidTrimLeft(raw);
    SolidTrimRight(TrimLeft(raw));
    SolidLower(Trim(raw));
    SolidFold(Lower(Trim(raw)), false, false);
    SolidSqueeze(Fold(Lower(Trim(raw))), None);
  }

  /** Every kind compares what the shared rules leave. */
  lemma CommonFirst(kind: DatabaseKind, raw: string)
    ensures NormalizeType(kind, Common(raw)) == NormalizeType(kind, raw)
  {
    hide Common, DropWord, StripIntWidth, StripOracleScale0, ReplaceWord, Fold;
    CommonIsPlain(raw);
    PlainFixed(Common(raw));
  }
}
