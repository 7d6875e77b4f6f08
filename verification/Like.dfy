/// Text filters as LIKE patterns (go/pkg/dbcore/browse.go:196-199, 240-266), under LIKE with
/// ESCAPE '!' (section 8.5 of ISO/IEC 9075-2). Which characters count as the same is a parameter.
module Like {

  const ESCAPE := '!'

  type Same = (char, char) -> bool

  /** Whether a pattern matches a string; a pattern ending in a lone escape matches nothing. */
  predicate Matches(same: Same, p: string, s: string)
    decreases |p|, |s|
  {
    if p == "" then s == ""
    else if p[0] == '%' then Matches(same, p[1..], s) || (s != "" && Matches(same, p, s[1..]))
    else if p[0] == ESCAPE then |p| >= 2 && s != "" && same(p[1], s[0]) && Matches(same, p[2..], s[1..])
    else s != "" && (p[0] == '_' || same(p[0], s[0])) && Matches(same, p[1..], s[1..])
  }

  function EscapeText(t: string): string {
    if t == "" then ""
    else EscapeText(t[..|t| - 1]) + if t[|t| - 1] in {'!', '%', '_'} then [ESCAPE, t[|t| - 1]] else [t[|t| - 1]]
  }

  datatype TextOp = Contains | StartsWith | EndsWith

  function Pattern(op: TextOp, t: string): string {
    match op
    case Contains => "%" + EscapeText(t) + "%"
    case StartsWith => EscapeText(t) + "%"
    case EndsWith => "%" + EscapeText(t)
  }

  /** The text stands at position i, character by character. */
  predicate At(same: Same, t: string, s: string, i: nat) {
    i + |t| <= |s| && forall k :: 0 <= k < |t| ==> same(t[k], s[i + k])
  }

  lemma OneMatches(same: Same, c: char, q: string, s: string)
    ensures Matches(same, (if c in {'!', '%', '_'} then [ESCAPE, c] else [c]) + q, s) <==>
            s != "" && same(c, s[0]) && Matches(same, q, s[1..])
  {
    var e := if c in {'!', '%', '_'} then [ESCAPE, c] else [c];
    assert (e + q)[|e|..] == q;
  }

  /** Escaped text matches itself and nothing else, whatever pattern follows. */
  lemma {:induction false} EscapedMatches(same: Same, t: string, q: string, s: string)
    ensures Matches(same, EscapeText(t) + q, s) <==> At(same, t, s, 0) && Matches(same, q, s[|t|..])
  {
    if t == "" {
      assert EscapeText(t) + q == q && s[0..] == s;
    } else {
      var init, c := t[..|t| - 1], t[|t| - 1];
      var e := if c in {'!', '%', '_'} then [ESCAPE, c] else [c];
      assert EscapeText(t) + q == EscapeText(init) + (e + q);
      EscapedMatches(same, init, e + q, s);
      if At(same, init, s, 0) {
        OneMatches(same, c, q, s[|init|..]);
        assert s[|init|..] != "" ==> s[|init|..][1..] == s[|t|..] && s[|init|..][0] == s[|init|];
      }
      assert At(same, t, s, 0) <==> At(same, init, s, 0) && |s| >= |t| && same(c, s[|init|]);
    }
  }

  lemma {:induction false} AnythingMatches(same: Same, s: string)
    ensures Matches(same, "%", s)
  {
    if s == "" {
      assert Matches(same, "%"[1..], s);
    } else {
      AnythingMatches(same, s[1..]);
    }
  }

  lemma {:induction false} SomewhereMatches(same: Same, q: string, s: string)
    ensures Matches(same, "%" + q, s) <==> exists i: nat :: i <= |s| && Matches(same, q, s[i..])
  {
    assert ("%" + q)[1..] == q && s[0..] == s;
    if s != "" {
      SomewhereMatches(same, q, s[1..]);
      forall i: nat | i <= |s| - 1 ensures s[1..][i..] == s[i + 1..] {
      }
      if Matches(same, "%" + q, s[1..]) {
        var i: nat :| i <= |s[1..]| && Matches(same, q, s[1..][i..]);
        assert Matches(same, q, s[i + 1..]);
      }
      if exists i: nat :: 0 < i <= |s| && Matches(same, q, s[i..]) {
        var i: nat :| 0 < i <= |s| && Matches(same, q, s[i..]);
        assert s[1..][i - 1..] == s[i..];
      }
    }
  }

  /** contains, starts_with and ends_with match exactly the strings holding the literal text there, wildcards and all. */
  lemma PatternsAreFaithful(same: Same, t: string, s: string)
    ensures Matches(same, Pattern(StartsWith, t), s) <==> At(same, t, s, 0)
    ensures Matches(same, Pattern(EndsWith, t), s) <==> |t| <= |s| && At(same, t, s, |s| - |t|)
    ensures Matches(same, Pattern(Contains, t), s) <==> exists i: nat :: At(same, t, s, i)
  {
    EscapedMatches(same, t, "%", s);
    if |t| <= |s| {
      AnythingMatches(same, s[|t|..]);
    }
    EndsFaithful(same, t, s);
    ContainsFaithful(same, t, s);
  }

  lemma AtShift(same: Same, t: string, s: string, i: nat)
    requires i <= |s|
    ensures At(same, t, s[i..], 0) <==> At(same, t, s, i)
  {
    forall k | 0 <= k < |t| && i + |t| <= |s| ensures s[i..][k] == s[i + k] {
    }
  }

  lemma EndsFaithful(same: Same, t: string, s: string)
    ensures Matches(same, Pattern(EndsWith, t), s) <==> |t| <= |s| && At(same, t, s, |s| - |t|)
  {
    var e := EscapeText(t);
    SomewhereMatches(same, e, s);
    forall i: nat | i <= |s| ensures Matches(same, e, s[i..]) <==> i + |t| == |s| && At(same, t, s, i) {
      EscapedMatches(same, t, "", s[i..]);
      assert e + "" == e;
      AtShift(same, t, s, i);
    }
  }

  lemma ContainsFaithful(same: Same, t: string, s: string)
    ensures Matches(same, Pattern(Contains, t), s) <==> exists i: nat :: At(same, t, s, i)
  {
    var e := EscapeText(t) + "%";
    assert Pattern(Contains, t) == "%" + e;
    SomewhereMatches(same, e, s);
    forall i: nat | i <= |s| ensures Matches(same, e, s[i..]) <==> At(same, t, s, i) {
      EscapedMatches(same, t, "%", s[i..]);
      AtShift(same, t, s, i);
      if i + |t| <= |s| {
        AnythingMatches(same, s[i..][|t|..]);
      }
    }
  }
}
