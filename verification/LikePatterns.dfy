/** SQL's LIKE patterns, and when the pattern the filters build is plain containment. */
module LikePatterns {

  /** `s` matches `p`: `%` stands for any text, `_` for one character, `\` takes the next
      character literally. ILIKE takes characters for the same that differ in case only. */
  predicate LikeMatch(s: string, p: string, same: (char, char) -> bool)
    decreases |p|, |s|
  {
    if p == "" then s == ""
    else if p[0] == '%' then LikeMatch(s, p[1..], same) || (s != "" && LikeMatch(s[1..], p, same))
    else if p[0] == '_' then s != "" && LikeMatch(s[1..], p[1..], same)
    else if p[0] == '\\' && |p| > 1 then s != "" && same(s[0], p[1]) && LikeMatch(s[1..], p[2..], same)
    else s != "" && same(s[0], p[0]) && LikeMatch(s[1..], p[1..], same)
  }

  predicate OccursAt(s: string, t: string, i: nat, same: (char, char) -> bool) {
    i + |t| <= |s| && forall k :: 0 <= k < |t| ==> same(s[i + k], t[k])
  }

  /** The text occurs somewhere. */
  predicate Contains(s: string, t: string, same: (char, char) -> bool) {
    exists i :: 0 <= i <= |s| && OccursAt(s, t, i, same)
  }

  function DoublePercent(s: string): string {
    if s == "" then "" else (if s[0] == '%' then "%%" else [s[0]]) + DoublePercent(s[1..])
  }

  /** The pattern a filter for `t` builds. */
  function Pattern(t: string): string {
    "%" + (DoublePercent(t) + "%")
  }

  /** No character of the text means anything special in a pattern. */
  predicate Literal(t: string) {
    forall k :: 0 <= k < |t| ==> t[k] != '%' && t[k] != '_' && t[k] != '\\'
  }

  const EQUAL: (char, char) -> bool := (a, b) => a == b

  // ------------------------------------------------------------ literal texts

  lemma {:induction false} AnyMatches(s: string, same: (char, char) -> bool)
    ensures LikeMatch(s, "%", same)
    decreases |s|
  {
    assert "%"[1..] == "";
    if s != "" {
      AnyMatches(s[1..], same);
    }
  }

  /** Text before a final `%`: what is matched begins with it. */
  lemma {:induction false} PrefixPattern(s: string, t: string, same: (char, char) -> bool)
    requires Literal(t)
    ensures LikeMatch(s, t + "%", same) <==> OccursAt(s, t, 0, same)
    decreases |t|
  {
    if t == "" {
      assert t + "%" == "%";
      AnyMatches(s, same);
    } else if s != "" {
      var p := t + "%";
      assert p[0] == t[0] && p[1..] == t[1..] + "%";
      PrefixPattern(s[1..], t[1..], same);
      OccursShift(s, t, same);
    }
  }

  lemma OccursShift(s: string, t: string, same: (char, char) -> bool)
    requires s != "" && t != ""
    ensures OccursAt(s, t, 0, same) <==> same(s[0], t[0]) && OccursAt(s[1..], t[1..], 0, same)
  {
    if OccursAt(s, t, 0, same) {
      assert same(s[0 + 0], t[0]);
      forall k | 0 <= k < |t[1..]| ensures same(s[1..][0 + k], t[1..][k]) {
        assert same(s[0 + (k + 1)], t[k + 1]);
      }
    }
    if same(s[0], t[0]) && OccursAt(s[1..], t[1..], 0, same) {
      forall k | 0 <= k < |t| ensures same(s[0 + k], t[k]) {
        if k > 0 {
          assert same(s[1..][0 + (k - 1)], t[1..][k - 1]);
        }
      }
    }
  }

  /** A leading `%` lets the rest of the pattern match any tail. */
  lemma {:induction false} TailPattern(s: string, p: string, same: (char, char) -> bool)
    ensures LikeMatch(s, "%" + p, same) <==> exists i :: 0 <= i <= |s| && LikeMatch(s[i..], p, same)
    decreases |s|
  {
    assert ("%" + p)[1..] == p && s[0..] == s;
    if s != "" {
      TailPattern(s[1..], p, same);
      if i :| 0 <= i <= |s[1..]| && LikeMatch(s[1..][i..], p, same) {
        assert s[1..][i..] == s[i + 1..];
      }
      if i :| 0 <= i <= |s| && LikeMatch(s[i..], p, same) {
        if i > 0 {
          assert s[1..][i - 1..] == s[i..];
        }
      }
    }
  }

  lemma {:induction false} NothingDoubled(t: string)
    requires Literal(t)
    ensures DoublePercent(t) == t
  {
    if t != "" {
      NothingDoubled(t[1..]);
    }
  }

  lemma OccursInTail(s: string, t: string, i: nat, same: (char, char) -> bool)
    requires i <= |s|
    ensures OccursAt(s[i..], t, 0, same) <==> OccursAt(s, t, i, same)
  {
    if i + |t| <= |s| {
      var tail := s[i..];
      assert forall k :: 0 <= k < |t| ==> tail[k] == s[i + k];
    }
  }

  /** For a literal text the pattern matches exactly what contains the text. */
  lemma LiteralMatches(s: string, t: string, same: (char, char) -> bool)
    requires Literal(t)
    ensures LikeMatch(s, Pattern(t), same) <==> Contains(s, t, same)
  {
    NothingDoubled(t);
    TailPattern(s, t + "%", same);
    forall i | 0 <= i <= |s| ensures LikeMatch(s[i..], t + "%", same) <==> OccursAt(s, t, i, same) {
      PrefixPattern(s[i..], t, same);
      OccursInTail(s, t, i, same);
    }
  }

  // ------------------------------------------------------------ and only those

  /** A text the pattern for `t` matches, with every special character put to use. */
  function Misread(t: string): (s: string)
    ensures |s| <= |t| && (Literal(t) || s != t)
  {
    if t == "" then ""
    else if t[0] == '%' then Misread(t[1..])
    else if t[0] == '_' then "-" + Misread(t[1..])
    else if t[0] == '\\' then (if |t| == 1 then "%" else [t[1]] + Misread(t[2..]))
    else
      var rest := Misread(t[1..]);
      assert ([t[0]] + rest)[1..] == rest;
      [t[0]] + rest
  }

  lemma MatchNothing(s: string, q: string, same: (char, char) -> bool)
    requires LikeMatch(s, q, same)
    ensures LikeMatch(s, "%" + q, same)
  {
    assert ("%" + q)[1..] == q;
  }

  lemma MatchOne(c: char, s: string, q: string, same: (char, char) -> bool)
    requires LikeMatch(s, q, same)
    ensures LikeMatch([c] + s, "_" + q, same)
  {
    assert ("_" + q)[1..] == q && ([c] + s)[1..] == s;
  }

  lemma MatchPlain(c: char, s: string, q: string)
    requires LikeMatch(s, q, EQUAL) && Literal([c])
    ensures LikeMatch([c] + s, [c] + q, EQUAL)
  {
    assert [c][0] == c;
    assert ([c] + q)[1..] == q && ([c] + s)[1..] == s;
  }

  lemma MatchEscaped(c: char, s: string, q: string)
    requires LikeMatch(s, q, EQUAL)
    ensures LikeMatch([c] + s, ['\\', c] + q, EQUAL)
  {
    assert (['\\', c] + q)[2..] == q && ([c] + s)[1..] == s;
  }

  /** The pattern for a text from its first character on. */
  lemma PatternHead(t: string)
    requires t != ""
    ensures DoublePercent(t) + "%" == (if t[0] == '%' then "%%" else [t[0]]) + (DoublePercent(t[1..]) + "%")
  {
  }

  lemma {:induction false} MisreadMatches(t: string)
    ensures LikeMatch(Misread(t), DoublePercent(t) + "%", EQUAL)
    decreases |t|
  {
    if t == "" {
      assert DoublePercent(t) + "%" == "%";
      AnyMatches("", EQUAL);
    } else {
      PatternHead(t);
      var s, q := Misread(t[1..]), DoublePercent(t[1..]) + "%";
      MisreadMatches(t[1..]);
      if t[0] == '%' {
        MatchNothing(s, q, EQUAL);
        MatchNothing(s, "%" + q, EQUAL);
        assert "%%" + q == "%" + ("%" + q);
      } else if t[0] == '_' {
        MatchOne('-', s, q, EQUAL);
        assert ['_'] + q == "_" + q && "-" + s == ['-'] + s;
      } else if t[0] == '\\' {
        if |t| == 1 {
          LastEscape(t);
        } else {
          MisreadMatches(t[2..]);
          EscapeMatches(t);
        }
      } else {
        MatchPlain(t[0], s, q);
      }
    }
  }

  lemma LastEscape(t: string)
    requires t == "\\"
    ensures LikeMatch(Misread(t), DoublePercent(t) + "%", EQUAL)
  {
    PatternHead(t);
    assert t[1..] == "" && DoublePercent("") + "%" == "%";
    MatchEscaped('%', "", "");
    assert ['%'] + "" == "%" && ['\\', '%'] + "" == [t[0]] + "%";
  }

  lemma EscapeMatches(t: string)
    requires |t| > 1 && t[0] == '\\' && LikeMatch(Misread(t[2..]), DoublePercent(t[2..]) + "%", EQUAL)
    ensures LikeMatch(Misread(t), DoublePercent(t) + "%", EQUAL)
  {
    var s, q := Misread(t[2..]), DoublePercent(t[2..]) + "%";
    EscapePattern(t);
    if t[1] == '%' {
      MatchNothing(s, q, EQUAL);
      MatchEscaped('%', s, "%" + q);
    } else {
      MatchEscaped(t[1], s, q);
    }
  }

  /** The pattern for a text that begins with a backslash. */
  lemma EscapePattern(t: string)
    requires |t| > 1 && t[0] == '\\'
    ensures var q := DoublePercent(t[2..]) + "%";
            DoublePercent(t) + "%" == ['\\', t[1]] + if t[1] == '%' then "%" + q else q
  {
    var q, tail := DoublePercent(t[2..]) + "%", t[1..];
    PatternHead(t);
    PatternHead(tail);
    assert tail[1..] == t[2..] && tail[0] == t[1];
    if t[1] == '%' {
      BeforeDoubled(q);
    } else {
      BeforeOther(t[1], q);
    }
  }

  lemma BeforeDoubled(q: string)
    ensures ['\\'] + ("%%" + q) == ['\\', '%'] + ("%" + q)
  {
  }

  lemma BeforeOther(c: char, q: string)
    ensures ['\\'] + ([c] + q) == ['\\', c] + q
  {
  }

  /** A text no longer than `t` contains it only if it is `t`. */
  lemma ShortContains(s: string, t: string)
    requires |s| <= |t| && Contains(s, t, EQUAL)
    ensures s == t
  {
    var i :| 0 <= i <= |s| && OccursAt(s, t, i, EQUAL);
    forall k | 0 <= k < |t| ensures s[k] == t[k] {
      assert EQUAL(s[0 + k], t[k]);
    }
  }

  /** Every pattern matches something. */
  lemma PatternMatches(t: string)
    ensures LikeMatch(Misread(t), Pattern(t), EQUAL)
  {
    MisreadMatches(t);
    MatchNothing(Misread(t), DoublePercent(t) + "%", EQUAL);
  }

  ghost predicate MatchIsContainment(t: string) {
    forall s :: LikeMatch(s, Pattern(t), EQUAL) <==> Contains(s, t, EQUAL)
  }

  /** The pattern means containment exactly for literal texts: a percent sign stays a wildcard
      when it is doubled, and underscores and backslashes are not looked at. */
  lemma LiteralExactly(t: string)
    ensures MatchIsContainment(t) <==> Literal(t)
    ensures !Literal(t) ==> LikeMatch(Misread(t), Pattern(t), EQUAL) && !Contains(Misread(t), t, EQUAL)
  {
    if Literal(t) {
      forall s ensures LikeMatch(s, Pattern(t), EQUAL) <==> Contains(s, t, EQUAL) {
        LiteralMatches(s, t, EQUAL);
      }
    } else {
      PatternMatches(t);
      if Contains(Misread(t), t, EQUAL) {
        ShortContains(Misread(t), t);
      }
    }
  }
}
