/**
 Escaping a value for SQL LIKE, against the semantics of LIKE with backslash as
 the escape character (PostgreSQL manual, section 9.7.1).
 */
module LikePattern {

  predicate IsSpecial(c: char) {
    c == '\\' || c == '%' || c == '_'
  }

  /** `value.replace(/[\\%_]/g, (ch) => `\\${ch}`)`. */
  function EscapeLikePattern(value: string): string {
    if value == "" then ""
    else (if IsSpecial(value[0]) then ['\\', value[0]] else [value[0]]) + EscapeLikePattern(value[1..])
  }

  /** `s LIKE pattern`: % is any run of characters, _ any one, and a backslash makes
      the character after it literal. A backslash at the end is an error. */
  ghost predicate Like(s: string, pattern: string)
    decreases |pattern|
  {
    if pattern == "" then s == ""
    else if pattern[0] == '%' then exists k: nat :: k <= |s| && Like(s[k..], pattern[1..])
    else if pattern[0] == '\\' then
      |pattern| >= 2 && s != "" && s[0] == pattern[1] && Like(s[1..], pattern[2..])
    else s != "" && (pattern[0] == '_' || s[0] == pattern[0]) && Like(s[1..], pattern[1..])
  }

  /** An escaped value in front of any pattern matches itself and nothing else. */
  lemma {:induction false} LikeEscaped(s: string, value: string, rest: string)
    ensures Like(s, EscapeLikePattern(value) + rest) <==> value <= s && Like(s[|value|..], rest)
  {
    if value == "" {
      assert EscapeLikePattern(value) + rest == rest && s[0..] == s;
    } else {
      var tail := value[1..];
      LikeEscapedChar(s, value, rest);
      if s != "" {
        LikeEscaped(s[1..], tail, rest);
        assert value == [value[0]] + tail && s == [s[0]] + s[1..];
        if value <= s {
          assert s[|value|..] == s[1..][|tail|..];
        }
      }
    }
  }

  /** An escaped character takes exactly itself off the text. */
  lemma LikeEscapedChar(s: string, value: string, rest: string)
    requires value != ""
    ensures Like(s, EscapeLikePattern(value) + rest) <==>
      s != "" && s[0] == value[0] && Like(s[1..], EscapeLikePattern(value[1..]) + rest)
  {
    var c, tail := value[0], EscapeLikePattern(value[1..]);
    Grouped(['\\', c], tail, rest);
    Grouped([c], tail, rest);
  }

  lemma Grouped<T>(first: seq<T>, tail: seq<T>, rest: seq<T>)
    ensures (first + tail) + rest == first + (tail + rest)
    ensures (first + (tail + rest))[|first|..] == tail + rest
  {
  }

  lemma LikeAnything(s: string)
    ensures Like(s, "%")
  {
    assert "%"[1..] == "";
    assert Like(s[|s|..], "%"[1..]);
  }

  /** The escaped value matches exactly the value. */
  lemma MatchesExactly(s: string, value: string)
    ensures Like(s, EscapeLikePattern(value)) <==> s == value
  {
    LikeEscaped(s, value, "");
    assert EscapeLikePattern(value) + "" == EscapeLikePattern(value);
    if value <= s && s[|value|..] == "" {
      assert s == value + s[|value|..];
    }
  }

  /** With a trailing %, exactly the texts that start with the value. */
  lemma MatchesPrefix(s: string, value: string)
    ensures Like(s, EscapeLikePattern(value) + "%") <==> value <= s
  {
    LikeEscaped(s, value, "%");
    if value <= s {
      LikeAnything(s[|value|..]);
    }
  }

  predicate IsSubstring(value: string, s: string) {
    exists k :: 0 <= k <= |s| && value <= s[k..]
  }

  /** With % on both sides, exactly the texts that contain the value. */
  lemma MatchesSubstring(s: string, value: string)
    ensures Like(s, "%" + EscapeLikePattern(value) + "%") <==> IsSubstring(value, s)
  {
    var inner := EscapeLikePattern(value) + "%";
    var pattern := "%" + EscapeLikePattern(value) + "%";
    assert pattern[1..] == inner;
    forall k | 0 <= k <= |s|
      ensures Like(s[k..], inner) <==> value <= s[k..]
    {
      MatchesPrefix(s[k..], value);
    }
    if k: nat :| k <= |s| && Like(s[k..], inner) {
      assert value <= s[k..];
    }
    if k :| 0 <= k <= |s| && value <= s[k..] {
      assert Like(s[k..], pattern[1..]);
    }
  }

  /** Different values have different patterns. */
  lemma EscapingIsInjective(a: string, b: string)
    requires EscapeLikePattern(a) == EscapeLikePattern(b)
    ensures a == b
  {
    MatchesExactly(a, a);
    MatchesExactly(a, b);
  }
}
