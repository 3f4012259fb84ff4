/**
 `String.prototype.trim`, shared by the parsers of free text.
 */
module Trimming {

  /** White space and line terminators, as `trim` removes them. */
  predicate IsSpace(c: char) {
    var u := c as int;
    || 0x09 <= u <= 0x0D || u == 0x20 || u == 0xA0 || u == 0x1680 || 0x2000 <= u <= 0x200A
    || u == 0x2028 || u == 0x2029 || u == 0x202F || u == 0x205F || u == 0x3000 || u == 0xFEFF
  }

  function TrimStart(s: string): string {
    if s != "" && IsSpace(s[0]) then TrimStart(s[1..]) else s
  }

  function TrimEnd(s: string): string {
    if s != "" && IsSpace(s[|s| - 1]) then TrimEnd(s[..|s| - 1]) else s
  }

  function Trim(s: string): string {
    TrimEnd(TrimStart(s))
  }

  lemma {:induction false} TrimStartPrefix(s: string, t: string)
    requires TrimStart(s) != ""
    ensures TrimStart(s + t) == TrimStart(s) + t
  {
    if IsSpace(s[0]) {
      assert (s + t)[1..] == s[1..] + t;
      TrimStartPrefix(s[1..], t);
    }
  }

  lemma {:induction false} TrimEndIsPrefix(s: string)
    ensures TrimEnd(s) <= s
    ensures TrimEnd(s) != "" ==> !IsSpace(TrimEnd(s)[|TrimEnd(s)| - 1])
  {
    if s != "" && IsSpace(s[|s| - 1]) {
      TrimEndIsPrefix(s[..|s| - 1]);
    }
  }

  /** Trimming the end stops no earlier than at any non-space character. */
  lemma {:induction false} TrimEndReaches(s: string, n: nat)
    requires n <= |s| && (n > 0 ==> !IsSpace(s[n - 1]))
    ensures s[..n] <= TrimEnd(s)
  {
    if s != "" && IsSpace(s[|s| - 1]) {
      assert n < |s|;
      TrimEndReaches(s[..|s| - 1], n);
      assert s[..|s| - 1][..n] == s[..n];
    }
  }

  lemma TrimPrefix(s: string, t: string)
    requires s <= t && Trim(s) != ""
    ensures Trim(s) <= Trim(t)
  {
    var extra := t[|s|..];
    assert t == s + extra;
    TrimEndIsPrefix(TrimStart(s));
    TrimStartPrefix(s, extra);
    TrimEndReaches(TrimStart(t), |Trim(s)|);
  }

  lemma TrimmedIsKept(s: string)
    requires Trim(s) != ""
    ensures Trim(Trim(s)) != ""
  {
    StartsWithText(s);
    TrimEndIsPrefix(TrimStart(s));
    assert !IsSpace(Trim(s)[0]);
    TrimEndReaches(Trim(s), 1);
  }

  /** Trimming leaves a text that starts with more than space. */
  lemma {:induction false} HeadSurvives(s: string)
    requires s != "" && !IsSpace(s[0])
    ensures TrimEnd(s) != "" && Trim(s) == TrimEnd(s)
  {
    if IsSpace(s[|s| - 1]) {
      HeadSurvives(s[..|s| - 1]);
    }
  }

  lemma {:induction false} StartsWithText(s: string)
    ensures TrimStart(s) != "" ==> !IsSpace(TrimStart(s)[0])
  {
    if s != "" && IsSpace(s[0]) {
      StartsWithText(s[1..]);
    }
  }
}
