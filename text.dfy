/**
 String helpers the subscription matching relies on: Python's `str.strip()`
 with no argument (whitespace trimmed at both ends) and the case-insensitive
 equality of a Django `__iexact` lookup. Both are modelled over ASCII.
 */
module Text {

  /** The ASCII characters Python's `str.isspace` accepts, which is what
      `str.strip()` with no argument removes. */
  predicate IsSpace(c: char)
  {
    c == ' ' || c == '\t' || c == '\n' || c == '\r'
    || c == '\U{B}' || c == '\U{C}' || ('\U{1C}' <= c <= '\U{1F}')
  }

  /** `s` with its leading whitespace removed. */
  function TrimLeft(s: string): string
  {
    if |s| > 0 && IsSpace(s[0]) then TrimLeft(s[1..]) else s
  }

  /** `s` with its trailing whitespace removed. */
  function TrimRight(s: string): string
  {
    if |s| > 0 && IsSpace(s[|s| - 1]) then TrimRight(s[..|s| - 1]) else s
  }

  /** Python's `s.strip()`. */
  function Strip(s: string): string
  {
    TrimRight(TrimLeft(s))
  }

  /** `TrimLeft(s)` is a suffix of `s`, everything cut off is whitespace,
      and what is left does not start with whitespace. */
  lemma {:induction false} TrimLeftSpec(s: string)
    ensures |TrimLeft(s)| <= |s| && TrimLeft(s) == s[|s| - |TrimLeft(s)|..]
    ensures forall k :: 0 <= k < |s| - |TrimLeft(s)| ==> IsSpace(s[k])
    ensures TrimLeft(s) != [] ==> !IsSpace(TrimLeft(s)[0])
  {
    if |s| > 0 && IsSpace(s[0]) {
      TrimLeftSpec(s[1..]);
    }
  }

  /** `TrimRight(s)` is a prefix of `s`, everything cut off is whitespace,
      and what is left does not end with whitespace. */
  lemma {:induction false} TrimRightSpec(s: string)
    ensures |TrimRight(s)| <= |s| && TrimRight(s) == s[..|TrimRight(s)|]
    ensures forall k :: |TrimRight(s)| <= k < |s| ==> IsSpace(s[k])
    ensures TrimRight(s) != [] ==> !IsSpace(TrimRight(s)[|TrimRight(s)| - 1])
  {
    if |s| > 0 && IsSpace(s[|s| - 1]) {
      TrimRightSpec(s[..|s| - 1]);
    }
  }

  /** `Strip(s)` is the infix `s[i..i + |Strip(s)|]` of `s` left once the
      whitespace at both ends is cut off: only whitespace lies outside it,
      and it neither starts nor ends with whitespace. */
  lemma StripSpec(s: string)
    ensures |Strip(s)| <= |TrimLeft(s)| <= |s|
    ensures var i := |s| - |TrimLeft(s)|;
      && s[i..i + |Strip(s)|] == Strip(s)
      && (forall k :: 0 <= k < i ==> IsSpace(s[k]))
      && (forall k :: i + |Strip(s)| <= k < |s| ==> IsSpace(s[k]))
    ensures Strip(s) != [] ==> !IsSpace(Strip(s)[0]) && !IsSpace(Strip(s)[|Strip(s)| - 1])
  {
    var t := TrimLeft(s);
    TrimLeftSpec(s);
    TrimRightSpec(t);
    assert Strip(s) != [] ==> Strip(s)[0] == t[0];
  }

  /** A string with no whitespace at either end is its own strip. */
  lemma StripClean(s: string)
    requires s != [] ==> !IsSpace(s[0]) && !IsSpace(s[|s| - 1])
    ensures Strip(s) == s
  {
    if s != [] {
      assert TrimLeft(s) == s;
    }
  }

  /** Stripping twice is stripping once. */
  lemma StripIdempotent(s: string)
    ensures Strip(Strip(s)) == Strip(s)
  {
    StripSpec(s);
    StripClean(Strip(s));
  }

  /** ASCII lower-casing of one character (what `__iexact` folds). */
  function LowerChar(c: char): char
  {
    if 'A' <= c <= 'Z' then (c as int + 32) as char else c
  }

  /** ASCII lower-casing of a string, character by character. */
  function Lower(s: string): (r: string)
    ensures |r| == |s|
    ensures forall k :: 0 <= k < |s| ==> r[k] == LowerChar(s[k])
  {
    if s == [] then [] else [LowerChar(s[0])] + Lower(s[1..])
  }

  /** Lower-cased strings contain no upper-case ASCII letter, so lower-casing
      again changes nothing. */
  lemma LowerIdempotent(s: string)
    ensures forall k :: 0 <= k < |s| ==> !('A' <= Lower(s)[k] <= 'Z')
    ensures Lower(Lower(s)) == Lower(s)
  {
  }

  /** Django's `a__iexact=b`: equality once both sides are case-folded. */
  predicate IEquals(a: string, b: string)
  {
    Lower(a) == Lower(b)
  }

  /** Case-insensitive equality compares position by position and ignores
      only the case of ASCII letters. */
  lemma IEqualsPointwise(a: string, b: string)
    ensures IEquals(a, b) <==>
      |a| == |b| && forall k :: 0 <= k < |a| ==> LowerChar(a[k]) == LowerChar(b[k])
  {
    if |a| == |b| && forall k :: 0 <= k < |a| ==> LowerChar(a[k]) == LowerChar(b[k]) {
      assert forall k :: 0 <= k < |a| ==> Lower(a)[k] == Lower(b)[k];
    }
  }
}
