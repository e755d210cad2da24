/**
 * The .NET string operations the INI reader is built from: char.IsWhiteSpace,
 * string.Trim / TrimEnd, IndexOf / IndexOfAny and string.IsNullOrWhiteSpace,
 * plus an ASCII-only stand-in for ToUpperInvariant.
 */
module Text {

  /** The characters for which char.IsWhiteSpace holds: U+0009..U+000D, the space
      separators, U+0085, and the line and paragraph separators. */
  const WhiteSpace: set<char> := {
    '\t', '\n', '\U{000B}', '\U{000C}', '\r', ' ', '\U{0085}', '\U{00A0}', '\U{1680}',
    '\U{2000}', '\U{2001}', '\U{2002}', '\U{2003}', '\U{2004}', '\U{2005}', '\U{2006}',
    '\U{2007}', '\U{2008}', '\U{2009}', '\U{200A}', '\U{2028}', '\U{2029}', '\U{202F}',
    '\U{205F}', '\U{3000}'
  }

  /** string.IsNullOrWhiteSpace for a non-null string: every character is white space. */
  predicate IsBlank(s: string) {
    forall i | 0 <= i < |s| :: s[i] in WhiteSpace
  }

  /** s.TrimEnd(chars): drop the longest suffix made of characters in `chars`. */
  function TrimEnd(s: string, chars: set<char>): (r: string)
    ensures r <= s
    ensures r == [] || r[|r| - 1] !in chars
    ensures forall i | |r| <= i < |s| :: s[i] in chars
  {
    if s == [] || s[|s| - 1] !in chars then s else TrimEnd(s[..|s| - 1], chars)
  }

  /** s.TrimStart(chars): drop the longest prefix made of characters in `chars`. */
  function TrimStart(s: string, chars: set<char>): (r: string)
    ensures |r| <= |s| && r == s[|s| - |r|..]
    ensures r == [] || r[0] !in chars
    ensures forall i | 0 <= i < |s| - |r| :: s[i] in chars
  {
    if s == [] || s[0] !in chars then s else TrimStart(s[1..], chars)
  }

  /** s.Trim(): drop white space at both ends. */
  function Trim(s: string): string {
    TrimStart(TrimEnd(s, WhiteSpace), WhiteSpace)
  }

  /** s.IndexOfAny(anyOf): the first position holding one of `anyOf`, or -1. */
  function IndexOfAny(s: string, anyOf: seq<char>): (r: int)
    ensures -1 <= r < |s|
    ensures r >= 0 ==> s[r] in anyOf
    ensures forall i | 0 <= i < |s| && (r < 0 || i < r) :: s[i] !in anyOf
  {
    if s == [] then -1
    else if s[0] in anyOf then 0
    else
      var k := IndexOfAny(s[1..], anyOf);
      if k < 0 then -1 else k + 1
  }

  /** s.IndexOf(c): the first position holding `c`, or -1. */
  function IndexOf(s: string, c: char): int {
    IndexOfAny(s, [c])
  }

  /** ToUpperInvariant on one character, restricted to ASCII letters. */
  function UpperChar(c: char): char {
    if 'a' <= c <= 'z' then (c as int - 32) as char else c
  }

  /** ToUpperInvariant, restricted to ASCII letters. */
  function ToUpper(s: string): string {
    seq(|s|, i requires 0 <= i < |s| => UpperChar(s[i]))
  }

  /** a.ToUpperInvariant() == b.ToUpperInvariant(). */
  predicate EqualsIgnoringCase(a: string, b: string) {
    ToUpper(a) == ToUpper(b)
  }

  /** A string with no white space at either end is its own Trim. */
  lemma TrimKeepsTrimmed(s: string)
    requires s == [] || (s[0] !in WhiteSpace && s[|s| - 1] !in WhiteSpace)
    ensures Trim(s) == s
  {
  }

  /** Trim leaves nothing exactly when the string is blank (IsNullOrWhiteSpace). */
  lemma TrimIsEmptyWhenBlank(s: string)
    ensures |Trim(s)| == 0 <==> IsBlank(s)
  {
  }

  /** TrimEnd stops at position k when s[k - 1] is kept and all after it is trimmed. */
  lemma TrimEndAt(s: string, chars: set<char>, k: nat)
    requires k <= |s| && (k == 0 || s[k - 1] !in chars)
    requires forall i | k <= i < |s| :: s[i] in chars
    ensures TrimEnd(s, chars) == s[..k]
  {
  }

  /** IndexOfAny finds k when s[k] is the first character among anyOf. */
  lemma IndexOfAnyAt(s: string, anyOf: seq<char>, k: nat)
    requires k < |s| && s[k] in anyOf && forall i | 0 <= i < k :: s[i] !in anyOf
    ensures IndexOfAny(s, anyOf) == k
  {
  }
}
