/**
 * The string operations the Python code takes from `str` and `re`, restricted to ASCII:
 * character classes (`\d`, `\w`, `str.isupper`), case mapping (`str.upper`, `str.lower`),
 * `str.strip`, `str.join`, `str.startswith`, the substring test `in`, and
 * `str.split(sep, 1)[0]`. A character outside ASCII is mapped to itself and is in no class.
 */
module Text {

  predicate IsDigit(c: char) { '0' <= c <= '9' }
  predicate IsUpper(c: char) { 'A' <= c <= 'Z' }
  predicate IsLower(c: char) { 'a' <= c <= 'z' }
  predicate IsAlpha(c: char) { IsUpper(c) || IsLower(c) }

  /** `\w` of Python's `re`: letters, digits and the underscore. */
  predicate IsWordChar(c: char) { IsAlpha(c) || IsDigit(c) || c == '_' }

  /** `str.isspace` on ASCII: tab, line feed, vertical tab, form feed, carriage return,
      the four information separators and the blank. */
  predicate IsSpace(c: char) { '\t' <= c <= '\r' || '\U{1C}' <= c <= ' ' }

  predicate AllDigits(s: string) { forall i :: 0 <= i < |s| ==> IsDigit(s[i]) }
  predicate HasDigit(s: string) { exists i :: 0 <= i < |s| && IsDigit(s[i]) }
  predicate HasUpper(s: string) { exists i :: 0 <= i < |s| && IsUpper(s[i]) }
  predicate HasLower(s: string) { exists i :: 0 <= i < |s| && IsLower(s[i]) }
  predicate HasAlpha(s: string) { exists i :: 0 <= i < |s| && IsAlpha(s[i]) }

  function ToUpper(c: char): (d: char)
    ensures !IsLower(d)
    ensures IsAlpha(c) <==> IsAlpha(d)
    ensures IsDigit(c) <==> IsDigit(d)
    ensures !IsLower(c) ==> d == c
  {
    if IsLower(c) then (c as int - 32) as char else c
  }

  function ToLower(c: char): (d: char)
    ensures !IsUpper(d)
    ensures IsAlpha(c) <==> IsAlpha(d)
    ensures !IsUpper(c) ==> d == c
  {
    if IsUpper(c) then (c as int + 32) as char else c
  }

  /** `s.upper()`: no lower-case letter is left and every other character stays. */
  function Upper(s: string): (r: string)
    ensures |r| == |s|
    ensures forall i :: 0 <= i < |s| ==> r[i] == ToUpper(s[i])
    ensures !HasLower(r)
  {
    seq(|s|, i requires 0 <= i < |s| => ToUpper(s[i]))
  }

  /** `s.lower()` */
  function Lower(s: string): (r: string)
    ensures |r| == |s|
    ensures forall i :: 0 <= i < |s| ==> r[i] == ToLower(s[i])
    ensures !HasUpper(r)
  {
    seq(|s|, i requires 0 <= i < |s| => ToLower(s[i]))
  }

  /** Lower-casing forgets whether a letter was upper-cased first. */
  lemma LowerIgnoresUpper(s: string)
    ensures Lower(Upper(s)) == Lower(s)
  {
    forall i | 0 <= i < |s| ensures ToLower(ToUpper(s[i])) == ToLower(s[i]) {
      if IsLower(s[i]) {
        assert ToUpper(s[i]) as int == s[i] as int - 32;
      }
    }
  }

  /** A string without upper-case letters is its own lower-case form. */
  lemma LowerOfLowerCase(s: string)
    requires !HasUpper(s)
    ensures Lower(s) == s
  {
  }

  /** `s.lstrip()` */
  function StripStart(s: string): (r: string)
    ensures |r| <= |s|
    ensures r == [] || !IsSpace(r[0])
  {
    if s != [] && IsSpace(s[0]) then StripStart(s[1..]) else s
  }

  /** `s.rstrip()` */
  function StripEnd(s: string): (r: string)
    ensures r <= s
    ensures r == [] || !IsSpace(r[|r| - 1])
  {
    if s != [] && IsSpace(s[|s| - 1]) then StripEnd(s[..|s| - 1]) else s
  }

  /** `s.strip()` */
  function Strip(s: string): (r: string)
    ensures |r| <= |s|
    ensures r == [] || (!IsSpace(r[0]) && !IsSpace(r[|r| - 1]))
  {
    StripEnd(StripStart(s))
  }

  /** `StripStart` removes the leading white space and nothing else. */
  lemma {:induction false} StripStartRemovesOnlySpace(s: string)
    ensures StripStart(s) == s[|s| - |StripStart(s)|..]
    ensures forall k :: 0 <= k < |s| - |StripStart(s)| ==> IsSpace(s[k])
  {
    if s != [] && IsSpace(s[0]) {
      StripStartRemovesOnlySpace(s[1..]);
    }
  }

  /** `StripEnd` removes the trailing white space and nothing else. */
  lemma {:induction false} StripEndRemovesOnlySpace(s: string)
    ensures forall k :: |StripEnd(s)| <= k < |s| ==> IsSpace(s[k])
  {
    if s != [] && IsSpace(s[|s| - 1]) {
      StripEndRemovesOnlySpace(s[..|s| - 1]);
    }
  }

  /** `Strip` removes white space, and only white space, from the two ends. */
  lemma StripRemovesOnlySpace(s: string)
    ensures exists i, j ::
      && 0 <= i <= j <= |s| && Strip(s) == s[i..j]
      && (forall k :: 0 <= k < i ==> IsSpace(s[k]))
      && (forall k :: j <= k < |s| ==> IsSpace(s[k]))
  {
    var t := StripStart(s);
    var i := |s| - |t|;
    var j := i + |Strip(s)|;
    StripStartRemovesOnlySpace(s);
    StripEndRemovesOnlySpace(t);
    assert Strip(s) == t[..|Strip(s)|];
    assert s[i..j] == t[..|Strip(s)|];
    forall k | j <= k < |s| ensures IsSpace(s[k]) {
      assert s[k] == t[k - i];
    }
  }

  /** A string without white space at either end is its own `Strip`. */
  lemma StripOfTrimmed(s: string)
    requires s == [] || (!IsSpace(s[0]) && !IsSpace(s[|s| - 1]))
    ensures Strip(s) == s
  {
  }

  /** `sep.join(xs)` */
  function Join(xs: seq<string>, sep: string): string {
    if xs == [] then []
    else if |xs| == 1 then xs[0]
    else xs[0] + sep + Join(xs[1..], sep)
  }

  /** `s.startswith(prefix)` */
  predicate StartsWith(s: string, prefix: string) {
    |prefix| <= |s| && s[..|prefix|] == prefix
  }

  /** `needle in haystack` for strings. */
  predicate Contains(haystack: string, needle: string) {
    exists i :: 0 <= i <= |haystack| - |needle| && OccursAt(haystack, needle, i)
  }

  predicate OccursAt(haystack: string, needle: string, i: int) {
    0 <= i && i + |needle| <= |haystack| && haystack[i..i + |needle|] == needle
  }

  /** `s.split(sep, 1)[0]`: everything before the first `sep`, or all of `s` when there is none. */
  function BeforeFirst(s: string, sep: char): (r: string)
    ensures sep !in r
    ensures r <= s
    ensures |r| < |s| ==> s[|r|] == sep
  {
    if s == [] || s[0] == sep then [] else [s[0]] + BeforeFirst(s[1..], sep)
  }

  /** The prefix `s[:n]` for a non-negative `n`. */
  function Prefix(s: string, n: nat): (r: string)
    ensures |r| == if n < |s| then n else |s|
    ensures r <= s
  {
    if n < |s| then s[..n] else s
  }
}
