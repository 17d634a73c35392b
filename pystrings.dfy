/**
 * The two Python string methods the registration form relies on:
 * `str.strip(chars)` and `str.lower()`.
 */
module PyStrings {

  /** `s.lstrip(chars)`: drop the longest prefix of `s` whose characters all occur in `chars`. */
  function LStrip(s: string, chars: string): (r: string)
    ensures |r| <= |s| && r == s[|s| - |r|..]
    ensures forall i :: 0 <= i < |s| - |r| ==> s[i] in chars
    ensures r != [] ==> r[0] !in chars
  {
    if s != [] && s[0] in chars then LStrip(s[1..], chars) else s
  }

  /** `s.rstrip(chars)`: drop the longest suffix of `s` whose characters all occur in `chars`. */
  function RStrip(s: string, chars: string): (r: string)
    ensures |r| <= |s| && r == s[..|r|]
    ensures forall i :: |r| <= i < |s| ==> s[i] in chars
    ensures r != [] ==> r[|r| - 1] !in chars
  {
    if s != [] && s[|s| - 1] in chars then RStrip(s[..|s| - 1], chars) else s
  }

  /**
   * `s.strip(chars)`: CPython first skips leading characters in `chars`,
   * then trailing ones in what is left. The result is the slice of `s`
   * between a leading and a trailing run of `chars`, and it neither starts
   * nor ends with a character of `chars`.
   */
  function Strip(s: string, chars: string): (r: string)
    ensures StripStart(s, chars) + |r| <= |s|
    ensures r == s[StripStart(s, chars)..StripStart(s, chars) + |r|]
    ensures forall i :: 0 <= i < StripStart(s, chars) ==> s[i] in chars
    ensures forall i :: StripStart(s, chars) + |r| <= i < |s| ==> s[i] in chars
    ensures r != [] ==> r[0] !in chars && r[|r| - 1] !in chars
  {
    RStrip(LStrip(s, chars), chars)
  }

  /** Where the stripped text starts in `s`. */
  function StripStart(s: string, chars: string): nat
  {
    |s| - |LStrip(s, chars)|
  }

  /** The strip-based emptiness test: nothing is left exactly when every character is in `chars`. */
  lemma StripEmptyIff(s: string, chars: string)
    ensures Strip(s, chars) == [] <==> forall i :: 0 <= i < |s| ==> s[i] in chars
  {
  }

  /** The ASCII part of Python's `str.lower()` on one character. */
  function LowerChar(c: char): char
  {
    if 'A' <= c <= 'Z' then (c as int - 'A' as int + 'a' as int) as char else c
  }

  predicate IsLowercase(s: string)
  {
    forall i :: 0 <= i < |s| ==> !('A' <= s[i] <= 'Z')
  }

  /**
   * `s.lower()` (ASCII case mapping only): same length, each upper-case
   * letter replaced by its lower-case letter, every other character kept,
   * and no upper-case letter left.
   */
  function Lower(s: string): (r: string)
    ensures |r| == |s|
    ensures forall i :: 0 <= i < |s| && 'A' <= s[i] <= 'Z' ==> 'a' <= r[i] <= 'z' && r[i] as int - s[i] as int == 'a' as int - 'A' as int
    ensures forall i :: 0 <= i < |s| && !('A' <= s[i] <= 'Z') ==> r[i] == s[i]
    ensures IsLowercase(r)
  {
    seq(|s|, i requires 0 <= i < |s| => LowerChar(s[i]))
  }

  /** Lowering twice is lowering once. */
  lemma LowerIdempotent(s: string)
    ensures Lower(Lower(s)) == Lower(s)
  {
  }

  /** A name that is already lower-case is left as it is. */
  lemma LowerFixesLowercase(s: string)
    requires IsLowercase(s)
    ensures Lower(s) == s
  {
  }
}
