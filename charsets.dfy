/**
 * The character sets of the registration form: Python's `ascii_letters`,
 * `digits` and `punctuation`, and the username and password sets built from them.
 */
module Charsets {

  /** The characters from `lo` to `hi` inclusive, in code-point order. */
  function CharRange(lo: char, hi: char): (r: string)
    requires lo <= hi && hi as int < 128
    ensures |r| == hi as int - lo as int + 1
  {
    seq(hi as int - lo as int + 1, i requires 0 <= i <= hi as int - lo as int => (lo as int + i) as char)
  }

  /** `string.ascii_letters`: "abc…xyzABC…XYZ". */
  const AsciiLetters: string := CharRange('a', 'z') + CharRange('A', 'Z')
  /** `string.digits`: "0123456789". */
  const Digits: string := CharRange('0', '9')
  /** `string.punctuation`: the four runs of ASCII symbols between the letters and digits. */
  const Punctuation: string := CharRange('!', '/') + CharRange(':', '@') + CharRange('[', '`') + CharRange('{', '~')

  /** `UNAME_CHARS = letters + "._" + digits`: note that `_` is in the set. */
  const UnameChars: string := AsciiLetters + "._" + Digits
  /** `PWD_CHARS = letters + punctuation + digits`. */
  const PwdChars: string := AsciiLetters + Punctuation + Digits

  predicate IsAsciiLetter(c: char)
  {
    'a' <= c <= 'z' || 'A' <= c <= 'Z'
  }

  predicate IsDigit(c: char)
  {
    '0' <= c <= '9'
  }

  predicate IsUsernameChar(c: char)
  {
    IsAsciiLetter(c) || IsDigit(c) || c == '.' || c == '_'
  }

  /** Printable ASCII other than the space. */
  predicate IsPasswordChar(c: char)
  {
    '!' <= c <= '~'
  }

  predicate UsernameCharsOk(s: string)
  {
    forall i :: 0 <= i < |s| ==> IsUsernameChar(s[i])
  }

  predicate PasswordCharsOk(s: string)
  {
    forall i :: 0 <= i < |s| ==> IsPasswordChar(s[i])
  }

  lemma CharRangeMembers(lo: char, hi: char, c: char)
    requires lo <= hi && hi as int < 128
    ensures c in CharRange(lo, hi) <==> lo <= c <= hi
  {
    if lo <= c <= hi {
      assert CharRange(lo, hi)[c as int - lo as int] == c;
    } else {
      forall i | 0 <= i < |CharRange(lo, hi)| ensures CharRange(lo, hi)[i] != c {
      }
    }
  }

  /** `AsciiLetters` spells out Python's `string.ascii_letters`. */
  lemma LettersConstant()
    ensures AsciiLetters == "abcdefghijklmnopqrstuvwxyz" + "ABCDEFGHIJKLMNOPQRSTUVWXYZ"
  {
    SameAsLiteral('a', 'z', "abcdefghijklmnopqrstuvwxyz");
    SameAsLiteral('A', 'Z', "ABCDEFGHIJKLMNOPQRSTUVWXYZ");
  }

  /** `Digits` spells out Python's `string.digits`. */
  lemma DigitsConstant()
    ensures Digits == "0123456789"
  {
    SameAsLiteral('0', '9', "0123456789");
  }

  /** `Punctuation` spells out Python's `string.punctuation`, in its four runs. */
  lemma PunctuationConstant()
    ensures Punctuation == "!\"#$%&'()*+,-./" + ":;<=>?@" + "[\\]^_`" + "{|}~"
  {
    SameAsLiteral('!', '/', "!\"#$%&'()*+,-./");
    SameAsLiteral(':', '@', ":;<=>?@");
    SameAsLiteral('[', '`', "[\\]^_`");
    SameAsLiteral('{', '~', "{|}~");
  }

  lemma SameAsLiteral(lo: char, hi: char, lit: string)
    requires lo <= hi && hi as int < 128
    requires |lit| == hi as int - lo as int + 1
    requires forall i :: 0 <= i < |lit| ==> lit[i] as int == lo as int + i
    ensures CharRange(lo, hi) == lit
  {
  }

  lemma LettersAreAsciiLetters(c: char)
    ensures c in AsciiLetters <==> IsAsciiLetter(c)
  {
    CharRangeMembers('a', 'z', c);
    CharRangeMembers('A', 'Z', c);
  }

  lemma DigitsAreDigits(c: char)
    ensures c in Digits <==> IsDigit(c)
  {
    CharRangeMembers('0', '9', c);
  }

  /** `string.punctuation` is every printable ASCII character that is neither a letter, a digit nor a space. */
  lemma PunctuationIsAsciiSymbols(c: char)
    ensures c in Punctuation <==> '!' <= c <= '~' && !IsAsciiLetter(c) && !IsDigit(c)
  {
    CharRangeMembers('!', '/', c);
    CharRangeMembers(':', '@', c);
    CharRangeMembers('[', '`', c);
    CharRangeMembers('{', '~', c);
  }

  /** A character is in `UNAME_CHARS` iff it is an ASCII letter, a digit, `.` or `_`. */
  lemma UnameCharsMembers(c: char)
    ensures c in UnameChars <==> IsUsernameChar(c)
  {
    LettersAreAsciiLetters(c);
    DigitsAreDigits(c);
  }

  /** A character is in `PWD_CHARS` iff it is printable ASCII other than the space. */
  lemma PwdCharsMembers(c: char)
    ensures c in PwdChars <==> IsPasswordChar(c)
  {
    LettersAreAsciiLetters(c);
    DigitsAreDigits(c);
    PunctuationIsAsciiSymbols(c);
  }
}
