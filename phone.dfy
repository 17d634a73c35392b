/**
 * The phone-number field's pattern `^\+?1?\d{9,15}$`, as a hand-written
 * backtracking recognizer: each `?` first tries to consume its character and
 * falls back to consuming nothing, like the regular-expression engine does.
 * `\d` is the ASCII digits.
 */
module Phone {
  import opened Charsets

  const MinDigits: nat := 9
  const MaxDigits: nat := 15

  predicate AllDigits(s: string)
  {
    forall i :: 0 <= i < |s| ==> IsDigit(s[i])
  }

  /** `\d{min,max}` followed by the end of the input. */
  function MatchDigits(s: string, min: nat, max: nat): bool
  {
    if s == [] then min == 0
    else max > 0 && IsDigit(s[0]) && MatchDigits(s[1..], if min > 0 then min - 1 else 0, max - 1)
  }

  /** `1?\d{9,15}$`: consume a `1` if the rest still matches, otherwise do not. */
  function MatchOptionalOne(s: string): bool
  {
    (s != [] && s[0] == '1' && MatchDigits(s[1..], MinDigits, MaxDigits)) || MatchDigits(s, MinDigits, MaxDigits)
  }

  /**
   * `^\+?1?\d{9,15}$` over the whole input. It accepts exactly the strings
   * `IsPhoneNumber` describes.
   */
  function MatchesPhonePattern(s: string): (r: bool)
    ensures r <==> IsPhoneNumber(s)
  {
    OptionalOneMeans(s);
    if s != [] then OptionalOneMeans(s[1..]); ((s[0] == '+' && MatchOptionalOne(s[1..])) || MatchOptionalOne(s))
    else MatchOptionalOne(s)
  }

  /** The input without its leading `+`, if it has one. */
  function DigitPart(s: string): string
  {
    if s != [] && s[0] == '+' then s[1..] else s
  }

  /**
   * The language of the pattern, stated directly: after an optional `+`,
   * only digits, and 9 to 15 of them, or 16 when the first one is a `1`
   * (the `1?` takes it and `\d{9,15}` takes the other 15).
   */
  predicate IsPhoneNumber(s: string)
  {
    var d := DigitPart(s);
    AllDigits(d) && (MinDigits <= |d| <= MaxDigits || (|d| == MaxDigits + 1 && d[0] == '1'))
  }

  /** `\d{min,max}$` matches exactly the all-digit strings whose length lies in `[min, max]`. */
  lemma {:induction false} MatchDigitsMeans(s: string, min: nat, max: nat)
    ensures MatchDigits(s, min, max) <==> AllDigits(s) && min <= |s| <= max
  {
    if s != [] && max > 0 {
      MatchDigitsMeans(s[1..], if min > 0 then min - 1 else 0, max - 1);
      if AllDigits(s[1..]) && IsDigit(s[0]) {
        forall i | 0 <= i < |s| ensures IsDigit(s[i]) {
          if i > 0 { assert s[i] == s[1..][i - 1]; }
        }
      }
      if AllDigits(s) {
        forall i | 0 <= i < |s| - 1 ensures IsDigit(s[1..][i]) {
          assert s[1..][i] == s[i + 1];
        }
      }
    }
  }

  lemma OptionalOneMeans(s: string)
    ensures MatchOptionalOne(s) <==>
      AllDigits(s) && (MinDigits <= |s| <= MaxDigits || (|s| == MaxDigits + 1 && s[0] == '1'))
  {
    MatchDigitsMeans(s, MinDigits, MaxDigits);
    if s != [] {
      MatchDigitsMeans(s[1..], MinDigits, MaxDigits);
      DropFirstDigit(s);
    }
  }

  lemma DropFirstDigit(s: string)
    requires s != []
    ensures AllDigits(s) <==> IsDigit(s[0]) && AllDigits(s[1..])
  {
  }

  /**
   * Accepted boundary cases: nine digits, the shape of an Indian mobile number
   * with its `+`, and sixteen digits whose first is `1` (`1?` takes it and
   * `\d{9,15}` the other fifteen).
   */
  lemma AcceptedExamples()
    ensures MatchesPhonePattern("123456789")
    ensures MatchesPhonePattern("+919812345678")
    ensures MatchesPhonePattern("1234567890123456")
  {
  }

  lemma EightDigitsRejected()
    ensures !MatchesPhonePattern("12345678")
  {
  }

  /** A letter anywhere in the input means the pattern does not match. */
  lemma LetterRejected(s: string, i: nat)
    requires i < |s| && IsAsciiLetter(s[i])
    ensures !MatchesPhonePattern(s)
  {
    var d := DigitPart(s);
    if s[0] == '+' {
      assert d[i - 1] == s[i];
    } else {
      assert d[i] == s[i];
    }
  }

  /** Sixteen digits are rejected unless the first of them is a `1`; seventeen never match. */
  lemma TooManyDigitsRejected(s: string)
    requires AllDigits(s)
    requires |s| > MaxDigits + 1 || (|s| == MaxDigits + 1 && s[0] != '1')
    ensures !MatchesPhonePattern(s)
  {
  }

  /** Fewer than nine digits are rejected, with or without a `+`. */
  lemma TooFewDigitsRejected(s: string)
    requires |DigitPart(s)| < MinDigits
    ensures !MatchesPhonePattern(s)
  {
  }
}
