/** Character classes and the decimal-integer conversion the tokenizer relies on:
    `char::is_digit(10)`, `char::is_alphabetic` and `str::parse::<i32>` of a
    run of decimal digits. */
module Chars {
  import opened Results

  /** `char::is_digit(10)`: the ASCII decimal digits and nothing else. */
  predicate IsDigit(c: char) {
    '0' <= c <= '9'
  }

  predicate IsAsciiLetter(c: char) {
    'a' <= c <= 'z' || 'A' <= c <= 'Z'
  }

  /** `char::is_alphabetic`, kept abstract: its Unicode tables are not modelled.
      What is fixed is its behaviour on ASCII, where it holds exactly for the
      letters; so it is false for the digits, for `_` and for white space. */
  type Alphabetic = f: char -> bool | forall c: char :: c as int < 128 ==> (f(c) <==> IsAsciiLetter(c))
    witness IsAsciiLetter

  lemma AlphabeticExcludesDigitsAndUnderscore(alpha: Alphabetic, c: char)
    ensures IsDigit(c) || c == '_' || c == ' ' ==> !alpha(c)
  {
    if IsDigit(c) || c == '_' || c == ' ' {
      assert c as int < 128;
    }
  }

  predicate AllDigits(s: string) {
    forall i | 0 <= i < |s| :: IsDigit(s[i])
  }

  function DigitValue(c: char): (d: nat)
    requires IsDigit(c)
    ensures d < 10
  {
    c as int - '0' as int
  }

  /** The base-10 value of a string of decimal digits, most significant first. */
  function DecimalValue(s: string): (v: nat)
    requires AllDigits(s)
  {
    if |s| == 0 then 0 else DecimalValue(s[..|s| - 1]) * 10 + DigitValue(s[|s| - 1])
  }

  const I32Max: int := 0x7FFF_FFFF

  /** Rust's `i32`. */
  newtype i32 = x: int | -I32Max - 1 <= x <= I32Max

  /** The one `ParseIntError` kind a non-empty run of digits can produce. */
  datatype IntErrorKind = PosOverflow

  /** `str::parse::<i32>` applied to a non-empty run of decimal digits (the only
      strings the tokenizer hands it): the value when it fits, an overflow
      error otherwise; never a wrapped or truncated value. */
  function ParseI32(s: string): (r: Result<i32, IntErrorKind>)
    requires |s| > 0 && AllDigits(s)
    ensures r.Ok? ==> 0 <= r.value as int == DecimalValue(s)
    ensures r.Err? <==> DecimalValue(s) > I32Max
  {
    var v := DecimalValue(s);
    if v <= I32Max then Ok(v as i32) else Err(PosOverflow)
  }

  /** The canonical decimal spelling of a natural number: no sign, no leading zero. */
  ghost function Spelling(n: nat): (s: string)
    decreases n
  {
    if n < 10 then [('0' as int + n) as char] else Spelling(n / 10) + [('0' as int + n % 10) as char]
  }

  lemma {:induction false} DecimalValueAppend(s: string, c: char)
    requires AllDigits(s) && IsDigit(c)
    ensures AllDigits(s + [c])
    ensures DecimalValue(s + [c]) == DecimalValue(s) * 10 + DigitValue(c)
  {
    assert (s + [c])[..|s|] == s;
  }

  /** Reading back the spelling of `n` gives `n`. */
  lemma {:induction false} SpellingRoundTrip(n: nat)
    ensures |Spelling(n)| > 0 && AllDigits(Spelling(n))
    ensures DecimalValue(Spelling(n)) == n
    decreases n
  {
    if n >= 10 {
      SpellingRoundTrip(n / 10);
      DecimalValueAppend(Spelling(n / 10), ('0' as int + n % 10) as char);
    }
  }

  /** Every non-negative `i32` is produced by parsing its own spelling. */
  lemma ParseI32Spelling(v: i32)
    requires v >= 0
    ensures |Spelling(v as int)| > 0 && AllDigits(Spelling(v as int))
    ensures ParseI32(Spelling(v as int)) == Ok(v)
  {
    SpellingRoundTrip(v as int);
  }

  /** Extending a digit string never decreases its value. */
  lemma {:induction false} DecimalValueGrows(s: string, t: string)
    requires AllDigits(s + t)
    ensures AllDigits(s) && AllDigits(t)
    ensures DecimalValue(s) <= DecimalValue(s + t)
    decreases |t|
  {
    assert forall i | 0 <= i < |s| :: (s + t)[i] == s[i];
    assert forall i | 0 <= i < |t| :: (s + t)[|s| + i] == t[i];
    if |t| > 0 {
      var t' := t[..|t| - 1];
      var c := t[|t| - 1];
      assert s + t == (s + t') + [c];
      DecimalValueGrows(s, t');
      DecimalValueAppend(s + t', c);
    } else {
      assert s + t == s;
    }
  }

  /** Once a run of digits overflows `i32`, no longer run starting with it fits. */
  lemma OverflowIsPermanent(s: string, t: string)
    requires |s| > 0 && AllDigits(s + t)
    ensures AllDigits(s)
    ensures ParseI32(s).Err? ==> ParseI32(s + t).Err?
  {
    DecimalValueGrows(s, t);
  }

  /** Leading zeros do not change the parsed value. */
  lemma {:induction false} LeadingZeroIgnored(s: string)
    requires AllDigits(s)
    ensures AllDigits(['0'] + s)
    ensures DecimalValue(['0'] + s) == DecimalValue(s)
    decreases |s|
  {
    if |s| > 0 {
      var s' := s[..|s| - 1];
      var c := s[|s| - 1];
      assert ['0'] + s == (['0'] + s') + [c];
      assert s == s' + [c];
      LeadingZeroIgnored(s');
      DecimalValueAppend(['0'] + s', c);
      DecimalValueAppend(s', c);
    }
  }
}
