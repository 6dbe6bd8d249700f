/**
 * The few pieces of the Java and Liferay runtime whose behaviour the setup code
 * depends on: nullable strings, `Validator.isBlank`, `Long.parseLong` and the
 * decimal form of a `long` (`String.valueOf`).
 */
module JavaLang {
  import opened Wrappers

  /** A `java.lang.String` reference: `None` stands for `null`. */
  type JString = Option<string>

  const LongMin: int := -0x8000_0000_0000_0000
  const LongMax: int := 0x7FFF_FFFF_FFFF_FFFF

  predicate IsWhitespace(c: char) {
    c == ' ' || c == '\t' || c == '\n' || c == '\r' || c == '\U{000B}' || c == '\U{000C}'
  }

  /** `Validator.isBlank`: `null`, empty, or whitespace only. */
  predicate IsBlank(s: JString): (b: bool)
    ensures !b ==> IsNonEmpty(s)
    ensures IsNonEmpty(s) && !IsWhitespace(s.value[0]) ==> !b
  {
    s.None? || forall i :: 0 <= i < |s.value| ==> IsWhitespace(s.value[i])
  }

  /** `s != null && !s.isEmpty()`, the guard the setup code writes out by hand. */
  predicate IsNonEmpty(s: JString) {
    s.Some? && s.value != ""
  }

  predicate IsDigit(c: char) {
    '0' <= c <= '9'
  }

  predicate AllDigits(s: string) {
    forall i :: 0 <= i < |s| ==> IsDigit(s[i])
  }

  function DigitValue(c: char): (d: nat)
    requires IsDigit(c)
    ensures d < 10
  {
    (c as int) - ('0' as int)
  }

  function DigitChar(d: nat): (c: char)
    requires d < 10
    ensures IsDigit(c) && DigitValue(c) == d
  {
    (('0' as int) + d) as char
  }

  /** The value of a string of decimal digits, most significant first. */
  function DigitsValue(s: string): nat
    requires AllDigits(s)
  {
    if s == [] then 0 else DigitsValue(s[..|s| - 1]) * 10 + DigitValue(s[|s| - 1])
  }

  /**
   * `Long.parseLong`: an optional sign followed by at least one decimal digit,
   * whose value fits a signed 64-bit `long`; `None` where Java throws
   * `NumberFormatException`.
   */
  function ParseLong(s: string): (r: Option<int>)
    ensures r.Some? ==> LongMin <= r.value <= LongMax
    ensures r.Some? ==> |s| >= 1 && (IsDigit(s[0]) || (|s| >= 2 && (s[0] == '-' || s[0] == '+')))
    ensures r.Some? ==> forall i :: 1 <= i < |s| ==> IsDigit(s[i])
    ensures r.Some? ==> (s[0] == '-' <==> r.value < 0) || r.value == 0
  {
    if s == [] then None
    else
      var signed := s[0] == '-' || s[0] == '+';
      var digits := if signed then s[1..] else s;
      if digits == [] || !AllDigits(digits) then None
      else
        var magnitude: int := DigitsValue(digits);
        var v: int := if s[0] == '-' then -magnitude else magnitude;
        if LongMin <= v <= LongMax then
          assert forall i :: 1 <= i < |s| ==> IsDigit(s[i]) by {
            forall i | 1 <= i < |s| ensures IsDigit(s[i]) {
              if signed { assert s[i] == digits[i - 1]; } else { assert s[i] == digits[i]; }
            }
          }
          Some(v)
        else None
  }

  /** `String.valueOf(n)` for a non-negative number: its decimal digits, no sign. */
  function DecimalString(n: nat): (s: string)
    ensures s != [] && AllDigits(s)
    ensures s[0] == '0' <==> n == 0
    ensures |s| == 1 <==> n < 10
  {
    if n < 10 then [DigitChar(n)] else DecimalString(n / 10) + [DigitChar(n % 10)]
  }

  lemma {:induction false} DecimalStringValue(n: nat)
    ensures DigitsValue(DecimalString(n)) == n
  {
    if n >= 10 {
      DecimalStringValue(n / 10);
      var s := DecimalString(n);
      assert s[..|s| - 1] == DecimalString(n / 10);
    }
  }

  /** `Long.parseLong(String.valueOf(n)) == n` for every non-negative `long`. */
  lemma ParseDecimalString(n: nat)
    requires n <= LongMax
    ensures ParseLong(DecimalString(n)) == Some(n)
  {
    DecimalStringValue(n);
    var s := DecimalString(n);
    assert IsDigit(s[0]);
  }

  /**
   * A sign in front of the decimal form of a number is read as that sign:
   * `Long.parseLong("-" + n) == -n` down to `Long.MIN_VALUE`, and
   * `Long.parseLong("+" + n) == n` up to `Long.MAX_VALUE`.
   */
  lemma ParseSignedDecimalString(n: nat)
    requires n <= LongMax + 1
    ensures ParseLong("-" + DecimalString(n)) == Some(-(n as int))
    ensures n <= LongMax ==> ParseLong("+" + DecimalString(n)) == Some(n)
  {
    DecimalStringValue(n);
    var d := DecimalString(n);
    assert ("-" + d)[1..] == d;
    assert ("+" + d)[1..] == d;
  }

  /** A number beyond `Long.MAX_VALUE`, written out, does not parse. */
  lemma ParseOutOfRange(n: nat)
    requires n > LongMax
    ensures ParseLong(DecimalString(n)) == None
    ensures n > LongMax + 1 ==> ParseLong("-" + DecimalString(n)) == None
  {
    DecimalStringValue(n);
    var d := DecimalString(n);
    assert IsDigit(d[0]);
    assert ("-" + d)[1..] == d;
  }

  /** Distinct numbers have distinct decimal forms (generated ids never repeat). */
  lemma DecimalStringInjective(m: nat, n: nat)
    requires DecimalString(m) == DecimalString(n)
    ensures m == n
  {
    DecimalStringValue(m);
    DecimalStringValue(n);
  }
}
