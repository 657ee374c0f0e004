/**
 * Decimal text for integers, as the dialog uses it: QString::number turns an
 * int into its decimal string, and QString::toInt turns text back into an
 * int, yielding 0 when the text is not a 32-bit decimal integer.
 */
module DecimalText {

  /** The range of a C++ `int`, the result type of QString::toInt. */
  const Int32Min: int := -0x8000_0000
  const Int32Max: int := 0x7FFF_FFFF

  predicate IsDigit(c: char) {
    '0' <= c <= '9'
  }

  /** A non-empty run of decimal digits. */
  predicate IsDigits(s: string) {
    |s| > 0 && forall i :: 0 <= i < |s| ==> IsDigit(s[i])
  }

  /** An optional sign followed by decimal digits. */
  predicate IsIntegerText(s: string) {
    IsDigits(s) || (|s| > 1 && (s[0] == '-' || s[0] == '+') && IsDigits(s[1..]))
  }

  function DigitChar(d: nat): (c: char)
    requires d < 10
    ensures IsDigit(c) && c as int - '0' as int == d
  {
    ('0' as int + d) as char
  }

  /** The value of a string of digits, most significant digit first. */
  function DigitsValue(s: string): nat
    requires forall i :: 0 <= i < |s| ==> IsDigit(s[i])
  {
    if s == [] then 0
    else
      assert IsDigit(s[|s| - 1]);
      10 * DigitsValue(s[..|s| - 1]) + (s[|s| - 1] as int - '0' as int)
  }

  /** The shortest digit string of `n`: no leading zero except for "0" itself. */
  function Digits(n: nat): (s: string)
    ensures IsDigits(s)
    ensures |s| > 1 ==> s[0] != '0'
    ensures n < 10 <==> |s| == 1
  {
    if n < 10 then [DigitChar(n)] else Digits(n / 10) + [DigitChar(n % 10)]
  }

  /** QString::number(int): a minus sign for negative values, then the digits. */
  function NumberToString(n: int): (s: string)
    ensures n >= 0 ==> IsDigits(s)
    ensures n < 0 ==> |s| > 1 && s[0] == '-' && IsDigits(s[1..])
  {
    if n < 0 then "-" + Digits(-n) else Digits(n)
  }

  /** The signed value of integer text. */
  function IntegerValue(s: string): int
    requires IsIntegerText(s)
  {
    if IsDigits(s) then DigitsValue(s)
    else if s[0] == '-' then -(DigitsValue(s[1..]) as int)
    else DigitsValue(s[1..])
  }

  /**
   * QString::toInt with its conversion-failure result: text that is not an
   * integer, or whose value does not fit an `int`, yields 0.
   */
  function ToInt(s: string): (r: int)
    ensures Int32Min <= r <= Int32Max
    ensures r != 0 ==> IsIntegerText(s) && r == IntegerValue(s)
    ensures !IsIntegerText(s) ==> r == 0
  {
    if IsIntegerText(s) && Int32Min <= IntegerValue(s) <= Int32Max then IntegerValue(s) else 0
  }

  lemma {:induction false} DigitsRoundTrip(n: nat)
    ensures DigitsValue(Digits(n)) == n
  {
    if n >= 10 {
      DigitsRoundTrip(n / 10);
      var s := Digits(n / 10) + [DigitChar(n % 10)];
      assert s[..|s| - 1] == Digits(n / 10);
    }
  }

  /** toInt undoes QString::number for every value an `int` can hold. */
  lemma ToIntOfNumber(n: int)
    requires Int32Min <= n <= Int32Max
    ensures ToInt(NumberToString(n)) == n
  {
    var s := NumberToString(n);
    if n < 0 {
      DigitsRoundTrip(-n);
      assert s[1..] == Digits(-n);
      assert !IsDigit(s[0]);
      assert IntegerValue(s) == n;
    } else {
      DigitsRoundTrip(n);
      assert IntegerValue(s) == n;
    }
  }

  /** Digit text too large for an `int` converts to 0, like text that is no number at all. */
  lemma ToIntOverflow(n: nat)
    requires n > Int32Max
    ensures ToInt(Digits(n)) == 0
  {
    DigitsRoundTrip(n);
  }
}
