/** `Number.prototype.toFixed(2)`, the formatting of a details row's metric,
    on exact real numbers: the magnitude is rounded to the nearest hundredth
    (a tie goes to the larger magnitude), written as decimal digits, a point and
    exactly two fraction digits, and prefixed by `-` when the number is negative. */
module Fixed {
  import opened SeriesKeys

  predicate AllDigits(s: string) {
    forall i :: 0 <= i < |s| ==> IsDigit(s[i])
  }

  function DigitChar(d: nat): (c: char)
    requires d < 10
    ensures IsDigit(c) && c as int - '0' as int == d
  {
    ('0' as int + d) as char
  }

  function DigitValue(c: char): (d: nat)
    requires IsDigit(c)
    ensures d < 10
  {
    c as int - '0' as int
  }

  /** The decimal digits of `n`, without leading zeros. */
  function Decimal(n: nat): (s: string)
    ensures |s| >= 1 && AllDigits(s)
    ensures |s| > 1 ==> s[0] != '0'
  {
    if n < 10 then [DigitChar(n)] else Decimal(n / 10) + [DigitChar(n % 10)]
  }

  /** The number a string of decimal digits denotes. */
  function DecimalValue(s: string): nat
    requires AllDigits(s)
  {
    if s == [] then 0 else DecimalValue(s[..|s| - 1]) * 10 + DigitValue(s[|s| - 1])
  }

  /** Reading the digits of `n` back gives `n`. */
  lemma {:induction false} DecimalRoundTrip(n: nat)
    ensures DecimalValue(Decimal(n)) == n
  {
    if n >= 10 {
      DecimalRoundTrip(n / 10);
      var s := Decimal(n);
      assert s[..|s| - 1] == Decimal(n / 10);
    }
  }

  /** The nearest number of hundredths to a non-negative `x`; of two equally
      near, the larger. */
  function RoundedHundredths(x: real): (n: nat)
    requires x >= 0.0
    ensures n as real - 0.5 <= 100.0 * x < n as real + 0.5
  {
    (100.0 * x + 0.5).Floor
  }

  /** `toFixed(2)` of a non-negative number. */
  function UnsignedFixed2(x: real): (s: string)
    requires x >= 0.0
    ensures UnsignedShape(s)
  {
    var n := RoundedHundredths(x);
    var cents := n % 100;
    Decimal(n / 100) + "." + [DigitChar(cents / 10), DigitChar(cents % 10)]
  }

  /** Digits, a point and two digits. */
  predicate UnsignedShape(s: string) {
    |s| >= 4 && AllDigits(s[..|s| - 3]) && s[|s| - 3] == '.' && AllDigits(s[|s| - 2..])
  }

  /** An optional minus sign followed by `UnsignedShape`. */
  predicate Fixed2Shape(s: string) {
    UnsignedShape(s) || (|s| >= 1 && s[0] == '-' && UnsignedShape(s[1..]))
  }

  /** `toFixed(2)`: the result is always an optional sign, digits, a point
      and two digits. */
  function ToFixed2(x: real): (s: string)
    ensures Fixed2Shape(s)
    ensures |s| >= 4
    ensures s[0] == '-' <==> x < 0.0
  {
    if x < 0.0 then "-" + UnsignedFixed2(-x) else UnsignedFixed2(x)
  }

  /** The number of hundredths a string of `UnsignedShape` denotes. */
  function UnsignedHundredths(s: string): nat
    requires UnsignedShape(s)
  {
    DecimalValue(s[..|s| - 3]) * 100 + DecimalValue(s[|s| - 2..])
  }

  /** The number of hundredths a string of `Fixed2Shape` denotes. */
  function HundredthsOf(s: string): int
    requires Fixed2Shape(s)
  {
    if UnsignedShape(s) then UnsignedHundredths(s) else -(UnsignedHundredths(s[1..]) as int)
  }

  lemma UnsignedFixed2Value(x: real)
    requires x >= 0.0
    ensures UnsignedShape(UnsignedFixed2(x))
    ensures UnsignedHundredths(UnsignedFixed2(x)) == RoundedHundredths(x)
  {
    var n := RoundedHundredths(x);
    var cents := n % 100;
    var s := UnsignedFixed2(x);
    var whole := Decimal(n / 100);
    var frac := [DigitChar(cents / 10), DigitChar(cents % 10)];
    assert s == whole + "." + frac;
    assert s[..|s| - 3] == whole;
    assert s[|s| - 2..] == frac;
    DecimalRoundTrip(n / 100);
    assert frac[..1] == [DigitChar(cents / 10)];
    assert DecimalValue([DigitChar(cents / 10)]) == cents / 10 by {
      assert [DigitChar(cents / 10)][..0] == [];
    }
    assert DecimalValue(frac) == DecimalValue([DigitChar(cents / 10)]) * 10 + cents % 10;
    assert DecimalValue(frac) == cents;
  }

  /** Reading the formatted number back gives `x` rounded to the nearest
      hundredth, away from zero on a tie; so the printed value is never more
      than half a hundredth from `x`. */
  lemma {:induction false} ToFixed2Value(x: real)
    ensures x >= 0.0 ==> HundredthsOf(ToFixed2(x)) == RoundedHundredths(x)
    ensures x < 0.0 ==> HundredthsOf(ToFixed2(x)) == -(RoundedHundredths(-x) as int)
    ensures -0.5 <= HundredthsOf(ToFixed2(x)) as real - 100.0 * x <= 0.5
  {
    if x >= 0.0 {
      UnsignedFixed2Value(x);
    } else {
      var s := ToFixed2(x);
      UnsignedFixed2Value(-x);
      assert s[1..] == UnsignedFixed2(-x);
      assert !AllDigits(s[..|s| - 3]) by {
        assert s[..|s| - 3][0] == '-';
      }
    }
  }

  lemma ToFixed2Examples()
    ensures ToFixed2(3.14159) == "3.14"
    ensures ToFixed2(0.85) == "0.85"
    ensures ToFixed2(-0.001) == "-0.00"
  {
  }
}
