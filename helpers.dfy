/** Small pure helpers of the game script: decimal rendering of integers (the
    implicit number-to-string conversion of `"n_" + n`, `"×" + n`, ...),
    `pad2` for the time label and `clamp`. */
module Helpers {

  /** A slot that is either empty (`null` in the script) or holds a value. */
  datatype Option<T> = None | Some(value: T)

  /** The decimal digit character of `d`. */
  function DigitChar(d: int): (c: char)
    requires 0 <= d < 10
    ensures '0' <= c <= '9'
    ensures c as int - '0' as int == d
  {
    ('0' as int + d) as char
  }

  predicate IsDigits(s: string) {
    forall i :: 0 <= i < |s| ==> '0' <= s[i] <= '9'
  }

  /** Decimal text of a natural number, most significant digit first, no
      leading zeros. */
  function DecimalString(n: nat): (s: string)
    ensures |s| >= 1 && IsDigits(s)
    ensures (|s| == 1) == (n < 10)
    ensures n >= 10 ==> s[0] != '0'
  {
    if n < 10 then [DigitChar(n)] else DecimalString(n / 10) + [DigitChar(n % 10)]
  }

  /** Reads a string of decimal digits back as a number; the inverse of
      DecimalString. */
  function DigitsValue(s: string): nat
    requires IsDigits(s)
  {
    if s == [] then 0
    else DigitsValue(s[..|s| - 1]) * 10 + (s[|s| - 1] as int - '0' as int)
  }

  lemma {:induction false} DecimalRoundTrip(n: nat)
    ensures DigitsValue(DecimalString(n)) == n
  {
    var s := DecimalString(n);
    if n >= 10 {
      DecimalRoundTrip(n / 10);
      assert s[..|s| - 1] == DecimalString(n / 10);
    }
  }

  /** Distinct numbers have distinct decimal texts, so `"n_" + n` keys differ. */
  lemma DecimalInjective(m: nat, n: nat)
    requires DecimalString(m) == DecimalString(n)
    ensures m == n
  {
    DecimalRoundTrip(m);
    DecimalRoundTrip(n);
  }

  /** JavaScript's rendering of an integral number: a minus sign before the
      digits of the magnitude. */
  function IntToString(i: int): (s: string)
    ensures i >= 0 ==> s == DecimalString(i)
    ensures i < 0 ==> |s| >= 2 && s[0] == '-' && s[1..] == DecimalString(-i)
  {
    if i < 0 then "-" + DecimalString(-i) else DecimalString(i)
  }

  /** Reads a rendering of an integer back: a leading "-" negates the digits
      after it. */
  function IntValue(s: string): int
    requires |s| >= 1 && (if s[0] == '-' then IsDigits(s[1..]) else IsDigits(s))
  {
    if s[0] == '-' then -(DigitsValue(s[1..]) as int) else DigitsValue(s)
  }

  /** The text of every integer, negative ones included, reads back as that
      integer. */
  lemma {:induction false} IntRoundTrip(i: int)
    ensures var s := IntToString(i); |s| >= 1 && (if s[0] == '-' then IsDigits(s[1..]) else IsDigits(s))
    ensures IntValue(IntToString(i)) == i
  {
    if i < 0 {
      DecimalRoundTrip(-i);
    } else {
      DecimalRoundTrip(i);
    }
  }

  /** Distinct integers have distinct texts, so the labels "×n", "+n" and
      "+-n" tell their values apart. */
  lemma IntToStringInjective(i: int, j: int)
    requires IntToString(i) == IntToString(j)
    ensures i == j
  {
    IntRoundTrip(i);
    IntRoundTrip(j);
  }

  /** `pad2(n)`: a leading "0" when n < 10, then the number. */
  function Pad2(n: int): (r: string)
    ensures |r| >= 2
    ensures r[0] == '0' <==> n < 10
    ensures n >= 0 ==> IsDigits(r)
  {
    (if n < 10 then "0" else "") + IntToString(n)
  }

  /** For the times the label shows (0..99), pad2 yields exactly two digits,
      starts with '0' exactly when n < 10, and reads back as n. */
  lemma Pad2TwoDigits(n: int)
    requires 0 <= n <= 99
    ensures |Pad2(n)| == 2 && IsDigits(Pad2(n))
    ensures Pad2(n)[0] == '0' <==> n < 10
    ensures DigitsValue(Pad2(n)) == n
  {
    var s := Pad2(n);
    DecimalRoundTrip(n);
    if n < 10 {
      assert s == ['0', DigitChar(n)];
      assert s[..1] == "0";
    } else {
      assert DecimalString(n / 10) == [DigitChar(n / 10)];
      assert s == [DigitChar(n / 10), DigitChar(n % 10)];
    }
  }

  /** `clamp(v, min, max)` = Math.max(min, Math.min(max, v)). */
  function Clamp(v: int, min: int, max: int): (r: int)
    ensures r >= min
    ensures min <= max ==> r <= max
    ensures min <= v <= max ==> r == v
    ensures v < min ==> r == min
    ensures min <= max < v ==> r == max
    ensures max < min ==> r == min
  {
    var low := if max < v then max else v;
    if min > low then min else low
  }
}
