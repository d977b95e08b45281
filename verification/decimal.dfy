/** Decimal notation of natural numbers: the reference definitions that the
    Writer's digit counting and integer formatting are proved against. */
module Decimal {

  /** base raised to the power e */
  function Pow(base: nat, e: nat): nat
  {
    if e == 0 then 1 else base * Pow(base, e - 1)
  }

  /** The number of decimal digits of n, counting "0" as one digit. */
  function NumDigits(n: nat): (d: nat)
    ensures d >= 1
  {
    if n < 10 then 1 else 1 + NumDigits(n / 10)
  }

  /** NumDigits(n) is the unique d >= 1 with 10^(d-1) <= n < 10^d (or n < 10 when d = 1). */
  lemma {:induction false} NumDigitsBounds(n: nat)
    ensures n < Pow(10, NumDigits(n))
    ensures NumDigits(n) > 1 ==> Pow(10, NumDigits(n) - 1) <= n
  {
    if n >= 10 {
      NumDigitsBounds(n / 10);
    }
  }

  /** Converse of NumDigitsBounds: the bounds determine the digit count. */
  lemma {:induction false} NumDigitsUnique(n: nat, d: nat)
    requires 1 <= d
    requires n < Pow(10, d)
    requires d > 1 ==> Pow(10, d - 1) <= n
    ensures NumDigits(n) == d
  {
    if d == 1 {
    } else {
      NumDigitsUnique(n / 10, d - 1);
    }
  }

  /** A number below 10^k (k >= 1) has at most k digits. */
  lemma NumDigitsAtMost(n: nat, k: nat)
    requires k >= 1 && n < Pow(10, k)
    ensures NumDigits(n) <= k
  {
    NumDigitsBounds(n);
  }

  predicate IsDigit(c: char)
  {
    '0' <= c <= '9'
  }

  predicate AllDigits(s: string)
  {
    forall i :: 0 <= i < |s| ==> IsDigit(s[i])
  }

  /** The ASCII character of a decimal digit. */
  function Digit(k: nat): (c: char)
    requires k < 10
    ensures IsDigit(c)
  {
    (48 + k) as char
  }

  /** The numeric value of an ASCII digit; inverse of Digit. */
  function DigitValue(c: char): (k: nat)
    requires IsDigit(c)
    ensures k < 10 && Digit(k) == c
  {
    c as int - 48
  }

  /** The shortest decimal notation of n, most significant digit first. */
  function Digits(n: nat): (s: string)
  {
    if n < 10 then [Digit(n)] else Digits(n / 10) + [Digit(n % 10)]
  }

  /** The number a string of decimal digits denotes. */
  function Value(s: string): nat
    requires AllDigits(s)
  {
    if |s| == 0 then 0 else 10 * Value(s[..|s| - 1]) + DigitValue(s[|s| - 1])
  }

  /** Digits(n) consists of NumDigits(n) ASCII digits without a leading zero. */
  lemma {:induction false} DigitsShape(n: nat)
    ensures |Digits(n)| == NumDigits(n)
    ensures AllDigits(Digits(n))
    ensures |Digits(n)| > 1 ==> Digits(n)[0] != '0'
  {
    if n >= 10 {
      DigitsShape(n / 10);
    }
  }

  /** Digits(n) denotes n: reading the notation back gives the number. */
  lemma {:induction false} DigitsValue(n: nat)
    ensures AllDigits(Digits(n))
    ensures Value(Digits(n)) == n
  {
    DigitsShape(n);
    if n >= 10 {
      DigitsValue(n / 10);
      var s := Digits(n);
      assert s[..|s| - 1] == Digits(n / 10);
    }
  }

  /** Peeling off the two least significant digits at once, as the formatter does. */
  lemma DigitsTwoAtATime(n: nat)
    requires n >= 100
    ensures Digits(n) == Digits(n / 100) + [Digit(n % 100 / 10), Digit(n % 100 % 10)]
  {
    var q, m := n / 100, n % 100;
    assert n == 100 * q + m;
    assert n / 10 == 10 * q + m / 10;
    assert (n / 10) / 10 == q;
    assert (n / 10) % 10 == m / 10;
    assert n % 10 == m % 10;
  }
}
