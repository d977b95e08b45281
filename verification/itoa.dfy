/** Integer formatting from hjson/Writer.h: `itoa_` fills the decimal digits of
    an unsigned value two at a time from a digit-pair table, and the signed
    `detail::itoa` overloads put a '-' in front and negate with `~u + 1`. */
module Itoa {
  import opened Decimal
  import opened DigitCount
  import opened Maybe

  type Int32 = x: int | -0x8000_0000 <= x < 0x8000_0000
  type Int64 = x: int | -0x8000_0000_0000_0000 <= x < 0x8000_0000_0000_0000

  /** The operand width `itoa_` is instantiated at. */
  datatype Width = W32 | W64

  function Bound(w: Width): nat
  {
    match w
    case W32 => Two32
    case W64 => Two64
  }

  /** The countDigits overload selected by the operand type. */
  function CountDigits(w: Width, n: nat): (d: nat)
    requires n < Bound(w)
    ensures d == NumDigits(n)
  {
    match w
    case W32 => CountDigits32(n)
    case W64 => CountDigits64(n)
  }

  /** The 200-character `digits` table: the renderings "00", "01", ..., "99"
      back to back, so entries 2i and 2i+1 are the tens and units digit of i. */
  const DigitPairs: string := seq(200, k requires 0 <= k < 200 => if k % 2 == 0 then Digit(k / 20) else Digit(k / 2 % 10))

  /** Entries 2m and 2m+1 of the table are the tens and units digit of m. */
  lemma PairDigits(m: nat)
    requires m < 100
    ensures DigitPairs[2 * m] == Digit(m / 10)
    ensures DigitPairs[2 * m + 1] == Digit(m % 10)
  {
    assert 2 * m / 20 == m / 10;
    assert (2 * m + 1) / 2 == m;
  }

  /** The text `itoa` produces for a signed value: a '-' for negative values,
      then the digits of the magnitude. */
  function SignedDecimal(x: int): string
  {
    if x < 0 then "-" + Digits(-x) else Digits(x)
  }

  /** Reads a signed decimal back: an optional '-' and one or more digits. */
  function ParseSigned(s: string): Option<int>
  {
    if |s| > 1 && s[0] == '-' && AllDigits(s[1..]) then Some(-(Value(s[1..]) as int))
    else if |s| > 0 && AllDigits(s) then Some(Value(s))
    else None
  }

  /** SignedDecimal is read back as the value it was made from. */
  lemma SignedDecimalRoundTrip(x: int)
    ensures ParseSigned(SignedDecimal(x)) == Some(x)
  {
    var m := if x < 0 then -x else x;
    DigitsValue(m);
    DigitsShape(m);
    if x < 0 {
      assert SignedDecimal(x)[1..] == Digits(m);
    } else {
      assert SignedDecimal(x)[0] != '-';
    }
  }

  /** `itoa_`: writes the digits of val into a buffer of countDigits(val)
      characters, filling from the end two digits per iteration, and returns
      the count together with the filled buffer. */
  method FormatUnsigned(val: nat, w: Width) returns (count: nat, text: string)
    requires val < Bound(w)
    ensures count == NumDigits(val) && count == |text|
    ensures text == Digits(val)
  {
    count := CountDigits(w, val);
    var buf := new char[count];
    var v, next, filled := FillPairs(buf, val);
    LastStep(val, v, filled);
    if v < 10 {
      buf[next] := Digit(v);
      assert buf[next..] == [Digit(v)] + filled;
    } else {
      var i := v * 2;
      PutPair(buf, next, i, filled);
    }
    text := buf[..];
  }

  /** The `while (val >= 100)` loop of `itoa_`: returns the remaining value v
      (below 100), the index `next` of the last unwritten position, and (as a
      ghost) the digits written so far, which follow the digits of v. */
  method FillPairs(buf: array<char>, val: nat) returns (v: nat, next: int, ghost filled: string)
    requires buf.Length == NumDigits(val)
    modifies buf
    ensures v < 100
    ensures 0 <= next < buf.Length && next + 1 == NumDigits(v)
    ensures buf[next + 1..] == filled
    ensures Digits(val) == Digits(v) + filled
  {
    v := val;
    next := buf.Length - 1;
    filled := [];
    while v >= 100
      invariant -1 <= next < buf.Length
      invariant next + 1 == NumDigits(v)
      invariant buf[next + 1..] == filled
      invariant Digits(val) == Digits(v) + filled
      decreases v
    {
      v, next, filled := PairIteration(buf, val, v, next, filled);
    }
  }

  /** One pass of the loop: the pair for v % 100 goes into positions next - 1
      and next, v drops its last two digits and next moves two to the left. */
  method PairIteration(buf: array<char>, ghost val: nat, v: nat, next: int, ghost filled: string)
    returns (v': nat, next': int, ghost filled': string)
    requires v >= 100
    requires -1 <= next < buf.Length && next + 1 == NumDigits(v)
    requires buf[next + 1..] == filled
    requires Digits(val) == Digits(v) + filled
    modifies buf
    ensures v' == v / 100 && next' == next - 2
    ensures -1 <= next' < buf.Length && next' + 1 == NumDigits(v')
    ensures buf[next' + 1..] == filled'
    ensures Digits(val) == Digits(v') + filled'
  {
    var i := (v % 100) * 2;
    PairStep(val, v, filled);
    v' := v / 100;
    PutPair(buf, next, i, filled);
    filled' := [DigitPairs[i], DigitPairs[i + 1]] + filled;
    next' := next - 2;
  }

  /** Writes the table pair at i into positions next - 1 and next, in front of
      the characters already filled after them. */
  method PutPair(buf: array<char>, next: int, i: nat, ghost filled: string)
    requires 1 <= next < buf.Length && i + 1 < |DigitPairs|
    requires buf[next + 1..] == filled
    modifies buf
    ensures buf[next - 1..] == [DigitPairs[i], DigitPairs[i + 1]] + filled
  {
    buf[next] := DigitPairs[i + 1];
    assert buf[next..] == [DigitPairs[i + 1]] + filled;
    buf[next - 1] := DigitPairs[i];
    assert buf[next - 1..] == [DigitPairs[i]] + buf[next..];
  }

  /** One iteration of the `itoa_` loop: the table pair for v % 100 is the last
      two digits of v, and the rest of v has two digits fewer. */
  lemma PairStep(val: nat, v: nat, filled: string)
    requires v >= 100
    requires Digits(val) == Digits(v) + filled
    ensures Digits(val) == Digits(v / 100) + ([DigitPairs[(v % 100) * 2], DigitPairs[(v % 100) * 2 + 1]] + filled)
    ensures NumDigits(v) == NumDigits(v / 100) + 2
  {
    var m := v % 100;
    assert m * 2 == 2 * m;
    PairDigits(m);
    DigitsTwoAtATime(v);
    DigitsShape(v);
    DigitsShape(v / 100);
  }

  /** The last one or two digits, written after the loop. */
  lemma LastStep(val: nat, v: nat, filled: string)
    requires v < 100
    requires Digits(val) == Digits(v) + filled
    ensures v < 10 ==> NumDigits(v) == 1 && Digits(val) == [Digit(v)] + filled
    ensures v >= 10 ==> NumDigits(v) == 2 && Digits(val) == [DigitPairs[v * 2], DigitPairs[v * 2 + 1]] + filled
  {
    if v >= 10 {
      assert v * 2 == 2 * v;
      PairDigits(v);
    }
  }

  /** static_cast<uint32_t> / static_cast<uint64_t> of a signed value. */
  function ToUnsigned(x: int, w: Width): nat
  {
    x % Bound(w)
  }

  /** ~u + 1 in the unsigned type of width w: the two's-complement negation. */
  function Negate(u: nat, w: Width): nat
    requires u < Bound(w)
  {
    (Bound(w) - 1 - u + 1) % Bound(w)
  }

  /** The unsigned operand `itoa` hands to `itoa_`: the value itself when it is
      non-negative, and `~u + 1` of its unsigned image otherwise, which is the
      magnitude even for the minimum of the type. */
  lemma MagnitudeOf(x: int, w: Width)
    requires -(Bound(w) / 2) <= x < Bound(w) / 2
    ensures ToUnsigned(x, w) < Bound(w)
    ensures x >= 0 ==> ToUnsigned(x, w) == x
    ensures x < 0 ==> Negate(ToUnsigned(x, w), w) == -x <= Bound(w) / 2
  {
  }

  /** The magnitude of a signed value has at most 10 (32-bit) or 19 (64-bit)
      digits, so with the sign the text fits `buf[11]` or `buf[20]`. */
  lemma MagnitudeWidth(u: nat, w: Width)
    requires u <= Bound(w) / 2
    ensures NumDigits(u) <= if w == W32 then 10 else 19
  {
    if w == W32 {
      TableFacts(9);
      assert Pow(10, 10) == 10 * Pow(10, 9);
      NumDigitsAtMost(u, 10);
    } else {
      TableFacts(19);
      NumDigitsAtMost(u, 19);
    }
  }

  /** With the sign, the text of a value of width w has at most 11 (32-bit) or
      20 (64-bit) characters. */
  lemma SignedDecimalWidth(x: int, w: Width)
    requires -(Bound(w) / 2) <= x < Bound(w) / 2
    ensures |SignedDecimal(x)| <= if w == W32 then 11 else 20
  {
    var m := if x < 0 then -x else x;
    DigitsShape(m);
    MagnitudeWidth(m, w);
  }

  /** `detail::itoa(int32_t, char*)` */
  method FormatInt32(val: Int32) returns (count: nat, text: string)
    ensures text == SignedDecimal(val)
    ensures count == |text| <= 11
    ensures count == (if val < 0 then 1 else 0) + CountDigits(W32, if val < 0 then -(val as int) else val as int)
  {
    MagnitudeOf(val, W32);
    var u := ToUnsigned(val, W32);
    var sign := "";
    if val < 0 {
      sign := "-";
      u := Negate(u, W32);
    }
    var c, digits := FormatUnsigned(u, W32);
    count := (if val < 0 then 1 else 0) + c;
    text := sign + digits;
    MagnitudeWidth(u, W32);
  }

  /** `detail::itoa(int64_t, char*)` */
  method FormatInt64(val: Int64) returns (count: nat, text: string)
    ensures text == SignedDecimal(val)
    ensures count == |text| <= 20
    ensures count == (if val < 0 then 1 else 0) + CountDigits(W64, if val < 0 then -(val as int) else val as int)
  {
    MagnitudeOf(val, W64);
    var u := ToUnsigned(val, W64);
    var sign := "";
    if val < 0 {
      sign := "-";
      u := Negate(u, W64);
    }
    var c, digits := FormatUnsigned(u, W64);
    count := (if val < 0 then 1 else 0) + c;
    text := sign + digits;
    MagnitudeWidth(u, W64);
  }
}
