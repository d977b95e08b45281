/** countDigits from hjson/Writer.h: the decimal width of an unsigned 32- or
    64-bit integer, computed from its bit length with the multiplier 1233/4096
    (an under-approximation of log10 2) and one table comparison. */
module DigitCount {
  import opened Decimal
  import opened WidthTable

  const Two32: nat := 0x1_0000_0000
  const Two64: nat := 0x1_0000_0000_0000_0000

  /** The number of significant bits of x (0 for x = 0). */
  function BitLength(x: nat): nat
  {
    if x == 0 then 0 else 1 + BitLength(x / 2)
  }

  lemma {:induction false} BitLengthBounds(x: nat)
    requires x > 0
    ensures Pow(2, BitLength(x) - 1) <= x < Pow(2, BitLength(x))
  {
    if x == 1 {
      assert BitLength(x) == 1 + BitLength(0);
      PowTwoStep(0);
    } else {
      var h := x / 2;
      BitLengthBounds(h);
      var b := BitLength(h);
      assert BitLength(x) == b + 1;
      PowTwoStep(b - 1);
      PowTwoStep(b);
    }
  }

  lemma PowTwoStep(b: nat)
    ensures Pow(2, b + 1) == 2 * Pow(2, b)
  {
  }

  lemma {:induction false} BitLengthAtMost(x: nat, k: nat)
    requires x < Pow(2, k)
    ensures BitLength(x) <= k
  {
    if x > 0 {
      BitLengthAtMost(x / 2, k - 1);
    }
  }

  /** __builtin_clz on a non-zero 32-bit operand: leading zero bits. */
  function Clz32(x: nat): (z: nat)
    requires 0 < x < Two32
    ensures z < 32 && BitLength(x) == 32 - z
  {
    PowersOfTwo();
    BitLengthAtMost(x, 32);
    32 - BitLength(x)
  }

  /** __builtin_clzll on a non-zero 64-bit operand. */
  function Clz64(x: nat): (z: nat)
    requires 0 < x < Two64
    ensures z < 64 && BitLength(x) == 64 - z
  {
    PowersOfTwo();
    BitLengthAtMost(x, 64);
    64 - BitLength(x)
  }

  lemma {:induction false} PowAdd(base: nat, a: nat, b: nat)
    ensures Pow(base, a + b) == Pow(base, a) * Pow(base, b)
  {
    if a > 0 {
      PowAdd(base, a - 1, b);
      var x, y := Pow(base, a - 1), Pow(base, b);
      assert base * (x * y) == (base * x) * y;
    }
  }

  lemma PowersOfTwo()
    ensures Pow(2, 32) == Two32 && Pow(2, 64) == Two64
  {
    assert Pow(2, 8) == 256;
    PowAdd(2, 8, 8);
    PowAdd(2, 16, 16);
    PowAdd(2, 32, 32);
  }

  /** n | 1 on an unsigned operand. */
  function OrOne(n: nat): (m: nat)
    ensures m % 2 == 1 && (m == n || m == n + 1)
  {
    if n % 2 == 0 then n + 1 else n
  }

  /** countDigits(uint32_t): the decimal width of every 32-bit operand,
      including 0. */
  function CountDigits32(n: nat): (d: nat)
    requires n < Two32
    ensures d == NumDigits(n)
  {
    WidthAt32(n);
    var t := Log10Estimate(32 - Clz32(OrOne(n)));
    t - (if n < Powers32[t] then 1 else 0) + 1
  }

  /** countDigits(uint64_t): the decimal width of every 64-bit operand. */
  function CountDigits64(n: nat): (d: nat)
    requires n < Two64
    ensures d == NumDigits(n)
  {
    WidthAt64(n);
    var t := Log10Estimate(64 - Clz64(OrOne(n)));
    t - (if n < Powers64[t] then 1 else 0) + 1
  }

  /** The width rule at the 32-bit table, in the terms countDigits(uint32_t) uses. */
  lemma WidthAt32(n: nat)
    requires n < Two32
    ensures 0 < OrOne(n) < Two32
    ensures var t := Log10Estimate(32 - Clz32(OrOne(n)));
            t < |Powers32| && NumDigits(n) == t - (if n < Powers32[t] then 1 else 0) + 1
  {
    PowersOfTwo();
    BitLengthAtMost(OrOne(n), 32);
    BitLengthBounds(OrOne(n));
    WidthRule(n);
  }

  /** The width rule at the 64-bit table, in the terms countDigits(uint64_t) uses. */
  lemma WidthAt64(n: nat)
    requires n < Two64
    ensures 0 < OrOne(n) < Two64
    ensures var t := Log10Estimate(64 - Clz64(OrOne(n)));
            t < |Powers64| && NumDigits(n) == t - (if n < Powers64[t] then 1 else 0) + 1
  {
    PowersOfTwo();
    BitLengthAtMost(OrOne(n), 64);
    BitLengthBounds(OrOne(n));
    WidthRule(n);
  }

  /** The shared argument: with b the bit length of n | 1 and t = Log10Estimate(b),
      the decimal width of n is t + 1 when n >= 10^t and t otherwise. */
  lemma WidthRule(n: nat)
    requires n < Two64
    ensures var b := BitLength(OrOne(n));
            var t := Log10Estimate(b);
            && 1 <= b <= 64 && t < |Powers64|
            && (b <= 32 ==> t < |Powers32| && Powers32[t] == Powers64[t])
            && (n < Two32 ==> b <= 32)
            && NumDigits(n) == t - (if n < Powers64[t] then 1 else 0) + 1
  {
    var b := BitLength(OrOne(n));
    SameBitLength(n);
    WidthFacts(b);
    TableFacts(Log10Estimate(b));
    WidthRuleAt(n, b);
  }

  /** n and n | 1 have the same bit length once n >= 2. */
  lemma SameBitLength(n: nat)
    requires n < Two64
    ensures var b := BitLength(OrOne(n));
            && 1 <= b <= 64
            && (n < Two32 ==> b <= 32)
            && n < Pow(2, b)
            && (b > 1 ==> Pow(2, b - 1) <= n)
  {
    var m := OrOne(n);
    BitLengthBounds(m);
    BitLengthRange(n);
    if BitLength(m) > 1 {
      TopBitKept(n, BitLength(m));
    }
  }

  lemma BitLengthRange(n: nat)
    requires n < Two64
    ensures 1 <= BitLength(OrOne(n)) <= 64
    ensures n < Two32 ==> BitLength(OrOne(n)) <= 32
  {
    PowersOfTwo();
    BitLengthAtMost(OrOne(n), 64);
    if n < Two32 {
      BitLengthAtMost(OrOne(n), 32);
    }
  }

  /** 2^(b-1) is even and n | 1 is odd, so 2^(b-1) <= n | 1 forces 2^(b-1) <= n. */
  lemma TopBitKept(n: nat, b: nat)
    requires b > 1
    requires Pow(2, b - 1) <= OrOne(n)
    ensures Pow(2, b - 1) <= n
  {
    assert Pow(2, b - 1) == 2 * Pow(2, b - 2);
  }

  lemma WidthRuleAt(n: nat, b: nat)
    requires 1 <= b <= 64
    requires n < Pow(2, b)
    requires b > 1 ==> Pow(2, b - 1) <= n
    requires Ok(b, Pow(2, b - 1), Log10Estimate(b), Pow(10, Log10Estimate(b)))
    requires Powers64[Log10Estimate(b)] == if Log10Estimate(b) == 0 then 0 else Pow(10, Log10Estimate(b))
    ensures var t := Log10Estimate(b);
            NumDigits(n) == t - (if n < Powers64[t] then 1 else 0) + 1
  {
    var t := Log10Estimate(b);
    assert Pow(2, b) == 2 * Pow(2, b - 1);
    if t == 0 {
      NumDigitsUnique(n, 1);
    } else {
      assert b > 1;
      assert Pow(10, t + 1) == 10 * Pow(10, t);
      if n >= Pow(10, t) {
        NumDigitsUnique(n, t + 1);
      } else {
        assert Pow(10, t) == 10 * Pow(10, t - 1);
        NumDigitsUnique(n, t);
      }
    }
  }

  /** A walk that starts from the true powers of two and ten visits every later
      bit length with the true powers. */
  lemma {:induction false} WalkCovers(lo: nat, b: nat)
    requires 1 <= lo <= b <= 64
    requires Walk(lo, Pow(2, lo - 1), Log10Estimate(lo), Pow(10, Log10Estimate(lo)))
    ensures Ok(b, Pow(2, b - 1), Log10Estimate(b), Pow(10, Log10Estimate(b)))
    decreases b - lo
  {
    if lo < b {
      var t := Log10Estimate(lo);
      var t' := Log10Estimate(lo + 1);
      EstimateStep(lo);
      assert NextTen(lo, t, Pow(10, t)) == Pow(10, t');
      assert 2 * Pow(2, lo - 1) == Pow(2, lo);
      WalkCovers(lo + 1, b);
    }
  }

  lemma WidthFacts(b: nat)
    requires 1 <= b <= 64
    ensures Ok(b, Pow(2, b - 1), Log10Estimate(b), Pow(10, Log10Estimate(b)))
  {
    WalkFrom1();
    WalkCovers(1, b);
  }

  /** Both tables hold 10^t at every index t >= 1, and 0 at index 0. */
  lemma TableFacts(t: nat)
    requires t < |Powers64|
    ensures Powers64[t] == if t == 0 then 0 else Pow(10, t)
    ensures t < |Powers32| ==> Powers32[t] == Powers64[t]
  {
    TableWalkFrom0();
    TableWalkCovers(0, t);
  }

  /** A table walk started at 10^lo covers every later index. */
  lemma {:induction false} TableWalkCovers(lo: nat, t: nat)
    requires lo <= t < |Powers64|
    requires TableWalk(lo, Pow(10, lo))
    ensures Powers64[t] == if t == 0 then 0 else Pow(10, t)
    ensures t < |Powers32| ==> Powers32[t] == Powers64[t]
    decreases t - lo
  {
    if lo < t {
      TableWalkCovers(lo + 1, t);
    }
  }
}
