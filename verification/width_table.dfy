/** Numeric tables behind countDigits, checked by evaluation on literals: for
    every bit length b in 1..64 the estimate t = floor(b * 1233 / 4096) is within
    one of the decimal width, and the powers-of-ten tables hold 10^t at index t. */
module WidthTable {

  /** floor(bits * 1233 / 4096), the source's `* 1233 >> 12`. */
  function Log10Estimate(bits: nat): nat
  {
    bits * 1233 / 4096
  }

  const Powers32: seq<nat> := [
    0, 10, 100, 1000, 10000, 100000, 1000000, 10000000, 100000000, 1000000000]

  const Powers64: seq<nat> := [
    0, 10, 100, 1000, 10000, 100000, 1000000, 10000000, 100000000, 1000000000,
    10000000000, 100000000000, 1000000000000, 10000000000000, 100000000000000,
    1000000000000000, 10000000000000000, 100000000000000000, 1000000000000000000,
    10000000000000000000]

  /** The numeric facts the width rule rests on, for one bit length b:
      10^(t-1) <= 2^(b-1) and 2^b <= 10^(t+1) where t = Log10Estimate(b).
      `half` stands for 2^(b-1) and `ten` for 10^t. */
  predicate Ok(b: nat, half: nat, t: nat, ten: nat)
  {
    && t == Log10Estimate(b)
    && (t == 0 ==> 2 * half <= 10)
    && (t >= 1 ==> ten <= 10 * half && 2 * half <= 10 * ten)
  }

  /** 10^t for the estimate of the next bit length, which is t or t + 1. */
  function NextTen(b: nat, t: nat, ten: nat): nat
  {
    if Log10Estimate(b + 1) == t then ten else 10 * ten
  }

  /** Ok holds for every bit length from b up to 64. */
  predicate Walk(b: nat, half: nat, t: nat, ten: nat)
    decreases 65 - b
  {
    b > 64 || (Ok(b, half, t, ten) && Walk(b + 1, 2 * half, Log10Estimate(b + 1), NextTen(b, t, ten)))
  }

  lemma EstimateStep(b: nat)
    ensures Log10Estimate(b) <= Log10Estimate(b + 1) <= Log10Estimate(b) + 1
  {
  }

  lemma WalkStep(b: nat, half: nat, t: nat, ten: nat, half': nat, t': nat, ten': nat)
    requires Ok(b, half, t, ten)
    requires half' == 2 * half && t' == Log10Estimate(b + 1) && ten' == NextTen(b, t, ten)
    requires Walk(b + 1, half', t', ten')
    ensures Walk(b, half, t, ten)
  {
  }

  /** Both tables hold 10^t at every index t from here on (0 at index 0). */
  predicate TableWalk(t: nat, ten: nat)
    decreases 20 - t
  {
    t >= 20 ||
    (&& t < |Powers64|
     && Powers64[t] == (if t == 0 then 0 else ten)
     && (t < |Powers32| ==> Powers32[t] == Powers64[t])
     && TableWalk(t + 1, 10 * ten))
  }

  lemma TableWalkStep(t: nat, ten: nat)
    requires t < 20
    requires Powers64[t] == (if t == 0 then 0 else ten)
    requires t < |Powers32| ==> Powers32[t] == Powers64[t]
    requires TableWalk(t + 1, 10 * ten)
    ensures TableWalk(t, ten)
  {
  }

  // The walk over the tables evaluated on literals, five indices per lemma.
  lemma TableWalkFrom15()
    ensures TableWalk(15, 1000000000000000)
  {
    assert TableWalk(20, 100000000000000000000);
    TableWalkStep(19, 10000000000000000000);
    TableWalkStep(18, 1000000000000000000);
    TableWalkStep(17, 100000000000000000);
    TableWalkStep(16, 10000000000000000);
    TableWalkStep(15, 1000000000000000);
  }

  lemma TableWalkFrom10()
    ensures TableWalk(10, 10000000000)
  {
    TableWalkFrom15();
    TableWalkStep(14, 100000000000000);
    TableWalkStep(13, 10000000000000);
    TableWalkStep(12, 1000000000000);
    TableWalkStep(11, 100000000000);
    TableWalkStep(10, 10000000000);
  }

  lemma TableWalkFrom5()
    ensures TableWalk(5, 100000)
  {
    TableWalkFrom10();
    TableWalkStep(9, 1000000000);
    TableWalkStep(8, 100000000);
    TableWalkStep(7, 10000000);
    TableWalkStep(6, 1000000);
    TableWalkStep(5, 100000);
  }

  lemma TableWalkFrom0()
    ensures TableWalk(0, 1)
  {
    TableWalkFrom5();
    TableWalkStep(4, 10000);
    TableWalkStep(3, 1000);
    TableWalkStep(2, 100);
    TableWalkStep(1, 10);
    TableWalkStep(0, 1);
  }

  // The walk over bit lengths evaluated on literals, four bit lengths per lemma.
  lemma WalkFrom64()
    ensures Walk(64, 9223372036854775808, 19, 10000000000000000000)
  {
    assert Walk(65, 18446744073709551616, 19, 10000000000000000000);
  }

  lemma WalkFrom60()
    ensures Walk(60, 576460752303423488, 18, 1000000000000000000)
  {
    WalkFrom64();
    WalkStep(63, 4611686018427387904, 18, 1000000000000000000, 9223372036854775808, 19, 10000000000000000000);
    WalkStep(62, 2305843009213693952, 18, 1000000000000000000, 4611686018427387904, 18, 1000000000000000000);
    WalkStep(61, 1152921504606846976, 18, 1000000000000000000, 2305843009213693952, 18, 1000000000000000000);
    WalkStep(60, 576460752303423488, 18, 1000000000000000000, 1152921504606846976, 18, 1000000000000000000);
  }

  lemma WalkFrom56()
    ensures Walk(56, 36028797018963968, 16, 10000000000000000)
  {
    WalkFrom60();
    WalkStep(59, 288230376151711744, 17, 100000000000000000, 576460752303423488, 18, 1000000000000000000);
    WalkStep(58, 144115188075855872, 17, 100000000000000000, 288230376151711744, 17, 100000000000000000);
    WalkStep(57, 72057594037927936, 17, 100000000000000000, 144115188075855872, 17, 100000000000000000);
    WalkStep(56, 36028797018963968, 16, 10000000000000000, 72057594037927936, 17, 100000000000000000);
  }

  lemma WalkFrom52()
    ensures Walk(52, 2251799813685248, 15, 1000000000000000)
  {
    WalkFrom56();
    WalkStep(55, 18014398509481984, 16, 10000000000000000, 36028797018963968, 16, 10000000000000000);
    WalkStep(54, 9007199254740992, 16, 10000000000000000, 18014398509481984, 16, 10000000000000000);
    WalkStep(53, 4503599627370496, 15, 1000000000000000, 9007199254740992, 16, 10000000000000000);
    WalkStep(52, 2251799813685248, 15, 1000000000000000, 4503599627370496, 15, 1000000000000000);
  }

  lemma WalkFrom48()
    ensures Walk(48, 140737488355328, 14, 100000000000000)
  {
    WalkFrom52();
    WalkStep(51, 1125899906842624, 15, 1000000000000000, 2251799813685248, 15, 1000000000000000);
    WalkStep(50, 562949953421312, 15, 1000000000000000, 1125899906842624, 15, 1000000000000000);
    WalkStep(49, 281474976710656, 14, 100000000000000, 562949953421312, 15, 1000000000000000);
    WalkStep(48, 140737488355328, 14, 100000000000000, 281474976710656, 14, 100000000000000);
  }

  lemma WalkFrom44()
    ensures Walk(44, 8796093022208, 13, 10000000000000)
  {
    WalkFrom48();
    WalkStep(47, 70368744177664, 14, 100000000000000, 140737488355328, 14, 100000000000000);
    WalkStep(46, 35184372088832, 13, 10000000000000, 70368744177664, 14, 100000000000000);
    WalkStep(45, 17592186044416, 13, 10000000000000, 35184372088832, 13, 10000000000000);
    WalkStep(44, 8796093022208, 13, 10000000000000, 17592186044416, 13, 10000000000000);
  }

  lemma WalkFrom40()
    ensures Walk(40, 549755813888, 12, 1000000000000)
  {
    WalkFrom44();
    WalkStep(43, 4398046511104, 12, 1000000000000, 8796093022208, 13, 10000000000000);
    WalkStep(42, 2199023255552, 12, 1000000000000, 4398046511104, 12, 1000000000000);
    WalkStep(41, 1099511627776, 12, 1000000000000, 2199023255552, 12, 1000000000000);
    WalkStep(40, 549755813888, 12, 1000000000000, 1099511627776, 12, 1000000000000);
  }

  lemma WalkFrom36()
    ensures Walk(36, 34359738368, 10, 10000000000)
  {
    WalkFrom40();
    WalkStep(39, 274877906944, 11, 100000000000, 549755813888, 12, 1000000000000);
    WalkStep(38, 137438953472, 11, 100000000000, 274877906944, 11, 100000000000);
    WalkStep(37, 68719476736, 11, 100000000000, 137438953472, 11, 100000000000);
    WalkStep(36, 34359738368, 10, 10000000000, 68719476736, 11, 100000000000);
  }

  lemma WalkFrom32()
    ensures Walk(32, 2147483648, 9, 1000000000)
  {
    WalkFrom36();
    WalkStep(35, 17179869184, 10, 10000000000, 34359738368, 10, 10000000000);
    WalkStep(34, 8589934592, 10, 10000000000, 17179869184, 10, 10000000000);
    WalkStep(33, 4294967296, 9, 1000000000, 8589934592, 10, 10000000000);
    WalkStep(32, 2147483648, 9, 1000000000, 4294967296, 9, 1000000000);
  }

  lemma WalkFrom28()
    ensures Walk(28, 134217728, 8, 100000000)
  {
    WalkFrom32();
    WalkStep(31, 1073741824, 9, 1000000000, 2147483648, 9, 1000000000);
    WalkStep(30, 536870912, 9, 1000000000, 1073741824, 9, 1000000000);
    WalkStep(29, 268435456, 8, 100000000, 536870912, 9, 1000000000);
    WalkStep(28, 134217728, 8, 100000000, 268435456, 8, 100000000);
  }

  lemma WalkFrom24()
    ensures Walk(24, 8388608, 7, 10000000)
  {
    WalkFrom28();
    WalkStep(27, 67108864, 8, 100000000, 134217728, 8, 100000000);
    WalkStep(26, 33554432, 7, 10000000, 67108864, 8, 100000000);
    WalkStep(25, 16777216, 7, 10000000, 33554432, 7, 10000000);
    WalkStep(24, 8388608, 7, 10000000, 16777216, 7, 10000000);
  }

  lemma WalkFrom20()
    ensures Walk(20, 524288, 6, 1000000)
  {
    WalkFrom24();
    WalkStep(23, 4194304, 6, 1000000, 8388608, 7, 10000000);
    WalkStep(22, 2097152, 6, 1000000, 4194304, 6, 1000000);
    WalkStep(21, 1048576, 6, 1000000, 2097152, 6, 1000000);
    WalkStep(20, 524288, 6, 1000000, 1048576, 6, 1000000);
  }

  lemma WalkFrom16()
    ensures Walk(16, 32768, 4, 10000)
  {
    WalkFrom20();
    WalkStep(19, 262144, 5, 100000, 524288, 6, 1000000);
    WalkStep(18, 131072, 5, 100000, 262144, 5, 100000);
    WalkStep(17, 65536, 5, 100000, 131072, 5, 100000);
    WalkStep(16, 32768, 4, 10000, 65536, 5, 100000);
  }

  lemma WalkFrom12()
    ensures Walk(12, 2048, 3, 1000)
  {
    WalkFrom16();
    WalkStep(15, 16384, 4, 10000, 32768, 4, 10000);
    WalkStep(14, 8192, 4, 10000, 16384, 4, 10000);
    WalkStep(13, 4096, 3, 1000, 8192, 4, 10000);
    WalkStep(12, 2048, 3, 1000, 4096, 3, 1000);
  }

  lemma WalkFrom8()
    ensures Walk(8, 128, 2, 100)
  {
    WalkFrom12();
    WalkStep(11, 1024, 3, 1000, 2048, 3, 1000);
    WalkStep(10, 512, 3, 1000, 1024, 3, 1000);
    WalkStep(9, 256, 2, 100, 512, 3, 1000);
    WalkStep(8, 128, 2, 100, 256, 2, 100);
  }

  lemma WalkFrom4()
    ensures Walk(4, 8, 1, 10)
  {
    WalkFrom8();
    WalkStep(7, 64, 2, 100, 128, 2, 100);
    WalkStep(6, 32, 1, 10, 64, 2, 100);
    WalkStep(5, 16, 1, 10, 32, 1, 10);
    WalkStep(4, 8, 1, 10, 16, 1, 10);
  }

  lemma WalkFrom1()
    ensures Walk(1, 1, 0, 1)
  {
    WalkFrom4();
    WalkStep(3, 4, 0, 1, 8, 1, 10);
    WalkStep(2, 2, 0, 1, 4, 0, 1);
    WalkStep(1, 1, 0, 1, 2, 0, 1);
  }
}
