/**
 The constants of the standard: those of section 4.2.2 of FIPS 180-4 are the first 32 bits of the
 fractional parts of the cube roots of the first 64 primes, those of section 5.3.3 of the square
 roots of the first eight.
 */
module Sha256Constants {
  import opened Sha256Standard

  // --- the first primes ---

  predicate IsPrime(n: int) { n >= 2 && forall d :: 2 <= d < n ==> n % d != 0 }

  /** The first 64 primes, eight a row. */
  const PRIMES: seq<seq<int>> := [
    [2, 3, 5, 7, 11, 13, 17, 19],
    [23, 29, 31, 37, 41, 43, 47, 53],
    [59, 61, 67, 71, 73, 79, 83, 89],
    [97, 101, 103, 107, 109, 113, 127, 131],
    [137, 139, 149, 151, 157, 163, 167, 173],
    [179, 181, 191, 193, 197, 199, 211, 223],
    [227, 229, 233, 239, 241, 251, 257, 263],
    [269, 271, 277, 281, 283, 293, 307, 311]]

  function Prime(t: nat): int
    requires t < 64
  {
    PRIMES[t / 8][t % 8]
  }

  /** No prime up to 17 divides the number, but for itself. */
  predicate Sieved(n: int) {
    && (n % 2 != 0 || n == 2) && (n % 3 != 0 || n == 3) && (n % 5 != 0 || n == 5) && (n % 7 != 0 || n == 7)
    && (n % 11 != 0 || n == 11) && (n % 13 != 0 || n == 13) && (n % 17 != 0 || n == 17)
  }

  /** A divisor below 18 has a prime divisor below 18, which divides too. */
  lemma SmallDivisor(n: int, d: int)
    requires 2 <= d < 18 && d < n && n % d == 0
    ensures !Sieved(n)
  {
    if d % 2 == 0 {
      Divides(n, d, 2, d / 2);
    } else if d % 3 == 0 {
      Divides(n, d, 3, d / 3);
    }
  }

  /** What divides a divisor divides the number. */
  lemma Divides(n: int, d: int, p: int, k: int)
    requires d > 0 && p > 0 && n % d == 0 && d == p * k
    ensures n % p == 0
  {
    var m := n / d;
    assert n == d * m == p * (k * m);
    Multiple(p, k * m);
  }

  lemma Multiple(p: int, k: int)
    requires p > 0
    ensures p * k % p == 0
  {
    var q, r := p * k / p, p * k % p;
    assert p * k == p * q + r;
    assert p * (k - q) == r;
    Order(p, 1, k - q);
    Order(p, k - q, -1);
  }

  lemma Order(d: int, e: int, f: int)
    requires d > 0
    ensures e <= f ==> d * e <= d * f
  {
  }

  /** The smaller of two factors of a number below 18 * 18 is below 18. */
  lemma SmallFactor(n: int, d: int)
    requires 2 <= d < n < 324 && n % d == 0
    ensures !Sieved(n)
  {
    if d < 18 {
      SmallDivisor(n, d);
    } else {
      var e := n / d;
      assert n == d * e;
      assert 2 <= e < 18 by { OtherFactor(d, e, n); }
      Multiple(e, d);
      SmallDivisor(n, e);
    }
  }

  lemma OtherFactor(d: int, e: int, n: int)
    requires 18 <= d < n < 324 && n == d * e
    ensures 2 <= e < 18
  {
    Order(d, e, 1);
    Order(d, 18, e);
  }

  lemma SieveIsExact(n: int)
    requires 2 <= n < 324
    ensures IsPrime(n) <==> Sieved(n)
  {
    if Sieved(n) {
      forall d | 2 <= d < n
        ensures n % d != 0
      {
        if n % d == 0 {
          SmallFactor(n, d);
        }
      }
    }
  }

  /** One prime after another, and none between. */
  predicate NextPrime(p: int, q: int) { p < q && IsPrime(q) && forall n :: p < n < q ==> !IsPrime(n) }

  /** The odd numbers between are sieved out; the even ones always are. */
  predicate Gap(p: int, q: int) {
    && (p + 2 < q ==> !Sieved(p + 2)) && (p + 4 < q ==> !Sieved(p + 4)) && (p + 6 < q ==> !Sieved(p + 6))
    && (p + 8 < q ==> !Sieved(p + 8)) && (p + 10 < q ==> !Sieved(p + 10)) && (p + 12 < q ==> !Sieved(p + 12))
  }

  lemma NextBySieve(p: int, q: int)
    requires 2 < p < q < 324 && p % 2 == 1 && q <= p + 14 && Sieved(q) && Gap(p, q)
    ensures NextPrime(p, q)
  {
    hide Sieved, IsPrime;
    SieveIsExact(q);
    forall n | p < n < q
      ensures !IsPrime(n)
    {
      SieveIsExact(n);
      EvenIsSieved(n);
      OddBetween(p, q, n);
    }
  }

  lemma EvenIsSieved(n: int)
    requires n > 2
    ensures n % 2 == 0 ==> !Sieved(n)
  {
  }

  lemma OddBetween(p: int, q: int, n: int)
    requires p < n < q <= p + 14 && p % 2 == 1
    ensures n % 2 == 1 ==> n == p + 2 || n == p + 4 || n == p + 6 || n == p + 8 || n == p + 10 || n == p + 12
  {
  }

  lemma TwoAndThree()
    ensures IsPrime(2) && NextPrime(2, 3)
  {
    SieveIsExact(3);
  }

  lemma Row0()
    ensures forall t :: 0 <= t < 4 ==> NextPrime(Prime(t), Prime(t + 1))
  {
    hide IsPrime, NextPrime;
    TwoAndThree();
    NextBySieve(3, 5);
    NextBySieve(5, 7);
    NextBySieve(7, 11);
    assert Prime(0) == 2 && Prime(1) == 3 && Prime(2) == 5 && Prime(3) == 7 && Prime(4) == 11;
  }

  lemma Row1()
    ensures forall t :: 4 <= t < 8 ==> NextPrime(Prime(t), Prime(t + 1))
  {
    hide IsPrime, NextPrime;
    NextBySieve(11, 13);
    NextBySieve(13, 17);
    NextBySieve(17, 19);
    NextBySieve(19, 23);
    assert Prime(4) == 11 && Prime(5) == 13 && Prime(6) == 17 && Prime(7) == 19 && Prime(8) == 23;
  }

  lemma Row2()
    ensures forall t :: 8 <= t < 12 ==> NextPrime(Prime(t), Prime(t + 1))
  {
    hide IsPrime, NextPrime;
    NextBySieve(23, 29);
    NextBySieve(29, 31);
    NextBySieve(31, 37);
    NextBySieve(37, 41);
    assert Prime(8) == 23 && Prime(9) == 29 && Prime(10) == 31 && Prime(11) == 37 && Prime(12) == 41;
  }

  lemma Row3()
    ensures forall t :: 12 <= t < 16 ==> NextPrime(Prime(t), Prime(t + 1))
  {
    hide IsPrime, NextPrime;
    NextBySieve(41, 43);
    NextBySieve(43, 47);
    NextBySieve(47, 53);
    NextBySieve(53, 59);
    assert Prime(12) == 41 && Prime(13) == 43 && Prime(14) == 47 && Prime(15) == 53 && Prime(16) == 59;
  }

  lemma Row4()
    ensures forall t :: 16 <= t < 20 ==> NextPrime(Prime(t), Prime(t + 1))
  {
    hide IsPrime, NextPrime;
    NextBySieve(59, 61);
    NextBySieve(61, 67);
    NextBySieve(67, 71);
    NextBySieve(71, 73);
    assert Prime(16) == 59 && Prime(17) == 61 && Prime(18) == 67 && Prime(19) == 71 && Prime(20) == 73;
  }

  lemma Row5()
    ensures forall t :: 20 <= t < 24 ==> NextPrime(Prime(t), Prime(t + 1))
  {
    hide IsPrime, NextPrime;
    NextBySieve(73, 79);
    NextBySieve(79, 83);
    NextBySieve(83, 89);
    NextBySieve(89, 97);
    assert Prime(20) == 73 && Prime(21) == 79 && Prime(22) == 83 && Prime(23) == 89 && Prime(24) == 97;
  }

  lemma Row6()
    ensures forall t :: 24 <= t < 28 ==> NextPrime(Prime(t), Prime(t + 1))
  {
    hide IsPrime, NextPrime;
    NextBySieve(97, 101);
    NextBySieve(101, 103);
    NextBySieve(103, 107);
    NextBySieve(107, 109);
    assert Prime(24) == 97 && Prime(25) == 101 && Prime(26) == 103 && Prime(27) == 107 && Prime(28) == 109;
  }

  lemma Row7()
    ensures forall t :: 28 <= t < 32 ==> NextPrime(Prime(t), Prime(t + 1))
  {
    hide IsPrime, NextPrime;
    NextBySieve(109, 113);
    NextBySieve(113, 127);
    NextBySieve(127, 131);
    NextBySieve(131, 137);
    assert Prime(28) == 109 && Prime(29) == 113 && Prime(30) == 127 && Prime(31) == 131 && Prime(32) == 137;
  }

  lemma Row8()
    ensures forall t :: 32 <= t < 36 ==> NextPrime(Prime(t), Prime(t + 1))
  {
    hide IsPrime, NextPrime;
    NextBySieve(137, 139);
    NextBySieve(139, 149);
    NextBySieve(149, 151);
    NextBySieve(151, 157);
    assert Prime(32) == 137 && Prime(33) == 139 && Prime(34) == 149 && Prime(35) == 151 && Prime(36) == 157;
  }

  lemma Row9()
    ensures forall t :: 36 <= t < 40 ==> NextPrime(Prime(t), Prime(t + 1))
  {
    hide IsPrime, NextPrime;
    NextBySieve(157, 163);
    NextBySieve(163, 167);
    NextBySieve(167, 173);
    NextBySieve(173, 179);
    assert Prime(36) == 157 && Prime(37) == 163 && Prime(38) == 167 && Prime(39) == 173 && Prime(40) == 179;
  }

  lemma Row10()
    ensures forall t :: 40 <= t < 44 ==> NextPrime(Prime(t), Prime(t + 1))
  {
    hide IsPrime, NextPrime;
    NextBySieve(179, 181);
    NextBySieve(181, 191);
    NextBySieve(191, 193);
    NextBySieve(193, 197);
    assert Prime(40) == 179 && Prime(41) == 181 && Prime(42) == 191 && Prime(43) == 193 && Prime(44) == 197;
  }

  lemma Row11()
    ensures forall t :: 44 <= t < 48 ==> NextPrime(Prime(t), Prime(t + 1))
  {
    hide IsPrime, NextPrime;
    NextBySieve(197, 199);
    NextBySieve(199, 211);
    NextBySieve(211, 223);
    NextBySieve(223, 227);
    assert Prime(44) == 197 && Prime(45) == 199 && Prime(46) == 211 && Prime(47) == 223 && Prime(48) == 227;
  }

  lemma Row12()
    ensures forall t :: 48 <= t < 52 ==> NextPrime(Prime(t), Prime(t + 1))
  {
    hide IsPrime, NextPrime;
    NextBySieve(227, 229);
    NextBySieve(229, 233);
    NextBySieve(233, 239);
    NextBySieve(239, 241);
    assert Prime(48) == 227 && Prime(49) == 229 && Prime(50) == 233 && Prime(51) == 239 && Prime(52) == 241;
  }

  lemma Row13()
    ensures forall t :: 52 <= t < 56 ==> NextPrime(Prime(t), Prime(t + 1))
  {
    hide IsPrime, NextPrime;
    NextBySieve(241, 251);
    NextBySieve(251, 257);
    NextBySieve(257, 263);
    NextBySieve(263, 269);
    assert Prime(52) == 241 && Prime(53) == 251 && Prime(54) == 257 && Prime(55) == 263 && Prime(56) == 269;
  }

  lemma Row14()
    ensures forall t :: 56 <= t < 60 ==> NextPrime(Prime(t), Prime(t + 1))
  {
    hide IsPrime, NextPrime;
    NextBySieve(269, 271);
    NextBySieve(271, 277);
    NextBySieve(277, 281);
    NextBySieve(281, 283);
    assert Prime(56) == 269 && Prime(57) == 271 && Prime(58) == 277 && Prime(59) == 281 && Prime(60) == 283;
  }

  lemma Row15()
    ensures forall t :: 60 <= t < 63 ==> NextPrime(Prime(t), Prime(t + 1))
  {
    hide IsPrime, NextPrime;
    NextBySieve(283, 293);
    NextBySieve(293, 307);
    NextBySieve(307, 311);
    assert Prime(60) == 283 && Prime(61) == 293 && Prime(62) == 307 && Prime(63) == 311;
  }

  /** The table begins with the first prime and goes on from each to the next. */
  lemma FirstPrimes()
    ensures Prime(0) == 2 && IsPrime(Prime(0))
    ensures forall t :: 0 <= t < 63 ==> NextPrime(Prime(t), Prime(t + 1))
  {
    TwoAndThree();
    Row0();
    Row1();
    Row2();
    Row3();
    Row4();
    Row5();
    Row6();
    Row7();
    Row8();
    Row9();
    Row10();
    Row11();
    Row12();
    Row13();
    Row14();
    Row15();
    forall t | 0 <= t < 63
      ensures NextPrime(Prime(t), Prime(t + 1))
    {
      assert 0 <= t < 4 || 4 <= t < 8 || 8 <= t < 12 || 12 <= t < 16 || 16 <= t < 20 || 20 <= t < 24
          || 24 <= t < 28 || 28 <= t < 32 || 32 <= t < 36 || 36 <= t < 40 || 40 <= t < 44 || 44 <= t < 48
          || 48 <= t < 52 || 52 <= t < 56 || 56 <= t < 60 || 60 <= t < 64;
    }
  }

  // --- the roots ---

  /** `k` is the first 32 bits of the fractional part of the cube root of `p`; `a` is its whole part. */
  predicate IsCubeRoot(a: int, k: int, p: int) {
    var x := a * TWO32 + k;
    x * x * x <= p * (TWO32 * TWO32 * TWO32) < (x + 1) * (x + 1) * (x + 1)
  }

  predicate IsSquareRoot(a: int, k: int, p: int) {
    var x := a * TWO32 + k;
    x * x <= p * (TWO32 * TWO32) < (x + 1) * (x + 1)
  }

  ghost predicate HasCubeRoot(k: Word, p: int) { exists a :: a >= 0 && IsCubeRoot(a, k, p) }

  ghost predicate HasSquareRoot(k: Word, p: int) { exists a :: a >= 0 && IsSquareRoot(a, k, p) }

  lemma Roots0()
    ensures forall t :: 0 <= t < 8 ==> HasCubeRoot(RoundConstant(t), Prime(t))
  {
    assert RoundConstant(0) == 0x428a2f98 && Prime(0) == 2 && IsCubeRoot(1, 0x428a2f98, 2);
    assert RoundConstant(1) == 0x71374491 && Prime(1) == 3 && IsCubeRoot(1, 0x71374491, 3);
    assert RoundConstant(2) == 0xb5c0fbcf && Prime(2) == 5 && IsCubeRoot(1, 0xb5c0fbcf, 5);
    assert RoundConstant(3) == 0xe9b5dba5 && Prime(3) == 7 && IsCubeRoot(1, 0xe9b5dba5, 7);
    assert RoundConstant(4) == 0x3956c25b && Prime(4) == 11 && IsCubeRoot(2, 0x3956c25b, 11);
    assert RoundConstant(5) == 0x59f111f1 && Prime(5) == 13 && IsCubeRoot(2, 0x59f111f1, 13);
    assert RoundConstant(6) == 0x923f82a4 && Prime(6) == 17 && IsCubeRoot(2, 0x923f82a4, 17);
    assert RoundConstant(7) == 0xab1c5ed5 && Prime(7) == 19 && IsCubeRoot(2, 0xab1c5ed5, 19);
  }

  lemma Roots1()
    ensures forall t :: 8 <= t < 16 ==> HasCubeRoot(RoundConstant(t), Prime(t))
  {
    assert RoundConstant(8) == 0xd807aa98 && Prime(8) == 23 && IsCubeRoot(2, 0xd807aa98, 23);
    assert RoundConstant(9) == 0x12835b01 && Prime(9) == 29 && IsCubeRoot(3, 0x12835b01, 29);
    assert RoundConstant(10) == 0x243185be && Prime(10) == 31 && IsCubeRoot(3, 0x243185be, 31);
    assert RoundConstant(11) == 0x550c7dc3 && Prime(11) == 37 && IsCubeRoot(3, 0x550c7dc3, 37);
    assert RoundConstant(12) == 0x72be5d74 && Prime(12) == 41 && IsCubeRoot(3, 0x72be5d74, 41);
    assert RoundConstant(13) == 0x80deb1fe && Prime(13) == 43 && IsCubeRoot(3, 0x80deb1fe, 43);
    assert RoundConstant(14) == 0x9bdc06a7 && Prime(14) == 47 && IsCubeRoot(3, 0x9bdc06a7, 47);
    assert RoundConstant(15) == 0xc19bf174 && Prime(15) == 53 && IsCubeRoot(3, 0xc19bf174, 53);
  }

  lemma Roots2()
    ensures forall t :: 16 <= t < 24 ==> HasCubeRoot(RoundConstant(t), Prime(t))
  {
    assert RoundConstant(16) == 0xe49b69c1 && Prime(16) == 59 && IsCubeRoot(3, 0xe49b69c1, 59);
    assert RoundConstant(17) == 0xefbe4786 && Prime(17) == 61 && IsCubeRoot(3, 0xefbe4786, 61);
    assert RoundConstant(18) == 0x0fc19dc6 && Prime(18) == 67 && IsCubeRoot(4, 0x0fc19dc6, 67);
    assert RoundConstant(19) == 0x240ca1cc && Prime(19) == 71 && IsCubeRoot(4, 0x240ca1cc, 71);
    assert RoundConstant(20) == 0x2de92c6f && Prime(20) == 73 && IsCubeRoot(4, 0x2de92c6f, 73);
    assert RoundConstant(21) == 0x4a7484aa && Prime(21) == 79 && IsCubeRoot(4, 0x4a7484aa, 79);
    assert RoundConstant(22) == 0x5cb0a9dc && Prime(22) == 83 && IsCubeRoot(4, 0x5cb0a9dc, 83);
    assert RoundConstant(23) == 0x76f988da && Prime(23) == 89 && IsCubeRoot(4, 0x76f988da, 89);
  }

  lemma Roots3()
    ensures forall t :: 24 <= t < 32 ==> HasCubeRoot(RoundConstant(t), Prime(t))
  {
    assert RoundConstant(24) == 0x983e5152 && Prime(24) == 97 && IsCubeRoot(4, 0x983e5152, 97);
    assert RoundConstant(25) == 0xa831c66d && Prime(25) == 101 && IsCubeRoot(4, 0xa831c66d, 101);
    assert RoundConstant(26) == 0xb00327c8 && Prime(26) == 103 && IsCubeRoot(4, 0xb00327c8, 103);
    assert RoundConstant(27) == 0xbf597fc7 && Prime(27) == 107 && IsCubeRoot(4, 0xbf597fc7, 107);
    assert RoundConstant(28) == 0xc6e00bf3 && Prime(28) == 109 && IsCubeRoot(4, 0xc6e00bf3, 109);
    assert RoundConstant(29) == 0xd5a79147 && Prime(29) == 113 && IsCubeRoot(4, 0xd5a79147, 113);
    assert RoundConstant(30) == 0x06ca6351 && Prime(30) == 127 && IsCubeRoot(5, 0x06ca6351, 127);
    assert RoundConstant(31) == 0x14292967 && Prime(31) == 131 && IsCubeRoot(5, 0x14292967, 131);
  }

  lemma Roots4()
    ensures forall t :: 32 <= t < 40 ==> HasCubeRoot(RoundConstant(t), Prime(t))
  {
    assert RoundConstant(32) == 0x27b70a85 && Prime(32) == 137 && IsCubeRoot(5, 0x27b70a85, 137);
    assert RoundConstant(33) == 0x2e1b2138 && Prime(33) == 139 && IsCubeRoot(5, 0x2e1b2138, 139);
    assert RoundConstant(34) == 0x4d2c6dfc && Prime(34) == 149 && IsCubeRoot(5, 0x4d2c6dfc, 149);
    assert RoundConstant(35) == 0x53380d13 && Prime(35) == 151 && IsCubeRoot(5, 0x53380d13, 151);
    assert RoundConstant(36) == 0x650a7354 && Prime(36) == 157 && IsCubeRoot(5, 0x650a7354, 157);
    assert RoundConstant(37) == 0x766a0abb && Prime(37) == 163 && IsCubeRoot(5, 0x766a0abb, 163);
    assert RoundConstant(38) == 0x81c2c92e && Prime(38) == 167 && IsCubeRoot(5, 0x81c2c92e, 167);
    assert RoundConstant(39) == 0x92722c85 && Prime(39) == 173 && IsCubeRoot(5, 0x92722c85, 173);
  }

  lemma Roots5()
    ensures forall t :: 40 <= t < 48 ==> HasCubeRoot(RoundConstant(t), Prime(t))
  {
    assert RoundConstant(40) == 0xa2bfe8a1 && Prime(40) == 179 && IsCubeRoot(5, 0xa2bfe8a1, 179);
    assert RoundConstant(41) == 0xa81a664b && Prime(41) == 181 && IsCubeRoot(5, 0xa81a664b, 181);
    assert RoundConstant(42) == 0xc24b8b70 && Prime(42) == 191 && IsCubeRoot(5, 0xc24b8b70, 191);
    assert RoundConstant(43) == 0xc76c51a3 && Prime(43) == 193 && IsCubeRoot(5, 0xc76c51a3, 193);
    assert RoundConstant(44) == 0xd192e819 && Prime(44) == 197 && IsCubeRoot(5, 0xd192e819, 197);
    assert RoundConstant(45) == 0xd6990624 && Prime(45) == 199 && IsCubeRoot(5, 0xd6990624, 199);
    assert RoundConstant(46) == 0xf40e3585 && Prime(46) == 211 && IsCubeRoot(5, 0xf40e3585, 211);
    assert RoundConstant(47) == 0x106aa070 && Prime(47) == 223 && IsCubeRoot(6, 0x106aa070, 223);
  }

  lemma Roots6()
    ensures forall t :: 48 <= t < 56 ==> HasCubeRoot(RoundConstant(t), Prime(t))
  {
    assert RoundConstant(48) == 0x19a4c116 && Prime(48) == 227 && IsCubeRoot(6, 0x19a4c116, 227);
    assert RoundConstant(49) == 0x1e376c08 && Prime(49) == 229 && IsCubeRoot(6, 0x1e376c08, 229);
    assert RoundConstant(50) == 0x2748774c && Prime(50) == 233 && IsCubeRoot(6, 0x2748774c, 233);
    assert RoundConstant(51) == 0x34b0bcb5 && Prime(51) == 239 && IsCubeRoot(6, 0x34b0bcb5, 239);
    assert RoundConstant(52) == 0x391c0cb3 && Prime(52) == 241 && IsCubeRoot(6, 0x391c0cb3, 241);
    assert RoundConstant(53) == 0x4ed8aa4a && Prime(53) == 251 && IsCubeRoot(6, 0x4ed8aa4a, 251);
    assert RoundConstant(54) == 0x5b9cca4f && Prime(54) == 257 && IsCubeRoot(6, 0x5b9cca4f, 257);
    assert RoundConstant(55) == 0x682e6ff3 && Prime(55) == 263 && IsCubeRoot(6, 0x682e6ff3, 263);
  }

  lemma Roots7()
    ensures forall t :: 56 <= t < 64 ==> HasCubeRoot(RoundConstant(t), Prime(t))
  {
    assert RoundConstant(56) == 0x748f82ee && Prime(56) == 269 && IsCubeRoot(6, 0x748f82ee, 269);
    assert RoundConstant(57) == 0x78a5636f && Prime(57) == 271 && IsCubeRoot(6, 0x78a5636f, 271);
    assert RoundConstant(58) == 0x84c87814 && Prime(58) == 277 && IsCubeRoot(6, 0x84c87814, 277);
    assert RoundConstant(59) == 0x8cc70208 && Prime(59) == 281 && IsCubeRoot(6, 0x8cc70208, 281);
    assert RoundConstant(60) == 0x90befffa && Prime(60) == 283 && IsCubeRoot(6, 0x90befffa, 283);
    assert RoundConstant(61) == 0xa4506ceb && Prime(61) == 293 && IsCubeRoot(6, 0xa4506ceb, 293);
    assert RoundConstant(62) == 0xbef9a3f7 && Prime(62) == 307 && IsCubeRoot(6, 0xbef9a3f7, 307);
    assert RoundConstant(63) == 0xc67178f2 && Prime(63) == 311 && IsCubeRoot(6, 0xc67178f2, 311);
  }

  /** Section 4.2.2: the round constants come from the cube roots of the first 64 primes. */
  lemma RoundConstantsAreCubeRoots(t: nat)
    requires t < 64
    ensures HasCubeRoot(RoundConstant(t), Prime(t))
  {
    Roots0();
    Roots1();
    Roots2();
    Roots3();
    Roots4();
    Roots5();
    Roots6();
    Roots7();
    assert 0 <= t < 8 || 8 <= t < 16 || 16 <= t < 24 || 24 <= t < 32
        || 32 <= t < 40 || 40 <= t < 48 || 48 <= t < 56 || 56 <= t < 64;
  }

  /** Section 5.3.3: the initial hash value comes from the square roots of the first eight. */
  lemma InitialValueIsSquareRoots(i: nat)
    requires i < 8
    ensures HasSquareRoot(H0[i], Prime(i))
  {
    assert H0[0] == 0x6a09e667 && Prime(0) == 2 && IsSquareRoot(1, 0x6a09e667, 2);
    assert H0[1] == 0xbb67ae85 && Prime(1) == 3 && IsSquareRoot(1, 0xbb67ae85, 3);
    assert H0[2] == 0x3c6ef372 && Prime(2) == 5 && IsSquareRoot(2, 0x3c6ef372, 5);
    assert H0[3] == 0xa54ff53a && Prime(3) == 7 && IsSquareRoot(2, 0xa54ff53a, 7);
    assert H0[4] == 0x510e527f && Prime(4) == 11 && IsSquareRoot(3, 0x510e527f, 11);
    assert H0[5] == 0x9b05688c && Prime(5) == 13 && IsSquareRoot(3, 0x9b05688c, 13);
    assert H0[6] == 0x1f83d9ab && Prime(6) == 17 && IsSquareRoot(4, 0x1f83d9ab, 17);
    assert H0[7] == 0x5be0cd19 && Prime(7) == 19 && IsSquareRoot(4, 0x5be0cd19, 19);
  }
}
