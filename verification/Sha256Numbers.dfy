/**
 The two other forms of the hash, on JavaScript numbers: one keeps its sums unreduced through a
 whole block, one pads and hashes a byte string in one go.
 */
module Sha256Numbers {
  import opened Sha256Standard

  const TWO31 := 0x8000_0000
  const TWO53 := 0x20_0000_0000_0000

  // --- numbers ---

  /** A number that a double holds without rounding. */
  predicate Exact(x: int) { -TWO53 < x < TWO53 }

  /** `x + y`, where nothing is rounded. */
  function Plus(x: int, y: int): (z: int)
    requires Exact(x) && Exact(y) && Exact(x + y)
  {
    x + y
  }

  predicate IsInt32(x: int) { -TWO31 <= x < TWO31 }

  /** The signed number with the bits of a word. */
  function Signed(w: Word): (x: int)
    ensures IsInt32(x)
  {
    if w < TWO31 then w else w - TWO32
  }

  /** `x | 0` */
  function ToInt32(x: int): (r: int)
    ensures IsInt32(r)
  {
    Signed(Mod(x))
  }

  lemma ModOfSigned(w: Word)
    ensures Mod(Signed(w)) == w
  {
  }

  lemma ModOfInt32(x: int)
    ensures Mod(ToInt32(x)) == Mod(x)
  {
    ModOfSigned(Mod(x));
  }

  lemma ModPlus(x: int, y: int)
    ensures Mod(x + y) == Mod(Mod(x) as int + Mod(y) as int)
  {
  }

  // --- the bit functions on numbers ---

  /** The operands of bit operations are cut to 32 bits, the results are signed. */
  function NumXor(x: int, y: int): (r: int)
    ensures IsInt32(r)
  {
    Signed(Xor(Mod(x), Mod(y)))
  }

  function NumAnd(x: int, y: int): (r: int)
    ensures IsInt32(r)
  {
    Signed(And(Mod(x), Mod(y)))
  }

  function NumNot(x: int): (r: int)
    ensures IsInt32(r)
  {
    Signed(Not(Mod(x)))
  }

  function S(x: int, n: bv32): (r: int)
    requires 0 < n < 32
    ensures IsInt32(r)
  {
    Signed(Rotr(Mod(x), n))
  }

  /** A shift with zeros is not signed. */
  function R(x: int, n: bv32): Word
    requires 0 < n < 32
  {
    Shr(Mod(x), n)
  }

  function NumCh(x: int, y: int, z: int): (r: int)
    ensures IsInt32(r)
  {
    NumXor(NumAnd(x, y), NumAnd(NumNot(x), z))
  }

  function NumMaj(x: int, y: int, z: int): (r: int)
    ensures IsInt32(r)
  {
    NumXor(NumXor(NumAnd(x, y), NumAnd(x, z)), NumAnd(y, z))
  }

  function NumSigma0(x: int): (r: int)
    ensures IsInt32(r)
  {
    NumXor(NumXor(S(x, 2), S(x, 13)), S(x, 22))
  }

  function NumSigma1(x: int): (r: int)
    ensures IsInt32(r)
  {
    NumXor(NumXor(S(x, 6), S(x, 11)), S(x, 25))
  }

  function NumGamma0(x: int): (r: int)
    ensures IsInt32(r)
  {
    NumXor(NumXor(S(x, 7), S(x, 18)), R(x, 3))
  }

  function NumGamma1(x: int): (r: int)
    ensures IsInt32(r)
  {
    NumXor(NumXor(S(x, 17), S(x, 19)), R(x, 10))
  }

  lemma XorResidue(x: int, y: int)
    ensures Mod(NumXor(x, y)) == Xor(Mod(x), Mod(y))
  {
    hide Xor;
    ModOfSigned(Xor(Mod(x), Mod(y)));
  }

  lemma AndResidue(x: int, y: int)
    ensures Mod(NumAnd(x, y)) == And(Mod(x), Mod(y))
  {
    hide And;
    ModOfSigned(And(Mod(x), Mod(y)));
  }

  lemma NotResidue(x: int)
    ensures Mod(NumNot(x)) == Not(Mod(x))
  {
    hide Not;
    ModOfSigned(Not(Mod(x)));
  }

  lemma SResidue(x: int, n: bv32)
    requires 0 < n < 32
    ensures Mod(S(x, n)) == Rotr(Mod(x), n)
  {
    hide Rotr;
    ModOfSigned(Rotr(Mod(x), n));
  }

  lemma ModOfWord(w: Word)
    ensures Mod(w) == w
  {
  }

  lemma ChResidue(x: int, y: int, z: int)
    ensures Mod(NumCh(x, y, z)) == Ch(Mod(x), Mod(y), Mod(z))
  {
    hide NumXor, NumAnd, NumNot, Xor, And, Not, Mod;
    XorResidue(NumAnd(x, y), NumAnd(NumNot(x), z));
    AndResidue(x, y);
    AndResidue(NumNot(x), z);
    NotResidue(x);
  }

  lemma MajResidue(x: int, y: int, z: int)
    ensures Mod(NumMaj(x, y, z)) == Maj(Mod(x), Mod(y), Mod(z))
  {
    hide NumXor, NumAnd, Xor, And, Mod;
    XorResidue(NumXor(NumAnd(x, y), NumAnd(x, z)), NumAnd(y, z));
    XorResidue(NumAnd(x, y), NumAnd(x, z));
    AndResidue(x, y);
    AndResidue(x, z);
    AndResidue(y, z);
  }

  /** The exclusive or of three residues. */
  lemma ThreeResidue(a: int, b: int, c: int)
    ensures Mod(NumXor(NumXor(a, b), c)) == Xor(Xor(Mod(a), Mod(b)), Mod(c))
  {
    hide NumXor, Xor, Mod;
    XorResidue(NumXor(a, b), c);
    XorResidue(a, b);
  }

  lemma SigmaResidues(x: int)
    ensures Mod(NumSigma0(x)) == Sigma0(Mod(x)) && Mod(NumSigma1(x)) == Sigma1(Mod(x))
  {
    hide NumXor, Xor, Mod, S, Rotr;
    ThreeResidue(S(x, 2), S(x, 13), S(x, 22));
    ThreeResidue(S(x, 6), S(x, 11), S(x, 25));
    SResidue(x, 2);
    SResidue(x, 13);
    SResidue(x, 22);
    SResidue(x, 6);
    SResidue(x, 11);
    SResidue(x, 25);
  }

  lemma GammaResidues(x: int)
    ensures Mod(NumGamma0(x)) == Gamma0(Mod(x)) && Mod(NumGamma1(x)) == Gamma1(Mod(x))
  {
    hide NumXor, Xor, Mod, S, Rotr, Shr;
    ThreeResidue(S(x, 7), S(x, 18), R(x, 3));
    ThreeResidue(S(x, 17), S(x, 19), R(x, 10));
    SResidue(x, 7);
    SResidue(x, 18);
    SResidue(x, 17);
    SResidue(x, 19);
    ModOfWord(R(x, 3));
    ModOfWord(R(x, 10));
  }

  // --- the rounds on numbers ---

  /** Eight working variables as numbers. */
  type Numbers = s: seq<int> | |s| == 8 witness [0, 0, 0, 0, 0, 0, 0, 0]

  function Residues(s: Numbers): Digest { seq(8, i requires 0 <= i < 8 => Mod(s[i])) }

  function NumT1(s: Numbers, k: Word, w: int): int {
    s[7] + NumSigma1(s[4]) + NumCh(s[4], s[5], s[6]) + k + w
  }

  function NumT2(s: Numbers): int { NumSigma0(s[0]) + NumMaj(s[0], s[1], s[2]) }

  lemma ModOfTwo(x: int, y: int, x': int, y': int)
    requires Mod(x) == Mod(x') && Mod(y) == Mod(y')
    ensures Mod(x + y) == Mod(x' + y')
  {
    hide Mod;
    ModPlus(x, y);
    ModPlus(x', y');
  }

  lemma ModTwice(x: int)
    ensures Mod(Mod(x)) == Mod(x)
  {
  }

  /** A sum of two, three and five numbers against the sum of their residues. */
  lemma ModOfThree(a: int, b: int, c: int, a': Word, b': Word, c': Word)
    requires Mod(a) == a' && Mod(b) == b' && Mod(c) == c'
    ensures Mod(a + b + c) == Mod(a' as int + b' as int + c' as int)
  {
    hide Mod;
    ModTwice(a);
    ModTwice(b);
    ModTwice(c);
    ModOfTwo(a, b, a', b');
    ModOfTwo(a + b, c, a' as int + b' as int, c');
  }

  lemma T1Residue(s: Numbers, k: Word, w: int)
    ensures Mod(NumT1(s, k, w)) == Mod(T1(Residues(s), k, Mod(w)))
  {
    hide Mod, NumSigma1, Sigma1, NumCh, Ch;
    var r := Residues(s);
    SigmaResidues(s[4]);
    ChResidue(s[4], s[5], s[6]);
    T1OfResidues(s, r, k, w, NumSigma1(s[4]), NumCh(s[4], s[5], s[6]), Sigma1(r[4]), Ch(r[4], r[5], r[6]));
  }

  lemma T1OfResidues(s: Numbers, r: Digest, k: Word, w: int, x: int, y: int, x': Word, y': Word)
    requires x == NumSigma1(s[4]) && y == NumCh(s[4], s[5], s[6])
    requires x' == Sigma1(r[4]) && y' == Ch(r[4], r[5], r[6])
    requires Mod(s[7]) == r[7] && Mod(x) == x' && Mod(y) == y'
    ensures Mod(NumT1(s, k, w)) == Mod(T1(r, k, Mod(w)))
  {
    hide Mod, NumSigma1, Sigma1, NumCh, Ch;
    ModOfThree(s[7], x, y, r[7], x', y');
    ModTwice(w);
    ModOfTwo(s[7] + x + y, k, r[7] as int + x' as int + y' as int, k);
    ModOfTwo(s[7] + x + y + k, w, r[7] as int + x' as int + y' as int + k as int, Mod(w));
  }

  lemma T2Residue(s: Numbers)
    ensures Mod(NumT2(s)) == Mod(T2(Residues(s)))
  {
    hide Mod, NumSigma0, Sigma0, NumMaj, Maj;
    var r := Residues(s);
    SigmaResidues(s[0]);
    MajResidue(s[0], s[1], s[2]);
    T2OfResidues(s, r, NumSigma0(s[0]), NumMaj(s[0], s[1], s[2]), Sigma0(r[0]), Maj(r[0], r[1], r[2]));
  }

  lemma T2OfResidues(s: Numbers, r: Digest, x: int, y: int, x': Word, y': Word)
    requires x == NumSigma0(s[0]) && y == NumMaj(s[0], s[1], s[2])
    requires x' == Sigma0(r[0]) && y' == Maj(r[0], r[1], r[2])
    requires Mod(x) == x' && Mod(y) == y'
    ensures Mod(NumT2(s)) == Mod(T2(r))
  {
    hide Mod, NumSigma0, Sigma0, NumMaj, Maj;
    ModTwice(x);
    ModTwice(y);
    ModOfTwo(x, y, x', y');
  }

  /** Unreduced or cut anywhere: the residues of a round are the round of the residues. */
  lemma RoundResidue(s: Numbers, s': Numbers, k: Word, w: int)
    requires Mod(s'[0]) == Mod(NumT1(s, k, w) + NumT2(s)) && Mod(s'[4]) == Mod(s[3] + NumT1(s, k, w))
    requires s'[1] == s[0] && s'[2] == s[1] && s'[3] == s[2] && s'[5] == s[4] && s'[6] == s[5] && s'[7] == s[6]
    ensures Residues(s') == Round(Residues(s), k, Mod(w))
  {
    hide Mod, NumT1, NumT2, T1, T2;
    var r := Residues(s);
    T1Residue(s, k, w);
    T2Residue(s);
    ModTwice(s[3]);
    ModOfTwo(NumT1(s, k, w), NumT2(s), T1(r, k, Mod(w)), T2(r));
    ModOfTwo(s[3], NumT1(s, k, w), r[3], T1(r, k, Mod(w)));
  }

  function NumW(w: seq<int>, t: nat): int
    requires 16 <= t <= |w|
  {
    NumGamma1(w[t - 2]) + w[t - 7] + NumGamma0(w[t - 15]) + w[t - 16]
  }

  /** The words so far have the residues of the schedule. */
  ghost predicate Scheduled(w: seq<int>, block: Bytes, n: nat)
    requires |block| == 64
  {
    n <= 64 && n <= |w| && forall t :: 0 <= t < n ==> Mod(w[t]) == W(block, t)
  }

  lemma NextWord(w: seq<int>, block: Bytes, t: nat)
    requires |block| == 64 && 16 <= t < 64 && Scheduled(w, block, t)
    ensures Mod(NumW(w, t)) == W(block, t)
  {
    hide Mod, NumGamma0, NumGamma1, Gamma0, Gamma1, WordAt;
    var g1, g0 := Gamma1(W(block, t - 2)), Gamma0(W(block, t - 15));
    GammaResidues(w[t - 2]);
    GammaResidues(w[t - 15]);
    ModTwice(NumGamma1(w[t - 2]));
    ModTwice(NumGamma0(w[t - 15]));
    ModTwice(w[t - 7]);
    ModTwice(w[t - 16]);
    ModOfTwo(NumGamma1(w[t - 2]), w[t - 7], g1, W(block, t - 7));
    ModOfTwo(NumGamma1(w[t - 2]) + w[t - 7], NumGamma0(w[t - 15]), g1 as int + W(block, t - 7) as int, g0);
    ModOfTwo(NumGamma1(w[t - 2]) + w[t - 7] + NumGamma0(w[t - 15]), w[t - 16],
             g1 as int + W(block, t - 7) as int + g0 as int, W(block, t - 16));
  }
}
