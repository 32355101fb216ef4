/**
 SHA-256 as the standard states it: the padding of section 5.1.1, the functions of section
 4.1.2 and the hash computation of section 6.2.2 of FIPS 180-4.
 */
module Sha256Standard {
  const TWO32 := 0x1_0000_0000

  /** A 32-bit word, as the residue that its bits stand for. */
  type Word = w: int | 0 <= w < TWO32

  /** Eight words: a hash value or the eight working variables. */
  type Digest = v: seq<Word> | |v| == 8 witness [0, 0, 0, 0, 0, 0, 0, 0]

  type Bytes = seq<bv8>

  // --- words ---

  function Mod(x: int): Word { x % TWO32 }

  function Value(b: bv32): Word { b as int }

  function Bits(x: Word): bv32 { x as bv32 }

  /** The bits turned to the right, and shifted to the right. */
  function Turned(b: bv32, n: bv32): bv32
    requires 0 < n < 32
  {
    (b >> n) | (b << (32 - n))
  }

  function Dropped(b: bv32, n: bv32): bv32
    requires 0 < n < 32
  {
    b >> n
  }

  function Rotr(x: Word, n: bv32): Word
    requires 0 < n < 32
  {
    Value(Turned(Bits(x), n))
  }

  function Shr(x: Word, n: bv32): Word
    requires 0 < n < 32
  {
    Value(Dropped(Bits(x), n))
  }

  function XorBits(a: bv32, b: bv32): bv32 { a ^ b }

  function AndBits(a: bv32, b: bv32): bv32 { a & b }

  function NotBits(a: bv32): bv32 { !a }

  function Xor(x: Word, y: Word): Word { Value(XorBits(Bits(x), Bits(y))) }

  function And(x: Word, y: Word): Word { Value(AndBits(Bits(x), Bits(y))) }

  function Not(x: Word): Word { Value(NotBits(Bits(x))) }

  function Ch(x: Word, y: Word, z: Word): Word { Xor(And(x, y), And(Not(x), z)) }

  function Maj(x: Word, y: Word, z: Word): Word { Xor(Xor(And(x, y), And(x, z)), And(y, z)) }

  function Sigma0(x: Word): Word { Xor(Xor(Rotr(x, 2), Rotr(x, 13)), Rotr(x, 22)) }

  function Sigma1(x: Word): Word { Xor(Xor(Rotr(x, 6), Rotr(x, 11)), Rotr(x, 25)) }

  function Gamma0(x: Word): Word { Xor(Xor(Rotr(x, 7), Rotr(x, 18)), Shr(x, 3)) }

  function Gamma1(x: Word): Word { Xor(Xor(Rotr(x, 17), Rotr(x, 19)), Shr(x, 10)) }

  /** The table of section 4.2.2, eight constants a row. */
  const K: seq<seq<Word>> := [
    [0x428a2f98, 0x71374491, 0xb5c0fbcf, 0xe9b5dba5, 0x3956c25b, 0x59f111f1, 0x923f82a4, 0xab1c5ed5],
    [0xd807aa98, 0x12835b01, 0x243185be, 0x550c7dc3, 0x72be5d74, 0x80deb1fe, 0x9bdc06a7, 0xc19bf174],
    [0xe49b69c1, 0xefbe4786, 0x0fc19dc6, 0x240ca1cc, 0x2de92c6f, 0x4a7484aa, 0x5cb0a9dc, 0x76f988da],
    [0x983e5152, 0xa831c66d, 0xb00327c8, 0xbf597fc7, 0xc6e00bf3, 0xd5a79147, 0x06ca6351, 0x14292967],
    [0x27b70a85, 0x2e1b2138, 0x4d2c6dfc, 0x53380d13, 0x650a7354, 0x766a0abb, 0x81c2c92e, 0x92722c85],
    [0xa2bfe8a1, 0xa81a664b, 0xc24b8b70, 0xc76c51a3, 0xd192e819, 0xd6990624, 0xf40e3585, 0x106aa070],
    [0x19a4c116, 0x1e376c08, 0x2748774c, 0x34b0bcb5, 0x391c0cb3, 0x4ed8aa4a, 0x5b9cca4f, 0x682e6ff3],
    [0x748f82ee, 0x78a5636f, 0x84c87814, 0x8cc70208, 0x90befffa, 0xa4506ceb, 0xbef9a3f7, 0xc67178f2]]

  function RoundConstant(t: nat): Word
    requires t < 64
  {
    K[t / 8][t % 8]
  }

  const H0: Digest := [
    0x6a09e667, 0xbb67ae85, 0x3c6ef372, 0xa54ff53a, 0x510e527f, 0x9b05688c, 0x1f83d9ab, 0x5be0cd19]

  // --- bytes and words ---

  /** Byte `k` of a word, counted from the low end. */
  function ByteOf(x: int, k: nat): bv8
    requires k < 8
  {
    (x / Power256(k) % 0x100) as bv8
  }

  function Power256(k: nat): (p: nat)
    requires k < 8
    ensures p > 0
  {
    if k == 0 then 1 else 0x100 * Power256(k - 1)
  }

  function WordBytes(x: Word): (bytes: Bytes)
    ensures |bytes| == 4
  {
    [ByteOf(x, 3), ByteOf(x, 2), ByteOf(x, 1), ByteOf(x, 0)]
  }

  /** The word of four bytes, the first one highest. */
  function WordOf(a: bv8, b: bv8, c: bv8, d: bv8): Word {
    (a as int) * 0x100_0000 + (b as int) * 0x1_0000 + (c as int) * 0x100 + d as int
  }

  function WordAt(bytes: Bytes, at: nat): Word
    requires at + 4 <= |bytes|
  {
    WordOf(bytes[at], bytes[at + 1], bytes[at + 2], bytes[at + 3])
  }

  /** The bytes of the words of a hash value, in order. */
  function DigestBytes(v: Digest): (bytes: Bytes)
    ensures |bytes| == 32
  {
    WordBytes(v[0]) + WordBytes(v[1]) + WordBytes(v[2]) + WordBytes(v[3])
    + WordBytes(v[4]) + WordBytes(v[5]) + WordBytes(v[6]) + WordBytes(v[7])
  }

  lemma WordOfBytes(x: Word)
    ensures WordAt(WordBytes(x), 0) == x
  {
    var b3, b2, b1, b0 := x / 0x100_0000, x / 0x1_0000 % 0x100, x / 0x100 % 0x100, x % 0x100;
    PowersOf256();
    ByteValue(x, 3, b3);
    ByteValue(x, 2, b2);
    ByteValue(x, 1, b1);
    ByteValue(x, 0, b0);
    FourBytes(x);
  }

  lemma PowersOf256()
    ensures Power256(0) == 1 && Power256(1) == 0x100 && Power256(2) == 0x1_0000 && Power256(3) == 0x100_0000
  {
    assert Power256(1) == 0x100 * Power256(0);
    assert Power256(2) == 0x100 * Power256(1);
    assert Power256(3) == 0x100 * Power256(2);
  }

  lemma ByteValue(x: Word, k: nat, b: int)
    requires k < 4 && 0 <= b < 0x100 && x / Power256(k) % 0x100 == b
    ensures ByteOf(x, k) as int == b
  {
    hide Power256;
    ThroughByte(b);
  }

  lemma ByteSuccessor(v: bv8)
    requires v != 0xff
    ensures (v + 1) as int == v as int + 1
  {
  }

  lemma ByteWithValue(b: int) returns (v: bv8)
    requires 0 <= b < 0x100
    ensures v as int == b
  {
    v := 0;
    var i := 0;
    while i < b
      invariant i <= b && v as int == i
    {
      ByteSuccessor(v);
      v := v + 1;
      i := i + 1;
    }
  }

  lemma ByteThereAndBack(v: bv8)
    ensures (v as int) as bv8 == v
  {
  }

  lemma ThroughByte(b: int)
    requires 0 <= b < 0x100
    ensures (b as bv8) as int == b
  {
    var v := ByteWithValue(b);
    ByteThereAndBack(v);
  }

  lemma DivTwice(x: int)
    ensures x / 0x1_0000 == x / 0x100 / 0x100
  {
  }

  lemma FourBytes(x: Word)
    ensures x / 0x100_0000 % 0x100 == x / 0x100_0000
    ensures x / 0x100_0000 * 0x100_0000 + x / 0x1_0000 % 0x100 * 0x1_0000 + x / 0x100 % 0x100 * 0x100 + x % 0x100 == x
  {
    var q := x / 0x100;
    DivTwice(x);
    DivTwice(q);
    assert x == q * 0x100 + x % 0x100;
    assert q == q / 0x100 * 0x100 + q % 0x100;
    assert q / 0x100 == q / 0x1_0000 * 0x100 + q / 0x100 % 0x100;
    assert q / 0x1_0000 == x / 0x100_0000;
  }

  // --- hash computation, section 6.2.2 ---

  /** The message schedule. */
  function W(block: Bytes, t: nat): Word
    requires |block| == 64 && t < 64
  {
    if t < 16 then WordAt(block, 4 * t)
    else Mod(Gamma1(W(block, t - 2)) + W(block, t - 7) + Gamma0(W(block, t - 15)) + W(block, t - 16))
  }

  function T1(s: Digest, k: Word, w: Word): int { s[7] + Sigma1(s[4]) + Ch(s[4], s[5], s[6]) + k + w }

  function T2(s: Digest): int { Sigma0(s[0]) + Maj(s[0], s[1], s[2]) }

  function Shifted(s: Digest, t1: int, t2: int): Digest {
    [Mod(t1 + t2), s[0], s[1], s[2], Mod(s[3] as int + t1), s[4], s[5], s[6]]
  }

  function Round(s: Digest, k: Word, w: Word): Digest { Shifted(s, T1(s, k, w), T2(s)) }

  /** The working variables after `t` rounds. */
  function Rounds(v: Digest, block: Bytes, t: nat): Digest
    requires |block| == 64 && t <= 64
  {
    if t == 0 then v else Round(Rounds(v, block, t - 1), RoundConstant(t - 1), W(block, t - 1))
  }

  function AddDigests(v: Digest, s: Digest): Digest {
    seq(8, i requires 0 <= i < 8 => Mod(v[i] as int + s[i] as int))
  }

  function Compress(v: Digest, block: Bytes): Digest
    requires |block| == 64
  {
    AddDigests(v, Rounds(v, block, 64))
  }

  /** The hash value after all blocks. */
  function Fold(v: Digest, bytes: Bytes): Digest
    requires |bytes| % 64 == 0
    decreases |bytes|
  {
    if bytes == [] then v
    else Compress(Fold(v, bytes[..|bytes| - 64]), bytes[|bytes| - 64..])
  }

  lemma FoldBlock(v: Digest, bytes: Bytes, block: Bytes)
    requires |bytes| % 64 == 0 && |block| == 64
    ensures Fold(v, bytes + block) == Compress(Fold(v, bytes), block)
  {
    hide Compress;
    var all := bytes + block;
    assert all[..|all| - 64] == bytes && all[|all| - 64..] == block;
  }

  lemma {:induction false} FoldConcat(v: Digest, a: Bytes, b: Bytes)
    requires |a| % 64 == 0 && |b| % 64 == 0
    ensures Fold(v, a + b) == Fold(Fold(v, a), b)
    decreases |b|
  {
    hide Compress;
    if b == [] {
      assert a + b == a;
    } else {
      var front, last := b[..|b| - 64], b[|b| - 64..];
      FoldConcat(v, a, front);
      FoldBlock(v, a + front, last);
      assert a + b == a + front + last;
    }
  }

  // --- padding, section 5.1.1 ---

  function Zeros(n: nat): (z: Bytes)
    ensures |z| == n && forall i :: 0 <= i < n ==> z[i] == 0
  {
    seq(n, _ => 0)
  }

  /** How many zero bytes follow the byte with the one bit. */
  function ZeroCount(n: nat): nat { (55 - n) % 64 }

  /** The length in bits as eight bytes, most significant first. */
  function LengthBytes(n: nat): (bytes: Bytes)
    ensures |bytes| == 8
  {
    WordBytes(Mod(8 * n / TWO32)) + WordBytes(Mod(8 * n))
  }

  function Padding(n: nat): (bytes: Bytes)
    ensures |bytes| == ZeroCount(n) + 9
  {
    [0x80] + Zeros(ZeroCount(n)) + LengthBytes(n)
  }

  function Padded(m: Bytes): Bytes { m + Padding(|m|) }

  /** The zero bits are the fewest that leave 64 bits of the last block for the length. */
  lemma PaddingIsStandard(n: nat, k: nat)
    ensures 8 * (n + 1 + ZeroCount(n)) % 512 == 448
    ensures 8 * (n + 1 + k) % 512 == 448 ==> ZeroCount(n) <= k
    ensures (n + 9 + ZeroCount(n)) % 64 == 0
  {
  }

  /** The eight bytes are the length in bits of any message the standard admits. */
  lemma LengthIsExact(n: nat)
    requires 8 * n < TWO32 * TWO32
    ensures Mod(8 * n / TWO32) * TWO32 + Mod(8 * n) == 8 * n
  {
  }

  function Hash(m: Bytes): (h: Bytes)
    ensures |h| == 32
  {
    PaddingIsStandard(|m|, 0);
    DigestBytes(Fold(H0, Padded(m)))
  }
}
