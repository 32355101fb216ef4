/** The one-shot hash of a byte string: padded and cut into blocks of words before hashing. */
module Sha256Veness {
  import opened Sha256Standard
  import opened Sha256Numbers

  function Ceil(x: real): int { -((-x).Floor) }

  /** How many blocks the message with its one-bit byte and its length fill. */
  function BlocksNeeded(n: nat): nat { (n + 9 + 63) / 64 }

  /** The count by division of reals is the number of blocks of the padded message. */
  lemma CountIsExact(n: nat)
    ensures Ceil(((n + 1) as real / 4.0 + 2.0) / 16.0) == BlocksNeeded(n)
    ensures |Padding(n)| + n == 64 * BlocksNeeded(n) && BlocksNeeded(n) > 0
  {
    var l := ((n + 1) as real / 4.0 + 2.0) / 16.0;
    assert l == (n + 9) as real / 64.0;
    CeilOf(n + 9);
    CountOfPadding(n);
  }

  lemma CeilOf(k: nat)
    ensures Ceil(k as real / 64.0) == (k + 63) / 64
  {
    var c := (k + 63) / 64;
    assert 64 * c >= k && 64 * c < k + 64;
    assert c as real >= k as real / 64.0 > c as real - 1.0;
  }

  lemma CountOfPadding(n: nat)
    ensures ZeroCount(n) + 9 + n == 64 * BlocksNeeded(n)
  {
  }

  /** `charCodeAt` of the byte string with 0x80 behind it; beyond its end it counts as zero. */
  function CharAt(msg: Bytes, i: nat): bv8 {
    if i < |msg| then msg[i] else 0
  }

  function CharWord(msg: Bytes, at: nat): (x: int)
    ensures IsInt32(x)
  {
    Signed(WordOf(CharAt(msg, at), CharAt(msg, at + 1), CharAt(msg, at + 2), CharAt(msg, at + 3)))
  }

  /** The padded message, byte by byte, up to where the length begins. */
  lemma PaddedBytes(m: Bytes, i: nat)
    requires i < |Padded(m)| - 8
    ensures Padded(m)[i] == CharAt(m + [0x80], i)
  {
    hide LengthBytes, ZeroCount;
  }

  /** The last two words are the two halves of the length in bits. */
  lemma PaddedLength(m: Bytes)
    ensures var p := Padded(m);
            && |p| >= 64 && p[|p| - 8..|p| - 4] == WordBytes(Mod(8 * |m| / TWO32))
            && p[|p| - 4..] == WordBytes(Mod(8 * |m|))
  {
    hide WordBytes, Mod;
    CountOfPadding(|m|);
    var p := Padded(m);
    assert p[|p| - 8..] == LengthBytes(|m|);
  }

  /** The bytes of block `i`. */
  function Block(bytes: Bytes, i: nat): (block: Bytes)
    requires 64 * i + 64 <= |bytes|
    ensures |block| == 64
  {
    bytes[64 * i..64 * i + 64]
  }

  lemma CharWordIsWord(msg: Bytes, m: Bytes, i: nat, t: nat)
    requires msg == m + [0x80] && t < 16 && 64 * i + 64 <= |Padded(m)| && 64 * i + 4 * t + 4 <= |Padded(m)| - 8
    ensures Mod(CharWord(msg, 64 * i + 4 * t)) == WordAt(Block(Padded(m), i), 4 * t)
  {
    hide Padded, Mod, WordOf;
    var at := 64 * i + 4 * t;
    PaddedBytes(m, at);
    PaddedBytes(m, at + 1);
    PaddedBytes(m, at + 2);
    PaddedBytes(m, at + 3);
    var block := Block(Padded(m), i);
    assert block[4 * t] == CharAt(msg, at) && block[4 * t + 1] == CharAt(msg, at + 1);
    assert block[4 * t + 2] == CharAt(msg, at + 2) && block[4 * t + 3] == CharAt(msg, at + 3);
    ModOfSigned(WordAt(block, 4 * t));
  }

  /** The last two words of the last block. */
  lemma LengthWords(m: Bytes, n: nat)
    requires n > 0 && |Padded(m)| == 64 * n
    ensures WordAt(Block(Padded(m), n - 1), 56) == Mod(8 * |m| / TWO32)
    ensures WordAt(Block(Padded(m), n - 1), 60) == Mod(8 * |m|)
  {
    hide Padded, Mod, WordBytes, WordOf;
    PaddedLength(m);
    var p := Padded(m);
    var block := Block(p, n - 1);
    assert block[56..60] == p[|p| - 8..|p| - 4] && block[60..64] == p[|p| - 4..];
    WordOfBytes(Mod(8 * |m| / TWO32));
    WordOfBytes(Mod(8 * |m|));
    SameWord(block, 56, WordBytes(Mod(8 * |m| / TWO32)));
    SameWord(block, 60, WordBytes(Mod(8 * |m|)));
  }

  lemma SameWord(bytes: Bytes, at: nat, four: Bytes)
    requires at + 4 <= |bytes| && |four| == 4 && bytes[at..at + 4] == four
    ensures WordAt(bytes, at) == WordAt(four, 0)
  {
    assert four[0] == bytes[at] && four[1] == bytes[at + 1] && four[2] == bytes[at + 2] && four[3] == bytes[at + 3];
  }

  /** The array holds the words of the padded message, as numbers with the right residues. */
  ghost predicate HoldsBlocks(mm: array2<int>, m: Bytes)
    reads mm
  {
    && mm.Length1 == 16 && |Padded(m)| == 64 * mm.Length0
    && forall i, t :: 0 <= i < mm.Length0 && 0 <= t < 16 ==> Mod(mm[i, t]) == WordAt(Block(Padded(m), i), 4 * t)
  }

  /** The message cut into blocks of words, the length in the last two. */
  method Preprocess(m: Bytes) returns (mm: array2<int>)
    ensures fresh(mm) && HoldsBlocks(mm, m) && mm.Length0 > 0
  {
    hide Padded, Mod, CharWord, WordAt, BlocksNeeded, Ceil, Padding;
    var msg := m + [0x80];
    var l := |msg| as real / 4.0 + 2.0;
    var n := Ceil(l / 16.0);
    CountIsExact(|m|);
    LengthOfPadded(m);
    mm := new int[n, 16];
    for i := 0 to n
      invariant forall k, t :: 0 <= k < i && 0 <= t < 16 ==> mm[k, t] == CharWord(msg, 64 * k + 4 * t)
    {
      for j := 0 to 16
        invariant forall k, t :: 0 <= k < i && 0 <= t < 16 ==> mm[k, t] == CharWord(msg, 64 * k + 4 * t)
        invariant forall t :: 0 <= t < j ==> mm[i, t] == CharWord(msg, 64 * i + 4 * t)
      {
        mm[i, j] := CharWord(msg, i * 64 + j * 4);
      }
    }
    mm[n - 1, 14] := (|msg| - 1) * 8 / TWO32;
    mm[n - 1, 15] := ToInt32((|msg| - 1) * 8);
    forall i, t | 0 <= i < n && 0 <= t < 16
      ensures Mod(mm[i, t]) == WordAt(Block(Padded(m), i), 4 * t)
    {
      if i == n - 1 && t >= 14 {
        LengthWords(m, n);
        ModOfInt32(8 * |m|);
      } else {
        CharWordIsWord(msg, m, i, t);
      }
    }
  }

  lemma LengthOfPadded(m: Bytes)
    ensures |Padded(m)| == |m| + |Padding(|m|)|
  {
  }

  /** The first words of the schedule are those of the block, the others are computed. */
  method Schedule(mm: array2<int>, i: nat, w: array<int>, ghost m: Bytes)
    requires HoldsBlocks(mm, m) && i < mm.Length0 && w.Length == 64 && w as object != mm as object
    modifies w
    ensures Scheduled(w[..], Block(Padded(m), i), 64)
  {
    hide Padded, Mod, WordAt, Gamma0, Gamma1, NumGamma0, NumGamma1;
    ghost var block := Block(Padded(m), i);
    for t := 0 to 16
      invariant forall k :: 0 <= k < t ==> w[k] == mm[i, k]
    {
      w[t] := mm[i, t];
    }
    assert Scheduled(w[..], block, 16);
    for t := 16 to 64
      invariant Scheduled(w[..], block, t)
    {
      NextWord(w[..], block, t);
      ModOfInt32(NumW(w[..], t));
      w[t] := ToInt32(NumW(w[..], t));
    }
  }

  /** The main loop: only the two new variables are cut to 32 bits. */
  method MainLoop(w: array<int>, v: Numbers, ghost block: Bytes) returns (s: Numbers)
    requires w.Length == 64 && |block| == 64 && Scheduled(w[..], block, 64)
    ensures Residues(s) == Rounds(Residues(v), block, 64)
  {
    hide Mod, Round, NumSigma0, NumSigma1, NumCh, NumMaj, Residues, W;
    var a, b, c, d := v[0], v[1], v[2], v[3];
    var e, f, g, h := v[4], v[5], v[6], v[7];
    s := v;
    for t := 0 to 64
      invariant s == [a, b, c, d, e, f, g, h] && Residues(s) == Rounds(Residues(v), block, t)
    {
      var t1 := h + NumSigma1(e) + NumCh(e, f, g) + RoundConstant(t) + w[t];
      var t2 := NumSigma0(a) + NumMaj(a, b, c);
      ModOfInt32(d + t1);
      ModOfInt32(t1 + t2);
      h := g;
      g := f;
      f := e;
      e := ToInt32(d + t1);
      d := c;
      c := b;
      b := a;
      a := ToInt32(t1 + t2);
      RoundResidue(s, [a, b, c, d, e, f, g, h], RoundConstant(t), w[t]);
      s := [a, b, c, d, e, f, g, h];
    }
  }

  method AddBlock(hh: array<int>, s: Numbers)
    requires hh.Length == 8
    modifies hh
    ensures Residues(hh[..]) == AddDigests(Residues(old(hh[..])), Residues(s))
  {
    hide Mod;
    for i := 0 to 8
      invariant forall j :: 0 <= j < i ==> Mod(hh[j]) == Mod(Mod(old(hh[j])) as int + Mod(s[j]) as int)
      invariant forall j :: i <= j < 8 ==> hh[j] == old(hh[j])
    {
      ModOfInt32(hh[i] + s[i]);
      ModPlus(hh[i], s[i]);
      hh[i] := ToInt32(hh[i] + s[i]);
    }
  }

  /** `toBinaryStr`: the four bytes of a word, highest first. */
  function ToBinaryStr(x: int): Bytes { WordBytes(Mod(x)) }

  lemma StartValues()
    ensures Residues([0x6a09e667, 0xbb67ae85, 0x3c6ef372, 0xa54ff53a,
                      0x510e527f, 0x9b05688c, 0x1f83d9ab, 0x5be0cd19]) == H0
  {
  }

  /** `Sha256.hash` on a byte string: the standard's hash, and so the streaming one's. */
  method HashOf(m: Bytes) returns (hash: Bytes)
    ensures hash == Hash(m)
  {
    hide Padded, Mod, Compress, Fold, Rounds, WordBytes;
    var mm := Preprocess(m);
    var hh := new int[] [0x6a09e667, 0xbb67ae85, 0x3c6ef372, 0xa54ff53a,
                         0x510e527f, 0x9b05688c, 0x1f83d9ab, 0x5be0cd19];
    StartValues();
    assert hh[..] == [0x6a09e667, 0xbb67ae85, 0x3c6ef372, 0xa54ff53a, 0x510e527f, 0x9b05688c, 0x1f83d9ab, 0x5be0cd19];
    var w := new int[64];
    assert Padded(m)[..0] == [];
    FoldOfNothing(H0);
    for i := 0 to mm.Length0
      invariant HoldsBlocks(mm, m) && Residues(hh[..]) == Fold(H0, Padded(m)[..64 * i])
    {
      HashBlock(mm, i, w, hh, m);
      NextFold(Padded(m), i);
    }
    assert Padded(m)[..64 * mm.Length0] == Padded(m);
    hash := ToBinaryStr(hh[0]) + ToBinaryStr(hh[1]) + ToBinaryStr(hh[2]) + ToBinaryStr(hh[3])
          + ToBinaryStr(hh[4]) + ToBinaryStr(hh[5]) + ToBinaryStr(hh[6]) + ToBinaryStr(hh[7]);
  }

  method HashBlock(mm: array2<int>, i: nat, w: array<int>, hh: array<int>, ghost m: Bytes)
    requires HoldsBlocks(mm, m) && i < mm.Length0 && w.Length == 64 && hh.Length == 8 && w != hh
    requires w as object != mm as object && hh as object != mm as object
    modifies w, hh
    ensures Residues(hh[..]) == Compress(Residues(old(hh[..])), Block(Padded(m), i))
  {
    hide Padded, Mod, Rounds, AddDigests, Residues;
    Schedule(mm, i, w, m);
    var s := MainLoop(w, hh[..], Block(Padded(m), i));
    AddBlock(hh, s);
  }

  lemma FoldOfNothing(v: Digest)
    ensures Fold(v, []) == v
  {
    hide Compress;
  }

  lemma NextFold(bytes: Bytes, i: nat)
    requires 64 * i + 64 <= |bytes|
    ensures Fold(H0, bytes[..64 * (i + 1)]) == Compress(Fold(H0, bytes[..64 * i]), Block(bytes, i))
  {
    hide Compress, Fold;
    FoldBlock(H0, bytes[..64 * i], Block(bytes, i));
    assert bytes[..64 * i] + Block(bytes, i) == bytes[..64 * (i + 1)];
  }
}
