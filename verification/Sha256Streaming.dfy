/**
 The streaming hash object: a buffer for a partial block, the compression applied to whole
 blocks in place, and the padding written into the same buffer at the end.
 */
module Sha256Streaming {
  import opened Sha256Standard

  // --- sums reduced at every plus ---

  /** `(x + y) | 0`, as a residue. */
  function Add(x: Word, y: Word): Word { Mod(x as int + y as int) }

  lemma ModOfSum(x: int, y: int)
    ensures Mod(Mod(x) as int + y) == Mod(x + y)
  {
  }

  lemma AddFour(a: Word, b: Word, c: Word, d: Word)
    ensures Add(Add(a, b), Add(c, d)) == Mod(a as int + b as int + c as int + d as int)
  {
    ModOfSum(a as int + b as int, Add(c, d));
    ModOfSum(c as int + d as int, a as int + b as int);
  }

  lemma AddFive(a: Word, b: Word, c: Word, d: Word, e: Word)
    ensures Add(Add(a, b), Add(c, Add(d, e))) == Mod(c as int + a as int + b as int + d as int + e as int)
  {
    AddFour(a, b, c, Add(d, e));
    ModOfSum(d as int + e as int, a as int + b as int + c as int);
  }

  // --- the compression in place ---

  /** An array of bytes is never one of words; the verifier has to be told. */
  ghost predicate Separate(p: array<bv8>, w: array<Word>) { p as object != w as object }

  /** The first 16 words of the schedule, read big-endian from the block. */
  method Load(w: array<Word>, p: array<bv8>, pos: nat)
    requires w.Length == 64 && pos + 64 <= p.Length && Separate(p, w)
    modifies w
    ensures forall t :: 0 <= t < 16 ==> w[t] == W(p[pos..pos + 64], t)
  {
    hide WordOf, Gamma0, Gamma1, Mod;
    ghost var block := p[pos..pos + 64];
    for i := 0 to 16
      invariant forall t :: 0 <= t < i ==> w[t] == W(block, t)
    {
      var j := pos + i * 4;
      w[i] := WordOf(p[j], p[j + 1], p[j + 2], p[j + 3]);
      assert block[4 * i] == p[j] && block[4 * i + 1] == p[j + 1];
      assert block[4 * i + 2] == p[j + 2] && block[4 * i + 3] == p[j + 3];
    }
  }

  method Extend(w: array<Word>, ghost block: Bytes)
    requires w.Length == 64 && |block| == 64 && forall t :: 0 <= t < 16 ==> w[t] == W(block, t)
    modifies w
    ensures forall t :: 0 <= t < 64 ==> w[t] == W(block, t)
  {
    hide Xor, Rotr, Shr, Mod;
    for i := 16 to 64
      invariant forall t :: 0 <= t < i ==> w[t] == W(block, t)
    {
      var u := w[i - 2];
      var t1 := Xor(Xor(Rotr(u, 17), Rotr(u, 19)), Shr(u, 10));
      u := w[i - 15];
      var t2 := Xor(Xor(Rotr(u, 7), Rotr(u, 18)), Shr(u, 3));
      AddFour(t1, w[i - 7], t2, w[i - 16]);
      w[i] := Add(Add(t1, w[i - 7]), Add(t2, w[i - 16]));
    }
  }

  /** One round with every sum reduced. */
  lemma ReducedRound(s: Digest, k: Word, w: Word)
    ensures var t1 := Add(Add(Sigma1(s[4]), Ch(s[4], s[5], s[6])), Add(s[7], Add(k, w)));
            var t2 := Add(Sigma0(s[0]), Maj(s[0], s[1], s[2]));
            Round(s, k, w) == [Add(t1, t2), s[0], s[1], s[2], Add(s[3], t1), s[4], s[5], s[6]]
  {
    hide Sigma0, Sigma1, Ch, Maj, Mod;
    AddFive(Sigma1(s[4]), Ch(s[4], s[5], s[6]), s[7], k, w);
    ModOfSum(T1(s, k, w), Mod(T2(s)));
    ModOfSum(T2(s), T1(s, k, w));
    ModOfSum(T1(s, k, w), s[3]);
  }

  /** The 64 rounds over the eight working variables. */
  method RunRounds(w: array<Word>, v: array<Word>, ghost block: Bytes) returns (s: Digest)
    requires w.Length == 64 && v.Length == 8 && |block| == 64 && forall t :: 0 <= t < 64 ==> w[t] == W(block, t)
    ensures s == Rounds(v[..], block, 64)
  {
    hide Xor, And, Not, Rotr, Mod, Round;
    var a, b, c, d := v[0], v[1], v[2], v[3];
    var e, f, g, h := v[4], v[5], v[6], v[7];
    for i := 0 to 64
      invariant [a, b, c, d, e, f, g, h] == Rounds(v[..], block, i)
    {
      ReducedRound([a, b, c, d, e, f, g, h], RoundConstant(i), w[i]);
      var t1 := Add(Add(Xor(Xor(Rotr(e, 6), Rotr(e, 11)), Rotr(e, 25)), Xor(And(e, f), And(Not(e), g))),
                    Add(h, Add(RoundConstant(i), w[i])));
      var t2 := Add(Xor(Xor(Rotr(a, 2), Rotr(a, 13)), Rotr(a, 22)), Xor(Xor(And(a, b), And(a, c)), And(b, c)));
      h := g;
      g := f;
      f := e;
      e := Add(d, t1);
      d := c;
      c := b;
      b := a;
      a := Add(t1, t2);
    }
    s := [a, b, c, d, e, f, g, h];
  }

  method AddInto(v: array<Word>, s: Digest)
    requires v.Length == 8
    modifies v
    ensures v[..] == AddDigests(old(v[..]), s)
  {
    for i := 0 to 8
      invariant forall j :: 0 <= j < i ==> v[j] == Mod(old(v[j]) as int + s[j] as int)
      invariant forall j :: i <= j < 8 ==> v[j] == old(v[j])
    {
      v[i] := Add(v[i], s[i]);
    }
  }

  /** `blocks`: all whole blocks of the range are folded into the state. */
  method Blocks(w: array<Word>, v: array<Word>, p: array<bv8>, start: nat, length: nat) returns (pos: nat)
    requires w.Length == 64 && v.Length == 8 && w != v && start + length <= p.Length && Separate(p, w) && Separate(p, v)
    modifies w, v
    ensures start <= pos <= start + length && pos == start + length / 64 * 64
    ensures v[..] == Fold(old(v[..]), p[start..pos])
  {
    hide Fold, Compress;
    pos := start;
    var len := length;
    assert p[start..pos] == [];
    FoldNothing(v[..]);
    while len >= 64
      invariant pos + len == start + length && (pos - start) % 64 == 0 && start <= pos && 0 <= len
      invariant v[..] == Fold(old(v[..]), p[start..pos])
    {
      OneBlock(w, v, p, pos);
      FoldBlock(old(v[..]), p[start..pos], p[pos..pos + 64]);
      assert p[start..pos] + p[pos..pos + 64] == p[start..pos + 64];
      pos := pos + 64;
      len := len - 64;
    }
  }

  lemma FoldNothing(v: Digest)
    ensures Fold(v, []) == v
  {
  }

  method OneBlock(w: array<Word>, v: array<Word>, p: array<bv8>, pos: nat)
    requires w.Length == 64 && v.Length == 8 && w != v && pos + 64 <= p.Length && Separate(p, w) && Separate(p, v)
    modifies w, v
    ensures v[..] == Compress(old(v[..]), p[pos..pos + 64])
  {
    hide W, Rounds, AddDigests;
    Load(w, p, pos);
    Extend(w, p[pos..pos + 64]);
    var s := RunRounds(w, v, p[pos..pos + 64]);
    AddInto(v, s);
  }

  // --- the hash object ---

  lemma BitsHigh(n: nat)
    ensures 8 * n / TWO32 == n / 0x2000_0000
  {
  }

  /** What the state and the buffer must be for a message, whatever way it came in. */
  ghost predicate Absorbed(v: seq<Word>, buffered: Bytes, fed: Bytes) {
    && |v| == 8 && |buffered| <= |fed| && (|fed| - |buffered|) % 64 == 0
    && v == Fold(H0, fed[..|fed| - |buffered|])
    && buffered == fed[|fed| - |buffered|..]
  }

  lemma AbsorbByte(v: seq<Word>, buffered: Bytes, fed: Bytes, b: bv8)
    requires Absorbed(v, buffered, fed)
    ensures Absorbed(v, buffered + [b], fed + [b])
  {
    hide Fold;
    assert (fed + [b])[..|fed| - |buffered|] == fed[..|fed| - |buffered|];
  }

  lemma AbsorbedEmpty(v: seq<Word>, fed: Bytes)
    ensures Absorbed(v, [], fed) <==> |v| == 8 && |fed| % 64 == 0 && v == Fold(H0, fed)
  {
    hide Fold;
    assert fed[..|fed|] == fed;
  }

  /** Folding blocks that come after what has been absorbed with an empty buffer. */
  lemma AbsorbBlocks(v: seq<Word>, fed: Bytes, blocks: Bytes)
    requires Absorbed(v, [], fed) && |blocks| % 64 == 0
    ensures Absorbed(Fold(v, blocks), [], fed + blocks)
  {
    hide Fold, Absorbed;
    AbsorbedEmpty(v, fed);
    FoldConcat(H0, fed, blocks);
    AbsorbedEmpty(Fold(v, blocks), fed + blocks);
  }

  lemma AbsorbBuffer(v: seq<Word>, buffered: Bytes, fed: Bytes)
    requires Absorbed(v, buffered, fed) && |buffered| % 64 == 0
    ensures Absorbed(Fold(v, buffered), [], fed)
  {
    hide Fold;
    var done := |fed| - |buffered|;
    FoldConcat(H0, fed[..done], buffered);
    assert fed[..done] + buffered == fed;
    AbsorbedEmpty(Fold(v, buffered), fed);
  }

  class Sha256 {
    const v: array<Word>
    const w: array<Word>
    const buf: array<bv8>
    var buflen: nat
    var len: nat
    /** All the bytes fed since the last reset. */
    ghost var message: Bytes

    ghost predicate Shape() {
      && v.Length == 8 && w.Length == 64 && buf.Length == 128 && v != w
      && Separate(buf, w) && Separate(buf, v)
    }

    ghost predicate Valid()
      reads this, v, buf
    {
      && Shape() && len == |message| && buflen < 64
      && Absorbed(v[..], buf[..buflen], message)
    }

    /** An array that may be given to this object. */
    ghost predicate Outside(m: array<bv8>) { m != buf && Separate(m, w) && Separate(m, v) }

    constructor ()
      ensures Valid() && message == [] && fresh(v) && fresh(w) && fresh(buf)
    {
      v := new Word[8](_ => 0);
      w := new Word[64](_ => 0);
      buf := new bv8[128](_ => 0);
      buflen := 0;
      len := 0;
      message := [];
      new;
      Reset();
    }

    method Reset()
      requires Shape()
      modifies this, v
      ensures Valid() && message == []
    {
      hide Fold;
      v[0] := 0x6a09e667;
      v[1] := 0xbb67ae85;
      v[2] := 0x3c6ef372;
      v[3] := 0xa54ff53a;
      v[4] := 0x510e527f;
      v[5] := 0x9b05688c;
      v[6] := 0x1f83d9ab;
      v[7] := 0x5be0cd19;
      buflen := 0;
      len := 0;
      message := [];
      assert v[..] == H0;
      FoldNothing(H0);
    }

    method Clean()
      requires Shape()
      modifies this, v, w, buf
      ensures Valid() && message == []
      ensures forall i :: 0 <= i < 128 ==> buf[i] == 0
      ensures forall i :: 0 <= i < 64 ==> w[i] == 0
    {
      for i := 0 to buf.Length
        invariant forall j :: 0 <= j < i ==> buf[j] == 0
      {
        buf[i] := 0;
      }
      for i := 0 to w.Length
        invariant forall j :: 0 <= j < i ==> w[j] == 0
        invariant forall j :: 0 <= j < 128 ==> buf[j] == 0
      {
        w[i] := 0;
      }
      Reset();
    }

    method Store(b: bv8, ghost fed: Bytes)
      requires Shape() && buflen < 64 && Absorbed(v[..], buf[..buflen], fed)
      modifies this`buflen, buf
      ensures buflen == old(buflen) + 1 && Absorbed(v[..], buf[..buflen], fed + [b])
    {
      hide Fold;
      AbsorbByte(v[..], buf[..buflen], fed, b);
      buf[buflen] := b;
      buflen := buflen + 1;
      assert buf[..buflen] == old(buf[..buflen]) + [b];
    }

    /** The first loop of `update`: bytes go to the buffer until it is full or they run out. */
    method FillBuffer(m: array<bv8>, count: nat) returns (mpos: nat)
      requires Shape() && count <= m.Length && Outside(m) && 0 < buflen < 64
      requires Absorbed(v[..], buf[..buflen], message)
      modifies this`buflen, v, w, buf
      ensures mpos <= count && buflen < 64 && (buflen == 0 || mpos == count)
      ensures Absorbed(v[..], buf[..buflen], message + m[..mpos])
    {
      hide Absorbed, Fold;
      mpos := 0;
      assert message + m[..0] == message;
      while buflen < 64 && mpos < count
        invariant mpos <= count && 0 < buflen <= 64 && Absorbed(v[..], buf[..buflen], message + m[..mpos])
      {
        Store(m[mpos], message + m[..mpos]);
        assert message + m[..mpos] + [m[mpos]] == message + m[..mpos + 1];
        mpos := mpos + 1;
      }
      if buflen == 64 {
        AbsorbBuffer(v[..], buf[..64], message + m[..mpos]);
        var _ := Blocks(w, v, buf, 0, 64);
        buflen := 0;
        assert buf[..0] == [];
      }
    }

    /** The whole blocks of the input are folded without going through the buffer. */
    method TakeBlocks(m: array<bv8>, start: nat, length: nat, ghost fed: Bytes) returns (end: nat)
      requires Shape() && start + length <= m.Length && Outside(m) && buflen == 0
      requires Absorbed(v[..], buf[..buflen], fed)
      modifies v, w
      ensures start <= end <= start + length && end == start + length / 64 * 64
      ensures Absorbed(v[..], buf[..buflen], fed + m[start..end])
    {
      hide Absorbed, Fold;
      assert buf[..buflen] == [];
      ghost var before := v[..];
      end := Blocks(w, v, m, start, length);
      AbsorbBlocks(before, fed, m[start..end]);
      assert buf[..buflen] == [] && v[..] == Fold(before, m[start..end]);
    }

    /** The last loop of `update`. */
    method TakeRest(m: array<bv8>, start: nat, length: nat, ghost fed: Bytes)
      requires Shape() && start + length <= m.Length && Outside(m) && buflen + length < 64
      requires Absorbed(v[..], buf[..buflen], fed)
      modifies this`buflen, buf
      ensures buflen == old(buflen) + length && Absorbed(v[..], buf[..buflen], fed + m[start..start + length])
    {
      hide Absorbed, Fold;
      assert fed + m[start..start] == fed;
      for i := 0 to length
        invariant buflen == old(buflen) + i && Absorbed(v[..], buf[..buflen], fed + m[start..start + i])
      {
        Store(m[start + i], fed + m[start..start + i]);
        assert fed + m[start..start + i] + [m[start + i]] == fed + m[start..start + i + 1];
      }
    }

    /** `update`: whatever the split, the message grows by the bytes given. */
    method Update(m: array<bv8>, count: nat)
      requires Valid() && count <= m.Length && Outside(m)
      modifies this, v, w, buf
      ensures Valid() && message == old(message) + m[..count]
    {
      hide Absorbed, Fold;
      var mpos := 0;
      len := len + count;
      assert message + m[..0] == message;
      if buflen > 0 {
        mpos := FillBuffer(m, count);
      }
      var mlen := count - mpos;
      if mlen >= 64 {
        ghost var fed := message + m[..mpos];
        var end := TakeBlocks(m, mpos, mlen, fed);
        assert fed + m[mpos..end] == message + m[..end];
        mpos := end;
        mlen := mlen % 64;
      }
      TakeRest(m, mpos, mlen, message + m[..mpos]);
      assert message + m[..mpos] + m[mpos..mpos + mlen] == message + m[..count];
      message := message + m[..count];
    }

    /** The eight bytes of the length, from the two words the program computes. */
    method PutLength(at: nat)
      requires Shape() && at + 8 <= 128
      modifies buf
      ensures buf[..] == old(buf[..at]) + LengthBytes(len) + old(buf[at + 8..])
    {
      hide Fold, WordBytes, Mod;
      BitsHigh(len);
      var bhi, blo := Mod(len / 0x2000_0000), Mod(8 * len);
      PutWord(buf, at, bhi);
      PutWord(buf, at + 4, blo);
    }

    /** The padding, behind the buffered bytes. */
    method PadBuffer() returns (padlen: nat)
      requires Shape() && buflen == len % 64
      modifies buf
      ensures padlen <= 128 && buf[..padlen] == old(buf[..buflen]) + Padding(len)
    {
      hide LengthBytes, ZeroCount;
      var mlen, left := len, buflen;
      padlen := if mlen % 64 < 56 then 64 else 128;
      PaddingFits(mlen, left, padlen);
      buf[left] := 0x80;
      ClearTo(left + 1, padlen - 8);
      PutLength(padlen - 8);
    }

    /** `finish`: the hash of the message, in the first 32 bytes of the array given. */
    method Finish(h: array<bv8>)
      requires Valid() && h.Length >= 32 && Outside(h)
      modifies v, w, buf, h
      ensures h[..] == Hash(message) + old(h[32..])
    {
      hide Absorbed, Padding, Hash, Fold, DigestBytes;
      AbsorbedLength(v[..], buf[..buflen], message);
      ghost var buffered := buf[..buflen];
      AbsorbPadding(v[..], buffered, message);
      var padlen := PadBuffer();
      var _ := Blocks(w, v, buf, 0, padlen);
      PutDigest(h);
    }

    method ClearTo(start: nat, end: nat)
      requires Shape() && start <= end <= 128
      modifies buf
      ensures buf[..] == old(buf[..start]) + Zeros(end - start) + old(buf[end..])
    {
      for i := start to end
        invariant buf[..] == old(buf[..start]) + Zeros(i - start) + old(buf[i..])
      {
        buf[i] := 0;
      }
    }

    method PutDigest(h: array<bv8>)
      requires Shape() && h.Length >= 32 && Outside(h)
      modifies h
      ensures h[..] == DigestBytes(v[..]) + old(h[32..])
    {
      hide Fold, DigestBytes, WordBytes;
      for i := 0 to 8
        invariant h[..] == DigestBytes(v[..])[..4 * i] + old(h[4 * i..])
      {
        PutWord(h, 4 * i, v[i]);
        DigestPart(v[..], i);
      }
    }
  }

  /** The four bytes of a word, highest first. */
  method PutWord(h: array<bv8>, at: nat, x: Word)
    requires at + 4 <= h.Length
    modifies h
    ensures h[..] == old(h[..at]) + WordBytes(x) + old(h[at + 4..])
  {
    h[at] := ByteOf(x, 3);
    h[at + 1] := ByteOf(x, 2);
    h[at + 2] := ByteOf(x, 1);
    h[at + 3] := ByteOf(x, 0);
  }

  lemma DigestPart(v: Digest, i: nat)
    requires i < 8
    ensures DigestBytes(v)[..4 * i] + WordBytes(v[i]) == DigestBytes(v)[..4 * i + 4]
  {
    hide WordBytes;
  }

  lemma AbsorbedLength(v: seq<Word>, buffered: Bytes, fed: Bytes)
    requires Absorbed(v, buffered, fed) && |buffered| < 64
    ensures |buffered| == |fed| % 64
  {
    hide Fold;
  }

  lemma PaddingFits(n: nat, left: nat, padlen: nat)
    requires left == n % 64 && padlen == if n % 64 < 56 then 64 else 128
    ensures ZeroCount(n) == padlen - 9 - left
  {
  }

  /** Folding the blocks gives the hash of the message. */
  ghost predicate EndsIn(v: Digest, blocks: Bytes, m: Bytes) {
    |blocks| % 64 == 0 && DigestBytes(Fold(v, blocks)) == Hash(m)
  }

  lemma EvenEnd(n: nat, k: nat, z: nat)
    requires k <= n && (n - k) % 64 == 0 && (n + z) % 64 == 0
    ensures (k + z) % 64 == 0
  {
  }

  /** Padding the buffered tail and folding it ends the hash of the message. */
  lemma AbsorbPadding(v: Digest, buffered: Bytes, m: Bytes)
    requires Absorbed(v, buffered, m) && |buffered| < 64
    ensures EndsIn(v, buffered + Padding(|m|), m)
  {
    hide Fold, DigestBytes, ZeroCount;
    var done := |m| - |buffered|;
    PaddingIsStandard(|m|, 0);
    EvenEnd(|m|, |buffered|, 9 + ZeroCount(|m|));
    FoldConcat(H0, m[..done], buffered + Padding(|m|));
    assert m[..done] + (buffered + Padding(|m|)) == Padded(m);
  }

  /** `sha256(m)` */
  method Sha256Of(m: array<bv8>) returns (h: array<bv8>)
    ensures fresh(h) && h[..] == Hash(m[..])
  {
    hide Fold, Hash, Absorbed, DigestBytes;
    h := new bv8[32](_ => 0);
    var sha := new Sha256();
    sha.Update(m, m.Length);
    assert sha.message == m[..];
    sha.Finish(h);
    assert h[..] == Hash(m[..]);
    sha.Clean();
  }
}
