/**
 The standard's own example: the hash of the three bytes "abc", computed round by round from the
 definitions of `Sha256Standard`.  Every rotation, index and constant there has a part in it.
 */
module Sha256Example {
  import opened Sha256Standard

  // --- words given by their bits ---

  lemma BitsOfValue(b: bv32)
    ensures Bits(Value(b)) == b
  {
  }

  lemma XorOf(a: bv32, b: bv32)
    ensures Xor(Value(a), Value(b)) == Value(XorBits(a, b))
  {
    hide Value, Bits, XorBits;
    BitsOfValue(a);
    BitsOfValue(b);
  }

  lemma AndOf(a: bv32, b: bv32)
    ensures And(Value(a), Value(b)) == Value(AndBits(a, b))
  {
    hide Value, Bits, AndBits;
    BitsOfValue(a);
    BitsOfValue(b);
  }

  lemma NotOf(a: bv32)
    ensures Not(Value(a)) == Value(NotBits(a))
  {
    hide Value, Bits, NotBits;
    BitsOfValue(a);
  }

  lemma RotrOf(b: bv32, n: bv32)
    requires 0 < n < 32
    ensures Rotr(Value(b), n) == Value(Turned(b, n))
  {
    hide Value, Bits, Turned;
    BitsOfValue(b);
  }

  lemma ShrOf(b: bv32, n: bv32)
    requires 0 < n < 32
    ensures Shr(Value(b), n) == Value(Dropped(b, n))
  {
    hide Value, Bits, Dropped;
    BitsOfValue(b);
  }

  function Three(a: bv32, b: bv32, c: bv32): bv32 { XorBits(XorBits(a, b), c) }

  lemma ThreeOf(a: bv32, b: bv32, c: bv32)
    ensures Xor(Xor(Value(a), Value(b)), Value(c)) == Value(Three(a, b, c))
  {
    hide Value, Xor, XorBits;
    XorOf(a, b);
    XorOf(XorBits(a, b), c);
  }

  function Big0(b: bv32): bv32 { Three(Turned(b, 2), Turned(b, 13), Turned(b, 22)) }

  lemma Sigma0Of(b: bv32)
    ensures Sigma0(Value(b)) == Value(Big0(b))
  {
    hide Value, Xor, Rotr, Shr, Turned, Dropped, Three;
    RotrOf(b, 2);
    RotrOf(b, 13);
    RotrOf(b, 22);
    ThreeOf(Turned(b, 2), Turned(b, 13), Turned(b, 22));
  }

  function Big1(b: bv32): bv32 { Three(Turned(b, 6), Turned(b, 11), Turned(b, 25)) }

  lemma Sigma1Of(b: bv32)
    ensures Sigma1(Value(b)) == Value(Big1(b))
  {
    hide Value, Xor, Rotr, Shr, Turned, Dropped, Three;
    RotrOf(b, 6);
    RotrOf(b, 11);
    RotrOf(b, 25);
    ThreeOf(Turned(b, 6), Turned(b, 11), Turned(b, 25));
  }

  function Small0(b: bv32): bv32 { Three(Turned(b, 7), Turned(b, 18), Dropped(b, 3)) }

  lemma Gamma0Of(b: bv32)
    ensures Gamma0(Value(b)) == Value(Small0(b))
  {
    hide Value, Xor, Rotr, Shr, Turned, Dropped, Three;
    RotrOf(b, 7);
    RotrOf(b, 18);
    ShrOf(b, 3);
    ThreeOf(Turned(b, 7), Turned(b, 18), Dropped(b, 3));
  }

  function Small1(b: bv32): bv32 { Three(Turned(b, 17), Turned(b, 19), Dropped(b, 10)) }

  lemma Gamma1Of(b: bv32)
    ensures Gamma1(Value(b)) == Value(Small1(b))
  {
    hide Value, Xor, Rotr, Shr, Turned, Dropped, Three;
    RotrOf(b, 17);
    RotrOf(b, 19);
    ShrOf(b, 10);
    ThreeOf(Turned(b, 17), Turned(b, 19), Dropped(b, 10));
  }

  /** Each bit of the first word chooses between the others. */
  function Choice(a: bv32, b: bv32, c: bv32): bv32 { XorBits(AndBits(a, b), AndBits(NotBits(a), c)) }

  lemma ChOf(a: bv32, b: bv32, c: bv32)
    ensures Ch(Value(a), Value(b), Value(c)) == Value(Choice(a, b, c))
  {
    hide Value, Xor, And, Not, XorBits, AndBits, NotBits;
    AndOf(a, b);
    NotOf(a);
    AndOf(NotBits(a), c);
    XorOf(AndBits(a, b), AndBits(NotBits(a), c));
  }

  /** Each bit is that of the majority. */
  function Majority(a: bv32, b: bv32, c: bv32): bv32 { Three(AndBits(a, b), AndBits(a, c), AndBits(b, c)) }

  lemma MajOf(a: bv32, b: bv32, c: bv32)
    ensures Maj(Value(a), Value(b), Value(c)) == Value(Majority(a, b, c))
  {
    hide Value, Xor, And, XorBits, AndBits, Three;
    AndOf(a, b);
    AndOf(a, c);
    AndOf(b, c);
    ThreeOf(AndBits(a, b), AndBits(a, c), AndBits(b, c));
  }

  // --- the schedule and the rounds ---

  const ABC: Bytes := [0x61, 0x62, 0x63]

  function Block(): (block: Bytes)
    ensures |block| == 64
  {
    Padded(ABC)
  }

  /** Word `t` of the schedule. */
  predicate IsWord(t: nat, w: bv32) { t < 64 && W(Block(), t) == Value(w) }

  /** The working variables after `t` rounds. */
  predicate After(t: nat, a: bv32, b: bv32, c: bv32, d: bv32, e: bv32, f: bv32, g: bv32, h: bv32) {
    t <= 64 && Rounds(H0, Block(), t)
               == [Value(a), Value(b), Value(c), Value(d), Value(e), Value(f), Value(g), Value(h)]
  }

  lemma Next(t: nat, a: bv32, b: bv32, c: bv32, d: bv32, w: bv32)
    requires 16 <= t < 64 && IsWord(t - 16, a) && IsWord(t - 15, b) && IsWord(t - 7, c) && IsWord(t - 2, d)
    requires Sums(a, b, c, d, w)
    ensures IsWord(t, w)
  {
    hide Value, Gamma0, Gamma1, Small0, Small1, Block, Mod;
    Gamma0Of(b);
    Gamma1Of(d);
  }

  predicate Sums(a: bv32, b: bv32, c: bv32, d: bv32, w: bv32) {
    Value(w) == Mod(Value(Small1(d)) + Value(c) + Value(Small0(b)) + Value(a))
  }

  /** Four words of the schedule, from word `t` on. */
  predicate Four(t: nat, a: bv32, b: bv32, c: bv32, d: bv32) {
    IsWord(t, a) && IsWord(t + 1, b) && IsWord(t + 2, c) && IsWord(t + 3, d)
  }

  /** The next four words from the sixteen before them. */
  lemma NextFour(t: nat, a0: bv32, a1: bv32, a2: bv32, a3: bv32, b0: bv32, b1: bv32, b2: bv32, b3: bv32,
                 c0: bv32, c1: bv32, c2: bv32, c3: bv32, d0: bv32, d1: bv32, d2: bv32, d3: bv32,
                 e0: bv32, e1: bv32, e2: bv32, e3: bv32)
    requires t + 19 < 64 && Four(t, a0, a1, a2, a3) && Four(t + 4, b0, b1, b2, b3)
    requires Four(t + 8, c0, c1, c2, c3) && Four(t + 12, d0, d1, d2, d3)
    requires Sums(a0, a1, c1, d2, e0) && Sums(a1, a2, c2, d3, e1)
    requires Sums(a2, a3, c3, e0, e2) && Sums(a3, b0, d0, e1, e3)
    ensures Four(t + 16, e0, e1, e2, e3)
  {
    hide IsWord, Sums;
    Next(t + 16, a0, a1, c1, d2, e0);
    Next(t + 17, a1, a2, c2, d3, e1);
    Next(t + 18, a2, a3, c3, e0, e2);
    Next(t + 19, a3, b0, d0, e1, e3);
  }

  lemma Step(t: nat, a: bv32, b: bv32, c: bv32, d: bv32, e: bv32, f: bv32, g: bv32, h: bv32,
             w: bv32, x: bv32, y: bv32)
    requires t < 64 && IsWord(t, w) && After(t, a, b, c, d, e, f, g, h)
    requires var t1 := Value(h) + Value(Big1(e)) + Value(Choice(e, f, g)) + RoundConstant(t) + Value(w);
             Value(x) == Mod(t1 + Value(Big0(a)) + Value(Majority(a, b, c))) && Value(y) == Mod(Value(d) + t1)
    ensures After(t + 1, x, a, b, c, y, e, f, g)
  {
    hide Value, Sigma0, Sigma1, Ch, Maj, Big0, Big1, Choice, Majority, Block, Mod, W, RoundConstant;
    Sigma0Of(a);
    Sigma1Of(e);
    ChOf(e, f, g);
    MajOf(a, b, c);
  }

  /** The bytes of a word given by them. */
  lemma BytesOfWord(x: Word, a: int, b: int, c: int, d: int)
    requires 0 <= a < 0x100 && 0 <= b < 0x100 && 0 <= c < 0x100 && 0 <= d < 0x100
    requires x == a * 0x100_0000 + b * 0x1_0000 + c * 0x100 + d
    ensures WordBytes(x) == [a as bv8, b as bv8, c as bv8, d as bv8]
  {
    Positions(a, b, c, d);
    assert Power256(0) == 1 && Power256(1) == 0x100 && Power256(2) == 0x1_0000 && Power256(3) == 0x100_0000;
  }

  lemma Positions(a: int, b: int, c: int, d: int)
    requires 0 <= a < 0x100 && 0 <= b < 0x100 && 0 <= c < 0x100 && 0 <= d < 0x100
    ensures var x := a * 0x100_0000 + b * 0x1_0000 + c * 0x100 + d;
            && x / 0x100_0000 % 0x100 == a && x / 0x1_0000 % 0x100 == b
            && x / 0x100 % 0x100 == c && x / 1 % 0x100 == d
  {
    var x := a * 0x100_0000 + b * 0x1_0000 + c * 0x100 + d;
    assert x / 0x100_0000 == a;
    assert x / 0x1_0000 == a * 0x100 + b;
    assert x / 0x100 == a * 0x1_0000 + b * 0x100 + c;
  }

  /** A byte is the byte of its number. */
  lemma ByteOfNumber(b: bv8)
    ensures (b as int) as bv8 == b
  {
  }

  lemma BytesOf(a: bv8, b: bv8, c: bv8, d: bv8, x: Word)
    requires x == WordOf(a, b, c, d)
    ensures WordBytes(x) == [a, b, c, d]
  {
    hide WordBytes;
    BytesOfWord(x, a as int, b as int, c as int, d as int);
    ByteOfNumber(a);
    ByteOfNumber(b);
    ByteOfNumber(c);
    ByteOfNumber(d);
  }

  lemma BlockIs()
    ensures Block() == ABC + [0x80] + Zeros(52) + [0, 0, 0, 0, 0, 0, 0, 24]
  {
    hide WordBytes;
    BytesOf(0, 0, 0, 0, 0);
    BytesOf(0, 0, 0, 24, 24);
  }

  lemma FirstWords()
    ensures Four(0, 0x61626380, 0, 0, 0) && Four(4, 0, 0, 0, 0) && Four(8, 0, 0, 0, 0) && Four(12, 0, 0, 0, 24)
  {
    hide Block, Zeros;
    BlockIs();
    var block := Block();
    assert block[60..] == [0, 0, 0, 24];
    forall t | 1 <= t < 15
      ensures IsWord(t, 0)
    {
      assert forall i :: 4 <= i < 60 ==> block[i] == 0;
      assert WordAt(block, 4 * t) == 0;
    }
  }

  lemma Words16()
    ensures Four(16, 0x61626380, 0x000f0000, 0x7da86405, 0x600003c6)
  {
    hide Four;
    FirstWords();
    NextFour(0, 0x61626380, 0x00000000, 0x00000000, 0x00000000, 0x00000000, 0x00000000, 0x00000000, 0x00000000,
             0x00000000, 0x00000000, 0x00000000, 0x00000000, 0x00000000, 0x00000000, 0x00000000, 0x00000018,
             0x61626380, 0x000f0000, 0x7da86405, 0x600003c6);
  }

  lemma Words20()
    ensures Four(20, 0x3e9d7b78, 0x0183fc00, 0x12dcbfdb, 0xe2e2c38e)
  {
    hide Four;
    Words16();
    FirstWords();
    NextFour(4, 0x00000000, 0x00000000, 0x00000000, 0x00000000, 0x00000000, 0x00000000, 0x00000000, 0x00000000,
             0x00000000, 0x00000000, 0x00000000, 0x00000018, 0x61626380, 0x000f0000, 0x7da86405, 0x600003c6,
             0x3e9d7b78, 0x0183fc00, 0x12dcbfdb, 0xe2e2c38e);
  }

  lemma Words24()
    ensures Four(24, 0xc8215c1a, 0xb73679a2, 0xe5bc3909, 0x32663c5b)
  {
    hide Four;
    Words16();
    Words20();
    FirstWords();
    NextFour(8, 0x00000000, 0x00000000, 0x00000000, 0x00000000, 0x00000000, 0x00000000, 0x00000000, 0x00000018,
             0x61626380, 0x000f0000, 0x7da86405, 0x600003c6, 0x3e9d7b78, 0x0183fc00, 0x12dcbfdb, 0xe2e2c38e,
             0xc8215c1a, 0xb73679a2, 0xe5bc3909, 0x32663c5b);
  }

  lemma Words28()
    ensures Four(28, 0x9d209d67, 0xec8726cb, 0x702138a4, 0xd3b7973b)
  {
    hide Four;
    Words16();
    Words20();
    Words24();
    FirstWords();
    NextFour(12, 0x00000000, 0x00000000, 0x00000000, 0x00000018, 0x61626380, 0x000f0000, 0x7da86405, 0x600003c6,
             0x3e9d7b78, 0x0183fc00, 0x12dcbfdb, 0xe2e2c38e, 0xc8215c1a, 0xb73679a2, 0xe5bc3909, 0x32663c5b,
             0x9d209d67, 0xec8726cb, 0x702138a4, 0xd3b7973b);
  }

  lemma Words32()
    ensures Four(32, 0x93f5997f, 0x3b68ba73, 0xaff4ffc1, 0xf10a5c62)
  {
    hide Four;
    Words16();
    Words20();
    Words24();
    Words28();
    NextFour(16, 0x61626380, 0x000f0000, 0x7da86405, 0x600003c6, 0x3e9d7b78, 0x0183fc00, 0x12dcbfdb, 0xe2e2c38e,
             0xc8215c1a, 0xb73679a2, 0xe5bc3909, 0x32663c5b, 0x9d209d67, 0xec8726cb, 0x702138a4, 0xd3b7973b,
             0x93f5997f, 0x3b68ba73, 0xaff4ffc1, 0xf10a5c62);
  }

  lemma Words36()
    ensures Four(36, 0x0a8b3996, 0x72af830a, 0x9409e33e, 0x24641522)
  {
    hide Four;
    Words20();
    Words24();
    Words28();
    Words32();
    NextFour(20, 0x3e9d7b78, 0x0183fc00, 0x12dcbfdb, 0xe2e2c38e, 0xc8215c1a, 0xb73679a2, 0xe5bc3909, 0x32663c5b,
             0x9d209d67, 0xec8726cb, 0x702138a4, 0xd3b7973b, 0x93f5997f, 0x3b68ba73, 0xaff4ffc1, 0xf10a5c62,
             0x0a8b3996, 0x72af830a, 0x9409e33e, 0x24641522);
  }

  lemma Words40()
    ensures Four(40, 0x9f47bf94, 0xf0a64f5a, 0x3e246a79, 0x27333ba3)
  {
    hide Four;
    Words24();
    Words28();
    Words32();
    Words36();
    NextFour(24, 0xc8215c1a, 0xb73679a2, 0xe5bc3909, 0x32663c5b, 0x9d209d67, 0xec8726cb, 0x702138a4, 0xd3b7973b,
             0x93f5997f, 0x3b68ba73, 0xaff4ffc1, 0xf10a5c62, 0x0a8b3996, 0x72af830a, 0x9409e33e, 0x24641522,
             0x9f47bf94, 0xf0a64f5a, 0x3e246a79, 0x27333ba3);
  }

  lemma Words44()
    ensures Four(44, 0x0c4763f2, 0x840abf27, 0x7a290d5d, 0x065c43da)
  {
    hide Four;
    Words28();
    Words32();
    Words36();
    Words40();
    NextFour(28, 0x9d209d67, 0xec8726cb, 0x702138a4, 0xd3b7973b, 0x93f5997f, 0x3b68ba73, 0xaff4ffc1, 0xf10a5c62,
             0x0a8b3996, 0x72af830a, 0x9409e33e, 0x24641522, 0x9f47bf94, 0xf0a64f5a, 0x3e246a79, 0x27333ba3,
             0x0c4763f2, 0x840abf27, 0x7a290d5d, 0x065c43da);
  }

  lemma Words48()
    ensures Four(48, 0xfb3e89cb, 0xcc7617db, 0xb9e66c34, 0xa9993667)
  {
    hide Four;
    Words32();
    Words36();
    Words40();
    Words44();
    NextFour(32, 0x93f5997f, 0x3b68ba73, 0xaff4ffc1, 0xf10a5c62, 0x0a8b3996, 0x72af830a, 0x9409e33e, 0x24641522,
             0x9f47bf94, 0xf0a64f5a, 0x3e246a79, 0x27333ba3, 0x0c4763f2, 0x840abf27, 0x7a290d5d, 0x065c43da,
             0xfb3e89cb, 0xcc7617db, 0xb9e66c34, 0xa9993667);
  }

  lemma Words52()
    ensures Four(52, 0x84badedd, 0xc21462bc, 0x1487472c, 0xb20f7a99)
  {
    hide Four;
    Words36();
    Words40();
    Words44();
    Words48();
    NextFour(36, 0x0a8b3996, 0x72af830a, 0x9409e33e, 0x24641522, 0x9f47bf94, 0xf0a64f5a, 0x3e246a79, 0x27333ba3,
             0x0c4763f2, 0x840abf27, 0x7a290d5d, 0x065c43da, 0xfb3e89cb, 0xcc7617db, 0xb9e66c34, 0xa9993667,
             0x84badedd, 0xc21462bc, 0x1487472c, 0xb20f7a99);
  }

  lemma Words56()
    ensures Four(56, 0xef57b9cd, 0xebe6b238, 0x9fe3095e, 0x78bc8d4b)
  {
    hide Four;
    Words40();
    Words44();
    Words48();
    Words52();
    NextFour(40, 0x9f47bf94, 0xf0a64f5a, 0x3e246a79, 0x27333ba3, 0x0c4763f2, 0x840abf27, 0x7a290d5d, 0x065c43da,
             0xfb3e89cb, 0xcc7617db, 0xb9e66c34, 0xa9993667, 0x84badedd, 0xc21462bc, 0x1487472c, 0xb20f7a99,
             0xef57b9cd, 0xebe6b238, 0x9fe3095e, 0x78bc8d4b);
  }

  lemma Words60()
    ensures Four(60, 0xa43fcf15, 0x668b2ff8, 0xeeaba2cc, 0x12b1edeb)
  {
    hide Four;
    Words44();
    Words48();
    Words52();
    Words56();
    NextFour(44, 0x0c4763f2, 0x840abf27, 0x7a290d5d, 0x065c43da, 0xfb3e89cb, 0xcc7617db, 0xb9e66c34, 0xa9993667,
             0x84badedd, 0xc21462bc, 0x1487472c, 0xb20f7a99, 0xef57b9cd, 0xebe6b238, 0x9fe3095e, 0x78bc8d4b,
             0xa43fcf15, 0x668b2ff8, 0xeeaba2cc, 0x12b1edeb);
  }

  lemma Begin()
    ensures After(0, 0x6a09e667, 0xbb67ae85, 0x3c6ef372, 0xa54ff53a,
                  0x510e527f, 0x9b05688c, 0x1f83d9ab, 0x5be0cd19)
  {
  }

  lemma Rounds1To8()
    ensures After(8, 0x85a07b5f, 0xe5030380, 0x2b4209f5, 0x04409a6a,
                  0x0c657a79, 0x9b27a401, 0x714260ad, 0x43ada245)
  {
    hide W, Block, IsWord, After, RoundConstant, Rounds;
    Constants0();
    FirstWords();
    Begin();
    Step(0, 0x6a09e667, 0xbb67ae85, 0x3c6ef372, 0xa54ff53a,
         0x510e527f, 0x9b05688c, 0x1f83d9ab, 0x5be0cd19, 0x61626380, 0x5d6aebcd, 0xfa2a4622);
    Step(1, 0x5d6aebcd, 0x6a09e667, 0xbb67ae85, 0x3c6ef372,
         0xfa2a4622, 0x510e527f, 0x9b05688c, 0x1f83d9ab, 0x00000000, 0x5a6ad9ad, 0x78ce7989);
    Step(2, 0x5a6ad9ad, 0x5d6aebcd, 0x6a09e667, 0xbb67ae85,
         0x78ce7989, 0xfa2a4622, 0x510e527f, 0x9b05688c, 0x00000000, 0xc8c347a7, 0xf92939eb);
    Step(3, 0xc8c347a7, 0x5a6ad9ad, 0x5d6aebcd, 0x6a09e667,
         0xf92939eb, 0x78ce7989, 0xfa2a4622, 0x510e527f, 0x00000000, 0xd550f666, 0x24e00850);
    Step(4, 0xd550f666, 0xc8c347a7, 0x5a6ad9ad, 0x5d6aebcd,
         0x24e00850, 0xf92939eb, 0x78ce7989, 0xfa2a4622, 0x00000000, 0x04409a6a, 0x43ada245);
    Step(5, 0x04409a6a, 0xd550f666, 0xc8c347a7, 0x5a6ad9ad,
         0x43ada245, 0x24e00850, 0xf92939eb, 0x78ce7989, 0x00000000, 0x2b4209f5, 0x714260ad);
    Step(6, 0x2b4209f5, 0x04409a6a, 0xd550f666, 0xc8c347a7,
         0x714260ad, 0x43ada245, 0x24e00850, 0xf92939eb, 0x00000000, 0xe5030380, 0x9b27a401);
    Step(7, 0xe5030380, 0x2b4209f5, 0x04409a6a, 0xd550f666,
         0x9b27a401, 0x714260ad, 0x43ada245, 0x24e00850, 0x00000000, 0x85a07b5f, 0x0c657a79);
  }

  lemma Constants0()
    ensures RoundConstant(0) == 0x428a2f98 && RoundConstant(1) == 0x71374491
    ensures RoundConstant(2) == 0xb5c0fbcf && RoundConstant(3) == 0xe9b5dba5
    ensures RoundConstant(4) == 0x3956c25b && RoundConstant(5) == 0x59f111f1
    ensures RoundConstant(6) == 0x923f82a4 && RoundConstant(7) == 0xab1c5ed5
  {
  }

  lemma Rounds9To16()
    ensures After(16, 0xb0fa238e, 0xc0645fde, 0xd932eb16, 0x87912990,
                   0x07590dcd, 0x0b92f20c, 0x745a48de, 0x1e578218)
  {
    hide W, Block, IsWord, After, RoundConstant, Rounds;
    Constants1();
    FirstWords();
    Rounds1To8();
    Step(8, 0x85a07b5f, 0xe5030380, 0x2b4209f5, 0x04409a6a,
         0x0c657a79, 0x9b27a401, 0x714260ad, 0x43ada245, 0x00000000, 0x8e04ecb9, 0x32ca2d8c);
    Step(9, 0x8e04ecb9, 0x85a07b5f, 0xe5030380, 0x2b4209f5,
         0x32ca2d8c, 0x0c657a79, 0x9b27a401, 0x714260ad, 0x00000000, 0x8c87346b, 0x1cc92596);
    Step(10, 0x8c87346b, 0x8e04ecb9, 0x85a07b5f, 0xe5030380,
         0x1cc92596, 0x32ca2d8c, 0x0c657a79, 0x9b27a401, 0x00000000, 0x4798a3f4, 0x436b23e8);
    Step(11, 0x4798a3f4, 0x8c87346b, 0x8e04ecb9, 0x85a07b5f,
         0x436b23e8, 0x1cc92596, 0x32ca2d8c, 0x0c657a79, 0x00000000, 0xf71fc5a9, 0x816fd6e9);
    Step(12, 0xf71fc5a9, 0x4798a3f4, 0x8c87346b, 0x8e04ecb9,
         0x816fd6e9, 0x436b23e8, 0x1cc92596, 0x32ca2d8c, 0x00000000, 0x87912990, 0x1e578218);
    Step(13, 0x87912990, 0xf71fc5a9, 0x4798a3f4, 0x8c87346b,
         0x1e578218, 0x816fd6e9, 0x436b23e8, 0x1cc92596, 0x00000000, 0xd932eb16, 0x745a48de);
    Step(14, 0xd932eb16, 0x87912990, 0xf71fc5a9, 0x4798a3f4,
         0x745a48de, 0x1e578218, 0x816fd6e9, 0x436b23e8, 0x00000000, 0xc0645fde, 0x0b92f20c);
    Step(15, 0xc0645fde, 0xd932eb16, 0x87912990, 0xf71fc5a9,
         0x0b92f20c, 0x745a48de, 0x1e578218, 0x816fd6e9, 0x00000018, 0xb0fa238e, 0x07590dcd);
  }

  lemma Constants1()
    ensures RoundConstant(8) == 0xd807aa98 && RoundConstant(9) == 0x12835b01
    ensures RoundConstant(10) == 0x243185be && RoundConstant(11) == 0x550c7dc3
    ensures RoundConstant(12) == 0x72be5d74 && RoundConstant(13) == 0x80deb1fe
    ensures RoundConstant(14) == 0x9bdc06a7 && RoundConstant(15) == 0xc19bf174
  {
  }

  lemma Rounds17To24()
    ensures After(24, 0xc5d53d8d, 0xa7a3623f, 0xc2606d6d, 0x9dc68b63,
                   0xaa47c347, 0x49f5114a, 0xe1257970, 0x8ada8930)
  {
    hide W, Block, IsWord, After, RoundConstant, Rounds;
    Constants2();
    Words16();
    Words20();
    Rounds9To16();
    Step(16, 0xb0fa238e, 0xc0645fde, 0xd932eb16, 0x87912990,
         0x07590dcd, 0x0b92f20c, 0x745a48de, 0x1e578218, 0x61626380, 0x21da9a9b, 0x8034229c);
    Step(17, 0x21da9a9b, 0xb0fa238e, 0xc0645fde, 0xd932eb16,
         0x8034229c, 0x07590dcd, 0x0b92f20c, 0x745a48de, 0x000f0000, 0xc2fbd9d1, 0x846ee454);
    Step(18, 0xc2fbd9d1, 0x21da9a9b, 0xb0fa238e, 0xc0645fde,
         0x846ee454, 0x8034229c, 0x07590dcd, 0x0b92f20c, 0x7da86405, 0xfe777bbf, 0xcc899961);
    Step(19, 0xfe777bbf, 0xc2fbd9d1, 0x21da9a9b, 0xb0fa238e,
         0xcc899961, 0x846ee454, 0x8034229c, 0x07590dcd, 0x600003c6, 0xe1f20c33, 0xb0638179);
    Step(20, 0xe1f20c33, 0xfe777bbf, 0xc2fbd9d1, 0x21da9a9b,
         0xb0638179, 0xcc899961, 0x846ee454, 0x8034229c, 0x3e9d7b78, 0x9dc68b63, 0x8ada8930);
    Step(21, 0x9dc68b63, 0xe1f20c33, 0xfe777bbf, 0xc2fbd9d1,
         0x8ada8930, 0xb0638179, 0xcc899961, 0x846ee454, 0x0183fc00, 0xc2606d6d, 0xe1257970);
    Step(22, 0xc2606d6d, 0x9dc68b63, 0xe1f20c33, 0xfe777bbf,
         0xe1257970, 0x8ada8930, 0xb0638179, 0xcc899961, 0x12dcbfdb, 0xa7a3623f, 0x49f5114a);
    Step(23, 0xa7a3623f, 0xc2606d6d, 0x9dc68b63, 0xe1f20c33,
         0x49f5114a, 0xe1257970, 0x8ada8930, 0xb0638179, 0xe2e2c38e, 0xc5d53d8d, 0xaa47c347);
  }

  lemma Constants2()
    ensures RoundConstant(16) == 0xe49b69c1 && RoundConstant(17) == 0xefbe4786
    ensures RoundConstant(18) == 0x0fc19dc6 && RoundConstant(19) == 0x240ca1cc
    ensures RoundConstant(20) == 0x2de92c6f && RoundConstant(21) == 0x4a7484aa
    ensures RoundConstant(22) == 0x5cb0a9dc && RoundConstant(23) == 0x76f988da
  {
  }

  lemma Rounds25To32()
    ensures After(32, 0x73b33bf5, 0xea992a22, 0xa0060b30, 0x363482c9,
                   0xba591112, 0x0109ab3a, 0xade79437, 0x6112a3b7)
  {
    hide W, Block, IsWord, After, RoundConstant, Rounds;
    Constants3();
    Words24();
    Words28();
    Rounds17To24();
    Step(24, 0xc5d53d8d, 0xa7a3623f, 0xc2606d6d, 0x9dc68b63,
         0xaa47c347, 0x49f5114a, 0xe1257970, 0x8ada8930, 0xc8215c1a, 0x1c2c2838, 0x2823ef91);
    Step(25, 0x1c2c2838, 0xc5d53d8d, 0xa7a3623f, 0xc2606d6d,
         0x2823ef91, 0xaa47c347, 0x49f5114a, 0xe1257970, 0xb73679a2, 0xcde8037d, 0x14383d8e);
    Step(26, 0xcde8037d, 0x1c2c2838, 0xc5d53d8d, 0xa7a3623f,
         0x14383d8e, 0x2823ef91, 0xaa47c347, 0x49f5114a, 0xe5bc3909, 0xb62ec4bc, 0xc74c6516);
    Step(27, 0xb62ec4bc, 0xcde8037d, 0x1c2c2838, 0xc5d53d8d,
         0xc74c6516, 0x14383d8e, 0x2823ef91, 0xaa47c347, 0x32663c5b, 0x77d37528, 0xedffbff8);
    Step(28, 0x77d37528, 0xb62ec4bc, 0xcde8037d, 0x1c2c2838,
         0xedffbff8, 0xc74c6516, 0x14383d8e, 0x2823ef91, 0x9d209d67, 0x363482c9, 0x6112a3b7);
    Step(29, 0x363482c9, 0x77d37528, 0xb62ec4bc, 0xcde8037d,
         0x6112a3b7, 0xedffbff8, 0xc74c6516, 0x14383d8e, 0xec8726cb, 0xa0060b30, 0xade79437);
    Step(30, 0xa0060b30, 0x363482c9, 0x77d37528, 0xb62ec4bc,
         0xade79437, 0x6112a3b7, 0xedffbff8, 0xc74c6516, 0x702138a4, 0xea992a22, 0x0109ab3a);
    Step(31, 0xea992a22, 0xa0060b30, 0x363482c9, 0x77d37528,
         0x0109ab3a, 0xade79437, 0x6112a3b7, 0xedffbff8, 0xd3b7973b, 0x73b33bf5, 0xba591112);
  }

  lemma Constants3()
    ensures RoundConstant(24) == 0x983e5152 && RoundConstant(25) == 0xa831c66d
    ensures RoundConstant(26) == 0xb00327c8 && RoundConstant(27) == 0xbf597fc7
    ensures RoundConstant(28) == 0xc6e00bf3 && RoundConstant(29) == 0xd5a79147
    ensures RoundConstant(30) == 0x06ca6351 && RoundConstant(31) == 0x14292967
  {
  }

  lemma Rounds33To40()
    ensures After(40, 0x79ea687a, 0x6dc57a8a, 0x34df1604, 0x41a65cb1,
                   0x1efbc0a0, 0xf0781bc8, 0xa507a53d, 0x0772a26b)
  {
    hide W, Block, IsWord, After, RoundConstant, Rounds;
    Constants4();
    Words32();
    Words36();
    Rounds25To32();
    Step(32, 0x73b33bf5, 0xea992a22, 0xa0060b30, 0x363482c9,
         0xba591112, 0x0109ab3a, 0xade79437, 0x6112a3b7, 0x93f5997f, 0x98e12507, 0x9cd9f5f6);
    Step(33, 0x98e12507, 0x73b33bf5, 0xea992a22, 0xa0060b30,
         0x9cd9f5f6, 0xba591112, 0x0109ab3a, 0xade79437, 0x3b68ba73, 0xfe604df5, 0x59249dd3);
    Step(34, 0xfe604df5, 0x98e12507, 0x73b33bf5, 0xea992a22,
         0x59249dd3, 0x9cd9f5f6, 0xba591112, 0x0109ab3a, 0xaff4ffc1, 0xa9a7738c, 0x085f3833);
    Step(35, 0xa9a7738c, 0xfe604df5, 0x98e12507, 0x73b33bf5,
         0x085f3833, 0x59249dd3, 0x9cd9f5f6, 0xba591112, 0xf10a5c62, 0x65a0cfe4, 0xf4b002d6);
    Step(36, 0x65a0cfe4, 0xa9a7738c, 0xfe604df5, 0x98e12507,
         0xf4b002d6, 0x085f3833, 0x59249dd3, 0x9cd9f5f6, 0x0a8b3996, 0x41a65cb1, 0x0772a26b);
    Step(37, 0x41a65cb1, 0x65a0cfe4, 0xa9a7738c, 0xfe604df5,
         0x0772a26b, 0xf4b002d6, 0x085f3833, 0x59249dd3, 0x72af830a, 0x34df1604, 0xa507a53d);
    Step(38, 0x34df1604, 0x41a65cb1, 0x65a0cfe4, 0xa9a7738c,
         0xa507a53d, 0x0772a26b, 0xf4b002d6, 0x085f3833, 0x9409e33e, 0x6dc57a8a, 0xf0781bc8);
    Step(39, 0x6dc57a8a, 0x34df1604, 0x41a65cb1, 0x65a0cfe4,
         0xf0781bc8, 0xa507a53d, 0x0772a26b, 0xf4b002d6, 0x24641522, 0x79ea687a, 0x1efbc0a0);
  }

  lemma Constants4()
    ensures RoundConstant(32) == 0x27b70a85 && RoundConstant(33) == 0x2e1b2138
    ensures RoundConstant(34) == 0x4d2c6dfc && RoundConstant(35) == 0x53380d13
    ensures RoundConstant(36) == 0x650a7354 && RoundConstant(37) == 0x766a0abb
    ensures RoundConstant(38) == 0x81c2c92e && RoundConstant(39) == 0x92722c85
  {
  }

  lemma Rounds41To48()
    ensures After(48, 0x4172328d, 0xa14c14b0, 0x72ab4b91, 0x26628815,
                   0xfecf0bc6, 0xd57b94a9, 0xb7755da1, 0xa80f11f0)
  {
    hide W, Block, IsWord, After, RoundConstant, Rounds;
    Constants5();
    Words40();
    Words44();
    Rounds33To40();
    Step(40, 0x79ea687a, 0x6dc57a8a, 0x34df1604, 0x41a65cb1,
         0x1efbc0a0, 0xf0781bc8, 0xa507a53d, 0x0772a26b, 0x9f47bf94, 0xd6670766, 0x26352d63);
    Step(41, 0xd6670766, 0x79ea687a, 0x6dc57a8a, 0x34df1604,
         0x26352d63, 0x1efbc0a0, 0xf0781bc8, 0xa507a53d, 0xf0a64f5a, 0xdf46652f, 0x838b2711);
    Step(42, 0xdf46652f, 0xd6670766, 0x79ea687a, 0x6dc57a8a,
         0x838b2711, 0x26352d63, 0x1efbc0a0, 0xf0781bc8, 0x3e246a79, 0x17aa0dfe, 0xdecd4715);
    Step(43, 0x17aa0dfe, 0xdf46652f, 0xd6670766, 0x79ea687a,
         0xdecd4715, 0x838b2711, 0x26352d63, 0x1efbc0a0, 0x27333ba3, 0x9d4baf93, 0xfda24c2e);
    Step(44, 0x9d4baf93, 0x17aa0dfe, 0xdf46652f, 0xd6670766,
         0xfda24c2e, 0xdecd4715, 0x838b2711, 0x26352d63, 0x0c4763f2, 0x26628815, 0xa80f11f0);
    Step(45, 0x26628815, 0x9d4baf93, 0x17aa0dfe, 0xdf46652f,
         0xa80f11f0, 0xfda24c2e, 0xdecd4715, 0x838b2711, 0x840abf27, 0x72ab4b91, 0xb7755da1);
    Step(46, 0x72ab4b91, 0x26628815, 0x9d4baf93, 0x17aa0dfe,
         0xb7755da1, 0xa80f11f0, 0xfda24c2e, 0xdecd4715, 0x7a290d5d, 0xa14c14b0, 0xd57b94a9);
    Step(47, 0xa14c14b0, 0x72ab4b91, 0x26628815, 0x9d4baf93,
         0xd57b94a9, 0xb7755da1, 0xa80f11f0, 0xfda24c2e, 0x065c43da, 0x4172328d, 0xfecf0bc6);
  }

  lemma Constants5()
    ensures RoundConstant(40) == 0xa2bfe8a1 && RoundConstant(41) == 0xa81a664b
    ensures RoundConstant(42) == 0xc24b8b70 && RoundConstant(43) == 0xc76c51a3
    ensures RoundConstant(44) == 0xd192e819 && RoundConstant(45) == 0xd6990624
    ensures RoundConstant(46) == 0xf40e3585 && RoundConstant(47) == 0x106aa070
  {
  }

  lemma Rounds49To56()
    ensures After(56, 0x38cc9913, 0x3ec45cdb, 0xf5702fdb, 0x101fd28f,
                   0x54cb266b, 0xe50e1b4f, 0x9f4787c3, 0x529e7d00)
  {
    hide W, Block, IsWord, After, RoundConstant, Rounds;
    Constants6();
    Words48();
    Words52();
    Rounds41To48();
    Step(48, 0x4172328d, 0xa14c14b0, 0x72ab4b91, 0x26628815,
         0xfecf0bc6, 0xd57b94a9, 0xb7755da1, 0xa80f11f0, 0xfb3e89cb, 0x05757ceb, 0xbd714038);
    Step(49, 0x05757ceb, 0x4172328d, 0xa14c14b0, 0x72ab4b91,
         0xbd714038, 0xfecf0bc6, 0xd57b94a9, 0xb7755da1, 0xcc7617db, 0xf11bfaa8, 0x6e5c390c);
    Step(50, 0xf11bfaa8, 0x05757ceb, 0x4172328d, 0xa14c14b0,
         0x6e5c390c, 0xbd714038, 0xfecf0bc6, 0xd57b94a9, 0xb9e66c34, 0x7a0508a1, 0x52f1ccf7);
    Step(51, 0x7a0508a1, 0xf11bfaa8, 0x05757ceb, 0x4172328d,
         0x52f1ccf7, 0x6e5c390c, 0xbd714038, 0xfecf0bc6, 0xa9993667, 0x886e7a22, 0x49231c1e);
    Step(52, 0x886e7a22, 0x7a0508a1, 0xf11bfaa8, 0x05757ceb,
         0x49231c1e, 0x52f1ccf7, 0x6e5c390c, 0xbd714038, 0x84badedd, 0x101fd28f, 0x529e7d00);
    Step(53, 0x101fd28f, 0x886e7a22, 0x7a0508a1, 0xf11bfaa8,
         0x529e7d00, 0x49231c1e, 0x52f1ccf7, 0x6e5c390c, 0xc21462bc, 0xf5702fdb, 0x9f4787c3);
    Step(54, 0xf5702fdb, 0x101fd28f, 0x886e7a22, 0x7a0508a1,
         0x9f4787c3, 0x529e7d00, 0x49231c1e, 0x52f1ccf7, 0x1487472c, 0x3ec45cdb, 0xe50e1b4f);
    Step(55, 0x3ec45cdb, 0xf5702fdb, 0x101fd28f, 0x886e7a22,
         0xe50e1b4f, 0x9f4787c3, 0x529e7d00, 0x49231c1e, 0xb20f7a99, 0x38cc9913, 0x54cb266b);
  }

  lemma Constants6()
    ensures RoundConstant(48) == 0x19a4c116 && RoundConstant(49) == 0x1e376c08
    ensures RoundConstant(50) == 0x2748774c && RoundConstant(51) == 0x34b0bcb5
    ensures RoundConstant(52) == 0x391c0cb3 && RoundConstant(53) == 0x4ed8aa4a
    ensures RoundConstant(54) == 0x5b9cca4f && RoundConstant(55) == 0x682e6ff3
  {
  }

  lemma Rounds57To64()
    ensures After(64, 0x506e3058, 0xd39a2165, 0x04d24d6c, 0xb85e2ce9,
                   0x5ef50f24, 0xfb121210, 0x948d25b6, 0x961f4894)
  {
    hide W, Block, IsWord, After, RoundConstant, Rounds;
    Constants7();
    Words56();
    Words60();
    Rounds49To56();
    Step(56, 0x38cc9913, 0x3ec45cdb, 0xf5702fdb, 0x101fd28f,
         0x54cb266b, 0xe50e1b4f, 0x9f4787c3, 0x529e7d00, 0xef57b9cd, 0xfcd1887b, 0x9b5e906c);
    Step(57, 0xfcd1887b, 0x38cc9913, 0x3ec45cdb, 0xf5702fdb,
         0x9b5e906c, 0x54cb266b, 0xe50e1b4f, 0x9f4787c3, 0xebe6b238, 0xc062d46f, 0x7e44008e);
    Step(58, 0xc062d46f, 0xfcd1887b, 0x38cc9913, 0x3ec45cdb,
         0x7e44008e, 0x9b5e906c, 0x54cb266b, 0xe50e1b4f, 0x9fe3095e, 0xffb70472, 0x6d83bfc6);
    Step(59, 0xffb70472, 0xc062d46f, 0xfcd1887b, 0x38cc9913,
         0x6d83bfc6, 0x7e44008e, 0x9b5e906c, 0x54cb266b, 0x78bc8d4b, 0xb6ae8fff, 0xb21bad3d);
    Step(60, 0xb6ae8fff, 0xffb70472, 0xc062d46f, 0xfcd1887b,
         0xb21bad3d, 0x6d83bfc6, 0x7e44008e, 0x9b5e906c, 0xa43fcf15, 0xb85e2ce9, 0x961f4894);
    Step(61, 0xb85e2ce9, 0xb6ae8fff, 0xffb70472, 0xc062d46f,
         0x961f4894, 0xb21bad3d, 0x6d83bfc6, 0x7e44008e, 0x668b2ff8, 0x04d24d6c, 0x948d25b6);
    Step(62, 0x04d24d6c, 0xb85e2ce9, 0xb6ae8fff, 0xffb70472,
         0x948d25b6, 0x961f4894, 0xb21bad3d, 0x6d83bfc6, 0xeeaba2cc, 0xd39a2165, 0xfb121210);
    Step(63, 0xd39a2165, 0x04d24d6c, 0xb85e2ce9, 0xb6ae8fff,
         0xfb121210, 0x948d25b6, 0x961f4894, 0xb21bad3d, 0x12b1edeb, 0x506e3058, 0x5ef50f24);
  }

  lemma Constants7()
    ensures RoundConstant(56) == 0x748f82ee && RoundConstant(57) == 0x78a5636f
    ensures RoundConstant(58) == 0x84c87814 && RoundConstant(59) == 0x8cc70208
    ensures RoundConstant(60) == 0x90befffa && RoundConstant(61) == 0xa4506ceb
    ensures RoundConstant(62) == 0xbef9a3f7 && RoundConstant(63) == 0xc67178f2
  {
  }

  lemma DigestOfAbc()
    ensures Fold(H0, Block()) == [0xba7816bf, 0x8f01cfea, 0x414140de, 0x5dae2223,
                                  0xb00361a3, 0x96177a9c, 0xb410ff61, 0xf20015ad]
  {
    hide W, Block, Rounds;
    Rounds57To64();
    assert Block()[..0] == [] && Block()[0..] == Block();
    assert Fold(H0, []) == H0;
  }

  /** The example of the standard. */
  lemma HashOfAbc()
    ensures Hash(ABC) == [
      0xba, 0x78, 0x16, 0xbf, 0x8f, 0x01, 0xcf, 0xea, 0x41, 0x41, 0x40, 0xde, 0x5d, 0xae, 0x22, 0x23,
      0xb0, 0x03, 0x61, 0xa3, 0x96, 0x17, 0x7a, 0x9c, 0xb4, 0x10, 0xff, 0x61, 0xf2, 0x00, 0x15, 0xad]
  {
    hide Fold, WordBytes;
    DigestOfAbc();
    BytesOf(0xba, 0x78, 0x16, 0xbf, 0xba7816bf);
    BytesOf(0x8f, 0x01, 0xcf, 0xea, 0x8f01cfea);
    BytesOf(0x41, 0x41, 0x40, 0xde, 0x414140de);
    BytesOf(0x5d, 0xae, 0x22, 0x23, 0x5dae2223);
    BytesOf(0xb0, 0x03, 0x61, 0xa3, 0xb00361a3);
    BytesOf(0x96, 0x17, 0x7a, 0x9c, 0x96177a9c);
    BytesOf(0xb4, 0x10, 0xff, 0x61, 0xb410ff61);
    BytesOf(0xf2, 0x00, 0x15, 0xad, 0xf20015ad);
  }
}
