/**
 The hash object whose sums stay unreduced through a whole block: every intermediate number is
 small enough for a double to hold it exactly, so reducing once at the end is enough.
 */
module Sha256MarinJohnson {
  import opened Sha256Standard
  import opened Sha256Numbers

  // --- how large the numbers get, in units of 2^31 ---

  function WordBound(t: int): (b: nat)
    ensures b >= 1
  {
    if t < 16 then 1 else 2 + WordBound(t - 7) + WordBound(t - 16)
  }

  /** Bounds of the variables `a` and `e` after `t` rounds; the others are older values of these two. */
  function ABound(t: int): (b: nat)
    ensures b >= 1
  {
    if t <= 0 then 1 else EBound(t - 4) + 6 + WordBound(t - 1)
  }

  function EBound(t: int): (b: nat)
    ensures b >= 1
  {
    if t <= 0 then 1 else ABound(t - 4) + EBound(t - 4) + 4 + WordBound(t - 1)
  }

  lemma {:induction false} WordBoundGrows(t: int)
    ensures WordBound(t) <= WordBound(t + 1)
    decreases if t < 0 then 0 else t
  {
    if t >= 16 {
      WordBoundGrows(t - 7);
      WordBoundGrows(t - 16);
    }
  }

  lemma {:induction false} BoundsGrow(t: int)
    ensures ABound(t) <= ABound(t + 1) && EBound(t) <= EBound(t + 1)
    decreases if t < 0 then 0 else t
  {
    WordBoundGrows(t - 1);
    if t > 0 {
      BoundsGrow(t - 4);
    }
  }

  lemma {:induction false} BoundsAtMost(t: int, n: int)
    requires t <= n
    ensures ABound(t) <= ABound(n) && EBound(t) <= EBound(n) && WordBound(t) <= WordBound(n)
    decreases n - t
  {
    if t < n {
      BoundsGrow(t);
      WordBoundGrows(t);
      BoundsAtMost(t + 1, n);
    }
  }

  /** Seven words further the bound at most doubles and grows by two. */
  lemma WordLadder(t: nat, b: nat)
    requires t >= 9 && WordBound(t) <= b
    ensures WordBound(t + 7) <= 2 + 2 * b
  {
    BoundsAtMost(t - 9, t);
  }

  lemma LargestWord()
    ensures WordBound(63) <= 382
  {
    hide ABound, EBound;
    assert WordBound(15) == 1;
    WordLadder(15, 1);
    WordLadder(22, 4);
    WordLadder(29, 10);
    WordLadder(36, 22);
    WordLadder(43, 46);
    WordLadder(50, 94);
    WordLadder(57, 190);
    BoundsAtMost(63, 64);
  }

  /** Bounds of the bounds every four rounds, with the words at their largest. */
  function ALadder(k: nat): nat { if k == 0 then 1 else ELadder(k - 1) + 388 }

  function ELadder(k: nat): nat { if k == 0 then 1 else ALadder(k - 1) + ELadder(k - 1) + 386 }

  lemma BoundStep(t: int)
    requires t > 0
    ensures ABound(t) == EBound(t - 4) + 6 + WordBound(t - 1)
    ensures EBound(t) == ABound(t - 4) + EBound(t - 4) + 4 + WordBound(t - 1)
  {
    hide WordBound;
  }

  lemma BoundStart()
    ensures ABound(0) == 1 && EBound(0) == 1
  {
  }

  lemma {:induction false} Ladders(k: nat, t: int)
    requires k <= 16 && t == 4 * k
    ensures ABound(t) <= ALadder(k) && EBound(t) <= ELadder(k)
  {
    hide WordBound, ABound, EBound;
    if k == 0 {
      BoundStart();
    } else {
      Ladders(k - 1, t - 4);
      LargestWord();
      BoundsAtMost(t - 1, 63);
      BoundStep(t);
    }
  }

  lemma LargestBounds()
    ensures WordBound(63) <= 382 && ABound(64) <= 1000609 && EBound(64) <= 1618870
  {
    hide WordBound, ABound, EBound;
    LargestWord();
    Ladders(16, 64);
    assert ALadder(8) == 20920 && ELadder(8) == 33703;
    assert ALadder(16) == 1000609 && ELadder(16) == 1618870;
  }

  predicate Within(x: int, units: nat) { -TWO31 * units <= x <= TWO31 * units }

  /** The eight variables after `t` rounds. */
  predicate Bounded(s: Numbers, t: int) {
    && Within(s[0], ABound(t)) && Within(s[1], ABound(t - 1))
    && Within(s[2], ABound(t - 2)) && Within(s[3], ABound(t - 3))
    && Within(s[4], EBound(t)) && Within(s[5], EBound(t - 1))
    && Within(s[6], EBound(t - 2)) && Within(s[7], EBound(t - 3))
  }

  predicate WordsBounded(w: seq<int>, n: nat) {
    n <= |w| && forall t :: 0 <= t < n ==> Within(w[t], WordBound(t))
  }

  // --- one turn ---

  /** `readInt32BE` */
  function ReadInt32BE(m: Bytes, at: nat): (x: int)
    requires at + 4 <= |m|
    ensures IsInt32(x)
  {
    Signed(WordAt(m, at))
  }

  /** The function `loop`: no sum is reduced, and none is rounded. */
  method Turn(s: Numbers, j: nat, w: int) returns (s': Numbers)
    requires j < 64 && Bounded(s, j) && Within(w, WordBound(j))
    ensures Bounded(s', j + 1) && Residues(s') == Round(Residues(s), RoundConstant(j), Mod(w))
  {
    hide NumSigma0, NumSigma1, NumCh, NumMaj, Mod, Round, WordBound, ABound, EBound;
    var a, b, c, d := s[0], s[1], s[2], s[3];
    var e, f, g, h := s[4], s[5], s[6], s[7];
    TurnBounds(j);
    var k := RoundConstant(j);
    var t1 := SumOfFive(h, NumSigma1(e), NumCh(e, f, g), k, w, EBound(j - 3), WordBound(j));
    var t2 := Plus(NumSigma0(a), NumMaj(a, b, c));
    h := g;
    g := f;
    f := e;
    e := Plus(d, t1);
    d := c;
    c := b;
    b := a;
    a := Plus(t1, t2);
    s' := [a, b, c, d, e, f, g, h];
    RoundResidue(s, s', k, w);
  }

  /** The sum of one round, term by term. */
  function SumOfFive(h: int, x: int, y: int, k: Word, w: int, hUnits: nat, wUnits: nat): (t1: int)
    requires Within(h, hUnits) && IsInt32(x) && IsInt32(y) && Within(w, wUnits) && hUnits + wUnits <= 0x20_0000
    ensures t1 == h + x + y + k + w && Within(t1, hUnits + 4 + wUnits) && Exact(t1)
  {
    Plus(Plus(Plus(Plus(h, x), y), k), w)
  }

  /** What the bounds of one turn add up to, and that they are small. */
  lemma TurnBounds(j: nat)
    requires j < 64
    ensures ABound(j + 1) == EBound(j - 3) + 6 + WordBound(j)
    ensures EBound(j + 1) == ABound(j - 3) + EBound(j - 3) + 4 + WordBound(j)
    ensures ABound(j + 1) <= 1000609 && EBound(j + 1) <= 1618870 && WordBound(j) <= 382
    ensures ABound(j - 3) <= 1000609 && EBound(j - 3) <= 1618870
  {
    hide WordBound, ABound, EBound;
    BoundStep(j + 1);
    LargestBounds();
    BoundsAtMost(j + 1, 64);
    BoundsAtMost(j, 63);
    BoundsAtMost(j - 3, 64);
  }

  /** `calcW`: the next word of the schedule, unreduced. */
  function CalcW(w: seq<int>, t: nat): (x: int)
    requires 16 <= t < 64 && WordsBounded(w, t)
    ensures x == NumW(w, t)
  {
    WordBoundsSmall(t);
    Plus(Plus(Plus(NumGamma1(w[t - 2]), w[t - 7]), NumGamma0(w[t - 15])), w[t - 16])
  }

  lemma WordBoundsSmall(t: nat)
    requires 16 <= t < 64
    ensures WordBound(t) <= 382 && WordBound(t - 7) <= 382 && WordBound(t - 16) <= 382
  {
    hide WordBound, ABound, EBound;
    LargestBounds();
    BoundsAtMost(t, 63);
    BoundsAtMost(t - 7, 63);
    BoundsAtMost(t - 16, 63);
  }

  lemma CalcWBound(w: seq<int>, t: nat)
    requires 16 <= t < 64 && WordsBounded(w, t)
    ensures Within(NumW(w, t), WordBound(t))
  {
    hide NumGamma0, NumGamma1;
    assert Within(w[t - 7], WordBound(t - 7)) && Within(w[t - 16], WordBound(t - 16));
  }

  /** The next word goes into the schedule. */
  method StoreWord(w: array<int>, j: nat, x: int, ghost block: Bytes)
    requires w.Length == 64 && j < 64 && |block| == 64 && Within(x, WordBound(j)) && Mod(x) == W(block, j)
    requires WordsBounded(w[..], j) && Scheduled(w[..], block, j)
    modifies w
    ensures WordsBounded(w[..], j + 1) && Scheduled(w[..], block, j + 1)
  {
    hide Mod, W, WordBound;
    w[j] := x;
  }

  class Sha256 {
    var a: int
    var b: int
    var c: int
    var d: int
    var e: int
    var f: int
    var g: int
    var h: int
    /** The schedule, shared by all objects of the program. */
    const w: array<int>

    ghost predicate Valid()
      reads this
    {
      && w.Length == 64
      && IsInt32(a) && IsInt32(b) && IsInt32(c) && IsInt32(d)
      && IsInt32(e) && IsInt32(f) && IsInt32(g) && IsInt32(h)
    }

    function Variables(): Numbers
      reads this
    {
      var s: seq<int> := [a, b, c, d, e, f, g, h];
      s
    }

    constructor (w: array<int>)
      requires w.Length == 64
      ensures Valid() && this.w == w && Residues(Variables()) == H0
    {
      this.w := w;
      new;
      Init();
    }

    method Init()
      requires w.Length == 64
      modifies this
      ensures Valid() && Residues(Variables()) == H0
    {
      a := ToInt32(0x6a09e667);
      b := ToInt32(0xbb67ae85);
      c := ToInt32(0x3c6ef372);
      d := ToInt32(0xa54ff53a);
      e := ToInt32(0x510e527f);
      f := ToInt32(0x9b05688c);
      g := ToInt32(0x1f83d9ab);
      h := ToInt32(0x5be0cd19);
    }

    /** The first 16 turns, on the words of the block. */
    method ReadTurns(m: array<bv8>) returns (s: Numbers)
      requires Valid() && m.Length == 64 && w as object != m as object
      modifies w
      ensures Bounded(s, 16) && Residues(s) == Rounds(Residues(Variables()), m[..], 16)
      ensures WordsBounded(w[..], 16) && Scheduled(w[..], m[..], 16)
    {
      hide Mod, Round, ABound, EBound, Residues;
      s := Variables();
      StartBounds(s);
      var j := 0;
      while j < 16
        invariant 0 <= j <= 16 && Bounded(s, j) && Residues(s) == Rounds(Residues(Variables()), m[..], j)
        invariant WordsBounded(w[..], j) && Scheduled(w[..], m[..], j)
      {
        var x := ReadInt32BE(m[..], j * 4);
        ModOfSigned(WordAt(m[..], j * 4));
        StoreWord(w, j, x, m[..]);
        s := Turn(s, j, x);
        j := j + 1;
      }
    }

    /** The other 48 turns, on the words computed from earlier ones. */
    method CalcTurns(s0: Numbers, ghost block: Bytes) returns (s: Numbers)
      requires Valid() && |block| == 64
      requires Bounded(s0, 16) && Residues(s0) == Rounds(Residues(Variables()), block, 16)
      requires WordsBounded(w[..], 16) && Scheduled(w[..], block, 16)
      modifies w
      ensures Bounded(s, 64) && Residues(s) == Rounds(Residues(Variables()), block, 64)
    {
      hide Mod, Round, ABound, EBound, WordBound, NumW, W, Residues, Bounded, WordsBounded, Scheduled;
      s := s0;
      var j := 16;
      while j < 64
        invariant 16 <= j <= 64 && Bounded(s, j) && Residues(s) == Rounds(Residues(Variables()), block, j)
        invariant WordsBounded(w[..], j) && Scheduled(w[..], block, j)
      {
        var x := CalcW(w[..], j);
        CalcWBound(w[..], j);
        NextWord(w[..], block, j);
        StoreWord(w, j, x, block);
        s := Turn(s, j, x);
        j := j + 1;
      }
    }

    /** `_update`: one block, with one reduction at the end. */
    method Update(m: array<bv8>)
      requires Valid() && m.Length == 64 && w as object != m as object
      modifies this, w
      ensures Valid()
      ensures Residues(Variables()) == Compress(old(Residues(Variables())), m[..])
    {
      hide Mod, Rounds, ABound, EBound, WordsBounded, Scheduled;
      var s := ReadTurns(m);
      s := CalcTurns(s, m[..]);
      EndBounds(s);
      ghost var before := Variables();
      a := ToInt32(Plus(s[0], a));
      b := ToInt32(Plus(s[1], b));
      c := ToInt32(Plus(s[2], c));
      d := ToInt32(Plus(s[3], d));
      e := ToInt32(Plus(s[4], e));
      f := ToInt32(Plus(s[5], f));
      g := ToInt32(Plus(s[6], g));
      h := ToInt32(Plus(s[7], h));
      EndResidues(before, s, Variables());
    }

    /** `_hash`: the eight numbers as bytes. */
    method Digest() returns (bytes: Bytes)
      requires Valid()
      ensures bytes == DigestBytes(Residues(Variables()))
    {
      bytes := WordBytes(Mod(a)) + WordBytes(Mod(b)) + WordBytes(Mod(c)) + WordBytes(Mod(d))
             + WordBytes(Mod(e)) + WordBytes(Mod(f)) + WordBytes(Mod(g)) + WordBytes(Mod(h));
    }
  }

  lemma StartBounds(s: Numbers)
    requires forall i :: 0 <= i < 8 ==> IsInt32(s[i])
    ensures Bounded(s, 0)
  {
  }

  lemma EndBounds(s: Numbers)
    requires Bounded(s, 64)
    ensures forall i :: 0 <= i < 8 ==> -0x20_0000 * TWO31 <= s[i] <= 0x20_0000 * TWO31
  {
    hide WordBound, ABound, EBound;
    LargestBounds();
    BoundsAtMost(61, 64);
    BoundsAtMost(62, 64);
    BoundsAtMost(63, 64);
  }

  lemma EndResidues(v: Numbers, s: Numbers, v': Numbers)
    requires forall i :: 0 <= i < 8 ==> v'[i] == ToInt32(s[i] + v[i])
    ensures Residues(v') == AddDigests(Residues(v), Residues(s))
  {
    hide Mod;
    forall i | 0 <= i < 8
      ensures Residues(v')[i] == AddDigests(Residues(v), Residues(s))[i]
    {
      ModOfInt32(s[i] + v[i]);
      ModPlus(v[i], s[i]);
    }
  }
}
