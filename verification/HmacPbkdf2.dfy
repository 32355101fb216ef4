/**
 The keyed hash of section 2 of RFC 2104 and the key derivation of section 5.2 of RFC 8018,
 and the objects of the program that compute them.
 */
module Macs {
  import opened Sha256Standard
  import opened Sha256Streaming

  // --- the standards ---

  function XorWith(s: Bytes, b: bv8): (r: Bytes)
    ensures |r| == |s| && forall i :: 0 <= i < |s| ==> r[i] == s[i] ^ b
  {
    seq(|s|, i requires 0 <= i < |s| => s[i] ^ b)
  }

  function XorBytes(a: Bytes, b: Bytes): (r: Bytes)
    requires |a| == |b|
    ensures |r| == |a| && forall i :: 0 <= i < |a| ==> r[i] == a[i] ^ b[i]
  {
    seq(|a|, i requires 0 <= i < |a| => a[i] ^ b[i])
  }

  /** The key made 64 bytes long: a longer one is hashed first. */
  function BlockKey(key: Bytes): (k: Bytes)
    ensures |k| == 64
  {
    if |key| > 64 then Hash(key) + Zeros(32) else key + Zeros(64 - |key|)
  }

  function InnerPad(key: Bytes): (pad: Bytes)
    ensures |pad| == 64
  {
    XorWith(BlockKey(key), 0x36)
  }

  function OuterPad(key: Bytes): (pad: Bytes)
    ensures |pad| == 64
  {
    XorWith(BlockKey(key), 0x5c)
  }

  function Hmac(key: Bytes, text: Bytes): (mac: Bytes)
    ensures |mac| == 32
  {
    Hash(OuterPad(key) + Hash(InnerPad(key) + text))
  }

  /** U_j of block `i`: the counter goes into the first one as four bytes. */
  function U(key: Bytes, salt: Bytes, i: nat, j: nat): (u: Bytes)
    requires j >= 1
    ensures |u| == 32
  {
    if j == 1 then Hmac(key, salt + WordBytes(Mod(i))) else Hmac(key, U(key, salt, i, j - 1))
  }

  /** The exclusive or of the first `c` of them. */
  function T(key: Bytes, salt: Bytes, i: nat, c: nat): (t: Bytes)
    requires c >= 1
    ensures |t| == 32
  {
    if c == 1 then U(key, salt, i, 1) else XorBytes(T(key, salt, i, c - 1), U(key, salt, i, c))
  }

  /** The blocks T_1 to T_n. */
  function Ts(key: Bytes, salt: Bytes, c: nat, n: nat): (ts: Bytes)
    requires c >= 1
    ensures |ts| == 32 * n
  {
    if n == 0 then [] else Ts(key, salt, c, n - 1) + T(key, salt, n, c)
  }

  function BlockCount(dkLen: nat): (n: nat)
    ensures 32 * n >= dkLen && (n > 0 ==> 32 * (n - 1) < dkLen)
  {
    (dkLen + 31) / 32
  }

  /** The derived key: the first bytes of as many blocks as it takes. */
  function DerivedKey(key: Bytes, salt: Bytes, c: nat, dkLen: nat): (dk: Bytes)
    requires c >= 1
    ensures |dk| == dkLen
  {
    Ts(key, salt, c, BlockCount(dkLen))[..dkLen]
  }

  // --- what the definitions mean, byte by byte ---

  /** Byte `k` of the block the pads are made from: of the key, of its hash if it is long, or zero. */
  function KeyByte(key: Bytes, k: nat): bv8
    requires k < 64
  {
    var short := if |key| > 64 then Hash(key) else key;
    if k < |short| then short[k] else 0
  }

  /** Two hashes over the text, behind 64 bytes each that are the key's turned by two constants. */
  lemma HmacMeans(key: Bytes, text: Bytes) returns (inner: Bytes, outer: Bytes)
    ensures |inner| == |outer| == 64
    ensures forall k :: 0 <= k < 64 ==> inner[k] == KeyByte(key, k) ^ 0x36 && outer[k] == KeyByte(key, k) ^ 0x5c
    ensures Hmac(key, text) == Hash(outer + Hash(inner + text))
  {
    hide Hash;
    inner, outer := InnerPad(key), OuterPad(key);
    forall k | 0 <= k < 64
      ensures BlockKey(key)[k] == KeyByte(key, k)
    {
    }
  }

  /** The exclusive or of byte `k` of all the strings. */
  function XorColumn(us: seq<Bytes>, k: nat): bv8
    requires forall j :: 0 <= j < |us| ==> k < |us[j]|
  {
    if us == [] then 0 else us[0][k] ^ XorColumn(us[1..], k)
  }

  lemma XorAssociative(a: bv8, b: bv8, c: bv8)
    ensures a ^ b ^ c == a ^ (b ^ c) && a ^ 0 == a && 0 ^ a == a
  {
  }

  lemma {:induction false} XorColumnAppend(us: seq<Bytes>, u: Bytes, k: nat)
    requires k < |u| && forall j :: 0 <= j < |us| ==> k < |us[j]|
    ensures XorColumn(us + [u], k) == XorColumn(us, k) ^ u[k]
    decreases |us|
  {
    if us == [] {
      assert ([] + [u])[1..] == [];
      XorAssociative(u[k], 0, 0);
    } else {
      assert (us + [u])[1..] == us[1..] + [u];
      XorColumnAppend(us[1..], u, k);
      XorAssociative(us[0][k], XorColumn(us[1..], k), u[k]);
    }
  }

  /** The chain of keyed hashes of a block: each is that of the one before. */
  ghost predicate Chain(key: Bytes, first: Bytes, us: seq<Bytes>) {
    && us != [] && us[0] == Hmac(key, first)
    && (forall j :: 0 <= j < |us| ==> |us[j]| == 32)
    && (forall j :: 0 < j < |us| ==> us[j] == Hmac(key, us[j - 1]))
  }

  lemma {:induction false} BlockMeans(key: Bytes, salt: Bytes, i: nat, c: nat) returns (us: seq<Bytes>)
    requires c >= 1
    ensures |us| == c && Chain(key, salt + WordBytes(Mod(i)), us) && us[c - 1] == U(key, salt, i, c)
    ensures forall k :: 0 <= k < 32 ==> T(key, salt, i, c)[k] == XorColumn(us, k)
    decreases c
  {
    hide Hmac;
    if c == 1 {
      us := [U(key, salt, i, 1)];
      forall k | 0 <= k < 32
        ensures T(key, salt, i, 1)[k] == XorColumn(us, k)
      {
        assert us[1..] == [];
        XorAssociative(us[0][k], 0, 0);
      }
    } else {
      var before := BlockMeans(key, salt, i, c - 1);
      var u := U(key, salt, i, c);
      us := before + [u];
      forall k | 0 <= k < 32
        ensures T(key, salt, i, c)[k] == XorColumn(us, k)
      {
        XorColumnAppend(before, u, k);
      }
    }
  }

  lemma {:induction false} ByteOfBlocks(key: Bytes, salt: Bytes, c: nat, n: nat, at: nat)
    requires c >= 1 && at < 32 * n
    ensures Ts(key, salt, c, n)[at] == T(key, salt, at / 32 + 1, c)[at % 32]
    decreases n
  {
    hide T;
    if at < 32 * (n - 1) {
      ByteOfBlocks(key, salt, c, n - 1, at);
    }
  }

  /**
   Byte `at` of a derived key, by section 5.2 of RFC 8018: there is a chain of as many keyed
   hashes as rounds, beginning with that of the salt and the number of the block, most
   significant byte first; the byte is the exclusive or of their bytes at its place.
   */
  lemma DerivedByteMeans(key: Bytes, salt: Bytes, c: nat, dkLen: nat, at: nat)
    returns (counter: Bytes, us: seq<Bytes>)
    requires c >= 1 && at < dkLen
    ensures |counter| == 4 && WordAt(counter, 0) == Mod(at / 32 + 1)
    ensures |us| == c && Chain(key, salt + counter, us)
    ensures DerivedKey(key, salt, c, dkLen)[at] == XorColumn(us, at % 32)
  {
    hide T, Hmac, WordAt, Mod;
    var i := at / 32 + 1;
    counter := WordBytes(Mod(i));
    WordOfBytes(Mod(i));
    us := BlockMeans(key, salt, i, c);
    ByteOfBlocks(key, salt, c, BlockCount(dkLen), at);
  }

  // --- the keyed hash object ---

  /** The pad turned from the inner to the outer one. */
  lemma TurnPad(k: Bytes)
    ensures XorWith(XorWith(k, 0x36), 0x36 ^ 0x5c) == XorWith(k, 0x5c)
  {
  }

  method XorInto(pad: array<bv8>, b: bv8)
    modifies pad
    ensures pad[..] == XorWith(old(pad[..]), b)
  {
    for i := 0 to pad.Length
      invariant forall j :: 0 <= j < i ==> pad[j] == old(pad[j]) ^ b
      invariant forall j :: i <= j < pad.Length ==> pad[j] == old(pad[j])
    {
      pad[i] := pad[i] ^ b;
    }
  }

  method CopyWords(to: array<Word>, from: array<Word>)
    requires to.Length == from.Length == 8 && to != from
    modifies to
    ensures to[..] == from[..]
  {
    for i := 0 to 8
      invariant forall j :: 0 <= j < i ==> to[j] == from[j]
    {
      to[i] := from[i];
    }
  }

  method ClearBytes(a: array<bv8>)
    modifies a
    ensures forall i :: 0 <= i < a.Length ==> a[i] == 0
  {
    for i := 0 to a.Length
      invariant forall j :: 0 <= j < i ==> a[j] == 0
    {
      a[i] := 0;
    }
  }

  /** A new hash object, used once. */
  method HashInto(m: array<bv8>, h: array<bv8>)
    requires h.Length >= 32 && m != h
    modifies h
    ensures h[..] == Hash(m[..]) + old(h[32..])
  {
    hide Hash, Absorbed;
    var sha := new Sha256();
    sha.Update(m, m.Length);
    assert sha.message == m[..];
    sha.Finish(h);
  }

  /** The key as one block, in a new array. */
  method PadOfKey(k: array<bv8>) returns (pad: array<bv8>)
    ensures fresh(pad) && pad[..] == BlockKey(k[..])
  {
    hide Hash, Absorbed;
    pad := new bv8[64](_ => 0);
    if k.Length > 64 {
      assert pad[32..] == Zeros(32);
      HashInto(k, pad);
    } else {
      for i := 0 to k.Length
        invariant forall j :: 0 <= j < i ==> pad[j] == k[j]
        invariant forall j :: i <= j < 64 ==> pad[j] == 0
      {
        pad[i] := k[i];
      }
    }
  }

  class HMAC {
    const inner: Sha256
    const outer: Sha256
    const istate: array<Word>
    const ostate: array<Word>
    /** The key the object was made with. */
    ghost const key: Bytes

    /** What the methods may change, but for the two saved states. */
    ghost function Parts(): set<object> {
      {inner, outer, inner.v, inner.w, inner.buf, outer.v, outer.w, outer.buf}
    }

    ghost predicate Shape() {
      && inner.Shape() && outer.Shape() && inner != outer
      && istate.Length == 8 && ostate.Length == 8 && istate != ostate
      && {inner.v, inner.w} !! {outer.v, outer.w} !! {istate, ostate}
      && inner.buf != outer.buf
      && outer.Outside(inner.buf) && inner.Outside(outer.buf)
      && Separate(inner.buf, istate) && Separate(inner.buf, ostate)
      && Separate(outer.buf, istate) && Separate(outer.buf, ostate)
      && istate as object !in Parts() && ostate as object !in Parts()
    }

    /** The saved states are those of the two pads of the key. */
    ghost predicate Keyed()
      reads istate, ostate
    {
      && Shape()
      && Absorbed(istate[..], [], InnerPad(key)) && Absorbed(ostate[..], [], OuterPad(key))
    }

    /** Ready to take more text, and to finish. */
    ghost predicate Ready()
      reads Parts(), istate, ostate
    {
      && Keyed() && inner.Valid() && outer.Valid()
      && InnerPad(key) <= inner.message && outer.message == OuterPad(key)
    }

    /** The text taken since the last reset. */
    ghost function Text(): Bytes
      requires Ready()
      reads Parts(), istate, ostate
    {
      inner.message[64..]
    }

    /** An array that may be given to this object. */
    ghost predicate Outside(m: array<bv8>) {
      inner.Outside(m) && outer.Outside(m) && Separate(m, istate) && Separate(m, ostate)
    }

    constructor (k: array<bv8>)
      ensures Ready() && Text() == [] && key == old(k[..])
      ensures fresh(inner) && fresh(inner.v) && fresh(inner.w) && fresh(inner.buf)
      ensures fresh(outer) && fresh(outer.v) && fresh(outer.w) && fresh(outer.buf)
      ensures fresh(istate) && fresh(ostate)
    {
      hide Absorbed, BlockKey, InnerPad, OuterPad, Hash;
      key := k[..];
      inner := new Sha256();
      outer := new Sha256();
      istate := new Word[8](_ => 0);
      ostate := new Word[8](_ => 0);
      new;
      var pad := PadOfKey(k);
      Prepare(pad);
    }

    /** The rest of the constructor: both pads are absorbed and the two states saved. */
    method Prepare(pad: array<bv8>)
      requires Shape() && Outside(pad) && pad[..] == BlockKey(key)
      requires inner.Valid() && outer.Valid() && inner.message == [] && outer.message == []
      modifies Parts(), istate, ostate, pad
      ensures Ready() && Text() == []
    {
      hide BlockKey, Absorbed;
      TurnPad(BlockKey(key));
      XorInto(pad, 0x36);
      assert pad[..64] == InnerPad(key);
      inner.Update(pad, 64);
      assert inner.message == InnerPad(key);
      XorInto(pad, 0x36 ^ 0x5c);
      assert pad[..64] == OuterPad(key);
      outer.Update(pad, 64);
      assert outer.message == OuterPad(key);
      CopyWords(istate, inner.v);
      CopyWords(ostate, outer.v);
      WholeBlock(inner);
      WholeBlock(outer);
      assert Absorbed(istate[..], [], InnerPad(key)) && Absorbed(ostate[..], [], OuterPad(key));
      ClearBytes(pad);
    }

    /** `reset`: a used object becomes like a new one with the same key. */
    method Reset()
      requires Keyed()
      modifies inner, outer, inner.v, outer.v
      ensures Ready() && Text() == []
    {
      hide Absorbed, InnerPad, OuterPad;
      CopyWords(inner.v, istate);
      CopyWords(outer.v, ostate);
      inner.len := 64;
      outer.len := 64;
      inner.buflen := 0;
      outer.buflen := 0;
      inner.message := InnerPad(key);
      outer.message := OuterPad(key);
      assert inner.buf[..0] == [] && outer.buf[..0] == [];
    }

    method Update(m: array<bv8>)
      requires Ready() && Outside(m)
      modifies inner, inner.v, inner.w, inner.buf
      ensures Ready() && Text() == old(Text()) + m[..]
    {
      hide Absorbed, InnerPad, OuterPad;
      inner.Update(m, m.Length);
      assert m[..m.Length] == m[..];
    }

    /** `finish`: the keyed hash, also when the array is one the text came from. */
    method Finish(h: array<bv8>)
      requires Ready() && Outside(h) && h.Length >= 32
      modifies Parts(), h
      ensures Keyed() && h[..] == Hmac(key, old(Text())) + old(h[32..])
    {
      hide Absorbed, InnerPad, OuterPad, Hash;
      inner.Finish(h);
      assert inner.message == InnerPad(key) + old(Text());
      assert h[..32] == Hash(inner.message);
      outer.Update(h, 32);
      outer.Finish(h);
    }

    method Clean()
      requires Shape()
      modifies Parts(), istate, ostate
      ensures Shape() && inner.Valid() && outer.Valid() && inner.message == [] && outer.message == []
      ensures forall i :: 0 <= i < 8 ==> istate[i] == 0 && ostate[i] == 0
    {
      for i := 0 to 8
        invariant forall j :: 0 <= j < i ==> istate[j] == 0 && ostate[j] == 0
      {
        istate[i] := 0;
        ostate[i] := 0;
      }
      inner.Clean();
      outer.Clean();
    }
  }

  /** After 64 bytes nothing is buffered. */
  lemma WholeBlock(sha: Sha256)
    requires sha.Valid() && |sha.message| == 64
    ensures sha.buflen == 0 && Absorbed(sha.v[..], [], sha.message)
  {
    hide Absorbed;
    AbsorbedLength(sha.v[..], sha.buf[..sha.buflen], sha.message);
    assert sha.buf[..0] == [];
  }

  method MacOnce(mac: HMAC, h: array<bv8>)
    requires mac.Ready() && mac.Outside(h) && h.Length == 32
    modifies mac.Parts(), mac.istate, mac.ostate, h
    ensures h[..] == Hmac(mac.key, old(mac.Text()))
  {
    hide Hmac, Absorbed, InnerPad, OuterPad, Hash;
    mac.Finish(h);
    assert h[..] == Hmac(mac.key, old(mac.Text()));
    mac.Clean();
  }

  /** `sha256.hmac(k, m)` */
  method HmacOf(k: array<bv8>, m: array<bv8>) returns (h: array<bv8>)
    ensures fresh(h) && h[..] == Hmac(k[..], m[..])
  {
    hide Hmac, Absorbed, InnerPad, OuterPad, Hash;
    h := new bv8[32](_ => 0);
    var mac := new HMAC(k);
    mac.Update(m);
    assert mac.Text() == m[..];
    MacOnce(mac, h);
  }

  // --- key derivation ---

  /** The rounds the loop makes: it never makes less than one. */
  function AtLeastOne(rounds: nat): (c: nat)
    ensures c >= 1
  {
    if rounds == 0 then 1 else rounds
  }

  method CopyBytes(to: array<bv8>, from: array<bv8>)
    requires to.Length == from.Length && to != from
    modifies to
    ensures to[..] == from[..]
  {
    for i := 0 to from.Length
      invariant forall j :: 0 <= j < i ==> to[j] == from[j]
    {
      to[i] := from[i];
    }
  }

  method XorFrom(t: array<bv8>, u: array<bv8>)
    requires t.Length == u.Length && t != u
    modifies t
    ensures t[..] == XorBytes(old(t[..]), u[..])
  {
    for k := 0 to t.Length
      invariant forall j :: 0 <= j < k ==> t[j] == old(t[j]) ^ u[j]
      invariant forall j :: k <= j < t.Length ==> t[j] == old(t[j])
    {
      t[k] := t[k] ^ u[k];
    }
  }

  /** The first U of block `k`, from the salt and the counter. */
  method FirstU(prf: HMAC, salt: array<bv8>, k: nat, ctr: array<bv8>, u: array<bv8>)
    requires prf.Keyed() && ctr.Length == 4 && u.Length == 32 && ctr != u && salt != ctr && salt != u
    requires prf.Outside(salt) && prf.Outside(ctr) && prf.Outside(u)
    modifies prf.Parts(), ctr, u
    ensures prf.Keyed() && u[..] == U(prf.key, salt[..], k, 1)
  {
    hide Absorbed, InnerPad, OuterPad, Hmac, WordBytes, Mod;
    ghost var s := salt[..];
    PutWord(ctr, 0, Mod(k));
    assert ctr[..] == WordBytes(Mod(k));
    prf.Reset();
    prf.Update(salt);
    assert prf.Text() == s;
    prf.Update(ctr);
    assert prf.Text() == salt[..] + WordBytes(Mod(k));
    prf.Finish(u);
  }

  /** The next U is the keyed hash of the one before, computed in the same array. */
  method NextU(prf: HMAC, u: array<bv8>)
    requires prf.Keyed() && u.Length == 32 && prf.Outside(u)
    modifies prf.Parts(), u
    ensures prf.Keyed() && u[..] == Hmac(prf.key, old(u[..]))
  {
    hide Absorbed, InnerPad, OuterPad, Hmac;
    prf.Reset();
    prf.Update(u);
    assert prf.Text() == old(u[..]);
    prf.Finish(u);
  }

  /** One block of the derived key, in `t`. */
  method OneBlockOfKey(prf: HMAC, salt: array<bv8>, rounds: nat, k: nat,
                       ctr: array<bv8>, t: array<bv8>, u: array<bv8>)
    requires prf.Keyed() && ctr.Length == 4 && t.Length == u.Length == 32
    requires ctr != u && t != u && salt != ctr && salt != u && salt != t
    requires prf.Outside(salt) && prf.Outside(ctr) && prf.Outside(u) && prf.Outside(t)
    modifies prf.Parts(), ctr, t, u
    ensures prf.Keyed() && t[..] == T(prf.key, salt[..], k, AtLeastOne(rounds))
  {
    hide Absorbed, InnerPad, OuterPad, Hmac, WordBytes;
    FirstU(prf, salt, k, ctr, u);
    CopyBytes(t, u);
    ghost var s := salt[..];
    var j := 2;
    while j <= rounds
      invariant 2 <= j <= AtLeastOne(rounds) + 1 && prf.Keyed() && salt[..] == s
      invariant u[..] == U(prf.key, s, k, j - 1) && t[..] == T(prf.key, s, k, j - 1)
    {
      NextU(prf, u);
      XorFrom(t, u);
      j := j + 1;
    }
  }

  /** `sha256.pbkdf2(password, salt, rounds, dkLen)`: no rounds count as one. */
  method Pbkdf2(password: array<bv8>, salt: array<bv8>, rounds: nat, dkLen: nat) returns (dk: array<bv8>)
    ensures fresh(dk) && dk[..] == DerivedKey(password[..], salt[..], AtLeastOne(rounds), dkLen)
  {
    hide Absorbed, InnerPad, OuterPad, DerivedKey;
    dk := new bv8[dkLen](_ => 0);
    var prf := new HMAC(password);
    DeriveInto(prf, salt, rounds, dk);
    assert dk[..] == DerivedKey(password[..], salt[..], AtLeastOne(rounds), dkLen);
    prf.Clean();
  }

  /** The scratch arrays live for one derivation and are cleared after it. */
  method DeriveInto(prf: HMAC, salt: array<bv8>, rounds: nat, dk: array<bv8>)
    requires prf.Keyed() && dk != salt && prf.Outside(salt) && prf.Outside(dk)
    modifies prf.Parts(), dk
    ensures prf.Shape() && dk[..] == DerivedKey(prf.key, salt[..], AtLeastOne(rounds), dk.Length)
  {
    hide Absorbed, InnerPad, OuterPad, DerivedKey;
    var ctr := new bv8[4](_ => 0);
    var t := new bv8[32](_ => 0);
    var u := new bv8[32](_ => 0);
    Derive(prf, salt, rounds, dk, ctr, t, u);
    ClearBytes(t);
    ClearBytes(u);
    ClearBytes(ctr);
  }

  /** The loop over the blocks. */
  method Derive(prf: HMAC, salt: array<bv8>, rounds: nat, dk: array<bv8>,
                ctr: array<bv8>, t: array<bv8>, u: array<bv8>)
    requires prf.Keyed() && ctr.Length == 4 && t.Length == u.Length == 32
    requires ctr != u && t != u && salt != ctr && salt != u && salt != t
    requires dk != ctr && dk != t && dk != u && dk != salt
    requires prf.Outside(salt) && prf.Outside(ctr) && prf.Outside(u) && prf.Outside(t) && prf.Outside(dk)
    modifies prf.Parts(), ctr, t, u, dk
    ensures prf.Keyed() && dk[..] == DerivedKey(prf.key, salt[..], AtLeastOne(rounds), dk.Length)
  {
    hide Absorbed, InnerPad, OuterPad, T;
    ghost var c, s := AtLeastOne(rounds), salt[..];
    var i := 0;
    while i * 32 < dk.Length
      invariant i <= BlockCount(dk.Length) && prf.Keyed() && salt[..] == s
      invariant IsStart(dk[..], prf.key, s, c, i)
    {
      OneBlockOfKey(prf, salt, rounds, i + 1, ctr, t, u);
      ghost var before := dk[..];
      PutBlock(dk, i, t);
      NextStart(before, dk[..], prf.key, s, c, i, t[..]);
      i := i + 1;
    }
  }

  /** The array begins with the first `n` blocks, as far as it goes. */
  ghost predicate IsStart(dk: Bytes, key: Bytes, salt: Bytes, c: nat, n: nat)
    requires c >= 1
  {
    dk[..Min(32 * n, |dk|)] == Ts(key, salt, c, n)[..Min(32 * n, |dk|)]
  }

  lemma NextStart(before: Bytes, after: Bytes, key: Bytes, salt: Bytes, c: nat, i: nat, t: Bytes)
    requires c >= 1 && |before| == |after| && 32 * i < |before| && IsStart(before, key, salt, c, i)
    requires after[..32 * i] == before[..32 * i]
    requires |t| == 32 && after[32 * i..Min(32 * i + 32, |after|)] == t[..Min(32, |after| - 32 * i)]
    requires t == T(key, salt, i + 1, c)
    ensures IsStart(after, key, salt, c, i + 1)
  {
    hide T, Ts;
    TsNext(key, salt, c, i);
    GlueBlocks(before, after, Ts(key, salt, c, i), t, i);
  }

  lemma GlueBlocks(before: Bytes, after: Bytes, ts: Bytes, t: Bytes, i: nat)
    requires |before| == |after| && 32 * i < |before| && |ts| == 32 * i && |t| == 32
    requires before[..Min(32 * i, |before|)] == ts[..Min(32 * i, |before|)]
    requires after[..32 * i] == before[..32 * i]
    requires after[32 * i..Min(32 * i + 32, |after|)] == t[..Min(32, |after| - 32 * i)]
    ensures after[..Min(32 * i + 32, |after|)] == (ts + t)[..Min(32 * i + 32, |after|)]
  {
    assert ts[..32 * i] == ts;
    Glue(after, ts, t, 32 * i, Min(32 * i + 32, |after|));
  }

  lemma TsNext(key: Bytes, salt: Bytes, c: nat, i: nat)
    requires c >= 1
    ensures Ts(key, salt, c, i + 1) == Ts(key, salt, c, i) + T(key, salt, i + 1, c)
  {
    hide T;
  }

  lemma Glue(dk: Bytes, ts: Bytes, t: Bytes, n: nat, end: nat)
    requires n <= end <= |dk| && |ts| == n && end - n <= |t|
    requires dk[..n] == ts && dk[n..end] == t[..end - n]
    ensures dk[..end] == (ts + t)[..end]
  {
    assert dk[..end] == dk[..n] + dk[n..end];
    assert (ts + t)[..end] == ts + t[..end - n];
  }

  function Min(a: nat, b: nat): nat { if a < b then a else b }

  /** As much of the block as the derived key still has room for. */
  method PutBlock(dk: array<bv8>, i: nat, t: array<bv8>)
    requires t.Length == 32 && 32 * i < dk.Length && dk != t
    modifies dk
    ensures dk[..32 * i] == old(dk[..32 * i])
    ensures dk[32 * i..Min(32 * i + 32, dk.Length)] == t[..Min(32, dk.Length - 32 * i)]
  {
    var j := 0;
    while j < 32 && i * 32 + j < dk.Length
      invariant j <= 32 && i * 32 + j <= dk.Length
      invariant dk[..32 * i] == old(dk[..32 * i])
      invariant forall n :: 0 <= n < j ==> dk[32 * i + n] == t[n]
    {
      dk[i * 32 + j] := t[j];
      j := j + 1;
    }
  }
}
