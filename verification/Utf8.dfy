/**
 UTF-8 as the MessagePack codec uses it: applied to each 16-bit code unit of a string by
 itself, so surrogates become three bytes each.  Masks and shifts are written as quotients and
 remainders by powers of two; an `or` of disjoint bits is a sum.
 */
module Utf8 {
  /** A byte of a buffer. */
  type Byte = b: int | 0 <= b < 0x100

  /** A code unit of a string. */
  type CodeUnit = u: int | 0 <= u < 0x10000

  type Text = seq<CodeUnit>

  type Bytes = seq<Byte>

  datatype Error =
    | OutOfRange
    | InvalidByte(b: Byte)
    | UnknownType(t: Byte)
    | OddKey
    | TrailingBytes(n: int)

  /** What a read from a buffer gives: a value and the offset behind it, or an exception. */
  datatype Read<+T> = Ok(value: T, next: nat) | Err(error: Error)

  /** The buffer with the bytes from `at` on replaced by the given ones. */
  function Splice(s: Bytes, at: nat, bytes: Bytes): (r: Bytes)
    requires at + |bytes| <= |s|
    ensures |r| == |s|
  {
    s[..at] + bytes + s[at + |bytes|..]
  }

  lemma SpliceTwice(s: Bytes, at: nat, a: Bytes, b: Bytes)
    requires at + |a| + |b| <= |s|
    ensures Splice(Splice(s, at, a), at + |a|, b) == Splice(s, at, a + b)
  {
  }

  lemma SpliceNothing(s: Bytes, at: nat)
    requires at <= |s|
    ensures Splice(s, at, []) == s
  {
  }

  /** `e` stands in the buffer at `off`. */
  predicate Holds(bytes: Bytes, off: nat, e: Bytes) {
    off + |e| <= |bytes| && bytes[off..off + |e|] == e
  }

  lemma HoldsParts(bytes: Bytes, off: nat, a: Bytes, b: Bytes)
    requires Holds(bytes, off, a + b)
    ensures Holds(bytes, off, a) && Holds(bytes, off + |a|, b)
  {
    var both := bytes[off..off + |a + b|];
    assert both[..|a|] == a && both[|a|..] == b;
    assert bytes[off..off + |a|] == both[..|a|];
    assert bytes[off + |a|..off + |a| + |b|] == both[|a|..];
  }

  // --- writing ---

  /** The bytes of one code unit. */
  function UnitBytes(u: CodeUnit): (bytes: Bytes)
    ensures 1 <= |bytes| <= 3
  {
    if u < 0x80 then [u]
    else if u < 0x800 then [0xc0 + u / 0x40, 0x80 + u % 0x40]
    else [0xe0 + u / 0x1000, 0x80 + u / 0x40 % 0x40, 0x80 + u % 0x40]
  }

  function Encoded(s: Text): Bytes {
    if s == [] then [] else UnitBytes(s[0]) + Encoded(s[1..])
  }

  /** `utf8ByteCount` */
  method ByteCount(s: Text) returns (count: nat)
    ensures count == |Encoded(s)|
  {
    count := 0;
    for i := 0 to |s|
      invariant count + |Encoded(s[i..])| == |Encoded(s)|
    {
      assert s[i..][0] == s[i] && s[i..][1..] == s[i + 1..];
      if s[i] < 0x80 {
        count := count + 1;
        continue;
      }
      if s[i] < 0x800 {
        count := count + 2;
        continue;
      }
      count := count + 3;
    }
  }

  /** `utf8Write`: the bytes of the text in place, everything else unchanged. */
  method Write(view: array<Byte>, start: nat, s: Text)
    requires start + |Encoded(s)| <= view.Length
    modifies view
    ensures view[..] == Splice(old(view[..]), start, Encoded(s))
  {
    var offset := start;
    ghost var done: Bytes := [];
    SpliceNothing(view[..], start);
    for i := 0 to |s|
      invariant offset == start + |done| && done + Encoded(s[i..]) == Encoded(s)
      invariant offset <= view.Length && view[..] == Splice(old(view[..]), start, done)
    {
      assert s[i..][0] == s[i] && s[i..][1..] == s[i + 1..];
      assert done + Encoded(s[i..]) == done + UnitBytes(s[i]) + Encoded(s[i + 1..]);
      offset := WriteUnit(view, offset, s[i]);
      SpliceTwice(old(view[..]), start, done, UnitBytes(s[i]));
      done := done + UnitBytes(s[i]);
    }
    assert done == Encoded(s);
  }

  /** One turn of the loop of `utf8Write`. */
  method WriteUnit(view: array<Byte>, at: nat, codePoint: CodeUnit) returns (offset: nat)
    requires at + |UnitBytes(codePoint)| <= view.Length
    modifies view
    ensures offset == at + |UnitBytes(codePoint)|
    ensures view[..] == Splice(old(view[..]), at, UnitBytes(codePoint))
  {
    if codePoint < 0x80 {
      view[at] := codePoint;
      return at + 1;
    }
    if codePoint < 0x800 {
      view[at] := 0xc0 + codePoint / 0x40;
      view[at + 1] := 0x80 + codePoint % 0x40;
      return at + 2;
    }
    view[at] := 0xe0 + codePoint / 0x1000;
    view[at + 1] := 0x80 + codePoint / 0x40 % 0x40;
    view[at + 2] := 0x80 + codePoint % 0x40;
    return at + 3;
  }

  // --- reading ---

  /** How many bytes follow a first byte, if it can be one. */
  function Following(b: Byte): Read<nat> {
    if b < 0x80 then Ok(0, 1)
    else if 0xc0 <= b < 0xe0 then Ok(1, 2)
    else if 0xe0 <= b < 0xf0 then Ok(2, 3)
    else if 0xf0 <= b < 0xf8 then Ok(3, 4)
    else Err(InvalidByte(b))
  }

  function Two(a: int, b: int): int { a % 0x10 * 0x40 + b % 0x40 }

  function Three(a: int, b: int, c: int): int { a % 0x10 * 0x1000 + b % 0x40 * 0x40 + c % 0x40 }

  function Four(a: int, b: int, c: int, d: int): int {
    a % 0x08 * 0x40000 + b % 0x40 * 0x1000 + c % 0x40 * 0x40 + d % 0x40
  }

  /** The code unit of a first byte and its followers; `String.fromCharCode` keeps 16 bits. */
  function UnitOf(bytes: Bytes): (u: CodeUnit)
    requires 1 <= |bytes| <= 4 && (|bytes| == 1 ==> bytes[0] < 0x80)
  {
    if |bytes| == 1 then bytes[0]
    else if |bytes| == 2 then Two(bytes[0], bytes[1])
    else if |bytes| == 3 then Three(bytes[0], bytes[1], bytes[2])
    else Four(bytes[0], bytes[1], bytes[2], bytes[3]) % 0x10000
  }

  /** One turn of the loop of `utf8Read`; followers are read beyond the end of the text as well. */
  function UnitAt(bytes: Bytes, i: nat): (r: Read<CodeUnit>)
    ensures r.Ok? ==> i < r.next <= |bytes|
  {
    if i >= |bytes| then Err(OutOfRange)
    else
      var more := Following(bytes[i]);
      if more.Err? then Err(more.error)
      else if i + more.next > |bytes| then Err(OutOfRange)
      else Ok(UnitOf(bytes[i..i + more.next]), i + more.next)
  }

  /** The text read from `i` while before `end`. */
  function Decoded(bytes: Bytes, i: nat, end: nat): (r: Read<Text>)
    ensures r.Ok? ==> i <= r.next && end <= r.next && (i < end ==> r.next <= |bytes|)
    decreases end - i
  {
    if i >= end then Ok([], i)
    else
      var u := UnitAt(bytes, i);
      if u.Err? then Err(u.error)
      else
        var rest := Decoded(bytes, u.next, end);
        if rest.Err? then rest else Ok([u.value] + rest.value, rest.next)
  }

  /** `utf8Read` */
  method ReadText(view: array<Byte>, offset: nat, length: nat) returns (r: Read<Text>)
    ensures r == Decoded(view[..], offset, offset + length)
  {
    var s: Text := [];
    var i, end := offset, offset + length;
    ghost var all := Decoded(view[..], offset, end);
    assert all.Ok? ==> [] + all.value == all.value;
    while i < end
      invariant Follows(all, s, Decoded(view[..], i, end))
      decreases end - i
    {
      var unit := ReadUnit(view, i);
      if unit.Err? {
        return Err(unit.error);
      }
      FollowsNext(all, s, view[..], i, end);
      s := s + [unit.value];
      i := unit.next;
    }
    assert s + [] == s;
    return Ok(s, i);
  }

  /** The whole result is the text read so far followed by the result of reading the rest. */
  ghost predicate Follows(all: Read<Text>, s: Text, rest: Read<Text>) {
    all == if rest.Err? then rest else Ok(s + rest.value, rest.next)
  }

  lemma FollowsNext(all: Read<Text>, s: Text, bytes: Bytes, i: nat, end: nat)
    requires i < end && UnitAt(bytes, i).Ok? && Follows(all, s, Decoded(bytes, i, end))
    ensures Follows(all, s + [UnitAt(bytes, i).value], Decoded(bytes, UnitAt(bytes, i).next, end))
  {
    var u := UnitAt(bytes, i);
    var rest := Decoded(bytes, u.next, end);
    if rest.Ok? {
      assert s + ([u.value] + rest.value) == (s + [u.value]) + rest.value;
    }
  }

  method ReadUnit(view: array<Byte>, i: nat) returns (r: Read<CodeUnit>)
    ensures r == UnitAt(view[..], i)
  {
    if i >= view.Length {
      return Err(OutOfRange);
    }
    var byte := view[i];
    if byte < 0x80 {
      return Ok(byte, i + 1);
    }
    if 0xc0 <= byte < 0xe0 {
      if i + 1 >= view.Length {
        return Err(OutOfRange);
      }
      return Ok(Two(byte, view[i + 1]), i + 2);
    }
    if 0xe0 <= byte < 0xf0 {
      if i + 2 >= view.Length {
        return Err(OutOfRange);
      }
      return Ok(Three(byte, view[i + 1], view[i + 2]), i + 3);
    }
    if 0xf0 <= byte < 0xf8 {
      if i + 3 >= view.Length {
        return Err(OutOfRange);
      }
      var codePoint := Four(byte, view[i + 1], view[i + 2], view[i + 3]);
      return Ok(codePoint % 0x10000, i + 4);
    }
    return Err(InvalidByte(byte));
  }

  // --- there and back ---

  /** What the two-byte mask makes of a code unit: bit 0x400 is lost below 0x800. */
  function MangleUnit(u: CodeUnit): CodeUnit {
    if 0x400 <= u < 0x800 then u - 0x400 else u
  }

  function MangleText(s: Text): (r: Text)
    ensures |r| == |s|
    ensures forall i :: 0 <= i < |s| ==> r[i] == MangleUnit(s[i])
  {
    if s == [] then [] else [MangleUnit(s[0])] + MangleText(s[1..])
  }

  /** The code units the reader gives back as they were. */
  predicate CleanText(s: Text) {
    forall i :: 0 <= i < |s| ==> !(0x400 <= s[i] < 0x800)
  }

  lemma CleanTexts(s: Text)
    ensures MangleText(s) == s <==> CleanText(s)
  {
    if CleanText(s) {
      assert forall i :: 0 <= i < |s| ==> MangleText(s)[i] == s[i];
    }
    if i :| 0 <= i < |s| && 0x400 <= s[i] < 0x800 {
      assert MangleText(s)[i] != s[i];
    }
  }

  lemma TwoThere(u: int)
    requires 0x80 <= u < 0x800
    ensures Two(0xc0 + u / 0x40, 0x80 + u % 0x40) == u % 0x400
  {
  }

  lemma ThreeThere(u: int)
    requires 0x800 <= u < 0x10000
    ensures Three(0xe0 + u / 0x1000, 0x80 + u / 0x40 % 0x40, 0x80 + u % 0x40) == u
  {
    var high, low := u / 0x40, u % 0x40;
    assert (0xe0 + u / 0x1000) % 0x10 == high / 0x40;
  }

  lemma UnitRoundTrip(u: CodeUnit)
    ensures var bytes := UnitBytes(u);
            Following(bytes[0]).Ok? && Following(bytes[0]).next == |bytes| && UnitOf(bytes) == MangleUnit(u)
  {
    hide Two, Three;
    if 0x80 <= u < 0x800 {
      TwoThere(u);
    } else if 0x800 <= u {
      ThreeThere(u);
    }
  }

  /** Reading an encoded text, wherever it stands, gives the text with the mask's losses. */
  lemma {:induction false} TextRoundTrip(bytes: Bytes, off: nat, s: Text)
    requires Holds(bytes, off, Encoded(s))
    ensures Decoded(bytes, off, off + |Encoded(s)|) == Ok(MangleText(s), off + |Encoded(s)|)
    decreases |s|
  {
    hide UnitBytes, UnitOf, Following, MangleUnit;
    if s != [] {
      var first, rest := UnitBytes(s[0]), Encoded(s[1..]);
      HoldsParts(bytes, off, first, rest);
      UnitRoundTrip(s[0]);
      assert bytes[off..off + |first|] == first;
      assert bytes[off] == first[0];
      TextRoundTrip(bytes, off + |first|, s[1..]);
    }
  }

  /**
   The payload bits of section 3 of RFC 3629: five in the first of two bytes, where the reader
   above keeps four.
   */
  function StandardUnit(bytes: Bytes): int
    requires 1 <= |bytes| <= 3
  {
    if |bytes| == 1 then bytes[0]
    else if |bytes| == 2 then StandardTwo(bytes[0], bytes[1])
    else Three(bytes[0], bytes[1], bytes[2])
  }

  function StandardTwo(a: int, b: int): int { a % 0x20 * 0x40 + b % 0x40 }

  lemma StandardTwoThere(u: int)
    requires 0x80 <= u < 0x800
    ensures StandardTwo(0xc0 + u / 0x40, 0x80 + u % 0x40) == u
  {
  }

  /** Each code unit is written in the shortest of the three standard forms that holds it. */
  lemma WriterIsStandard(u: CodeUnit)
    ensures StandardUnit(UnitBytes(u)) == u
    ensures |UnitBytes(u)| == if u < 0x80 then 1 else if u < 0x800 then 2 else 3
    ensures Following(UnitBytes(u)[0]) == Ok(|UnitBytes(u)| - 1, |UnitBytes(u)|)
    ensures forall i :: 1 <= i < |UnitBytes(u)| ==> 0x80 <= UnitBytes(u)[i] < 0xc0
  {
    hide StandardTwo, Three;
    if 0x80 <= u < 0x800 {
      StandardTwoThere(u);
    } else if 0x800 <= u {
      ThreeThere(u);
    }
  }

  /** The bytes of a code point, by section 3 of RFC 3629. */
  function StandardBytes(p: int): (bytes: Bytes)
    requires 0 <= p < 0x11_0000
    ensures 1 <= |bytes| <= 4
  {
    if p < 0x80 then [p]
    else if p < 0x800 then [0xc0 + p / 0x40, 0x80 + p % 0x40]
    else if p < 0x1_0000 then [0xe0 + p / 0x1000, 0x80 + p / 0x40 % 0x40, 0x80 + p % 0x40]
    else [0xf0 + p / 0x4_0000, 0x80 + p / 0x1000 % 0x40, 0x80 + p / 0x40 % 0x40, 0x80 + p % 0x40]
  }

  lemma FourThere(p: int)
    requires 0x1_0000 <= p < 0x11_0000
    ensures Four(0xf0 + p / 0x4_0000, 0x80 + p / 0x1000 % 0x40, 0x80 + p / 0x40 % 0x40, 0x80 + p % 0x40) == p
  {
    var a, b, c, d := p / 0x4_0000, p / 0x1000 % 0x40, p / 0x40 % 0x40, p % 0x40;
    var q := p / 0x40;
    assert q / 0x40 == p / 0x1000 && q / 0x40 / 0x40 == p / 0x4_0000;
    assert p == 0x40 * q + d && q == 0x40 * (q / 0x40) + c && q / 0x40 == 0x40 * a + b;
    assert (0xf0 + a) % 0x08 == a;
  }

  /**
   What the reader makes of a code point in standard text: one code unit, which is the code
   point's low 16 bits, without bit 0x400 below 0x800.  So no code point beyond 0xffff is ever
   read as the pair of units it should be.
   */
  lemma ReaderOfStandard(p: int)
    requires 0 <= p < 0x11_0000
    ensures Decoded(StandardBytes(p), 0, |StandardBytes(p)|)
         == Ok([if p < 0x1_0000 then MangleUnit(p) else p % 0x1_0000], |StandardBytes(p)|)
  {
    hide Two, Three, Four;
    var bytes := StandardBytes(p);
    if p < 0x1_0000 {
      assert bytes == UnitBytes(p);
      UnitRoundTrip(p);
    } else {
      FourThere(p);
    }
    assert bytes[0..|bytes|] == bytes;
    OneUnitOnly(bytes);
  }

  lemma OneUnitOnly(bytes: Bytes)
    requires bytes != [] && UnitAt(bytes, 0).Ok? && UnitAt(bytes, 0).next == |bytes|
    ensures Decoded(bytes, 0, |bytes|) == Ok([UnitAt(bytes, 0).value], |bytes|)
  {
    var u := UnitAt(bytes, 0);
    assert Decoded(bytes, u.next, |bytes|) == Ok([], |bytes|);
    assert [u.value] + [] == [u.value];
  }
}
