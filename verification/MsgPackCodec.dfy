/**
 The codec itself: `sizeof`, `encode` writing in place into one buffer, and the `Decoder`
 object that moves its offset through one.
 */
module MsgPackCodec {
  import opened Wrappers
  import opened Utf8
  import opened MsgPack

  // --- values the program can have ---

  /** A value of the program: integers of 32 bits, doubles of eight bytes, objects with distinct keys. */
  predicate IsValue(v: Value)
    decreases v
  {
    match v
    case Single(_) => false
    case Str(_) => true
    case Buf(_) => true
    case Arr(items) => AllValues(items)
    case Map(entries) => Distinct(entries) && EntriesAreValues(entries)
    case Null => true
    case Undefined => true
    case Bool(_) => true
    case Int(n) => IsInt32(n)
    case Double(bits) => |bits| == 8
  }

  predicate AllValues(items: seq<Value>)
    decreases items
  {
    items == [] || (IsValue(items[0]) && AllValues(items[1..]))
  }

  predicate EntriesAreValues(entries: seq<Entry>)
    decreases entries
  {
    entries == [] || (IsValue(entries[0].value) && EntriesAreValues(entries[1..]))
  }

  // --- sizeof ---

  /** `sizeof`: the size of the encoding, or an exception exactly for the values with no encoding. */
  method SizeOf(value: Value) returns (r: Option<nat>)
    requires IsValue(value)
    ensures r == if Encodable(value) then Some(|Enc(value)|) else None
    decreases value
  {
    if value.Str? {
      r := SizeOfText(value.s);
    } else if value.Buf? {
      var length := |value.data|;
      // an over-long buffer has no own keys
      r := Some(if length < 0x10000 then 3 + length else if length < LIMIT then 5 + length else 1);
    } else if value.Int? {
      r := Some(SizeOfInt(value.n));
    } else if value.Double? {
      r := Some(9);
    } else if value.Arr? {
      var size := SizeOfItems(value.items);
      r := WithLength(|value.items|, size);
    } else if value.Map? {
      var size := SizeOfEntries(value.entries);
      r := WithLength(|value.entries|, size);
    } else {
      r := Some(1);
    }
  }

  method SizeOfText(s: Text) returns (r: Option<nat>)
    ensures r == if |Encoded(s)| < LIMIT then Some(|StrBytes(s)|) else None
  {
    var length := ByteCount(s);
    if length < 0x20 {
      return Some(1 + length);
    }
    if length < 0x10000 {
      return Some(3 + length);
    }
    if length < LIMIT {
      return Some(5 + length);
    }
    return None;
  }

  function SizeOfInt(n: int): (size: nat)
    requires IsInt32(n)
    ensures size == |IntBytes(n)|
  {
    if n >= 0 then
      if n < 0x80 then 1 else if n < 0x100 then 2 else if n < 0x10000 then 3 else 5
    else if n >= -0x20 then 1
    else if n >= -0x80 then 2
    else if n >= -0x8000 then 3
    else 5
  }

  method WithLength(length: nat, size: Option<nat>) returns (r: Option<nat>)
    ensures r == if length < LIMIT && size.Some?
                 then Some(|LengthBytes(length, 0x10, 0x80, 0xde, 0xdf)| + size.value) else None
  {
    if size.None? {
      return None;
    }
    if length < 0x10 {
      return Some(1 + size.value);
    }
    if length < 0x10000 {
      return Some(3 + size.value);
    }
    if length < LIMIT {
      return Some(5 + size.value);
    }
    return None;
  }

  method SizeOfItems(items: seq<Value>) returns (r: Option<nat>)
    requires AllValues(items)
    ensures r == if AllEncodable(items) then Some(|EncAll(items)|) else None
    decreases items
  {
    var size := 0;
    for i := 0 to |items|
      invariant AllValues(items[i..]) && (AllEncodable(items) <==> AllEncodable(items[i..]))
      invariant AllEncodable(items) ==> size + |EncAll(items[i..])| == |EncAll(items)|
    {
      assert items[i..][0] == items[i] && items[i..][1..] == items[i + 1..];
      var one := SizeOf(items[i]);
      if one.None? {
        return None;
      }
      size := size + one.value;
    }
    return Some(size);
  }

  method SizeOfEntries(entries: seq<Entry>) returns (r: Option<nat>)
    requires EntriesAreValues(entries)
    ensures r == if EntriesEncodable(entries) then Some(|EncEntries(entries)|) else None
    decreases entries
  {
    var size := 0;
    for i := 0 to |entries|
      invariant EntriesAreValues(entries[i..]) && (EntriesEncodable(entries) <==> EntriesEncodable(entries[i..]))
      invariant EntriesEncodable(entries) ==> size + |EncEntries(entries[i..])| == |EncEntries(entries)|
    {
      assert entries[i..][0] == entries[i] && entries[i..][1..] == entries[i + 1..];
      var key := SizeOfText(entries[i].key);
      if key.None? {
        return None;
      }
      var one := SizeOf(entries[i].value);
      if one.None? {
        return None;
      }
      size := size + key.value + one.value;
    }
    return Some(size);
  }

  // --- encode ---

  method SetUint16(view: array<Byte>, at: nat, n: int)
    requires 0 <= n < 0x10000 && at + 2 <= view.Length
    modifies view
    ensures view[..] == Splice(old(view[..]), at, Be16(n))
  {
    view[at] := n / 0x100;
    view[at + 1] := n % 0x100;
  }

  method SetUint32(view: array<Byte>, at: nat, n: int)
    requires 0 <= n < LIMIT && at + 4 <= view.Length
    modifies view
    ensures view[..] == Splice(old(view[..]), at, Be32(n))
  {
    SetUint16(view, at, n / 0x10000);
    SetUint16(view, at + 2, n % 0x10000);
    SpliceTwice(old(view[..]), at, Be16(n / 0x10000), Be16(n % 0x10000));
  }

  method SetUint8(view: array<Byte>, at: nat, b: Byte)
    requires at < view.Length
    modifies view
    ensures view[..] == Splice(old(view[..]), at, [b])
  {
    view[at] := b;
  }

  method SetBytes(view: array<Byte>, at: nat, bytes: Bytes)
    requires at + |bytes| <= view.Length
    modifies view
    ensures view[..] == Splice(old(view[..]), at, bytes)
  {
    forall i | 0 <= i < |bytes| {
      view[at + i] := bytes[i];
    }
  }

  /** The type and the length of a string, a buffer or a container. */
  method WriteLength(view: array<Byte>, offset: nat, n: nat, fix: nat, fixed: Byte, two: Byte, four: Byte)
    returns (size: nat)
    requires n < LIMIT && fixed + fix <= 0x100
    requires offset + |LengthBytes(n, fix, fixed, two, four)| <= view.Length
    modifies view
    ensures size == |LengthBytes(n, fix, fixed, two, four)|
    ensures view[..] == Splice(old(view[..]), offset, LengthBytes(n, fix, fixed, two, four))
  {
    if n < fix {
      SetUint8(view, offset, fixed + n);
      return 1;
    }
    if n < 0x10000 {
      SetUint8(view, offset, two);
      SetUint16(view, offset + 1, n);
      SpliceTwice(old(view[..]), offset, [two], Be16(n));
      return 3;
    }
    SetUint8(view, offset, four);
    SetUint32(view, offset + 1, n);
    SpliceTwice(old(view[..]), offset, [four], Be32(n));
    return 5;
  }

  method EncodeText(s: Text, view: array<Byte>, offset: nat) returns (size: nat)
    requires |Encoded(s)| < LIMIT && offset + |StrBytes(s)| <= view.Length
    modifies view
    ensures size == |StrBytes(s)|
    ensures view[..] == Splice(old(view[..]), offset, StrBytes(s))
  {
    var length := ByteCount(s);
    var head := WriteLength(view, offset, length, 0x20, 0xa0, 0xda, 0xdb);
    Utf8.Write(view, offset + head, s);
    SpliceTwice(old(view[..]), offset, HeadBytes(StrHead(length)), Encoded(s));
    return head + length;
  }

  method EncodeInt(value: int, view: array<Byte>, offset: nat) returns (size: nat)
    requires IsInt32(value) && offset + |IntBytes(value)| <= view.Length
    modifies view
    ensures size == |IntBytes(value)|
    ensures view[..] == Splice(old(view[..]), offset, IntBytes(value))
  {
    if value >= 0 {
      if value < 0x80 {
        SetUint8(view, offset, value);
        return 1;
      }
      if value < 0x100 {
        SetUint8(view, offset, 0xcc);
        SetUint8(view, offset + 1, value);
        SpliceTwice(old(view[..]), offset, [0xcc], [value]);
        return 2;
      }
      if value < 0x10000 {
        SetUint8(view, offset, 0xcd);
        SetUint16(view, offset + 1, value);
        SpliceTwice(old(view[..]), offset, [0xcd], Be16(value));
        return 3;
      }
      SetUint8(view, offset, 0xce);
      SetUint32(view, offset + 1, value);
      SpliceTwice(old(view[..]), offset, [0xce], Be32(value));
      return 5;
    }
    size := EncodeNegative(value, view, offset);
  }

  /** Negative numbers: the setters for signed numbers keep the low bits. */
  method EncodeNegative(value: int, view: array<Byte>, offset: nat) returns (size: nat)
    requires -0x8000_0000 <= value < 0 && offset + |IntBytes(value)| <= view.Length
    modifies view
    ensures size == |IntBytes(value)|
    ensures view[..] == Splice(old(view[..]), offset, IntBytes(value))
  {
    hide Splice;
    if value >= -0x20 {
      SetUint8(view, offset, value + 0x100);
      return 1;
    }
    if value >= -0x80 {
      SetUint8(view, offset, 0xd0);
      SetUint8(view, offset + 1, value + 0x100);
      SpliceTwice(old(view[..]), offset, [0xd0], [value + 0x100]);
      assert [0xd0] + [value + 0x100] == IntBytes(value);
      return 2;
    }
    if value >= -0x8000 {
      SetUint8(view, offset, 0xd1);
      SetUint16(view, offset + 1, value + 0x10000);
      SpliceTwice(old(view[..]), offset, [0xd1], Be16(value + 0x10000));
      return 3;
    }
    SetUint8(view, offset, 0xd2);
    SetUint32(view, offset + 1, value + LIMIT);
    SpliceTwice(old(view[..]), offset, [0xd2], Be32(value + LIMIT));
    return 5;
  }

  /**
   `encode`: returns the size, and leaves the encoding at the offset with every other byte of
   the buffer as it was.
   */
  method Encode(value: Value, view: array<Byte>, offset: nat) returns (size: nat)
    requires Encodable(value) && offset + |Enc(value)| <= view.Length
    modifies view
    ensures size == |Enc(value)|
    ensures view[..] == Splice(old(view[..]), offset, Enc(value))
    decreases value
  {
    if value.Str? {
      size := EncodeText(value.s, view, offset);
    } else if value.Buf? {
      size := EncodeBuffer(value.data, view, offset);
    } else if value.Int? {
      size := EncodeInt(value.n, view, offset);
    } else if value.Double? {
      SetUint8(view, offset, 0xcb);
      SetBytes(view, offset + 1, value.bits);
      SpliceTwice(old(view[..]), offset, [0xcb], value.bits);
      size := 9;
    } else if value.Arr? {
      var head := WriteLength(view, offset, |value.items|, 0x10, 0x90, 0xdc, 0xdd);
      var rest := EncodeItems(value.items, view, offset + head);
      SpliceTwice(old(view[..]), offset, HeadBytes(ArrHead(|value.items|)), EncAll(value.items));
      size := head + rest;
    } else if value.Map? {
      var head := WriteLength(view, offset, |value.entries|, 0x10, 0x80, 0xde, 0xdf);
      var rest := EncodeEntries(value.entries, view, offset + head);
      SpliceTwice(old(view[..]), offset, HeadBytes(MapHead(|value.entries|)), EncEntries(value.entries));
      size := head + rest;
    } else {
      SetUint8(view, offset, LeafBytes(value)[0]);
      size := 1;
    }
  }

  method EncodeBuffer(data: Bytes, view: array<Byte>, offset: nat) returns (size: nat)
    requires offset + |Enc(Buf(data))| <= view.Length
    modifies view
    ensures size == |Enc(Buf(data))|
    ensures view[..] == Splice(old(view[..]), offset, Enc(Buf(data)))
  {
    if |data| < LIMIT {
      var head := WriteLength(view, offset, |data|, 0, 0, 0xd8, 0xd9);
      SetBytes(view, offset + head, data);
      SpliceTwice(old(view[..]), offset, HeadBytes(BufHead(|data|)), data);
      size := head + |data|;
    } else {
      // falls through to the objects and has no own keys
      size := WriteLength(view, offset, 0, 0x10, 0x80, 0xde, 0xdf);
    }
  }

  method EncodeItems(items: seq<Value>, view: array<Byte>, offset: nat) returns (size: nat)
    requires AllEncodable(items) && offset + |EncAll(items)| <= view.Length
    modifies view
    ensures size == |EncAll(items)|
    ensures view[..] == Splice(old(view[..]), offset, EncAll(items))
    decreases items
  {
    hide Splice, Enc, Encodable;
    size := 0;
    ghost var done: Bytes := [];
    SpliceNothing(view[..], offset);
    for i := 0 to |items|
      invariant AllEncodable(items[i..]) && size == |done| && done + EncAll(items[i..]) == EncAll(items)
      invariant offset + size <= view.Length && view[..] == Splice(old(view[..]), offset, done)
    {
      assert items[i..][0] == items[i] && items[i..][1..] == items[i + 1..];
      assert done + EncAll(items[i..]) == done + Enc(items[i]) + EncAll(items[i + 1..]);
      var one := Encode(items[i], view, offset + size);
      SpliceTwice(old(view[..]), offset, done, Enc(items[i]));
      done := done + Enc(items[i]);
      size := size + one;
    }
    assert done == EncAll(items);
  }

  method EncodeEntries(entries: seq<Entry>, view: array<Byte>, offset: nat) returns (size: nat)
    requires EntriesEncodable(entries) && offset + |EncEntries(entries)| <= view.Length
    modifies view
    ensures size == |EncEntries(entries)|
    ensures view[..] == Splice(old(view[..]), offset, EncEntries(entries))
    decreases entries
  {
    hide Splice, Enc, EncEntry, Encodable, Encoded;
    size := 0;
    ghost var done: Bytes := [];
    SpliceNothing(view[..], offset);
    for i := 0 to |entries|
      invariant EntriesEncodable(entries[i..]) && size == |done|
      invariant done + EncEntries(entries[i..]) == EncEntries(entries)
      invariant offset + size <= view.Length && view[..] == Splice(old(view[..]), offset, done)
    {
      assert entries[i..][0] == entries[i] && entries[i..][1..] == entries[i + 1..];
      assert done + EncEntries(entries[i..]) == done + EncEntry(entries[i]) + EncEntries(entries[i + 1..]);
      var one := EncodeEntry(entries[i], view, offset + size);
      SpliceTwice(old(view[..]), offset, done, EncEntry(entries[i]));
      done := done + EncEntry(entries[i]);
      size := size + one;
    }
    assert done == EncEntries(entries);
  }

  method EncodeEntry(e: Entry, view: array<Byte>, offset: nat) returns (size: nat)
    requires |Encoded(e.key)| < LIMIT && Encodable(e.value) && offset + |EncEntry(e)| <= view.Length
    modifies view
    ensures size == |EncEntry(e)|
    ensures view[..] == Splice(old(view[..]), offset, EncEntry(e))
    decreases e
  {
    hide Splice, Encoded, Enc, Encodable;
    var key := EncodeText(e.key, view, offset);
    var one := Encode(e.value, view, offset + key);
    SpliceTwice(old(view[..]), offset, StrBytes(e.key), Enc(e.value));
    size := key + one;
  }

  /** `msgpack.encode`: a buffer of exactly the computed size, filled from end to end. */
  method EncodeToBuffer(value: Value) returns (buffer: Option<array<Byte>>)
    requires IsValue(value)
    ensures buffer.Some? <==> Encodable(value)
    ensures buffer.Some? ==> fresh(buffer.value) && buffer.value[..] == Enc(value)
  {
    var size := SizeOf(value);
    if size.None? {
      return None;
    }
    var view := new Byte[size.value];
    var written := Encode(value, view, 0);
    return Some(view);
  }

  // --- the decoder ---

  class Decoder {
    const view: array<Byte>
    var offset: nat

    constructor (view: array<Byte>, offset: nat)
      ensures this.view == view && this.offset == offset
    {
      this.view := view;
      this.offset := offset;
    }

    method GetUint(at: nat, width: nat) returns (r: Read<nat>)
      requires width == 1 || width == 2 || width == 4
      ensures r == UintAt(view[..], at, width)
    {
      if at + width > view.Length {
        return Err(OutOfRange);
      }
      if width == 1 {
        return Ok(view[at], at + 1);
      }
      if width == 2 {
        return Ok(Join16(view[at], view[at + 1]), at + 2);
      }
      assert view[at..at + 4][..2] == [view[at], view[at + 1]];
      assert view[at..at + 4][2..] == [view[at + 2], view[at + 3]];
      return Ok(Join32(Join16(view[at], view[at + 1]), Join16(view[at + 2], view[at + 3])), at + 4);
    }

    method Raw(length: nat) returns (r: Read<Value>)
      modifies this
      ensures r == StrAt(view[..], old(offset), length)
      ensures r.Ok? ==> offset == r.next
    {
      var s := ReadText(view, offset, length);
      if s.Err? {
        return Err(s.error);
      }
      offset := offset + length;
      return Ok(Str(s.value), offset);
    }

    method GetBuf(length: nat) returns (r: Read<Value>)
      modifies this
      ensures r == BufAt(view[..], old(offset), length)
      ensures r.Ok? ==> offset == r.next
    {
      if offset + length > view.Length {
        return Err(OutOfRange);
      }
      var data := view[offset..offset + length];
      offset := offset + length;
      return Ok(Buf(data), offset);
    }

    /** One value at the offset; the offset moves behind it. */
    method Parse() returns (r: Read<Value>)
      modifies this
      ensures r == MsgPack.Parse(view[..], old(offset))
      ensures r.Ok? ==> offset == r.next
      decreases Rest(view[..], offset), 0
    {
      var head := ParseHead();
      if head.Err? {
        return Err(head.error);
      }
      match head.value {
        case Leaf(v) =>
          r := Ok(v, offset);
        case StrHead(n) =>
          r := Raw(n);
        case BufHead(n) =>
          r := GetBuf(n);
        case ArrHead(n) =>
          var items := GetArray(n);
          r := if items.Err? then Err(items.error) else Ok(Arr(items.value), items.next);
        case MapHead(n) =>
          var entries := GetMap(n);
          r := if entries.Err? then Err(entries.error) else Ok(Map(entries.value), entries.next);
      }
    }

    /** The dispatch on the type byte. */
    method ParseHead() returns (r: Read<Head>)
      modifies this
      ensures r == HeadAt(view[..], old(offset))
      ensures r.Ok? ==> offset == r.next
    {
      if offset >= view.Length {
        return Err(OutOfRange);
      }
      var t := view[offset];
      if 0xa0 <= t < 0xc0 {
        r := Ok(StrHead(t - 0xa0), offset + 1);
      } else if 0x80 <= t < 0x90 {
        r := Ok(MapHead(t - 0x80), offset + 1);
      } else if 0x90 <= t < 0xa0 {
        r := Ok(ArrHead(t - 0x90), offset + 1);
      } else if t < 0x80 {
        r := Ok(Leaf(Int(t)), offset + 1);
      } else if 0xe0 <= t {
        r := Ok(Leaf(Int(Signed(t, 0x100))), offset + 1);
      } else if t == 0xc0 {
        r := Ok(Leaf(Null), offset + 1);
      } else if t == 0xc2 {
        r := Ok(Leaf(Bool(false)), offset + 1);
      } else if t == 0xc3 {
        r := Ok(Leaf(Bool(true)), offset + 1);
      } else if t == 0xc4 {
        r := Ok(Leaf(Undefined), offset + 1);
      } else if 0xca <= t <= 0xd2 {
        r := ParseNumber(t);
      } else {
        r := ParseLength(t);
      }
      if r.Ok? {
        offset := r.next;
      }
    }

    method ParseNumber(t: Byte) returns (r: Read<Head>)
      requires offset < view.Length && view[offset] == t && 0xca <= t <= 0xd2
      ensures r == HeadAt(view[..], offset)
    {
      if t == 0xca || t == 0xcb {
        var width := if t == 0xca then 4 else 8;
        if offset + 1 + width > view.Length {
          return Err(OutOfRange);
        }
        var bits := view[offset + 1..offset + 1 + width];
        return Ok(Leaf(if t == 0xca then Single(bits) else Double(bits)), offset + 1 + width);
      }
      if t == 0xcf {
        return Err(UnknownType(t));
      }
      var width := if t == 0xcc || t == 0xd0 then 1 else if t == 0xcd || t == 0xd1 then 2 else 4;
      var range := if width == 1 then 0x100 else if width == 2 then 0x10000 else LIMIT;
      var n := GetUint(offset + 1, width);
      if n.Err? {
        return Err(n.error);
      }
      return Ok(Leaf(Int(if t >= 0xd0 then Signed(n.value, range) else n.value)), n.next);
    }

    method ParseLength(t: Byte) returns (r: Read<Head>)
      requires offset < view.Length && view[offset] == t && 0xc0 < t < 0xe0
      requires t != 0xc2 && t != 0xc3 && t != 0xc4 && !(0xca <= t <= 0xd2)
      ensures r == HeadAt(view[..], offset)
    {
      if !(t == 0xd8 || t == 0xd9 || 0xda <= t) {
        return Err(UnknownType(t));
      }
      var n := GetUint(offset + 1, if t % 2 == 0 then 2 else 4);
      if n.Err? {
        return Err(n.error);
      }
      var kind := if t <= 0xd9 then BufKind else if t <= 0xdb then StrKind else if t <= 0xdd then ArrKind else MapKind;
      return Ok(HeadOf(kind, n.value), n.next);
    }

    method GetArray(length: nat) returns (r: Read<seq<Value>>)
      requires offset <= view.Length
      modifies this
      ensures r == ParseItems(view[..], old(offset), length)
      ensures r.Ok? ==> offset == r.next
      decreases Rest(view[..], offset), 1
    {
      var items: seq<Value> := [];
      ghost var all := ParseItems(view[..], offset, length);
      assert all.Ok? ==> [] + all.value == all.value;
      for i := 0 to length
        invariant old(offset) <= offset <= view.Length
        invariant ItemsFollow(all, items, ParseItems(view[..], offset, length - i))
      {
        ghost var at := offset;
        var one := Parse();
        if one.Err? {
          return Err(one.error);
        }
        ItemsFollowNext(all, items, view[..], at, length - i);
        items := items + [one.value];
      }
      assert items + [] == items;
      return Ok(items, offset);
    }

    method GetMap(length: nat) returns (r: Read<seq<Entry>>)
      requires offset <= view.Length
      modifies this
      ensures r == ParseEntries(view[..], old(offset), length, [])
      ensures r.Ok? ==> offset == r.next
      decreases Rest(view[..], offset), 1
    {
      hide MsgPack.Parse, Insert;
      var entries: seq<Entry> := [];
      ghost var all := ParseEntries(view[..], offset, length, []);
      for i := 0 to length
        invariant old(offset) <= offset <= view.Length
        invariant all == ParseEntries(view[..], offset, length - i, entries)
      {
        var key := Parse();
        if key.Err? {
          return Err(key.error);
        }
        if !key.value.Str? {
          return Err(OddKey);
        }
        var one := Parse();
        if one.Err? {
          return Err(one.error);
        }
        entries := Insert(entries, key.value.s, one.value);
      }
      return Ok(entries, offset);
    }
  }

  ghost predicate ItemsFollow(all: Read<seq<Value>>, items: seq<Value>, rest: Read<seq<Value>>) {
    all == if rest.Err? then rest else Ok(items + rest.value, rest.next)
  }

  lemma ItemsFollowNext(all: Read<seq<Value>>, items: seq<Value>, bytes: Bytes, off: nat, n: nat)
    requires off <= |bytes| && n > 0 && MsgPack.Parse(bytes, off).Ok?
    requires ItemsFollow(all, items, ParseItems(bytes, off, n))
    ensures var one := MsgPack.Parse(bytes, off);
            ItemsFollow(all, items + [one.value], ParseItems(bytes, one.next, n - 1))
  {
    var one := MsgPack.Parse(bytes, off);
    var rest := ParseItems(bytes, one.next, n - 1);
    if rest.Ok? {
      assert items + ([one.value] + rest.value) == (items + [one.value]) + rest.value;
    }
  }

  /** `msgpack.decode` */
  method DecodeBuffer(buffer: array<Byte>) returns (r: Read<Value>)
    ensures r == Decode(buffer[..])
  {
    var decoder := new Decoder(buffer, 0);
    r := decoder.Parse();
    if r.Ok? && decoder.offset != buffer.Length {
      r := Err(TrailingBytes(buffer.Length - decoder.offset));
    }
  }
}
