/**
 The MessagePack format as the codec reads and writes it: the older raw form, with the two
 buffer types and the type for `undefined` that the program adds.
 */
module MsgPack {
  import opened Utf8

  /**
   The values of the program.  A double is its eight bytes, opaque, and stands for a number
   that is not a 32-bit integer; a single comes only out of the decoder.  The entries of a map
   are in the order of its keys.
   */
  datatype Value =
    | Null
    | Undefined
    | Bool(b: bool)
    | Int(n: int)
    | Double(bits: Bytes)
    | Single(bits: Bytes)
    | Str(s: Text)
    | Buf(data: Bytes)
    | Arr(items: seq<Value>)
    | Map(entries: seq<Entry>)

  datatype Entry = Entry(key: Text, value: Value)

  /** The first bytes of a value: all of a leaf, or the type and the length of the others. */
  datatype Head = Leaf(v: Value) | StrHead(n: nat) | BufHead(n: nat) | ArrHead(n: nat) | MapHead(n: nat)

  const LIMIT := 0x1_0000_0000

  // --- writing numbers ---

  function Be16(n: int): (bytes: Bytes)
    requires 0 <= n < 0x10000
    ensures |bytes| == 2
  {
    [n / 0x100, n % 0x100]
  }

  function Be32(n: int): (bytes: Bytes)
    requires 0 <= n < LIMIT
    ensures |bytes| == 4
  {
    Be16(n / 0x10000) + Be16(n % 0x10000)
  }

  predicate IsInt32(n: int) { -0x8000_0000 <= n < 0x8000_0000 }

  function IntBytes(n: int): Bytes
    requires IsInt32(n)
  {
    if n >= 0 then
      if n < 0x80 then [n]
      else if n < 0x100 then [0xcc, n]
      else if n < 0x10000 then [0xcd] + Be16(n)
      else [0xce] + Be32(n)
    else if n >= -0x20 then [n + 0x100]
    else if n >= -0x80 then [0xd0, n + 0x100]
    else if n >= -0x8000 then [0xd1] + Be16(n + 0x10000)
    else [0xd2] + Be32(n + LIMIT)
  }

  predicate IsLeaf(v: Value) {
    v.Null? || v.Undefined? || v.Bool? || (v.Int? && IsInt32(v.n)) || (v.Double? && |v.bits| == 8)
  }

  predicate IsHead(h: Head) { if h.Leaf? then IsLeaf(h.v) else h.n < LIMIT }

  function LeafBytes(v: Value): Bytes
    requires IsLeaf(v)
  {
    if v.Null? then [0xc0]
    else if v.Undefined? then [0xc4]
    else if v.Bool? then [if v.b then 0xc3 else 0xc2]
    else if v.Int? then IntBytes(v.n)
    else [0xcb] + v.bits
  }

  /** A length with its fixed form below `fix`, its 16-bit and its 32-bit form. */
  function LengthBytes(n: nat, fix: nat, fixed: Byte, two: Byte, four: Byte): (bytes: Bytes)
    requires n < LIMIT && fixed + fix <= 0x100
    ensures |bytes| == if n < fix then 1 else if n < 0x10000 then 3 else 5
  {
    if n < fix then [fixed + n]
    else if n < 0x10000 then [two] + Be16(n)
    else [four] + Be32(n)
  }

  function HeadBytes(h: Head): Bytes
    requires IsHead(h)
  {
    match h
    case Leaf(v) => LeafBytes(v)
    case StrHead(n) => LengthBytes(n, 0x20, 0xa0, 0xda, 0xdb)
    case BufHead(n) => LengthBytes(n, 0, 0, 0xd8, 0xd9)
    case ArrHead(n) => LengthBytes(n, 0x10, 0x90, 0xdc, 0xdd)
    case MapHead(n) => LengthBytes(n, 0x10, 0x80, 0xde, 0xdf)
  }

  // --- writing values ---

  predicate Distinct(entries: seq<Entry>) {
    forall i, j :: 0 <= i < j < |entries| ==> entries[i].key != entries[j].key
  }

  /** The values the encoder takes without an exception. */
  predicate Encodable(v: Value)
    decreases v
  {
    match v
    case Single(_) => false
    case Str(s) => |Encoded(s)| < LIMIT
    case Buf(_) => true
    case Arr(items) => |items| < LIMIT && AllEncodable(items)
    case Map(entries) => |entries| < LIMIT && Distinct(entries) && EntriesEncodable(entries)
    case Null => true
    case Undefined => true
    case Bool(_) => true
    case Int(n) => IsInt32(n)
    case Double(bits) => |bits| == 8
  }

  predicate AllEncodable(items: seq<Value>)
    decreases items
  {
    items == [] || (Encodable(items[0]) && AllEncodable(items[1..]))
  }

  predicate EntriesEncodable(entries: seq<Entry>)
    decreases entries
  {
    entries == []
    || (|Encoded(entries[0].key)| < LIMIT && Encodable(entries[0].value) && EntriesEncodable(entries[1..]))
  }

  function StrBytes(s: Text): Bytes
    requires |Encoded(s)| < LIMIT
  {
    HeadBytes(StrHead(|Encoded(s)|)) + Encoded(s)
  }

  /** The encoding.  A buffer too long for its 32-bit form is written as an object without keys. */
  function Enc(v: Value): (bytes: Bytes)
    requires Encodable(v)
    decreases v
  {
    match v
    case Str(s) => StrBytes(s)
    case Buf(data) => if |data| < LIMIT then HeadBytes(BufHead(|data|)) + data else HeadBytes(MapHead(0))
    case Arr(items) => HeadBytes(ArrHead(|items|)) + EncAll(items)
    case Map(entries) => HeadBytes(MapHead(|entries|)) + EncEntries(entries)
    case Null => LeafBytes(v)
    case Undefined => LeafBytes(v)
    case Bool(_) => LeafBytes(v)
    case Int(_) => LeafBytes(v)
    case Double(_) => LeafBytes(v)
  }

  function EncAll(items: seq<Value>): Bytes
    requires AllEncodable(items)
    decreases items
  {
    if items == [] then [] else Enc(items[0]) + EncAll(items[1..])
  }

  function EncEntry(e: Entry): Bytes
    requires |Encoded(e.key)| < LIMIT && Encodable(e.value)
    decreases e
  {
    StrBytes(e.key) + Enc(e.value)
  }

  function EncEntries(entries: seq<Entry>): Bytes
    requires EntriesEncodable(entries)
    decreases entries
  {
    if entries == [] then [] else EncEntry(entries[0]) + EncEntries(entries[1..])
  }

  // --- reading numbers ---

  function Num16(bytes: Bytes): nat
    requires |bytes| == 2
  {
    Join16(bytes[0], bytes[1])
  }

  function Join16(a: int, b: int): int { a * 0x100 + b }

  function Num32(bytes: Bytes): nat
    requires |bytes| == 4
  {
    Join32(Num16(bytes[..2]), Num16(bytes[2..]))
  }

  function Join32(a: int, b: int): int { a * 0x10000 + b }

  /** The unsigned number of one, two or four bytes at `at`. */
  function UintAt(bytes: Bytes, at: nat, width: nat): (r: Read<nat>)
    requires width == 1 || width == 2 || width == 4
    ensures r.Ok? ==> r.next == at + width <= |bytes|
  {
    if at + width > |bytes| then Err(OutOfRange)
    else if width == 1 then Ok(bytes[at], at + 1)
    else if width == 2 then Ok(Num16(bytes[at..at + 2]), at + 2)
    else Ok(Num32(bytes[at..at + 4]), at + 4)
  }

  /** Two's complement of the given range. */
  function Signed(n: int, range: int): int { if n < range / 2 then n else n - range }

  // --- reading values ---

  datatype Kind = StrKind | BufKind | ArrKind | MapKind

  function HeadOf(kind: Kind, n: nat): Head {
    match kind
    case StrKind => StrHead(n)
    case BufKind => BufHead(n)
    case ArrKind => ArrHead(n)
    case MapKind => MapHead(n)
  }

  function LengthAt(bytes: Bytes, at: nat, width: nat, kind: Kind): (r: Read<Head>)
    requires width == 2 || width == 4
    ensures r.Ok? ==> at < r.next <= |bytes| && !r.value.Leaf?
  {
    var n := UintAt(bytes, at, width);
    if n.Err? then Err(n.error) else Ok(HeadOf(kind, n.value), n.next)
  }

  function IntAt(bytes: Bytes, at: nat, width: nat, signed: bool): (r: Read<Head>)
    requires width == 1 || width == 2 || width == 4
    ensures r.Ok? ==> at < r.next <= |bytes|
  {
    var n := UintAt(bytes, at, width);
    if n.Err? then Err(n.error)
    else
      var range := if width == 1 then 0x100 else if width == 2 then 0x10000 else LIMIT;
      Ok(Leaf(Int(if signed then Signed(n.value, range) else n.value)), n.next)
  }

  function BitsAt(bytes: Bytes, at: nat, width: nat): (r: Read<Bytes>)
    ensures r.Ok? ==> r.next == at + width <= |bytes|
  {
    if at + width > |bytes| then Err(OutOfRange) else Ok(bytes[at..at + width], at + width)
  }

  function HeadAt(bytes: Bytes, off: nat): (r: Read<Head>)
    ensures r.Ok? ==> off < r.next <= |bytes|
  {
    if off >= |bytes| then Err(OutOfRange)
    else
      var t := bytes[off];
      if 0xa0 <= t < 0xc0 then Ok(StrHead(t - 0xa0), off + 1)
      else if 0x80 <= t < 0x90 then Ok(MapHead(t - 0x80), off + 1)
      else if 0x90 <= t < 0xa0 then Ok(ArrHead(t - 0x90), off + 1)
      else if t < 0x80 then Ok(Leaf(Int(t)), off + 1)
      else if 0xe0 <= t then Ok(Leaf(Int(Signed(t, 0x100))), off + 1)
      else if t == 0xc0 then Ok(Leaf(Null), off + 1)
      else if t == 0xc2 then Ok(Leaf(Bool(false)), off + 1)
      else if t == 0xc3 then Ok(Leaf(Bool(true)), off + 1)
      else if t == 0xc4 then Ok(Leaf(Undefined), off + 1)
      else if t == 0xcc then IntAt(bytes, off + 1, 1, false)
      else if t == 0xcd then IntAt(bytes, off + 1, 2, false)
      else if t == 0xce then IntAt(bytes, off + 1, 4, false)
      else if t == 0xd0 then IntAt(bytes, off + 1, 1, true)
      else if t == 0xd1 then IntAt(bytes, off + 1, 2, true)
      else if t == 0xd2 then IntAt(bytes, off + 1, 4, true)
      else if t == 0xca || t == 0xcb then
        var bits := BitsAt(bytes, off + 1, if t == 0xca then 4 else 8);
        if bits.Err? then Err(bits.error)
        else Ok(Leaf(if t == 0xca then Single(bits.value) else Double(bits.value)), bits.next)
      else if t == 0xda then LengthAt(bytes, off + 1, 2, StrKind)
      else if t == 0xdb then LengthAt(bytes, off + 1, 4, StrKind)
      else if t == 0xd8 then LengthAt(bytes, off + 1, 2, BufKind)
      else if t == 0xd9 then LengthAt(bytes, off + 1, 4, BufKind)
      else if t == 0xdc then LengthAt(bytes, off + 1, 2, ArrKind)
      else if t == 0xdd then LengthAt(bytes, off + 1, 4, ArrKind)
      else if t == 0xde then LengthAt(bytes, off + 1, 2, MapKind)
      else if t == 0xdf then LengthAt(bytes, off + 1, 4, MapKind)
      else Err(UnknownType(t))
  }

  /** `value[key] = v`: a key that is there already keeps its place. */
  function Insert(entries: seq<Entry>, key: Text, v: Value): (r: seq<Entry>)
    ensures r != []
  {
    if entries == [] then [Entry(key, v)]
    else if entries[0].key == key then [Entry(key, v)] + entries[1..]
    else [entries[0]] + Insert(entries[1..], key, v)
  }

  function Rest(bytes: Bytes, off: nat): nat { if off < |bytes| then |bytes| - off else 0 }

  function StrAt(bytes: Bytes, off: nat, n: nat): (r: Read<Value>)
    ensures off <= |bytes| && r.Ok? ==> r.next == off + n <= |bytes|
  {
    var s := Decoded(bytes, off, off + n);
    if s.Err? then Err(s.error) else Ok(Str(s.value), off + n)
  }

  function BufAt(bytes: Bytes, off: nat, n: nat): (r: Read<Value>)
    ensures r.Ok? ==> r.next == off + n <= |bytes|
  {
    var data := BitsAt(bytes, off, n);
    if data.Err? then Err(data.error) else Ok(Buf(data.value), data.next)
  }

  /** The value at an offset, and the offset behind it. */
  function Parse(bytes: Bytes, off: nat): (r: Read<Value>)
    ensures r.Ok? ==> off < r.next <= |bytes|
    decreases Rest(bytes, off), 0
  {
    var head := HeadAt(bytes, off);
    if head.Err? then Err(head.error)
    else
      match head.value
      case Leaf(v) => Ok(v, head.next)
      case StrHead(n) => StrAt(bytes, head.next, n)
      case BufHead(n) => BufAt(bytes, head.next, n)
      case ArrHead(n) =>
        var items := ParseItems(bytes, head.next, n);
        if items.Err? then Err(items.error) else Ok(Arr(items.value), items.next)
      case MapHead(n) =>
        var entries := ParseEntries(bytes, head.next, n, []);
        if entries.Err? then Err(entries.error) else Ok(Map(entries.value), entries.next)
  }

  function ParseItems(bytes: Bytes, off: nat, n: nat): (r: Read<seq<Value>>)
    requires off <= |bytes|
    ensures r.Ok? ==> off <= r.next <= |bytes|
    decreases Rest(bytes, off), 1
  {
    if n == 0 then Ok([], off)
    else
      var first := Parse(bytes, off);
      if first.Err? then Err(first.error)
      else
        var rest := ParseItems(bytes, first.next, n - 1);
        if rest.Err? then rest else Ok([first.value] + rest.value, rest.next)
  }

  function ParseEntries(bytes: Bytes, off: nat, n: nat, before: seq<Entry>): (r: Read<seq<Entry>>)
    requires off <= |bytes|
    ensures r.Ok? ==> off <= r.next <= |bytes|
    decreases Rest(bytes, off), 1
  {
    if n == 0 then Ok(before, off)
    else
      var key := Parse(bytes, off);
      if key.Err? then Err(key.error)
      else if !key.value.Str? then Err(OddKey)
      else
        var v := Parse(bytes, key.next);
        if v.Err? then Err(v.error)
        else ParseEntries(bytes, v.next, n - 1, Insert(before, key.value.s, v.value))
  }

  /** `decode`: the whole buffer is one value. */
  function Decode(bytes: Bytes): Read<Value> {
    var v := Parse(bytes, 0);
    if v.Ok? && v.next != |bytes| then Err(TrailingBytes(|bytes| - v.next)) else v
  }
}
