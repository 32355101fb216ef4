/**
 Decoding an encoding: at any offset of any larger buffer the decoder reads back the value, up
 to what its two-byte mask and an over-long buffer lose, and stops exactly behind it.
 */
module MsgPackRoundTrips {
  import opened Utf8
  import opened MsgPack

  // --- what the codec makes of a value ---

  /** The value that comes back. */
  function Mangle(v: Value): Value
    decreases v
  {
    match v
    case Str(s) => Str(MangleText(s))
    case Buf(data) => if |data| < LIMIT then v else Map([])
    case Arr(items) => Arr(MangleAll(items))
    case Map(entries) => Map(Inserted([], MangleEntries(entries)))
    case Null => v
    case Undefined => v
    case Bool(_) => v
    case Int(_) => v
    case Double(_) => v
    case Single(_) => v
  }

  function MangleAll(items: seq<Value>): (r: seq<Value>)
    ensures |r| == |items|
    decreases items
  {
    if items == [] then [] else [Mangle(items[0])] + MangleAll(items[1..])
  }

  function MangleEntries(entries: seq<Entry>): (r: seq<Entry>)
    ensures |r| == |entries|
    decreases entries
  {
    if entries == [] then []
    else [Entry(MangleText(entries[0].key), Mangle(entries[0].value))] + MangleEntries(entries[1..])
  }

  /** The entries put into an object one after the other. */
  function Inserted(before: seq<Entry>, entries: seq<Entry>): seq<Entry>
    decreases |entries|
  {
    if entries == [] then before
    else Inserted(Insert(before, entries[0].key, entries[0].value), entries[1..])
  }

  /** The values that come back as they were: no string or key loses a bit, no buffer is too long. */
  predicate Clean(v: Value)
    decreases v
  {
    match v
    case Str(s) => CleanText(s)
    case Buf(data) => |data| < LIMIT
    case Arr(items) => AllClean(items)
    case Map(entries) => EntriesClean(entries)
    case Null => true
    case Undefined => true
    case Bool(_) => true
    case Int(_) => true
    case Double(_) => true
    case Single(_) => true
  }

  predicate AllClean(items: seq<Value>)
    decreases items
  {
    items == [] || (Clean(items[0]) && AllClean(items[1..]))
  }

  predicate EntriesClean(entries: seq<Entry>)
    decreases entries
  {
    entries == [] || (CleanText(entries[0].key) && Clean(entries[0].value) && EntriesClean(entries[1..]))
  }

  // --- objects ---

  predicate HasKey(entries: seq<Entry>, key: Text) {
    exists i :: 0 <= i < |entries| && entries[i].key == key
  }

  lemma {:induction false} InsertNew(entries: seq<Entry>, key: Text, v: Value)
    requires !HasKey(entries, key)
    ensures Insert(entries, key, v) == entries + [Entry(key, v)]
    decreases |entries|
  {
    if entries != [] {
      assert entries[0].key != key;
      assert forall i :: 0 <= i < |entries[1..]| ==> entries[1..][i] == entries[i + 1];
      InsertNew(entries[1..], key, v);
      assert entries == [entries[0]] + entries[1..];
    }
  }

  /** A key that is there keeps its place and takes the new value. */
  lemma {:induction false} InsertUpdates(entries: seq<Entry>, key: Text, v: Value) returns (i: nat)
    requires HasKey(entries, key)
    ensures i < |entries| && entries[i].key == key && Insert(entries, key, v) == entries[i := Entry(key, v)]
    decreases |entries|
  {
    if entries[0].key == key {
      i := 0;
    } else {
      var j :| 0 <= j < |entries| && entries[j].key == key;
      assert entries[1..][j - 1].key == key;
      var k := InsertUpdates(entries[1..], key, v);
      i := k + 1;
      assert entries == [entries[0]] + entries[1..];
    }
  }

  lemma {:induction false} InsertOld(entries: seq<Entry>, key: Text, v: Value)
    requires HasKey(entries, key)
    ensures |Insert(entries, key, v)| == |entries|
    decreases |entries|
  {
    if entries[0].key != key {
      var i :| 0 <= i < |entries| && entries[i].key == key;
      assert entries[1..][i - 1].key == key;
      InsertOld(entries[1..], key, v);
    }
  }

  /** Insertion either appends everything or some key was there before. */
  lemma {:induction false} InsertedLength(before: seq<Entry>, entries: seq<Entry>)
    ensures |Inserted(before, entries)| <= |before| + |entries|
    ensures |Inserted(before, entries)| == |before| + |entries| ==> Inserted(before, entries) == before + entries
    decreases |entries|
  {
    hide Insert, HasKey;
    if entries == [] {
      assert before + [] == before;
    } else {
      var key, v := entries[0].key, entries[0].value;
      InsertedLength(Insert(before, key, v), entries[1..]);
      if HasKey(before, key) {
        InsertOld(before, key, v);
      } else {
        InsertNew(before, key, v);
        MoveOne(before, entries);
      }
    }
  }

  lemma MoveOne(before: seq<Entry>, entries: seq<Entry>)
    requires entries != []
    ensures before + [Entry(entries[0].key, entries[0].value)] + entries[1..] == before + entries
  {
  }

  /** Different keys, all new, are appended in order. */
  lemma {:induction false} InsertedNew(before: seq<Entry>, entries: seq<Entry>)
    requires Distinct(before + entries)
    ensures Inserted(before, entries) == before + entries
    decreases |entries|
  {
    if entries == [] {
      assert before + [] == before;
    } else {
      var all := before + entries;
      forall i | 0 <= i < |before|
        ensures before[i].key != entries[0].key
      {
        assert all[i] == before[i] && all[|before|] == entries[0];
      }
      InsertNew(before, entries[0].key, entries[0].value);
      assert entries == [Entry(entries[0].key, entries[0].value)] + entries[1..];
      assert before + [Entry(entries[0].key, entries[0].value)] + entries[1..] == all;
      InsertedNew(before + [Entry(entries[0].key, entries[0].value)], entries[1..]);
    }
  }

  // --- exactly when the value comes back ---

  lemma {:induction false} CleanComesBack(v: Value)
    requires Encodable(v) && Clean(v)
    ensures Mangle(v) == v
    decreases v
  {
    if v.Str? {
      CleanTexts(v.s);
    } else if v.Arr? {
      CleanItems(v.items);
    } else if v.Map? {
      CleanEntries(v.entries);
      assert [] + v.entries == v.entries;
      InsertedNew([], v.entries);
    }
  }

  lemma {:induction false} CleanItems(items: seq<Value>)
    requires AllEncodable(items) && AllClean(items)
    ensures MangleAll(items) == items
    decreases items
  {
    if items != [] {
      CleanComesBack(items[0]);
      CleanItems(items[1..]);
      assert items == [items[0]] + items[1..];
    }
  }

  lemma {:induction false} CleanEntries(entries: seq<Entry>)
    requires EntriesEncodable(entries) && EntriesClean(entries)
    ensures MangleEntries(entries) == entries
    decreases entries
  {
    if entries != [] {
      CleanTexts(entries[0].key);
      CleanComesBack(entries[0].value);
      CleanEntries(entries[1..]);
      assert entries == [Entry(entries[0].key, entries[0].value)] + entries[1..];
    }
  }

  lemma {:induction false} BackIsClean(v: Value)
    requires Mangle(v) == v
    ensures Clean(v)
    decreases v
  {
    if v.Str? {
      CleanTexts(v.s);
    } else if v.Arr? {
      ItemsBack(v.items);
    } else if v.Map? {
      InsertedLength([], MangleEntries(v.entries));
      assert [] + MangleEntries(v.entries) == MangleEntries(v.entries);
      EntriesBack(v.entries);
    }
  }

  lemma {:induction false} ItemsBack(items: seq<Value>)
    requires MangleAll(items) == items
    ensures AllClean(items)
    decreases items
  {
    if items != [] {
      assert MangleAll(items)[0] == Mangle(items[0]) && MangleAll(items)[1..] == MangleAll(items[1..]);
      BackIsClean(items[0]);
      ItemsBack(items[1..]);
    }
  }

  lemma {:induction false} EntriesBack(entries: seq<Entry>)
    requires MangleEntries(entries) == entries
    ensures EntriesClean(entries)
    decreases entries
  {
    if entries != [] {
      var back := MangleEntries(entries);
      assert back[0] == Entry(MangleText(entries[0].key), Mangle(entries[0].value));
      assert back[1..] == MangleEntries(entries[1..]);
      CleanTexts(entries[0].key);
      BackIsClean(entries[0].value);
      EntriesBack(entries[1..]);
    }
  }

  // --- numbers and heads ---

  lemma Be16There(n: int)
    requires 0 <= n < 0x10000
    ensures Num16(Be16(n)) == n
  {
  }

  lemma Be32There(n: int)
    requires 0 <= n < LIMIT
    ensures Num32(Be32(n)) == n
  {
    Be16There(n / 0x10000);
    Be16There(n % 0x10000);
    assert Be32(n)[..2] == Be16(n / 0x10000) && Be32(n)[2..] == Be16(n % 0x10000);
  }

  /** The bytes of a number in one of the three widths. */
  function UintBytes(n: int, width: nat): (bytes: Bytes)
    requires width == 1 || width == 2 || width == 4
    requires 0 <= n < if width == 1 then 0x100 else if width == 2 then 0x10000 else LIMIT
    ensures |bytes| == width
  {
    if width == 1 then [n] else if width == 2 then Be16(n) else Be32(n)
  }

  lemma UintThere(bytes: Bytes, at: nat, n: int, width: nat)
    requires width == 1 || width == 2 || width == 4
    requires 0 <= n < if width == 1 then 0x100 else if width == 2 then 0x10000 else LIMIT
    requires Holds(bytes, at, UintBytes(n, width))
    ensures UintAt(bytes, at, width) == Ok(n, at + width)
  {
    if width == 1 {
      assert bytes[at..at + 1][0] == n;
    } else if width == 2 {
      Be16There(n);
    } else {
      Be32There(n);
    }
  }

  /** A type byte and a number behind it. */
  lemma TaggedThere(bytes: Bytes, off: nat, t: Byte, n: int, width: nat)
    requires width == 1 || width == 2 || width == 4
    requires 0 <= n < if width == 1 then 0x100 else if width == 2 then 0x10000 else LIMIT
    requires Holds(bytes, off, [t] + UintBytes(n, width))
    ensures off < |bytes| && bytes[off] == t && UintAt(bytes, off + 1, width) == Ok(n, off + 1 + width)
  {
    HoldsParts(bytes, off, [t], UintBytes(n, width));
    assert bytes[off..off + 1][0] == t;
    UintThere(bytes, off + 1, n, width);
  }

  lemma IntThere(bytes: Bytes, off: nat, n: int)
    requires IsInt32(n) && Holds(bytes, off, IntBytes(n))
    ensures HeadAt(bytes, off) == Ok(Leaf(Int(n)), off + |IntBytes(n)|)
  {
    if -0x20 <= n < 0x80 {
      assert bytes[off..off + 1][0] == IntBytes(n)[0];
    } else if n >= 0 {
      var width := if n < 0x100 then 1 else if n < 0x10000 then 2 else 4;
      var t: Byte := if n < 0x100 then 0xcc else if n < 0x10000 then 0xcd else 0xce;
      assert IntBytes(n) == [t] + UintBytes(n, width);
      TaggedThere(bytes, off, t, n, width);
    } else {
      NegativeThere(bytes, off, n);
    }
  }

  lemma NegativeThere(bytes: Bytes, off: nat, n: int)
    requires -0x8000_0000 <= n < -0x20 && Holds(bytes, off, IntBytes(n))
    ensures HeadAt(bytes, off) == Ok(Leaf(Int(n)), off + |IntBytes(n)|)
  {
    var width := if n >= -0x80 then 1 else if n >= -0x8000 then 2 else 4;
    var range := if n >= -0x80 then 0x100 else if n >= -0x8000 then 0x10000 else LIMIT;
    var t: Byte := if n >= -0x80 then 0xd0 else if n >= -0x8000 then 0xd1 else 0xd2;
    assert IntBytes(n) == [t] + UintBytes(n + range, width);
    TaggedThere(bytes, off, t, n + range, width);
    assert Signed(n + range, range) == n;
  }

  lemma LeafThere(bytes: Bytes, off: nat, v: Value)
    requires IsLeaf(v) && Holds(bytes, off, LeafBytes(v))
    ensures HeadAt(bytes, off) == Ok(Leaf(v), off + |LeafBytes(v)|)
  {
    if v.Int? {
      IntThere(bytes, off, v.n);
    } else if v.Double? {
      HoldsParts(bytes, off, [0xcb], v.bits);
      assert bytes[off..off + 1][0] == 0xcb;
    } else {
      assert bytes[off..off + 1][0] == LeafBytes(v)[0];
    }
  }

  /** Where the parts of a length lie. */
  lemma LengthThere(bytes: Bytes, off: nat, n: nat, fix: nat, fixed: Byte, two: Byte, four: Byte)
    requires n < LIMIT && fixed + fix <= 0x100
    requires Holds(bytes, off, LengthBytes(n, fix, fixed, two, four))
    ensures off < |bytes|
    ensures n < fix ==> bytes[off] == fixed + n
    ensures fix <= n < 0x10000 ==> bytes[off] == two && UintAt(bytes, off + 1, 2) == Ok(n, off + 3)
    ensures fix <= n && 0x10000 <= n ==> bytes[off] == four && UintAt(bytes, off + 1, 4) == Ok(n, off + 5)
  {
    if n < fix {
      assert bytes[off..off + 1][0] == fixed + n;
    } else if n < 0x10000 {
      TaggedThere(bytes, off, two, n, 2);
    } else {
      TaggedThere(bytes, off, four, n, 4);
    }
  }

  lemma HeadThere(bytes: Bytes, off: nat, h: Head)
    requires IsHead(h) && Holds(bytes, off, HeadBytes(h))
    ensures HeadAt(bytes, off) == Ok(h, off + |HeadBytes(h)|)
  {
    hide LengthBytes, UintAt, LeafBytes, Holds;
    match h {
      case Leaf(v) => LeafThere(bytes, off, v);
      case StrHead(n) => LengthThere(bytes, off, n, 0x20, 0xa0, 0xda, 0xdb);
      case BufHead(n) => LengthThere(bytes, off, n, 0, 0, 0xd8, 0xd9);
      case ArrHead(n) => LengthThere(bytes, off, n, 0x10, 0x90, 0xdc, 0xdd);
      case MapHead(n) => LengthThere(bytes, off, n, 0x10, 0x80, 0xde, 0xdf);
    }
  }

  // --- values ---

  lemma StrThere(bytes: Bytes, off: nat, s: Text)
    requires |Encoded(s)| < LIMIT && Holds(bytes, off, StrBytes(s))
    ensures Parse(bytes, off) == Ok(Str(MangleText(s)), off + |StrBytes(s)|)
  {
    hide HeadAt, HeadBytes, Holds;
    var h := StrHead(|Encoded(s)|);
    HoldsParts(bytes, off, HeadBytes(h), Encoded(s));
    HeadThere(bytes, off, h);
    TextRoundTrip(bytes, off + |HeadBytes(h)|, s);
  }

  lemma BufThere(bytes: Bytes, off: nat, data: Bytes)
    requires |data| < LIMIT && Holds(bytes, off, HeadBytes(BufHead(|data|)) + data)
    ensures Parse(bytes, off) == Ok(Buf(data), off + |HeadBytes(BufHead(|data|))| + |data|)
  {
    hide HeadAt, HeadBytes;
    var h := BufHead(|data|);
    HoldsParts(bytes, off, HeadBytes(h), data);
    HeadThere(bytes, off, h);
  }

  /**
   The round trip: wherever the encoding of a value stands in a buffer, parsing there gives the
   mangled value and consumes exactly the encoding.
   */
  lemma {:induction false} RoundTrip(bytes: Bytes, off: nat, v: Value)
    requires Encodable(v) && Holds(bytes, off, Enc(v))
    ensures Parse(bytes, off) == Ok(Mangle(v), off + |Enc(v)|)
    decreases v
  {
    hide HeadAt, HeadBytes, LeafBytes, Holds, StrBytes;
    if v.Str? {
      StrThere(bytes, off, v.s);
    } else if v.Buf? && |v.data| < LIMIT {
      BufThere(bytes, off, v.data);
    } else if v.Buf? {
      HeadThere(bytes, off, MapHead(0));
    } else if v.Arr? {
      var h := ArrHead(|v.items|);
      HoldsParts(bytes, off, HeadBytes(h), EncAll(v.items));
      HeadThere(bytes, off, h);
      ItemsRoundTrip(bytes, off + |HeadBytes(h)|, v.items);
    } else if v.Map? {
      var h := MapHead(|v.entries|);
      HoldsParts(bytes, off, HeadBytes(h), EncEntries(v.entries));
      HeadThere(bytes, off, h);
      EntriesRoundTrip(bytes, off + |HeadBytes(h)|, v.entries, []);
    } else {
      assert HeadBytes(Leaf(v)) == LeafBytes(v) by { LeafHead(v); }
      HeadThere(bytes, off, Leaf(v));
    }
  }

  lemma LeafHead(v: Value)
    requires IsLeaf(v)
    ensures HeadBytes(Leaf(v)) == LeafBytes(v)
  {
  }

  lemma {:induction false} ItemsRoundTrip(bytes: Bytes, off: nat, items: seq<Value>)
    requires AllEncodable(items) && off <= |bytes| && Holds(bytes, off, EncAll(items))
    ensures ParseItems(bytes, off, |items|) == Ok(MangleAll(items), off + |EncAll(items)|)
    decreases items
  {
    hide Holds, Parse, Enc, Mangle;
    if items != [] {
      HoldsParts(bytes, off, Enc(items[0]), EncAll(items[1..]));
      RoundTrip(bytes, off, items[0]);
      ItemsRoundTrip(bytes, off + |Enc(items[0])|, items[1..]);
    }
  }

  lemma {:induction false} EntriesRoundTrip(bytes: Bytes, off: nat, entries: seq<Entry>, before: seq<Entry>)
    requires EntriesEncodable(entries) && off <= |bytes| && Holds(bytes, off, EncEntries(entries))
    ensures ParseEntries(bytes, off, |entries|, before)
         == Ok(Inserted(before, MangleEntries(entries)), off + |EncEntries(entries)|)
    decreases entries
  {
    hide Holds, StrBytes, Parse, Enc, Mangle, MangleText, Insert, EncEntry;
    if entries != [] {
      var key, v := MangleText(entries[0].key), Mangle(entries[0].value);
      HoldsParts(bytes, off, EncEntry(entries[0]), EncEntries(entries[1..]));
      var next := EntryRoundTrip(bytes, off, entries[0]);
      EntriesRoundTrip(bytes, off + |EncEntry(entries[0])|, entries[1..], Insert(before, key, v));
      InsertedNext(before, entries);
    }
  }

  /** A key and its value, parsed one after the other. */
  lemma {:induction false} EntryRoundTrip(bytes: Bytes, off: nat, e: Entry) returns (next: nat)
    requires |Encoded(e.key)| < LIMIT && Encodable(e.value) && Holds(bytes, off, EncEntry(e))
    ensures Parse(bytes, off) == Ok(Str(MangleText(e.key)), next)
    ensures Parse(bytes, next) == Ok(Mangle(e.value), off + |EncEntry(e)|)
    decreases e
  {
    hide Holds, StrBytes, Parse, Enc, Mangle;
    HoldsParts(bytes, off, StrBytes(e.key), Enc(e.value));
    StrThere(bytes, off, e.key);
    next := off + |StrBytes(e.key)|;
    RoundTrip(bytes, next, e.value);
  }

  lemma InsertedNext(before: seq<Entry>, entries: seq<Entry>)
    requires entries != []
    ensures Inserted(before, MangleEntries(entries))
         == Inserted(Insert(before, MangleText(entries[0].key), Mangle(entries[0].value)), MangleEntries(entries[1..]))
  {
    hide Insert, Mangle, MangleText;
    assert MangleEntries(entries)[0] == Entry(MangleText(entries[0].key), Mangle(entries[0].value));
    assert MangleEntries(entries)[1..] == MangleEntries(entries[1..]);
  }

  /** `decode` of `encode`: never an exception, never trailing bytes, the value up to the losses. */
  lemma DecodeOfEncode(v: Value)
    requires Encodable(v)
    ensures Decode(Enc(v)) == Ok(Mangle(v), |Enc(v)|)
  {
    assert Holds(Enc(v), 0, Enc(v));
    RoundTrip(Enc(v), 0, v);
  }

  /** Bytes behind an encoding are reported, with their number. */
  lemma TrailingBytesAreReported(v: Value, extra: Bytes)
    requires Encodable(v) && extra != []
    ensures Decode(Enc(v) + extra) == Err(TrailingBytes(|extra|))
  {
    hide Parse, Enc, Mangle;
    var bytes := Enc(v) + extra;
    assert bytes[..|Enc(v)|] == Enc(v);
    assert Holds(bytes, 0, Enc(v));
    RoundTrip(bytes, 0, v);
  }

  /** The value comes back as it was exactly when no mask and no length limit bites. */
  lemma ComesBack(v: Value)
    requires Encodable(v)
    ensures Decode(Enc(v)) == Ok(v, |Enc(v)|) <==> Clean(v)
  {
    DecodeOfEncode(v);
    if Clean(v) {
      CleanComesBack(v);
    } else if Mangle(v) == v {
      BackIsClean(v);
    }
  }

  /** Encodings are self-delimiting: of two clean values, neither is a proper beginning of the other. */
  lemma PrefixFree(v: Value, w: Value)
    requires Encodable(v) && Encodable(w) && Clean(v) && Clean(w) && Enc(v) <= Enc(w)
    ensures v == w
  {
    CleanComesBack(v);
    CleanComesBack(w);
    assert Enc(w)[0..|Enc(v)|] == Enc(v);
    assert Holds(Enc(w), 0, Enc(v)) && Holds(Enc(w), 0, Enc(w));
    RoundTrip(Enc(w), 0, v);
    RoundTrip(Enc(w), 0, w);
  }

  /** Two different keys can come back as one: the entry of the first is lost. */
  lemma KeysCollide(v: Value, w: Value)
    requires Encodable(v) && Encodable(w)
    ensures var m := Map([Entry([0x80], v), Entry([0x480], w)]);
            Encodable(m) && Mangle(m) == Map([Entry([0x80], Mangle(w))])
  {
    hide Mangle, Encodable;
    var es := [Entry([0x80], v), Entry([0x480], w)];
    OneUnit(0x80);
    OneUnit(0x480);
    TwoEncodable(es[0], es[1]);
    TwoInserted(es[0], es[1]);
    MapOf(es);
  }

  lemma MapOf(es: seq<Entry>)
    requires |es| < LIMIT && Distinct(es) && EntriesEncodable(es)
    ensures Encodable(Map(es)) && Mangle(Map(es)) == Map(Inserted([], MangleEntries(es)))
  {
  }

  lemma OneUnit(u: CodeUnit)
    ensures |Encoded([u])| <= 3 && MangleText([u]) == [MangleUnit(u)]
  {
    assert [u][1..] == [];
    assert Encoded([u]) == UnitBytes(u) + Encoded([u][1..]);
  }

  lemma TwoEncodable(a: Entry, b: Entry)
    requires |Encoded(a.key)| < LIMIT && Encodable(a.value) && |Encoded(b.key)| < LIMIT && Encodable(b.value)
    ensures EntriesEncodable([a, b])
  {
    hide Encodable;
    assert [a, b][1..] == [b] && [b][1..] == [];
    assert EntriesEncodable([b]);
  }

  lemma TwoInserted(a: Entry, b: Entry)
    requires MangleText(a.key) == MangleText(b.key)
    ensures Inserted([], MangleEntries([a, b])) == [Entry(MangleText(b.key), Mangle(b.value))]
  {
    hide Mangle, MangleText;
    assert [a, b][1..] == [b] && [b][1..] == [];
    InsertedNext([], [a, b]);
    var first := Insert([], MangleText(a.key), Mangle(a.value));
    assert first == [Entry(MangleText(a.key), Mangle(a.value))];
    InsertedNext(first, [b]);
    assert first[1..] == [];
    assert Inserted(Insert(first, MangleText(b.key), Mangle(b.value)), MangleEntries([]))
        == Insert(first, MangleText(b.key), Mangle(b.value));
  }

  // --- the reader, form by form ---

  /** Two and four bytes as numbers, the first byte highest. */
  function Big2(a: int, b: int): int { 0x100 * a + b }

  function Big4(a: int, b: int, c: int, d: int): int { 0x100 * (0x100 * (0x100 * a + b) + c) + d }

  /** What the reader makes of every form of an integer, whether or not the writer would choose it. */
  lemma IntegerForms(a: Byte, b: Byte, c: Byte, d: Byte)
    ensures a < 0x80 ==> HeadAt([a], 0) == Ok(Leaf(Int(a)), 1)
    ensures a >= 0xe0 ==> HeadAt([a], 0) == Ok(Leaf(Int(a - 0x100)), 1)
    ensures HeadAt([0xcc, a], 0) == Ok(Leaf(Int(a)), 2)
    ensures HeadAt([0xcd, a, b], 0) == Ok(Leaf(Int(Big2(a, b))), 3)
    ensures HeadAt([0xce, a, b, c, d], 0) == Ok(Leaf(Int(Big4(a, b, c, d))), 5)
    ensures HeadAt([0xd0, a], 0) == Ok(Leaf(Int(if a < 0x80 then a else a - 0x100)), 2)
    ensures HeadAt([0xd1, a, b], 0) == Ok(Leaf(Int(if a < 0x80 then Big2(a, b) else Big2(a, b) - 0x1_0000)), 3)
    ensures HeadAt([0xd2, a, b, c, d], 0)
         == Ok(Leaf(Int(if a < 0x80 then Big4(a, b, c, d) else Big4(a, b, c, d) - 0x1_0000_0000)), 5)
  {
    hide HeadAt;
    OneByteForms(a);
    OneByteNumbers(a);
    TwoByteNumbers(a, b);
    FourByteNumbers(a, b, c, d);
  }

  lemma OneByteForms(a: Byte)
    ensures a < 0x80 ==> HeadAt([a], 0) == Ok(Leaf(Int(a)), 1)
    ensures a >= 0xe0 ==> HeadAt([a], 0) == Ok(Leaf(Int(a - 0x100)), 1)
  {
  }

  lemma OneByteNumbers(a: Byte)
    ensures HeadAt([0xcc, a], 0) == Ok(Leaf(Int(a)), 2)
    ensures HeadAt([0xd0, a], 0) == Ok(Leaf(Int(if a < 0x80 then a else a - 0x100)), 2)
  {
  }

  lemma TwoByteNumbers(a: Byte, b: Byte)
    ensures HeadAt([0xcd, a, b], 0) == Ok(Leaf(Int(Big2(a, b))), 3)
    ensures HeadAt([0xd1, a, b], 0) == Ok(Leaf(Int(if a < 0x80 then Big2(a, b) else Big2(a, b) - 0x1_0000)), 3)
  {
    assert [0xcd, a, b][1..3] == [a, b] && [0xd1, a, b][1..3] == [a, b];
  }

  lemma FourByteNumbers(a: Byte, b: Byte, c: Byte, d: Byte)
    ensures HeadAt([0xce, a, b, c, d], 0) == Ok(Leaf(Int(Big4(a, b, c, d))), 5)
    ensures HeadAt([0xd2, a, b, c, d], 0)
         == Ok(Leaf(Int(if a < 0x80 then Big4(a, b, c, d) else Big4(a, b, c, d) - 0x1_0000_0000)), 5)
  {
    assert [0xce, a, b, c, d][1..5] == [a, b, c, d] && [0xd2, a, b, c, d][1..5] == [a, b, c, d];
    assert [a, b, c, d][..2] == [a, b] && [a, b, c, d][2..] == [c, d];
  }

  /** And of the other leaves: a single, which the writer never makes, included. */
  lemma OtherLeaves(bits4: Bytes, bits8: Bytes)
    requires |bits4| == 4 && |bits8| == 8
    ensures HeadAt([0xc0], 0) == Ok(Leaf(Null), 1) && HeadAt([0xc4], 0) == Ok(Leaf(Undefined), 1)
    ensures HeadAt([0xc2], 0) == Ok(Leaf(Bool(false)), 1) && HeadAt([0xc3], 0) == Ok(Leaf(Bool(true)), 1)
    ensures HeadAt([0xca] + bits4, 0) == Ok(Leaf(Single(bits4)), 5)
    ensures HeadAt([0xcb] + bits8, 0) == Ok(Leaf(Double(bits8)), 9)
  {
    assert ([0xca] + bits4)[1..5] == bits4 && ([0xcb] + bits8)[1..9] == bits8;
  }

  /** And of the lengths, short or long. */
  lemma LengthForms(a: Byte, b: Byte, c: Byte, d: Byte)
    ensures 0xa0 <= a < 0xc0 ==> HeadAt([a], 0) == Ok(StrHead(a - 0xa0), 1)
    ensures 0x90 <= a < 0xa0 ==> HeadAt([a], 0) == Ok(ArrHead(a - 0x90), 1)
    ensures 0x80 <= a < 0x90 ==> HeadAt([a], 0) == Ok(MapHead(a - 0x80), 1)
    ensures HeadAt([0xda, a, b], 0) == Ok(StrHead(Big2(a, b)), 3)
    ensures HeadAt([0xd8, a, b], 0) == Ok(BufHead(Big2(a, b)), 3)
    ensures HeadAt([0xdc, a, b], 0) == Ok(ArrHead(Big2(a, b)), 3)
    ensures HeadAt([0xde, a, b], 0) == Ok(MapHead(Big2(a, b)), 3)
    ensures HeadAt([0xdb, a, b, c, d], 0) == Ok(StrHead(Big4(a, b, c, d)), 5)
    ensures HeadAt([0xd9, a, b, c, d], 0) == Ok(BufHead(Big4(a, b, c, d)), 5)
    ensures HeadAt([0xdd, a, b, c, d], 0) == Ok(ArrHead(Big4(a, b, c, d)), 5)
    ensures HeadAt([0xdf, a, b, c, d], 0) == Ok(MapHead(Big4(a, b, c, d)), 5)
  {
    hide HeadAt;
    FixedLengths(a);
    TwoByteLengths(a, b);
    FourByteLengths(a, b, c, d);
  }

  lemma FixedLengths(a: Byte)
    ensures 0xa0 <= a < 0xc0 ==> HeadAt([a], 0) == Ok(StrHead(a - 0xa0), 1)
    ensures 0x90 <= a < 0xa0 ==> HeadAt([a], 0) == Ok(ArrHead(a - 0x90), 1)
    ensures 0x80 <= a < 0x90 ==> HeadAt([a], 0) == Ok(MapHead(a - 0x80), 1)
  {
  }

  lemma TwoByteLengths(a: Byte, b: Byte)
    ensures HeadAt([0xda, a, b], 0) == Ok(StrHead(Big2(a, b)), 3)
    ensures HeadAt([0xd8, a, b], 0) == Ok(BufHead(Big2(a, b)), 3)
    ensures HeadAt([0xdc, a, b], 0) == Ok(ArrHead(Big2(a, b)), 3)
    ensures HeadAt([0xde, a, b], 0) == Ok(MapHead(Big2(a, b)), 3)
  {
    assert [0xda, a, b][1..3] == [a, b] && [0xd8, a, b][1..3] == [a, b];
    assert [0xdc, a, b][1..3] == [a, b] && [0xde, a, b][1..3] == [a, b];
  }

  lemma FourByteLengths(a: Byte, b: Byte, c: Byte, d: Byte)
    ensures HeadAt([0xdb, a, b, c, d], 0) == Ok(StrHead(Big4(a, b, c, d)), 5)
    ensures HeadAt([0xd9, a, b, c, d], 0) == Ok(BufHead(Big4(a, b, c, d)), 5)
    ensures HeadAt([0xdd, a, b, c, d], 0) == Ok(ArrHead(Big4(a, b, c, d)), 5)
    ensures HeadAt([0xdf, a, b, c, d], 0) == Ok(MapHead(Big4(a, b, c, d)), 5)
  {
    assert [0xdb, a, b, c, d][1..5] == [a, b, c, d] && [0xd9, a, b, c, d][1..5] == [a, b, c, d];
    assert [0xdd, a, b, c, d][1..5] == [a, b, c, d] && [0xdf, a, b, c, d][1..5] == [a, b, c, d];
    assert [a, b, c, d][..2] == [a, b] && [a, b, c, d][2..] == [c, d];
  }

  /** No other first byte begins a value. */
  lemma NoOtherForms(t: Byte, rest: Bytes)
    requires t == 0xc1 || 0xc5 <= t <= 0xc9 || t == 0xcf || 0xd3 <= t <= 0xd7
    ensures HeadAt([t] + rest, 0) == Err(UnknownType(t))
  {
  }

  /** The writer takes the shortest form there is for an integer. */
  lemma IntIsShortest(n: int)
    requires IsInt32(n)
    ensures |IntBytes(n)| == if -0x20 <= n < 0x80 then 1 else if -0x80 <= n < 0x100 then 2
                             else if -0x8000 <= n < 0x1_0000 then 3 else 5
  {
  }
}
