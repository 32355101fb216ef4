/**
 Cut-off encodings: a buffer that ends anywhere inside an encoding is never read as a value, at
 whatever depth the end lies.
 */
module MsgPackTruncation {
  import opened Utf8
  import opened MsgPack
  import opened MsgPackRoundTrips

  /** The buffer ends inside `e`, which began at `off`. */
  predicate Breaks(bytes: Bytes, off: nat, e: Bytes) {
    off <= |bytes| < off + |e| && bytes[off..] == e[..|bytes| - off]
  }

  /** It ends inside the first part, or that is there and it ends inside the second. */
  lemma BreaksParts(bytes: Bytes, off: nat, a: Bytes, b: Bytes)
    requires Breaks(bytes, off, a + b)
    ensures Breaks(bytes, off, a) || (Holds(bytes, off, a) && Breaks(bytes, off + |a|, b))
  {
    var here := |bytes| - off;
    assert bytes[off..] == (a + b)[..here];
    if here < |a| {
      assert (a + b)[..here] == a[..here];
    } else {
      assert bytes[off..off + |a|] == bytes[off..][..|a|] == a;
      assert bytes[off + |a|..] == bytes[off..][|a|..] == b[..here - |a|];
    }
  }

  /** It ends before the first byte, or that byte is there. */
  lemma BreaksLate(bytes: Bytes, off: nat, e: Bytes)
    requires Breaks(bytes, off, e)
    ensures e != [] && off <= |bytes| < off + |e|
    ensures off < |bytes| ==> bytes[off] == e[0]
  {
    if off < |bytes| {
      assert bytes[off..][0] == e[0];
    }
  }

  // --- texts ---

  lemma UnitBreaks(bytes: Bytes, off: nat, u: CodeUnit)
    requires Breaks(bytes, off, UnitBytes(u))
    ensures UnitAt(bytes, off) == Err(OutOfRange)
  {
    hide Breaks, UnitOf;
    BreaksLate(bytes, off, UnitBytes(u));
    UnitRoundTrip(u);
  }

  lemma {:induction false} TextBreaks(bytes: Bytes, off: nat, s: Text)
    requires Breaks(bytes, off, Encoded(s))
    ensures Decoded(bytes, off, off + |Encoded(s)|) == Err(OutOfRange)
    decreases |s|
  {
    hide UnitBytes, UnitOf, Following, MangleUnit, Breaks;
    BreaksLate(bytes, off, Encoded(s));
    if s != [] {
      var first, rest := UnitBytes(s[0]), Encoded(s[1..]);
      BreaksParts(bytes, off, first, rest);
      if Breaks(bytes, off, first) {
        UnitBreaks(bytes, off, s[0]);
      } else {
        UnitRoundTrip(s[0]);
        assert bytes[off..off + |first|] == first;
        assert bytes[off] == first[0];
        TextBreaks(bytes, off + |first|, s[1..]);
      }
    }
  }

  // --- heads ---

  lemma IntBreaks(bytes: Bytes, off: nat, n: int)
    requires IsInt32(n) && Breaks(bytes, off, IntBytes(n))
    ensures HeadAt(bytes, off) == Err(OutOfRange)
  {
    hide Breaks;
    BreaksLate(bytes, off, IntBytes(n));
  }

  lemma LeafBreaks(bytes: Bytes, off: nat, v: Value)
    requires IsLeaf(v) && Breaks(bytes, off, LeafBytes(v))
    ensures HeadAt(bytes, off) == Err(OutOfRange)
  {
    hide Breaks;
    if v.Int? {
      IntBreaks(bytes, off, v.n);
    } else {
      BreaksLate(bytes, off, LeafBytes(v));
    }
  }

  lemma HeadBreaks(bytes: Bytes, off: nat, h: Head)
    requires IsHead(h) && Breaks(bytes, off, HeadBytes(h))
    ensures HeadAt(bytes, off) == Err(OutOfRange)
  {
    hide Breaks, LeafBytes;
    if h.Leaf? {
      LeafBreaks(bytes, off, h.v);
    } else {
      BreaksLate(bytes, off, HeadBytes(h));
    }
  }

  // --- values ---

  lemma StrBreaks(bytes: Bytes, off: nat, s: Text)
    requires |Encoded(s)| < LIMIT && Breaks(bytes, off, StrBytes(s))
    ensures Parse(bytes, off) == Err(OutOfRange)
  {
    hide HeadAt, HeadBytes, Holds, Breaks, Encoded, Decoded;
    var h := StrHead(|Encoded(s)|);
    BreaksParts(bytes, off, HeadBytes(h), Encoded(s));
    if Breaks(bytes, off, HeadBytes(h)) {
      HeadBreaks(bytes, off, h);
    } else {
      HeadThere(bytes, off, h);
      TextBreaks(bytes, off + |HeadBytes(h)|, s);
    }
  }

  lemma BufBreaks(bytes: Bytes, off: nat, data: Bytes)
    requires |data| < LIMIT && Breaks(bytes, off, HeadBytes(BufHead(|data|)) + data)
    ensures Parse(bytes, off) == Err(OutOfRange)
  {
    hide HeadAt, HeadBytes, Holds, Breaks;
    var h := BufHead(|data|);
    BreaksParts(bytes, off, HeadBytes(h), data);
    if Breaks(bytes, off, HeadBytes(h)) {
      HeadBreaks(bytes, off, h);
    } else {
      HeadThere(bytes, off, h);
      BreaksLate(bytes, off + |HeadBytes(h)|, data);
    }
  }

  /** Wherever an encoding begins, if the buffer ends inside it parsing runs past the end. */
  lemma {:induction false} ValueBreaks(bytes: Bytes, off: nat, v: Value)
    requires Encodable(v) && Breaks(bytes, off, Enc(v))
    ensures Parse(bytes, off) == Err(OutOfRange)
    decreases v
  {
    hide HeadAt, HeadBytes, LeafBytes, Holds, StrBytes, Breaks;
    if v.Str? {
      StrBreaks(bytes, off, v.s);
    } else if v.Buf? && |v.data| < LIMIT {
      BufBreaks(bytes, off, v.data);
    } else if v.Buf? {
      HeadBreaks(bytes, off, MapHead(0));
    } else if v.Arr? {
      var h := ArrHead(|v.items|);
      BreaksParts(bytes, off, HeadBytes(h), EncAll(v.items));
      if Breaks(bytes, off, HeadBytes(h)) {
        HeadBreaks(bytes, off, h);
      } else {
        HeadThere(bytes, off, h);
        ItemsBreak(bytes, off + |HeadBytes(h)|, v.items);
      }
    } else if v.Map? {
      var h := MapHead(|v.entries|);
      BreaksParts(bytes, off, HeadBytes(h), EncEntries(v.entries));
      if Breaks(bytes, off, HeadBytes(h)) {
        HeadBreaks(bytes, off, h);
      } else {
        HeadThere(bytes, off, h);
        EntriesBreak(bytes, off + |HeadBytes(h)|, v.entries, []);
      }
    } else {
      assert HeadBytes(Leaf(v)) == LeafBytes(v) by { LeafHead(v); }
      HeadBreaks(bytes, off, Leaf(v));
    }
  }

  lemma {:induction false} ItemsBreak(bytes: Bytes, off: nat, items: seq<Value>)
    requires AllEncodable(items) && off <= |bytes| && Breaks(bytes, off, EncAll(items))
    ensures ParseItems(bytes, off, |items|) == Err(OutOfRange)
    decreases items
  {
    hide Holds, Breaks, Parse, Enc, Mangle;
    BreaksLate(bytes, off, EncAll(items));
    var first := Enc(items[0]);
    BreaksParts(bytes, off, first, EncAll(items[1..]));
    if Breaks(bytes, off, first) {
      ValueBreaks(bytes, off, items[0]);
    } else {
      RoundTrip(bytes, off, items[0]);
      ItemsBreak(bytes, off + |first|, items[1..]);
    }
  }

  lemma {:induction false} EntriesBreak(bytes: Bytes, off: nat, entries: seq<Entry>, before: seq<Entry>)
    requires EntriesEncodable(entries) && off <= |bytes| && Breaks(bytes, off, EncEntries(entries))
    ensures ParseEntries(bytes, off, |entries|, before) == Err(OutOfRange)
    decreases entries
  {
    hide Holds, Breaks, StrBytes, Parse, Enc, Mangle, MangleText, Insert, EncEntry;
    BreaksLate(bytes, off, EncEntries(entries));
    var e := entries[0];
    BreaksParts(bytes, off, EncEntry(e), EncEntries(entries[1..]));
    if Breaks(bytes, off, EncEntry(e)) {
      EntryBreaks(bytes, off, e, |entries|, before);
    } else {
      var next := EntryRoundTrip(bytes, off, e);
      var before' := Insert(before, MangleText(e.key), Mangle(e.value));
      EntriesBreak(bytes, off + |EncEntry(e)|, entries[1..], before');
    }
  }

  lemma {:induction false} EntryBreaks(bytes: Bytes, off: nat, e: Entry, n: nat, before: seq<Entry>)
    requires |Encoded(e.key)| < LIMIT && Encodable(e.value) && n > 0 && off <= |bytes|
    requires Breaks(bytes, off, EncEntry(e))
    ensures ParseEntries(bytes, off, n, before) == Err(OutOfRange)
    decreases e
  {
    hide Holds, Breaks, StrBytes, Parse, Enc, MangleText, Insert;
    BreaksParts(bytes, off, StrBytes(e.key), Enc(e.value));
    if Breaks(bytes, off, StrBytes(e.key)) {
      StrBreaks(bytes, off, e.key);
    } else {
      StrThere(bytes, off, e.key);
      ValueBreaks(bytes, off + |StrBytes(e.key)|, e.value);
    }
  }

  /** No proper beginning of an encoding decodes to anything, clean or not. */
  lemma CutOffIsRefused(v: Value, n: nat)
    requires Encodable(v) && n < |Enc(v)|
    ensures Decode(Enc(v)[..n]) == Err(OutOfRange)
  {
    hide Parse, Enc;
    assert Breaks(Enc(v)[..n], 0, Enc(v));
    ValueBreaks(Enc(v)[..n], 0, v);
  }

  /** So no encoding, clean or not, is a proper beginning of another. */
  lemma SelfDelimiting(v: Value, w: Value)
    requires Encodable(v) && Encodable(w) && Enc(v) <= Enc(w)
    ensures Enc(v) == Enc(w) && Mangle(v) == Mangle(w)
  {
    hide Parse, Enc, Mangle;
    DecodeOfEncode(v);
    DecodeOfEncode(w);
    assert Enc(w)[..|Enc(v)|] == Enc(v);
    if |Enc(v)| < |Enc(w)| {
      CutOffIsRefused(w, |Enc(v)|);
      assert false;
    }
    assert Enc(v) == Enc(w);
  }
}
