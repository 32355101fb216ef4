/** Decimal numbers and separated lists as strings: printing, `parseInt`, `split`, joining. */
module Text {
  import opened Wrappers

  function DigitChar(d: nat): char
    requires d < 10
  {
    '0' + d as char
  }

  lemma DigitsAreDecimal(d: nat)
    requires d < 10
    ensures DigitChar(d) == "0123456789"[d] && DigitValue(DigitChar(d)) == d
  {
  }

  predicate IsDigit(c: char) { '0' <= c <= '9' }

  function DigitValue(c: char): nat
    requires IsDigit(c)
  {
    (c - '0') as int
  }

  function PrintNat(n: nat): (s: string)
    ensures s != [] && forall i :: 0 <= i < |s| ==> IsDigit(s[i])
  {
    if n < 10 then [DigitChar(n)] else PrintNat(n / 10) + [DigitChar(n % 10)]
  }

  /** A number converted to a string by `"" + n`. */
  function Print(n: int): (s: string)
    ensures s != [] && forall i :: 0 <= i < |s| ==> IsDigit(s[i]) || s[i] == '-'
  {
    if n < 0 then "-" + PrintNat(-n) else PrintNat(n)
  }

  /** The value of the digits at the start of a string, added to what was read before. */
  function ReadDigits(s: string, acc: nat): nat {
    if s == [] || !IsDigit(s[0]) then acc else ReadDigits(s[1..], 10 * acc + DigitValue(s[0]))
  }

  /**
   `parseInt` on a string without leading white space: a sign, then as many digits as there
   are; without a digit the result is not a number.
   */
  function ParseInt(s: string): Option<int> {
    var negative := s != [] && s[0] == '-';
    var rest := if s != [] && (s[0] == '-' || s[0] == '+') then s[1..] else s;
    if rest == [] || !IsDigit(rest[0]) then None
    else
      var n: int := ReadDigits(rest, 0);
      Some(if negative then -n else n)
  }

  function Power10(k: nat): nat { if k == 0 then 1 else 10 * Power10(k - 1) }

  lemma {:induction false} ReadAppend(s: string, d: nat, acc: nat)
    requires d < 10 && forall i :: 0 <= i < |s| ==> IsDigit(s[i])
    ensures ReadDigits(s + [DigitChar(d)], acc) == 10 * ReadDigits(s, acc) + d
    decreases |s|
  {
    if s == [] {
      assert ([] + [DigitChar(d)])[1..] == [];
    } else {
      assert (s + [DigitChar(d)])[1..] == s[1..] + [DigitChar(d)];
      ReadAppend(s[1..], d, 10 * acc + DigitValue(s[0]));
    }
  }

  lemma {:induction false} ReadPrintNat(n: nat)
    ensures ReadDigits(PrintNat(n), 0) == n
  {
    if n < 10 {
      assert PrintNat(n)[1..] == [];
    } else {
      ReadPrintNat(n / 10);
      ReadAppend(PrintNat(n / 10), n % 10, 0);
    }
  }

  /** What is printed is read back. */
  lemma ParsePrint(n: int)
    ensures ParseInt(Print(n)) == Some(n)
  {
    if n < 0 {
      ReadPrintNat(-n);
      assert Print(n)[1..] == PrintNat(-n);
    } else {
      ReadPrintNat(n);
      assert IsDigit(PrintNat(n)[0]);
    }
  }

  /** `s.split(sep)` for a separator of one character. */
  function Split(s: string, sep: char): (parts: seq<string>)
    ensures parts != []
  {
    if s == [] then [[]]
    else
      var rest := Split(s[1..], sep);
      if s[0] == sep then [[]] + rest else [[s[0]] + rest[0]] + rest[1..]
  }

  function Join(parts: seq<string>, sep: string): string
    requires parts != []
  {
    if |parts| == 1 then parts[0] else parts[0] + sep + Join(parts[1..], sep)
  }

  predicate Free(s: string, sep: char) {
    forall i :: 0 <= i < |s| ==> s[i] != sep
  }

  lemma {:induction false} SplitFirst(part: string, rest: string, sep: char)
    requires Free(part, sep)
    ensures Split(part + [sep] + rest, sep) == [part] + Split(rest, sep)
    ensures Split(part, sep) == [part]
    decreases |part|
  {
    var s := part + [sep] + rest;
    if part == [] {
      assert s[1..] == rest;
    } else {
      SplitFirst(part[1..], rest, sep);
      assert s[1..] == part[1..] + [sep] + rest;
      assert [part[0]] + part[1..] == part;
      var tail := Split(rest, sep);
      assert ([part[1..]] + tail)[1..] == tail && [part[1..]][1..] == [];
    }
  }

  /** Splitting undoes joining when no part holds the separator. */
  lemma {:induction false} SplitJoin(parts: seq<string>, sep: char)
    requires parts != [] && forall i :: 0 <= i < |parts| ==> Free(parts[i], sep)
    ensures Split(Join(parts, [sep]), sep) == parts
    decreases |parts|
  {
    if |parts| == 1 {
      SplitFirst(parts[0], [], sep);
    } else {
      SplitFirst(parts[0], Join(parts[1..], [sep]), sep);
      SplitJoin(parts[1..], sep);
      assert [parts[0]] + parts[1..] == parts;
    }
  }

  /** No part holds the separator, and joining undoes splitting: by `SplitJoin` no other parts do both. */
  lemma {:induction false} PartsAreFree(s: string, sep: char)
    ensures forall i :: 0 <= i < |Split(s, sep)| ==> Free(Split(s, sep)[i], sep)
    decreases |s|
  {
    if s != [] {
      PartsAreFree(s[1..], sep);
      var rest := Split(s[1..], sep);
      assert Free(rest[0], sep);
      forall i | 0 <= i < |Split(s, sep)|
        ensures Free(Split(s, sep)[i], sep)
      {
        if i > 0 {
          assert Free(if s[0] == sep then rest[i - 1] else rest[i], sep);
        }
      }
    }
  }

  lemma {:induction false} JoinSplit(s: string, sep: char)
    ensures Join(Split(s, sep), [sep]) == s
    decreases |s|
  {
    if s != [] {
      JoinSplit(s[1..], sep);
      var rest := Split(s[1..], sep);
      if s[0] == sep {
        assert ([[]] + rest)[1..] == rest;
        assert [] + [sep] + Join(rest, [sep]) == [s[0]] + Join(rest, [sep]);
      } else {
        JoinAfter(s[0], rest[0], rest[1..], [sep]);
        assert [rest[0]] + rest[1..] == rest;
      }
      assert [s[0]] + s[1..] == s;
    }
  }

  /** One more character in front belongs to the first part. */
  lemma JoinAfter(c: char, first: string, rest: seq<string>, sep: string)
    ensures Join([[c] + first] + rest, sep) == [c] + Join([first] + rest, sep)
  {
    assert ([[c] + first] + rest)[1..] == rest && ([first] + rest)[1..] == rest;
    if rest != [] {
      Regroup(c, first, sep, Join(rest, sep));
    }
  }

  lemma Regroup(c: char, a: string, b: string, d: string)
    ensures ([c] + a) + b + d == [c] + (a + b + d)
  {
  }

  /** Every part but the first with a blank put in front of it. */
  function Indented(parts: seq<string>): (r: seq<string>)
    requires parts != []
    ensures |r| == |parts|
  {
    if |parts| == 1 then parts
    else [parts[0]] + seq(|parts| - 1, i requires 0 <= i < |parts| - 1 => [' '] + parts[i + 1])
  }

  lemma {:induction false} JoinIndented(parts: seq<string>)
    requires parts != []
    ensures Join(parts, ", ") == Join(Indented(parts), ",")
    decreases |parts|
  {
    if |parts| > 1 {
      JoinIndented(parts[1..]);
      var rest, r := Indented(parts[1..]), Indented(parts);
      JoinAfter(' ', rest[0], rest[1..], ",");
      assert [rest[0]] + rest[1..] == rest;
      assert r[1..] == [[' '] + Indented(parts[1..])[0]] + Indented(parts[1..])[1..];
      assert parts[0] + ", " == parts[0] + "," + [' '];
    }
  }

  /** Lists joined with a comma and a blank are equal only when their elements are. */
  lemma JoinIsInjective(a: seq<string>, b: seq<string>)
    requires a != [] && b != []
    requires forall i :: 0 <= i < |a| ==> Free(a[i], ',')
    requires forall i :: 0 <= i < |b| ==> Free(b[i], ',')
    requires Join(a, ", ") == Join(b, ", ")
    ensures a == b
  {
    JoinIndented(a);
    JoinIndented(b);
    SplitJoin(Indented(a), ',');
    SplitJoin(Indented(b), ',');
    assert Indented(a) == Indented(b);
    forall i | 0 <= i < |a|
      ensures a[i] == b[i]
    {
      if i > 0 {
        assert Indented(a)[i][1..] == a[i] && Indented(b)[i][1..] == b[i];
      }
    }
  }
}
