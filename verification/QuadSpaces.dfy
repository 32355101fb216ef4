/**
 Names of space cells.  A cell is three integers; each is written in base 4 with the digits
 -2..1, lowest level first, and one level of all three is a quad `i_j_k_p`.  The JavaScript
 loop works on 32-bit integers, the Java loop on 64-bit ones.
 */
module QuadSpaces {
  import opened Wrappers
  import opened Text

  datatype Vec = Vec(x: real, y: real, z: real)

  datatype Cell = Cell(x: int, y: int, z: int)

  /** One level: three digits and the power of two of their unit. */
  datatype Quad = Quad(i: int, j: int, k: int, p: int)

  datatype Width = W32 | W64

  /** The first integer above the range of a width. */
  function Half(w: Width): int {
    if w.W32? then 0x8000_0000 else 0x8000_0000_0000_0000
  }

  predicate Fits(w: Width, x: int) { -Half(w) <= x < Half(w) }

  predicate CellFits(w: Width, c: Cell) { Fits(w, c.x) && Fits(w, c.y) && Fits(w, c.z) }

  /** The integer of the given width that is congruent to `x`: what `|0` does for 32 bits. */
  function Wrap(w: Width, x: int): (r: int)
    ensures Fits(w, r)
    ensures Fits(w, x) ==> r == x
  {
    if w.W32? then (x + 0x8000_0000) % 0x1_0000_0000 - 0x8000_0000
    else (x + 0x8000_0000_0000_0000) % 0x1_0000_0000_0000_0000 - 0x8000_0000_0000_0000
  }

  const ZERO_CELL := Cell(0, 0, 0)

  // --- the unbounded scheme ---

  function Digit(x: int): (d: int)
    ensures -2 <= d <= 1
  {
    (x + 2) % 4 - 2
  }

  function Shift(x: int): int { (x + 2) / 4 }

  function Abs(x: int): nat { if x < 0 then -x else x }

  function Size(c: Cell): nat { Abs(c.x) + Abs(c.y) + Abs(c.z) }

  function LevelOf(c: Cell, p: int): Quad { Quad(Digit(c.x), Digit(c.y), Digit(c.z), p) }

  function ShiftCell(c: Cell): Cell {
    Cell(Shift(c.x), Shift(c.y), Shift(c.z))
  }

  lemma ShiftShrinks(x: int)
    ensures Abs(Shift(x)) <= Abs(x) && (Abs(Shift(x)) == Abs(x) ==> x == 0)
  {
  }

  lemma ShiftCellShrinks(c: Cell)
    requires ShiftCell(c) != ZERO_CELL
    ensures Size(ShiftCell(c)) < Size(c)
  {
    ShiftShrinks(c.x);
    ShiftShrinks(c.y);
    ShiftShrinks(c.z);
  }

  /** The levels of a cell, over the integers. */
  function Quads(c: Cell, p: int): (qs: seq<Quad>)
    ensures qs != []
    decreases Size(c)
  {
    if ShiftCell(c) == ZERO_CELL then [LevelOf(c, p)]
    else
      ShiftCellShrinks(c);
      [LevelOf(c, p)] + Quads(ShiftCell(c), p + 2)
  }

  /** The cell a list of levels stands for, in units of its first level. */
  function Value(qs: seq<Quad>): Cell {
    if qs == [] then ZERO_CELL
    else
      var rest := Value(qs[1..]);
      Cell(qs[0].i + 4 * rest.x, qs[0].j + 4 * rest.y, qs[0].k + 4 * rest.z)
  }

  lemma DigitAndShift(x: int)
    ensures Digit(x) + 4 * Shift(x) == x
  {
  }

  lemma LevelPlusShifted(c: Cell, p: int, rest: seq<Quad>)
    requires Value(rest) == ShiftCell(c)
    ensures Value([LevelOf(c, p)] + rest) == c
  {
    assert ([LevelOf(c, p)] + rest)[1..] == rest;
    DigitAndShift(c.x);
    DigitAndShift(c.y);
    DigitAndShift(c.z);
  }

  /** The levels add up to the cell. */
  lemma {:induction false} ValueOfQuads(c: Cell, p: int)
    ensures Value(Quads(c, p)) == c
    decreases Size(c)
  {
    if ShiftCell(c) == ZERO_CELL {
      LevelPlusShifted(c, p, []);
      assert Quads(c, p) == [LevelOf(c, p)] + [];
    } else {
      ShiftCellShrinks(c);
      ValueOfQuads(ShiftCell(c), p + 2);
      LevelPlusShifted(c, p, Quads(ShiftCell(c), p + 2));
    }
  }

  predicate IsLevel(q: Quad) { -2 <= q.i <= 1 && -2 <= q.j <= 1 && -2 <= q.k <= 1 }

  /** Digits in range, powers rising by two, and no zero level at the end of a longer list. */
  ghost predicate Canonical(qs: seq<Quad>, p: int) {
    && qs != []
    && AreLevels(qs, p)
    && (|qs| > 1 ==> qs[|qs| - 1] != Quad(0, 0, 0, qs[|qs| - 1].p))
  }

  ghost predicate LastIsNotZero(qs: seq<Quad>) {
    qs != [] ==> qs[|qs| - 1] != Quad(0, 0, 0, qs[|qs| - 1].p)
  }

  lemma OnlyDigit(x: int)
    requires Shift(x) == 0
    ensures Digit(x) == x
  {
  }

  lemma OnlyLevel(c: Cell, p: int)
    requires ShiftCell(c) == ZERO_CELL
    ensures LevelOf(c, p) == Quad(c.x, c.y, c.z, p)
  {
    OnlyDigit(c.x);
    OnlyDigit(c.y);
    OnlyDigit(c.z);
  }

  lemma {:induction false} QuadsAreCanonical(c: Cell, p: int)
    ensures Canonical(Quads(c, p), p)
    ensures c != ZERO_CELL ==> LastIsNotZero(Quads(c, p))
    decreases Size(c)
  {
    if ShiftCell(c) == ZERO_CELL {
      OnlyLevel(c, p);
      assert Quads(c, p) == [LevelOf(c, p)];
    } else {
      ShiftCellShrinks(c);
      QuadsAreCanonical(ShiftCell(c), p + 2);
      LevelsAfter(LevelOf(c, p), Quads(ShiftCell(c), p + 2));
    }
  }

  /** Only canonical lists come out, and every canonical list comes out of its own value. */
  lemma {:induction false} CanonicalListsAreQuads(qs: seq<Quad>, p: int)
    ensures Canonical(qs, p) <==> qs == Quads(Value(qs), p)
    decreases |qs|
  {
    QuadsAreCanonical(Value(qs), p);
    if Canonical(qs, p) {
      QuadsOfValue(qs, p);
    }
  }

  lemma DigitAndRest(d: int, v: int)
    requires -2 <= d <= 1
    ensures Digit(d + 4 * v) == d && Shift(d + 4 * v) == v
  {
  }

  lemma HeadOfValue(qs: seq<Quad>)
    requires qs != [] && IsLevel(qs[0])
    ensures ShiftCell(Value(qs)) == Value(qs[1..]) && LevelOf(Value(qs), qs[0].p) == qs[0]
  {
    hide Digit, Shift;
    var rest := Value(qs[1..]);
    DigitAndRest(qs[0].i, rest.x);
    DigitAndRest(qs[0].j, rest.y);
    DigitAndRest(qs[0].k, rest.z);
    assert Value(qs) == Cell(qs[0].i + 4 * rest.x, qs[0].j + 4 * rest.y, qs[0].k + 4 * rest.z);
    assert ShiftCell(Value(qs)) == rest;
  }

  lemma QuadsOfOne(qs: seq<Quad>)
    requires |qs| == 1 && IsLevel(qs[0])
    ensures Quads(Value(qs), qs[0].p) == qs
    ensures qs[0] != Quad(0, 0, 0, qs[0].p) ==> Value(qs) != ZERO_CELL
  {
    hide Shift;
    HeadOfValue(qs);
    assert qs[1..] == [];
    assert qs == [qs[0]];
  }

  lemma QuadsOfMore(qs: seq<Quad>)
    requires qs != [] && IsLevel(qs[0])
    requires Value(qs[1..]) != ZERO_CELL && Quads(Value(qs[1..]), qs[0].p + 2) == qs[1..]
    ensures Quads(Value(qs), qs[0].p) == qs
    ensures Value(qs) != ZERO_CELL
  {
    hide Digit, Shift;
    HeadOfValue(qs);
    ZeroShifts();
    assert qs == [qs[0]] + qs[1..];
  }

  lemma ZeroShifts()
    ensures ShiftCell(ZERO_CELL) == ZERO_CELL
  {
  }

  lemma CanonicalTail(qs: seq<Quad>, p: int)
    requires Canonical(qs, p) && |qs| > 1
    ensures Canonical(qs[1..], p + 2)
    ensures var rest := qs[1..]; rest[|rest| - 1] == qs[|qs| - 1]
  {
    var rest := qs[1..];
    forall n | 0 <= n < |rest|
      ensures IsLevel(rest[n]) && rest[n].p == p + 2 + 2 * n
    {
      assert rest[n] == qs[n + 1];
    }
  }

  lemma {:induction false} QuadsOfValue(qs: seq<Quad>, p: int)
    requires Canonical(qs, p)
    ensures Quads(Value(qs), p) == qs
    ensures qs[|qs| - 1] != Quad(0, 0, 0, qs[|qs| - 1].p) ==> Value(qs) != ZERO_CELL
    decreases |qs|
  {
    assert IsLevel(qs[0]) && qs[0].p == p;
    if |qs| == 1 {
      QuadsOfOne(qs);
    } else {
      CanonicalTail(qs, p);
      QuadsOfValue(qs[1..], p + 2);
      QuadsOfMore(qs);
    }
  }

  /** The number written with n digits one, the largest that n digits can write. */
  function Ones(n: nat): nat { if n == 0 then 0 else 4 * Ones(n - 1) + 1 }

  function Pow4(n: nat): nat { if n == 0 then 1 else 4 * Pow4(n - 1) }

  lemma {:induction false} OnesClosed(n: nat)
    ensures Ones(n) == (Pow4(n) - 1) / 3 && 3 * Ones(n) == Pow4(n) - 1
  {
    if n > 0 {
      OnesClosed(n - 1);
    }
  }

  predicate Short(x: int, n: nat) { -2 * Ones(n) <= x <= Ones(n) }

  lemma ShortShift(x: int, n: nat)
    requires n > 0
    ensures Short(x, n) <==> Short(Shift(x), n - 1)
  {
  }

  /** n levels are enough exactly for the cells whose coordinates n digits can write. */
  lemma {:induction false} LengthBound(c: Cell, p: int, n: nat)
    requires n > 0
    ensures |Quads(c, p)| <= n <==> Short(c.x, n) && Short(c.y, n) && Short(c.z, n)
    decreases Size(c)
  {
    ShortShift(c.x, n);
    ShortShift(c.y, n);
    ShortShift(c.z, n);
    if ShiftCell(c) == ZERO_CELL {
    } else if n == 1 {
    } else {
      ShiftCellShrinks(c);
      LengthBound(ShiftCell(c), p + 2, n - 1);
    }
  }

  // --- the fixed-width loops ---

  /** Where adding 2 and clearing two bits stays inside the width. */
  predicate InRange(w: Width, x: int) { -Half(w) <= x <= Half(w) - 3 }

  predicate CellInRange(w: Width, c: Cell) { InRange(w, c.x) && InRange(w, c.y) && InRange(w, c.z) }

  /** One turn of a fixed-width loop on one coordinate; past the range it loses a quarter of 2^width. */
  function ShiftW(w: Width, x: int): (r: int)
    requires Fits(w, x)
    ensures Fits(w, r)
  {
    if InRange(w, x) then Shift(x) else Shift(x) - Half(w) / 2
  }

  /** The turn is: add 2, take the low two bits off, reduce to the width, shift right. */
  lemma TurnOfWidth(w: Width, x: int)
    requires Fits(w, x)
    ensures ShiftW(w, x) == Wrap(w, x + 2 - (x + 2) % 4) / 4
  {
  }

  function ShiftCellW(w: Width, c: Cell): (r: Cell)
    requires CellFits(w, c)
    ensures CellFits(w, r)
  {
    Cell(ShiftW(w, c.x), ShiftW(w, c.y), ShiftW(w, c.z))
  }

  lemma ShiftWShrinks(w: Width, x: int)
    requires Fits(w, x)
    ensures Abs(ShiftW(w, x)) <= Abs(x) && (Abs(ShiftW(w, x)) == Abs(x) ==> x == 0)
  {
  }

  lemma ShiftCellWShrinks(w: Width, c: Cell)
    requires CellFits(w, c) && ShiftCellW(w, c) != ZERO_CELL
    ensures Size(ShiftCellW(w, c)) < Size(c)
  {
    ShiftWShrinks(w, c.x);
    ShiftWShrinks(w, c.y);
    ShiftWShrinks(w, c.z);
  }

  function QuadsW(w: Width, c: Cell, p: int): (qs: seq<Quad>)
    requires CellFits(w, c)
    ensures qs != []
    decreases Size(c)
  {
    if ShiftCellW(w, c) == ZERO_CELL then [LevelOf(c, p)]
    else
      ShiftCellWShrinks(w, c);
      [LevelOf(c, p)] + QuadsW(w, ShiftCellW(w, c), p + 2)
  }

  /** Outside the range, and only there, the turn loses a whole turn of the integers. */
  lemma ShiftWidth(w: Width, x: int)
    requires Fits(w, x)
    ensures InRange(w, x) ==> ShiftW(w, x) == Shift(x)
    ensures Digit(x) + 4 * ShiftW(w, x) == x - Lost(w, x)
    ensures InRange(w, ShiftW(w, x))
  {
  }

  function Lost(w: Width, x: int): int { if InRange(w, x) then 0 else 2 * Half(w) }

  function LessLost(w: Width, c: Cell): Cell {
    Cell(c.x - Lost(w, c.x), c.y - Lost(w, c.y), c.z - Lost(w, c.z))
  }

  /** One level and the cell of the rest make up the cell, less what the turn lost. */
  lemma LevelAndRest(w: Width, c: Cell, p: int, rest: seq<Quad>)
    requires CellFits(w, c) && Value(rest) == ShiftCellW(w, c)
    ensures Value([LevelOf(c, p)] + rest) == LessLost(w, c)
  {
    ShiftWidth(w, c.x);
    ShiftWidth(w, c.y);
    ShiftWidth(w, c.z);
    assert ([LevelOf(c, p)] + rest)[1..] == rest;
  }

  lemma {:induction false} ValueOfQuadsW(w: Width, c: Cell, p: int)
    requires CellFits(w, c)
    ensures Value(QuadsW(w, c, p)) == LessLost(w, c)
    decreases Size(c)
  {
    var next := ShiftCellW(w, c);
    if next != ZERO_CELL {
      ShiftCellWShrinks(w, c);
      ValueOfQuadsW(w, next, p + 2);
      NextIsInRange(w, c);
      LevelAndRest(w, c, p, QuadsW(w, next, p + 2));
    } else {
      LevelAndRest(w, c, p, []);
      assert [LevelOf(c, p)] + [] == [LevelOf(c, p)];
    }
  }

  lemma NextIsInRange(w: Width, c: Cell)
    requires CellFits(w, c)
    ensures LessLost(w, ShiftCellW(w, c)) == ShiftCellW(w, c)
  {
    ShiftWidth(w, c.x);
    ShiftWidth(w, c.y);
    ShiftWidth(w, c.z);
  }

  lemma {:induction false} QuadsWInRange(w: Width, c: Cell, p: int)
    requires CellInRange(w, c)
    ensures QuadsW(w, c, p) == Quads(c, p)
    decreases Size(c)
  {
    ShiftWidth(w, c.x);
    ShiftWidth(w, c.y);
    ShiftWidth(w, c.z);
    var next := ShiftCellW(w, c);
    assert next == ShiftCell(c) && CellInRange(w, next);
    if next != ZERO_CELL {
      ShiftCellWShrinks(w, c);
      QuadsWInRange(w, next, p + 2);
    }
  }

  /**
   The loop agrees with the unbounded scheme exactly on the cells whose coordinates are at
   most 3 below the end of the width.
   */
  lemma WidthIsEnough(w: Width, c: Cell, p: int)
    requires CellFits(w, c)
    ensures QuadsW(w, c, p) == Quads(c, p) <==> CellInRange(w, c)
  {
    if CellInRange(w, c) {
      QuadsWInRange(w, c, p);
    } else {
      ValueOfQuads(c, p);
      ValueOfQuadsW(w, c, p);
    }
  }

  // --- names ---

  function Name(q: Quad): string {
    Print(q.i) + "_" + Print(q.j) + "_" + Print(q.k) + "_" + Print(q.p)
  }

  function Names(qs: seq<Quad>): (names: seq<string>)
    ensures |names| == |qs| && forall n :: 0 <= n < |qs| ==> names[n] == Name(qs[n])
  {
    seq(|qs|, n requires 0 <= n < |qs| => Name(qs[n]))
  }

  function NameParts(q: Quad): seq<string> { [Print(q.i), Print(q.j), Print(q.k), Print(q.p)] }

  lemma JoinOfFour(a: string, b: string, c: string, d: string)
    ensures a + "_" + b + "_" + c + "_" + d == Join([a, b, c, d], "_")
  {
    var parts := [a, b, c, d];
    assert parts[1..] == [b, c, d] && [b, c, d][1..] == [c, d] && [c, d][1..] == [d];
    var tail := c + "_" + d;
    assert Join([c, d], "_") == tail;
    assert Join([b, c, d], "_") == b + "_" + tail;
    assert a + "_" + b + "_" + c + "_" + d == a + "_" + b + "_" + tail;
    assert a + "_" + b + "_" + tail == a + "_" + (b + "_" + tail);
  }

  lemma NameIsJoined(q: Quad)
    ensures Name(q) == Join(NameParts(q), "_")
    ensures Split(Name(q), '_') == NameParts(q)
    ensures Free(Name(q), ',')
  {
    var parts := NameParts(q);
    JoinOfFour(Print(q.i), Print(q.j), Print(q.k), Print(q.p));
    forall n | 0 <= n < |parts|
      ensures Free(parts[n], '_') && Free(parts[n], ',')
    {
    }
    SplitJoin(parts, '_');
  }

  lemma NameIsInjective(q: Quad, r: Quad)
    requires Name(q) == Name(r)
    ensures q == r
  {
    NameIsJoined(q);
    NameIsJoined(r);
    assert NameParts(q)[0] == NameParts(r)[0] && NameParts(q)[1] == NameParts(r)[1];
    assert NameParts(q)[2] == NameParts(r)[2] && NameParts(q)[3] == NameParts(r)[3];
    ParsePrint(q.i);
    ParsePrint(q.j);
    ParsePrint(q.k);
    ParsePrint(q.p);
    ParsePrint(r.i);
    ParsePrint(r.j);
    ParsePrint(r.k);
    ParsePrint(r.p);
  }

  /** The list of names as one string. */
  function Listed(names: seq<string>): string {
    if names == [] then "[]" else "[" + Join(names, ", ") + "]"
  }

  method ListToString(list: seq<string>) returns (res: string)
    ensures res == Listed(list)
    ensures res == "[" + (if list == [] then "" else Join(list, ", ")) + "]"
  {
    res := "[";
    for s := 0 to |list|
      invariant s == 0 ==> res == "["
      invariant s > 0 ==> res == "[" + Join(list[..s], ", ")
    {
      if s != 0 {
        res := res + ", ";
        JoinAppend(list[..s], list[s], ", ");
        assert list[..s + 1] == list[..s] + [list[s]];
      } else {
        assert list[..1] == [list[0]];
      }
      res := res + list[s];
    }
    assert list[..|list|] == list;
    res := res + "]";
  }

  lemma {:induction false} JoinAppend(parts: seq<string>, last: string, sep: string)
    requires parts != []
    ensures Join(parts + [last], sep) == Join(parts, sep) + sep + last
    decreases |parts|
  {
    if |parts| == 1 {
      assert (parts + [last])[1..] == [last];
    } else {
      JoinAppend(parts[1..], last, sep);
      assert (parts + [last])[1..] == parts[1..] + [last];
      assert parts[0] + sep + (Join(parts[1..], sep) + sep + last)
          == parts[0] + sep + Join(parts[1..], sep) + sep + last;
    }
  }

  /** Different lists of levels have different strings. */
  lemma ListedIsInjective(a: seq<Quad>, b: seq<Quad>)
    requires a != [] && b != []
    requires Listed(Names(a)) == Listed(Names(b))
    ensures a == b
  {
    var sa, sb := Listed(Names(a)), Listed(Names(b));
    assert sa[1..|sa| - 1] == Join(Names(a), ", ") && sb[1..|sb| - 1] == Join(Names(b), ", ");
    forall n | 0 <= n < |a| ensures Free(Names(a)[n], ',') { NameIsJoined(a[n]); }
    forall n | 0 <= n < |b| ensures Free(Names(b)[n], ',') { NameIsJoined(b[n]); }
    JoinIsInjective(Names(a), Names(b));
    forall n | 0 <= n < |a|
      ensures a[n] == b[n]
    {
      assert Names(a)[n] == Names(b)[n];
      NameIsInjective(a[n], b[n]);
    }
  }

  lemma LessLostIsInjective(w: Width, c: Cell, d: Cell)
    requires CellFits(w, c) && CellFits(w, d) && LessLost(w, c) == LessLost(w, d)
    ensures c == d
  {
  }

  /** Distinct cells of the width get distinct strings, whatever their units, and so do distinct units. */
  lemma CellNamesAreUnique(w: Width, c: Cell, p: int, d: Cell, r: int)
    requires CellFits(w, c) && CellFits(w, d)
    ensures Listed(Names(QuadsW(w, c, p))) == Listed(Names(QuadsW(w, d, r))) <==> c == d && p == r
  {
    hide LessLost, Listed;
    if Listed(Names(QuadsW(w, c, p))) == Listed(Names(QuadsW(w, d, r))) {
      ListedIsInjective(QuadsW(w, c, p), QuadsW(w, d, r));
      ValueOfQuadsW(w, c, p);
      ValueOfQuadsW(w, d, r);
      LessLostIsInjective(w, c, d);
      assert QuadsW(w, c, p)[0].p == p && QuadsW(w, d, r)[0].p == r;
    }
  }

  // --- reals ---

  /** Truncation toward zero. */
  function Trunc(r: real): int { if r >= 0.0 then r.Floor else -((-r).Floor) }

  function Pow2(e: int): (r: real)
    ensures r > 0.0
    decreases Abs(e)
  {
    if e == 0 then 1.0 else if e > 0 then 2.0 * Pow2(e - 1) else Pow2(e + 1) / 2.0
  }

  lemma {:induction false} Pow2Inverse(e: int)
    ensures Pow2(e) * Pow2(-e) == 1.0
    decreases Abs(e)
  {
    if e > 0 {
      Pow2Inverse(e - 1);
    } else if e < 0 {
      Pow2Inverse(e + 1);
    }
  }

  lemma Pow2Next(e: int)
    ensures Pow2(e + 1) == 2.0 * Pow2(e)
  {
  }

  /** `x * power` without its fraction. */
  function TruncScale(x: real, power: real): int { Trunc(x * power) }

  /** The cell of a point, not reduced to any width. */
  function TrueCell(p: Vec, bias: int): Cell {
    var w := Pow2(-bias);
    Cell(TruncScale(p.x, w), TruncScale(p.y, w), TruncScale(p.z, w))
  }

  /** `(x * power) | 0` */
  function Scale32(x: real, power: real): (r: int)
    ensures Fits(W32, r)
  {
    Wrap(W32, TruncScale(x, power))
  }

  /** The cell of a point, in units of 2^bias. */
  function CellOf(v: Vec, bias: int): (c: Cell)
    ensures CellFits(W32, c)
  {
    var power := Pow2(-bias);
    Cell(Scale32(v.x, power), Scale32(v.y, power), Scale32(v.z, power))
  }

  /** The name of the cell of a point. */
  function CellName(v: Vec, bias: int): string {
    Listed(Names(QuadsW(W32, CellOf(v, bias), bias)))
  }

  /** Java's cast of a real to a 64-bit integer stops at the ends of the range. */
  function Saturate(x: int): (r: int)
    ensures Fits(W64, r) && (Fits(W64, x) ==> r == x)
    ensures forall y :: Fits(W64, y) ==> Abs(r - x) <= Abs(y - x)
  {
    if x < -Half(W64) then -Half(W64) else if x >= Half(W64) then Half(W64) - 1 else x
  }

  function Scale64(x: real, power: real): (r: int)
    ensures Fits(W64, r)
  {
    Saturate(TruncScale(x, power))
  }

  function CellOf64(v: Vec, bias: int): (c: Cell)
    ensures CellFits(W64, c)
  {
    var power := Pow2(-bias);
    Cell(Scale64(v.x, power), Scale64(v.y, power), Scale64(v.z, power))
  }

  // --- decompose ---

  /** One turn of the loop, on what is done and what is still to come. */
  lemma Turn(w: Width, done: seq<Quad>, c: Cell, p: int)
    requires CellFits(w, c)
    ensures Names(done + [LevelOf(c, p)]) == Names(done) + [Name(LevelOf(c, p))]
    ensures ShiftCellW(w, c) == ZERO_CELL ==> done + QuadsW(w, c, p) == done + [LevelOf(c, p)]
    ensures ShiftCellW(w, c) != ZERO_CELL ==>
              && done + QuadsW(w, c, p) == done + [LevelOf(c, p)] + QuadsW(w, ShiftCellW(w, c), p + 2)
              && Size(ShiftCellW(w, c)) < Size(c)
  {
    if ShiftCellW(w, c) != ZERO_CELL {
      ShiftCellWShrinks(w, c);
    }
  }

  lemma NothingDone(all: seq<Quad>)
    ensures [] + all == all
  {
  }

  lemma TurnJava(x: int)
    requires Fits(W64, x)
    ensures var y := Wrap(W64, x + 2); y % 4 == (x + 2) % 4 && Wrap(W64, y - y % 4) / 4 == ShiftW(W64, x)
  {
    TurnOfWidth(W64, x);
  }

  /** `x >> 2` on a 32-bit value. */
  function ShiftRight2(x: int): int { Wrap(W32, x) / 4 }

  /** The turn of the JavaScript loop on one axis. */
  method LowBits32(x0: int) returns (i: int, x: int)
    requires Fits(W32, x0)
    ensures i - 2 == Digit(x0) && x == ShiftW(W32, x0)
  {
    TurnOfWidth(W32, x0);
    x := x0 + 2;
    i := x % 4;
    x := x - i;
    x := ShiftRight2(x);
  }

  /** The turn of the Java loop on one axis: the addition itself wraps. */
  method LowBits64(x0: int) returns (i: int, x: int)
    requires Fits(W64, x0)
    ensures i - 2 == Digit(x0) && x == ShiftW(W64, x0)
  {
    TurnJava(x0);
    x := Wrap(W64, x0 + 2);
    i := x % 4;
    x := Wrap(W64, x - i);
    x := x / 4;
  }

  method Decompose(v: Vec, bias: int) returns (result: seq<string>)
    ensures result == Names(QuadsW(W32, CellOf(v, bias), bias))
  {
    var power := Pow2(-bias);
    result := Loop32(Scale32(v.x, power), Scale32(v.y, power), Scale32(v.z, power), bias);
  }

  method Loop32(x0: int, y0: int, z0: int, bias: int) returns (result: seq<string>)
    requires CellFits(W32, Cell(x0, y0, z0))
    ensures result == Names(QuadsW(W32, Cell(x0, y0, z0), bias))
  {
    result := [];
    var x, y, z, p := x0, y0, z0, bias;
    ghost var all, done := QuadsW(W32, Cell(x, y, z), bias), [];
    NothingDone(all);
    while true
      invariant CellFits(W32, Cell(x, y, z))
      invariant result == Names(done) && all == done + QuadsW(W32, Cell(x, y, z), p)
      decreases Size(Cell(x, y, z))
    {
      ghost var c := Cell(x, y, z);
      var i1, i2, i3;
      i1, x := LowBits32(x);
      i2, y := LowBits32(y);
      i3, z := LowBits32(z);
      var s := Print(i1 - 2) + "_" + Print(i2 - 2) + "_" + Print(i3 - 2) + "_" + Print(p);
      result := result + [s];
      assert s == Name(LevelOf(c, p));
      assert Cell(x, y, z) == ShiftCellW(W32, c);
      Turn(W32, done, c, p);
      done := done + [LevelOf(c, p)];
      p := p + 2;
      if x == 0 && y == 0 && z == 0 {
        break;
      }
    }
  }

  /** The Java loop: the additions themselves wrap in 64 bits. */
  method DecomposeJava(v: Vec, bias: int) returns (result: seq<string>)
    ensures result == Names(QuadsW(W64, CellOf64(v, bias), bias))
  {
    var power := Pow2(-bias);
    result := Loop64(Scale64(v.x, power), Scale64(v.y, power), Scale64(v.z, power), bias);
  }

  method Loop64(x0: int, y0: int, z0: int, bias: int) returns (result: seq<string>)
    requires CellFits(W64, Cell(x0, y0, z0))
    ensures result == Names(QuadsW(W64, Cell(x0, y0, z0), bias))
  {
    result := [];
    var x, y, z, p := x0, y0, z0, bias;
    ghost var all, done := QuadsW(W64, Cell(x, y, z), bias), [];
    NothingDone(all);
    while true
      invariant CellFits(W64, Cell(x, y, z))
      invariant result == Names(done) && all == done + QuadsW(W64, Cell(x, y, z), p)
      decreases Size(Cell(x, y, z))
    {
      ghost var c := Cell(x, y, z);
      var i1, i2, i3;
      i1, x := LowBits64(x);
      i2, y := LowBits64(y);
      i3, z := LowBits64(z);
      var s := Print(i1 - 2) + "_" + Print(i2 - 2) + "_" + Print(i3 - 2) + "_" + Print(p);
      result := result + [s];
      assert s == Name(LevelOf(c, p)) && Cell(x, y, z) == ShiftCellW(W64, c);
      Turn(W64, done, c, p);
      done := done + [LevelOf(c, p)];
      p := p + 2;
      if x == 0 && y == 0 && z == 0 {
        break;
      }
    }
  }

  // --- back to points ---

  /** A corner; a coordinate that is not a number is `None`. */
  datatype Corner = Corner(x: Option<real>, y: Option<real>, z: Option<real>) | BadName

  /** `(i + 2) & 0xFFFFFFFC` is zero: not a number counts as zero. */
  predicate TwoBits(i: Option<int>) { i.Some? ==> 0 <= Wrap(W32, i.value + 2) < 4 }

  /** `i` units of 2^e. */
  function Units(i: int, e: int): real { i as real * Pow2(e) }

  function Scaled(i: Option<int>, e: Option<int>): Option<real> {
    if i.Some? && e.Some? then Some(Units(i.value, e.value)) else None
  }

  function CornerOf(i0: Option<int>, i1: Option<int>, i2: Option<int>, e: Option<int>): Corner {
    if !TwoBits(i0) || !TwoBits(i1) || !TwoBits(i2) then BadName
    else Corner(Scaled(i0, e), Scaled(i1, e), Scaled(i2, e))
  }

  function MinCorner(str: string): Corner {
    var parts := Split(str, '_');
    if |parts| != 4 then BadName
    else CornerOf(ParseInt(parts[0]), ParseInt(parts[1]), ParseInt(parts[2]), ParseInt(parts[3]))
  }

  /** Every printed level is accepted, and gives its digits times its power. */
  lemma MinCornerOfLevel(q: Quad)
    requires IsLevel(q)
    ensures MinCorner(Name(q)) ==
            Corner(Some(Units(q.i, q.p)), Some(Units(q.j, q.p)), Some(Units(q.k, q.p)))
  {
    NameIsJoined(q);
    ParsePrint(q.i);
    ParsePrint(q.j);
    ParsePrint(q.k);
    ParsePrint(q.p);
    CornerOfLevel(q.i, q.j, q.k, q.p);
    assert MinCorner(Name(q)) == CornerOf(Some(q.i), Some(q.j), Some(q.k), Some(q.p));
  }

  lemma CornerOfLevel(i: int, j: int, k: int, e: int)
    requires -2 <= i <= 1 && -2 <= j <= 1 && -2 <= k <= 1
    ensures CornerOf(Some(i), Some(j), Some(k), Some(e)) ==
            Corner(Some(Units(i, e)), Some(Units(j, e)), Some(Units(k, e)))
  {
  }

  /** A part that is a digit but for a multiple of 2^32, or no number at all. */
  predicate IsDigitPart(part: string) {
    ParseInt(part).Some? ==> (ParseInt(part).value + 2) % 0x1_0000_0000 < 4
  }

  lemma DigitParts(part: string)
    ensures TwoBits(ParseInt(part)) <==> IsDigitPart(part)
  {
    hide ParseInt;
  }

  /**
   Every string is joined from its parts, see `JoinSplit`. It is accepted exactly when they are four and
   the first three are digits in that sense; the exponent may be anything.
   */
  lemma AcceptedNames(parts: seq<string>)
    requires parts != [] && forall n :: 0 <= n < |parts| ==> Free(parts[n], '_')
    ensures MinCorner(Join(parts, ['_'])) != BadName <==>
            |parts| == 4 && IsDigitPart(parts[0]) && IsDigitPart(parts[1]) && IsDigitPart(parts[2])
  {
    hide Split, Join, ParseInt, Free, IsDigitPart, TwoBits;
    SplitJoin(parts, '_');
    if |parts| == 4 {
      DigitParts(parts[0]);
      DigitParts(parts[1]);
      DigitParts(parts[2]);
    }
  }

  /** What is accepted is multiplied out in full. */
  lemma AcceptedCorner(i: string, j: string, k: string, e: string)
    requires Free(i, '_') && Free(j, '_') && Free(k, '_') && Free(e, '_')
    requires ParseInt(i).Some? && ParseInt(j).Some? && ParseInt(k).Some? && ParseInt(e).Some?
    requires IsDigitPart(i) && IsDigitPart(j) && IsDigitPart(k)
    ensures var corner, power := MinCorner(Join([i, j, k, e], ['_'])), Pow2(ParseInt(e).value);
            && corner.Corner? && corner.x.Some? && corner.y.Some? && corner.z.Some?
            && corner.x.value == ParseInt(i).value as real * power
            && corner.y.value == ParseInt(j).value as real * power
            && corner.z.value == ParseInt(k).value as real * power
  {
    hide Split, Join, ParseInt, Free, TwoBits, IsDigitPart;
    SplitJoin([i, j, k, e], '_');
    DigitParts(i);
    DigitParts(j);
    DigitParts(k);
  }

  /** A coordinate is no number exactly when its part or the exponent is none. */
  lemma AcceptedNoNumber(i: string, j: string, k: string, e: string)
    requires Free(i, '_') && Free(j, '_') && Free(k, '_') && Free(e, '_')
    requires MinCorner(Join([i, j, k, e], ['_'])) != BadName
    ensures var corner := MinCorner(Join([i, j, k, e], ['_']));
            && (corner.x == None <==> ParseInt(i) == None || ParseInt(e) == None)
            && (corner.y == None <==> ParseInt(j) == None || ParseInt(e) == None)
            && (corner.z == None <==> ParseInt(k) == None || ParseInt(e) == None)
  {
    hide Split, Join, ParseInt, Free, TwoBits;
    SplitJoin([i, j, k, e], '_');
  }

  /** So a digit of 2^32 is accepted, although digits are said to be from -2 to 1. */
  lemma LargeDigitIsAccepted()
    ensures var name := Join([Print(0x1_0000_0000), Print(0), Print(0), Print(0)], ['_']);
            MinCorner(name) == Corner(Some(4294967296.0), Some(0.0), Some(0.0))
  {
    hide Split, Join, ParseInt, Print;
    ParsePrint(0x1_0000_0000);
    ParsePrint(0);
    SplitJoin([Print(0x1_0000_0000), Print(0), Print(0), Print(0)], '_');
  }

  function AddReal(a: Option<real>, b: Option<real>): Option<real> {
    if a.Some? && b.Some? then Some(a.value + b.value) else None
  }

  function AddCorner(a: Corner, b: Corner): Corner {
    if a.BadName? || b.BadName? then BadName else Corner(AddReal(a.x, b.x), AddReal(a.y, b.y), AddReal(a.z, b.z))
  }

  const ORIGIN := Corner(Some(0.0), Some(0.0), Some(0.0))

  function Corners(names: seq<string>): (corners: seq<Corner>)
    ensures |corners| == |names|
  {
    seq(|names|, n requires 0 <= n < |names| => MinCorner(names[n]))
  }

  /** The sum of the corners; one bad name throws. */
  function SumOf(corners: seq<Corner>): Corner {
    if corners == [] then ORIGIN else AddCorner(SumOf(corners[..|corners| - 1]), corners[|corners| - 1])
  }

  method Reconstitute(quadspaces: seq<string>) returns (sum: Corner)
    ensures sum == SumOf(Corners(quadspaces))
  {
    sum := ORIGIN;
    ghost var corners := Corners(quadspaces);
    for i := 0 to |quadspaces|
      invariant sum == SumOf(corners[..i])
    {
      assert corners[..i + 1][..i] == corners[..i];
      sum := AddCorner(sum, MinCorner(quadspaces[i]));
    }
    assert corners[..|quadspaces|] == corners;
  }

  function Point(c: Cell, p: int): Corner {
    Corner(Some(Units(c.x, p)), Some(Units(c.y, p)), Some(Units(c.z, p)))
  }

  lemma AddIsAssociative(a: Corner, b: Corner, c: Corner)
    ensures AddCorner(AddCorner(a, b), c) == AddCorner(a, AddCorner(b, c))
    ensures AddCorner(ORIGIN, a) == AddCorner(a, ORIGIN)
  {
  }

  lemma {:induction false} SumFront(corners: seq<Corner>)
    requires corners != []
    ensures SumOf(corners) == AddCorner(corners[0], SumOf(corners[1..]))
    decreases |corners|
  {
    var last := corners[|corners| - 1];
    var front := corners[..|corners| - 1];
    if front == [] {
      assert corners[1..] == [];
      AddIsAssociative(last, ORIGIN, ORIGIN);
    } else {
      SumFront(front);
      assert front[1..] == corners[1..][..|corners[1..]| - 1];
      AddIsAssociative(corners[0], SumOf(front[1..]), last);
    }
  }

  /** The corner of one level. */
  function LevelCorner(q: Quad): Corner { Point(Cell(q.i, q.j, q.k), q.p) }

  lemma LevelPlusRest(q: Quad, v: Cell, p: int)
    requires q.p == p
    ensures AddCorner(Point(Cell(q.i, q.j, q.k), p), Point(v, p + 2))
            == Point(Cell(q.i + 4 * v.x, q.j + 4 * v.y, q.k + 4 * v.z), p)
  {
    Pow2Next(p);
    Pow2Next(p + 1);
    Scale4(q.i, v.x, p);
    Scale4(q.j, v.y, p);
    Scale4(q.k, v.z, p);
    var a, b := Point(Cell(q.i, q.j, q.k), p), Point(v, p + 2);
    var c := Point(Cell(q.i + 4 * v.x, q.j + 4 * v.y, q.k + 4 * v.z), p);
    assert a.x.value + b.x.value == c.x.value;
    assert a.y.value + b.y.value == c.y.value;
    assert a.z.value + b.z.value == c.z.value;
  }

  lemma {:induction false} SumOfLevels(qs: seq<Quad>, p: int, corners: seq<Corner>)
    requires AreLevels(qs, p)
    requires |corners| == |qs| && forall n :: 0 <= n < |qs| ==> corners[n] == LevelCorner(qs[n])
    ensures SumOf(corners) == Point(Value(qs), p)
    decreases |qs|
  {
    if qs != [] {
      var rest := qs[1..];
      forall n | 0 <= n < |rest|
        ensures IsLevel(rest[n]) && rest[n].p == p + 2 + 2 * n
      {
        assert rest[n] == qs[n + 1];
      }
      SumOfLevels(rest, p + 2, corners[1..]);
      SumFront(corners);
      LevelPlusRest(qs[0], Value(rest), p);
    }
  }

  lemma CornersOfLevels(qs: seq<Quad>, p: int)
    requires AreLevels(qs, p)
    ensures SumOf(Corners(Names(qs))) == Point(Value(qs), p)
  {
    var corners := Corners(Names(qs));
    forall n | 0 <= n < |qs|
      ensures corners[n] == LevelCorner(qs[n])
    {
      assert corners[n] == MinCorner(Name(qs[n]));
      MinCornerOfLevel(qs[n]);
    }
    SumOfLevels(qs, p, corners);
  }

  lemma Scale4(d: int, v: int, p: int)
    requires Pow2(p + 2) == 4.0 * Pow2(p)
    ensures Units(d, p) + Units(v, p + 2) == Units(d + 4 * v, p)
  {
    assert (d + 4 * v) as real == d as real + 4.0 * v as real;
  }

  /**
   Decompose and reconstitute: the corners of the levels add up to the cell times 2^bias,
   exactly when every coordinate is in range.
   */
  lemma RoundTrip(w: Width, c: Cell, bias: int)
    requires CellFits(w, c)
    ensures SumOf(Corners(Names(QuadsW(w, c, bias)))) == Point(c, bias) <==> CellInRange(w, c)
  {
    QuadsWAreLevels(w, c, bias);
    CornersOfLevels(QuadsW(w, c, bias), bias);
    ValueOfQuadsW(w, c, bias);
    var d := Value(QuadsW(w, c, bias));
    SameScaled(c.x, d.x, bias);
    SameScaled(c.y, d.y, bias);
    SameScaled(c.z, d.z, bias);
  }

  // --- the round trip of a point ---

  /** `a` is `x` with less than one unit of 2^e cut off, toward zero. */
  predicate CutTo(x: real, a: real, e: int) {
    if x >= 0.0 then 0.0 <= a <= x < a + Pow2(e) else a - Pow2(e) < x <= a <= 0.0
  }

  function Product(x: real, w: real): real { x * w }

  lemma ProductOrder(a: real, b: real, w: real)
    requires w > 0.0
    ensures a <= b <==> Product(a, w) <= Product(b, w)
  {
  }

  lemma ProductFacts(n: int, w: real)
    ensures Product(0.0, w) == 0.0
    ensures Product((n + 1) as real, w) == Product(n as real, w) + w
    ensures Product((n - 1) as real, w) == Product(n as real, w) - w
  {
  }

  lemma ScaledBack(x: real, e: int)
    ensures Product(Product(x, Pow2(-e)), Pow2(e)) == x
  {
    Pow2Inverse(e);
    assert x * Pow2(-e) * Pow2(e) == x * (Pow2(e) * Pow2(-e));
  }

  lemma TruncBounds(y: real)
    ensures y >= 0.0 ==> 0 <= Trunc(y) && Trunc(y) as real <= y < (Trunc(y) + 1) as real
    ensures y <= 0.0 ==> Trunc(y) <= 0 && (Trunc(y) - 1) as real < y <= Trunc(y) as real
  {
  }

  /** Truncated and scaled back, a coordinate has lost less than one unit. */
  lemma AxisCut(x: real, e: int)
    ensures CutTo(x, Units(TruncScale(x, Pow2(-e)), e), e)
  {
    hide Product, Trunc, Pow2;
    var y, w := Product(x, Pow2(-e)), Pow2(e);
    var n := Trunc(y);
    assert TruncScale(x, Pow2(-e)) == n && Units(n, e) == Product(n as real, w) by { ProductMeans(x, n, e); }
    ScaledBack(x, e);
    TruncBounds(y);
    ProductFacts(n, w);
    ProductFacts(n, Pow2(-e));
    ProductOrder(0.0, x, Pow2(-e));
    ProductOrder(x, 0.0, Pow2(-e));
    ProductOrder(0.0, n as real, w);
    ProductOrder(n as real, 0.0, w);
    ProductOrder(n as real, y, w);
    ProductOrder(y, n as real, w);
    ProductOrder((n + 1) as real, y, w);
    ProductOrder(y, (n - 1) as real, w);
  }

  lemma ProductMeans(x: real, n: int, e: int)
    ensures TruncScale(x, Pow2(-e)) == Trunc(Product(x, Pow2(-e))) && Units(n, e) == Product(n as real, Pow2(e))
  {
  }

  /** And nothing, if it was a multiple of the unit. */
  lemma AxisExact(n: int, e: int)
    ensures TruncScale(Units(n, e), Pow2(-e)) == n
  {
    Pow2Inverse(e);
    assert n as real * Pow2(e) * Pow2(-e) == n as real * (Pow2(e) * Pow2(-e));
  }

  /** The names of a point, in JavaScript or in Java. */
  function NamesOf(w: Width, v: Vec, bias: int): seq<string> {
    Names(QuadsW(w, if w.W32? then CellOf(v, bias) else CellOf64(v, bias), bias))
  }

  /**
   Decompose a point and reconstitute it: where the scaled point is in range, each coordinate
   comes back with less than one unit of 2^bias cut off, toward zero.
   */
  lemma PointComesBack(w: Width, v: Vec, bias: int)
    requires CellInRange(w, TrueCell(v, bias))
    ensures var sum := SumOf(Corners(NamesOf(w, v, bias)));
            && sum.Corner? && sum.x.Some? && sum.y.Some? && sum.z.Some?
            && CutTo(v.x, sum.x.value, bias) && CutTo(v.y, sum.y.value, bias) && CutTo(v.z, sum.z.value, bias)
  {
    hide TruncScale, CutTo, Pow2, QuadsW, SumOf, Corners, Names;
    var c := TrueCell(v, bias);
    assert (if w.W32? then CellOf(v, bias) else CellOf64(v, bias)) == c;
    RoundTrip(w, c, bias);
    AxisCut(v.x, bias);
    AxisCut(v.y, bias);
    AxisCut(v.z, bias);
  }

  /** A point of multiples of the unit in range comes back as it is, and no other multiple does. */
  lemma CornerComesBack(w: Width, c: Cell, bias: int)
    requires CellFits(w, c)
    ensures var v := Vec(Units(c.x, bias), Units(c.y, bias), Units(c.z, bias));
            SumOf(Corners(NamesOf(w, v, bias))) == Corner(Some(v.x), Some(v.y), Some(v.z)) <==> CellInRange(w, c)
  {
    hide TruncScale, Pow2, QuadsW, SumOf, Corners, Names, Units;
    AxisExact(c.x, bias);
    AxisExact(c.y, bias);
    AxisExact(c.z, bias);
    RoundTrip(w, c, bias);
  }

  lemma SameScaled(a: int, b: int, p: int)
    ensures Units(a, p) == Units(b, p) <==> a == b
  {
    if a != b {
      assert (a as real - b as real) * Pow2(p) != 0.0;
    }
  }

  lemma {:induction false} QuadsWAreLevels(w: Width, c: Cell, p: int)
    requires CellFits(w, c)
    ensures AreLevels(QuadsW(w, c, p), p)
    decreases Size(c)
  {
    var next := ShiftCellW(w, c);
    assert IsLevel(LevelOf(c, p));
    if next != ZERO_CELL {
      ShiftCellWShrinks(w, c);
      QuadsWAreLevels(w, next, p + 2);
      var rest := QuadsW(w, next, p + 2);
      assert QuadsW(w, c, p) == [LevelOf(c, p)] + rest;
      LevelsAfter(LevelOf(c, p), rest);
    } else {
      assert QuadsW(w, c, p) == [LevelOf(c, p)];
    }
  }

  ghost predicate AreLevels(qs: seq<Quad>, p: int) {
    forall n :: 0 <= n < |qs| ==> IsLevel(qs[n]) && qs[n].p == p + 2 * n
  }

  lemma LevelsAfter(q: Quad, rest: seq<Quad>)
    requires IsLevel(q) && AreLevels(rest, q.p + 2)
    ensures AreLevels([q] + rest, q.p)
  {
    var qs := [q] + rest;
    forall n | 0 <= n < |qs|
      ensures IsLevel(qs[n]) && qs[n].p == q.p + 2 * n
    {
      assert n > 0 ==> qs[n] == rest[n - 1];
    }
  }
}
