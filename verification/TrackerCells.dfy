/**
 The cells of a position at the six levels of the tracker, and the publish channels made from
 them: what equal channels tell, for every position, also where the 32-bit reduction wraps.
 */
module TrackerCells {
  import opened Text
  import opened QuadSpaces

  const LEVELS := 6
  const MIN_LEVEL := 2

  /** The power of two of the cells of a level. */
  function Bias(level: nat): int { MIN_LEVEL + 2 * level }

  /** The smallest cell of a position, as the program reduces it to 32 bits. */
  function SmallCell(p: Vec): (c: Cell)
    ensures CellFits(W32, c)
  {
    CellOf(p, MIN_LEVEL)
  }

  function ListLength(p: Vec): nat { |QuadsW(W32, SmallCell(p), MIN_LEVEL)| }

  /** The publish channel of a level: the whole list for the levels the list has. */
  function Channel(p: Vec, level: nat): string {
    if level < ListLength(p) then CellName(p, MIN_LEVEL)
    else "[0_0_0_" + Print(Bias(level)) + "]"
  }

  // --- division by four toward zero ---

  function Quarter(n: int): int { if n >= 0 then n / 4 else -((-n) / 4) }

  function QuarterCell(c: Cell): Cell { Cell(Quarter(c.x), Quarter(c.y), Quarter(c.z)) }

  function Quartered(c: Cell, n: nat): Cell { if n == 0 then c else QuarterCell(Quartered(c, n - 1)) }

  lemma {:induction false} QuarterFirst(c: Cell, n: nat)
    ensures Quartered(QuarterCell(c), n) == Quartered(c, n + 1)
  {
    if n > 0 {
      QuarterFirst(c, n - 1);
    }
  }

  function WrapCell(c: Cell): (r: Cell)
    ensures CellFits(W32, r)
  {
    Cell(Wrap(W32, c.x), Wrap(W32, c.y), Wrap(W32, c.z))
  }

  lemma CellIsWrapped(p: Vec, bias: int)
    ensures CellOf(p, bias) == WrapCell(TrueCell(p, bias))
  {
  }

  lemma TruncQuarter(r: real)
    ensures Trunc(r / 4.0) == Quarter(Trunc(r))
  {
  }

  lemma ScaleQuarter(x: real, w: real, v: real)
    requires v == w / 4.0
    ensures TruncScale(x, v) == Quarter(TruncScale(x, w))
  {
    assert x * v == x * w / 4.0;
    TruncQuarter(x * w);
  }

  lemma QuarterPower(bias: int)
    ensures Pow2(-(bias + 2)) == Pow2(-bias) / 4.0
  {
    Pow2Next(-(bias + 2));
    Pow2Next(-(bias + 2) + 1);
  }

  lemma CellQuarter(p: Vec, w: real, v: real)
    requires v == w / 4.0
    ensures Cell(TruncScale(p.x, v), TruncScale(p.y, v), TruncScale(p.z, v))
            == QuarterCell(Cell(TruncScale(p.x, w), TruncScale(p.y, w), TruncScale(p.z, w)))
  {
    ScaleQuarter(p.x, w, v);
    ScaleQuarter(p.y, w, v);
    ScaleQuarter(p.z, w, v);
  }

  /** Truncations compose: the next level's cell is the cell divided by four. */
  lemma NextLevelCell(p: Vec, bias: int)
    ensures TrueCell(p, bias + 2) == QuarterCell(TrueCell(p, bias))
  {
    QuarterPower(bias);
    CellQuarter(p, Pow2(-bias), Pow2(-(bias + 2)));
  }

  /** Unreduced, the cell of a level is the smallest cell divided by four as often. */
  lemma {:induction false} LevelCell(p: Vec, level: nat)
    ensures TrueCell(p, Bias(level)) == Quartered(TrueCell(p, MIN_LEVEL), level)
  {
    hide TrueCell, QuarterCell;
    if level > 0 {
      LevelCell(p, level - 1);
      NextLevelCell(p, Bias(level - 1));
    }
  }

  // --- positions for which reducing and dividing may be exchanged ---

  /** At every level the reduced cell is the reduced smallest cell divided by four as often. */
  predicate Steady(p: Vec) {
    forall level :: 0 <= level < LEVELS ==> CellOf(p, Bias(level)) == Quartered(SmallCell(p), level)
  }

  /** The smallest cells fit into 32 bits. */
  predicate Inside(p: Vec) { CellFits(W32, TrueCell(p, MIN_LEVEL)) }

  lemma QuarterFits(c: Cell)
    requires CellFits(W32, c)
    ensures CellFits(W32, QuarterCell(c))
  {
  }

  lemma {:induction false} QuarteredFits(c: Cell, n: nat)
    requires CellFits(W32, c)
    ensures CellFits(W32, Quartered(c, n))
  {
    hide QuarterCell;
    if n > 0 {
      QuarteredFits(c, n - 1);
      QuarterFits(Quartered(c, n - 1));
    }
  }

  /** Inside the range nothing is reduced. */
  lemma InsideIsSteady(p: Vec)
    requires Inside(p)
    ensures Steady(p) && SmallCell(p) == TrueCell(p, MIN_LEVEL)
  {
    hide TrueCell, CellOf, QuarterCell;
    CellIsWrapped(p, MIN_LEVEL);
    forall level | 0 <= level < LEVELS
      ensures CellOf(p, Bias(level)) == Quartered(SmallCell(p), level)
    {
      LevelCell(p, level);
      QuarteredFits(TrueCell(p, MIN_LEVEL), level);
      CellIsWrapped(p, Bias(level));
    }
  }

  // --- short lists ---

  predicate Small(x: int, n: nat) { -2 * Ones(n) <= x <= 2 * Ones(n) }

  predicate IsSmall(c: Cell, n: nat) { Small(c.x, n) && Small(c.y, n) && Small(c.z, n) }

  lemma QuarterSmall(c: Cell, n: nat)
    requires n > 0 && IsSmall(c, n)
    ensures IsSmall(QuarterCell(c), n - 1)
  {
  }

  lemma {:induction false} SmallVanishes(c: Cell, n: nat)
    requires IsSmall(c, n)
    ensures Quartered(c, n) == ZERO_CELL
    decreases n
  {
    if n > 0 {
      QuarterSmall(c, n);
      SmallVanishes(QuarterCell(c), n - 1);
      QuarterFirst(c, n - 1);
    }
  }

  lemma OnesOfFew()
    ensures Ones(1) == 1 && Ones(2) == 5 && Ones(3) == 21 && Ones(4) == 85 && Ones(5) == 341
  {
    assert Ones(0) == 0;
    assert Ones(1) == 4 * Ones(0) + 1;
    assert Ones(2) == 4 * Ones(1) + 1;
    assert Ones(3) == 4 * Ones(2) + 1;
    assert Ones(4) == 4 * Ones(3) + 1;
    assert Ones(5) == 4 * Ones(4) + 1;
  }

  /** A coordinate whose next turn is small is small; the turns that wrap give no small number. */
  lemma SmallBefore(x: int, n: nat)
    requires Fits(W32, x) && n < LEVELS && Small(ShiftW(W32, x), n)
    ensures Small(x, n + 1)
  {
    OnesOfFew();
    assert Ones(n + 1) == 4 * Ones(n) + 1;
    assert n == 0 || n == 1 || n == 2 || n == 3 || n == 4 || n == 5;
  }

  lemma {:induction false} ShortListIsSmall(c: Cell, p: int, n: nat)
    requires CellFits(W32, c) && |QuadsW(W32, c, p)| <= n <= LEVELS
    ensures IsSmall(c, n)
    decreases n
  {
    hide ShiftW, Small;
    var next := ShiftCellW(W32, c);
    if next != ZERO_CELL {
      ShortListIsSmall(next, p + 2, n - 1);
    } else {
      ZeroIsSmall(n - 1);
    }
    SmallBefore(c.x, n - 1);
    SmallBefore(c.y, n - 1);
    SmallBefore(c.z, n - 1);
  }

  lemma ZeroIsSmall(n: nat)
    ensures Small(0, n)
  {
  }

  /** A list no longer than the level number means the zero cell at that level. */
  lemma ShortListMeansZero(p: Vec, level: nat)
    requires ListLength(p) <= level <= LEVELS
    ensures Quartered(SmallCell(p), level) == ZERO_CELL
  {
    ShortListIsSmall(SmallCell(p), MIN_LEVEL, level);
    SmallVanishes(SmallCell(p), level);
  }

  // --- what equal channels tell ---

  /** The same smallest cell, or both lists too short for the level. */
  predicate Alike(a: Vec, b: Vec, level: nat) {
    SmallCell(a) == SmallCell(b) || (ListLength(a) <= level && ListLength(b) <= level)
  }

  lemma ZeroChannel(bias: int)
    ensures "[0_0_0_" + Print(bias) + "]" == Listed(Names([Quad(0, 0, 0, bias)]))
  {
    var q := Quad(0, 0, 0, bias);
    assert Print(0) == "0";
    assert Name(q) == "0_0_0_" + Print(bias);
    assert Names([q]) == [Name(q)];
    assert "[" + Name(q) + "]" == "[0_0_0_" + Print(bias) + "]";
  }

  /** The full list of a level that has one is never the stand-in of a level that has none. */
  lemma ListIsNotZeroChannel(a: Vec, level: nat)
    requires level > 0
    ensures CellName(a, MIN_LEVEL) != "[0_0_0_" + Print(Bias(level)) + "]"
  {
    var qs := QuadsW(W32, CellOf(a, MIN_LEVEL), MIN_LEVEL);
    var zero := [Quad(0, 0, 0, Bias(level))];
    ZeroChannel(Bias(level));
    if Listed(Names(qs)) == Listed(Names(zero)) {
      ListedIsInjective(qs, zero);
      assert false;
    }
  }

  lemma NamesTell(a: Vec, b: Vec, bias: int)
    ensures CellName(a, bias) == CellName(b, bias) <==> CellOf(a, bias) == CellOf(b, bias)
  {
    hide CellOf, QuadsW, Listed;
    CellNamesAreUnique(W32, CellOf(a, bias), bias, CellOf(b, bias), bias);
  }

  /** Channels at a level are equal exactly for positions that are alike at the level. */
  lemma ChannelsTell(a: Vec, b: Vec, level: nat)
    ensures Channel(a, level) == Channel(b, level) <==> Alike(a, b, level)
  {
    hide CellName, CellOf, QuadsW;
    NamesTell(a, b, MIN_LEVEL);
    ListIsNotEmpty(a);
    ListIsNotEmpty(b);
    if level > 0 {
      ListIsNotZeroChannel(a, level);
      ListIsNotZeroChannel(b, level);
    }
  }

  lemma ListIsNotEmpty(p: Vec)
    ensures ListLength(p) > 0
  {
  }

  /** Positions alike at a level have the same smallest cell there once it is divided. */
  lemma AlikeQuartered(a: Vec, b: Vec, level: nat)
    requires Alike(a, b, level) && level <= LEVELS
    ensures Quartered(SmallCell(a), level) == Quartered(SmallCell(b), level)
  {
    hide SmallCell, ListLength;
    if SmallCell(a) != SmallCell(b) {
      ShortListMeansZero(a, level);
      ShortListMeansZero(b, level);
    }
  }
}
