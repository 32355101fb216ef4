/**
 How far the early stop can be trusted.  A jump to any position, from any path of positions
 whose cells fit into 32 bits, leaves a level subscribed to the player's own cell if and only
 if a condition holds that can be evaluated before the update: the reduced cell of the level is
 the reduced smallest cell divided by four, or, at a level the list has, it is the next one and
 within three quarters of a cell edge.
 */
module TrackerJumps {
  import opened QuadSpaces
  import opened QuadNeighbours
  import opened TrackerCells
  import opened TrackerLevels

  // --- the condition ---

  function Quarters(n: int, k: nat): int { if k == 0 then n else Quarter(Quarters(n, k - 1)) }

  /** A coordinate of a smallest cell, in cells of the level. */
  function InCells(w: int, level: nat): real { Mul(w as real, Pow2(-2 * level)) }

  /** On one axis: the divided coordinate, or a cell no further than three quarters of an edge. */
  predicate AxisKept(w: int, c: int, level: nat) {
    c == Quarters(w, level) || -0.75 <= c as real - InCells(w, level) <= 0.75
  }

  /** What can be said of a position before the update: its reduced cells, and the length of its list. */
  predicate SafeJump(q: Vec, level: nat) {
    var w, c := SmallCell(q), CellOf(q, Bias(level));
    || c == Quartered(w, level)
    || (level < ListLength(q) && AxisKept(w.x, c.x, level) && AxisKept(w.y, c.y, level) && AxisKept(w.z, c.z, level))
  }

  predicate AllInside(path: seq<Vec>) { forall n :: 0 <= n < |path| ==> Inside(path[n]) }

  /** Whatever path inside the range came before, the level is subscribed to the own cell at `q`. */
  ghost predicate AlwaysSubscribed(q: Vec, level: nat) {
    forall path: seq<Vec> :: AllInside(path) ==> Subscribed(path + [q], level)
  }

  // --- one axis: what reducing first does to a division ---

  lemma {:induction false} QuarteredAxes(c: Cell, k: nat)
    ensures Quartered(c, k) == Cell(Quarters(c.x, k), Quarters(c.y, k), Quarters(c.z, k))
  {
    hide Quarter;
    if k > 0 {
      QuarteredAxes(c, k - 1);
    }
  }

  /** Division by four as often, rounding down. */
  function Floors(n: int, k: nat): int { if k == 0 then n else Floors(n, k - 1) / 4 }

  lemma {:induction false} FloorsOfZero(k: nat)
    ensures Floors(0, k) == 0
  {
    if k > 0 {
      FloorsOfZero(k - 1);
    }
  }

  lemma {:induction false} FloorsOfPositive(n: int, k: nat)
    requires n >= 0
    ensures Floors(n, k) >= 0
  {
    if k > 0 {
      FloorsOfPositive(n, k - 1);
    }
  }

  lemma {:induction false} QuartersAreFloors(n: int, k: nat)
    ensures Quarters(n, k) == if n >= 0 then Floors(n, k) else -Floors(-n, k)
  {
    if k > 0 {
      QuartersAreFloors(n, k - 1);
      FloorsOfPositive(if n >= 0 then n else -n, k - 1);
    }
  }

  lemma {:induction false} FloorsOfBoth(n: int, k: nat)
    ensures -1 <= Floors(n, k) + Floors(-n, k) <= 0
  {
    if k > 0 {
      FloorsOfBoth(n, k - 1);
    }
  }

  /** One turn of 32 bits, in cells of a level. */
  function Turn32(k: nat): nat { if k == 0 then 0x1_0000_0000 else Turn32(k - 1) / 4 }

  lemma Turn32OfFew()
    ensures Turn32(0) == 0x1_0000_0000 && Turn32(1) == 0x4000_0000 && Turn32(2) == 0x1000_0000
    ensures Turn32(3) == 0x400_0000 && Turn32(4) == 0x100_0000 && Turn32(5) == 0x40_0000
  {
    assert Turn32(1) == Turn32(0) / 4;
    assert Turn32(2) == Turn32(1) / 4;
    assert Turn32(3) == Turn32(2) / 4;
    assert Turn32(4) == Turn32(3) / 4;
    assert Turn32(5) == Turn32(4) / 4;
  }

  lemma FourTurns(k: nat)
    requires 1 <= k < LEVELS
    ensures Turn32(k - 1) == 4 * Turn32(k) && Turn32(k) >= 4
    ensures exists f :: 0x1_0000_0000 == Turn32(k) * f
  {
    Turn32OfFew();
    var f := if k == 1 then 4 else if k == 2 then 16 else if k == 3 then 64 else if k == 4 then 256 else 1024;
    assert 0x1_0000_0000 == Turn32(k) * f;
  }

  lemma FloorOfTurns(f: int, p: int, m: int)
    ensures (f + 4 * p * m) / 4 == f / 4 + p * m
  {
    assert 4 * p * m == 4 * (p * m);
  }

  /** Whole turns come out of the division whole. */
  lemma {:induction false} TurnsDivide(t: int, k: nat, m: int)
    requires k < LEVELS
    ensures Floors(t + 0x1_0000_0000 * m, k) == Floors(t, k) + Turn32(k) * m
  {
    if k > 0 {
      TurnsDivide(t, k - 1, m);
      FourTurns(k);
      FloorOfTurns(Floors(t, k - 1), Turn32(k), m);
    }
  }

  lemma WrapTurns(t: int) returns (m: int)
    ensures Wrap(W32, t) == t + 0x1_0000_0000 * m
  {
    var u := t + 0x8000_0000;
    m := -(u / 0x1_0000_0000);
    assert u % 0x1_0000_0000 == u - 0x1_0000_0000 * (u / 0x1_0000_0000);
  }

  lemma NotOneOff(p: int, f: int, n: int, m: int)
    requires p >= 4
    ensures p * f * n - p * m <= -4 || p * f * n - p * m == 0 || p * f * n - p * m >= 4
  {
    var j := f * n - m;
    assert p * f * n - p * m == p * j;
    if j > 0 {
      assert p * j >= p;
    } else if j < 0 {
      assert p * j <= -p;
    }
  }

  /** Reducing before a division by four, sixteen, ... errs by whole turns, or by one. */
  lemma JumpBy(t: int, w: int, c: int, m: int, n: int, k: nat)
    requires 1 <= k < LEVELS
    requires w == t + 0x1_0000_0000 * m && c == Quarters(t, k) + 0x1_0000_0000 * n
    ensures (c == Quarters(w, k) + 1 ==> w > 0) && (c == Quarters(w, k) - 1 ==> w < 0)
  {
    hide Quarters, Floors, Turn32;
    QuartersAreFloors(t, k);
    QuartersAreFloors(w, k);
    TurnsDivide(t, k, m);
    TurnsDivide(-t, k, -m);
    FloorsOfBoth(t, k);
    FloorsOfZero(k);
    FourTurns(k);
    var p := Turn32(k);
    var f :| 0x1_0000_0000 == p * f;
    NotOneOff(p, f, n, m);
    assert 0x1_0000_0000 * n == p * f * n;
    assert p * -m == -(p * m);
    OneOff(t, w, c, Quarters(t, k), Quarters(w, k), Floors(t, k), Floors(-t, k), p * m, p * f * n);
    if w == 0 {
      TurnsDivide(0, k, m);
      TurnsDivide(0, k, -m);
      assert -t == 0x1_0000_0000 * m && t == 0x1_0000_0000 * -m;
    }
  }

  lemma OneOff(t: int, w: int, c: int, qt: int, qw: int, up: int, down: int, a: int, b: int)
    requires qt == (if t >= 0 then up else -down) && qw == (if w >= 0 then up + a else -(down - a))
    requires c == qt + b && -1 <= up + down <= 0 && (b - a <= -4 || b - a == 0 || b - a >= 4)
    ensures (c == qw + 1 ==> w >= 0) && (c == qw - 1 ==> w < 0)
  {
  }

  /** A reduced coordinate that is one off its divided one is one further from zero. */
  lemma JumpAxis(t: int, level: nat)
    requires 1 <= level < LEVELS
    ensures var w, c := Wrap(W32, t), Wrap(W32, Quarters(t, level));
            && (c == Quarters(w, level) + 1 ==> w > 0)
            && (c == Quarters(w, level) - 1 ==> w < 0)
  {
    hide Wrap, Quarters;
    var w, c := Wrap(W32, t), Wrap(W32, Quarters(t, level));
    var m := WrapTurns(t);
    var n := WrapTurns(Quarters(t, level));
    JumpBy(t, w, c, m, n, level);
  }

  lemma {:induction false} QuartersFit(w: int, level: nat)
    requires Fits(W32, w) && level >= 1
    ensures -0x2000_0000 <= Quarters(w, level) <= 0x2000_0000
  {
    if level == 1 {
      assert Quarters(w, 0) == w;
    } else {
      QuartersFit(w, level - 1);
    }
  }

  // --- one axis: steps of three quarters ---

  function Step(i: int): real { if i == -1 then -0.75 else if i == 0 then 0.0 else 0.75 }

  /** A step from a number, where it ends beyond the next integer from zero, ends near to it. */
  lemma AxisFromNear(v: real, c: int, i: int)
    requires Step3(i) && c == Trunc(v + Step(i))
    requires (c == Trunc(v) + 1 ==> v > 0.0) && (c == Trunc(v) - 1 ==> v < 0.0)
    ensures c == Trunc(v) || -0.75 <= c as real - v <= 0.75
  {
  }

  lemma StepIsShort(v: real, i: int)
    requires Step3(i)
    ensures Trunc(v) - 1 <= Trunc(v + Step(i)) <= Trunc(v) + 1
  {
  }

  /** A cell near to the inner corner of a cell is reached in one step from every point of that cell. */
  lemma AxisToNear(x: real, v: real, c: int) returns (i: int)
    requires Trunc(x) == Trunc(v) && (v > 0.0 ==> x >= v) && (v < 0.0 ==> x <= v)
    requires c == Trunc(v) || -0.75 <= c as real - v <= 0.75
    ensures Step3(i) && c == Trunc(x + Step(i))
  {
    i := c - Trunc(v);
  }

  // --- scaled coordinates ---

  /** A coordinate in cells of the level. */
  function At(x: real, level: nat): real { Mul(x, Pow2(-Bias(level))) }

  lemma {:induction false} InCellsTruncates(w: int, level: nat)
    ensures Trunc(InCells(w, level)) == Quarters(w, level)
  {
    if level == 0 {
      assert Pow2(0) == 1.0;
    } else {
      InCellsTruncates(w, level - 1);
      InCellsNext(w, level);
      TruncQuarter(InCells(w, level - 1));
    }
  }

  lemma InCellsNext(w: int, level: nat)
    requires level > 0
    ensures InCells(w, level) == InCells(w, level - 1) / 4.0
  {
    Pow2Next(-2 * level);
    Pow2Next(-2 * level + 1);
    QuarterOfProduct(w as real, Pow2(-2 * level), Pow2(-2 * level + 2));
  }

  lemma QuarterOfProduct(a: real, b: real, c: real)
    requires c == 4.0 * b
    ensures Mul(a, b) == Mul(a, c) / 4.0 && Mul(4.0 * a, b) == Mul(a, c)
  {
    assert a * c == 4.0 * (a * b);
    assert 4.0 * a * b == 4.0 * (a * b);
  }

  lemma SignOfProduct(a: real, b: real)
    requires b > 0.0
    ensures (Mul(a, b) > 0.0 <==> a > 0.0) && (Mul(a, b) < 0.0 <==> a < 0.0)
  {
  }

  /** The inner corner of a smallest cell, in cells of the level. */
  lemma CornerAt(w: int, level: nat)
    ensures At(4.0 * w as real, level) == InCells(w, level)
  {
    Pow2Next(-Bias(level));
    Pow2Next(-Bias(level) + 1);
    QuarterOfProduct(w as real, Pow2(-Bias(level)), Pow2(-2 * level));
  }

  lemma StepScaled(x: real, i: int, level: nat)
    requires Step3(i)
    ensures At(x + Times(i, Reach(Bias(level))), level) == At(x, level) + Step(i)
  {
    var b := Bias(level);
    ReachScaled(b);
    Distribute(x, Reach(b), Pow2(-b));
    Moves(x, Reach(b));
  }

  lemma ScaleIsTrunc(x: real, level: nat)
    ensures TruncScale(x, Pow2(-Bias(level))) == Trunc(At(x, level))
  {
  }

  // --- from every point of the smallest cell ---

  /** A point of a smallest cell is no nearer to zero than the cell's inner corner, at every level. */
  lemma BeyondCorner(x: real, w: int, level: nat)
    requires w == Trunc(At(x, 0))
    ensures var v := InCells(w, level); (v > 0.0 ==> At(x, level) >= v) && (v < 0.0 ==> At(x, level) <= v)
  {
    var a := 4.0 * w as real;
    assert w > 0 ==> At(x, 0) >= w as real;
    assert w < 0 ==> At(x, 0) <= w as real;
    assert At(x, 0) == x / 4.0 by {
      assert Pow2(0) == 1.0 && Pow2(-1) == 0.5 && Pow2(-2) == 0.25;
    }
    SignOfProduct(w as real, Pow2(-2 * level));
    CornerAt(w, level);
    if w > 0 {
      MulKeepsOrder(a, x, Pow2(-Bias(level)));
    } else if w < 0 {
      MulKeepsOrder(x, a, Pow2(-Bias(level)));
    }
  }

  lemma AxisReached(x: real, w: int, c: int, level: nat) returns (i: int)
    requires w == Trunc(At(x, 0)) && Trunc(At(x, level)) == Quarters(w, level)
    requires Fits(W32, c) && AxisKept(w, c, level)
    ensures Step3(i) && Scale32(x + Times(i, Reach(Bias(level))), Pow2(-Bias(level))) == c
  {
    hide Trunc, At, InCells, Quarters, Times, Reach, Wrap, Step;
    BeyondCorner(x, w, level);
    InCellsTruncates(w, level);
    i := AxisToNear(At(x, level), InCells(w, level), c);
    StepScaled(x, i, level);
    ScaleIsTrunc(x + Times(i, Reach(Bias(level))), level);
  }

  /** Wherever in the smallest cell the level was refreshed, a kept cell is one of the sampled ones. */
  lemma KeptIsAround(p: Vec, q: Vec, level: nat)
    requires Inside(p) && SmallCell(p) == SmallCell(q) && level < ListLength(q)
    requires var w, c := SmallCell(q), CellOf(q, Bias(level));
             AxisKept(w.x, c.x, level) && AxisKept(w.y, c.y, level) && AxisKept(w.z, c.z, level)
    ensures CellName(q, Bias(level)) in Around(p, Bias(level))
  {
    hide AxisKept, Trunc, Quarters, QuadsW, Listed, Reach, Scale32, Times;
    var b, w, c := Bias(level), SmallCell(q), CellOf(q, Bias(level));
    PointCells(p, level);
    var i := AxisReached(p.x, w.x, c.x, level);
    var j := AxisReached(p.y, w.y, c.y, level);
    var k := AxisReached(p.z, w.z, c.z, level);
    var m := Moved(p, Reach(b), i, j, k);
    assert CellOf(m, b) == c;
    NamesTell(m, q, b);
    assert m in BoxPoints(p, Reach(b));
  }

  /** Inside the range truncation at a level is the smallest cell divided by four as often. */
  lemma PointCells(p: Vec, level: nat)
    requires Inside(p)
    ensures var w := SmallCell(p);
            && w.x == Trunc(At(p.x, 0)) && Trunc(At(p.x, level)) == Quarters(w.x, level)
            && w.y == Trunc(At(p.y, 0)) && Trunc(At(p.y, level)) == Quarters(w.y, level)
            && w.z == Trunc(At(p.z, 0)) && Trunc(At(p.z, level)) == Quarters(w.z, level)
  {
    hide Trunc, Quarters, SmallCell, Pow2, TruncScale, Quartered, At;
    InsideIsSteady(p);
    LevelCell(p, level);
    QuarteredAxes(SmallCell(p), level);
    ScaleIsTrunc(p.x, 0);
    ScaleIsTrunc(p.y, 0);
    ScaleIsTrunc(p.z, 0);
    ScaleIsTrunc(p.x, level);
    ScaleIsTrunc(p.y, level);
    ScaleIsTrunc(p.z, level);
  }

  // --- from the inner corner ---

  function InnerCorner(c: Cell): Vec { Vec(4.0 * c.x as real, 4.0 * c.y as real, 4.0 * c.z as real) }

  lemma CornerIsInside(c: Cell)
    requires CellFits(W32, c)
    ensures Inside(InnerCorner(c)) && SmallCell(InnerCorner(c)) == c
  {
    var p := InnerCorner(c);
    assert TrueCell(p, MIN_LEVEL) == c by {
      hide Pow2, Trunc, TruncScale;
      CornerCoordinate(c.x);
      CornerCoordinate(c.y);
      CornerCoordinate(c.z);
    }
    CellIsWrapped(p, MIN_LEVEL);
  }

  lemma CornerCoordinate(w: int)
    ensures TruncScale(4.0 * w as real, Pow2(-MIN_LEVEL)) == w
  {
    CornerAt(w, 0);
    InCellsTruncates(w, 0);
    ScaleIsTrunc(4.0 * w as real, 0);
  }

  /** A sampled cell of an inner corner is a step away on each axis. */
  lemma AxisSampledAtCorner(w: int, i: int, level: nat)
    requires Fits(W32, w) && level >= 1 && Step3(i)
    ensures Scale32(4.0 * w as real + Times(i, Reach(Bias(level))), Pow2(-Bias(level)))
         == Trunc(InCells(w, level) + Step(i))
  {
    hide Trunc, At, InCells, Quarters, Times, Reach, Step, Pow2;
    var x := 4.0 * w as real;
    StepScaled(x, i, level);
    CornerAt(w, level);
    ScaleIsTrunc(x + Times(i, Reach(Bias(level))), level);
    StepIsShort(InCells(w, level), i);
    InCellsTruncates(w, level);
    QuartersFit(w, level);
  }

  lemma SampledAtCorner(d: Cell, q: Vec, level: nat) returns (i: int, j: int, k: int)
    requires CellFits(W32, d) && level >= 1
    requires CellName(q, Bias(level)) in Around(InnerCorner(d), Bias(level))
    ensures Step3(i) && Step3(j) && Step3(k)
    ensures CellOf(q, Bias(level)) == Cell(Trunc(InCells(d.x, level) + Step(i)),
                                           Trunc(InCells(d.y, level) + Step(j)), Trunc(InCells(d.z, level) + Step(k)))
  {
    hide Trunc, InCells, QuadsW, Listed, Reach, Scale32, Times, Step, Pow2, CellName;
    var b, p := Bias(level), InnerCorner(d);
    var m :| m in BoxPoints(p, Reach(b)) && CellName(m, b) == CellName(q, b);
    i, j, k :| -1 <= i < 2 && Step3(j) && Step3(k) && m == Moved(p, Reach(b), i, j, k);
    NamesTell(m, q, b);
    AxisSampledAtCorner(d.x, i, level);
    AxisSampledAtCorner(d.y, j, level);
    AxisSampledAtCorner(d.z, k, level);
  }

  lemma SampledIsKept(t: int, w: int, c: int, i: int, level: nat)
    requires 1 <= level < LEVELS && w == Wrap(W32, t) && c == Wrap(W32, Quarters(t, level))
    requires Step3(i) && c == Trunc(InCells(w, level) + Step(i))
    ensures AxisKept(w, c, level)
  {
    hide Trunc, InCells, Quarters, Wrap, Step;
    JumpAxis(t, level);
    InCellsTruncates(w, level);
    InCellsSign(w, level);
    AxisFromNear(InCells(w, level), c, i);
  }

  lemma InCellsSign(w: int, level: nat)
    ensures (w > 0 ==> InCells(w, level) > 0.0) && (w < 0 ==> InCells(w, level) < 0.0)
  {
    SignOfProduct(w as real, Pow2(-2 * level));
  }

  /** The cells of any position come from one unreduced cell. */
  lemma CellsFromOne(q: Vec, level: nat) returns (t: Cell)
    ensures SmallCell(q) == WrapCell(t)
    ensures CellOf(q, Bias(level)) == WrapCell(Cell(Quarters(t.x, level), Quarters(t.y, level), Quarters(t.z, level)))
  {
    hide CellOf, TrueCell, Quarters, Wrap;
    t := TrueCell(q, MIN_LEVEL);
    CellIsWrapped(q, MIN_LEVEL);
    CellIsWrapped(q, Bias(level));
    LevelCell(q, level);
    QuarteredAxes(t, level);
  }

  lemma AroundCornerIsKept(q: Vec, level: nat)
    requires 1 <= level < LEVELS
    requires CellName(q, Bias(level)) in Around(InnerCorner(SmallCell(q)), Bias(level))
    ensures var w, c := SmallCell(q), CellOf(q, Bias(level));
            AxisKept(w.x, c.x, level) && AxisKept(w.y, c.y, level) && AxisKept(w.z, c.z, level)
  {
    hide Trunc, InCells, Quarters, Wrap, Step, AxisKept, Around, CellName, CellOf;
    var w, c := SmallCell(q), CellOf(q, Bias(level));
    var i, j, k := SampledAtCorner(w, q, level);
    var t := CellsFromOne(q, level);
    SampledIsKept(t.x, w.x, c.x, i, level);
    SampledIsKept(t.y, w.y, c.y, j, level);
    SampledIsKept(t.z, w.z, c.z, k, level);
  }

  lemma AroundZeroIsZero(q: Vec, level: nat)
    requires level >= 1 && CellName(q, Bias(level)) in Around(InnerCorner(ZERO_CELL), Bias(level))
    ensures CellOf(q, Bias(level)) == ZERO_CELL
  {
    hide Around, CellName, CellOf, Pow2;
    var i, j, k := SampledAtCorner(ZERO_CELL, q, level);
    assert InCells(0, level) == 0.0;
  }

  // --- coming from inside the range ---

  lemma Zero(level: nat)
    ensures var o := InnerCorner(ZERO_CELL); Inside(o) && SmallCell(o) == ZERO_CELL && ListLength(o) == 1
  {
    CornerIsInside(ZERO_CELL);
  }

  lemma AlwaysNeedsSafe(q: Vec, level: nat)
    requires level < LEVELS && AlwaysSubscribed(q, level)
    ensures SafeJump(q, level)
  {
    hide CellName, CellOf, Around, SmallCell, ListLength, AxisKept, Inside, Subscribed, InnerCorner, Quartered;
    if level >= ListLength(q) {
      var o := InnerCorner(ZERO_CELL);
      Zero(level);
      ListIsNotEmpty(q);
      assert AllInside([o]) && Alike(o, q, level);
      PairIsSubscribed(o, q, level);
      AroundZeroIsZero(q, level);
      ShortListMeansZero(q, level);
    } else if level > 0 {
      var p := InnerCorner(SmallCell(q));
      CornerIsInside(SmallCell(q));
      assert AllInside([p]) && Alike(p, q, level);
      PairIsSubscribed(p, q, level);
      AroundCornerIsKept(q, level);
    } else {
      LevelZero(q);
    }
  }

  lemma LevelZero(q: Vec)
    ensures CellOf(q, Bias(0)) == Quartered(SmallCell(q), 0)
  {
  }

  lemma SafeIsSubscribed(p: Vec, q: Vec, level: nat)
    requires level < LEVELS && SafeJump(q, level) && Inside(p)
    ensures Subscribed([p] + [q], level)
  {
    hide CellName, CellOf, Around, SmallCell, ListLength, AxisKept, Inside, Quartered, Steady, Subscribed;
    PairIsSubscribed(p, q, level);
    if Alike(p, q, level) {
      InsideIsSteady(p);
      SteadyAt(p, level);
      AlikeQuartered(p, q, level);
      if CellOf(q, Bias(level)) == Quartered(SmallCell(q), level) {
        NamesTell(p, q, Bias(level));
        OwnCellIsAround(p, Bias(level));
      } else {
        KeptIsAround(p, q, level);
      }
    }
  }

  lemma SteadyAt(p: Vec, level: nat)
    requires Steady(p) && level < LEVELS
    ensures CellOf(p, Bias(level)) == Quartered(SmallCell(p), level)
  {
  }

  lemma AllAreSafe(path: seq<Vec>, q: Vec, level: nat)
    requires level < LEVELS && SafeJump(q, level) && AllInside(path)
    ensures Subscribed(path + [q], level)
  {
    hide SafeJump, Subscribed, Inside;
    forall n | 0 <= n < |path|
      ensures Subscribed([path[n]] + [q], level)
    {
      assert Inside(path[n]);
      SafeIsSubscribed(path[n], q, level);
    }
    PairsAreEnough(path, q, level);
  }

  /**
   After any path inside the range, a jump to `q` leaves the level subscribed to the player's
   own cell if and only if the jump is safe at that level.
   */
  lemma JumpIsSound(q: Vec, level: nat)
    requires level < LEVELS
    ensures AlwaysSubscribed(q, level) <==> SafeJump(q, level)
  {
    hide SafeJump, Subscribed, AllInside;
    if SafeJump(q, level) {
      forall path: seq<Vec> | AllInside(path)
        ensures Subscribed(path + [q], level)
      {
        AllAreSafe(path, q, level);
      }
    }
    if AlwaysSubscribed(q, level) {
      AlwaysNeedsSafe(q, level);
    }
  }

  // --- coming back into the range ---

  /** What can be said of a position before it is left: one of its 27 samples is in the divided cell. */
  predicate SafeLeave(p: Vec, level: nat) {
    exists m :: m in BoxPoints(p, Reach(Bias(level))) && CellOf(m, Bias(level)) == Quartered(SmallCell(p), level)
  }

  ghost predicate AllSafeToLeave(path: seq<Vec>, level: nat) {
    forall n :: 0 <= n < |path| ==> SafeLeave(path[n], level)
  }

  /** Wherever in the range the player goes from the path, the level is subscribed to the own cell there. */
  ghost predicate SubscribedInside(path: seq<Vec>, level: nat) {
    forall q :: Inside(q) ==> Subscribed(path + [q], level)
  }

  lemma LeaveToInside(p: Vec, q: Vec, level: nat)
    requires level < LEVELS && SafeLeave(p, level) && Inside(q)
    ensures Subscribed([p] + [q], level)
  {
    hide CellOf, CellName, BoxPoints, SmallCell, ListLength, Inside, Quartered, Steady, Subscribed;
    PairIsSubscribed(p, q, level);
    if Alike(p, q, level) {
      InsideIsSteady(q);
      SteadyAt(q, level);
      AlikeQuartered(p, q, level);
      var m :| m in BoxPoints(p, Reach(Bias(level))) && CellOf(m, Bias(level)) == Quartered(SmallCell(p), level);
      NamesTell(m, q, Bias(level));
      assert CellName(m, Bias(level)) in Around(p, Bias(level));
    }
  }

  lemma LeaveNeedsSafe(p: Vec, level: nat)
    requires level < LEVELS && SubscribedInside([p], level)
    ensures SafeLeave(p, level)
  {
    hide CellOf, CellName, BoxPoints, SmallCell, ListLength, Inside, Quartered, Steady, Subscribed, InnerCorner;
    var q := InnerCorner(SmallCell(p));
    CornerIsInside(SmallCell(p));
    assert Subscribed([p] + [q], level);
    PairIsSubscribed(p, q, level);
    assert Alike(p, q, level);
    InsideIsSteady(q);
    SteadyAt(q, level);
    var m :| m in BoxPoints(p, Reach(Bias(level))) && CellName(m, Bias(level)) == CellName(q, Bias(level));
    NamesTell(m, q, Bias(level));
  }

  /**
   A position can be left for every position of the range, with the level subscribed to the
   player's own cell there, if and only if it is safe to leave at that level.
   */
  lemma LeaveIsSound(p: Vec, level: nat)
    requires level < LEVELS
    ensures SubscribedInside([p], level) <==> SafeLeave(p, level)
  {
    hide SafeLeave, Subscribed, Inside;
    if SafeLeave(p, level) {
      forall q | Inside(q)
        ensures Subscribed([p] + [q], level)
      {
        LeaveToInside(p, q, level);
      }
    }
    if SubscribedInside([p], level) {
      LeaveNeedsSafe(p, level);
    }
  }

  /** And so can any path of positions safe to leave. */
  lemma PathLeaveIsSound(path: seq<Vec>, level: nat)
    requires level < LEVELS && AllSafeToLeave(path, level)
    ensures SubscribedInside(path, level)
  {
    hide SafeLeave, Subscribed, Inside;
    forall q | Inside(q)
      ensures Subscribed(path + [q], level)
    {
      forall n | 0 <= n < |path|
        ensures Subscribed([path[n]] + [q], level)
      {
        LeaveToInside(path[n], q, level);
      }
      PairsAreEnough(path, q, level);
    }
  }

  /** Every position of the range is safe to leave. */
  lemma InsideIsSafeToLeave(p: Vec, level: nat)
    requires level < LEVELS && Inside(p)
    ensures SafeLeave(p, level)
  {
    hide CellOf, BoxPoints, SmallCell, Inside, Quartered, Steady;
    InsideIsSteady(p);
    SteadyAt(p, level);
    OwnPointIsSampled(p, level);
  }

  lemma OwnPointIsSampled(p: Vec, level: nat)
    ensures p in BoxPoints(p, Reach(Bias(level)))
  {
    var r := Reach(Bias(level));
    Moves(p.x, r);
    Moves(p.y, r);
    Moves(p.z, r);
    assert Moved(p, r, 0, 0, 0) == p;
  }

  // --- coming from anywhere ---

  ghost predicate SubscribedFromAnywhere(q: Vec, level: nat) {
    forall path: seq<Vec> :: Subscribed(path + [q], level)
  }

  /** At the smallest level the cell is the one the channel is made from. */
  lemma SmallestIsSubscribed(q: Vec)
    ensures SubscribedFromAnywhere(q, 0)
  {
    hide CellOf, CellName, Around, ListLength, Subscribed;
    forall path: seq<Vec>
      ensures Subscribed(path + [q], 0)
    {
      forall n | 0 <= n < |path|
        ensures Subscribed([path[n]] + [q], 0)
      {
        var p := path[n];
        PairIsSubscribed(p, q, 0);
        ListIsNotEmpty(p);
        NamesTell(p, q, Bias(0));
        OwnCellIsAround(p, Bias(0));
      }
      PairsAreEnough(path, q, 0);
    }
  }

  /** The inner corner of a smallest cell, so many turns of 32 bits away on one axis. */
  function TurnsAway(c: Cell, m: int): Vec {
    Vec(4.0 * (c.x + 0x1_0000_0000 * m) as real, 4.0 * c.y as real, 4.0 * c.z as real)
  }

  lemma TurnsAwayIsAlike(c: Cell, m: int)
    requires CellFits(W32, c) && 0 <= m <= 1
    ensures SmallCell(TurnsAway(c, m)) == c
  {
    var p := TurnsAway(c, m);
    assert TrueCell(p, MIN_LEVEL) == Cell(c.x + 0x1_0000_0000 * m, c.y, c.z) by {
      hide Pow2, Trunc, TruncScale;
      CornerCoordinate(c.x + 0x1_0000_0000 * m);
      CornerCoordinate(c.y);
      CornerCoordinate(c.z);
    }
    CellIsWrapped(p, MIN_LEVEL);
  }

  lemma {:induction false} QuartersBound(u: int, level: nat)
    requires -0x1_8000_0000 <= u <= 0x1_8000_0000 && level >= 1
    ensures -0x6000_0000 <= Quarters(u, level) <= 0x6000_0000
  {
    if level == 1 {
      assert Quarters(u, 0) == u;
    } else {
      QuartersBound(u, level - 1);
    }
  }

  /** A sampled coordinate of a corner is at most one off the divided one. */
  lemma AxisNearCorner(u: int, i: int, level: nat)
    requires -0x1_8000_0000 <= u <= 0x1_8000_0000 && level >= 1 && Step3(i)
    ensures var c := Scale32(4.0 * u as real + Times(i, Reach(Bias(level))), Pow2(-Bias(level)));
            Quarters(u, level) - 1 <= c <= Quarters(u, level) + 1
  {
    hide Trunc, At, InCells, Quarters, Times, Reach, Step, Pow2;
    var x := 4.0 * u as real;
    StepScaled(x, i, level);
    CornerAt(u, level);
    ScaleIsTrunc(x + Times(i, Reach(Bias(level))), level);
    StepIsShort(InCells(u, level), i);
    InCellsTruncates(u, level);
    QuartersBound(u, level);
  }

  lemma AroundIsNearCorner(c: Cell, m: int, q: Vec, level: nat)
    requires CellFits(W32, c) && 0 <= m <= 1 && level >= 1
    requires CellName(q, Bias(level)) in Around(TurnsAway(c, m), Bias(level))
    ensures var a := Quarters(c.x + 0x1_0000_0000 * m, level);
            a - 1 <= CellOf(q, Bias(level)).x <= a + 1
  {
    hide Quarters, QuadsW, Listed, Reach, Scale32, Pow2, CellName, Trunc;
    var b, p := Bias(level), TurnsAway(c, m);
    var o :| o in BoxPoints(p, Reach(b)) && CellName(o, b) == CellName(q, b);
    var i, j, k :| -1 <= i < 2 && Step3(j) && Step3(k) && o == Moved(p, Reach(b), i, j, k);
    NamesTell(o, q, b);
    var u := c.x + 0x1_0000_0000 * m;
    assert p.x == 4.0 * u as real;
    assert Moved(p, Reach(b), i, j, k).x == p.x + Times(i, Reach(b));
    assert CellOf(q, b).x == Scale32(o.x, Pow2(-b));
    AxisNearCorner(u, i, level);
  }

  /** A full turn moves the divided coordinate far. */
  lemma TurnMovesFar(w: int, level: nat)
    requires 1 <= level < LEVELS
    ensures Quarters(w + 0x1_0000_0000, level) >= Quarters(w, level) + 0x10_0000
  {
    hide Quarters, Floors, Turn32;
    QuartersAreFloors(w, level);
    QuartersAreFloors(w + 0x1_0000_0000, level);
    TurnsDivide(w, level, 1);
    TurnsDivide(-w, level, -1);
    FloorsOfBoth(w, level);
    FloorsOfBoth(w + 0x1_0000_0000, level);
    Turn32OfFew();
  }

  /** At a larger level there is always a position that is wrong to come from. */
  lemma SomewhereIsUnsafe(q: Vec, level: nat) returns (p: Vec)
    requires 1 <= level < LEVELS
    ensures !Subscribed([p] + [q], level)
  {
    hide CellOf, CellName, Around, ListLength, Subscribed, Quarters, TurnsAway;
    var w := SmallCell(q);
    p := TurnsAway(w, 0);
    TurnsAwayIsAlike(w, 0);
    TurnsAwayIsAlike(w, 1);
    PairIsSubscribed(p, q, level);
    if Subscribed([p] + [q], level) {
      AroundIsNearCorner(w, 0, q, level);
      p := TurnsAway(w, 1);
      PairIsSubscribed(p, q, level);
      if Subscribed([p] + [q], level) {
        AroundIsNearCorner(w, 1, q, level);
        TurnMovesFar(w.x, level);
        assert false;
      }
    }
  }

  /** Only the smallest level can be trusted after every path: elsewhere the path has to stay in a range. */
  lemma AnywhereIsSound(q: Vec, level: nat)
    requires level < LEVELS
    ensures SubscribedFromAnywhere(q, level) <==> level == 0
  {
    hide Subscribed;
    if level == 0 {
      SmallestIsSubscribed(q);
    } else {
      var p := SomewhereIsUnsafe(q, level);
      assert [p] + [q] != [];
    }
  }

  // --- both sides of the range ---

  /** 2^34 and 2^44 on one axis: the smallest cells of both are reduced to zero. */
  const FAR := Vec(17179869184.0, 0.0, 0.0)
  const FARTHER := Vec(17592186044416.0, 0.0, 0.0)

  lemma SmallestOf(x: real, w: int)
    requires x == 4.0 * w as real
    ensures TrueCell(Vec(x, 0.0, 0.0), MIN_LEVEL) == Cell(w, 0, 0)
  {
    hide Pow2, Trunc, TruncScale;
    CornerCoordinate(w);
    CornerCoordinate(0);
  }

  lemma ReducedOf(x: real, w: int, level: nat)
    requires x == 4.0 * w as real
    ensures CellOf(Vec(x, 0.0, 0.0), Bias(level)) == Cell(Wrap(W32, Quarters(w, level)), 0, 0)
  {
    hide Wrap, Quarters, Quartered, CellOf, TrueCell;
    var p := Vec(x, 0.0, 0.0);
    SmallestOf(x, w);
    LevelCell(p, level);
    QuarteredAxes(Cell(w, 0, 0), level);
    QuartersAreFloors(0, level);
    FloorsOfZero(level);
    CellIsWrapped(p, Bias(level));
  }

  /** The farther of two positions is safe at all levels, the other is not. */
  lemma FarJumps(level: nat)
    requires level < LEVELS
    ensures AlwaysSubscribed(FARTHER, level) && !AlwaysSubscribed(FAR, 1)
  {
    hide CellOf, Quarters, Quartered, AlwaysSubscribed;
    ReducedOf(FAR.x, 0x1_0000_0000, 0);
    ReducedOf(FAR.x, 0x1_0000_0000, 1);
    ReducedOf(FARTHER.x, 0x400_0000_0000, 0);
    ReducedOf(FARTHER.x, 0x400_0000_0000, level);
    FarQuarters(level);
    QuarteredAxes(ZERO_CELL, level);
    QuarteredAxes(ZERO_CELL, 1);
    JumpIsSound(FAR, 1);
    JumpIsSound(FARTHER, level);
  }

  /** Far out and back: a player at the origin, where every jump is safe, is left without its own cell. */
  lemma FarAndBack()
    ensures var o := Vec(0.0, 0.0, 0.0);
            Inside(o) && SafeJump(o, 1) && !SafeLeave(FAR, 1) && !Subscribed([FAR] + [o], 1)
  {
    hide CellOf, CellName, Around, ListLength, Subscribed, Quarters, SafeLeave;
    var o := InnerCorner(ZERO_CELL);
    CornerIsInside(ZERO_CELL);
    InsideIsSteady(o);
    SteadyAt(o, 1);
    QuarteredAxes(ZERO_CELL, 1);
    FarQuarters(1);
    assert FAR == TurnsAway(ZERO_CELL, 1);
    TurnsAwayIsAlike(ZERO_CELL, 1);
    PairIsSubscribed(FAR, o, 1);
    if CellName(o, Bias(1)) in Around(FAR, Bias(1)) {
      AroundIsNearCorner(ZERO_CELL, 1, o, 1);
      assert false;
    }
    if SafeLeave(FAR, 1) {
      LeaveToInside(FAR, o, 1);
      assert false;
    }
  }

  lemma FarQuarters(level: nat)
    requires level < LEVELS
    ensures Quarters(0x1_0000_0000, 0) == 0x1_0000_0000 && Quarters(0x1_0000_0000, 1) == 0x4000_0000
    ensures Quarters(0x400_0000_0000, 0) == 0x400_0000_0000 && Wrap(W32, Quarters(0x400_0000_0000, level)) == 0
    ensures Quarters(0, 1) == 0 && Quarters(0, level) == 0
  {
    TurnsDivide(0, level, 0x400);
    FloorsOfZero(level);
    QuartersAreFloors(0x400_0000_0000, level);
    QuartersAreFloors(0, level);
    QuartersAreFloors(0, 1);
    FloorsOfZero(1);
    Turn32OfFew();
  }
}
