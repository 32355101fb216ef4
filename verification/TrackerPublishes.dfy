/**
 Who hears a player.  A player publishes at every level, on the channel of that level; another
 hears it if that channel is among the spaces of the other's levels.  The channel of a level
 the list has is the whole list, the name of the smallest cell, so what is said there never
 reaches the level's own subscribers.
 */
module TrackerPublishes {
  import opened Text
  import opened QuadSpaces
  import opened QuadNeighbours
  import opened TrackerCells
  import opened TrackerLevels
  import opened TrackerJumps
  import Trackers

  // --- the channel of a level against the name of its cell ---

  const ORIGIN_POINT := Vec(0.0, 0.0, 0.0)

  lemma OriginCell(bias: int)
    ensures CellOf(ORIGIN_POINT, bias) == ZERO_CELL
  {
    hide Pow2;
    assert 0.0 * Pow2(-bias) == 0.0;
  }

  /** The stand-in of a level is the name of its zero cell. */
  lemma ZeroChannelIsName(bias: int)
    ensures CellName(ORIGIN_POINT, bias) == "[0_0_0_" + Print(bias) + "]"
  {
    OriginCell(bias);
    ZeroChannel(bias);
    assert QuadsW(W32, ZERO_CELL, bias) == [Quad(0, 0, 0, bias)];
  }

  /** The level whose names the channel is one of, and a point in the cell it names. */
  function NamedLevel(p: Vec, level: nat): nat { if level < ListLength(p) then 0 else level }

  function NamedPoint(p: Vec, level: nat): Vec { if level < ListLength(p) then p else ORIGIN_POINT }

  lemma ChannelIsName(p: Vec, level: nat)
    ensures Channel(p, level) == CellName(NamedPoint(p, level), Bias(NamedLevel(p, level)))
  {
    hide CellName, ListLength;
    ZeroChannelIsName(Bias(level));
  }

  /**
   A player publishes on the name of its cell at a level if and only if that is the smallest
   level, or the list is too short for it and the cell is zero.
   */
  lemma PublishesOnOwnCell(p: Vec, level: nat)
    ensures Channel(p, level) == CellName(p, Bias(level))
            <==> level == 0 || (ListLength(p) <= level && CellOf(p, Bias(level)) == ZERO_CELL)
  {
    hide CellName, CellOf, Channel, ListLength;
    ChannelIsName(p, level);
    ListIsNotEmpty(p);
    if level < ListLength(p) {
      if Channel(p, level) == CellName(p, Bias(level)) {
        Trackers.LevelsNeverCollide(p, 0, p, level);
      }
    } else {
      OriginCell(Bias(level));
      NamesTell(ORIGIN_POINT, p, Bias(level));
    }
  }

  /** For a steady position: exactly at the smallest level, and where the list is too short. */
  lemma SteadyPublishesOnOwnCell(p: Vec, level: nat)
    requires Steady(p) && level < LEVELS
    ensures Channel(p, level) == CellName(p, Bias(level)) <==> level == 0 || ListLength(p) <= level
  {
    hide CellName, CellOf, Channel, ListLength, Quartered, SmallCell;
    PublishesOnOwnCell(p, level);
    if ListLength(p) <= level {
      ShortListMeansZero(p, level);
      SteadyAt(p, level);
    }
  }

  /** The full list of a larger level is no channel that level is ever subscribed to, anywhere. */
  lemma ListIsNeverAround(p: Vec, q: Vec, level: nat)
    requires 0 < level < ListLength(p)
    ensures Channel(p, level) !in Around(q, Bias(level))
  {
    hide CellName, CellOf, Channel, ListLength, Around;
    ChannelIsName(p, level);
    if Channel(p, level) in Around(q, Bias(level)) {
      NameIsOfLevel(p, 0, q, level);
      assert false;
    }
  }

  /** A cell name among those around a position is of that level. */
  lemma NameIsOfLevel(p: Vec, i: nat, q: Vec, j: nat)
    requires CellName(p, Bias(i)) in Around(q, Bias(j))
    ensures i == j
  {
    hide CellName, Around;
    NeighbourhoodCovered(q, Bias(j), CellName(p, Bias(i)));
    var r :| Near(q, r, Bias(j)) && CellName(p, Bias(i)) == CellName(r, Bias(j));
    Trackers.LevelsNeverCollide(p, i, r, j);
  }

  // --- who hears a publish ---

  /** Some point within three quarters of an edge is in the cell. */
  ghost predicate NearCell(q: Vec, c: Cell, bias: int) {
    exists r :: Near(q, r, bias) && CellOf(r, bias) == c
  }

  lemma NameIsNear(p: Vec, q: Vec, bias: int)
    ensures CellName(p, bias) in Around(q, bias) <==> NearCell(q, CellOf(p, bias), bias)
  {
    hide CellName, CellOf, Around, Near;
    NeighbourhoodCovered(q, bias, CellName(p, bias));
    if CellName(p, bias) in Around(q, bias) {
      var r :| Near(q, r, bias) && CellName(p, bias) == CellName(r, bias);
      NamesTell(p, r, bias);
    }
    if NearCell(q, CellOf(p, bias), bias) {
      var r :| Near(q, r, bias) && CellOf(r, bias) == CellOf(p, bias);
      NamesTell(p, r, bias);
    }
  }

  /** What a player that has followed the path is subscribed to. */
  ghost predicate Hears(path: seq<Vec>, channel: string) { channel in AllSpaces(AfterUpdates(path)) }

  lemma HearsAtLevel(path: seq<Vec>, p: Vec, k: nat)
    requires path != [] && k < LEVELS
    ensures Hears(path, CellName(p, Bias(k))) <==> CellName(p, Bias(k)) in Around(RefreshedAt(path, k), Bias(k))
  {
    hide CellName, Around, RefreshedAt, AfterUpdates, Channel;
    PathIsUpToDate(path);
    var views, name := AfterUpdates(path), CellName(p, Bias(k));
    assert views[k] == Fresh(RefreshedAt(path, k), k);
    if name in AllSpaces(views) {
      var j :| 0 <= j < |views| && name in views[j].spaces;
      assert views[j] == Fresh(RefreshedAt(path, j), j);
      NameIsOfLevel(p, k, RefreshedAt(path, j), j);
    }
  }

  /**
   A publish of a player at `p` at a level is heard by one that has followed a path if and only
   if: for a level the list of `p` has, the smallest cell of `p` is near to where the other's
   smallest level was last refreshed; otherwise, the zero cell of the level is near to where
   the other's level was.
   */
  lemma PublishIsHeard(p: Vec, path: seq<Vec>, level: nat)
    requires path != [] && level < LEVELS
    ensures Hears(path, Channel(p, level)) <==>
            if level < ListLength(p) then NearCell(RefreshedAt(path, 0), SmallCell(p), MIN_LEVEL)
            else NearCell(RefreshedAt(path, level), ZERO_CELL, Bias(level))
  {
    hide CellName, CellOf, Around, RefreshedAt, AfterUpdates, Channel, NearCell, Hears, ListLength;
    var k, o := NamedLevel(p, level), NamedPoint(p, level);
    ChannelIsName(p, level);
    OriginCell(Bias(level));
    HearsAtLevel(path, o, k);
    NameIsNear(o, RefreshedAt(path, k), Bias(k));
  }

  // --- the zero cell, axis by axis ---

  predicate NearZero(x: real, level: nat) { -1.75 < At(x, level) < 1.75 }

  /** The point on an axis nearest to zero that is within three quarters of an edge. */
  function TowardZero(x: real, level: nat): real {
    if At(x, level) >= 1.0 then x - Reach(Bias(level)) else if At(x, level) <= -1.0 then x + Reach(Bias(level)) else x
  }

  lemma AxisTowardZero(x: real, level: nat)
    requires NearZero(x, level)
    ensures Near1(x, TowardZero(x, level), Reach(Bias(level)))
    ensures Scale32(TowardZero(x, level), Pow2(-Bias(level))) == 0
  {
    hide At, Reach, Times;
    var r := TowardZero(x, level);
    StepScaled(x, -1, level);
    StepScaled(x, 1, level);
    Moves(x, Reach(Bias(level)));
    ScaleIsTrunc(r, level);
    assert -1.0 < At(r, level) < 1.0;
  }

  lemma AxisNearZero(x: real, r: real, level: nat)
    requires 1 <= level && Fits(W32, Trunc(At(x, 0))) && Trunc(At(x, level)) == Quarters(Trunc(At(x, 0)), level)
    requires Near1(x, r, Reach(Bias(level))) && Scale32(r, Pow2(-Bias(level))) == 0
    ensures NearZero(x, level)
  {
    hide At, Reach, Times, Quarters, Pow2;
    StepScaled(x, -1, level);
    StepScaled(x, 1, level);
    Moves(x, Reach(Bias(level)));
    AtKeepsOrder(x - Reach(Bias(level)), r, level);
    AtKeepsOrder(r, x + Reach(Bias(level)), level);
    ScaleIsTrunc(r, level);
    QuartersFit(Trunc(At(x, 0)), level);
    assert Trunc(At(x, level)) - 1 <= Trunc(At(r, level)) <= Trunc(At(x, level)) + 1;
    assert Trunc(At(r, level)) == 0;
  }

  lemma AtKeepsOrder(a: real, b: real, level: nat)
    requires a <= b
    ensures At(a, level) <= At(b, level)
  {
    MulKeepsOrder(a, b, Pow2(-Bias(level)));
  }

  /** Inside the range a larger level's zero cell is near exactly within seven quarters of an edge of the origin. */
  lemma ZeroIsNear(q: Vec, level: nat)
    requires Inside(q) && level >= 1
    ensures NearCell(q, ZERO_CELL, Bias(level))
            <==> NearZero(q.x, level) && NearZero(q.y, level) && NearZero(q.z, level)
  {
    hide At, Reach, Quarters, SmallCell, NearZero, TowardZero, Scale32, Near1;
    var b := Bias(level);
    PointCells(q, level);
    if NearZero(q.x, level) && NearZero(q.y, level) && NearZero(q.z, level) {
      AxisTowardZero(q.x, level);
      AxisTowardZero(q.y, level);
      AxisTowardZero(q.z, level);
      var r := Vec(TowardZero(q.x, level), TowardZero(q.y, level), TowardZero(q.z, level));
      assert Near(q, r, b) && CellOf(r, b) == ZERO_CELL;
    }
    if NearCell(q, ZERO_CELL, b) {
      var r :| Near(q, r, b) && CellOf(r, b) == ZERO_CELL;
      AxisNearZero(q.x, r.x, level);
      AxisNearZero(q.y, r.y, level);
      AxisNearZero(q.z, r.z, level);
    }
  }

  // --- two players ---

  const SPEAKER := Vec(8.0, 0.0, 0.0)
  const LISTENER := Vec(20.0, 0.0, 0.0)

  lemma SpeakerCells()
    ensures SmallCell(SPEAKER) == Cell(2, 0, 0) && ListLength(SPEAKER) == 2
    ensures Inside(SPEAKER) && Inside(LISTENER)
  {
    CornerIsInside(Cell(2, 0, 0));
    CornerIsInside(Cell(5, 0, 0));
    assert InnerCorner(Cell(2, 0, 0)) == SPEAKER && InnerCorner(Cell(5, 0, 0)) == LISTENER;
    assert ShiftCellW(W32, Cell(2, 0, 0)) == Cell(1, 0, 0) && ShiftCellW(W32, Cell(1, 0, 0)) == ZERO_CELL;
  }

  lemma PowersOf4()
    ensures Pow2(-2) == 0.25 && Pow2(2) == 4.0 && Pow2(-4) == 0.0625 && Pow2(4) == 16.0
  {
    assert Pow2(0) == 1.0 && Pow2(-1) == 0.5 && Pow2(-3) == 0.125 && Pow2(1) == 2.0 && Pow2(3) == 8.0;
  }

  /** Twelve metres apart: at the second level the cell of one is near to the other, who hears nothing of it. */
  lemma NeighbourIsNotHeard()
    ensures CellName(SPEAKER, Bias(1)) in Around(LISTENER, Bias(1))
    ensures !Hears([LISTENER], Channel(SPEAKER, 1)) && Channel(SPEAKER, 1) != CellName(SPEAKER, Bias(1))
  {
    hide CellName, Around, Channel, Hears, ListLength, QuadsW;
    SpeakerCells();
    PublishesOnOwnCell(SPEAKER, 1);
    PublishIsHeard(SPEAKER, [LISTENER], 1);
    PowersOf4();
    assert Near(LISTENER, SPEAKER, Bias(1));
    NearIsAround(LISTENER, SPEAKER, Bias(1));
    FarFromSpeaker();
    assert RefreshedAt([LISTENER], 0) == LISTENER;
  }

  lemma FarFromSpeaker()
    ensures !NearCell(LISTENER, Cell(2, 0, 0), MIN_LEVEL)
  {
    hide Pow2;
    PowersOf4();
    forall r | Near(LISTENER, r, MIN_LEVEL)
      ensures CellOf(r, MIN_LEVEL) != Cell(2, 0, 0)
    {
      assert 17.0 <= r.x <= 23.0;
      assert 4.25 <= r.x * 0.25 <= 5.75;
    }
  }
}
