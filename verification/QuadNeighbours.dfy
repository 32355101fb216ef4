/**
 The neighbourhood of a position: the names of the cells at 27 sampled points, which are the
 names of all cells within three quarters of a cell edge.
 */
module QuadNeighbours {
  import opened QuadSpaces

  // --- the neighbourhood of a point ---

  /** The edge of the box around a position, in cells: three quarters each way. */
  function Reach(bias: int): (r: real)
    ensures r > 0.0
  {
    Pow2(bias) * 3.0 / 4.0
  }

  /** `i` times the length, for the few values a sampling loop runs through. */
  function Times(i: int, length: real): real {
    if i == -1 then -length else if i == 0 then 0.0 else if i == 1 then length else length + length
  }

  function Moved(v: Vec, length: real, i: int, j: int, k: int): Vec {
    Vec(v.x + Times(i, length), v.y + Times(j, length), v.z + Times(k, length))
  }

  predicate Near1(a: real, b: real, reach: real) { -reach <= b - a <= reach }

  /** The second point is within three quarters of a cell edge of the first, on every axis. */
  predicate Near(p: Vec, q: Vec, bias: int) { NearBy(p, q, Reach(bias)) }

  predicate NearBy(p: Vec, q: Vec, reach: real) {
    Near1(p.x, q.x, reach) && Near1(p.y, q.y, reach) && Near1(p.z, q.z, reach)
  }

  predicate Step3(i: int) { -1 <= i <= 1 }

  /** The points of one row, up to but not including step `n`. */
  function RowPoints(v: Vec, length: real, i: int, j: int, n: int): set<Vec> {
    set k: int | -1 <= k < n :: Moved(v, length, i, j, k)
  }

  function PlanePoints(v: Vec, length: real, i: int, n: int): set<Vec> {
    set j: int, k: int | -1 <= j < n && -1 <= k <= 1 :: Moved(v, length, i, j, k)
  }

  function CubePoints(v: Vec, length: real, n: int): set<Vec> {
    set i: int, j: int, k: int | -1 <= i < n && -1 <= j <= 1 && -1 <= k <= 1 :: Moved(v, length, i, j, k)
  }

  /** The 27 points sampled around a position. */
  function BoxPoints(v: Vec, length: real): set<Vec> { CubePoints(v, length, 2) }

  lemma NextRowPoint(v: Vec, length: real, i: int, j: int, n: int)
    requires -1 <= n
    ensures RowPoints(v, length, i, j, n + 1) == RowPoints(v, length, i, j, n) + {Moved(v, length, i, j, n)}
  {
  }

  lemma NextRow(v: Vec, length: real, i: int, n: int)
    requires -1 <= n
    ensures PlanePoints(v, length, i, n + 1) == PlanePoints(v, length, i, n) + RowPoints(v, length, i, n, 2)
  {
  }

  lemma NextPlane(v: Vec, length: real, n: int)
    requires -1 <= n
    ensures CubePoints(v, length, n + 1) == CubePoints(v, length, n) + PlanePoints(v, length, n, 2)
  {
  }

  lemma BoxPointsAreNear(v: Vec, length: real, q: Vec)
    requires length > 0.0 && q in BoxPoints(v, length)
    ensures NearBy(v, q, length)
  {
  }

  function CellNames(points: set<Vec>, bias: int): set<string> {
    set q | q in points :: CellName(q, bias)
  }

  lemma CellNamesOfUnion(a: set<Vec>, b: set<Vec>, bias: int)
    ensures CellNames(a + b, bias) == CellNames(a, bias) + CellNames(b, bias)
  {
  }

  /** The names of the cells of the sampled points. */
  function Around(v: Vec, bias: int): set<string> {
    CellNames(BoxPoints(v, Reach(bias)), bias)
  }

  /** The names at all levels from `start` up to but not including `end`. */
  function AroundLevels(v: Vec, start: int, end: int): set<string> {
    set b: int, s | start <= b < end && s in Around(v, b) :: s
  }

  lemma AroundNextLevel(v: Vec, start: int, end: int)
    requires start <= end
    ensures AroundLevels(v, start, end + 1) == AroundLevels(v, start, end) + Around(v, end)
  {
  }

  method AddName(v: Vec, bias: int, names: set<string>, ghost points: set<Vec>) returns (names': set<string>)
    requires names == CellNames(points, bias)
    ensures names' == CellNames(points + {v}, bias)
  {
    var quad := Decompose(v, bias);
    var str := ListToString(quad);
    names' := names + {str};
    CellNamesOfUnion(points, {v}, bias);
    assert CellNames({v}, bias) == {CellName(v, bias)};
  }

  method RowNames(position: Vec, bias: int, length: real, dx: real, dy: real, ghost i: int, ghost j: int)
    returns (names: set<string>)
    requires length > 0.0 && dx == Times(i, length) && dy == Times(j, length)
    ensures names == CellNames(RowPoints(position, length, i, j, 2), bias)
  {
    hide CellName;
    names := {};
    var z := -length;
    ghost var k := -1;
    while z <= length
      invariant -1 <= k <= 2 && z == Times(k, length)
      invariant names == CellNames(RowPoints(position, length, i, j, k), bias)
      decreases 2 - k
    {
      var tmp := Vec(position.x + dx, position.y + dy, position.z + z);
      NextRowPoint(position, length, i, j, k);
      assert tmp == Moved(position, length, i, j, k);
      names := AddName(tmp, bias, names, RowPoints(position, length, i, j, k));
      z := z + length;
      k := k + 1;
    }
  }

  method PlaneNames(position: Vec, bias: int, length: real, dx: real, ghost i: int) returns (names: set<string>)
    requires length > 0.0 && dx == Times(i, length)
    ensures names == CellNames(PlanePoints(position, length, i, 2), bias)
  {
    names := {};
    var y := -length;
    ghost var j := -1;
    while y <= length
      invariant -1 <= j <= 2 && y == Times(j, length)
      invariant names == CellNames(PlanePoints(position, length, i, j), bias)
      decreases 2 - j
    {
      var row := RowNames(position, bias, length, dx, y, i, j);
      NextRow(position, length, i, j);
      CellNamesOfUnion(PlanePoints(position, length, i, j), RowPoints(position, length, i, j, 2), bias);
      names := names + row;
      y := y + length;
      j := j + 1;
    }
  }

  method BoxNames(position: Vec, bias: int) returns (names: set<string>)
    ensures names == Around(position, bias)
  {
    names := {};
    var length := Pow2(bias);
    length := length * 3.0 / 4.0;
    var x := -length;
    ghost var i := -1;
    while x <= length
      invariant -1 <= i <= 2 && x == Times(i, length)
      invariant names == CellNames(CubePoints(position, length, i), bias)
      decreases 2 - i
    {
      var plane := PlaneNames(position, bias, length, x, i);
      NextPlane(position, length, i);
      CellNamesOfUnion(CubePoints(position, length, i), PlanePoints(position, length, i, 2), bias);
      names := names + plane;
      x := x + length;
      i := i + 1;
    }
  }

  method SurroundingSpaceNames(position: Vec, start: int, end: int) returns (names: set<string>)
    ensures names == AroundLevels(position, start, end)
    ensures forall s :: s in names <==> exists b :: start <= b < end && s in Around(position, b)
  {
    names := {};
    var bias := start;
    while bias < end
      invariant start <= bias && (bias <= end || bias == start)
      invariant names == AroundLevels(position, start, bias)
    {
      AroundNextLevel(position, start, bias);
      var box := BoxNames(position, bias);
      names := names + box;
      bias := bias + 1;
    }
  }

  /** A number within three quarters of another truncates like one of the three samples. */
  lemma TruncNear(a: real, b: real)
    requires -0.75 <= b - a <= 0.75
    ensures Trunc(b) == Trunc(a - 0.75) || Trunc(b) == Trunc(a) || Trunc(b) == Trunc(a + 0.75)
  {
  }

  lemma ReachScaled(bias: int)
    ensures Mul(Reach(bias), Pow2(-bias)) == 0.75
  {
    Pow2Inverse(bias);
    ThreeQuarters(Pow2(bias), Pow2(-bias));
  }

  lemma ThreeQuarters(u: real, w: real)
    requires u * w == 1.0
    ensures u * 3.0 / 4.0 * w == 0.75
  {
    assert u * 3.0 / 4.0 * w == 0.75 * (u * w);
  }

  function Mul(x: real, w: real): real { x * w }

  lemma Distribute(a: real, r: real, w: real)
    ensures Mul(a + r, w) == Mul(a, w) + Mul(r, w) && Mul(a - r, w) == Mul(a, w) - Mul(r, w)
  {
  }

  lemma MulKeepsOrder(a: real, b: real, w: real)
    requires w > 0.0 && a <= b
    ensures Mul(a, w) <= Mul(b, w)
  {
  }

  lemma TruncOfMul(x: real, w: real)
    ensures TruncScale(x, w) == Trunc(Mul(x, w))
  {
  }

  /** Scaled, a near point truncates like one of the three samples. */
  lemma TruncScaleNear(a: real, b: real, r: real, w: real)
    requires Mul(r, w) == 0.75 && w > 0.0 && Near1(a, b, r)
    ensures TruncScale(b, w) in {TruncScale(a - r, w), TruncScale(a, w), TruncScale(a + r, w)}
  {
    hide Trunc, Mul, TruncScale;
    Distribute(a, r, w);
    MulKeepsOrder(a - r, b, w);
    MulKeepsOrder(b, a + r, w);
    TruncNear(Mul(a, w), Mul(b, w));
    TruncOfMul(a - r, w);
    TruncOfMul(a, w);
    TruncOfMul(a + r, w);
    TruncOfMul(b, w);
  }

  lemma Moves(a: real, r: real)
    ensures a + Times(0, r) == a && a + Times(-1, r) == a - r && a + Times(1, r) == a + r
  {
  }

  lemma AxisSampled(a: real, b: real, r: real, w: real) returns (i: int)
    requires Mul(r, w) == 0.75 && w > 0.0 && Near1(a, b, r)
    ensures Step3(i) && Scale32(b, w) == Scale32(a + Times(i, r), w)
  {
    hide TruncScale, Times, Wrap;
    TruncScaleNear(a, b, r, w);
    Moves(a, r);
    i := if TruncScale(b, w) == TruncScale(a, w) then 0
         else if TruncScale(b, w) == TruncScale(a - r, w) then -1 else 1;
  }

  /**
   The names returned are exactly the names of the cells of the points within three quarters
   of a cell edge of the position, on every axis.
   */
  lemma NeighbourhoodCovered(p: Vec, bias: int, s: string)
    ensures s in Around(p, bias) <==> exists q :: Near(p, q, bias) && s == CellName(q, bias)
  {
    if q :| Near(p, q, bias) && s == CellName(q, bias) {
      NearIsAround(p, q, bias);
    }
    if s in Around(p, bias) {
      var q :| q in BoxPoints(p, Reach(bias)) && s == CellName(q, bias);
      BoxPointsAreNear(p, Reach(bias), q);
    }
  }

  /** Near numbers have the value of `f` at one of the three samples. */
  ghost predicate Sampled(f: real -> int, r: real) {
    forall a, b :: Near1(a, b, r) ==>
      f(b) == f(a + Times(-1, r)) || f(b) == f(a + Times(0, r)) || f(b) == f(a + Times(1, r))
  }

  lemma AxisStep(f: real -> int, r: real, a: real, b: real) returns (i: int)
    requires Sampled(f, r) && Near1(a, b, r)
    ensures Step3(i) && f(a + Times(i, r)) == f(b)
  {
    i := if f(b) == f(a + Times(-1, r)) then -1 else if f(b) == f(a + Times(0, r)) then 0 else 1;
  }

  lemma SampleBy(p: Vec, q: Vec, f: real -> int, r: real) returns (i: int, j: int, k: int)
    requires Sampled(f, r) && NearBy(p, q, r)
    ensures Step3(i) && Step3(j) && Step3(k)
    ensures f(p.x + Times(i, r)) == f(q.x) && f(p.y + Times(j, r)) == f(q.y) && f(p.z + Times(k, r)) == f(q.z)
  {
    i := AxisStep(f, r, p.x, q.x);
    j := AxisStep(f, r, p.y, q.y);
    k := AxisStep(f, r, p.z, q.z);
  }

  function ScaleBy(w: real): real -> int { x => Scale32(x, w) }

  lemma ScaleIsSampled(r: real, w: real)
    requires Mul(r, w) == 0.75 && w > 0.0
    ensures Sampled(ScaleBy(w), r)
  {
    var f := ScaleBy(w);
    forall a, b | Near1(a, b, r)
      ensures f(b) == f(a + Times(-1, r)) || f(b) == f(a + Times(0, r)) || f(b) == f(a + Times(1, r))
    {
      var i := AxisSampled(a, b, r, w);
    }
  }

  lemma SameCell(m: Vec, q: Vec, bias: int)
    requires var f := ScaleBy(Pow2(-bias)); f(m.x) == f(q.x) && f(m.y) == f(q.y) && f(m.z) == f(q.z)
    ensures CellOf(m, bias) == CellOf(q, bias)
  {
  }

  lemma BoxIsSampled(bias: int)
    ensures Sampled(ScaleBy(Pow2(-bias)), Reach(bias))
  {
    ReachScaled(bias);
    ScaleIsSampled(Reach(bias), Pow2(-bias));
  }

  lemma SampleOfNear(p: Vec, q: Vec, bias: int) returns (m: Vec)
    requires Near(p, q, bias)
    ensures m in BoxPoints(p, Reach(bias)) && CellOf(m, bias) == CellOf(q, bias)
  {
    BoxIsSampled(bias);
    var i, j, k := SampleBy(p, q, ScaleBy(Pow2(-bias)), Reach(bias));
    m := Moved(p, Reach(bias), i, j, k);
    SameCell(m, q, bias);
  }

  lemma NearIsAround(p: Vec, q: Vec, bias: int)
    requires Near(p, q, bias)
    ensures CellName(q, bias) in Around(p, bias)
  {
    var m := SampleOfNear(p, q, bias);
    assert CellName(m, bias) in CellNames(BoxPoints(p, Reach(bias)), bias);
  }

  lemma OwnCellIsAround(p: Vec, bias: int)
    ensures CellName(p, bias) in Around(p, bias)
  {
    assert Near(p, p, bias);
    NearIsAround(p, p, bias);
  }
}
