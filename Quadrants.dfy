/**
  The quadrant search of the exam project (`block_2`): for each of the four
  open quadrants around a query point, the cloud point closest to it, or
  nothing when the quadrant holds no point of the cloud.
 */
module Quadrants {
  import opened Wrappers
  import opened Barycentric

  /** A (north-east), B (south-east), C (south-west) and D (north-west). */
  datatype Quadrant = NE | SE | SW | NW

  /** p lies strictly inside quadrant q around y; points on y's axis lines lie in none. */
  predicate InQuadrant(p: Point, y: Point, q: Quadrant)
  {
    match q
    case NE => p.x0 > y.x0 && p.x1 > y.x1
    case SE => p.x0 > y.x0 && p.x1 < y.x1
    case SW => p.x0 < y.x0 && p.x1 < y.x1
    case NW => p.x0 < y.x0 && p.x1 > y.x1
  }

  /** Squared Euclidean distance; it orders points as the distance itself does. */
  function SqDist(p: Point, y: Point): real
  {
    (p.x0 - y.x0) * (p.x0 - y.x0) + (p.x1 - y.x1) * (p.x1 - y.x1)
  }

  /** Index i is the first of the closest points of X in quadrant q: it is in the
      quadrant, no point of X in the quadrant is closer, and every earlier point
      in the quadrant is strictly farther. */
  ghost predicate IsFirstNearest(X: seq<Point>, y: Point, q: Quadrant, i: nat)
  {
    && i < |X|
    && InQuadrant(X[i], y, q)
    && (forall j :: 0 <= j < |X| && InQuadrant(X[j], y, q) ==> SqDist(X[i], y) <= SqDist(X[j], y))
    && (forall j :: 0 <= j < i && InQuadrant(X[j], y, q) ==> SqDist(X[i], y) < SqDist(X[j], y))
  }

  /** Some point of X lies in quadrant q. */
  ghost predicate Occupied(X: seq<Point>, y: Point, q: Quadrant)
  {
    exists j :: 0 <= j < |X| && InQuadrant(X[j], y, q)
  }

  /** Python's `min(generator, key=distance, default=None)` as a left-to-right
      scan: a later point replaces the current best only when strictly closer.
      The result is the index of the chosen point. */
  function NearestIndex(X: seq<Point>, y: Point, q: Quadrant): (r: Option<nat>)
    ensures r.Some? <==> Occupied(X, y, q)
    ensures r.Some? ==> IsFirstNearest(X, y, q, r.value)
    decreases |X|
  {
    if |X| == 0 then None
    else
      var n := |X| - 1;
      var best := NearestIndex(X[..n], y, q);
      assert forall j :: 0 <= j < n ==> X[..n][j] == X[j];
      if !InQuadrant(X[n], y, q) then best
      else if best.None? || SqDist(X[n], y) < SqDist(X[best.value], y) then Some(n)
      else best
  }

  /** There is only one first-nearest index, so it is the one `NearestIndex` finds. */
  lemma FirstNearestUnique(X: seq<Point>, y: Point, q: Quadrant, i: nat)
    requires IsFirstNearest(X, y, q, i)
    ensures NearestIndex(X, y, q) == Some(i)
  {
    var k := NearestIndex(X, y, q).value;
    assert IsFirstNearest(X, y, q, k);
    assert SqDist(X[i], y) <= SqDist(X[k], y) <= SqDist(X[i], y);
  }

  /** The point chosen in one quadrant (the `min(...)` line of `block_2`), absent
      when the quadrant is empty. */
  function Nearest(X: seq<Point>, y: Point, q: Quadrant): (r: Option<Point>)
    ensures r.None? <==> !Occupied(X, y, q)
    ensures r.Some? ==> exists i: nat :: IsFirstNearest(X, y, q, i) && X[i] == r.value
  {
    match NearestIndex(X, y, q)
    case None => None
    case Some(i) => Some(X[i])
  }

  /** The four points `A, B, C, D` that `block_2` returns. */
  datatype Corners = Corners(a: Option<Point>, b: Option<Point>, c: Option<Point>, d: Option<Point>)

  /** `block_2(X, y)`: the four points, each strictly inside its own quadrant. */
  function Block2(X: seq<Point>, y: Point): (r: Corners)
    ensures r.a.Some? ==> InQuadrant(r.a.value, y, NE)
    ensures r.b.Some? ==> InQuadrant(r.b.value, y, SE)
    ensures r.c.Some? ==> InQuadrant(r.c.value, y, SW)
    ensures r.d.Some? ==> InQuadrant(r.d.value, y, NW)
  {
    Corners(Nearest(X, y, NE), Nearest(X, y, SE), Nearest(X, y, SW), Nearest(X, y, NW))
  }

  /** Each of the four points is a point of X, and it is absent exactly when its
      quadrant holds no point of X. */
  lemma Block2Sound(X: seq<Point>, y: Point)
    ensures var r := Block2(X, y);
      && (r.a.Some? ==> r.a.value in X) && (r.b.Some? ==> r.b.value in X)
      && (r.c.Some? ==> r.c.value in X) && (r.d.Some? ==> r.d.value in X)
      && (r.a.None? <==> !Occupied(X, y, NE)) && (r.b.None? <==> !Occupied(X, y, SE))
      && (r.c.None? <==> !Occupied(X, y, SW)) && (r.d.None? <==> !Occupied(X, y, NW))
  {
  }

  /** A point of X that sits on one of y's axis lines is never returned. */
  lemma AxisPointsNeverChosen(X: seq<Point>, y: Point, q: Quadrant)
    ensures Nearest(X, y, q).Some? ==> Nearest(X, y, q).value.x0 != y.x0 && Nearest(X, y, q).value.x1 != y.x1
  {
    if Nearest(X, y, q).Some? {
      var i := NearestIndex(X, y, q).value;
      assert InQuadrant(X[i], y, q);
    }
  }

  /** No point of X in the same quadrant is strictly closer to y than the chosen
      one, and every point of the quadrant listed before it is strictly farther. */
  lemma NearestIsClosest(X: seq<Point>, y: Point, q: Quadrant, j: nat)
    requires j < |X| && InQuadrant(X[j], y, q)
    ensures Nearest(X, y, q).Some?
    ensures SqDist(Nearest(X, y, q).value, y) <= SqDist(X[j], y)
    ensures NearestIndex(X, y, q).value > j ==> SqDist(Nearest(X, y, q).value, y) < SqDist(X[j], y)
  {
    var i := NearestIndex(X, y, q).value;
    assert IsFirstNearest(X, y, q, i);
  }
}
