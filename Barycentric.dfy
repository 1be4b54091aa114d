/**
  Barycentric coordinates of a query point with respect to a triangle
  (`block_1` of the exam project), computed with the shared-determinant
  formula, and what they mean: they sum to one, they rebuild the query
  point from the vertices, and they are the only weights that do.
 */
module Barycentric {

  /** A point of the plane; `x0` and `x1` are the source's `p[0]` and `p[1]`. */
  datatype Point = Point(x0: real, x1: real)

  /** The triple `(r1, r2, r3)` that `block_1` returns. */
  datatype Coords = Coords(r1: real, r2: real, r3: real)

  /** The shared denominator of `block_1`: twice the signed area of triangle abc. */
  function Det(a: Point, b: Point, c: Point): real
  {
    (b.x1 - c.x1) * (a.x0 - c.x0) + (c.x0 - b.x0) * (a.x1 - c.x1)
  }

  /** The three vertices do not lie on one line. */
  predicate NonDegenerate(a: Point, b: Point, c: Point)
  {
    Det(a, b, c) != 0.0
  }

  /** The weighted sum `r1*a + r2*b + r3*c`, component-wise. */
  function Combine(r: Coords, a: Point, b: Point, c: Point): Point
  {
    Point(r.r1 * a.x0 + r.r2 * b.x0 + r.r3 * c.x0,
          r.r1 * a.x1 + r.r2 * b.x1 + r.r3 * c.x1)
  }

  /** The weights are an affine combination: they sum to one. */
  predicate Affine(r: Coords)
  {
    r.r1 + r.r2 + r.r3 == 1.0
  }

  /** Every weight lies in [0,1], boundary included (the containment test of the source). */
  predicate InUnitRange(r: Coords)
  {
    0.0 <= r.r1 <= 1.0 && 0.0 <= r.r2 <= 1.0 && 0.0 <= r.r3 <= 1.0
  }

  /** `block_1(A, B, C, y)`. The source divides without a guard; the division is
      defined here only for a non-degenerate triangle. */
  function Block1(a: Point, b: Point, c: Point, y: Point): (r: Coords)
    requires NonDegenerate(a, b, c)
    ensures Affine(r)
  {
    var d := Det(a, b, c);
    var r1 := ((b.x1 - c.x1) * (y.x0 - c.x0) + (c.x0 - b.x0) * (y.x1 - c.x1)) / d;
    var r2 := ((c.x1 - a.x1) * (y.x0 - c.x0) + (a.x0 - c.x0) * (y.x1 - c.x1)) / d;
    Coords(r1, r2, 1.0 - r1 - r2)
  }

  /** The numerators of r1 and r2 are r1*Det and r2*Det. */
  lemma NumeratorsScale(a: Point, b: Point, c: Point, y: Point)
    requires NonDegenerate(a, b, c)
    ensures Block1(a, b, c, y).r1 * Det(a, b, c)
            == (b.x1 - c.x1) * (y.x0 - c.x0) + (c.x0 - b.x0) * (y.x1 - c.x1)
    ensures Block1(a, b, c, y).r2 * Det(a, b, c)
            == (c.x1 - a.x1) * (y.x0 - c.x0) + (a.x0 - c.x0) * (y.x1 - c.x1)
  {
  }

  /** Round trip: the coordinates rebuild the query point from the vertices. */
  lemma Reconstructs(a: Point, b: Point, c: Point, y: Point)
    requires NonDegenerate(a, b, c)
    ensures Combine(Block1(a, b, c, y), a, b, c) == y
  {
    var r := Block1(a, b, c, y);
    var d := Det(a, b, c);
    // vertices and query relative to c
    var p0, p1 := a.x0 - c.x0, a.x1 - c.x1;
    var q0, q1 := b.x0 - c.x0, b.x1 - c.x1;
    var u0, u1 := y.x0 - c.x0, y.x1 - c.x1;
    NumeratorsScale(a, b, c, y);
    assert d == q1 * p0 - q0 * p1;
    assert r.r1 * d == q1 * u0 - q0 * u1;
    assert r.r2 * d == p0 * u1 - p1 * u0;
    assert (r.r1 * p0 + r.r2 * q0) * d == u0 * d;
    assert (r.r1 * p1 + r.r2 * q1) * d == u1 * d;
    assert r.r1 * p0 + r.r2 * q0 == u0;
    assert r.r1 * p1 + r.r2 * q1 == u1;
  }

  /** Uniqueness: any affine weights that rebuild y are the ones `Block1` computes. */
  lemma Unique(a: Point, b: Point, c: Point, y: Point, s: Coords)
    requires NonDegenerate(a, b, c)
    requires Affine(s) && Combine(s, a, b, c) == y
    ensures Block1(a, b, c, y) == s
  {
    var r := Block1(a, b, c, y);
    var d := Det(a, b, c);
    var p0, p1 := a.x0 - c.x0, a.x1 - c.x1;
    var q0, q1 := b.x0 - c.x0, b.x1 - c.x1;
    var u0, u1 := y.x0 - c.x0, y.x1 - c.x1;
    NumeratorsScale(a, b, c, y);
    assert u0 == s.r1 * p0 + s.r2 * q0;
    assert u1 == s.r1 * p1 + s.r2 * q1;
    assert r.r1 * d == s.r1 * d;
    assert r.r2 * d == s.r2 * d;
  }

  /** The coordinates are characterised by the two facts above, in both directions. */
  lemma Characterisation(a: Point, b: Point, c: Point, y: Point, s: Coords)
    requires NonDegenerate(a, b, c)
    ensures Block1(a, b, c, y) == s <==> Affine(s) && Combine(s, a, b, c) == y
  {
    if Block1(a, b, c, y) == s {
      Reconstructs(a, b, c, y);
    }
    if Affine(s) && Combine(s, a, b, c) == y {
      Unique(a, b, c, y, s);
    }
  }

  /** At the vertices the coordinates are one-hot. */
  lemma AtVertices(a: Point, b: Point, c: Point)
    requires NonDegenerate(a, b, c)
    ensures Block1(a, b, c, a) == Coords(1.0, 0.0, 0.0)
    ensures Block1(a, b, c, b) == Coords(0.0, 1.0, 0.0)
    ensures Block1(a, b, c, c) == Coords(0.0, 0.0, 1.0)
  {
    assert Combine(Coords(1.0, 0.0, 0.0), a, b, c) == a;
    Unique(a, b, c, a, Coords(1.0, 0.0, 0.0));
    assert Combine(Coords(0.0, 1.0, 0.0), a, b, c) == b;
    Unique(a, b, c, b, Coords(0.0, 1.0, 0.0));
    assert Combine(Coords(0.0, 0.0, 1.0), a, b, c) == c;
    Unique(a, b, c, c, Coords(0.0, 0.0, 1.0));
  }

  /** y lies in the closed triangle abc: it is a convex combination of the vertices. */
  ghost predicate InClosedTriangle(a: Point, b: Point, c: Point, y: Point)
  {
    exists s: Coords :: Affine(s) && InUnitRange(s) && Combine(s, a, b, c) == y
  }

  /** The source's containment test (all three coordinates in [0,1]) decides
      exactly whether y is a convex combination of a non-degenerate triangle's vertices. */
  lemma ContainmentTest(a: Point, b: Point, c: Point, y: Point)
    requires NonDegenerate(a, b, c)
    ensures InUnitRange(Block1(a, b, c, y)) <==> InClosedTriangle(a, b, c, y)
  {
    var r := Block1(a, b, c, y);
    Reconstructs(a, b, c, y);
    if InClosedTriangle(a, b, c, y) {
      var s: Coords :| Affine(s) && InUnitRange(s) && Combine(s, a, b, c) == y;
      Unique(a, b, c, y, s);
    }
  }
}
