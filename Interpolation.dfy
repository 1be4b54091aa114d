/**
  Triangle containment and barycentric interpolation of `f(x) = x0*x1`
  (`check_y_in_tri`, `approx_f`, `func_4` and `relative_error` of `Model3`).

  The two candidate triangles are ABC and CDA, built from the quadrant points.
  A triangle is only tried when its three vertices are present. The source
  divides by the determinant without a guard; in floating point a zero
  determinant yields infinite or not-a-number coordinates, every comparison
  `0 <= r <= 1` on them is false, and the triangle does not contain y. The
  model spells that case out as `Degenerate`.
 */
module Interpolation {
  import opened Wrappers
  import opened Barycentric
  import opened Quadrants

  /** The sample function `self.f`; it vanishes exactly on the two axes. */
  function SampleF(p: Point): (v: real)
    ensures v == 0.0 <==> p.x0 == 0.0 || p.x1 == 0.0
  {
    p.x0 * p.x1
  }

  /** What the source holds in `r_ABC` (or `r_CDA`): `None` when a vertex is
      missing, non-finite numbers when the triangle is degenerate, else the coordinates. */
  datatype Solution = Missing | Degenerate | Solved(coords: Coords)

  /** Barycentric coordinates of y in triangle abc, if the three vertices exist:
      unset exactly when a vertex is missing, and otherwise, unless the triangle is
      flat, affine weights that rebuild y. */
  function Solve(a: Option<Point>, b: Option<Point>, c: Option<Point>, y: Point): (s: Solution)
    ensures s.Missing? <==> a.None? || b.None? || c.None?
    ensures s.Degenerate? <==> !s.Missing? && !NonDegenerate(a.value, b.value, c.value)
    ensures s.Solved? ==> Affine(s.coords) && Combine(s.coords, a.value, b.value, c.value) == y
  {
    if a.None? || b.None? || c.None? then Missing
    else if !NonDegenerate(a.value, b.value, c.value) then Degenerate
    else
      Reconstructs(a.value, b.value, c.value, y);
      Solved(Block1(a.value, b.value, c.value, y))
  }

  /** The containment test on a solution: coordinates exist and all lie in [0,1]. */
  predicate Contains(s: Solution)
  {
    s.Solved? && InUnitRange(s.coords)
  }

  /** The dictionary that `check_y_in_tri` returns. */
  datatype TriangleCheck = TriangleCheck(
    inABC: bool, inCDA: bool,
    rABC: Solution, rCDA: Solution,
    yABC: Option<Point>, yCDA: Option<Point>)

  /** The point rebuilt from the coordinates, as `y_ABC` / `y_CDA`, when y is inside. */
  function Rebuilt(s: Solution, a: Option<Point>, b: Option<Point>, c: Option<Point>): Option<Point>
  {
    if Contains(s) && a.Some? && b.Some? && c.Some? then Some(Combine(s.coords, a.value, b.value, c.value))
    else None
  }

  /** `check_y_in_tri` on the corners `k` (the fields A, B, C, D) and the query y:
      a flag is set only when that triangle's coordinates exist and lie in [0,1],
      and then the point rebuilt from them is y itself. */
  function CheckTriangles(k: Corners, y: Point): (r: TriangleCheck)
    ensures r.rABC.Missing? <==> k.a.None? || k.b.None? || k.c.None?
    ensures r.rCDA.Missing? <==> k.c.None? || k.d.None? || k.a.None?
    ensures r.inABC <==> r.rABC.Solved? && InUnitRange(r.rABC.coords)
    ensures r.inCDA <==> r.rCDA.Solved? && InUnitRange(r.rCDA.coords)
    ensures r.yABC.Some? <==> r.inABC
    ensures r.yCDA.Some? <==> r.inCDA
    ensures r.yABC.Some? ==> r.yABC.value == y
    ensures r.yCDA.Some? ==> r.yCDA.value == y
  {
    var rABC := Solve(k.a, k.b, k.c, y);
    var rCDA := Solve(k.c, k.d, k.a, y);
    TriangleCheck(Contains(rABC), Contains(rCDA), rABC, rCDA,
                  Rebuilt(rABC, k.a, k.b, k.c), Rebuilt(rCDA, k.c, k.d, k.a))
  }

  /** y lies in the closed, non-degenerate triangle with these (present) vertices. */
  ghost predicate InsideTriangle(a: Option<Point>, b: Option<Point>, c: Option<Point>, y: Point)
  {
    && a.Some? && b.Some? && c.Some?
    && NonDegenerate(a.value, b.value, c.value)
    && InClosedTriangle(a.value, b.value, c.value, y)
  }

  /** One triangle's part of the check: the coordinates stay unset exactly when a
      vertex is missing, the flag is set exactly when y is a convex combination of
      the vertices of a non-degenerate triangle, and the rebuilt point is y itself. */
  lemma SolveSound(a: Option<Point>, b: Option<Point>, c: Option<Point>, y: Point)
    ensures Solve(a, b, c, y).Missing? <==> a.None? || b.None? || c.None?
    ensures Solve(a, b, c, y).Solved? ==> Affine(Solve(a, b, c, y).coords)
    ensures Contains(Solve(a, b, c, y)) <==> InsideTriangle(a, b, c, y)
    ensures Rebuilt(Solve(a, b, c, y), a, b, c).Some? <==> Contains(Solve(a, b, c, y))
    ensures Rebuilt(Solve(a, b, c, y), a, b, c).Some? ==> Rebuilt(Solve(a, b, c, y), a, b, c).value == y
  {
    if a.Some? && b.Some? && c.Some? && NonDegenerate(a.value, b.value, c.value) {
      ContainmentTest(a.value, b.value, c.value, y);
      Reconstructs(a.value, b.value, c.value, y);
    }
  }

  /** `check_y_in_tri`: `in_triangle_ABC` holds iff A, B, C are present and y lies
      in the closed non-degenerate triangle ABC; `r_ABC` stays unset iff a vertex is
      missing; `y_ABC` is set iff y is inside and then equals y. Likewise for CDA
      with the vertex order (C, D, A). */
  lemma CheckTrianglesSound(k: Corners, y: Point)
    ensures var r := CheckTriangles(k, y);
      && (r.inABC <==> InsideTriangle(k.a, k.b, k.c, y))
      && (r.inCDA <==> InsideTriangle(k.c, k.d, k.a, y))
      && (r.rABC.Missing? <==> k.a.None? || k.b.None? || k.c.None?)
      && (r.rCDA.Missing? <==> k.c.None? || k.d.None? || k.a.None?)
      && (r.yABC.Some? <==> r.inABC) && (r.yABC.Some? ==> r.yABC.value == y)
      && (r.yCDA.Some? <==> r.inCDA) && (r.yCDA.Some? ==> r.yCDA.value == y)
  {
    SolveSound(k.a, k.b, k.c, y);
    SolveSound(k.c, k.d, k.a, y);
  }

  /** The triple that `approx_f` returns: the approximation (absent where the
      source has `NaN`), the true value and their absolute difference. */
  datatype Approximation = Approximation(fy: Option<real>, trueValue: real, diff: Option<real>)

  /** The barycentric-weighted sum of f at the vertices. */
  function Weighted(r: Coords, a: Point, b: Point, c: Point): real
  {
    r.r1 * SampleF(a) + r.r2 * SampleF(b) + r.r3 * SampleF(c)
  }

  /** `abs` on a real. */
  function Abs(x: real): (r: real)
    ensures r >= 0.0 && (r == x || r == -x)
  {
    if x < 0.0 then -x else x
  }

  /** `approx_f` on the corners `k` and the query y: an approximation exists
      exactly when the test puts y in one of the two triangles, the difference
      exists with it, is never negative, and is zero exactly when the
      approximation is exact. */
  function Approximate(k: Corners, y: Point): (r: Approximation)
    ensures r.fy.Some? <==> CheckTriangles(k, y).inABC || CheckTriangles(k, y).inCDA
    ensures r.diff.Some? <==> r.fy.Some?
    ensures r.fy.Some? ==> r.diff.value >= 0.0 && (r.diff.value == 0.0 <==> r.fy.value == r.trueValue)
  {
    var check := CheckTriangles(k, y);
    var fABC := if check.inABC then Some(Weighted(check.rABC.coords, k.a.value, k.b.value, k.c.value)) else None;
    var fCDA := if check.inCDA then Some(Weighted(check.rCDA.coords, k.c.value, k.d.value, k.a.value)) else None;
    var fy := if fABC.Some? then fABC else fCDA;
    var trueValue := SampleF(y);
    var diff := if fy.Some? then Some(Abs(fy.value - trueValue)) else None;
    Approximation(fy, trueValue, diff)
  }

  /** v is no less than the least and no greater than the greatest of three values. */
  predicate Between(v: real, f1: real, f2: real, f3: real)
  {
    (v >= f1 || v >= f2 || v >= f3) && (v <= f1 || v <= f2 || v <= f3)
  }

  /** The product of two non-negative reals is non-negative; called with the
      terms of a convex combination, which the solver does not relate unaided. */
  lemma ProductNonNegative(x: real, z: real)
    requires x >= 0.0 && z >= 0.0
    ensures x * z >= 0.0
  {
  }

  /** A convex combination of three values lies between their least and greatest. */
  lemma ConvexBetween(r: Coords, f1: real, f2: real, f3: real)
    requires Affine(r) && InUnitRange(r)
    ensures Between(r.r1 * f1 + r.r2 * f2 + r.r3 * f3, f1, f2, f3)
  {
    var v := r.r1 * f1 + r.r2 * f2 + r.r3 * f3;
    var lo := if f1 <= f2 && f1 <= f3 then f1 else if f2 <= f3 then f2 else f3;
    var hi := if f1 >= f2 && f1 >= f3 then f1 else if f2 >= f3 then f2 else f3;
    ProductNonNegative(r.r1, f1 - lo);
    ProductNonNegative(r.r2, f2 - lo);
    ProductNonNegative(r.r3, f3 - lo);
    assert v - lo == r.r1 * (f1 - lo) + r.r2 * (f2 - lo) + r.r3 * (f3 - lo);
    ProductNonNegative(r.r1, hi - f1);
    ProductNonNegative(r.r2, hi - f2);
    ProductNonNegative(r.r3, hi - f3);
    assert hi - v == r.r1 * (hi - f1) + r.r2 * (hi - f2) + r.r3 * (hi - f3);
  }

  /** `approx_f` prefers ABC: when y is in ABC the approximation is the weighted
      sum over ABC, even if y is also in CDA; otherwise, when y is in CDA, the one
      over CDA; otherwise there is none. */
  lemma ApproximateChoice(k: Corners, y: Point)
    ensures var r := Approximate(k, y);
      && (InsideTriangle(k.a, k.b, k.c, y) ==>
            r.fy == Some(Weighted(Block1(k.a.value, k.b.value, k.c.value, y), k.a.value, k.b.value, k.c.value)))
      && (!InsideTriangle(k.a, k.b, k.c, y) && InsideTriangle(k.c, k.d, k.a, y) ==>
            r.fy == Some(Weighted(Block1(k.c.value, k.d.value, k.a.value, y), k.c.value, k.d.value, k.a.value)))
      && (r.fy.Some? <==> InsideTriangle(k.a, k.b, k.c, y) || InsideTriangle(k.c, k.d, k.a, y))
  {
    var check := CheckTriangles(k, y);
    var fy := Approximate(k, y).fy;
    CheckTrianglesSound(k, y);
    if check.inABC {
      assert check.rABC == Solved(Block1(k.a.value, k.b.value, k.c.value, y));
      assert fy == Some(Weighted(check.rABC.coords, k.a.value, k.b.value, k.c.value));
    } else if check.inCDA {
      assert check.rCDA == Solved(Block1(k.c.value, k.d.value, k.a.value, y));
      assert fy == Some(Weighted(check.rCDA.coords, k.c.value, k.d.value, k.a.value));
    } else {
      assert fy == None;
    }
  }

  /** The reported difference is `|approx - true|` against `f(y)`, taken with the
      weighted sum of the triangle `approx_f` chose (ABC first, then CDA), and it
      is present exactly when y lies in one of the two triangles. */
  lemma ApproximateError(k: Corners, y: Point)
    ensures var r := Approximate(k, y);
      && (r.diff.Some? <==> InsideTriangle(k.a, k.b, k.c, y) || InsideTriangle(k.c, k.d, k.a, y))
      && (InsideTriangle(k.a, k.b, k.c, y) ==>
            r.diff == Some(Abs(Weighted(Block1(k.a.value, k.b.value, k.c.value, y), k.a.value, k.b.value, k.c.value) - y.x0 * y.x1)))
      && (!InsideTriangle(k.a, k.b, k.c, y) && InsideTriangle(k.c, k.d, k.a, y) ==>
            r.diff == Some(Abs(Weighted(Block1(k.c.value, k.d.value, k.a.value, y), k.c.value, k.d.value, k.a.value) - y.x0 * y.x1)))
  {
    ApproximateChoice(k, y);
    DiffFollowsApproximation(k, y);
  }

  /** The difference is taken from the approximation and the true value `f(y)`. */
  lemma DiffFollowsApproximation(k: Corners, y: Point)
    ensures var r := Approximate(k, y);
      r.diff == if r.fy.Some? then Some(Abs(r.fy.value - y.x0 * y.x1)) else None
  {
    var r := Approximate(k, y);
    assert r.trueValue == SampleF(y) == y.x0 * y.x1;
  }

  /** A weighted sum of f with convex weights stays within f's vertex values. */
  lemma WeightedBetween(r: Coords, a: Point, b: Point, c: Point)
    requires Affine(r) && InUnitRange(r)
    ensures Between(Weighted(r, a, b, c), SampleF(a), SampleF(b), SampleF(c))
  {
    ConvexBetween(r, SampleF(a), SampleF(b), SampleF(c));
  }

  /** The sum over a triangle y lies in, when y lies in it. */
  lemma WeightedWithin(a: Option<Point>, b: Option<Point>, c: Option<Point>, y: Point)
    requires Contains(Solve(a, b, c, y))
    ensures a.Some? && b.Some? && c.Some?
    ensures Between(Weighted(Solve(a, b, c, y).coords, a.value, b.value, c.value),
                    SampleF(a.value), SampleF(b.value), SampleF(c.value))
  {
    SolveSound(a, b, c, y);
    WeightedBetween(Solve(a, b, c, y).coords, a.value, b.value, c.value);
  }

  /** An approximation never leaves the range of f over the vertices of the
      triangle it was taken from. */
  lemma ApproxWithinVertexValues(k: Corners, y: Point)
    ensures var check := CheckTriangles(k, y);
      var v := Approximate(k, y).fy;
      && (check.inABC ==> v.Some? && Between(v.value, SampleF(k.a.value), SampleF(k.b.value), SampleF(k.c.value)))
      && (!check.inABC && check.inCDA ==> v.Some? && Between(v.value, SampleF(k.c.value), SampleF(k.d.value), SampleF(k.a.value)))
  {
    var check := CheckTriangles(k, y);
    if check.inABC {
      WeightedWithin(k.a, k.b, k.c, y);
    } else if check.inCDA {
      WeightedWithin(k.c, k.d, k.a, y);
    }
  }

  /** One evaluation of the pipeline for a query y: the quadrant points of y in X,
      then `approx_f` on them. */
  function Evaluate(X: seq<Point>, y: Point): Approximation
  {
    Approximate(Block2(X, y), y)
  }

  /** Each query paired with g of it, in input order. */
  function Pairs<T>(Ys: seq<Point>, g: Point -> T): (r: seq<(Point, T)>)
    ensures |r| == |Ys|
  {
    if Ys == [] then []
    else Pairs(Ys[..|Ys| - 1], g) + [(Ys[|Ys| - 1], g(Ys[|Ys| - 1]))]
  }

  /** Entry i of the pairs is query i paired with g of it. */
  lemma {:induction false} PairsAt<T>(Ys: seq<Point>, g: Point -> T, i: nat)
    requires i < |Ys|
    ensures Pairs(Ys, g)[i] == (Ys[i], g(Ys[i]))
  {
    var n := |Ys| - 1;
    if i < n {
      PairsAt(Ys[..n], g, i);
      assert Ys[..n][i] == Ys[i];
    }
  }

  /** Extending the queries by one extends the pairs by one. */
  lemma PairsSnoc<T>(Ys: seq<Point>, g: Point -> T, i: nat)
    requires i < |Ys|
    ensures Pairs(Ys[..i + 1], g) == Pairs(Ys[..i], g) + [(Ys[i], g(Ys[i]))]
  {
    assert Ys[..i + 1][..i] == Ys[..i];
  }

  /** The evaluation of one query against the cloud X, as a function value. */
  function Evaluator(X: seq<Point>): Point -> Approximation
  {
    q => Evaluate(X, q)
  }

  /** The evaluator applied to a query is `approx_f` on that query's quadrant points. */
  lemma EvaluatorAt(X: seq<Point>, q: Point)
    ensures Evaluator(X)(q) == Approximate(Block2(X, q), q)
  {
  }

  /** Entry i of a batch over the cloud X is query i with its own evaluation. */
  lemma BatchAt(X: seq<Point>, Ys: seq<Point>, i: nat)
    requires i < |Ys|
    ensures Pairs(Ys, Evaluator(X))[i] == (Ys[i], Evaluate(X, Ys[i]))
  {
    PairsAt(Ys, Evaluator(X), i);
  }

  /** `diff_true / true_value`; absent where the float result is not a number or
      infinite: the difference is itself `NaN`, or the true value is zero. */
  function Ratio(r: Approximation): (e: Option<real>)
    ensures e.Some? <==> r.diff.Some? && r.trueValue != 0.0
    ensures e.Some? ==> e.value * r.trueValue == r.diff.value
  {
    if r.diff.Some? && r.trueValue != 0.0 then Some(r.diff.value / r.trueValue) else None
  }

  /** `Model3`: a fixed cloud X, the current query y, its quadrant points A..D and
      the values F of f over the cloud. */
  class Model3 {
    var X: seq<Point>
    var y: Point
    var A: Option<Point>
    var B: Option<Point>
    var C: Option<Point>
    var D: Option<Point>
    var F: seq<real>

    /** The quadrant points belong to the current query, and F holds f over X. */
    ghost predicate Valid()
      reads this
    {
      Located(X, y, Corners(A, B, C, D)) && Sampled(X, F)
    }

    /** k holds the quadrant points of y in X. */
    static ghost predicate Located(X: seq<Point>, y: Point, k: Corners)
    {
      k == Block2(X, y)
    }

    /** F holds f at every point of X. */
    static ghost predicate Sampled(X: seq<Point>, F: seq<real>)
    {
      |F| == |X| && forall i :: 0 <= i < |X| ==> F[i] == SampleF(X[i])
    }

    /** `__init__`, with the sampled cloud and query passed in. */
    constructor (X: seq<Point>, y: Point)
      ensures this.X == X && this.y == y && Valid()
    {
      this.X := X;
      this.y := y;
      var k := Block2(X, y);
      A, B, C, D := k.a, k.b, k.c, k.d;
      F := seq(|X|, i requires 0 <= i < |X| => SampleF(X[i]));
    }

    /** `func_4`: one `(y, approx_f)` pair per query, in input order, each
        computed for that query's own quadrant points; the object's fields are
        as they were before the call. */
    method Func4(Ys: seq<Point>) returns (results: seq<(Point, Approximation)>)
      requires Valid()
      modifies this
      ensures Valid()
      ensures results == Pairs(Ys, Evaluator(X))
      ensures X == old(X) && F == old(F) && y == old(y)
      ensures A == old(A) && B == old(B) && C == old(C) && D == old(D)
    {
      var priorY := y;
      var priorA, priorB, priorC, priorD := A, B, C, D;
      results := [];
      for i := 0 to |Ys|
        invariant X == old(X) && F == old(F) && Valid()
        invariant results == Pairs(Ys[..i], Evaluator(X))
      {
        var r := Query(Ys[i]);
        PairsSnoc(Ys, Evaluator(X), i);
        results := results + [(Ys[i], r)];
      }
      assert Ys[..|Ys|] == Ys;
      y := priorY;
      A, B, C, D := priorA, priorB, priorC, priorD;
    }

    /** One round of the loop of `func_4`: make q the current query, recompute
        its quadrant points and run `approx_f` on them. */
    method Query(q: Point) returns (r: Approximation)
      requires Valid()
      modifies this
      ensures Valid()
      ensures X == old(X) && F == old(F)
      ensures y == q && Corners(A, B, C, D) == Block2(X, q)
      ensures r == Evaluator(X)(q)
    {
      y := q;
      var k := Block2(X, y);
      A, B, C, D := k.a, k.b, k.c, k.d;
      assert Corners(A, B, C, D) == Block2(X, q);
      r := ApproxF();
      EvaluatorAt(X, q);
    }

    /** `approx_f`, on the object's current query and quadrant points. */
    method ApproxF() returns (r: Approximation)
      ensures r == Approximate(Corners(A, B, C, D), y)
      ensures Valid() ==> r == Evaluate(X, y)
    {
      r := Approximate(Corners(A, B, C, D), y);
    }

    /** `relative_error`: one `(y, diff/true)` entry per input entry, in order. */
    method RelativeError(results4: seq<(Point, Approximation)>) returns (errors: seq<(Point, Option<real>)>)
      ensures |errors| == |results4|
      ensures forall i :: 0 <= i < |results4| ==> errors[i].0 == results4[i].0
      ensures forall i :: 0 <= i < |results4| ==> errors[i].1 == Ratio(results4[i].1)
    {
      errors := [];
      for i := 0 to |results4|
        invariant |errors| == i
        invariant forall j :: 0 <= j < i ==> errors[j] == (results4[j].0, Ratio(results4[j].1))
      {
        var (y, approx) := results4[i];
        errors := errors + [(y, Ratio(approx))];
      }
    }
  }
}
