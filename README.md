# Barycentric nearest-quadrant interpolation and Cobb-Douglas demand

This project models two parts of an economics coursework repository in Dafny.

**The interpolator of the exam project.** It appears twice: as the free functions of
`examproject/exam.py` and as the class `Model3` of `examproject/examp3.py`. Both
copies share one model.

- `block_2` looks at a cloud of points `X` around a query point `y`. In each of the
  four open quadrants it picks the closest point. The quadrants are A (north-east),
  B (south-east), C (south-west) and D (north-west). An empty quadrant gives no point.
- `block_1` computes the barycentric coordinates of `y` in a triangle. It uses the
  shared-determinant formula.
- `check_y_in_tri` tests whether `y` lies in triangle ABC or triangle CDA.
- `approx_f` interpolates `f(x) = x0*x1` from the vertices. It prefers ABC.
- `func_4` runs this for a list of query points and restores the object's fields
  afterwards.
- `relative_error` divides each difference by its true value.

**The exchange economy of the inaugural project.** `MarketModel` holds fixed
parameters. `demand_A` and `demand_B` are the closed-form Cobb-Douglas demands of
the two consumers.

Modules:

- `Wrappers` (Wrappers.dfy): `Option`. It stands in for the source's `NaN` and
  `None` sentinels.
- `Barycentric` (Barycentric.dfy): points, `block_1`, and the facts about it.
  The coordinates sum to one, they rebuild `y`, they are the only weights that do,
  and the `[0,1]` test decides membership in the closed triangle.
- `Quadrants` (Quadrants.dfy): `block_2`. The `min(...)` scan is a left-to-right
  fold, and it is proved to return the first closest point of each quadrant.
- `Interpolation` (Interpolation.dfy): `check_y_in_tri`, `approx_f`, and the class
  `Model3` with `func_4` and `relative_error`.
- `Exchange` (Exchange.dfy): the parameters, the two demands, budget exhaustion,
  Walras' law and positivity.

Modelling choices:

- Numbers are exact `real`s, not floats.
- Distances are compared squared instead of through `np.linalg.norm`. The square
  root is monotone, so both choose the same point.
- Python's `min` keeps the first of several equally close points. The model keeps
  the earliest index in `X` the same way.
- `block_1` requires a non-zero determinant, because its division has no guard.
  In `check_y_in_tri` the source runs that division in numpy floats. A zero
  determinant there gives infinite or not-a-number coordinates. Every
  `0 <= r <= 1` comparison on such values is false, so the triangle does not
  contain `y`. The model writes this case out as `Degenerate` and needs no
  precondition.
- `relative_error` divides by the true value without a guard. In numpy that gives a
  non-finite result when the true value is zero or the difference is `NaN`. The
  model returns `None` for both cases. It does not require a non-zero true value.

## Model

| member | source | states |
|---|---|---|
| Barycentric.Block1 | examproject/exam.py:9-14 | for a non-degenerate triangle the three coordinates sum to exactly 1 |
| Barycentric.Reconstructs | examproject/exam.py:10-13 | with a non-zero determinant, r1·A + r2·B + r3·C equals y component-wise |
| Barycentric.Unique | examproject/examp3.py:25-30 | any weights that sum to 1 and rebuild y are exactly the coordinates `block_1` returns |
| Barycentric.Characterisation | examproject/examp3.py:25-30 | `block_1` returns s iff s sums to 1 and s rebuilds y (both directions) |
| Barycentric.AtVertices | examproject/exam.py:10-13 | at the vertices the coordinates are one-hot: y = A gives (1,0,0), y = B gives (0,1,0), y = C gives (0,0,1) |
| Barycentric.ContainmentTest | examproject/examp3.py:59 | all three coordinates lie in [0,1] iff y is a convex combination of the triangle's vertices |
| Quadrants.NearestIndex | examproject/exam.py:17-20 | the scan returns an index iff the open quadrant holds a point of X; that point is in the quadrant, no point of the quadrant is closer, and every earlier point of the quadrant is strictly farther (ties go to the earliest) |
| Quadrants.FirstNearestUnique | examproject/examp3.py:34-37 | any index that is a first closest point of the quadrant is the one the scan returns |
| Quadrants.Nearest | examproject/exam.py:17-29 | the result is absent exactly when no point of X lies strictly in the quadrant; otherwise it is the point of X at a first closest index |
| Quadrants.Block2 | examproject/examp3.py:33-47 | each of A, B, C, D that is present lies strictly inside its own quadrant of y (NE, SE, SW, NW) |
| Quadrants.Block2Sound | examproject/examp3.py:33-47 | each of A, B, C, D that is present is a point of X, and each is absent (`NaN`) exactly when its quadrant holds no point of X |
| Quadrants.AxisPointsNeverChosen | examproject/exam.py:17-20 | a chosen point never shares a coordinate with y, so points on y's axis lines are never chosen |
| Quadrants.NearestIsClosest | examproject/examp3.py:34-37 | if a point of X lies in the quadrant then a point is returned; it is no farther from y than that point, and strictly closer if that point comes earlier in X |
| Interpolation.SampleF | examproject/examp3.py:14 | f(x) = x0·x1 is zero exactly when x lies on one of the two axes |
| Interpolation.Solve | examproject/examp3.py:57-58 | the coordinates are unset iff one of the three vertices is missing; they are degenerate iff the vertices are present and collinear; otherwise they are weights summing to 1 that rebuild y |
| Interpolation.CheckTriangles | examproject/examp3.py:50-88 | `r_ABC` is unset iff A, B or C is missing; `in_triangle_ABC` holds iff the coordinates exist and all three lie in [0,1]; `y_ABC` is set iff `in_triangle_ABC` holds, and it then equals y; the same for CDA with vertex order (C, D, A) |
| Interpolation.Approximate | examproject/examp3.py:126-156 | an approximation exists iff one of the two triangle flags is set; the difference exists iff the approximation does, is never negative, and is zero iff the approximation equals the true value |
| Interpolation.SolveSound | examproject/examp3.py:57-61 | one triangle's test: the coordinates stay unset iff a vertex is missing; containment holds iff the vertices exist, are not collinear and y is in the closed triangle; the rebuilt point exists iff y is inside and then equals y |
| Interpolation.CheckTrianglesSound | examproject/examp3.py:50-88 | `in_triangle_ABC` iff A, B, C are present and y lies in the closed non-degenerate triangle ABC; `r_ABC` is unset iff a vertex is missing; `y_ABC` is set iff y is inside and then equals y; the same for CDA with vertex order (C, D, A) |
| Interpolation.ApproximateChoice | examproject/examp3.py:129-144 | the approximation is the ABC-weighted sum when y is in ABC (even if also in CDA), else the CDA-weighted sum when y is in CDA, and it exists iff y is in one of the two triangles |
| Interpolation.ApproximateError | examproject/examp3.py:129-150 | the difference exists iff y lies in the closed triangle ABC or CDA; it is \|ABC-weighted sum of the vertex values − y0·y1\| when y is in ABC, and the same with the CDA weights when y is in CDA but not in ABC |
| Interpolation.ApproxWithinVertexValues | examproject/examp3.py:132-144 | the approximation lies between the least and the greatest value of f at the vertices of the triangle it comes from |
| Interpolation.Ratio | examproject/examp3.py:176 | the relative error exists iff the difference exists and the true value is non-zero, and then relative error × true value = difference |
| Interpolation.Model3.constructor | examproject/examp3.py:10-15 | stores X and y, sets A..D to the quadrant points of y, and F to f over X |
| Interpolation.Model3.Func4 | examproject/examp3.py:159-171 | the result is the list of (y, approximation) pairs, one per query in input order, each evaluated on that query's own quadrant points; on return y, A, B, C, D, X and F equal their values before the call, so the object's invariant (A..D are y's quadrant points, F is f over X) still holds |
| Interpolation.Model3.Query | examproject/examp3.py:164-167 | after one round of the loop, y is the new query, A..D are its quadrant points in X, X and F are untouched so the object's invariant holds, and the result is that query's evaluation |
| Interpolation.Model3.ApproxF | examproject/examp3.py:126-156 | the result is the approximation on the object's current y and A..D; when the object's invariant holds, that is the evaluation of y against X |
| Interpolation.BatchAt | examproject/examp3.py:163-168 | entry i of the batch result pairs query i with the approximation on its own quadrant points |
| Interpolation.PairsAt | examproject/examp3.py:168 | entry i of the appended list holds query i and its result |
| Interpolation.Model3.RelativeError | examproject/examp3.py:173-178 | one entry per input entry, in the same order, each pairing the input's y with its relative error |
| Exchange.Init | inauguralproject/inauguralproject.py:5-27 | B's endowment is the complement of A's, the totals are w1 = w2 = 1, the shares lie in (0,1) and all endowments are positive |
| Exchange.DemandA | inauguralproject/inauguralproject.py:39-42 | A spends share alpha of income on good 1 and 1 − alpha on good 2: p1·x1 = alpha·I and p2·x2 = (1 − alpha)·I |
| Exchange.DemandB | inauguralproject/inauguralproject.py:45-48 | B spends share beta of income on good 1 and 1 − beta on good 2 |
| Exchange.BudgetA | inauguralproject/inauguralproject.py:39-42 | A's bundle costs exactly its endowment's value: p1·x1 + p2·x2 = p1·w1A + p2·w2A |
| Exchange.BudgetB | inauguralproject/inauguralproject.py:45-48 | B's bundle costs exactly its endowment's value: p1·x1 + p2·x2 = p1·w1B + p2·w2B |
| Exchange.Walras | inauguralproject/inauguralproject.py:18-19 | Walras' law: p1·(x1A + x1B) + p2·(x2A + x2B) = p1·w1 + p2·w2 at any non-zero prices |
| Exchange.DemandsPositive | inauguralproject/inauguralproject.py:39-48 | at positive prices, with shares in (0,1) and positive endowments, all four demanded quantities are strictly positive |

## Left out

- `sample` (examproject/exam.py:3-7, examproject/examp3.py:18-22) draws `X` and `y` from numpy's random generator. The model takes `X` and `y` as inputs, and the `Model3` constructor takes them in place of the seed.
- The plotting functions `plot_pointtriangle` and `plot_point_and_tri`, and every `print` in `check_y_in_tri`, `approx_f` and `func_4`, are output only.
- Floating-point rounding is not modelled. In particular, two points whose float distances round to equal values may be ordered differently than by exact squared distance.
- Barycentric.Block1: requires a non-zero determinant. The source divides unguarded. In `check_y_in_tri` that case is modelled as `Degenerate` (no containment), following numpy's infinite and not-a-number results.
- Exchange.DemandA, Exchange.DemandB: require non-zero prices, because the source divides by both prices without a guard.
- Interpolation.Ratio: returns `None` where the source may fail instead. When a query has no approximation and `Y` is given as plain Python tuples, `np.nan`, the true value and the difference all stay Python floats; if the true value is then exactly `0.0`, the division at examproject/examp3.py:176 raises `ZeroDivisionError` rather than giving a non-finite number; the model does not distinguish the two outcomes.
- `SqDist`, `InQuadrant`, `Rebuilt`, `Evaluate` and `Evaluator` are helper definitions without contracts of their own. Their meaning is stated by the members that use them: `NearestIndex`, `Block2`, `CheckTriangles`, `Model3.ApproxF` and `Model3.Func4`.
- `utility_A` and `utility_B` use fractional real exponents, which exact `real` arithmetic cannot express.
- `check_market_clearing` (inauguralproject/inauguralproject.py:51-59) cannot run as written. It calls `demand_A(p1)` and `demand_B(p1)` with one argument although both take two, and it uses a name `par` that is never defined.
- examproject/examp1.py, modelproject/modelproject.py and dataproject/dataproject.py are not part of this model. They rest on fractional powers, logarithms, external optimisers and root finders, symbolic algebra, and a network client for a statistics service.
