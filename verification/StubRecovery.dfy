/** A line that runs past the wires at the hits' distances, on the sides that the signs say, is the one fitted. */
module StubRecovery {
  import opened Basics
  import opened LeastSquares
  import opened PlanePatterns
  import opened StubFit
  import opened SignChoices
  import opened KnownSigns
  import StubRotation
  import opened LeftRight

  /**
   In the plane of every hit the line's coordinate, with the plane's offset, is the wire's position plus
   the drift distance for sign +1, and minus the drift distance for sign -1.
   */
  predicate RunsPast(g: Geometry, hits: seq<StubHit>, signs: seq<int>, x: real, y: real, xp: real)
    requires g.Valid() && OnPlanes(g, hits) && |signs| == |hits|
  {
    forall i :: 0 <= i < |hits| ==>
      var h, coef := hits[i], g.coefs[hits[i].plane];
      var coordinate := g.sigma[h.plane] * (coef[0] * x + coef[1] * y + coef[2] * xp) + g.psi0[h.plane];
      && (signs[i] == 1 || signs[i] == -1)
      && coordinate == if signs[i] == 1 then h.pos + h.dist else h.pos - h.dist
  }

  lemma OverSelf(sigma: real, u: real, v: real)
    requires sigma != 0.0 && sigma * u == v
    ensures v / sigma == u
  {
  }

  /** Every residual of the line is zero. */
  lemma NoResidual(g: Geometry, hits: seq<StubHit>, signs: seq<int>, x: real, y: real, xp: real, i: nat)
    requires g.Valid() && OnPlanes(g, hits) && |signs| == |hits| && i < |hits|
    requires RunsPast(g, hits, signs, x, y, xp)
    ensures Residual(PointsOf(g, hits, signs)[i], [x, y, xp]) == 0.0
  {
    var h, coef := hits[i], g.coefs[hits[i].plane];
    ThreeTerms(coef, [x, y, xp]);
    OverSelf(g.sigma[h.plane], coef[0] * x + coef[1] * y + coef[2] * xp, Position(g, h, signs[i]));
    hide Dot;
  }

  lemma {:induction false} ExactFit(points: seq<Point>, params: Vector)
    requires Fits(points, |params|) && forall i :: 0 <= i < |points| ==> Residual(points[i], params) == 0.0
    ensures ChiSquared(points, params) == 0.0
    ensures forall k: nat :: k < |params| ==> Normal(points, params, k) == 0.0
  {
    hide Residual;
    if points != [] {
      ExactFit(points[1..], params);
    }
  }

  /** The chi-squared of such a line is zero. */
  lemma LineFits(g: Geometry, hits: seq<StubHit>, signs: seq<int>, x: real, y: real, xp: real)
    requires g.Valid() && OnPlanes(g, hits) && |signs| == |hits| && RunsPast(g, hits, signs, x, y, xp)
    ensures ChiSquared(PointsOf(g, hits, signs), [x, y, xp]) == 0.0
    ensures forall k: nat :: k < 3 ==> Normal(PointsOf(g, hits, signs), [x, y, xp], k) == 0.0
  {
    hide RunsPast;
    var points := PointsOf(g, hits, signs);
    forall i | 0 <= i < |points| ensures Residual(points[i], [x, y, xp]) == 0.0 {
      NoResidual(g, hits, signs, x, y, xp, i);
    }
    ExactFit(points, [x, y, xp]);
  }

  // ---- a symmetric matrix with a right inverse ---------------------------------------------------------------

  predicate Symmetric(m: Matrix) {
    m[0][1] == m[1][0] && m[0][2] == m[2][0] && m[1][2] == m[2][1]
  }

  /** It takes no vector but zero to zero. */
  lemma OnlyZeroVanishes(m: Matrix, inverse: Matrix, d0: real, d1: real, d2: real)
    requires Symmetric(m) && IsInverse(m, inverse)
    requires m[0][0] * d0 + m[0][1] * d1 + m[0][2] * d2 == 0.0
    requires m[1][0] * d0 + m[1][1] * d1 + m[1][2] * d2 == 0.0
    requires m[2][0] * d0 + m[2][1] * d1 + m[2][2] * d2 == 0.0
    ensures d0 == 0.0 && d1 == 0.0 && d2 == 0.0
  {
    Component(m, inverse, d0, d1, d2, 0);
    Component(m, inverse, d0, d1, d2, 1);
    Component(m, inverse, d0, d1, d2, 2);
  }

  /** A component of the vector, as the inverse's column gives it. */
  lemma Component(m: Matrix, inverse: Matrix, d0: real, d1: real, d2: real, j: nat)
    requires j < 3 && Symmetric(m) && IsInverse(m, inverse)
    requires m[0][0] * d0 + m[0][1] * d1 + m[0][2] * d2 == 0.0
    requires m[1][0] * d0 + m[1][1] * d1 + m[1][2] * d2 == 0.0
    requires m[2][0] * d0 + m[2][1] * d1 + m[2][2] * d2 == 0.0
    ensures (if j == 0 then d0 else if j == 1 then d1 else d2) == 0.0
  {
    var c0, c1, c2 := inverse[0][j], inverse[1][j], inverse[2][j];
    Exchanged(m[0][0], m[0][1], m[0][2], m[1][1], m[1][2], m[2][2], c0, c1, c2, d0, d1, d2);
  }

  /** d (m c) is c (m d) for a symmetric matrix. */
  lemma Exchanged(a: real, b: real, c: real, d: real, e: real, f: real, c0: real, c1: real, c2: real,
                  d0: real, d1: real, d2: real)
    ensures (a * c0 + b * c1 + c * c2) * d0 + (b * c0 + d * c1 + e * c2) * d1 + (c * c0 + e * c1 + f * c2) * d2
            == (a * d0 + b * d1 + c * d2) * c0 + (b * d0 + d * d1 + e * d2) * c1 + (c * d0 + e * d1 + f * d2) * c2
  {
  }

  lemma NormalIsSymmetric(g: Geometry, m: Matrix, planes: set<int>)
    requires g.Valid() && IsNormal(g, m, planes)
    ensures Symmetric(m)
  {
    PlaneSumSymmetric(g, planes, 0, 1, |g.coefs|);
    PlaneSumSymmetric(g, planes, 0, 2, |g.coefs|);
    PlaneSumSymmetric(g, planes, 1, 2, |g.coefs|);
    hide PlaneSum;
  }

  lemma LinearDifference(a: real, b: real, c: real, u0: real, u1: real, u2: real, v0: real, v1: real, v2: real)
    requires a * u0 + b * u1 + c * u2 == a * v0 + b * v1 + c * v2
    ensures a * (u0 - v0) + b * (u1 - v1) + c * (u2 - v2) == 0.0
  {
  }

  lemma RowDifference(row: Vector, u: Vector, v: Vector)
    requires |row| == |u| == |v| == 3 && Dot(row, u) == Dot(row, v)
    ensures row[0] * (u[0] - v[0]) + row[1] * (u[1] - v[1]) + row[2] * (u[2] - v[2]) == 0.0
  {
    ThreeTerms(row, u);
    ThreeTerms(row, v);
    hide Dot;
    LinearDifference(row[0], row[1], row[2], u[0], u[1], u[2], v[0], v[1], v[2]);
  }

  /** Two solutions of the same equations are equal. */
  lemma OneSolution(m: Matrix, inverse: Matrix, u: Vector, v: Vector)
    requires Symmetric(m) && IsInverse(m, inverse) && |u| == |v| == 3
    requires Dot(m[0], u) == Dot(m[0], v) && Dot(m[1], u) == Dot(m[1], v) && Dot(m[2], u) == Dot(m[2], v)
    ensures u == v
  {
    hide Dot, IsInverse, Symmetric;
    RowDifference(m[0], u, v);
    RowDifference(m[1], u, v);
    RowDifference(m[2], u, v);
    OnlyZeroVanishes(m, inverse, u[0] - v[0], u[1] - v[1], u[2] - v[2]);
  }

  /**
   A line that runs past all the hits' wires at their distances, on the sides that the signs say, is the
   stub that is fitted with these signs, and its chi-squared is zero.
   */
  lemma LineRecovered(g: Geometry, table: Table, inverse: Matrix, hits: seq<StubHit>, signs: seq<int>,
                      x: real, y: real, xp: real)
    requires g.Valid() && OnPlanes(g, hits) && OnePerPlane(hits) && |signs| == |hits|
    requires EntriesRight(g, table) && PatternOf(PlanesOf(hits)) in table
    requires IsInverse(table[PatternOf(PlanesOf(hits))], inverse)
    requires RunsPast(g, hits, signs, x, y, xp)
    ensures var points := PointsOf(g, hits, signs);
            StubOf(points, inverse) == [x, y, xp] && ChiSquared(points, [x, y, xp]) == 0.0
  {
    hide RunsPast, PointsOf, ChiSquared, IsInverse, IsNormal, Dot, Normal, RightSide, StubOf, EntriesRight;
    var points, line, m := PointsOf(g, hits, signs), [x, y, xp], table[PatternOf(PlanesOf(hits))];
    LineFits(g, hits, signs, x, y, xp);
    MatrixIsNormal(g, table, hits);
    NormalIsSymmetric(g, m, PlanesOf(hits));
    RowAgrees(g, hits, signs, m, inverse, line, 0);
    RowAgrees(g, hits, signs, m, inverse, line, 1);
    RowAgrees(g, hits, signs, m, inverse, line, 2);
    ThreeLong(points, inverse);
    OneSolution(m, inverse, StubOf(points, inverse), line);
  }

  lemma ThreeLong(points: seq<Point>, inverse: Matrix)
    requires Fits(points, 3)
    ensures |StubOf(points, inverse)| == 3
  {
  }

  lemma MatrixIsNormal(g: Geometry, table: Table, hits: seq<StubHit>)
    requires g.Valid() && OnPlanes(g, hits) && EntriesRight(g, table) && PatternOf(PlanesOf(hits)) in table
    ensures IsNormal(g, table[PatternOf(PlanesOf(hits))], PlanesOf(hits))
  {
    hide IsNormal;
    PlanesKnown(g, hits);
    assert EntryRight(g, table, PlanesOf(hits));
  }

  /** A row of the normal equations takes the fitted stub and the line to the same value. */
  lemma RowAgrees(g: Geometry, hits: seq<StubHit>, signs: seq<int>, m: Matrix, inverse: Matrix, line: Vector, k: nat)
    requires g.Valid() && OnPlanes(g, hits) && OnePerPlane(hits) && |signs| == |hits| && k < 3 && |line| == 3
    requires IsNormal(g, m, PlanesOf(hits)) && IsInverse(m, inverse)
    requires Normal(PointsOf(g, hits, signs), line, k) == 0.0
    ensures Dot(m[k], StubOf(PointsOf(g, hits, signs), inverse)) == Dot(m[k], line)
  {
    hide IsInverse, IsNormal, Dot, Normal, RightSide, PointsOf;
    var points := PointsOf(g, hits, signs);
    ResidualsSplit(points, line, k);
    MatrixRow(g, hits, signs, m, k);
    DotCommutes(line, m[k]);
    InverseSolves(m, inverse, RightSides(points), k);
  }

  // ---- the search ------------------------------------------------------------------------------------------

  lemma {:induction false} ChiNonnegative(points: seq<Point>, params: Vector)
    requires Fits(points, |params|)
    ensures ChiSquared(points, params) >= 0.0
  {
    hide Residual;
    if points != [] {
      ChiNonnegative(points[1..], params);
      SquareNonnegative(Residual(points[0], params));
    }
  }

  lemma SquareNonnegative(x: real)
    ensures Square(x) >= 0.0
  {
  }

  /** The slope passes the angle cut, as the program computes it, or there is no cut. */
  predicate PassesCut(c: Chamber, x: real, plane: int, xp: real)
    requires c.g.Valid() && 0 <= plane < |c.g.coefs|
  {
    var tan := c.g.tanBeta[plane];
    || c.maxXPDiff >= 100.0
    || (1.0 + xp * tan != 0.0 && Abs(xp - tan / (1.0 + xp * tan) - x * c.ratio) < c.maxXPDiff)
  }

  /**
   When a line runs past all the hits, on sides that agree with the known ones, and its slope passes the
   cut, then the search by chi-squared finds signs, and the stub with these runs past all hits as well:
   its chi-squared is zero.
   */
  lemma SearchFindsLine(c: Chamber, x0: real, hits: seq<StubHit>, known: seq<int>, signs: seq<int>, a: Answer,
                        x: real, y: real, xp: real)
    requires c.Valid() && OnPlanes(c.g, hits) && OnePerPlane(hits) && c.Invertible(hits) && |signs| == |hits|
    requires RightAnswer(c, x0, hits, known, a) && Consistent(known, signs)
    requires |PlanesOf(hits)| >= |c.g.coefs| - (if c.style.hms then 1 else 2) && hits != []
    requires RunsPast(c.g, hits, signs, x, y, xp) && PassesCut(c, x0, hits[0].plane, xp)
    ensures a.found && ChiSquared(PointsOf(c.g, hits, a.signs), a.fitted[..3]) == 0.0
  {
    hide RunsPast, PointsOf, ChiSquared, AllKnown, PatternOf, IsInverse, EntriesRight, PlanesOf, Passes, BestFor;
    hide RightSigns, FlattestSigns, StubOf;
    TablePattern(c, hits);
    var f := FitOf(c, x0, hits);
    LineRecovered(c.g, c.table, f.inverse, hits, signs, x, y, xp);
    FittedSlope(f, signs, x, y, xp);
    CutPassed(f, c, signs, xp);
    ExactIsBest(f, known, a.found, a.signs, signs);
    AtMostZero(c.g, hits, a, f);
  }

  lemma TablePattern(c: Chamber, hits: seq<StubHit>)
    requires c.Valid() && OnPlanes(c.g, hits) && |PlanesOf(hits)| >= |c.g.coefs| - 2 && c.Invertible(hits)
    ensures var pattern := PatternOf(PlanesOf(hits));
            pattern in c.table && pattern in c.inverses && IsInverse(c.table[pattern], c.inverses[pattern])
  {
    hide PatternOf, IsInverse, EntriesRight, PlanesOf;
    PlanesKnown(c.g, hits);
  }

  lemma FittedSlope(f: Fit, signs: seq<int>, x: real, y: real, xp: real)
    requires f.Valid() && |signs| == |f.hits|
    requires var points := PointsOf(f.g, f.hits, signs);
             StubOf(points, f.inverse) == [x, y, xp] && ChiSquared(points, [x, y, xp]) == 0.0
    ensures Stub(f, signs)[2] == xp && Chi2(f, signs) == 0.0
  {
    hide PointsOf, StubOf, ChiSquared;
  }

  lemma CutPassed(f: Fit, c: Chamber, signs: seq<int>, xp: real)
    requires f.Valid() && |signs| == |f.hits| && Stub(f, signs)[2] == xp && f.g == c.g
    requires f.maxXPDiff == c.maxXPDiff && f.ratio == c.ratio && PassesCut(c, f.x, f.hits[0].plane, xp)
    ensures Passes(f, signs)
  {
    hide Stub, StubRotation.CutSlope;
    var tan := c.g.tanBeta[f.hits[0].plane];
    if c.maxXPDiff < 100.0 {
      CutSlopeIs(xp, tan, f.x * f.ratio, f.maxXPDiff);
    }
  }

  lemma CutSlopeIs(u: real, tan: real, expected: real, limit: real)
    requires 1.0 + u * tan != 0.0 && Abs(u - tan / (1.0 + u * tan) - expected) < limit
    ensures StubRotation.CutSlope(u, tan).Some? && Abs(StubRotation.CutSlope(u, tan).value - expected) < limit
  {
  }

  /** Signs with chi-squared zero that compete are found, or others as good. */
  lemma ExactIsBest(f: Fit, known: seq<int>, found: bool, signs: seq<int>, exact: seq<int>)
    requires f.Valid() && |known| == |f.hits| && RightSigns(f, known, found, signs)
    requires Consistent(known, exact) && Passes(f, exact) && Chi2(f, exact) == 0.0
    ensures found && |signs| == |f.hits| && Chi2(f, signs) <= 0.0
  {
    hide Chi2, Passes;
    assert Competes(f, exact, true) && Competes(f, exact, false);
  }

  lemma AtMostZero(g: Geometry, hits: seq<StubHit>, a: Answer, f: Fit)
    requires f.Valid() && g == f.g && hits == f.hits && |a.signs| == |hits| && |a.fitted| == 4
    requires BestFor(g, hits, a.signs, a.fitted) && Chi2(f, a.signs) <= 0.0
    ensures ChiSquared(PointsOf(g, hits, a.signs), a.fitted[..3]) == 0.0
  {
    hide PointsOf, ChiSquared, StubOf;
    ChiNonnegative(PointsOf(g, hits, a.signs), a.fitted[..3]);
  }

  /** Signs are flat enough when the slope of the cut is at most 0.25 either way, and is there at all. */
  lemma FlatIff(f: Fit, signs: seq<int>)
    requires f.Valid() && |signs| == |f.hits|
    ensures var xp, tan := Stub(f, signs)[2], f.g.tanBeta[f.hits[0].plane];
            FlatEnough(f, signs)
            <==> 1.0 + xp * tan != 0.0 && xp - tan / (1.0 + xp * tan) <= 0.25 && tan / (1.0 + xp * tan) - xp <= 0.25
  {
    hide Stub;
  }
}
