/**
 Linear least squares in any number of parameters.  The drift-chamber stub (three parameters), the
 focal-plane ray (four) and the hodoscope velocity (two) are all fitted by solving the normal
 equations; here is why that gives the smallest chi-squared.
 */
module LeastSquares {
  import opened Basics

  type Vector = seq<real>

  /** One measurement: its value is predicted by the product of `row` with the parameters. */
  datatype Point = Point(row: Vector, value: real)

  function Dot(a: Vector, b: Vector): real
    requires |a| == |b|
  {
    if |a| == 0 then 0.0 else a[0] * b[0] + Dot(a[1..], b[1..])
  }

  function Minus(a: Vector, b: Vector): Vector
    requires |a| == |b|
  {
    seq(|a|, i requires 0 <= i < |a| => a[i] - b[i])
  }

  predicate Fits(points: seq<Point>, dim: nat) {
    forall p <- points :: |p.row| == dim
  }

  function Residual(p: Point, params: Vector): real
    requires |p.row| == |params|
  {
    p.value - Dot(p.row, params)
  }

  function ChiSquared(points: seq<Point>, params: Vector): real
    requires Fits(points, |params|)
  {
    if points == [] then 0.0
    else Square(Residual(points[0], params)) + ChiSquared(points[1..], params)
  }

  /** Component k of the normal equations: the residuals are orthogonal to column k. */
  function Normal(points: seq<Point>, params: Vector, k: nat): real
    requires Fits(points, |params|) && k < |params|
  {
    if points == [] then 0.0
    else points[0].row[k] * Residual(points[0], params) + Normal(points[1..], params, k)
  }

  predicate SolvesNormalEquations(points: seq<Point>, params: Vector)
    requires Fits(points, |params|)
  {
    forall k :: 0 <= k < |params| ==> Normal(points, params, k) == 0.0
  }

  function NormalVector(points: seq<Point>, params: Vector): Vector
    requires Fits(points, |params|)
  {
    seq(|params|, k requires 0 <= k < |params| => Normal(points, params, k))
  }

  // ---- vectors --------------------------------------------------------------------------------

  lemma {:induction false} DotMinus(row: Vector, a: Vector, b: Vector)
    requires |row| == |a| == |b|
    ensures Dot(row, Minus(a, b)) == Dot(row, a) - Dot(row, b)
  {
    if |row| > 0 {
      assert Minus(a, b)[1..] == Minus(a[1..], b[1..]);
      DotMinus(row[1..], a[1..], b[1..]);
    }
  }

  /** If u is v plus c times w, componentwise, so are its products with d. */
  lemma {:induction false} DotCombination(d: Vector, u: Vector, w: Vector, c: real, v: Vector)
    requires |d| == |u| == |w| == |v|
    requires forall k :: 0 <= k < |d| ==> u[k] == c * w[k] + v[k]
    ensures Dot(d, u) == c * Dot(d, w) + Dot(d, v)
  {
    if |d| > 0 {
      DotCombination(d[1..], u[1..], w[1..], c, v[1..]);
      var x, y, z := d[0], w[0], v[0];
      assert x * (c * y + z) == c * (x * y) + x * z;
      var p, q := x * y, Dot(d[1..], w[1..]);
      assert c * (p + q) == c * p + c * q;
    }
  }

  lemma {:induction false} DotZero(d: Vector, z: Vector)
    requires |d| == |z| && forall k :: 0 <= k < |z| ==> z[k] == 0.0
    ensures Dot(d, z) == 0.0
  {
    if |d| > 0 {
      DotZero(d[1..], z[1..]);
    }
  }

  lemma {:induction false} DotCommutes(a: Vector, b: Vector)
    requires |a| == |b|
    ensures Dot(a, b) == Dot(b, a)
  {
    if |a| > 0 {
      DotCommutes(a[1..], b[1..]);
    }
  }

  // ---- optimality -----------------------------------------------------------------------------

  /** Sum over the points of residual times the effect of a step. */
  function Cross(points: seq<Point>, params: Vector, step: Vector): real
    requires Fits(points, |params|) && |step| == |params|
  {
    if points == [] then 0.0
    else Residual(points[0], params) * Dot(points[0].row, step) + Cross(points[1..], params, step)
  }

  function Stretch(points: seq<Point>, step: Vector): real
    requires Fits(points, |step|)
  {
    if points == [] then 0.0 else Square(Dot(points[0].row, step)) + Stretch(points[1..], step)
  }

  lemma {:induction false} CrossIsDot(points: seq<Point>, params: Vector, step: Vector)
    requires Fits(points, |params|) && |step| == |params|
    ensures Cross(points, params, step) == Dot(step, NormalVector(points, params))
  {
    hide Residual, Dot;
    if points == [] {
      DotZero(step, NormalVector(points, params));
    } else {
      CrossIsDot(points[1..], params, step);
      DotCombination(step, NormalVector(points, params), points[0].row, Residual(points[0], params),
                     NormalVector(points[1..], params));
      DotCommutes(step, points[0].row);
    }
  }

  lemma Expand(r: real, x: real)
    ensures Square(r - x) == Square(r) - 2.0 * (r * x) + Square(x)
  {
  }

  lemma ResidualMoved(p: Point, best: Vector, other: Vector)
    requires |p.row| == |best| == |other|
    ensures |Minus(other, best)| == |p.row|
    ensures Residual(p, other) == Residual(p, best) - Dot(p.row, Minus(other, best))
  {
    DotMinus(p.row, other, best);
  }

  lemma Collect(a: real, b: real, c: real, chi: real, cross: real, stretch: real)
    ensures (a - 2.0 * b + c) + (chi - 2.0 * cross + stretch) == (a + chi) - 2.0 * (b + cross) + (c + stretch)
  {
  }

  lemma {:induction false} ChiSquaredMoved(points: seq<Point>, best: Vector, other: Vector)
    requires Fits(points, |best|) && |other| == |best|
    ensures ChiSquared(points, other)
            == ChiSquared(points, best) - 2.0 * Cross(points, best, Minus(other, best))
               + Stretch(points, Minus(other, best))
  {
    hide Residual, Dot, Square;
    if points != [] {
      var rest, step := points[1..], Minus(other, best);
      ChiSquaredMoved(rest, best, other);
      ResidualMoved(points[0], best, other);
      var r, x := Residual(points[0], best), Dot(points[0].row, step);
      Expand(r, x);
      Collect(Square(r), r * x, Square(x), ChiSquared(rest, best), Cross(rest, best, step), Stretch(rest, step));
    }
  }

  lemma {:induction false} StretchNonnegative(points: seq<Point>, step: Vector)
    requires Fits(points, |step|)
    ensures Stretch(points, step) >= 0.0
  {
    if points != [] {
      StretchNonnegative(points[1..], step);
    }
  }

  /** Parameters that solve the normal equations have the smallest chi-squared of all. */
  lemma Optimal(points: seq<Point>, best: Vector, other: Vector)
    requires Fits(points, |best|) && |other| == |best| && SolvesNormalEquations(points, best)
    ensures ChiSquared(points, best) <= ChiSquared(points, other)
  {
    var step := Minus(other, best);
    ChiSquaredMoved(points, best, other);
    CrossIsDot(points, best, step);
    DotZero(step, NormalVector(points, best));
    StretchNonnegative(points, step);
  }
}
