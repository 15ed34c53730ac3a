/** The hodoscope's velocity fit: a weighted straight line through time against position. */
module Hodoscope {
  import opened Basics
  import opened LeastSquares

  /** A scintillator hit; `good` is the flag of a usable time. */
  datatype TimedHit = TimedHit(good: bool, z: real, time: real, sigma: real)

  /** The five sums of the fit. */
  datatype Sums = Sums(w: real, t: real, z: real, zz: real, tz: real)

  const LIGHT_SPEED := 29.979
  const SMALLEST_DENOMINATOR := 0.0000000001

  predicate Usable(hits: seq<TimedHit>) {
    forall h <- hits :: h.good ==> h.sigma > 0.0
  }

  function Weight(sigma: real): (w: real)
    requires sigma > 0.0
    ensures w > 0.0
  {
    1.0 / (sigma * sigma)
  }

  function AddHit(s: Sums, h: TimedHit): Sums
    requires h.good ==> h.sigma > 0.0
  {
    if !h.good then s
    else
      var w := Weight(h.sigma);
      Sums(s.w + w, s.t + w * h.time, s.z + w * h.z, s.zz + w * (h.z * h.z), s.tz + w * h.z * h.time)
  }

  function SumsOf(hits: seq<TimedHit>): Sums
    requires Usable(hits)
  {
    if hits == [] then Sums(0.0, 0.0, 0.0, 0.0, 0.0)
    else AddHit(SumsOf(hits[..|hits| - 1]), hits[|hits| - 1])
  }

  function Determinant(s: Sums): real {
    s.w * s.zz - s.z * s.z
  }

  function Denominator(s: Sums): real {
    s.w * s.tz - s.z * s.t
  }

  function TimeZero(s: Sums): real
    requires Determinant(s) != 0.0
  {
    (s.t * s.zz - s.z * s.tz) / Determinant(s)
  }

  /** Time per unit of length: the inverse of the velocity. */
  function Slope(s: Sums): real
    requires Determinant(s) != 0.0
  {
    Denominator(s) / Determinant(s)
  }

  // ---- when the fit is possible -----------------------------------------------------------------

  function SpreadAbout(s: Sums, z: real): real {
    s.zz - 2.0 * (z * s.z) + z * z * s.w
  }

  predicate AllAt(hits: seq<TimedHit>, z: real) {
    forall h <- hits :: h.good ==> h.z == z
  }

  lemma SpreadGrows(s: Sums, h: TimedHit, z: real)
    requires h.good && h.sigma > 0.0
    ensures SpreadAbout(AddHit(s, h), z) == SpreadAbout(s, z) + Weight(h.sigma) * Square(h.z - z)
  {
    var w, x := Weight(h.sigma), h.z;
    assert Square(x - z) == x * x - 2.0 * (z * x) + z * z;
    assert w * Square(x - z) == w * (x * x) - 2.0 * (z * (w * x)) + z * z * w;
    assert z * (s.z + w * x) == z * s.z + z * (w * x);
    assert z * z * (s.w + w) == z * z * s.w + z * z * w;
  }

  lemma ProductPositive(a: real, b: real)
    requires a > 0.0 && b >= 0.0
    ensures a * b >= 0.0 && (a * b == 0.0 <==> b == 0.0)
  {
  }

  lemma SquarePositive(x: real)
    ensures Square(x) >= 0.0 && (Square(x) == 0.0 <==> x == 0.0)
  {
    if x > 0.0 {
      ProductPositive(x, x);
    } else if x < 0.0 {
      ProductPositive(-x, -x);
      assert Square(x) == (-x) * (-x);
    }
  }

  lemma {:induction false} SpreadVanishesIff(hits: seq<TimedHit>, z: real)
    requires Usable(hits)
    ensures SpreadAbout(SumsOf(hits), z) >= 0.0
    ensures SpreadAbout(SumsOf(hits), z) == 0.0 <==> AllAt(hits, z)
  {
    if hits != [] {
      var rest, last := hits[..|hits| - 1], hits[|hits| - 1];
      SpreadVanishesIff(rest, z);
      assert AllAt(hits, z) <==> AllAt(rest, z) && (last.good ==> last.z == z) by {
        assert hits == rest + [last];
      }
      if last.good {
        SpreadGrows(SumsOf(rest), last, z);
        SquarePositive(last.z - z);
        ProductPositive(Weight(last.sigma), Square(last.z - z));
      }
    }
  }

  lemma DeterminantGrows(s: Sums, h: TimedHit)
    requires h.good && h.sigma > 0.0
    ensures Determinant(AddHit(s, h)) == Determinant(s) + Weight(h.sigma) * SpreadAbout(s, h.z)
  {
    var w, x := Weight(h.sigma), h.z;
    var wx := w * x;
    assert (s.w + w) * (s.zz + w * (x * x)) == s.w * s.zz + s.w * (w * (x * x)) + w * s.zz + w * (w * (x * x));
    assert (s.z + wx) * (s.z + wx) == s.z * s.z + 2.0 * (s.z * wx) + wx * wx;
    assert wx * wx == w * (w * (x * x));
    assert w * SpreadAbout(s, x) == w * s.zz - 2.0 * (w * (x * s.z)) + w * (x * x * s.w);
    assert s.z * wx == w * (x * s.z);
    assert s.w * (w * (x * x)) == w * (x * x * s.w);
  }

  ghost predicate SinglePosition(hits: seq<TimedHit>) {
    exists z :: AllAt(hits, z)
  }

  lemma SinglePositionStep(hits: seq<TimedHit>)
    requires hits != []
    ensures var rest, last := hits[..|hits| - 1], hits[|hits| - 1];
            SinglePosition(hits) <==> if last.good then AllAt(rest, last.z) else SinglePosition(rest)
  {
    var rest, last := hits[..|hits| - 1], hits[|hits| - 1];
    assert hits == rest + [last];
    forall z ensures AllAt(hits, z) <==> AllAt(rest, z) && (last.good ==> last.z == z) {
    }
    if SinglePosition(hits) {
      var z :| AllAt(hits, z);
      assert AllAt(rest, z);
    }
    if last.good && AllAt(rest, last.z) {
      assert AllAt(hits, last.z);
    }
    if !last.good && SinglePosition(rest) {
      var z :| AllAt(rest, z);
      assert AllAt(hits, z);
    }
  }

  /** Two good hits at different positions: then, and only then, is the determinant positive. */
  lemma {:induction false} DeterminantPositiveIff(hits: seq<TimedHit>)
    requires Usable(hits)
    ensures Determinant(SumsOf(hits)) >= 0.0
    ensures Determinant(SumsOf(hits)) > 0.0 <==> !SinglePosition(hits)
  {
    hide Determinant, SpreadAbout, Weight, AllAt, SinglePosition, AddHit;
    if hits == [] {
      NoHitsAtAll(hits);
    } else {
      var rest, last := hits[..|hits| - 1], hits[|hits| - 1];
      DeterminantPositiveIff(rest);
      SinglePositionStep(hits);
      if last.good {
        DeterminantGrows(SumsOf(rest), last);
        SpreadVanishesIff(rest, last.z);
        ProductPositive(Weight(last.sigma), SpreadAbout(SumsOf(rest), last.z));
        SinglePositionWitness(rest, last.z);
      } else {
        BadHitIgnored(SumsOf(rest), last);
      }
    }
  }

  lemma NoHitsAtAll(hits: seq<TimedHit>)
    requires hits == []
    ensures Determinant(SumsOf(hits)) == 0.0 && SinglePosition(hits)
  {
    hide Determinant, AddHit;
    assert SumsOf(hits) == Sums(0.0, 0.0, 0.0, 0.0, 0.0);
    ZeroSums();
    assert AllAt(hits, 0.0);
  }

  lemma ZeroSums()
    ensures Determinant(Sums(0.0, 0.0, 0.0, 0.0, 0.0)) == 0.0
  {
  }

  lemma SinglePositionWitness(hits: seq<TimedHit>, z: real)
    ensures AllAt(hits, z) ==> SinglePosition(hits)
  {
  }

  lemma BadHitIgnored(s: Sums, h: TimedHit)
    requires !h.good
    ensures AddHit(s, h) == s
  {
  }

  predicate Proportional(s: Sums, z: real) {
    s.z == z * s.w && s.tz == z * s.t
  }

  lemma ProportionalStep(s: Sums, h: TimedHit)
    requires h.good && h.sigma > 0.0 && Proportional(s, h.z)
    ensures Proportional(AddHit(s, h), h.z)
  {
    var w, z := Weight(h.sigma), h.z;
    hide Weight;
    assert z * (s.w + w) == z * s.w + w * z;
    assert z * (s.t + w * h.time) == z * s.t + w * z * h.time;
  }

  lemma {:induction false} SumsAllAt(hits: seq<TimedHit>, z: real)
    requires Usable(hits) && AllAt(hits, z)
    ensures Proportional(SumsOf(hits), z)
  {
    if hits == [] {
      assert z * 0.0 == 0.0;
    } else {
      hide Proportional, AddHit;
      var rest, last := hits[..|hits| - 1], hits[|hits| - 1];
      SumsAllAt(rest, z);
      if last.good {
        ProportionalStep(SumsOf(rest), last);
      } else {
        BadHitIgnored(SumsOf(rest), last);
      }
    }
  }

  lemma ProportionalSums(s: Sums, z: real)
    requires Proportional(s, z)
    ensures Denominator(s) == 0.0
  {
    assert s.w * (z * s.t) == (z * s.w) * s.t;
  }

  /** Without two positions the guard on the denominator catches the event, so t0 is never used. */
  lemma SinglePositionIsCaught(hits: seq<TimedHit>)
    requires Usable(hits) && Determinant(SumsOf(hits)) == 0.0
    ensures Denominator(SumsOf(hits)) == 0.0
  {
    hide SumsOf, Determinant, Denominator, Proportional;
    DeterminantPositiveIff(hits);
    var z :| AllAt(hits, z);
    SumsAllAt(hits, z);
    ProportionalSums(SumsOf(hits), z);
  }

  // ---- why it is the best line --------------------------------------------------------------------

  /** The good hits as measurements of t0 and the slope, in units of their errors. */
  function Points(hits: seq<TimedHit>): (ps: seq<Point>)
    requires Usable(hits)
    ensures Fits(ps, 2)
  {
    if hits == [] then []
    else
      var h := hits[|hits| - 1];
      if h.good then [Point([1.0 / h.sigma, h.z / h.sigma], h.time / h.sigma)] + Points(hits[..|hits| - 1])
      else Points(hits[..|hits| - 1])
  }

  lemma DotPair(row: Vector, params: Vector)
    requires |row| == |params| == 2
    ensures Dot(row, params) == row[0] * params[0] + row[1] * params[1]
  {
    var row', params' := row[1..], params[1..];
    assert Dot(row'[1..], params'[1..]) == 0.0;
    assert Dot(row', params') == row'[0] * params'[0] + 0.0;
  }

  lemma ScaledResidual(h: TimedHit, t0: real, slope: real)
    requires h.sigma > 0.0
    ensures var p, r := Point([1.0 / h.sigma, h.z / h.sigma], h.time / h.sigma), h.time - t0 - h.z * slope;
            && Residual(p, [t0, slope]) == r / h.sigma
            && p.row[0] * Residual(p, [t0, slope]) == Weight(h.sigma) * r
            && p.row[1] * Residual(p, [t0, slope]) == Weight(h.sigma) * h.z * r
            && Square(Residual(p, [t0, slope])) == r * r / (h.sigma * h.sigma)
  {
    var p, r := Point([1.0 / h.sigma, h.z / h.sigma], h.time / h.sigma), h.time - t0 - h.z * slope;
    var u := 1.0 / h.sigma;
    hide Weight, Square;
    DotPair(p.row, [t0, slope]);
    OverSigma(h.z, h.sigma);
    OverSigma(h.time, h.sigma);
    OverSigma(r, h.sigma);
    Spread(u, h.time, t0, h.z, slope);
    assert Residual(p, [t0, slope]) == u * r;
    hide Residual, Dot;
    WeightIsSquare(h.sigma);
    Products(u, h.z, r);
    SquareOver(u, r, h.sigma);
  }

  lemma OverSigma(x: real, sigma: real)
    requires sigma > 0.0
    ensures x / sigma == 1.0 / sigma * x
  {
  }

  lemma Spread(u: real, time: real, t0: real, z: real, slope: real)
    ensures u * (time - t0 - z * slope) == u * time - u * t0 - u * z * slope
  {
  }

  lemma WeightIsSquare(sigma: real)
    requires sigma > 0.0
    ensures Weight(sigma) == 1.0 / sigma * (1.0 / sigma)
  {
    var u := 1.0 / sigma;
    assert u * sigma == 1.0;
    assert (u * u) * (sigma * sigma) == (u * sigma) * (u * sigma);
  }

  lemma Products(u: real, z: real, r: real)
    ensures u * (u * r) == (u * u) * r && (u * z) * (u * r) == (u * u) * z * r
  {
  }

  lemma SquareOver(u: real, r: real, sigma: real)
    requires sigma > 0.0 && u == 1.0 / sigma
    ensures Square(u * r) == r * r / (sigma * sigma)
  {
    hide Weight;
    WeightIsSquare(sigma);
    assert (u * r) * (u * r) == (u * u) * (r * r);
    OverSigma(r * r, sigma * sigma);
    WeightIs(sigma);
  }

  lemma WeightIs(sigma: real)
    requires sigma > 0.0
    ensures sigma * sigma > 0.0 && Weight(sigma) == 1.0 / (sigma * sigma)
  {
  }

  /** The normal equations in terms of the sums. */
  function TimeEquation(s: Sums, t0: real, slope: real): real {
    s.t - t0 * s.w - slope * s.z
  }

  function SlopeEquation(s: Sums, t0: real, slope: real): real {
    s.tz - t0 * s.z - slope * s.zz
  }

  lemma NormalTerms(s: Sums, h: TimedHit, t0: real, slope: real)
    requires h.good && h.sigma > 0.0
    ensures var w, r, s' := Weight(h.sigma), h.time - t0 - h.z * slope, AddHit(s, h);
            && w * r + TimeEquation(s, t0, slope) == TimeEquation(s', t0, slope)
            && w * h.z * r + SlopeEquation(s, t0, slope) == SlopeEquation(s', t0, slope)
  {
    var w, z := Weight(h.sigma), h.z;
    hide Weight;
    assert t0 * (s.w + w) == t0 * s.w + t0 * w && t0 * (s.z + w * z) == t0 * s.z + t0 * (w * z);
    assert slope * (s.z + w * z) == slope * s.z + slope * (w * z);
    assert slope * (s.zz + w * (z * z)) == slope * s.zz + slope * (w * (z * z));
    assert w * (h.time - t0 - z * slope) == w * h.time - t0 * w - slope * (w * z);
    assert w * z * (h.time - t0 - z * slope) == w * z * h.time - t0 * (w * z) - slope * (w * (z * z));
  }

  lemma NormalUnfolds(hits: seq<TimedHit>, params: Vector, k: nat)
    requires Usable(hits) && hits != [] && |params| == 2 && k < 2
    ensures var rest, h := hits[..|hits| - 1], hits[|hits| - 1];
            Normal(Points(hits), params, k)
            == if h.good then
                 var p := Point([1.0 / h.sigma, h.z / h.sigma], h.time / h.sigma);
                 p.row[k] * Residual(p, params) + Normal(Points(rest), params, k)
               else Normal(Points(rest), params, k)
  {
    hide Residual;
    var rest, h := hits[..|hits| - 1], hits[|hits| - 1];
    if h.good {
      assert Points(hits)[1..] == Points(rest);
    }
  }

  lemma {:induction false} NormalFromSums(hits: seq<TimedHit>, t0: real, slope: real)
    requires Usable(hits)
    ensures var s := SumsOf(hits);
            && Normal(Points(hits), [t0, slope], 0) == TimeEquation(s, t0, slope)
            && Normal(Points(hits), [t0, slope], 1) == SlopeEquation(s, t0, slope)
  {
    hide Residual, Weight, AddHit, Normal, Points, TimeEquation, SlopeEquation;
    if hits == [] {
      NoHitsNormal(hits, t0, slope);
    } else {
      var rest, h := hits[..|hits| - 1], hits[|hits| - 1];
      NormalFromSums(rest, t0, slope);
      NormalUnfolds(hits, [t0, slope], 0);
      NormalUnfolds(hits, [t0, slope], 1);
      if h.good {
        ScaledResidual(h, t0, slope);
        NormalTerms(SumsOf(rest), h, t0, slope);
      } else {
        BadHitIgnored(SumsOf(rest), h);
      }
    }
  }

  lemma NoHitsNormal(hits: seq<TimedHit>, t0: real, slope: real)
    requires hits == []
    ensures Normal(Points(hits), [t0, slope], 0) == TimeEquation(SumsOf(hits), t0, slope) == 0.0
    ensures Normal(Points(hits), [t0, slope], 1) == SlopeEquation(SumsOf(hits), t0, slope) == 0.0
  {
    hide AddHit;
    assert SumsOf(hits) == Sums(0.0, 0.0, 0.0, 0.0, 0.0);
  }

  lemma Cramer(s: Sums)
    requires Determinant(s) != 0.0
    ensures TimeEquation(s, TimeZero(s), Slope(s)) == 0.0
    ensures SlopeEquation(s, TimeZero(s), Slope(s)) == 0.0
  {
    var d, a, b := Determinant(s), s.t * s.zz - s.z * s.tz, Denominator(s);
    assert TimeZero(s) * d == a && Slope(s) * d == b;
    assert a * s.w + b * s.z == s.t * d;
    assert a * s.z + b * s.zz == s.tz * d;
    assert (s.t - TimeZero(s) * s.w - Slope(s) * s.z) * d == s.t * d - (TimeZero(s) * d) * s.w - (Slope(s) * d) * s.z;
    assert (s.tz - TimeZero(s) * s.z - Slope(s) * s.zz) * d
        == s.tz * d - (TimeZero(s) * d) * s.z - (Slope(s) * d) * s.zz;
  }

  /** No other straight line through the times has a smaller chi-squared. */
  lemma FittedLineIsBest(hits: seq<TimedHit>, t0: real, slope: real)
    requires Usable(hits) && Determinant(SumsOf(hits)) != 0.0
    ensures var s := SumsOf(hits);
            ChiSquared(Points(hits), [TimeZero(s), Slope(s)]) <= ChiSquared(Points(hits), [t0, slope])
  {
    hide TimeZero, Slope, SumsOf, Points, ChiSquared, TimeEquation, SlopeEquation, Determinant, Normal;
    var s := SumsOf(hits);
    NormalFromSums(hits, TimeZero(s), Slope(s));
    Cramer(s);
    Optimal(Points(hits), [TimeZero(s), Slope(s)], [t0, slope]);
  }

  // ---- times on a straight line -------------------------------------------------------------------

  /** The good hits lie on this line exactly. */
  predicate OnLine(hits: seq<TimedHit>, t0: real, slope: real) {
    forall h <- hits :: h.good ==> h.time == t0 + slope * h.z
  }

  predicate Linear(s: Sums, t0: real, slope: real) {
    s.t == t0 * s.w + slope * s.z && s.tz == t0 * s.z + slope * s.zz
  }

  lemma LinearStep(s: Sums, h: TimedHit, t0: real, slope: real)
    requires h.good && h.sigma > 0.0 && h.time == t0 + slope * h.z && Linear(s, t0, slope)
    ensures Linear(AddHit(s, h), t0, slope)
  {
    var w, z := Weight(h.sigma), h.z;
    hide Weight;
    assert w * (t0 + slope * z) == t0 * w + slope * (w * z);
    assert w * z * (t0 + slope * z) == t0 * (w * z) + slope * (w * (z * z));
    assert t0 * (s.w + w) == t0 * s.w + t0 * w && t0 * (s.z + w * z) == t0 * s.z + t0 * (w * z);
    assert slope * (s.z + w * z) == slope * s.z + slope * (w * z);
    assert slope * (s.zz + w * (z * z)) == slope * s.zz + slope * (w * (z * z));
  }

  lemma LinearNothing(t0: real, slope: real)
    ensures Linear(Sums(0.0, 0.0, 0.0, 0.0, 0.0), t0, slope)
  {
  }

  lemma {:induction false} SumsLinear(hits: seq<TimedHit>, t0: real, slope: real)
    requires Usable(hits) && OnLine(hits, t0, slope)
    ensures Linear(SumsOf(hits), t0, slope)
  {
    hide Linear, AddHit;
    if hits == [] {
      LinearNothing(t0, slope);
    } else {
      var rest, last := hits[..|hits| - 1], hits[|hits| - 1];
      SumsLinear(rest, t0, slope);
      if last.good {
        LinearStep(SumsOf(rest), last, t0, slope);
      } else {
        BadHitIgnored(SumsOf(rest), last);
      }
    }
  }

  lemma LinearSolved(s: Sums, t0: real, slope: real)
    requires Linear(s, t0, slope) && Determinant(s) != 0.0
    ensures TimeZero(s) == t0 && Slope(s) == slope
  {
    var d := Determinant(s);
    assert Denominator(s) == slope * d by {
      assert s.w * s.tz == s.w * (t0 * s.z) + s.w * (slope * s.zz);
      assert s.z * s.t == s.z * (t0 * s.w) + s.z * (slope * s.z);
    }
    assert s.t * s.zz - s.z * s.tz == t0 * d by {
      assert s.t * s.zz == t0 * s.w * s.zz + slope * s.z * s.zz;
      assert s.z * s.tz == s.z * (t0 * s.z) + s.z * (slope * s.zz);
    }
    Divided(t0, d);
    Divided(slope, d);
  }

  lemma Divided(x: real, d: real)
    requires d != 0.0
    ensures x * d / d == x
  {
  }

  lemma NoResidual(h: TimedHit, t0: real, slope: real)
    requires h.sigma > 0.0 && h.time == t0 + slope * h.z
    ensures Square(Residual(Point([1.0 / h.sigma, h.z / h.sigma], h.time / h.sigma), [t0, slope])) == 0.0
  {
    ScaledResidual(h, t0, slope);
    assert h.time - t0 - h.z * slope == 0.0;
    hide Residual, Weight;
    NothingOver(h.sigma * h.sigma);
  }

  lemma NothingOver(x: real)
    requires x != 0.0
    ensures 0.0 * 0.0 / x == 0.0
  {
  }

  lemma {:induction false} LineFits(hits: seq<TimedHit>, t0: real, slope: real)
    requires Usable(hits) && OnLine(hits, t0, slope)
    ensures ChiSquared(Points(hits), [t0, slope]) == 0.0
  {
    hide Residual, Square;
    if hits != [] {
      var rest, h := hits[..|hits| - 1], hits[|hits| - 1];
      LineFits(rest, t0, slope);
      if h.good {
        NoResidual(h, t0, slope);
        assert Points(hits)[1..] == Points(rest);
      }
    }
  }

  /** Hits on a line at two positions or more: the fit gives back that line, with chi-squared 0. */
  lemma LineRecovered(hits: seq<TimedHit>, t0: real, slope: real)
    requires Usable(hits) && OnLine(hits, t0, slope) && !SinglePosition(hits)
    ensures var s := SumsOf(hits);
            && Determinant(s) > 0.0 && TimeZero(s) == t0 && Slope(s) == slope
            && ChiSquared(Points(hits), [TimeZero(s), Slope(s)]) == 0.0
  {
    hide SumsOf, Determinant, TimeZero, Slope, SinglePosition, OnLine, Linear;
    DeterminantPositiveIff(hits);
    SumsLinear(hits, t0, slope);
    LinearSolved(SumsOf(hits), t0, slope);
    LineFits(hits, t0, slope);
  }

  // ---- the program ------------------------------------------------------------------------------

  /** A velocity along z, taken along the track and in units of the speed of light. */
  function AlongTrack(velocity: real, pathNorm: real): real
    requires pathNorm != 0.0
  {
    velocity / pathNorm / LIGHT_SPEED
  }

  /** The inverse of the result is the time per length of the fit, times the path's length twice over. */
  lemma AlongTrackInverse(slope: real, pathNorm: real)
    requires slope != 0.0 && pathNorm > 0.0
    ensures AlongTrack(1.0 / slope, pathNorm) * (29.979 * pathNorm * slope) == 1.0
  {
    var v := 1.0 / slope;
    var u := v / pathNorm;
    assert v * slope == 1.0 && u * pathNorm == v && u / 29.979 * 29.979 == u;
    assert AlongTrack(v, pathNorm) == u / 29.979;
    Regrouped(u / 29.979, pathNorm, slope, u, v);
  }

  lemma Regrouped(b: real, p: real, slope: real, u: real, v: real)
    requires b * 29.979 == u && u * p == v && v * slope == 1.0
    ensures b * (29.979 * p * slope) == 1.0
  {
    assert b * (29.979 * p * slope) == (b * 29.979) * p * slope;
  }

  /**
   A particle of velocity v, in units of the speed of light, whose way is longer than the distance
   along z by pathNorm: the result is v over pathNorm squared, since the program divides where the
   way would have to be multiplied; it is v exactly for a track along z.
   */
  lemma TrueVelocityIff(v: real, pathNorm: real, slope: real, beta: real)
    requires v != 0.0 && pathNorm > 0.0 && slope == pathNorm / (29.979 * v)
    requires beta * (29.979 * pathNorm * slope) == 1.0
    ensures beta == v / (pathNorm * pathNorm)
    ensures beta == v <==> pathNorm == 1.0
  {
    var c := 29.979 * v;
    assert slope * c == pathNorm;
    assert beta * (29.979 * pathNorm * slope) * v == beta * pathNorm * (slope * c);
    assert v == beta * (pathNorm * pathNorm) by {
      assert beta * pathNorm * pathNorm == beta * (pathNorm * pathNorm);
    }
    Divided(beta, pathNorm * pathNorm);
    OnlyOne(v, beta, pathNorm, pathNorm * pathNorm);
  }

  lemma OnlyOne(v: real, beta: real, p: real, square: real)
    requires v != 0.0 && p > 0.0 && square == p * p && v == beta * square
    ensures beta == v <==> p == 1.0
  {
    if beta == v {
      CancelFactor(beta, square);
      RootOfOne(p);
    }
  }

  lemma CancelFactor(v: real, x: real)
    requires v != 0.0 && v == v * x
    ensures x == 1.0
  {
    Divided(x, v);
    Divided(1.0, v);
  }

  lemma RootOfOne(p: real)
    requires p > 0.0 && p * p == 1.0
    ensures p == 1.0
  {
    if p > 1.0 {
      ProductPositive(p, p - 1.0);
    } else {
      ProductPositive(p, 1.0 - p);
    }
  }

  lemma OverVelocity(z: real, velocity: real, slope: real)
    requires velocity != 0.0 && slope != 0.0 && velocity == 1.0 / slope
    ensures z / velocity == z * slope
  {
    assert velocity * slope == 1.0;
    assert z * slope * velocity == z * (velocity * slope);
  }

  lemma OppositeSquares(a: real, b: real)
    requires a == -b
    ensures a * a == b * b
  {
  }

  method AccumulateSums(hits: seq<TimedHit>) returns (sums: Sums)
    requires Usable(hits)
    ensures sums == SumsOf(hits)
  {
    sums := Sums(0.0, 0.0, 0.0, 0.0, 0.0);
    for i := 0 to |hits|
      invariant sums == SumsOf(hits[..i])
    {
      assert hits[..i + 1][..i] == hits[..i];
      hide AddHit;
      if hits[i].good {
        sums := AddHit(sums, hits[i]);
      } else {
        BadHitIgnored(sums, hits[i]);
      }
    }
    assert hits[..|hits|] == hits;
  }

  method LineChiSquared(hits: seq<TimedHit>, t0: real, velocity: real, ghost slope: real) returns (chiSq: real)
    requires Usable(hits) && slope != 0.0 && velocity == 1.0 / slope && velocity != 0.0
    ensures chiSq == ChiSquared(Points(hits), [t0, slope])
  {
    chiSq := 0.0;
    for i := 0 to |hits|
      invariant chiSq == ChiSquared(Points(hits[..i]), [t0, slope])
    {
      assert hits[..i + 1][..i] == hits[..i];
      if hits[i].good {
        var timeDif := hits[i].time - t0;
        ScaledResidual(hits[i], t0, slope);
        OverVelocity(hits[i].z, velocity, slope);
        OppositeSquares(hits[i].z / velocity - timeDif, timeDif - hits[i].z * slope);
        assert Points(hits[..i + 1])[1..] == Points(hits[..i]);
        chiSq := chiSq + (hits[i].z / velocity - timeDif) * (hits[i].z / velocity - timeDif)
                         / (hits[i].sigma * hits[i].sigma);
      }
    }
    assert hits[..|hits|] == hits;
  }

  lemma Inverse(a: real, b: real)
    requires a != 0.0 && b != 0.0
    ensures b / a != 0.0 && a / b != 0.0 && a / b == 1.0 / (b / a)
  {
    assert (a / b) * (b / a) == 1.0 by {
      assert (a / b) * b == a && (b / a) * a == b;
      assert (a / b) * (b / a) * a == (a / b) * ((b / a) * a);
    }
  }

  predicate TooSmall(denominator: real) {
    -SMALLEST_DENOMINATOR <= denominator <= SMALLEST_DENOMINATOR
  }

  /** The velocity before the path correction, and the chi-squared of the line. */
  method FitLine(hits: seq<TimedHit>) returns (fitted: bool, velocity: real, chiSq: real)
    requires Usable(hits)
    ensures fitted <==> !TooSmall(Denominator(SumsOf(hits)))
    ensures var s := SumsOf(hits);
            if !fitted then velocity == 0.0 && chiSq == -2.0
            else
              && Determinant(s) > 0.0 && Slope(s) != 0.0 && velocity == 1.0 / Slope(s)
              && chiSq == ChiSquared(Points(hits), [TimeZero(s), Slope(s)])
  {
    var s := AccumulateSums(hits);
    DeterminantPositiveIff(hits);
    if Determinant(s) == 0.0 {
      SinglePositionIsCaught(hits);
    }
    hide SumsOf, Points, SinglePosition, ChiSquared, Determinant, Denominator, AddHit;
    var tmp := Determinant(s);
    var tmpDenom := Denominator(s);
    var t0 := if tmp != 0.0 then TimeZero(s) else 0.0;
    assert tmp != 0.0 ==> Slope(s) == tmpDenom / tmp;
    hide TimeZero, Slope;
    if (if tmpDenom >= 0.0 then tmpDenom else -tmpDenom) > SMALLEST_DENOMINATOR {
      fitted := true;
      velocity := tmp / tmpDenom;
      Inverse(tmp, tmpDenom);
      chiSq := LineChiSquared(hits, t0, velocity, Slope(s));
    } else {
      fitted := false;
      velocity := 0.0;
      chiSq := -2.0;
    }
  }

  /**
   The fit.  Either the denominator is too small (in particular whenever all good hits share one
   position) and the result says so, or the chi-squared reported is the least of all straight lines
   and the velocity is that line's.
   */
  method FitBeta(hits: seq<TimedHit>, pathNorm: real) returns (beta: real, chiSq: real)
    requires Usable(hits) && pathNorm > 0.0
    ensures var s := SumsOf(hits);
            if TooSmall(Denominator(s)) then beta == 0.0 && chiSq == -2.0
            else
              && Determinant(s) > 0.0 && Slope(s) != 0.0 && beta == AlongTrack(1.0 / Slope(s), pathNorm)
              && forall t0: real, slope: real :: chiSq <= ChiSquared(Points(hits), [t0, slope])
    ensures forall t0: real, slope: real :: OnLine(hits, t0, slope) && !TooSmall(Denominator(SumsOf(hits))) ==>
              chiSq == 0.0 && beta * (29.979 * pathNorm * slope) == 1.0
  {
    hide OnLine, SumsOf, Points, SinglePosition, ChiSquared, Determinant, Denominator, TimeZero, Slope, AlongTrack;
    var fitted;
    fitted, beta, chiSq := FitLine(hits);
    if fitted {
      DeterminantPositiveIff(hits);
      AlongTrackInverse(Slope(SumsOf(hits)), pathNorm);
      forall t0: real, slope: real | OnLine(hits, t0, slope) ensures slope == Slope(SumsOf(hits)) && chiSq == 0.0 {
        LineRecovered(hits, t0, slope);
      }
    }
    if fitted {
      beta := AlongTrack(beta, pathNorm);
      forall t: real, u: real ensures chiSq <= ChiSquared(Points(hits), [t, u]) {
        FittedLineIsBest(hits, t, u);
      }
    }
  }
}
