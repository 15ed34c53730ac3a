/**
 Turning the stub of a space point from the coordinates of its chamber, which is tilted by an angle
 beta, into those of the spectrometer.  A stub is a line: x and y at z = 0 and the slopes in z.
 */
module StubRotation {
  import opened Basics
  import opened LeastSquares

  /** The tilt as the program holds it, in three numbers. */
  datatype Tilt = Tilt(cos: real, sin: real, tan: real)
  {
    predicate Valid() {
      cos != 0.0 && tan == sin / cos
    }
  }

  /** The slopes of the rotated stub; nothing stands for one that is not finite. */
  function SlopeX(u: real, tan: real): Option<real> {
    var d := 1.0 + u * tan;
    if d == 0.0 then None else Some((u - tan) / d)
  }

  function SlopeY(u: real, v: real, sin: real, cos: real): Option<real> {
    var e := u * sin + cos;
    if e == 0.0 then None else Some(v / e)
  }

  /** A position moved along a slope, as the program corrects it. */
  function MovedX(x: real, slope: real, sin: real, cos: real): real {
    x * cos - x * slope * sin
  }

  function MovedY(y: real, slope: real, sin: real): real {
    y - y * slope * sin
  }

  /** The rotated stub. */
  function Turned(stub: Vector, t: Tilt): (r: Option<Vector>)
    requires |stub| == 4
    ensures r.Some? ==> |r.value| == 4
  {
    var dx, dy := SlopeX(stub[2], t.tan), SlopeY(stub[2], stub[3], t.sin, t.cos);
    if dx.None? || dy.None? then None
    else Some([MovedX(stub[0], dx.value, t.sin, t.cos), MovedY(stub[1], dy.value, t.sin), dx.value, dy.value])
  }

  datatype Position = Position(x: real, y: real, z: real)

  function AtZ(stub: Vector, z: real): Position
    requires |stub| == 4
  {
    Position(stub[0] + stub[2] * z, stub[1] + stub[3] * z, z)
  }

  /** A position in the chamber, as the spectrometer has it. */
  function InSpectrometer(p: Position, t: Tilt): Position {
    Position(p.x * t.cos - p.z * t.sin, p.y, p.x * t.sin + p.z * t.cos)
  }

  lemma ScaledBack(x: real, d: real)
    requires d != 0.0
    ensures x / d * d == x
  {
  }

  lemma Product(slope: real, tan: real, sin: real, cos: real)
    requires tan * cos == sin
    ensures (1.0 + slope * tan) * cos == slope * sin + cos
  {
    assert slope * tan * cos == slope * (tan * cos);
  }

  lemma ZeroFactor(a: real, b: real)
    requires b != 0.0
    ensures a * b == 0.0 <==> a == 0.0
  {
    if a != 0.0 {
      ScaledBack(b, a);
    }
  }

  /** Both divisors vanish together, when the line runs along the spectrometer's x axis. */
  lemma FiniteIff(stub: Vector, t: Tilt)
    requires |stub| == 4 && t.Valid()
    ensures Turned(stub, t).Some? <==> stub[2] * t.sin + t.cos != 0.0
  {
    ScaledBack(t.sin, t.cos);
    Product(stub[2], t.tan, t.sin, t.cos);
    ZeroFactor(1.0 + stub[2] * t.tan, t.cos);
  }

  /** How far the program's correction in y is off. */
  function CorrectedBy(x0: real, y0: real, dy: real, s: real): real {
    (x0 - y0) * (dy * s)
  }

  lemma LineTurned(stub: Vector, t: Tilt, z: real)
    requires |stub| == 4 && t.Valid() && Turned(stub, t).Some?
    ensures var turned, p := Turned(stub, t).value, InSpectrometer(AtZ(stub, z), t);
            && p.x == AtZ(turned, p.z).x
            && (p.y == AtZ(turned, p.z).y <==> CorrectedBy(stub[0], stub[1], turned[3], t.sin) == 0.0)
  {
  }

  lemma CorrectionVanishes(x0: real, y0: real, v: real, e: real, s: real)
    requires e != 0.0
    ensures CorrectedBy(x0, y0, v / e, s) == 0.0 <==> x0 == y0 || v == 0.0 || s == 0.0
  {
    ScaledBack(v, e);
    if v / e != 0.0 && s != 0.0 {
      ZeroFactor(v / e, s);
      ZeroFactor(x0 - y0, v / e * s);
    }
  }

  /**
   The rotated stub is the same line in x.  In y, which is corrected with itself where the correction is
   by x, it is the same line exactly when x and y are equal at the chamber, the slope in y is 0, as
   FindStub gives it, or the chamber is not tilted.
   */
  lemma SameLine(stub: Vector, t: Tilt, z: real)
    requires |stub| == 4 && t.Valid() && Turned(stub, t).Some?
    ensures var turned, p := Turned(stub, t).value, InSpectrometer(AtZ(stub, z), t);
            && p.x == AtZ(turned, p.z).x
            && (p.y == AtZ(turned, p.z).y <==> stub[0] == stub[1] || stub[3] == 0.0 || t.sin == 0.0)
  {
    hide AtZ, InSpectrometer, CorrectedBy, Turned, Tilt.Valid;
    LineTurned(stub, t, z);
    var e := SlopeYTurned(stub, t);
    CorrectionVanishes(stub[0], stub[1], stub[3], e, t.sin);
  }

  lemma SlopeYTurned(stub: Vector, t: Tilt) returns (e: real)
    requires |stub| == 4 && Turned(stub, t).Some?
    ensures e != 0.0 && Turned(stub, t).value[3] == stub[3] / e
  {
    hide SlopeX, MovedX, MovedY;
    e := stub[2] * t.sin + t.cos;
  }

  /** The slope that the angle cut looks at. */
  function CutSlope(u: real, tan: real): Option<real> {
    var d := 1.0 + u * tan;
    if d == 0.0 then None else Some(u - tan / d)
  }

  /** The slope of the angle cut, which divides tan(beta) alone, is the rotated one only without tilt or slope. */
  lemma CutSlopeIff(s: real, t: real)
    requires CutSlope(s, t).Some?
    ensures SlopeX(s, t) == CutSlope(s, t) <==> s == 0.0 || t == 0.0
  {
    var d := 1.0 + s * t;
    ScaledBack(s - t, d);
    ScaledBack(t, d);
    ZeroFactor((s - t) / d - (s - t / d), d);
    assert ((s - t) / d - (s - t / d)) * d == s - s * d;
    ProductZero(s, s * t);
    ProductZero(s, t);
  }

  lemma ProductZero(a: real, b: real)
    ensures a * b == 0.0 <==> a == 0.0 || b == 0.0
  {
    if b != 0.0 {
      ZeroFactor(a, b);
    }
  }
}
