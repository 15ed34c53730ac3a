/** The least-squares fit of a stub to the hits of one chamber, and its table of normal matrices. */
module StubFit {
  import opened PlanePatterns
  import opened Basics
  import opened LeastSquares

  type Matrix = m: seq<Vector> | |m| == 3 && |m[0]| == 3 && |m[1]| == 3 && |m[2]| == 3
    witness [[0.0, 0.0, 0.0], [0.0, 0.0, 0.0], [0.0, 0.0, 0.0]]

  /** Per plane: the derivatives of its coordinate (over sigma), its resolution, offset and tilt. */
  datatype Geometry = Geometry(coefs: seq<Vector>, sigma: seq<real>, psi0: seq<real>, tanBeta: seq<real>,
                               sinBeta: seq<real>, cosBeta: seq<real>)
  {
    ghost predicate Valid() {
      && 3 <= |coefs| <= MOST_PLANES
      && |sigma| == |psi0| == |tanBeta| == |sinBeta| == |cosBeta| == |coefs|
      && forall p :: 0 <= p < |coefs| ==> |coefs[p]| == 3 && sigma[p] != 0.0
    }
  }

  function PlanesBelow(n: nat): (planes: set<int>)
    ensures forall p :: p in planes <==> 0 <= p < n
  {
    if n == 0 then {} else PlanesBelow(n - 1) + {n - 1}
  }

  lemma {:induction false} HowMany(n: nat)
    ensures |PlanesBelow(n)| == n
  {
    if n > 0 {
      HowMany(n - 1);
      var rest := PlanesBelow(n - 1);
      assert |rest + {n - 1}| == |rest| + 1;
    }
  }

  function AllPlanes(g: Geometry): set<int> {
    PlanesBelow(|g.coefs|)
  }

  // ---- the table of normal matrices ----------------------------------------------------------------

  /** Over the given planes below n, the sum of products of coefficients i and j. */
  function PlaneSum(g: Geometry, planes: set<int>, i: nat, j: nat, n: nat): real
    requires g.Valid() && i < 3 && j < 3 && n <= |g.coefs|
  {
    if n == 0 then 0.0
    else PlaneSum(g, planes, i, j, n - 1) + if n - 1 in planes then g.coefs[n - 1][i] * g.coefs[n - 1][j] else 0.0
  }

  ghost predicate IsNormal(g: Geometry, m: Matrix, planes: set<int>)
    requires g.Valid()
  {
    forall i, j :: 0 <= i < 3 && 0 <= j < 3 ==> m[i][j] == PlaneSum(g, planes, i, j, |g.coefs|)
  }

  lemma {:induction false} PlaneSumSymmetric(g: Geometry, planes: set<int>, i: nat, j: nat, n: nat)
    requires g.Valid() && i < 3 && j < 3 && n <= |g.coefs|
    ensures PlaneSum(g, planes, i, j, n) == PlaneSum(g, planes, j, i, n)
  {
    if n > 0 {
      PlaneSumSymmetric(g, planes, i, j, n - 1);
    }
  }

  method SumPlanes(g: Geometry, missing1: int, missing2: int, i: nat, j: nat) returns (sum: real)
    requires g.Valid() && i < 3 && j < 3
    ensures sum == PlaneSum(g, AllPlanes(g) - {missing1, missing2}, i, j, |g.coefs|)
  {
    sum := 0.0;
    for ip := 0 to |g.coefs|
      invariant sum == PlaneSum(g, AllPlanes(g) - {missing1, missing2}, i, j, ip)
    {
      assert ip in AllPlanes(g) - {missing1, missing2} <==> missing1 != ip && missing2 != ip;
      if missing1 != ip && missing2 != ip {
        sum := sum + g.coefs[ip][i] * g.coefs[ip][j];
      }
    }
  }

  /** The normal matrix of all planes but two. */
  method NormalMatrix(g: Geometry, missing1: int, missing2: int) returns (m: Matrix)
    requires g.Valid()
    ensures IsNormal(g, m, AllPlanes(g) - {missing1, missing2})
  {
    ghost var planes := AllPlanes(g) - {missing1, missing2};
    var aa := new real[3, 3]((i, j) => 0.0);
    for i := 0 to 3
      invariant forall k, l :: 0 <= k < i && k <= l < 3 ==>
        aa[k, l] == PlaneSum(g, planes, k, l, |g.coefs|) && aa[l, k] == PlaneSum(g, planes, l, k, |g.coefs|)
    {
      for j := i to 3
        invariant forall k, l :: 0 <= k <= i && k <= l < (if k < i then 3 else j) ==>
          aa[k, l] == PlaneSum(g, planes, k, l, |g.coefs|) && aa[l, k] == PlaneSum(g, planes, l, k, |g.coefs|)
      {
        aa[i, j] := SumPlanes(g, missing1, missing2, i, j);
        PlaneSumSymmetric(g, planes, i, j, |g.coefs|);
        aa[j, i] := aa[i, j];
      }
    }
    m := [[aa[0, 0], aa[0, 1], aa[0, 2]], [aa[1, 0], aa[1, 1], aa[1, 2]], [aa[2, 0], aa[2, 1], aa[2, 2]]];
    forall i, j | 0 <= i < 3 && 0 <= j < 3 ensures m[i][j] == PlaneSum(g, planes, i, j, |g.coefs|) {
      assert m[i][j] == aa[i, j];
      if i <= j {
      } else {
        assert aa[i, j] == PlaneSum(g, planes, i, j, |g.coefs|);
      }
    }
  }

  /** A word used as key. */
  datatype BitPattern = BitPattern(word: bv32)

  type Table = map<BitPattern, Matrix>

  function PatternOf(planes: set<int>): BitPattern {
    BitPattern(Mask(planes))
  }

  lemma SamePattern(s: set<int>, t: set<int>)
    requires PatternOf(s) == PatternOf(t) && Below(s, MOST_PLANES) && Below(t, MOST_PLANES)
    ensures s == t
  {
    hide Mask;
    MaskInjective(s, t);
  }

  ghost predicate EntryRight(g: Geometry, table: Table, planes: set<int>)
    requires g.Valid()
  {
    PatternOf(planes) in table ==> IsNormal(g, table[PatternOf(planes)], planes)
  }

  /** Every entry belongs to the planes of its pattern, so no pattern is entered for the wrong planes. */
  ghost predicate EntriesRight(g: Geometry, table: Table)
    requires g.Valid()
  {
    forall planes: set<int> :: planes <= AllPlanes(g) ==> EntryRight(g, table, planes)
  }

  lemma EntryAdded(g: Geometry, table: Table, m: Matrix, planes: set<int>)
    requires g.Valid() && EntriesRight(g, table) && planes <= AllPlanes(g) && IsNormal(g, m, planes)
    ensures EntriesRight(g, table[PatternOf(planes) := m])
  {
    hide IsNormal, PatternOf;
    var more := table[PatternOf(planes) := m];
    forall other: set<int> | other <= AllPlanes(g) ensures EntryRight(g, more, other) {
      if PatternOf(other) == PatternOf(planes) {
        SamePattern(other, planes);
        assert more[PatternOf(other)] == m;
      } else {
        assert EntryRight(g, table, other);
        assert PatternOf(other) in more ==> more[PatternOf(other)] == table[PatternOf(other)];
      }
    }
  }

  /** The pattern without two planes; number |coefs| stands for no plane. */
  lemma PatternWithout(g: Geometry, missing1: int, missing2: int)
    requires g.Valid() && 0 <= missing1 <= |g.coefs| && 0 <= missing2 <= |g.coefs|
    ensures BitPattern(Mask(AllPlanes(g)) & !Bit(missing1) & !Bit(missing2))
            == PatternOf(AllPlanes(g) - {missing1, missing2})
  {
    hide Mask, Bit;
    MaskWithout(AllPlanes(g), missing1);
    MaskWithout(AllPlanes(g) - {missing1}, missing2);
    assert AllPlanes(g) - {missing1} - {missing2} == AllPlanes(g) - {missing1, missing2};
  }

  predicate SkipPair(g: Geometry, missing1: int, missing2: int) {
    missing1 == missing2 && missing1 < |g.coefs|
  }

  /** The word with the bits of all planes, as it is put together plane by plane. */
  method AllBits(g: Geometry) returns (all: bv32)
    requires g.Valid()
    ensures all == Mask(AllPlanes(g))
  {
    all := 0;
    hide Mask, Bit;
    NoPlanes();
    for ip := 0 to |g.coefs|
      invariant all == Mask(PlanesBelow(ip))
    {
      MaskWith(PlanesBelow(ip), ip);
      all := all | Bit(ip);
    }
  }

  lemma NoPlanes()
    ensures Mask({}) == 0
  {
  }

  /** With at most two planes missing, the planes are all but some pair the table was made for. */
  lemma FewMissing(g: Geometry, planes: set<int>) returns (m1: int, m2: int)
    requires g.Valid() && planes <= AllPlanes(g) && |planes| >= |g.coefs| - 2
    ensures 0 <= m1 <= m2 <= |g.coefs| && !SkipPair(g, m1, m2) && planes == AllPlanes(g) - {m1, m2}
  {
    var all, n := AllPlanes(g), |g.coefs|;
    var missing := all - planes;
    HowMany(n);
    PartsOf(all, planes);
    hide AllPlanes, PlanesBelow;
    assert forall p <- missing :: 0 <= p < n;
    if missing == {} {
      m1, m2 := n, n;
      AllBut(all, planes, n, n);
    } else {
      var a := Member(missing);
      if missing == {a} {
        m1, m2 := a, n;
        AllBut(all, planes, a, n);
      } else {
        var b := Member(missing - {a});
        OnlyTwo(missing, a, b);
        m1, m2 := if a < b then a else b, if a < b then b else a;
        AllBut(all, planes, m1, m2);
      }
    }
  }

  lemma AllBut(all: set<int>, planes: set<int>, a: int, b: int)
    requires planes <= all && forall p :: p in all - planes <==> p in all && (p == a || p == b)
    ensures planes == all - {a, b}
  {
    forall p ensures p in planes <==> p in all - {a, b} {
      assert p in all - planes <==> p in all && p !in planes;
    }
  }

  lemma PartsOf(all: set<int>, planes: set<int>)
    requires planes <= all
    ensures |all| == |planes| + |all - planes|
  {
    assert planes + (all - planes) == all;
  }

  lemma OnlyTwo(s: set<int>, a: int, b: int)
    requires a in s && b in s && a != b && |s| <= 2
    ensures s == {a, b}
  {
    var more := s - {a, b};
    assert s == more + {a, b};
    assert |s| == |more| + 2;
    assert more == {};
  }

  /** The pair of missing planes has its entry. */
  predicate Covered(g: Geometry, table: Table, m1: int, m2: int)
    requires g.Valid()
  {
    !SkipPair(g, m1, m2) ==> PatternOf(AllPlanes(g) - {m1, m2}) in table
  }

  lemma StillCovered(g: Geometry, table: Table, key: BitPattern, m: Matrix)
    requires g.Valid()
    ensures forall m1, m2 :: Covered(g, table, m1, m2) ==> Covered(g, table[key := m], m1, m2)
  {
    hide PatternOf;
  }

  /** One entry of the table, for two missing planes. */
  method AddEntry(g: Geometry, all: bv32, ipm1: int, ipm2: int, before: Table) returns (table: Table)
    requires g.Valid() && all == Mask(AllPlanes(g)) && EntriesRight(g, before)
    requires 0 <= ipm1 <= ipm2 <= |g.coefs|
    ensures EntriesRight(g, table) && Covered(g, table, ipm1, ipm2)
    ensures forall m1, m2 :: Covered(g, before, m1, m2) ==> Covered(g, table, m1, m2)
  {
    hide Mask, Bit, IsNormal, PatternOf, EntriesRight, Covered;
    table := before;
    if ipm1 == ipm2 && ipm1 < |g.coefs| {
      SkippedIsCovered(g, table, ipm1, ipm2);
      return;
    }
    hide AllPlanes;
    var m := NormalMatrix(g, ipm1, ipm2);
    PatternWithout(g, ipm1, ipm2);
    EntryDone(g, table, ipm1, ipm2, m);
    table := table[BitPattern(all & !Bit(ipm1) & !Bit(ipm2)) := m];
  }

  lemma EntryDone(g: Geometry, before: Table, m1: int, m2: int, m: Matrix)
    requires g.Valid() && EntriesRight(g, before) && IsNormal(g, m, AllPlanes(g) - {m1, m2})
    ensures var after := before[PatternOf(AllPlanes(g) - {m1, m2}) := m];
            && EntriesRight(g, after) && Covered(g, after, m1, m2)
            && forall k1, k2 :: Covered(g, before, k1, k2) ==> Covered(g, after, k1, k2)
  {
    hide IsNormal, PatternOf, EntriesRight, Covered, AllPlanes;
    EntryAdded(g, before, m, AllPlanes(g) - {m1, m2});
    StillCovered(g, before, PatternOf(AllPlanes(g) - {m1, m2}), m);
    NowCovered(g, before, m1, m2, m);
  }

  lemma SkippedIsCovered(g: Geometry, table: Table, m1: int, m2: int)
    requires g.Valid() && SkipPair(g, m1, m2)
    ensures Covered(g, table, m1, m2)
  {
  }

  lemma NowCovered(g: Geometry, table: Table, m1: int, m2: int, m: Matrix)
    requires g.Valid()
    ensures Covered(g, table[PatternOf(AllPlanes(g) - {m1, m2}) := m], m1, m2)
  {
    hide PatternOf;
  }

  /** A matrix for every pattern with at most two planes missing. */
  method BuildTable(g: Geometry) returns (table: Table)
    requires g.Valid()
    ensures EntriesRight(g, table)
    ensures forall planes: set<int> ::
              planes <= AllPlanes(g) && |planes| >= |g.coefs| - 2 ==> PatternOf(planes) in table
  {
    hide Mask, PatternOf, Covered;
    var all := AllBits(g);
    table := map[];
    for ipm1 := 0 to |g.coefs| + 1
      invariant EntriesRight(g, table)
      invariant forall m1, m2 :: 0 <= m1 < ipm1 && m1 <= m2 <= |g.coefs| ==> Covered(g, table, m1, m2)
    {
      for ipm2 := ipm1 to |g.coefs| + 1
        invariant EntriesRight(g, table)
        invariant forall m1, m2 :: 0 <= m1 < ipm1 && m1 <= m2 <= |g.coefs| ==> Covered(g, table, m1, m2)
        invariant forall m2 :: ipm1 <= m2 < ipm2 ==> Covered(g, table, ipm1, m2)
      {
        table := AddEntry(g, all, ipm1, ipm2, table);
      }
    }
    forall planes: set<int> | planes <= AllPlanes(g) && |planes| >= |g.coefs| - 2 ensures PatternOf(planes) in table {
      var m1, m2 := FewMissing(g, planes);
      InTable(g, table, m1, m2);
    }
  }

  lemma InTable(g: Geometry, table: Table, m1: int, m2: int)
    requires g.Valid() && Covered(g, table, m1, m2) && !SkipPair(g, m1, m2)
    ensures PatternOf(AllPlanes(g) - {m1, m2}) in table
  {
  }

  // ---- the fit --------------------------------------------------------------------------------------

  /** A hit as the fit sees it; `dist` is its drift distance in the space point. */
  datatype StubHit = StubHit(plane: int, pos: real, dist: real)

  predicate OnPlanes(g: Geometry, hits: seq<StubHit>) {
    forall i :: 0 <= i < |hits| ==> 0 <= hits[i].plane < |g.coefs|
  }

  predicate OnePerPlane(hits: seq<StubHit>) {
    forall i, j :: 0 <= i < j < |hits| ==> hits[i].plane != hits[j].plane
  }

  function PlanesOf(hits: seq<StubHit>): set<int> {
    if hits == [] then {} else PlanesOf(hits[1..]) + {hits[0].plane}
  }

  /** The coordinate on the chosen side of the wire, relative to the plane's offset. */
  function Position(g: Geometry, h: StubHit, sign: int): real
    requires g.Valid() && 0 <= h.plane < |g.coefs|
  {
    h.pos + sign as real * h.dist - g.psi0[h.plane]
  }

  function PointOf(g: Geometry, h: StubHit, sign: int): Point
    requires g.Valid() && 0 <= h.plane < |g.coefs|
  {
    Point(g.coefs[h.plane], Position(g, h, sign) / g.sigma[h.plane])
  }

  function PointsOf(g: Geometry, hits: seq<StubHit>, signs: seq<int>): (points: seq<Point>)
    requires g.Valid() && OnPlanes(g, hits) && |signs| == |hits|
    ensures |points| == |hits|
    ensures forall i :: 0 <= i < |hits| ==> points[i] == PointOf(g, hits[i], signs[i])
    ensures Fits(points, 3)
  {
    seq(|hits|, i requires 0 <= i < |hits| => PointOf(g, hits[i], signs[i]))
  }

  /** Component k of the right-hand side of the normal equations. */
  function RightSide(points: seq<Point>, k: nat): real
    requires Fits(points, 3) && k < 3
  {
    if points == [] then 0.0 else points[0].row[k] * points[0].value + RightSide(points[1..], k)
  }

  function RowSum(points: seq<Point>, i: nat, j: nat): real
    requires Fits(points, 3) && i < 3 && j < 3
  {
    if points == [] then 0.0 else points[0].row[i] * points[0].row[j] + RowSum(points[1..], i, j)
  }

  function RowSums(points: seq<Point>, i: nat): Vector
    requires Fits(points, 3) && i < 3
  {
    seq(3, j requires 0 <= j < 3 => RowSum(points, i, j))
  }

  function Times(m: Matrix, v: Vector): Vector
    requires |v| == 3
  {
    [Dot(m[0], v), Dot(m[1], v), Dot(m[2], v)]
  }

  function RightSides(points: seq<Point>): Vector
    requires Fits(points, 3)
  {
    [RightSide(points, 0), RightSide(points, 1), RightSide(points, 2)]
  }

  /** Position in x and in y, and slope in x. */
  function StubOf(points: seq<Point>, inverse: Matrix): Vector
    requires Fits(points, 3)
  {
    Times(inverse, RightSides(points))
  }

  // ---- why it is the best stub ----------------------------------------------------------------------

  lemma {:induction false} ResidualsSplit(points: seq<Point>, params: Vector, k: nat)
    requires Fits(points, 3) && |params| == 3 && k < 3
    ensures Normal(points, params, k) == RightSide(points, k) - Dot(params, RowSums(points, k))
  {
    hide Dot;
    if points == [] {
      DotZero(params, RowSums(points, k));
    } else {
      var p, rest := points[0], points[1..];
      ResidualsSplit(rest, params, k);
      DotCombination(params, RowSums(points, k), p.row, p.row[k], RowSums(rest, k));
      DotCommutes(p.row, params);
      Distribute(p.row[k], p.value, Dot(p.row, params));
    }
  }

  lemma Distribute(a: real, b: real, c: real)
    ensures a * (b - c) == a * b - a * c
  {
  }

  lemma {:induction false} PlaneSumWithout(g: Geometry, planes: set<int>, p: nat, i: nat, j: nat, n: nat)
    requires g.Valid() && i < 3 && j < 3 && n <= |g.coefs| && p < |g.coefs| && p !in planes
    ensures PlaneSum(g, planes + {p}, i, j, n)
            == PlaneSum(g, planes, i, j, n) + if p < n then g.coefs[p][i] * g.coefs[p][j] else 0.0
  {
    if n > 0 {
      PlaneSumWithout(g, planes, p, i, j, n - 1);
    }
  }

  lemma {:induction false} InPlanesOf(hits: seq<StubHit>, p: int)
    ensures p in PlanesOf(hits) <==> exists i :: 0 <= i < |hits| && hits[i].plane == p
  {
    if hits != [] {
      InPlanesOf(hits[1..], p);
      if i :| 0 <= i < |hits| && hits[i].plane == p && i > 0 {
        assert hits[1..][i - 1].plane == p;
      }
    }
  }

  lemma {:induction false} NoPlanesSum(g: Geometry, i: nat, j: nat, n: nat)
    requires g.Valid() && i < 3 && j < 3 && n <= |g.coefs|
    ensures PlaneSum(g, {}, i, j, n) == 0.0
  {
    if n > 0 {
      NoPlanesSum(g, i, j, n - 1);
    }
  }

  /** Summing over the hits, in whatever order, is summing over the planes of the pattern. */
  lemma {:induction false} RowSumIsPlaneSum(g: Geometry, hits: seq<StubHit>, signs: seq<int>, i: nat, j: nat)
    requires g.Valid() && OnPlanes(g, hits) && OnePerPlane(hits) && |signs| == |hits| && i < 3 && j < 3
    ensures RowSum(PointsOf(g, hits, signs), i, j) == PlaneSum(g, PlanesOf(hits), i, j, |g.coefs|)
  {
    hide PlaneSum;
    if hits == [] {
      NoPlanesSum(g, i, j, |g.coefs|);
    } else {
      RowSumIsPlaneSum(g, hits[1..], signs[1..], i, j);
      assert PointsOf(g, hits, signs)[1..] == PointsOf(g, hits[1..], signs[1..]);
      hide Position;
      InPlanesOf(hits[1..], hits[0].plane);
      PlaneSumWithout(g, PlanesOf(hits[1..]), hits[0].plane, i, j, |g.coefs|);
    }
  }

  /** The product is the unit matrix. */
  predicate IsInverse(m: Matrix, inverse: Matrix) {
    forall i, j :: 0 <= i < 3 && 0 <= j < 3 ==>
      m[i][0] * inverse[0][j] + m[i][1] * inverse[1][j] + m[i][2] * inverse[2][j] == if i == j then 1.0 else 0.0
  }

  lemma ThreeTerms(a: Vector, b: Vector)
    requires |a| == |b| == 3
    ensures Dot(a, b) == a[0] * b[0] + a[1] * b[1] + a[2] * b[2]
  {
    assert Dot(a[1..][1..][1..], b[1..][1..][1..]) == 0.0;
    assert Dot(a[1..][1..], b[1..][1..]) == a[2] * b[2];
    assert Dot(a[1..], b[1..]) == a[1] * b[1] + a[2] * b[2];
  }

  lemma Regroup(m: real, x: real, y: real, z: real, t0: real, t1: real, t2: real)
    ensures m * (x * t0 + y * t1 + z * t2) == (m * x) * t0 + (m * y) * t1 + (m * z) * t2
  {
  }

  lemma Collect(a: real, b: real, c: real, t: real)
    ensures a * t + b * t + c * t == (a + b + c) * t
  {
  }

  /** Solving with the inverse. */
  lemma InverseSolves(m: Matrix, inverse: Matrix, t: Vector, i: nat)
    requires IsInverse(m, inverse) && |t| == 3 && i < 3
    ensures Dot(m[i], Times(inverse, t)) == t[i]
  {
    hide Dot;
    var a, b, c := m[i], inverse, Times(inverse, t);
    ThreeTerms(a, c);
    ThreeTerms(b[0], t);
    ThreeTerms(b[1], t);
    ThreeTerms(b[2], t);
    Regroup(a[0], b[0][0], b[0][1], b[0][2], t[0], t[1], t[2]);
    Regroup(a[1], b[1][0], b[1][1], b[1][2], t[0], t[1], t[2]);
    Regroup(a[2], b[2][0], b[2][1], b[2][2], t[0], t[1], t[2]);
    Collect(a[0] * b[0][0], a[1] * b[1][0], a[2] * b[2][0], t[0]);
    Collect(a[0] * b[0][1], a[1] * b[1][1], a[2] * b[2][1], t[1]);
    Collect(a[0] * b[0][2], a[1] * b[1][2], a[2] * b[2][2], t[2]);
  }

  /**
   The stub made with the inverse of the table's matrix for the pattern of the hits has the smallest
   chi-squared of all stubs.
   */
  lemma {:induction false} StubIsBest(g: Geometry, table: Table, inverse: Matrix, hits: seq<StubHit>,
                                      signs: seq<int>, other: Vector)
    requires g.Valid() && OnPlanes(g, hits) && OnePerPlane(hits) && |signs| == |hits| && |other| == 3
    requires EntriesRight(g, table) && PatternOf(PlanesOf(hits)) in table
    requires IsInverse(table[PatternOf(PlanesOf(hits))], inverse)
    ensures var points := PointsOf(g, hits, signs);
            ChiSquared(points, StubOf(points, inverse)) <= ChiSquared(points, other)
  {
    var points, m := PointsOf(g, hits, signs), table[PatternOf(PlanesOf(hits))];
    var best := StubOf(points, inverse);
    PlanesKnown(g, hits);
    assert EntryRight(g, table, PlanesOf(hits));
    forall k | 0 <= k < 3 ensures Normal(points, best, k) == 0.0 {
      ResidualsSplit(points, best, k);
      InverseSolves(m, inverse, RightSides(points), k);
      MatrixRow(g, hits, signs, m, k);
      DotCommutes(best, m[k]);
    }
    Optimal(points, best, other);
  }

  /** There are as many planes hit as hits exactly when no plane has two. */
  lemma {:induction false} PlanesCounted(hits: seq<StubHit>)
    ensures |PlanesOf(hits)| <= |hits|
    ensures |PlanesOf(hits)| == |hits| <==> OnePerPlane(hits)
  {
    if hits != [] {
      var rest, p := hits[1..], hits[0].plane;
      PlanesCounted(rest);
      InPlanesOf(rest, p);
      hide PlanesOf;
      OneMorePlane(hits);
      if p in PlanesOf(rest) {
        var i :| 0 <= i < |rest| && rest[i].plane == p;
        assert hits[i + 1] == rest[i];
      } else {
        assert OnePerPlane(rest) ==> OnePerPlane(hits);
      }
      assert OnePerPlane(hits) ==> OnePerPlane(rest);
    }
  }

  lemma OneMorePlane(hits: seq<StubHit>)
    requires hits != []
    ensures PlanesOf(hits) == PlanesOf(hits[1..]) + {hits[0].plane}
    ensures |PlanesOf(hits)| == |PlanesOf(hits[1..])| + if hits[0].plane in PlanesOf(hits[1..]) then 0 else 1
  {
    if hits[0].plane in PlanesOf(hits[1..]) {
      assert PlanesOf(hits) == PlanesOf(hits[1..]);
    }
  }

  lemma {:induction false} PlanesKnown(g: Geometry, hits: seq<StubHit>)
    requires OnPlanes(g, hits)
    ensures PlanesOf(hits) <= AllPlanes(g)
  {
    forall p | p in PlanesOf(hits) ensures p in AllPlanes(g) {
      InPlanesOf(hits, p);
    }
  }

  lemma MatrixRow(g: Geometry, hits: seq<StubHit>, signs: seq<int>, m: Matrix, k: nat)
    requires g.Valid() && OnPlanes(g, hits) && OnePerPlane(hits) && |signs| == |hits| && k < 3
    requires IsNormal(g, m, PlanesOf(hits))
    ensures m[k] == RowSums(PointsOf(g, hits, signs), k)
  {
    RowSumIsPlaneSum(g, hits, signs, k, 0);
    RowSumIsPlaneSum(g, hits, signs, k, 1);
    RowSumIsPlaneSum(g, hits, signs, k, 2);
    assert m[k][0] == PlaneSum(g, PlanesOf(hits), k, 0, |g.coefs|);
    assert m[k][1] == PlaneSum(g, PlanesOf(hits), k, 1, |g.coefs|);
    assert m[k][2] == PlaneSum(g, PlanesOf(hits), k, 2, |g.coefs|);
    assert |m[k]| == 3;
  }

  // ---- the program's fit ----------------------------------------------------------------------------

  lemma {:induction false} RightSideAppend(points: seq<Point>, p: Point, k: nat)
    requires Fits(points, 3) && |p.row| == 3 && k < 3
    ensures RightSide(points + [p], k) == RightSide(points, k) + p.row[k] * p.value
  {
    if points == [] {
      assert (points + [p])[1..] == [];
    } else {
      RightSideAppend(points[1..], p, k);
      assert (points + [p])[1..] == points[1..] + [p];
    }
  }

  lemma {:induction false} ChiSquaredAppend(points: seq<Point>, p: Point, params: Vector)
    requires Fits(points, |params|) && |p.row| == |params|
    ensures ChiSquared(points + [p], params) == ChiSquared(points, params) + Square(Residual(p, params))
  {
    if points == [] {
      assert (points + [p])[1..] == [];
    } else {
      ChiSquaredAppend(points[1..], p, params);
      assert (points + [p])[1..] == points[1..] + [p];
    }
  }

  lemma OverSigma(position: real, coef: real, sigma: real)
    requires sigma != 0.0
    ensures position * coef / sigma == coef * (position / sigma)
  {
  }

  lemma ThreeTermResidual(p: Point, params: Vector)
    requires |p.row| == |params| == 3
    ensures Residual(p, params) == p.value - p.row[0] * params[0] - p.row[1] * params[1] - p.row[2] * params[2]
  {
    ThreeTerms(p.row, params);
  }

  lemma OneMoreHit(g: Geometry, hits: seq<StubHit>, signs: seq<int>, n: nat, k: nat, position: real)
    requires g.Valid() && OnPlanes(g, hits) && |signs| == |hits| && n < |hits| && k < 3
    requires position == Position(g, hits[n], signs[n])
    ensures var points, plane := PointsOf(g, hits, signs), hits[n].plane;
            RightSide(points[..n + 1], k) == RightSide(points[..n], k) + position * g.coefs[plane][k] / g.sigma[plane]
  {
    hide RightSide, Position;
    var points, plane := PointsOf(g, hits, signs), hits[n].plane;
    assert points[..n + 1] == points[..n] + [points[n]];
    OverSigma(position, g.coefs[plane][k], g.sigma[plane]);
    RightSideAppend(points[..n], points[n], k);
  }

  method SumRightSide(g: Geometry, hits: seq<StubHit>, signs: seq<int>, dpos: seq<real>) returns (tt: Vector)
    requires g.Valid() && OnPlanes(g, hits) && |signs| == |hits| == |dpos|
    requires forall i :: 0 <= i < |hits| ==> dpos[i] == Position(g, hits[i], signs[i])
    ensures tt == RightSides(PointsOf(g, hits, signs))
  {
    hide RightSide, PointsOf, Position;
    ghost var points := PointsOf(g, hits, signs);
    tt := [0.0, 0.0, 0.0];
    NothingSummed(points);
    for ihit := 0 to |hits|
      invariant |tt| == 3 && forall k :: 0 <= k < 3 ==> tt[k] == RightSide(points[..ihit], k)
    {
      for index := 0 to 3
        invariant |tt| == 3
        invariant forall k :: 0 <= k < index ==> tt[k] == RightSide(points[..ihit + 1], k)
        invariant forall k :: index <= k < 3 ==> tt[k] == RightSide(points[..ihit], k)
      {
        var plane := hits[ihit].plane;
        OneMoreHit(g, hits, signs, ihit, index, dpos[ihit]);
        var term := dpos[ihit] * g.coefs[plane][index] / g.sigma[plane];
        tt := tt[index := tt[index] + term];
      }
    }
    assert points[..|hits|] == points;
  }

  lemma NothingSummed(points: seq<Point>)
    requires Fits(points, 3)
    ensures forall k :: 0 <= k < 3 ==> RightSide(points[..0], k) == 0.0
  {
  }

  method FindStub(g: Geometry, hits: seq<StubHit>, signs: seq<int>, inverse: Matrix)
    returns (stub: Vector, chi2: real)
    requires g.Valid() && OnPlanes(g, hits) && |signs| == |hits|
    ensures stub == StubOf(PointsOf(g, hits, signs), inverse) + [0.0]
    ensures chi2 == ChiSquared(PointsOf(g, hits, signs), StubOf(PointsOf(g, hits, signs), inverse))
  {
    var dpos := [];
    for ihit := 0 to |hits|
      invariant |dpos| == ihit && forall i :: 0 <= i < ihit ==> dpos[i] == Position(g, hits[i], signs[i])
    {
      dpos := dpos + [hits[ihit].pos + signs[ihit] as real * hits[ihit].dist - g.psi0[hits[ihit].plane]];
    }
    var tt := SumRightSide(g, hits, signs, dpos);
    tt := Times(inverse, tt);
    stub := [tt[0], tt[1], tt[2], 0.0];
    chi2 := SumChiSquared(g, hits, signs, dpos, tt);
  }

  method SumChiSquared(g: Geometry, hits: seq<StubHit>, signs: seq<int>, dpos: seq<real>, stub: Vector)
    returns (chi2: real)
    requires g.Valid() && OnPlanes(g, hits) && |signs| == |hits| == |dpos| && |stub| == 3
    requires forall i :: 0 <= i < |hits| ==> dpos[i] == Position(g, hits[i], signs[i])
    ensures chi2 == ChiSquared(PointsOf(g, hits, signs), stub)
  {
    ghost var points := PointsOf(g, hits, signs);
    chi2 := 0.0;
    for ihit := 0 to |hits|
      invariant chi2 == ChiSquared(points[..ihit], stub)
    {
      var plane := hits[ihit].plane;
      assert points[..ihit + 1] == points[..ihit] + [points[ihit]];
      ChiSquaredAppend(points[..ihit], points[ihit], stub);
      ThreeTermResidual(points[ihit], stub);
      var r := dpos[ihit] / g.sigma[plane] - g.coefs[plane][0] * stub[0] - g.coefs[plane][1] * stub[1]
               - g.coefs[plane][2] * stub[2];
      chi2 := chi2 + r * r;
    }
    assert points[..|hits|] == points;
  }
}
