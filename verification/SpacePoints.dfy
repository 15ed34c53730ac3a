/** Wire hits, space points and the pure parts of the pattern recognition in one drift chamber. */
module SpacePoints {
  const MAX_NUMBER_PAIRS := 1000
  const MAX_NUMBER_COMBOS := 10000
  const MAX_SPACE_POINTS := 100

  /**
   A hit of the chamber.  Hits are objects that the program compares by address; `id` is the hit's
   place in the chamber's list, so that equal values are the same hit.  `xsp` and `ysp` are the
   direction of the coordinate its plane measures.
   */
  datatype Hit = Hit(id: nat, plane: int, pos: real, time: real, xsp: real, ysp: real)

  datatype SpacePoint = SpacePoint(x: real, y: real, combos: int, hits: seq<Hit>)

  /** Two hits of crossing wires, and where they cross. */
  datatype Pair = Pair(hit1: Hit, hit2: Hit, x: real, y: real)

  datatype Combo = Combo(pair1: Pair, pair2: Pair)

  function SquaredDistance(x1: real, y1: real, x2: real, y2: real): real {
    (x1 - x2) * (x1 - x2) + (y1 - y2) * (y1 - y2)
  }

  predicate NoDuplicates<T(==)>(s: seq<T>) {
    forall i, j :: 0 <= i < j < |s| ==> s[i] != s[j]
  }

  function Prefix<T>(s: seq<T>, n: nat): (p: seq<T>)
    ensures |p| <= n
  {
    if |s| <= n then s else s[..n]
  }

  // ---- pairs and combinations ---------------------------------------------------------------------

  /** The sine of the angle between the two wires. */
  function WireAngle(hit1: Hit, hit2: Hit): real {
    hit1.xsp * hit2.ysp - hit1.ysp * hit2.xsp
  }

  /** The wires cross at more than about 17.5 degrees. */
  predicate Cross(hit1: Hit, hit2: Hit) {
    var d := WireAngle(hit1, hit2);
    (if d >= 0.0 then d else -d) > 0.3
  }

  function PairAt(hit1: Hit, hit2: Hit): Pair
    requires Cross(hit1, hit2)
  {
    var d := WireAngle(hit1, hit2);
    Pair(hit1, hit2, (hit1.pos * hit2.ysp - hit2.pos * hit1.ysp) / d, (hit2.pos * hit1.xsp - hit1.pos * hit2.xsp) / d)
  }

  /** The pairs found in the rows before `row` and, in that row, with partners before `col`. */
  function PairsUpTo(hits: seq<Hit>, row: nat, col: nat): seq<Pair>
    requires row < |hits| && row < col <= |hits|
    decreases row, col
  {
    if col == row + 1 then if row == 0 then [] else PairsUpTo(hits, row - 1, |hits|)
    else
      var before := PairsUpTo(hits, row, col - 1);
      if Cross(hits[row], hits[col - 1]) then before + [PairAt(hits[row], hits[col - 1])] else before
  }

  function Centre(c: Combo): (real, real) {
    ((c.pair1.x + c.pair2.x) / 2.0, (c.pair1.y + c.pair2.y) / 2.0)
  }

  predicate Close(p: Pair, q: Pair, criterion: real) {
    SquaredDistance(p.x, p.y, q.x, q.y) <= criterion
  }

  function CombosUpTo(pairs: seq<Pair>, criterion: real, row: nat, col: nat): seq<Combo>
    requires row < |pairs| && row < col <= |pairs|
    decreases row, col
  {
    if col == row + 1 then if row == 0 then [] else CombosUpTo(pairs, criterion, row - 1, |pairs|)
    else
      var before := CombosUpTo(pairs, criterion, row, col - 1);
      if Close(pairs[row], pairs[col - 1], criterion) then before + [Combo(pairs[row], pairs[col - 1])] else before
  }

  /** The pairs that are kept: as many as there is room for. */
  function HardPairs(hits: seq<Hit>): seq<Pair> {
    if |hits| < 2 then [] else Prefix(PairsUpTo(hits, |hits| - 2, |hits|), MAX_NUMBER_PAIRS)
  }

  function HardCombos(pairs: seq<Pair>, criterion: real): seq<Combo> {
    if |pairs| < 2 then [] else Prefix(CombosUpTo(pairs, criterion, |pairs| - 2, |pairs|), MAX_NUMBER_COMBOS)
  }

  /** The crossing point lies on both wires. */
  predicate OnBothWires(p: Pair) {
    && p.x * p.hit1.xsp + p.y * p.hit1.ysp == p.hit1.pos
    && p.x * p.hit2.xsp + p.y * p.hit2.ysp == p.hit2.pos
  }

  lemma CrossingSolved(p1: real, p2: real, a1: real, b1: real, a2: real, b2: real, d: real)
    requires d == a1 * b2 - b1 * a2 && d != 0.0
    ensures (p1 * b2 - p2 * b1) / d * a1 + (p2 * a1 - p1 * a2) / d * b1 == p1
    ensures (p1 * b2 - p2 * b1) / d * a2 + (p2 * a1 - p1 * a2) / d * b2 == p2
  {
    var u, v := p1 * b2 - p2 * b1, p2 * a1 - p1 * a2;
    assert u * a1 + v * b1 == p1 * d && u * a2 + v * b2 == p2 * d;
    Scaled(u, v, a1, b1, d, p1);
    Scaled(u, v, a2, b2, d, p2);
  }

  lemma Scaled(u: real, v: real, a: real, b: real, d: real, p: real)
    requires d != 0.0 && u * a + v * b == p * d
    ensures u / d * a + v / d * b == p
  {
    var s, t := u / d, v / d;
    assert s * d == u && t * d == v;
    assert (s * a + t * b) * d == (s * d) * a + (t * d) * b;
  }

  lemma PairOnBothWires(hit1: Hit, hit2: Hit)
    requires Cross(hit1, hit2)
    ensures OnBothWires(PairAt(hit1, hit2))
  {
    CrossingSolved(hit1.pos, hit2.pos, hit1.xsp, hit1.ysp, hit2.xsp, hit2.ysp, WireAngle(hit1, hit2));
  }

  // ---- space points from combinations -------------------------------------------------------------

  function HitsOf(c: Combo): (h: seq<Hit>)
    ensures |h| == 4
  {
    [c.pair1.hit1, c.pair1.hit2, c.pair2.hit1, c.pair2.hit2]
  }

  /** Each pair joins two different hits. */
  predicate ProperCombo(c: Combo) {
    c.pair1.hit1 != c.pair1.hit2 && c.pair2.hit1 != c.pair2.hit2
  }

  /** Of the first n hits offered, those neither held already nor offered before. */
  function NewHits(held: seq<Hit>, offered: seq<Hit>, n: nat): seq<Hit>
    requires n <= |offered|
  {
    if n == 0 then []
    else
      var before, h := NewHits(held, offered, n - 1), offered[n - 1];
      if h in held || h in offered[..n - 1] then before else before + [h]
  }

  function Merged(sp: SpacePoint, c: Combo): SpacePoint {
    sp.(combos := sp.combos + 1, hits := sp.hits + NewHits(sp.hits, HitsOf(c), 4))
  }

  function NewPoint(c: Combo): SpacePoint {
    var h := HitsOf(c);
    SpacePoint(Centre(c).0, Centre(c).1, 1,
               [h[0], h[1]] + (if h[0] != h[2] && h[1] != h[2] then [h[2]] else [])
               + (if h[0] != h[3] && h[1] != h[3] then [h[3]] else []))
  }

  predicate Within(sp: SpacePoint, at: (real, real), limit: real) {
    |sp.hits| > 0 && SquaredDistance(at.0, at.1, sp.x, sp.y) < limit
  }

  /** The first space point from k on that the combination belongs to, or the number of points. */
  function FirstMatch(sps: seq<SpacePoint>, at: (real, real), criterion: real, k: nat): (m: nat)
    requires k <= |sps|
    ensures k <= m <= |sps|
    ensures m < |sps| ==> Within(sps[m], at, criterion)
    ensures forall i :: k <= i < m ==> !Within(sps[i], at, criterion)
    decreases |sps| - k
  {
    if k == |sps| || Within(sps[k], at, criterion) then k else FirstMatch(sps, at, criterion, k + 1)
  }

  predicate Isolated(sps: seq<SpacePoint>, at: (real, real), criterion: real) {
    forall k :: 0 <= k < |sps| ==> !Within(sps[k], at, 3.0 * criterion)
  }

  /** One combination: added to the first point it matches, or a new point, or dropped. */
  function AddCombo(sps: seq<SpacePoint>, c: Combo, criterion: real): seq<SpacePoint> {
    var m := FirstMatch(sps, Centre(c), criterion, 0);
    if m < |sps| then sps[m := Merged(sps[m], c)]
    else if Isolated(sps, Centre(c), criterion) && |sps| < MAX_SPACE_POINTS then sps + [NewPoint(c)]
    else sps
  }

  function Build(combos: seq<Combo>, criterion: real, n: nat): seq<SpacePoint>
    requires n <= |combos|
  {
    if n == 0 then [] else AddCombo(Build(combos, criterion, n - 1), combos[n - 1], criterion)
  }

  // ---- what holds of the points at all times --------------------------------------------------------

  function TotalCombos(sps: seq<SpacePoint>): int {
    if sps == [] then 0 else TotalCombos(sps[..|sps| - 1]) + sps[|sps| - 1].combos
  }

  predicate WellSeparated(sps: seq<SpacePoint>, criterion: real) {
    forall i, j :: 0 <= i < j < |sps| ==> SquaredDistance(sps[i].x, sps[i].y, sps[j].x, sps[j].y) >= 3.0 * criterion
  }

  predicate GoodPoints(sps: seq<SpacePoint>, criterion: real) {
    && |sps| <= MAX_SPACE_POINTS
    && (forall sp <- sps :: |sp.hits| >= 2 && NoDuplicates(sp.hits))
    && WellSeparated(sps, criterion)
  }

  lemma {:induction false} NewHitsAreNew(held: seq<Hit>, offered: seq<Hit>, n: nat)
    requires n <= |offered| && NoDuplicates(held)
    ensures var added := NewHits(held, offered, n);
            && (forall h :: h in added <==> h in offered[..n] && h !in held)
            && NoDuplicates(held + added)
  {
    if n == 0 {
      assert held + [] == held;
    } else {
      NewHitsAreNew(held, offered, n - 1);
      assert offered[..n] == offered[..n - 1] + [offered[n - 1]];
      var before := NewHits(held, offered, n - 1);
      if NewHits(held, offered, n) == before + [offered[n - 1]] {
        assert held + NewHits(held, offered, n) == (held + before) + [offered[n - 1]];
      } else {
        assert NewHits(held, offered, n) == before;
      }
    }
  }

  lemma {:induction false} TotalAfterUpdate(sps: seq<SpacePoint>, k: nat, sp: SpacePoint)
    requires k < |sps|
    ensures TotalCombos(sps[k := sp]) == TotalCombos(sps) - sps[k].combos + sp.combos
  {
    var last := |sps| - 1;
    if k == last {
      assert sps[k := sp][..last] == sps[..last];
    } else {
      assert sps[k := sp][..last] == sps[..last][k := sp];
      TotalAfterUpdate(sps[..last], k, sp);
    }
  }

  lemma DistanceSymmetric(x1: real, y1: real, x2: real, y2: real)
    ensures SquaredDistance(x1, y1, x2, y2) == SquaredDistance(x2, y2, x1, y1)
  {
  }

  lemma NewPointGood(c: Combo)
    requires ProperCombo(c)
    ensures NoDuplicates(NewPoint(c).hits) && |NewPoint(c).hits| >= 2
    ensures forall h :: h in NewPoint(c).hits <==> h in HitsOf(c)
  {
  }

  lemma AddComboKeeps(sps: seq<SpacePoint>, c: Combo, criterion: real)
    requires GoodPoints(sps, criterion) && ProperCombo(c)
    ensures GoodPoints(AddCombo(sps, c, criterion), criterion)
    ensures TotalCombos(sps) <= TotalCombos(AddCombo(sps, c, criterion)) <= TotalCombos(sps) + 1
  {
    hide SquaredDistance, Centre, NewHits;
    var m := FirstMatch(sps, Centre(c), criterion, 0);
    if m < |sps| {
      NewHitsAreNew(sps[m].hits, HitsOf(c), 4);
      TotalAfterUpdate(sps, m, Merged(sps[m], c));
    } else if Isolated(sps, Centre(c), criterion) && |sps| < MAX_SPACE_POINTS {
      NewPointGood(c);
      var more := sps + [NewPoint(c)];
      assert more[..|sps|] == sps;
      forall i | 0 <= i < |sps|
        ensures SquaredDistance(sps[i].x, sps[i].y, more[|sps|].x, more[|sps|].y) >= 3.0 * criterion
      {
        assert !Within(sps[i], Centre(c), 3.0 * criterion);
        DistanceSymmetric(sps[i].x, sps[i].y, more[|sps|].x, more[|sps|].y);
      }
    }
  }

  /** After any number of combinations. */
  lemma {:induction false} BuildKeeps(combos: seq<Combo>, criterion: real, n: nat)
    requires n <= |combos| && forall c <- combos :: ProperCombo(c)
    ensures GoodPoints(Build(combos, criterion, n), criterion)
    ensures 0 <= TotalCombos(Build(combos, criterion, n)) <= n
  {
    if n > 0 {
      BuildKeeps(combos, criterion, n - 1);
      AddComboKeeps(Build(combos, criterion, n - 1), combos[n - 1], criterion);
    }
  }

  /** A combination that matched or founded a point is held by it entirely. */
  lemma ComboIsHeld(sps: seq<SpacePoint>, c: Combo, criterion: real)
    requires GoodPoints(sps, criterion) && ProperCombo(c)
    ensures var after := AddCombo(sps, c, criterion);
            TotalCombos(after) == TotalCombos(sps) + 1 ==>
              exists sp :: sp in after && forall h <- HitsOf(c) :: h in sp.hits
  {
    hide Centre, SquaredDistance;
    var m := FirstMatch(sps, Centre(c), criterion, 0);
    var after := AddCombo(sps, c, criterion);
    if m < |sps| {
      NewHitsAreNew(sps[m].hits, HitsOf(c), 4);
      assert HitsOf(c)[..4] == HitsOf(c);
      assert after[m] in after;
    } else if after != sps {
      NewPointGood(c);
      assert after[|sps|] in after;
    }
  }

  // ---- selection ------------------------------------------------------------------------------------

  predicate Acceptable(sp: SpacePoint, minHits: int, minCombos: int, easy: bool) {
    (sp.combos >= minCombos || easy) && |sp.hits| >= minHits
  }

  function Selected(sps: seq<SpacePoint>, minHits: int, minCombos: int, easy: bool): seq<SpacePoint> {
    if sps == [] then []
    else
      var before, last := Selected(sps[..|sps| - 1], minHits, minCombos, easy), sps[|sps| - 1];
      if Acceptable(last, minHits, minCombos, easy) then before + [last] else before
  }

  lemma {:induction false} SelectedMembers(sps: seq<SpacePoint>, minHits: int, minCombos: int, easy: bool)
    ensures forall sp :: sp in Selected(sps, minHits, minCombos, easy)
                         <==> sp in sps && Acceptable(sp, minHits, minCombos, easy)
  {
    if sps != [] {
      SelectedMembers(sps[..|sps| - 1], minHits, minCombos, easy);
      assert sps == sps[..|sps| - 1] + [sps[|sps| - 1]];
    }
  }
}
