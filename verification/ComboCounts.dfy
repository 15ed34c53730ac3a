/** Which pairs, combinations and space points there are: said by angles and distances alone. */
module ComboCounts {
  import opened SpacePoints

  // ---- all that cross, and all that are close -----------------------------------------------------------------

  /** The wires of the two hits cross at more than the smallest angle. */
  predicate WiresCross(h: Hit, k: Hit) {
    var d := h.xsp * k.ysp - h.ysp * k.xsp;
    d > 0.3 || d < -0.3
  }

  predicate HasPair(pairs: seq<Pair>, h: Hit, k: Hit) {
    exists x :: 0 <= x < |pairs| && pairs[x].hit1 == h && pairs[x].hit2 == k
  }

  /** Place (i, j) comes before the place at which the loops stand. */
  predicate Passed(i: int, j: int, row: int, col: int) {
    i < row || (i == row && j < col)
  }

  lemma PairAdded(pairs: seq<Pair>, p: Pair)
    ensures HasPair(pairs + [p], p.hit1, p.hit2)
    ensures forall h, k :: HasPair(pairs, h, k) ==> HasPair(pairs + [p], h, k)
    ensures forall h, k :: HasPair(pairs + [p], h, k) ==> HasPair(pairs, h, k) || (h == p.hit1 && k == p.hit2)
  {
    assert (pairs + [p])[|pairs|] == p;
    forall h, k | HasPair(pairs, h, k) ensures HasPair(pairs + [p], h, k) {
      var x :| 0 <= x < |pairs| && pairs[x].hit1 == h && pairs[x].hit2 == k;
      assert (pairs + [p])[x] == pairs[x];
    }
  }

  lemma PairOf(h: Hit, k: Hit)
    ensures Cross(h, k) <==> WiresCross(h, k)
    ensures Cross(h, k) ==> PairAt(h, k).hit1 == h && PairAt(h, k).hit2 == k
  {
  }

  /** Two hits are a pair when they cross, for hits in this order that the loops have passed. */
  lemma {:induction false} PairsComplete(hits: seq<Hit>, row: nat, col: nat)
    requires row < |hits| && row < col <= |hits|
    ensures forall i, j :: 0 <= i < j < |hits| && Passed(i, j, row, col) && WiresCross(hits[i], hits[j]) ==>
              HasPair(PairsUpTo(hits, row, col), hits[i], hits[j])
    decreases row, col
  {
    hide HasPair, WiresCross, Cross, PairAt;
    if col == row + 1 {
      if row > 0 {
        PairsComplete(hits, row - 1, |hits|);
      }
    } else {
      PairsComplete(hits, row, col - 1);
      var h, k := hits[row], hits[col - 1];
      PairOf(h, k);
      if Cross(h, k) {
        PairAdded(PairsUpTo(hits, row, col - 1), PairAt(h, k));
      }
    }
  }

  /** All hits that cross are pairs, unless there are more pairs than room. */
  lemma CrossingHitsArePairs(hits: seq<Hit>, i: nat, j: nat)
    requires i < j < |hits| && WiresCross(hits[i], hits[j]) && |HardPairs(hits)| < MAX_NUMBER_PAIRS
    ensures HasPair(HardPairs(hits), hits[i], hits[j])
  {
    hide HasPair, WiresCross, PairsUpTo;
    PairsComplete(hits, |hits| - 2, |hits|);
    assert Passed(i, j, |hits| - 2, |hits|);
  }

  /** The pairs cross within the distance whose square is the criterion. */
  predicate CrossClose(p: Pair, q: Pair, criterion: real) {
    (p.x - q.x) * (p.x - q.x) + (p.y - q.y) * (p.y - q.y) <= criterion
  }

  predicate HasCombo(combos: seq<Combo>, p: Pair, q: Pair) {
    exists x :: 0 <= x < |combos| && combos[x] == Combo(p, q)
  }

  lemma ComboAdded(combos: seq<Combo>, c: Combo)
    ensures HasCombo(combos + [c], c.pair1, c.pair2)
    ensures forall p, q :: HasCombo(combos, p, q) ==> HasCombo(combos + [c], p, q)
  {
    assert (combos + [c])[|combos|] == c;
    forall p, q | HasCombo(combos, p, q) ensures HasCombo(combos + [c], p, q) {
      var x :| 0 <= x < |combos| && combos[x] == Combo(p, q);
      assert (combos + [c])[x] == combos[x];
    }
  }

  lemma CloseIff(p: Pair, q: Pair, criterion: real)
    ensures Close(p, q, criterion) <==> CrossClose(p, q, criterion)
  {
  }

  lemma {:induction false} CombosComplete(pairs: seq<Pair>, criterion: real, row: nat, col: nat)
    requires row < |pairs| && row < col <= |pairs|
    ensures forall i, j ::
              0 <= i < j < |pairs| && Passed(i, j, row, col) && CrossClose(pairs[i], pairs[j], criterion) ==>
                HasCombo(CombosUpTo(pairs, criterion, row, col), pairs[i], pairs[j])
    decreases row, col
  {
    hide HasCombo, CrossClose, Close;
    if col == row + 1 {
      if row > 0 {
        CombosComplete(pairs, criterion, row - 1, |pairs|);
      }
    } else {
      CombosComplete(pairs, criterion, row, col - 1);
      var p, q := pairs[row], pairs[col - 1];
      CloseIff(p, q, criterion);
      if Close(p, q, criterion) {
        ComboAdded(CombosUpTo(pairs, criterion, row, col - 1), Combo(p, q));
      }
    }
  }

  /** All pairs that cross close together are combinations, unless there are more combinations than room. */
  lemma ClosePairsAreCombos(pairs: seq<Pair>, criterion: real, i: nat, j: nat)
    requires i < j < |pairs| && CrossClose(pairs[i], pairs[j], criterion)
    requires |HardCombos(pairs, criterion)| < MAX_NUMBER_COMBOS
    ensures HasCombo(HardCombos(pairs, criterion), pairs[i], pairs[j])
  {
    hide HasCombo, CrossClose, CombosUpTo;
    CombosComplete(pairs, criterion, |pairs| - 2, |pairs|);
    assert Passed(i, j, |pairs| - 2, |pairs|);
  }

  // ---- what a space point is made of ----------------------------------------------------------------------------

  /** The square of the distance from the middle of the combination's two crossings to the space point. */
  function FromMiddle(c: Combo, sp: SpacePoint): real {
    var dx, dy := (c.pair1.x + c.pair2.x) / 2.0 - sp.x, (c.pair1.y + c.pair2.y) / 2.0 - sp.y;
    dx * dx + dy * dy
  }

  /**
   The combination belongs to place i: the first space point nearer than the criterion; or, where none is
   nearer than three times the criterion and there is room, the place after the last.
   */
  predicate BelongsTo(sps: seq<SpacePoint>, c: Combo, criterion: real, i: int) {
    if 0 <= i < |sps|
    then FromMiddle(c, sps[i]) < criterion && forall k :: 0 <= k < i ==> FromMiddle(c, sps[k]) >= criterion
    else
      && i == |sps| < MAX_SPACE_POINTS
      && forall k :: 0 <= k < |sps| ==> FromMiddle(c, sps[k]) >= criterion && FromMiddle(c, sps[k]) >= 3.0 * criterion
  }

  /** The number of the first n combinations that belong to place i. */
  function Belonging(combos: seq<Combo>, criterion: real, n: nat, i: int): nat
    requires n <= |combos|
  {
    if n == 0 then 0
    else
      Belonging(combos, criterion, n - 1, i)
      + if BelongsTo(Build(combos, criterion, n - 1), combos[n - 1], criterion, i) then 1 else 0
  }

  /** The hit is one of the four of a combination that belongs to place i, among the first n. */
  predicate Offered(combos: seq<Combo>, criterion: real, n: nat, i: int, h: Hit)
    requires n <= |combos|
  {
    n > 0
    && (Offered(combos, criterion, n - 1, i, h)
        || (BelongsTo(Build(combos, criterion, n - 1), combos[n - 1], criterion, i)
            && h in {combos[n - 1].pair1.hit1, combos[n - 1].pair1.hit2, combos[n - 1].pair2.hit1,
                     combos[n - 1].pair2.hit2}))
  }

  lemma SameSquare(a: real, b: real)
    ensures (a - b) * (a - b) == (b - a) * (b - a)
  {
  }

  /** A point with hits is within a limit exactly when it is nearer to the middle. */
  lemma WithinIs(sp: SpacePoint, c: Combo, limit: real)
    requires |sp.hits| > 0
    ensures Within(sp, Centre(c), limit) <==> FromMiddle(c, sp) < limit
  {
  }

  /** What one combination does to the list, by where it belongs. */
  lemma PlacedWhereItBelongs(sps: seq<SpacePoint>, c: Combo, criterion: real, i: nat)
    requires GoodPoints(sps, criterion) && ProperCombo(c)
    ensures var after := AddCombo(sps, c, criterion);
            && |sps| <= |after| && (BelongsTo(sps, c, criterion, i) ==> i < |after| && i <= |sps|)
            && (i < |after| && !BelongsTo(sps, c, criterion, i) ==> i < |sps| && after[i] == sps[i])
            && (i < |sps| && BelongsTo(sps, c, criterion, i) ==>
                  && after[i].combos == sps[i].combos + 1 && after[i].x == sps[i].x && after[i].y == sps[i].y
                  && forall h :: h in after[i].hits <==> h in sps[i].hits || h in HitsOf(c))
            && (i == |sps| && BelongsTo(sps, c, criterion, i) ==>
                  && after[i].combos == 1 && FromMiddle(c, after[i]) == 0.0
                  && forall h :: h in after[i].hits <==> h in HitsOf(c))
  {
    hide FromMiddle, Centre, SquaredDistance, NewHits;
    var m := FirstMatch(sps, Centre(c), criterion, 0);
    forall k | 0 <= k < |sps|
      ensures Within(sps[k], Centre(c), criterion) <==> FromMiddle(c, sps[k]) < criterion
      ensures Within(sps[k], Centre(c), 3.0 * criterion) <==> FromMiddle(c, sps[k]) < 3.0 * criterion
    {
      assert sps[k] in sps;
      WithinIs(sps[k], c, criterion);
      WithinIs(sps[k], c, 3.0 * criterion);
    }
    hide Within;
    if m < |sps| {
      NewHitsAreNew(sps[m].hits, HitsOf(c), 4);
      assert HitsOf(c)[..4] == HitsOf(c);
    } else {
      NewPointGood(c);
      NewPointMiddle(c);
    }
  }

  lemma NewPointMiddle(c: Combo)
    ensures FromMiddle(c, NewPoint(c)) == 0.0 && NewPoint(c).combos == 1
  {
  }

  /** Place i of the list after n combinations. */
  ghost predicate MadeOf(combos: seq<Combo>, criterion: real, n: nat, i: nat)
    requires n <= |combos|
  {
    var sps := Build(combos, criterion, n);
    if i < |sps| then
      && sps[i].combos == Belonging(combos, criterion, n, i)
      && (forall h :: h in sps[i].hits <==> Offered(combos, criterion, n, i, h))
      && Founded(combos, criterion, n, i, sps[i])
    else Belonging(combos, criterion, n, i) == 0 && forall h :: !Offered(combos, criterion, n, i, h)
  }

  /** The point stands in the middle of the first combination that belongs to it. */
  ghost predicate Founded(combos: seq<Combo>, criterion: real, n: nat, i: nat, sp: SpacePoint)
    requires n <= |combos|
  {
    exists k: nat :: k < n && |Build(combos, criterion, k)| == i
                     && BelongsTo(Build(combos, criterion, k), combos[k], criterion, i)
                     && FromMiddle(combos[k], sp) == 0.0
  }

  /**
   After any number of combinations: a space point counts the combinations that belong to it, holds
   exactly their hits, and stands in the middle of the first of them.
   */
  lemma {:induction false} PointsMadeOf(combos: seq<Combo>, criterion: real, n: nat, i: nat)
    requires n <= |combos| && forall c <- combos :: ProperCombo(c)
    ensures MadeOf(combos, criterion, n, i)
  {
    hide BelongsTo, FromMiddle, AddCombo, Founded;
    if n > 0 {
      PointsMadeOf(combos, criterion, n - 1, i);
      var sps, c := Build(combos, criterion, n - 1), combos[n - 1];
      BuildKeeps(combos, criterion, n - 1);
      PlacedWhereItBelongs(sps, c, criterion, i);
      OfferedNow(combos, criterion, n, i);
      if i < |sps| {
        StillFounded(combos, criterion, n, i, sps[i], Build(combos, criterion, n)[i]);
      } else if BelongsTo(sps, c, criterion, i) {
        NowFounded(combos, criterion, n, i);
      }
    }
  }

  lemma OfferedNow(combos: seq<Combo>, criterion: real, n: nat, i: nat)
    requires 0 < n <= |combos|
    ensures forall h :: Offered(combos, criterion, n, i, h)
                        <==> Offered(combos, criterion, n - 1, i, h)
                             || (BelongsTo(Build(combos, criterion, n - 1), combos[n - 1], criterion, i)
                                 && h in HitsOf(combos[n - 1]))
  {
    hide BelongsTo;
  }

  lemma StillFounded(combos: seq<Combo>, criterion: real, n: nat, i: nat, was: SpacePoint, now: SpacePoint)
    requires 0 < n <= |combos| && Founded(combos, criterion, n - 1, i, was) && now.x == was.x && now.y == was.y
    ensures Founded(combos, criterion, n, i, now)
  {
    hide BelongsTo, Build, FromMiddle;
    var k: nat :| k < n - 1 && |Build(combos, criterion, k)| == i
                  && BelongsTo(Build(combos, criterion, k), combos[k], criterion, i)
                  && FromMiddle(combos[k], was) == 0.0;
    SameMiddle(combos[k], was, now);
  }

  lemma SameMiddle(c: Combo, was: SpacePoint, now: SpacePoint)
    requires now.x == was.x && now.y == was.y
    ensures FromMiddle(c, now) == FromMiddle(c, was)
  {
  }

  lemma NowFounded(combos: seq<Combo>, criterion: real, n: nat, i: nat)
    requires 0 < n <= |combos| && i < |Build(combos, criterion, n)| && |Build(combos, criterion, n - 1)| == i
    requires BelongsTo(Build(combos, criterion, n - 1), combos[n - 1], criterion, i)
    requires FromMiddle(combos[n - 1], Build(combos, criterion, n)[i]) == 0.0
    ensures Founded(combos, criterion, n, i, Build(combos, criterion, n)[i])
  {
    hide BelongsTo, FromMiddle, Build;
  }

  /**
   The count of all combinations grows by one exactly when some space point is nearer to the combination's
   middle than the criterion, or none is nearer than three times the criterion and there is room.
   */
  lemma CountGrowsIff(sps: seq<SpacePoint>, c: Combo, criterion: real)
    requires GoodPoints(sps, criterion) && ProperCombo(c)
    ensures var near, room := exists k :: 0 <= k < |sps| && FromMiddle(c, sps[k]) < criterion, |sps| < 100;
            var far := forall k :: 0 <= k < |sps| ==> FromMiddle(c, sps[k]) >= 3.0 * criterion;
            TotalCombos(AddCombo(sps, c, criterion)) == TotalCombos(sps) + if near || (far && room) then 1 else 0
  {
    hide FromMiddle, Centre, SquaredDistance, NewHits;
    var m := FirstMatch(sps, Centre(c), criterion, 0);
    forall k | 0 <= k < |sps|
      ensures Within(sps[k], Centre(c), criterion) <==> FromMiddle(c, sps[k]) < criterion
      ensures Within(sps[k], Centre(c), 3.0 * criterion) <==> FromMiddle(c, sps[k]) < 3.0 * criterion
    {
      assert sps[k] in sps;
      WithinIs(sps[k], c, criterion);
      WithinIs(sps[k], c, 3.0 * criterion);
    }
    hide Within;
    if m < |sps| {
      TotalAfterUpdate(sps, m, Merged(sps[m], c));
    } else {
      var more := sps + [NewPoint(c)];
      assert more[..|sps|] == sps;
    }
  }

  /** So the counts of all points add up to the number of combinations that belong to one. */
  lemma {:induction false} CountsAddUp(combos: seq<Combo>, criterion: real, n: nat)
    requires n <= |combos| && forall c <- combos :: ProperCombo(c)
    ensures TotalCombos(Build(combos, criterion, n)) == NotDropped(combos, criterion, n)
  {
    hide FromMiddle, AddCombo;
    if n > 0 {
      CountsAddUp(combos, criterion, n - 1);
      BuildKeeps(combos, criterion, n - 1);
      CountGrowsIff(Build(combos, criterion, n - 1), combos[n - 1], criterion);
    }
  }

  /** The number of the first n combinations that are near a space point, or far from all while there is room. */
  ghost function NotDropped(combos: seq<Combo>, criterion: real, n: nat): nat
    requires n <= |combos|
  {
    if n == 0 then 0
    else
      var sps, c := Build(combos, criterion, n - 1), combos[n - 1];
      var near, room := exists k :: 0 <= k < |sps| && FromMiddle(c, sps[k]) < criterion, |sps| < 100;
      var far := forall k :: 0 <= k < |sps| ==> FromMiddle(c, sps[k]) >= 3.0 * criterion;
      NotDropped(combos, criterion, n - 1) + if near || (far && room) then 1 else 0
  }
}
