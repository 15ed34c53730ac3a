/** The drift chamber object: finding, cloning and thinning out its space points. */
module DriftChamber {
  import opened SpacePoints
  import opened MultiWire
  import opened HitChoice
  import opened ComboCounts

  class Chamber {
    const hits: seq<Hit>
    const criterion: real
    const minHits: int
    const minCombos: int

    var spacePoints: seq<SpacePoint>
    var easySpacePoint: bool

    constructor (hits: seq<Hit>, criterion: real, minHits: int, minCombos: int)
      ensures this.hits == hits && this.criterion == criterion
      ensures this.minHits == minHits && this.minCombos == minCombos
      ensures spacePoints == [] && !easySpacePoint
    {
      this.hits, this.criterion, this.minHits, this.minCombos := hits, criterion, minHits, minCombos;
      spacePoints, easySpacePoint := [], false;
    }

    // ---- FindHardSpacePoints ----------------------------------------------------------------------

    /** All pairs of hits on crossing wires, as far as there is room for them. */
    method FindPairs() returns (pairs: seq<Pair>)
      ensures pairs == HardPairs(hits)
    {
      pairs := [];
      var i := 0;
      while i < |hits| - 1
        invariant 0 <= i && (i < |hits| || i == 0)
        invariant i == 0 ==> pairs == []
        invariant i > 0 ==> pairs == Prefix(PairsUpTo(hits, i - 1, |hits|), MAX_NUMBER_PAIRS)
      {
        var j := i + 1;
        while j < |hits|
          invariant i < j <= |hits|
          invariant pairs == Prefix(PairsUpTo(hits, i, j), MAX_NUMBER_PAIRS)
        {
          if |pairs| < MAX_NUMBER_PAIRS {
            if Cross(hits[i], hits[j]) {
              pairs := pairs + [PairAt(hits[i], hits[j])];
            }
          }
          j := j + 1;
        }
        i := i + 1;
      }
    }

    /** All combinations of two pairs that cross close together, as far as there is room for them. */
    method FindCombos(pairs: seq<Pair>) returns (combos: seq<Combo>)
      ensures combos == HardCombos(pairs, criterion)
    {
      combos := [];
      var i := 0;
      while i < |pairs| - 1
        invariant 0 <= i && (i < |pairs| || i == 0)
        invariant i == 0 ==> combos == []
        invariant i > 0 ==> combos == Prefix(CombosUpTo(pairs, criterion, i - 1, |pairs|), MAX_NUMBER_COMBOS)
      {
        var j := i + 1;
        while j < |pairs|
          invariant i < j <= |pairs|
          invariant combos == Prefix(CombosUpTo(pairs, criterion, i, j), MAX_NUMBER_COMBOS)
        {
          if |combos| < MAX_NUMBER_COMBOS {
            if Close(pairs[i], pairs[j], criterion) {
              combos := combos + [Combo(pairs[i], pairs[j])];
            }
          }
          j := j + 1;
        }
        i := i + 1;
      }
    }

    /** Marks the offered hits that the point holds already. */
    method MarkHeld(sp: SpacePoint, offered: seq<Hit>, known: array<bool>)
      requires |offered| == known.Length == 4 && forall m :: 0 <= m < 4 ==> !known[m]
      modifies known
      ensures forall m :: 0 <= m < 4 ==> (known[m] <==> offered[m] in sp.hits)
    {
      for i := 0 to |sp.hits|
        invariant forall m :: 0 <= m < 4 ==> (known[m] <==> offered[m] in sp.hits[..i])
      {
        for m := 0 to 4
          invariant forall k :: 0 <= k < m ==> (known[k] <==> offered[k] in sp.hits[..i + 1])
          invariant forall k :: m <= k < 4 ==> (known[k] <==> offered[k] in sp.hits[..i])
        {
          if sp.hits[i] == offered[m] {
            known[m] := true;
          }
        }
      }
      assert sp.hits[..|sp.hits|] == sp.hits;
    }

    /** Marks the offered hits that repeat an earlier one. */
    method MarkRepeated(offered: seq<Hit>, known: array<bool>)
      requires |offered| == known.Length == 4
      modifies known
      ensures forall m :: 0 <= m < 4 ==> (known[m] <==> old(known[m]) || offered[m] in offered[..m])
    {
      for m1 := 0 to 3
        invariant forall k :: 0 <= k < 4 ==>
          (known[k] <==> old(known[k]) || exists m :: 0 <= m < m1 && m < k && offered[m] == offered[k])
      {
        for m2 := m1 + 1 to 4
          invariant forall k :: 0 <= k < 4 ==>
            (known[k] <==> old(known[k])
                           || (exists m :: 0 <= m < m1 && m < k && offered[m] == offered[k])
                           || (m1 < k < m2 && offered[m1] == offered[k]))
        {
          if offered[m1] == offered[m2] {
            known[m2] := true;
          }
        }
      }
    }

    /** The combination's hits that the point does not hold yet, without repetition. */
    method MergeHits(sp: SpacePoint, c: Combo) returns (merged: SpacePoint)
      ensures merged == Merged(sp, c)
    {
      var offered := HitsOf(c);
      var known := new bool[4](_ => false);
      MarkHeld(sp, offered, known);
      MarkRepeated(offered, known);
      merged := sp;
      for m := 0 to 4
        invariant merged == sp.(hits := sp.hits + NewHits(sp.hits, offered, m))
      {
        if !known[m] {
          merged := merged.(hits := merged.hits + [offered[m]]);
        }
      }
      merged := merged.(combos := merged.combos + 1);
    }

    /** One combination, against all the space points found so far. */
    method PlaceCombo(c: Combo)
      modifies this`spacePoints
      ensures spacePoints == AddCombo(old(spacePoints), c, criterion)
    {
      var at := Centre(c);
      var addFlag := true;
      var i, found := 0, |spacePoints|;
      while i < |spacePoints|
        invariant 0 <= i <= |spacePoints| == |old(spacePoints)|
        invariant found == |spacePoints|
        invariant spacePoints == old(spacePoints)
        invariant forall k :: 0 <= k < i ==> !Within(spacePoints[k], at, criterion)
        invariant addFlag ==> forall k :: 0 <= k < i ==> !Within(spacePoints[k], at, 3.0 * criterion)
        invariant !addFlag ==> exists k :: 0 <= k < i && Within(spacePoints[k], at, 3.0 * criterion)
      {
        var sp := spacePoints[i];
        if |sp.hits| > 0 {
          var distance := SquaredDistance(at.0, at.1, sp.x, sp.y);
          if distance < 3.0 * criterion {
            addFlag := false;
          }
          if distance < criterion {
            found := i;
            break;
          }
        }
        i := i + 1;
      }
      FirstMatchIs(spacePoints, at, criterion, 0, found);
      if found < |spacePoints| {
        var merged := MergeHits(spacePoints[found], c);
        spacePoints := spacePoints[found := merged];
      } else if |spacePoints| < MAX_SPACE_POINTS {
        if addFlag {
          spacePoints := spacePoints + [NewPoint(c)];
        }
      }
    }

    lemma FirstMatchIs(sps: seq<SpacePoint>, at: (real, real), criterion: real, k: nat, m: nat)
      requires k <= m <= |sps| && (forall i :: k <= i < m ==> !Within(sps[i], at, criterion))
      requires m < |sps| ==> Within(sps[m], at, criterion)
      ensures FirstMatch(sps, at, criterion, k) == m
    {
    }

    /**
     Space points from the combinations of crossing wires.  No point holds a hit twice, any two are
     well apart, and each counts, and holds the hits of, exactly the combinations that belong to it.
     */
    method FindHardSpacePoints()
      requires spacePoints == []
      requires NoDuplicates(hits)
      modifies this`spacePoints
      ensures var combos := HardCombos(HardPairs(hits), criterion);
              && spacePoints == Build(combos, criterion, |combos|)
              && TotalCombos(spacePoints) <= |combos| <= MAX_NUMBER_COMBOS
              && forall i: nat :: MadeOf(combos, criterion, |combos|, i)
      ensures GoodPoints(spacePoints, criterion)
    {
      var pairs := FindPairs();
      var combos := FindCombos(pairs);
      CombosAreProper(hits, criterion);
      for i := 0 to |combos|
        invariant spacePoints == Build(combos, criterion, i)
      {
        PlaceCombo(combos[i]);
      }
      BuildKeeps(combos, criterion, |combos|);
      forall i: nat ensures MadeOf(combos, criterion, |combos|, i) {
        PointsMadeOf(combos, criterion, |combos|, i);
      }
    }

    // ---- SpacePointMultiWire ----------------------------------------------------------------------

    method SortHits(held: seq<Hit>) returns (planes: ByPlane)
      requires InPlanes(held)
      ensures planes == SortByPlane(held)
    {
      planes := [[], [], [], [], [], []];
      for i := 0 to |held|
        invariant forall p :: 0 <= p < NPLANES ==> planes[p] == OnPlane(held[..i], p)
      {
        var h := held[i];
        planes := planes[h.plane := planes[h.plane] + [h]];
        assert held[..i + 1][..i] == held[..i];
      }
      assert held[..|held|] == held;
      PlacedInPlanes(planes, held);
    }

    method CountPlanes(planes: ByPlane) returns (hit: nat, multiple: nat, choices: nat)
      ensures hit == |Busy(planes, 0)| && multiple == |Busy(planes, 1)| && choices == Choices(planes)
    {
      hit, multiple, choices := 0, 0, 1;
      for p := 0 to NPLANES
        invariant hit == |BusyUpTo(planes, 0, p)| && multiple == |BusyUpTo(planes, 1, p)|
        invariant choices == ChoicesUpTo(planes, p)
        invariant p == NPLANES ==> hit == |Busy(planes, 0)| && multiple == |Busy(planes, 1)|
      {
        OneMoreBusy(planes, 0, p);
        OneMoreBusy(planes, 1, p);
        if |planes[p]| > 0 {
          hit := hit + 1;
          choices := choices * |planes[p]|;
          if |planes[p]| > 1 {
            multiple := multiple + 1;
          }
        }
      }
      AllChoices(planes);
    }

    /** Exchange sort of the planes by decreasing number of hits. */
    method OrderPlanes(planes: ByPlane) returns (order: seq<int>)
      ensures IsOrder(order) && Decreasing(Ranked(planes, order))
    {
      var maxPlane := new int[NPLANES](i => i);
      for i := 0 to NPLANES - 1
        invariant IsOrder(maxPlane[..]) && LeadersPlaced(planes, maxPlane[..], i)
      {
        for j := i + 1 to NPLANES
          invariant IsOrder(maxPlane[..]) && LeadersPlaced(planes, maxPlane[..], i)
          invariant LeadsUpTo(planes, maxPlane[..], i, j)
        {
          ghost var before := maxPlane[..];
          if |planes[maxPlane[j]]| > |planes[maxPlane[i]]| {
            maxPlane[i], maxPlane[j] := maxPlane[j], maxPlane[i];
            assert maxPlane[..] == Swapped(before, i, j);
            SwapKeeps(planes, before, i, j);
          }
        }
      }
      order := maxPlane[..];
      PlacedIsDecreasing(planes, order);
    }

    /** One clone: the first takes the place of the original, the others are added at the end. */
    method AddClone(isp: nat, ranked: ByPlane, n1: nat, n2: nat, n3: nat, ghost original: seq<SpacePoint>,
                    ghost made: seq<seq<Hit>>)
      requires Clonable3(ranked) && InBox(ranked, Triple(n1, n2, n3))
      requires isp < |original| && spacePoints == Replaced(original, isp, made)
      requires ClonedUpTo(ranked, n1, n2, n3, made)
      modifies this`spacePoints
      ensures spacePoints == Replaced(original, isp, made + [CloneHits(ranked, n1, n2, n3)])
    {
      var sp := spacePoints[isp];
      var clone := sp.(hits := []);
      clone := clone.(hits := clone.hits + [ranked[0][n1]]);
      clone := clone.(hits := clone.hits + [ranked[1][n2]]);
      clone := clone.(hits := clone.hits + [ranked[2][n3]]);
      clone := clone.(hits := clone.hits + [ranked[3][0]]);
      if |ranked[4]| == 1 {
        clone := clone.(hits := clone.hits + [ranked[4][0]]);
        if |ranked[5]| == 1 {
          clone := clone.(hits := clone.hits + [ranked[5][0]]);
        }
      }
      assert clone.hits == CloneHits(ranked, n1, n2, n3);
      if n1 == 0 && n2 == 0 && n3 == 0 {
        spacePoints := spacePoints[isp := clone];
      } else {
        spacePoints := spacePoints + [clone];
      }
    }

    method ClonePoint(isp: nat, ranked: ByPlane) returns (ntot: nat)
      requires isp < |spacePoints| && Clonable3(ranked)
      modifies this`spacePoints
      ensures spacePoints == Replaced(old(spacePoints), isp, Clones(ranked)) && ntot == |Clones(ranked)|
    {
      hide Replaced, CloneHits, Clonable3, ClonedUpTo;
      ntot := 0;
      ghost var original, made := spacePoints, [];
      NothingReplaced(original, isp);
      StartCloning(ranked);
      for n1 := 0 to |ranked[0]|
        invariant spacePoints == Replaced(original, isp, made) && ntot == |made|
        invariant ClonedUpTo(ranked, n1, 0, 0, made)
      {
        for n2 := 0 to |ranked[1]|
          invariant spacePoints == Replaced(original, isp, made) && ntot == |made|
          invariant ClonedUpTo(ranked, n1, n2, 0, made)
        {
          for n3 := 0 to |ranked[2]|
            invariant spacePoints == Replaced(original, isp, made) && ntot == |made|
            invariant ClonedUpTo(ranked, n1, n2, n3, made)
          {
            ntot := ntot + 1;
            AddClone(isp, ranked, n1, n2, n3, original, made);
            KeepCloning(ranked, n1, n2, n3, made);
            made := made + [CloneHits(ranked, n1, n2, n3)];
          }
          Carry(ranked, n1, n2, made);
        }
        Carry(ranked, n1, |ranked[1]|, made);
      }
      AllCloned(ranked, made);
    }

    /** One pass of the loop of SpacePointMultiWire, which keeps its own count of the points. */
    method TreatPoint(isp: nat, total: nat) returns (newTotal: nat)
      requires isp < |spacePoints| == total && InPlanes(spacePoints[isp].hits)
      modifies this`spacePoints
      ensures Treated(old(spacePoints), spacePoints, isp) && newTotal == |spacePoints|
    {
      hide Choices, Clones, Busy, Replaced, SortByPlane, Ranked, IsOrder, Clonable3, Decreasing, InPlanes;
      newTotal := total;
      var planes := SortHits(spacePoints[isp].hits);
      var hit, multiple, choices := CountPlanes(planes);
      SomeChoice(planes);
      if hit >= 4 && multiple < 4 && multiple > 0 && total + (choices - 1) < MOST_POINTS {
        var order := OrderPlanes(planes);
        FourthHasOne(planes, order);
        CloneCount(planes, order);
        CloneFound(spacePoints, isp, Clones(Ranked(planes, order)));
        var ntot := ClonePoint(isp, Ranked(planes, order));
        assert ClonedInOrder(old(spacePoints), spacePoints, isp, order);
        newTotal := newTotal + (ntot - 1);
      }
    }

    /**
     Every space point there was, treated in turn; the points added are not looked at again.  The
     program's own count of the points follows the list, so the number reported as added is always
     zero.
     */
    method SpacePointMultiWire() returns (added: int, ghost history: seq<seq<SpacePoint>>)
      requires |spacePoints| > 0 && forall isp :: 0 <= isp < |spacePoints| ==> InPlanes(spacePoints[isp].hits)
      modifies this`spacePoints
      ensures TreatedInTurn(history, old(|spacePoints|), old(|spacePoints|))
      ensures history[0] == old(spacePoints) && history[old(|spacePoints|)] == spacePoints
      ensures added == 0
    {
      ghost var before := spacePoints;
      var total, originals := |spacePoints|, |spacePoints|;
      history := [spacePoints];
      for isp := 0 to originals
        invariant TreatedInTurn(history, originals, isp)
        invariant history[0] == before && history[isp] == spacePoints
        invariant total == |spacePoints| >= originals
        invariant forall k :: isp <= k < originals ==> spacePoints[k] == before[k]
      {
        hide Treated, InPlanes;
        total := TreatPoint(isp, total);
        CloningGrows(history[isp], spacePoints, isp);
        history := history + [spacePoints];
      }
      added := 0;
      if total <= MOST_POINTS {
        added := total - |spacePoints|;
      }
    }

    // ---- ChooseSingleHit ----------------------------------------------------------------------------

    /** Marks every hit that another hit of its plane beats. */
    method MarkBeaten(held: seq<Hit>, good: array<bool>)
      requires good.Length == |held| && forall h :: 0 <= h < |held| ==> good[h]
      modifies good
      ensures forall h: nat :: h < |held| ==> (good[h] <==> Survives(held, h))
    {
      var i := 0;
      while i < |held| - 1
        invariant 0 <= i && (i < |held| || i == 0)
        invariant forall h: nat :: h < |held| ==> (good[h] <==> Unbeaten(held, i, i + 1, h))
      {
        var j := i + 1;
        while j < |held|
          invariant i < j <= |held|
          invariant forall h: nat :: h < |held| ==> (good[h] <==> Unbeaten(held, i, j, h))
        {
          NextComparison(held, i, j);
          ghost var before := good[..];
          if held[i].plane == held[j].plane {
            if held[i].time > held[j].time {
              good[i] := false;
            } else {
              good[j] := false;
            }
          }
          assert forall h: nat :: h < |held| ==> good[h] == (before[h] && !Loses(held, i, j, h));
          j := j + 1;
        }
        RowDone(held, i);
        i := i + 1;
      }
    }

    /** The survivors moved to the front, in place. */
    method ChooseHits(sp: SpacePoint) returns (chosen: SpacePoint)
      ensures chosen == sp.(hits := Chosen(sp.hits))
    {
      var held := sp.hits;
      var good := new bool[|held|](_ => true);
      MarkBeaten(sp.hits, good);
      var n := 0;
      for i := 0 to |held|
        invariant 0 <= n <= i && |held| == |sp.hits| == good.Length
        invariant held[..n] == Kept(sp.hits, i) && held[i..] == sp.hits[i..]
        invariant forall h: nat :: h < |held| ==> (good[h] <==> Survives(sp.hits, h))
      {
        assert held[i] == sp.hits[i];
        if good[i] {
          if i > n {
            held := held[n := held[i]];
          }
          n := n + 1;
        }
      }
      chosen := sp.(hits := held[..n]);
    }

    /** Every space point is left with one hit per plane. */
    method ChooseSingleHit()
      modifies this`spacePoints
      ensures |spacePoints| == old(|spacePoints|)
      ensures forall i :: 0 <= i < |spacePoints| ==>
                spacePoints[i] == old(spacePoints)[i].(hits := Chosen(old(spacePoints)[i].hits))
    {
      for i := 0 to |spacePoints|
        invariant |spacePoints| == old(|spacePoints|)
        invariant forall k :: 0 <= k < i ==>
          spacePoints[k] == old(spacePoints)[k].(hits := Chosen(old(spacePoints)[k].hits))
        invariant forall k :: i <= k < |spacePoints| ==> spacePoints[k] == old(spacePoints)[k]
      {
        var chosen := ChooseHits(spacePoints[i]);
        spacePoints := spacePoints[i := chosen];
      }
    }

    // ---- SelectSpacePoints --------------------------------------------------------------------------

    /** The points with enough hits and combinations moved to the front, in their order. */
    method SelectSpacePoints()
      modifies this`spacePoints
      ensures spacePoints == Selected(old(spacePoints), minHits, minCombos, easySpacePoint)
    {
      ghost var before := spacePoints;
      var count := 0;
      for i := 0 to |spacePoints|
        invariant 0 <= count <= i && |spacePoints| == |before|
        invariant spacePoints[..count] == Selected(before[..i], minHits, minCombos, easySpacePoint)
        invariant spacePoints[i..] == before[i..]
      {
        var sp := spacePoints[i];
        assert sp == spacePoints[i..][0] == before[i];
        SelectNext(before, i, minHits, minCombos, easySpacePoint);
        ghost var held := spacePoints;
        if sp.combos >= minCombos || easySpacePoint {
          if |sp.hits| >= minHits {
            if i > count {
              spacePoints := spacePoints[count := sp];
            }
            assert spacePoints[..count + 1] == held[..count] + [sp];
            count := count + 1;
          }
        }
        assert spacePoints[i + 1..] == held[i..][1..];
      }
      assert before[..|before|] == before;
      spacePoints := spacePoints[..count];
    }

    /**
     After the last two steps every space point left has its hits on distinct planes, at least the
     required number of them, and only hits it had before.
     */
    method ChooseAndSelect()
      modifies this`spacePoints
      ensures forall sp <- spacePoints ::
                && DistinctPlanes(sp.hits) && |sp.hits| >= minHits
                && (sp.combos >= minCombos || easySpacePoint)
                && IsChosenOf(sp, old(spacePoints))
      ensures GoodOnesStay(old(spacePoints), spacePoints, minHits, minCombos, easySpacePoint)
    {
      hide DistinctPlanes, IsChosenOf, GoodOnesStay, Selected;
      ghost var before := spacePoints;
      ChooseSingleHit();
      ghost var after := spacePoints;
      SelectSpacePoints();
      ChosenAndSelected(before, after, minHits, minCombos, easySpacePoint);
    }
  }

  /** The point is one of these with only its chosen hits left. */
  ghost predicate IsChosenOf(sp: SpacePoint, before: seq<SpacePoint>) {
    exists was <- before :: sp == was.(hits := Chosen(was.hits))
  }

  /** Every point with enough chosen hits and enough combinations is still there. */
  ghost predicate GoodOnesStay(before: seq<SpacePoint>, after: seq<SpacePoint>, minHits: int, minCombos: int,
                               easy: bool) {
    forall was <- before ::
      |Chosen(was.hits)| >= minHits && (was.combos >= minCombos || easy) ==> was.(hits := Chosen(was.hits)) in after
  }

  predicate EachChosen(before: seq<SpacePoint>, after: seq<SpacePoint>) {
    |after| == |before| && forall i :: 0 <= i < |before| ==> after[i] == before[i].(hits := Chosen(before[i].hits))
  }

  lemma ChosenOne(before: seq<SpacePoint>, after: seq<SpacePoint>, sp: SpacePoint)
    requires EachChosen(before, after) && sp in after
    ensures DistinctPlanes(sp.hits) && IsChosenOf(sp, before)
  {
    hide DistinctPlanes, Chosen;
    var i :| 0 <= i < |after| && after[i] == sp;
    ChosenIsBestPerPlane(before[i].hits);
    assert before[i] in before;
  }

  lemma ChosenAndSelected(before: seq<SpacePoint>, after: seq<SpacePoint>, minHits: int, minCombos: int, easy: bool)
    requires EachChosen(before, after)
    ensures var kept := Selected(after, minHits, minCombos, easy);
            && (forall sp <- kept :: && DistinctPlanes(sp.hits) && |sp.hits| >= minHits
                                     && (sp.combos >= minCombos || easy) && IsChosenOf(sp, before))
            && GoodOnesStay(before, kept, minHits, minCombos, easy)
  {
    hide DistinctPlanes, Chosen, Selected, IsChosenOf;
    var kept := Selected(after, minHits, minCombos, easy);
    SelectedMembers(after, minHits, minCombos, easy);
    forall sp | sp in kept ensures DistinctPlanes(sp.hits) && IsChosenOf(sp, before) {
      ChosenOne(before, after, sp);
    }
    forall was | was in before && |Chosen(was.hits)| >= minHits && (was.combos >= minCombos || easy)
      ensures was.(hits := Chosen(was.hits)) in kept
    {
      var i :| 0 <= i < |before| && before[i] == was;
      assert after[i] == was.(hits := Chosen(was.hits));
    }
  }

  lemma SelectNext(sps: seq<SpacePoint>, i: nat, minHits: int, minCombos: int, easy: bool)
    requires i < |sps|
    ensures Selected(sps[..i + 1], minHits, minCombos, easy)
            == Selected(sps[..i], minHits, minCombos, easy)
               + (if Acceptable(sps[i], minHits, minCombos, easy) then [sps[i]] else [])
  {
    assert sps[..i + 1][..i] == sps[..i];
  }

  predicate ProperPair(p: Pair) {
    p.hit1 != p.hit2 && OnBothWires(p)
  }

  lemma {:induction false} PairsProper(hits: seq<Hit>, row: nat, col: nat)
    requires row < |hits| && row < col <= |hits| && NoDuplicates(hits)
    ensures forall p <- PairsUpTo(hits, row, col) :: ProperPair(p)
    decreases row, col
  {
    if col == row + 1 {
      if row > 0 {
        PairsProper(hits, row - 1, |hits|);
      }
    } else {
      PairsProper(hits, row, col - 1);
      if Cross(hits[row], hits[col - 1]) {
        PairOnBothWires(hits[row], hits[col - 1]);
      }
    }
  }

  lemma {:induction false} CombosProper(pairs: seq<Pair>, criterion: real, row: nat, col: nat)
    requires row < |pairs| && row < col <= |pairs| && forall p <- pairs :: ProperPair(p)
    ensures forall c <- CombosUpTo(pairs, criterion, row, col) ::
              ProperPair(c.pair1) && ProperPair(c.pair2) && Close(c.pair1, c.pair2, criterion)
    decreases row, col
  {
    if col == row + 1 {
      if row > 0 {
        CombosProper(pairs, criterion, row - 1, |pairs|);
      }
    } else {
      CombosProper(pairs, criterion, row, col - 1);
    }
  }

  /** Every combination is of two pairs of different hits that cross, on the wires, close together. */
  lemma CombosAreProper(hits: seq<Hit>, criterion: real)
    requires NoDuplicates(hits)
    ensures forall c <- HardCombos(HardPairs(hits), criterion) ::
              ProperPair(c.pair1) && ProperPair(c.pair2) && Close(c.pair1, c.pair2, criterion)
  {
    var pairs := HardPairs(hits);
    if |hits| >= 2 {
      PairsProper(hits, |hits| - 2, |hits|);
    }
    hide PairsUpTo, CombosUpTo;
    if |pairs| >= 2 {
      CombosProper(pairs, criterion, |pairs| - 2, |pairs|);
    }
  }
}
