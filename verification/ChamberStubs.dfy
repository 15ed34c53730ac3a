/**
 The last steps of the pattern recognition in a chamber: one hit per plane is chosen in each space
 point, the points with enough hits are kept, and each is given its left/right signs and its stub.
 */
module ChamberStubs {
  import opened Basics
  import opened SpacePoints
  import opened HitChoice
  import DriftChamber
  import opened PlanePatterns
  import opened StubFit
  import opened LeftRight

  /** The drift distance that a hit has in a space point, corrected for where the point is. */
  type Drift = (SpacePoint, Hit) -> real

  function StubHits(sp: SpacePoint, drift: Drift): (hits: seq<StubHit>)
    ensures |hits| == |sp.hits|
    ensures forall i :: 0 <= i < |hits| ==>
              hits[i] == StubHit(sp.hits[i].plane, sp.hits[i].pos, drift(sp, sp.hits[i]))
  {
    seq(|sp.hits|, i requires 0 <= i < |sp.hits| => StubHit(sp.hits[i].plane, sp.hits[i].pos, drift(sp, sp.hits[i])))
  }

  predicate OnChamber(g: Geometry, hits: seq<Hit>) {
    forall h <- hits :: 0 <= h.plane < |g.coefs|
  }

  /** Hits on distinct planes of the chamber make a pattern with as many bits as hits. */
  lemma PatternOfHits(g: Geometry, sp: SpacePoint, drift: Drift)
    requires g.Valid() && OnChamber(g, sp.hits) && DistinctPlanes(sp.hits)
    ensures var hits := StubHits(sp, drift);
            OnPlanes(g, hits) && OnePerPlane(hits) && Count1Bits(Mask(PlanesOf(hits))) as int == |sp.hits|
  {
    hide Mask, Count1Bits, PlanesOf;
    BitsAreHits(g, StubHits(sp, drift));
  }

  /** With at most two planes missing the table has an entry for the pattern, made of exactly the planes hit. */
  lemma MatrixOfHits(c: LeftRight.Chamber, sp: SpacePoint, drift: Drift)
    requires c.Valid() && OnChamber(c.g, sp.hits) && DistinctPlanes(sp.hits) && |sp.hits| >= |c.g.coefs| - 2
    ensures var planes := PlanesOf(StubHits(sp, drift));
            && PatternOf(planes) in c.table && IsNormal(c.g, c.table[PatternOf(planes)], planes)
            && forall p :: p in planes <==> exists i :: 0 <= i < |sp.hits| && sp.hits[i].plane == p
  {
    hide PlanesOf, PatternOf, IsNormal;
    var hits := StubHits(sp, drift);
    PatternOfHits(c.g, sp, drift);
    PlanesCounted(hits);
    PlanesKnown(c.g, hits);
    assert EntryRight(c.g, c.table, PlanesOf(hits));
    forall p ensures p in PlanesOf(hits) <==> exists i :: 0 <= i < |sp.hits| && sp.hits[i].plane == p {
      InPlanesOf(hits, p);
      assert forall i :: 0 <= i < |hits| ==> hits[i].plane == sp.hits[i].plane;
    }
  }

  /** The space point has been searched for signs, with this result. */
  ghost predicate Finished(c: LeftRight.Chamber, p: StubPoint)
    requires c.Valid() && OnPlanes(c.g, p.hits)
    reads p
  {
    exists known, answer ::
      RightAnswer(c, p.x, p.hits, known, answer) && if answer.found then Written(c, p, answer) else p.Untouched()
  }

  /** The space point is searched with its hits, on distinct planes. */
  ghost predicate SearchedFor(c: LeftRight.Chamber, sp: SpacePoint, drift: Drift, p: StubPoint)
    requires c.Valid()
    reads p
  {
    && p.x == sp.x && p.hits == StubHits(sp, drift) && OnPlanes(c.g, p.hits)
    && Count1Bits(Mask(PlanesOf(p.hits))) as int == |sp.hits|
    && Finished(c, p)
  }

  /** All space points of a chamber in turn. */
  method LeftRightAll(c: LeftRight.Chamber, sps: seq<SpacePoint>, drift: Drift) returns (points: seq<StubPoint>)
    requires c.Valid() && c.AllInverted() && forall sp <- sps :: DistinctPlanes(sp.hits) && OnChamber(c.g, sp.hits)
    ensures |points| == |sps| && forall i :: 0 <= i < |sps| ==> SearchedFor(c, sps[i], drift, points[i])
  {
    hide Mask, Count1Bits, RightAnswer, Written, PlanesOf;
    points := [];
    for isp := 0 to |sps|
      invariant |points| == isp
      invariant forall i :: 0 <= i < isp ==> SearchedFor(c, sps[i], drift, points[i])
    {
      PatternOfHits(c.g, sps[isp], drift);
      var p := new StubPoint(sps[isp].x, StubHits(sps[isp], drift));
      ghost var known, answer := FindSigns(c, p);
      assert Finished(c, p);
      points := points + [p];
    }
  }

  /**
   The chamber chooses one hit per plane, keeps the points with enough hits, and gives each its signs
   and its stub: what the choice promises is what the search needs.
   */
  method FinishChamber(chamber: DriftChamber.Chamber, c: LeftRight.Chamber, drift: Drift)
    returns (points: seq<StubPoint>)
    requires c.Valid() && c.AllInverted() && forall sp <- chamber.spacePoints :: OnChamber(c.g, sp.hits)
    modifies chamber`spacePoints
    ensures forall sp <- chamber.spacePoints ::
              && DistinctPlanes(sp.hits) && |sp.hits| >= chamber.minHits
              && exists was :: was in old(chamber.spacePoints) && sp == was.(hits := Chosen(was.hits))
    ensures |points| == |chamber.spacePoints|
    ensures forall i :: 0 <= i < |points| ==> SearchedFor(c, chamber.spacePoints[i], drift, points[i])
  {
    hide SearchedFor, Chosen, DistinctPlanes;
    ghost var before := chamber.spacePoints;
    chamber.ChooseAndSelect();
    forall sp | sp in chamber.spacePoints ensures OnChamber(c.g, sp.hits) {
      var was :| was in before && sp == was.(hits := Chosen(was.hits));
      ChosenIsBestPerPlane(was.hits);
    }
    points := LeftRightAll(c, chamber.spacePoints, drift);
  }
}
