/** Signs that are known before the search: hits of two planes that face each other point at each other. */
module KnownSigns {
  import opened Basics
  import opened StubFit
  import opened SignChoices

  /** The chamber's style; the two planes are the facing ones of the old style. */
  datatype Style = Style(hms: bool, smallAngle: bool, yPlane: int, yPlanePrime: int)

  /** Hit a is on the first, hit b on the second of two facing planes. */
  predicate Facing(style: Style, a: StubHit, b: StubHit) {
    style.smallAngle
    && if style.hms then a.plane == style.yPlane && b.plane == style.yPlanePrime
       else a.plane % 2 == 0 && b.plane - a.plane == 1 && -0.51 < b.pos - a.pos < 0.51
  }

  predicate Point(hits: seq<StubHit>, known: seq<int>, i: nat, j: nat)
    requires i < |hits| == |known| && j < |hits|
  {
    known[i] == (if hits[j].pos <= hits[i].pos then -1 else 1) && known[j] == -known[i]
  }

  /** The pairs (i, j) the two loops have compared when they stand at (n, m). */
  predicate Seen(i: int, j: int, n: int, m: int) {
    i < n || (i == n && j < m)
  }

  /** Of the pairs seen, the facing ones point at each other, and nothing else is known. */
  ghost predicate KnownUpTo(style: Style, hits: seq<StubHit>, known: seq<int>, n: int, m: int) {
    && |known| == |hits|
    && Known(known)
    && (forall i, j :: 0 <= i < |hits| && 0 <= j < |hits| && Seen(i, j, n, m) && Facing(style, hits[i], hits[j])
          ==> Point(hits, known, i, j))
    && forall i :: 0 <= i < |hits| && known[i] != 0 ==> Paired(style, hits, i, n, m)
  }

  ghost predicate Paired(style: Style, hits: seq<StubHit>, i: nat, n: int, m: int)
    requires i < |hits|
  {
    exists j :: 0 <= j < |hits| && ((Seen(i, j, n, m) && Facing(style, hits[i], hits[j]))
                                    || (Seen(j, i, n, m) && Facing(style, hits[j], hits[i])))
  }

  ghost predicate AllKnown(style: Style, hits: seq<StubHit>, known: seq<int>) {
    KnownUpTo(style, hits, known, |hits|, 0)
  }

  predicate StyleSound(style: Style) {
    style.hms ==> style.yPlane != style.yPlanePrime
  }

  /** The two hits of a facing pair are seen together for the first time: neither is known yet. */
  lemma {:induction false} BothUnknown(style: Style, hits: seq<StubHit>, known: seq<int>, n: nat, m: nat)
    requires StyleSound(style) && OnePerPlane(hits) && n < |hits| && m < |hits|
    requires KnownUpTo(style, hits, known, n, m) && Facing(style, hits[n], hits[m])
    ensures n != m && known[n] == 0 && known[m] == 0
  {
    NotPaired(style, hits, n, m);
  }

  lemma NotPaired(style: Style, hits: seq<StubHit>, n: nat, m: nat)
    requires StyleSound(style) && OnePerPlane(hits) && n < |hits| && m < |hits| && Facing(style, hits[n], hits[m])
    ensures n != m && !Paired(style, hits, n, n, m) && !Paired(style, hits, m, n, m)
  {
  }

  lemma NotFacing(style: Style, hits: seq<StubHit>, known: seq<int>, n: nat, m: nat)
    requires n < |hits| && m < |hits| && KnownUpTo(style, hits, known, n, m) && !Facing(style, hits[n], hits[m])
    ensures KnownUpTo(style, hits, known, n, m + 1)
  {
    hide Facing;
    forall i | 0 <= i < |hits| && known[i] != 0 ensures Paired(style, hits, i, n, m + 1) {
      assert Paired(style, hits, i, n, m);
    }
  }

  lemma PairPoints(style: Style, hits: seq<StubHit>, known: seq<int>, n: nat, m: nat, sign: int)
    requires StyleSound(style) && OnePerPlane(hits) && n < |hits| && m < |hits|
    requires KnownUpTo(style, hits, known, n, m) && Facing(style, hits[n], hits[m])
    requires sign == if hits[m].pos <= hits[n].pos then -1 else 1
    ensures KnownUpTo(style, hits, known[n := sign][m := -sign], n, m + 1)
    ensures Free(known) == Free(known[n := sign][m := -sign]) + 2
  {
    BothUnknown(style, hits, known, n, m);
    OneMoreKnown(known, n, sign);
    OneMoreKnown(known[n := sign], m, -sign);
    hide Free;
    var after := known[n := sign][m := -sign];
    OthersPoint(style, hits, known, after, n, m);
    hide Facing;
    forall i | 0 <= i < |hits| && after[i] != 0 ensures Paired(style, hits, i, n, m + 1) {
      if i != n && i != m {
        assert Paired(style, hits, i, n, m);
      }
    }
  }

  lemma OthersPoint(style: Style, hits: seq<StubHit>, known: seq<int>, after: seq<int>, n: nat, m: nat)
    requires n < |hits| && m < |hits| && KnownUpTo(style, hits, known, n, m) && |after| == |hits|
    requires n != m && known[n] == 0 && known[m] == 0 && Point(hits, after, n, m)
    requires forall i :: 0 <= i < |hits| && i != n && i != m ==> after[i] == known[i]
    ensures forall i, j ::
              0 <= i < |hits| && 0 <= j < |hits| && Seen(i, j, n, m + 1) && Facing(style, hits[i], hits[j]) ==>
                Point(hits, after, i, j)
  {
    hide Facing;
    forall i, j | 0 <= i < |hits| && 0 <= j < |hits| && Seen(i, j, n, m + 1) && Facing(style, hits[i], hits[j])
      ensures Point(hits, after, i, j)
    {
      if Seen(i, j, n, m) {
        assert Point(hits, known, i, j);
      }
    }
  }

  lemma RowSeen(style: Style, hits: seq<StubHit>, known: seq<int>, n: nat)
    requires KnownUpTo(style, hits, known, n, |hits|)
    ensures KnownUpTo(style, hits, known, n + 1, 0)
  {
    forall i | 0 <= i < |hits| && known[i] != 0 ensures Paired(style, hits, i, n + 1, 0) {
      assert Paired(style, hits, i, n, |hits|);
    }
  }

  /** Brookhaven style: adjacent planes. */
  method PairAdjacent(style: Style, hits: seq<StubHit>) returns (known: seq<int>, npaired: nat)
    requires !style.hms && style.smallAngle && OnePerPlane(hits)
    ensures AllKnown(style, hits, known) && npaired + Free(known) == |hits|
  {
    hide KnownUpTo, Free;
    known := seq(|hits|, i => 0);
    npaired := 0;
    NothingKnown(known);
    NonePaired(style, hits, known);
    for i := 0 to |hits|
      invariant KnownUpTo(style, hits, known, i, 0) && npaired + Free(known) == |hits|
    {
      if hits[i].plane % 2 == 0 {
        for j := 0 to |hits|
          invariant KnownUpTo(style, hits, known, i, j) && npaired + Free(known) == |hits|
        {
          known, npaired := TryPair(style, hits, known, npaired, i, j);
        }
      } else {
        NoneFaces(style, hits, known, i);
      }
      RowSeen(style, hits, known, i);
    }
  }

  lemma NonePaired(style: Style, hits: seq<StubHit>, known: seq<int>)
    requires |known| == |hits| && forall i :: 0 <= i < |known| ==> known[i] == 0
    ensures KnownUpTo(style, hits, known, 0, 0)
  {
  }

  lemma NoneFaces(style: Style, hits: seq<StubHit>, known: seq<int>, n: nat)
    requires n < |hits| && KnownUpTo(style, hits, known, n, 0)
    requires forall j :: 0 <= j < |hits| ==> !Facing(style, hits[n], hits[j])
    ensures KnownUpTo(style, hits, known, n, |hits|)
  {
    forall i | 0 <= i < |hits| && known[i] != 0 ensures Paired(style, hits, i, n, |hits|) {
      assert Paired(style, hits, i, n, 0);
    }
  }

  method TryPair(style: Style, hits: seq<StubHit>, before: seq<int>, npairedBefore: nat, i: nat, j: nat)
    returns (known: seq<int>, npaired: nat)
    requires !style.hms && style.smallAngle && OnePerPlane(hits) && i < |hits| && j < |hits|
    requires KnownUpTo(style, hits, before, i, j) && npairedBefore + Free(before) == |hits|
    requires hits[i].plane % 2 == 0
    ensures KnownUpTo(style, hits, known, i, j + 1) && npaired + Free(known) == |hits|
  {
    known, npaired := before, npairedBefore;
    var apart := hits[j].pos - hits[i].pos;
    if hits[j].plane - hits[i].plane == 1 && (if apart >= 0.0 then apart else -apart) < 0.51 {
      PairPoints(style, hits, known, i, j, if hits[j].pos <= hits[i].pos then -1 else 1);
      hide KnownUpTo, Free;
      if hits[j].pos <= hits[i].pos {
        known := known[i := -1];
        known := known[j := 1];
      } else {
        known := known[i := 1];
        known := known[j := -1];
      }
      npaired := npaired + 2;
    } else {
      NotFacing(style, hits, known, i, j);
    }
  }

  /** Old style: the two Y planes. */
  method PairYPlanes(style: Style, hits: seq<StubHit>) returns (known: seq<int>, nplusminus: nat)
    requires style.hms && StyleSound(style) && OnePerPlane(hits)
    ensures AllKnown(style, hits, known) && nplusminus == Pow2(Free(known))
  {
    known := seq(|hits|, i => 0);
    NothingKnown(known);
    var hasy1, hasy2 := -1, -1;
    for ihit := 0 to |hits|
      invariant -1 <= hasy1 < ihit && -1 <= hasy2 < ihit
      invariant hasy1 >= 0 ==> hits[hasy1].plane == style.yPlane
      invariant hasy2 >= 0 ==> hits[hasy2].plane == style.yPlanePrime
      invariant hasy1 < 0 ==> forall k :: 0 <= k < ihit ==> hits[k].plane != style.yPlane
      invariant hasy2 < 0 ==> forall k :: 0 <= k < ihit ==> hits[k].plane != style.yPlanePrime
    {
      if hits[ihit].plane == style.yPlane {
        hasy1 := ihit;
      }
      if hits[ihit].plane == style.yPlanePrime {
        hasy2 := ihit;
      }
    }
    nplusminus := Pow2(|hits|);
    if style.smallAngle && hasy1 >= 0 && hasy2 >= 0 {
      OneMoreKnown(known, hasy1, if hits[hasy2].pos <= hits[hasy1].pos then -1 else 1);
      ghost var zeros := known;
      if hits[hasy2].pos <= hits[hasy1].pos {
        known := known[hasy1 := -1];
        OneMoreKnown(known, hasy2, 1);
        known := known[hasy2 := 1];
      } else {
        known := known[hasy1 := 1];
        OneMoreKnown(known, hasy2, -1);
        known := known[hasy2 := -1];
      }
      nplusminus := Pow2(|hits| - 2);
      OnlyPair(style, hits, known, hasy1, hasy2);
    } else {
      NobodyFaces(style, hits, known);
    }
  }

  lemma OnlyPair(style: Style, hits: seq<StubHit>, known: seq<int>, y1: nat, y2: nat)
    requires style.hms && style.smallAngle && StyleSound(style) && OnePerPlane(hits) && |known| == |hits|
    requires y1 < |hits| && y2 < |hits| && hits[y1].plane == style.yPlane && hits[y2].plane == style.yPlanePrime
    requires Point(hits, known, y1, y2)
    requires forall i :: 0 <= i < |hits| && i != y1 && i != y2 ==> known[i] == 0
    ensures AllKnown(style, hits, known)
  {
    assert Facing(style, hits[y1], hits[y2]);
    assert Seen(y1, y2, |hits|, 0);
    assert Paired(style, hits, y1, |hits|, 0) && Paired(style, hits, y2, |hits|, 0);
  }

  lemma NobodyFaces(style: Style, hits: seq<StubHit>, known: seq<int>)
    requires |known| == |hits| && forall i :: 0 <= i < |known| ==> known[i] == 0
    requires forall i, j :: 0 <= i < |hits| && 0 <= j < |hits| ==> !Facing(style, hits[i], hits[j])
    ensures AllKnown(style, hits, known)
  {
  }

  /** The known signs, and the number of ways to choose the others. */
  method FindKnown(style: Style, hits: seq<StubHit>) returns (known: seq<int>, nplusminus: nat)
    requires StyleSound(style) && OnePerPlane(hits)
    ensures AllKnown(style, hits, known) && nplusminus == Pow2(Free(known))
    ensures |known| == |hits| && Known(known)
  {
    if style.hms {
      known, nplusminus := PairYPlanes(style, hits);
    } else if style.smallAngle {
      var npaired;
      known, npaired := PairAdjacent(style, hits);
      nplusminus := Pow2(|hits| - npaired);
    } else {
      known := seq(|hits|, i => 0);
      NothingKnown(known);
      NobodyFaces(style, hits, known);
      nplusminus := Pow2(|hits|);
    }
  }

  // ---- which signs are known, and what they say --------------------------------------------------------

  /** The hits are on planes 0 and 1, 2 and 3, or 4 and 5, and closer than 0.51 to each other. */
  predicate Neighbours(a: StubHit, b: StubHit) {
    && a.plane != b.plane && a.plane / 2 == b.plane / 2
    && Abs(a.pos - b.pos) < 0.51
  }

  /** The hits are on the two Y planes. */
  predicate OnYPlanes(style: Style, a: StubHit, b: StubHit) {
    || (a.plane == style.yPlane && b.plane == style.yPlanePrime)
    || (b.plane == style.yPlane && a.plane == style.yPlanePrime)
  }

  lemma FacingIff(style: Style, a: StubHit, b: StubHit)
    ensures Facing(style, a, b) || Facing(style, b, a)
            <==> style.smallAngle && if style.hms then OnYPlanes(style, a, b) else Neighbours(a, b)
  {
  }

  /** A sign is known exactly when the small angle is asked for and the hit has one to point at. */
  lemma KnownIff(style: Style, hits: seq<StubHit>, known: seq<int>, i: nat)
    requires AllKnown(style, hits, known) && i < |hits|
    ensures known[i] != 0
            <==> style.smallAngle
                 && exists j ::
                      && 0 <= j < |hits|
                      && if style.hms then OnYPlanes(style, hits[i], hits[j]) else Neighbours(hits[i], hits[j])
  {
    hide Facing, OnYPlanes, Neighbours;
    forall j | 0 <= j < |hits|
      ensures Facing(style, hits[i], hits[j]) || Facing(style, hits[j], hits[i])
              <==> style.smallAngle
                   && if style.hms then OnYPlanes(style, hits[i], hits[j]) else Neighbours(hits[i], hits[j])
      ensures Facing(style, hits[i], hits[j]) ==> Point(hits, known, i, j)
      ensures Facing(style, hits[j], hits[i]) ==> Point(hits, known, j, i)
    {
      FacingIff(style, hits[i], hits[j]);
      assert Seen(i, j, |hits|, 0) && Seen(j, i, |hits|, 0);
    }
    if known[i] != 0 {
      assert Paired(style, hits, i, |hits|, 0);
    }
  }

  /**
   Facing hits point at each other: moved by their distances in the direction of their signs, as long
   as they do not pass each other, they come closer by both distances.
   */
  lemma Closer(style: Style, hits: seq<StubHit>, known: seq<int>, i: nat, j: nat, d: real, e: real)
    requires AllKnown(style, hits, known) && i < |hits| && j < |hits| && Facing(style, hits[i], hits[j])
    requires d >= 0.0 && e >= 0.0 && d + e <= Abs(hits[i].pos - hits[j].pos)
    ensures Abs((hits[i].pos + known[i] as real * d) - (hits[j].pos + known[j] as real * e))
            == Abs(hits[i].pos - hits[j].pos) - d - e
    ensures hits[i].pos == hits[j].pos ==> known[i] == -1 && known[j] == 1
  {
    assert Seen(i, j, |hits|, 0);
    assert Point(hits, known, i, j);
    hide Facing;
    Signed(known[i], d);
    Signed(known[j], e);
  }

  lemma Signed(sign: int, d: real)
    requires sign == 1 || sign == -1
    ensures sign as real * d == if sign == 1 then d else -d
  {
  }
}
