/** The planes of the drift chambers: each takes its hits from the sorted list of raw hits. */
module ChamberPlanes {
  import opened HitList

  /** One time of one wire. */
  datatype WireTime = WireTime(wire: int, time: int)

  /** The hits of a plane: all times, and per wire the first one in the window. */
  datatype PlaneHits = PlaneHits(rawHits: seq<WireTime>, firstPass: seq<WireTime>)

  function Times(h: RawHit, n: nat): seq<WireTime>
    requires n <= |h.data|
  {
    if n == 0 then [] else Times(h, n - 1) + [WireTime(h.counter, h.data[n - 1].value)]
  }

  /** The first of the first n times that is in the window. */
  function FirstInWindow(h: RawHit, lo: int, hi: int, n: nat): (first: seq<WireTime>)
    requires n <= |h.data|
    ensures |first| <= 1
    ensures first == [] <==> forall k :: 0 <= k < n ==> !(lo <= h.data[k].value <= hi)
    ensures first != [] ==> exists k ::
              (0 <= k < n && first == [WireTime(h.counter, h.data[k].value)] && lo <= h.data[k].value <= hi
               && forall j :: 0 <= j < k ==> !(lo <= h.data[j].value <= hi))
  {
    if n == 0 then []
    else
      var before, t := FirstInWindow(h, lo, hi, n - 1), h.data[n - 1].value;
      if before != [] || t < lo || t > hi then before else [WireTime(h.counter, t)]
  }

  function HitsFrom(hits: seq<RawHit>, lo: int, hi: int): PlaneHits {
    if hits == [] then PlaneHits([], [])
    else
      var before, h := HitsFrom(hits[..|hits| - 1], lo, hi), hits[|hits| - 1];
      PlaneHits(before.rawHits + Times(h, |h.data|), before.firstPass + FirstInWindow(h, lo, hi, |h.data|))
  }

  // ---- where the times are -------------------------------------------------------------------------------

  /** The number of times of the first n hits. */
  function TimesBefore(hits: seq<RawHit>, n: nat): nat
    requires n <= |hits|
  {
    if n == 0 then 0 else TimesBefore(hits, n - 1) + |hits[n - 1].data|
  }

  predicate InWindow(h: RawHit, lo: int, hi: int, k: int)
    requires 0 <= k < |h.data|
  {
    h.data[k].value >= lo && h.data[k].value <= hi
  }

  /** Time k is the hit's first one in the window. */
  predicate IsFirst(h: RawHit, lo: int, hi: int, k: int) {
    && 0 <= k < |h.data| && InWindow(h, lo, hi, k)
    && forall j :: 0 <= j < k ==> !InWindow(h, lo, hi, j)
  }

  predicate HasTime(h: RawHit, lo: int, hi: int) {
    exists k :: 0 <= k < |h.data| && InWindow(h, lo, hi, k)
  }

  /** The number of wires with a time in the window among the first n hits. */
  function WiresBefore(hits: seq<RawHit>, lo: int, hi: int, n: nat): nat
    requires n <= |hits|
  {
    if n == 0 then 0 else WiresBefore(hits, lo, hi, n - 1) + if HasTime(hits[n - 1], lo, hi) then 1 else 0
  }

  lemma {:induction false} TimesAre(h: RawHit, n: nat)
    requires n <= |h.data|
    ensures |Times(h, n)| == n
    ensures forall k :: 0 <= k < n ==> Times(h, n)[k] == WireTime(h.counter, h.data[k].value)
  {
    if n > 0 {
      TimesAre(h, n - 1);
    }
  }

  /** All times of the hit are in the one list from `at` on, its first one in the window in the other. */
  ghost predicate StoredAt(p: PlaneHits, h: RawHit, lo: int, hi: int, at: nat, first: nat) {
    && at + |h.data| <= |p.rawHits|
    && (forall k :: 0 <= k < |h.data| ==> p.rawHits[at + k] == WireTime(h.counter, h.data[k].value))
    && forall k :: IsFirst(h, lo, hi, k) ==>
         first < |p.firstPass| && p.firstPass[first] == WireTime(h.counter, h.data[k].value)
  }

  ghost predicate HasItsTimes(p: PlaneHits, hits: seq<RawHit>, lo: int, hi: int, i: nat)
    requires i < |hits|
  {
    StoredAt(p, hits[i], lo, hi, TimesBefore(hits, i), WiresBefore(hits, lo, hi, i))
  }

  /** The plane holds the times of every hit, of each wire after those before it, and nothing else. */
  ghost predicate HoldsAll(p: PlaneHits, hits: seq<RawHit>, lo: int, hi: int) {
    && |p.rawHits| == TimesBefore(hits, |hits|) && |p.firstPass| == WiresBefore(hits, lo, hi, |hits|)
    && forall i: nat :: i < |hits| ==> HasItsTimes(p, hits, lo, hi, i)
  }

  lemma {:induction false} CountsOfFront(hits: seq<RawHit>, h: RawHit, lo: int, hi: int, n: nat)
    requires n <= |hits|
    ensures TimesBefore(hits + [h], n) == TimesBefore(hits, n)
    ensures WiresBefore(hits + [h], lo, hi, n) == WiresBefore(hits, lo, hi, n)
  {
    hide HasTime;
    if n > 0 {
      CountsOfFront(hits, h, lo, hi, n - 1);
    }
  }

  lemma HasFirst(h: RawHit, lo: int, hi: int)
    ensures var first := FirstInWindow(h, lo, hi, |h.data|);
            && |first| == (if HasTime(h, lo, hi) then 1 else 0)
            && forall k :: IsFirst(h, lo, hi, k) ==> first == [WireTime(h.counter, h.data[k].value)]
  {
    var first := FirstInWindow(h, lo, hi, |h.data|);
    if first != [] {
      var k :| 0 <= k < |h.data| && first == [WireTime(h.counter, h.data[k].value)] && lo <= h.data[k].value <= hi
               && forall j :: 0 <= j < k ==> !(lo <= h.data[j].value <= hi);
      assert InWindow(h, lo, hi, k);
      forall l | IsFirst(h, lo, hi, l) ensures l == k {
        assert InWindow(h, lo, hi, l);
      }
    }
  }

  function With(p: PlaneHits, h: RawHit, lo: int, hi: int): PlaneHits {
    PlaneHits(p.rawHits + Times(h, |h.data|), p.firstPass + FirstInWindow(h, lo, hi, |h.data|))
  }

  lemma StaysStored(p: PlaneHits, more: PlaneHits, h: RawHit, lo: int, hi: int, at: nat, first: nat)
    requires StoredAt(p, h, lo, hi, at, first) && p.rawHits <= more.rawHits && p.firstPass <= more.firstPass
    ensures StoredAt(more, h, lo, hi, at, first)
  {
    hide IsFirst;
  }

  lemma NewIsStored(p: PlaneHits, h: RawHit, lo: int, hi: int)
    ensures StoredAt(With(p, h, lo, hi), h, lo, hi, |p.rawHits|, |p.firstPass|)
    ensures |With(p, h, lo, hi).rawHits| == |p.rawHits| + |h.data|
    ensures |With(p, h, lo, hi).firstPass| == |p.firstPass| + if HasTime(h, lo, hi) then 1 else 0
  {
    hide IsFirst, HasTime, FirstInWindow, Times;
    TimesAre(h, |h.data|);
    HasFirst(h, lo, hi);
  }

  /** One more hit: its times follow the others. */
  lemma OneMoreHit(p: PlaneHits, hits: seq<RawHit>, h: RawHit, lo: int, hi: int)
    requires HoldsAll(p, hits, lo, hi)
    ensures HoldsAll(With(p, h, lo, hi), hits + [h], lo, hi)
  {
    var more, all := With(p, h, lo, hi), hits + [h];
    NewIsStored(p, h, lo, hi);
    CountsOfFront(hits, h, lo, hi, |hits|);
    assert p.rawHits <= more.rawHits && p.firstPass <= more.firstPass;
    hide With, StoredAt, HasTime;
    forall i: nat | i < |all| ensures HasItsTimes(more, all, lo, hi, i) {
      CountsOfFront(hits, h, lo, hi, i);
      if i < |hits| {
        assert HasItsTimes(p, hits, lo, hi, i);
        StaysStored(p, more, hits[i], lo, hi, TimesBefore(hits, i), WiresBefore(hits, lo, hi, i));
      }
    }
  }

  lemma {:induction false} PlaneHoldsAll(hits: seq<RawHit>, lo: int, hi: int)
    ensures HoldsAll(HitsFrom(hits, lo, hi), hits, lo, hi)
  {
    hide HasItsTimes, Times, FirstInWindow;
    if hits != [] {
      var front, h := hits[..|hits| - 1], hits[|hits| - 1];
      PlaneHoldsAll(front, lo, hi);
      hide HoldsAll;
      OneMoreHit(HitsFrom(front, lo, hi), front, h, lo, hi);
      assert front + [h] == hits;
    }
  }

  function OfPlane(hits: seq<RawHit>, plane: int): seq<RawHit> {
    if hits == [] then []
    else
      var before, h := OfPlane(hits[..|hits| - 1], plane), hits[|hits| - 1];
      if h.plane == plane then before + [h] else before
  }

  /** Place n separates the hits of planes up to this one from the others. */
  predicate Boundary(hits: seq<RawHit>, n: int, plane: int) {
    && 0 <= n <= |hits|
    && (forall i :: 0 <= i < n ==> hits[i].plane <= plane)
    && forall i :: n <= i < |hits| ==> hits[i].plane > plane
  }

  lemma {:induction false} NoneOfPlane(hits: seq<RawHit>, plane: int)
    requires forall i :: 0 <= i < |hits| ==> hits[i].plane != plane
    ensures OfPlane(hits, plane) == []
  {
    if hits != [] {
      NoneOfPlane(hits[..|hits| - 1], plane);
    }
  }

  /** Between the boundaries of a plane and the one before are exactly its hits. */
  lemma {:induction false} SegmentIsPlane(hits: seq<RawHit>, a: nat, b: nat, plane: int)
    requires a <= b && Boundary(hits, a, plane - 1) && Boundary(hits, b, plane)
    ensures hits[a..b] == OfPlane(hits, plane)
  {
    if b < |hits| {
      SegmentIsPlane(hits[..|hits| - 1], a, b, plane);
    } else if a < b {
      SegmentIsPlane(hits[..b - 1], a, b - 1, plane);
      assert hits[..b - 1][a..b - 1] + [hits[b - 1]] == hits[a..b];
    } else {
      NoneOfPlane(hits, plane);
    }
  }

  class Planes {
    const nPlanes: nat
    const winMin: seq<int>
    const winMax: seq<int>
    var planes: seq<PlaneHits>

    constructor (nPlanes: nat, winMin: seq<int>, winMax: seq<int>)
      requires |winMin| == |winMax| == nPlanes
      ensures this.nPlanes == nPlanes && this.winMin == winMin && this.winMax == winMax && |planes| == nPlanes
    {
      this.nPlanes, this.winMin, this.winMax := nPlanes, winMin, winMax;
      planes := seq(nPlanes, i => PlaneHits([], []));
    }

    predicate Valid()
      reads this
    {
      |planes| == |winMin| == |winMax| == nPlanes
    }

    method AddTimes(ip: nat, hit: RawHit)
      requires Valid() && ip < nPlanes
      modifies this`planes
      ensures Valid()
      ensures var was := old(planes)[ip];
              planes == old(planes)[ip := PlaneHits(was.rawHits + Times(hit, |hit.data|),
                                                    was.firstPass
                                                    + FirstInWindow(hit, winMin[ip], winMax[ip], |hit.data|))]
    {
      var firstHitInWindow := true;
      var raw, first := planes[ip].rawHits, planes[ip].firstPass;
      for mhit := 0 to |hit.data|
        invariant raw == planes[ip].rawHits + Times(hit, mhit)
        invariant first == planes[ip].firstPass + FirstInWindow(hit, winMin[ip], winMax[ip], mhit)
        invariant firstHitInWindow <==> FirstInWindow(hit, winMin[ip], winMax[ip], mhit) == []
      {
        var rawtdc := hit.data[mhit].value;
        raw := raw + [WireTime(hit.counter, rawtdc)];
        if rawtdc < winMin[ip] {
        } else if rawtdc > winMax[ip] {
        } else {
          if firstHitInWindow {
            first := first + [WireTime(hit.counter, rawtdc)];
            firstHitInWindow := false;
          }
        }
      }
      planes := planes[ip := PlaneHits(raw, first)];
    }

    /** The plane's part of the list, which is taken to be sorted by plane. */
    method ProcessHits(ip: nat, rawHits: seq<RawHit>, nextHit: nat) returns (ihit: nat)
      requires Valid() && ip < nPlanes && nextHit <= |rawHits|
      modifies this`planes
      ensures Valid() && nextHit <= ihit <= |rawHits|
      ensures forall k :: nextHit <= k < ihit ==> rawHits[k].plane <= ip + 1
      ensures ihit < |rawHits| ==> rawHits[ihit].plane > ip + 1
      ensures planes == old(planes)[ip := HitsFrom(rawHits[nextHit..ihit], winMin[ip], winMax[ip])]
    {
      hide HitsFrom, Times, FirstInWindow;
      ghost var before := planes;
      planes := planes[ip := PlaneHits([], [])];
      ihit := nextHit;
      NoHits(rawHits, nextHit, winMin[ip], winMax[ip]);
      while ihit < |rawHits|
        invariant Valid() && nextHit <= ihit <= |rawHits|
        invariant forall k :: nextHit <= k < ihit ==> rawHits[k].plane <= ip + 1
        invariant planes == before[ip := HitsFrom(rawHits[nextHit..ihit], winMin[ip], winMax[ip])]
      {
        if rawHits[ihit].plane > ip + 1 {
          break;
        }
        NextHit(rawHits, nextHit, ihit, winMin[ip], winMax[ip]);
        AddTimes(ip, rawHits[ihit]);
        ihit := ihit + 1;
      }
    }

    /**
     All planes in turn.  Of a sorted list with plane numbers from 1 on, every plane gets exactly its
     own hits, each once and in order; hits beyond the last plane are left over.
     */
    method Decode(rawHits: seq<RawHit>) returns (nextHit: nat)
      requires Valid() && Increasing(rawHits) && forall i :: 0 <= i < |rawHits| ==> rawHits[i].plane >= 1
      modifies this`planes
      ensures Valid() && Boundary(rawHits, nextHit, nPlanes)
      ensures forall ip :: 0 <= ip < nPlanes ==>
                && planes[ip] == HitsFrom(OfPlane(rawHits, ip + 1), winMin[ip], winMax[ip])
                && HoldsAll(planes[ip], OfPlane(rawHits, ip + 1), winMin[ip], winMax[ip])
    {
      hide HitsFrom, OfPlane, Increasing, HoldsAll;
      nextHit := 0;
      for ip := 0 to nPlanes
        invariant Valid() && Boundary(rawHits, nextHit, ip)
        invariant forall k :: 0 <= k < ip ==> planes[k] == HitsFrom(OfPlane(rawHits, k + 1), winMin[k], winMax[k])
      {
        ghost var first := nextHit;
        nextHit := ProcessHits(ip, rawHits, nextHit);
        BoundaryFound(rawHits, first, nextHit, ip + 1);
        SegmentIsPlane(rawHits, first, nextHit, ip + 1);
      }
      forall ip | 0 <= ip < nPlanes ensures HoldsAll(planes[ip], OfPlane(rawHits, ip + 1), winMin[ip], winMax[ip]) {
        PlaneHoldsAll(OfPlane(rawHits, ip + 1), winMin[ip], winMax[ip]);
      }
    }
  }

  lemma NoHits(hits: seq<RawHit>, a: nat, lo: int, hi: int)
    requires a <= |hits|
    ensures HitsFrom(hits[a..a], lo, hi) == PlaneHits([], [])
  {
  }

  lemma NextHit(hits: seq<RawHit>, a: nat, b: nat, lo: int, hi: int)
    requires a <= b < |hits|
    ensures var before, h := HitsFrom(hits[a..b], lo, hi), hits[b];
            HitsFrom(hits[a..b + 1], lo, hi)
            == PlaneHits(before.rawHits + Times(h, |h.data|), before.firstPass + FirstInWindow(h, lo, hi, |h.data|))
  {
    hide Times, FirstInWindow;
    assert hits[a..b + 1][..b - a] == hits[a..b];
  }

  lemma BoundaryFound(hits: seq<RawHit>, a: nat, b: nat, plane: int)
    requires Increasing(hits) && Boundary(hits, a, plane - 1) && a <= b <= |hits|
    requires forall k :: a <= k < b ==> hits[k].plane <= plane
    requires b < |hits| ==> hits[b].plane > plane
    ensures Boundary(hits, b, plane)
  {
    forall i | b <= i < |hits| ensures hits[i].plane > plane {
      if i > b {
        assert Compare(hits[b], hits[i]) < 0;
      }
    }
  }

  // ---- wires and positions -------------------------------------------------------------------------------

  /** How the wires of a plane are laid out; order 1 counts them backwards. */
  datatype Layout = Layout(order: int, pitch: real, centralWire: real, centre: real, nWires: int)

  function WirePosition(l: Layout, wire: int): real {
    l.pitch * ((if l.order == 0 then wire as real else (l.nWires - (wire - 1)) as real) - l.centralWire) - l.centre
  }

  function WireFromPosition(l: Layout, pos: real): real
    requires l.pitch != 0.0
  {
    if l.order == 0 then (pos + l.centre) / l.pitch + l.centralWire
    else if l.order == 1 then 1.0 - ((pos + l.centre) / l.pitch + l.centralWire - l.nWires as real)
    else -1000.0
  }

  /**
   The wires are one pitch apart, in the direction of their order; a wire that is the central one, or
   that is as far from the last as the central one is from 1 when the order is reversed, is at the
   centre.
   */
  lemma WireSpacing(l: Layout, wire: int)
    ensures WirePosition(l, wire + 1) - WirePosition(l, wire) == if l.order == 0 then l.pitch else -l.pitch
    ensures (if l.order == 0 then wire as real == l.centralWire
             else wire as real == l.nWires as real + 1.0 - l.centralWire) ==> WirePosition(l, wire) == -l.centre
  {
    Spaced(l.pitch, (if l.order == 0 then wire as real else (l.nWires - (wire - 1)) as real) - l.centralWire);
  }

  lemma Spaced(pitch: real, x: real)
    ensures pitch * (x + 1.0) == pitch * x + pitch && pitch * (x - 1.0) == pitch * x - pitch
  {
  }

  lemma Quotient(x: real, d: real)
    requires d != 0.0
    ensures d * x / d == x
  {
  }

  /** The wire number calculated from the position of a wire is that wire's. */
  lemma WireOfItsPosition(l: Layout, wire: int)
    requires l.pitch != 0.0 && (l.order == 0 || l.order == 1)
    ensures WireFromPosition(l, WirePosition(l, wire)) == wire as real
  {
    Quotient((if l.order == 0 then wire as real else (l.nWires - (wire - 1)) as real) - l.centralWire, l.pitch);
  }
}
