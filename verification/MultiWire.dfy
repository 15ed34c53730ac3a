/**
 Cloning of space points that hold several hits of one plane: one clone for every choice of one hit
 per plane (six planes, as the old HMS chambers have).
 */
module MultiWire {
  import opened SpacePoints

  const NPLANES := 6
  const MOST_POINTS := 20

  type ByPlane = p: seq<seq<Hit>> | |p| == NPLANES witness [[], [], [], [], [], []]

  /** The hits of plane p, in the order in which the space point holds them. */
  function OnPlane(hits: seq<Hit>, p: int): seq<Hit> {
    if hits == [] then []
    else
      var before, h := OnPlane(hits[..|hits| - 1], p), hits[|hits| - 1];
      if h.plane == p then before + [h] else before
  }

  function SortByPlane(hits: seq<Hit>): ByPlane {
    [OnPlane(hits, 0), OnPlane(hits, 1), OnPlane(hits, 2), OnPlane(hits, 3), OnPlane(hits, 4), OnPlane(hits, 5)]
  }

  predicate InPlanes(hits: seq<Hit>) {
    forall h <- hits :: 0 <= h.plane < NPLANES
  }

  /** Planes with more than `threshold` hits. */
  function Busy(planes: ByPlane, threshold: nat): set<int> {
    set p | 0 <= p < NPLANES && |planes[p]| > threshold
  }

  function Factor(hits: seq<Hit>): (n: nat)
    ensures n >= 1
  {
    if |hits| == 0 then 1 else |hits|
  }

  /** The number of ways to choose one hit on each plane that has any. */
  function Choices(planes: ByPlane): nat {
    Factor(planes[0]) * Factor(planes[1]) * Factor(planes[2]) * Factor(planes[3]) * Factor(planes[4])
    * Factor(planes[5])
  }

  /** The conditions for cloning, with `total` points in the chamber. */
  predicate Clonable(planes: ByPlane, total: nat) {
    && |Busy(planes, 0)| >= 4
    && 0 < |Busy(planes, 1)| < 4
    && total + Choices(planes) - 1 < MOST_POINTS
  }

  /** The same for the first n planes. */
  function ChoicesUpTo(planes: ByPlane, n: nat): nat
    requires n <= NPLANES
  {
    if n == 0 then 1 else ChoicesUpTo(planes, n - 1) * Factor(planes[n - 1])
  }

  lemma AllChoices(planes: ByPlane)
    ensures ChoicesUpTo(planes, NPLANES) == Choices(planes)
  {
    hide Factor;
    assert ChoicesUpTo(planes, 1) == Factor(planes[0]);
    assert ChoicesUpTo(planes, 2) == ChoicesUpTo(planes, 1) * Factor(planes[1]);
    assert ChoicesUpTo(planes, 3) == ChoicesUpTo(planes, 2) * Factor(planes[2]);
    assert ChoicesUpTo(planes, 4) == ChoicesUpTo(planes, 3) * Factor(planes[3]);
    assert ChoicesUpTo(planes, 5) == ChoicesUpTo(planes, 4) * Factor(planes[4]);
  }

  /** The planes below n with more than `threshold` hits. */
  function BusyUpTo(planes: ByPlane, threshold: nat, n: nat): set<int> {
    set p | 0 <= p < NPLANES && p < n && |planes[p]| > threshold
  }

  lemma OneMoreBusy(planes: ByPlane, threshold: nat, n: nat)
    requires n < NPLANES
    ensures |BusyUpTo(planes, threshold, n + 1)|
            == |BusyUpTo(planes, threshold, n)| + if |planes[n]| > threshold then 1 else 0
    ensures n + 1 == NPLANES ==> BusyUpTo(planes, threshold, n + 1) == Busy(planes, threshold)
  {
    assert BusyUpTo(planes, threshold, n + 1)
        == BusyUpTo(planes, threshold, n) + if |planes[n]| > threshold then {n as int} else {};
  }

  lemma PlacedInPlanes(planes: seq<seq<Hit>>, hits: seq<Hit>)
    requires |planes| == NPLANES && forall p :: 0 <= p < NPLANES ==> planes[p] == OnPlane(hits, p)
    ensures planes == SortByPlane(hits)
  {
    hide OnPlane;
    assert planes == [planes[0], planes[1], planes[2], planes[3], planes[4], planes[5]];
  }

  // ---- planes in order of decreasing number of hits -----------------------------------------------

  predicate IsOrder(order: seq<int>) {
    && |order| == NPLANES
    && (forall i :: 0 <= i < NPLANES ==> 0 <= order[i] < NPLANES)
    && (forall i, j :: 0 <= i < j < NPLANES ==> order[i] != order[j])
  }

  /** The planes' hits in the given order of planes. */
  function Ranked(planes: ByPlane, order: seq<int>): (ranked: ByPlane)
    requires IsOrder(order)
    ensures forall r :: 0 <= r < NPLANES ==> ranked[r] == planes[order[r]]
  {
    seq(NPLANES, r requires 0 <= r < NPLANES => planes[order[r]])
  }

  predicate Decreasing(ranked: ByPlane) {
    |ranked[0]| >= |ranked[1]| >= |ranked[2]| >= |ranked[3]| >= |ranked[4]| >= |ranked[5]|
  }

  /** Place i has at least as many hits as the places after it and before n. */
  predicate LeadsUpTo(planes: ByPlane, order: seq<int>, i: nat, n: nat)
    requires IsOrder(order) && i < NPLANES && n <= NPLANES
  {
    forall l :: i < l < n ==> |planes[order[i]]| >= |planes[order[l]]|
  }

  /** Each of the first n places leads all places after it. */
  predicate LeadersPlaced(planes: ByPlane, order: seq<int>, n: nat)
    requires IsOrder(order) && n <= NPLANES
  {
    forall k :: 0 <= k < n ==> LeadsUpTo(planes, order, k, NPLANES)
  }

  function Swapped(s: seq<int>, i: nat, j: nat): seq<int>
    requires i < |s| && j < |s|
  {
    s[i := s[j]][j := s[i]]
  }

  lemma SwapKeeps(planes: ByPlane, order: seq<int>, i: nat, j: nat)
    requires IsOrder(order) && i < j < NPLANES && LeadersPlaced(planes, order, i) && LeadsUpTo(planes, order, i, j)
    requires |planes[order[j]]| > |planes[order[i]]|
    ensures IsOrder(Swapped(order, i, j)) && LeadersPlaced(planes, Swapped(order, i, j), i)
    ensures LeadsUpTo(planes, Swapped(order, i, j), i, j + 1)
  {
    var after := Swapped(order, i, j);
    forall k | 0 <= k < i ensures LeadsUpTo(planes, after, k, NPLANES) {
      assert LeadsUpTo(planes, order, k, NPLANES);
      forall l | k < l < NPLANES ensures |planes[after[k]]| >= |planes[after[l]]| {
        assert after[l] == order[if l == i then j else if l == j then i else l];
      }
    }
  }

  lemma PlacedIsDecreasing(planes: ByPlane, order: seq<int>)
    requires IsOrder(order) && LeadersPlaced(planes, order, NPLANES - 1)
    ensures Decreasing(Ranked(planes, order))
  {
    NextHasFewer(planes, order, 0);
    NextHasFewer(planes, order, 1);
    NextHasFewer(planes, order, 2);
    NextHasFewer(planes, order, 3);
    NextHasFewer(planes, order, 4);
  }

  lemma NextHasFewer(planes: ByPlane, order: seq<int>, k: nat)
    requires IsOrder(order) && LeadersPlaced(planes, order, NPLANES - 1) && k < NPLANES - 1
    ensures |Ranked(planes, order)[k]| >= |Ranked(planes, order)[k + 1]|
  {
    assert LeadsUpTo(planes, order, k, NPLANES);
  }

  /** Three busiest planes, one hit on the fourth, at most one on the others. */
  predicate Clonable3(ranked: ByPlane) {
    Decreasing(ranked) && |ranked[3]| == 1
  }

  /** Every plane has a place in the order. */
  lemma OrderHasAll(order: seq<int>, p: int)
    requires IsOrder(order) && 0 <= p < NPLANES
    ensures p in order
  {
    var image := set v | v in order;
    ElementCount(order);
    if p !in order {
      SubsetSmaller(image, {0, 1, 2, 3, 4, 5} - {p});
    }
  }

  lemma {:induction false} ElementCount(s: seq<int>)
    requires NoDuplicates(s)
    ensures |set v | v in s| == |s|
  {
    if s != [] {
      var rest, last := s[..|s| - 1], s[|s| - 1];
      ElementCount(rest);
      assert s == rest + [last];
      assert (set v | v in s) == (set v | v in rest) + {last};
    }
  }

  lemma {:induction false} SubsetSmaller<T>(a: set<T>, b: set<T>)
    requires a <= b
    ensures |a| <= |b|
  {
    if a != {} {
      var x :| x in a;
      SubsetSmaller(a - {x}, b - {x});
    }
  }

  lemma LaterHasFewer(ranked: ByPlane, r: nat)
    requires Decreasing(ranked) && 3 <= r < NPLANES
    ensures |ranked[r]| <= |ranked[3]|
  {
    if r == 3 {
    } else if r == 4 {
    } else {
      assert r == 5;
    }
  }

  /** Fewer than four planes have several hits and at least four have some: the fourth has exactly one. */
  lemma FourthHasOne(planes: ByPlane, order: seq<int>)
    requires IsOrder(order) && Decreasing(Ranked(planes, order)) && |Busy(planes, 0)| >= 4 && |Busy(planes, 1)| < 4
    ensures Clonable3(Ranked(planes, order))
  {
    var ranked := Ranked(planes, order);
    var first := set p | p in order[..3];
    ElementCount(order[..3]);
    if |ranked[3]| > 1 {
      assert order[3] !in first;
      forall p | p in first + {order[3]} ensures p in Busy(planes, 1) {
        var r :| 0 <= r < 4 && order[r] == p;
        assert |ranked[r]| >= |ranked[3]| by {
          assert r == 0 || r == 1 || r == 2 || r == 3;
        }
      }
      SubsetSmaller(first + {order[3]}, Busy(planes, 1));
    }
    if |ranked[3]| == 0 {
      forall p | p in Busy(planes, 0) ensures p in first {
        OrderHasAll(order, p);
        var r :| 0 <= r < NPLANES && order[r] == p;
        if r >= 3 {
          LaterHasFewer(ranked, r);
          assert false;
        }
        assert order[..3][r] == p;
      }
      SubsetSmaller(Busy(planes, 0), first);
    }
  }

  // ---- the clones -----------------------------------------------------------------------------------

  /** The clone with the n1-th, n2-th and n3-th hit of the three busiest planes. */
  function CloneHits(ranked: ByPlane, n1: nat, n2: nat, n3: nat): seq<Hit>
    requires Clonable3(ranked) && n1 < |ranked[0]| && n2 < |ranked[1]| && n3 < |ranked[2]|
  {
    [ranked[0][n1], ranked[1][n2], ranked[2][n3], ranked[3][0]] + SingleHits(ranked[4], ranked[5])
  }

  /** The hits of the last two planes, when these have exactly one. */
  function SingleHits(fifth: seq<Hit>, sixth: seq<Hit>): seq<Hit> {
    if |fifth| == 1 then [fifth[0]] + (if |sixth| == 1 then [sixth[0]] else []) else []
  }

  datatype Triple = Triple(n1: nat, n2: nat, n3: nat)

  /** The triples in the order of the three nested loops, up to (but not including) (n1, n2, n3). */
  function TriplesUpTo(b2: nat, b3: nat, n1: nat, n2: nat, n3: nat): seq<Triple>
    decreases n1, n2, n3
  {
    if n3 > 0 then TriplesUpTo(b2, b3, n1, n2, n3 - 1) + [Triple(n1, n2, n3 - 1)]
    else if n2 > 0 then TriplesUpTo(b2, b3, n1, n2 - 1, b3)
    else if n1 > 0 then TriplesUpTo(b2, b3, n1 - 1, b2, 0)
    else []
  }

  predicate Before(t: Triple, n1: nat, n2: nat, n3: nat) {
    t.n1 < n1 || (t.n1 == n1 && (t.n2 < n2 || (t.n2 == n2 && t.n3 < n3)))
  }

  /** The list has every triple of the box that comes before, and each once. */
  lemma {:induction false} TriplesComplete(b2: nat, b3: nat, n1: nat, n2: nat, n3: nat)
    requires n2 <= b2 && n3 <= b3
    requires n2 == b2 ==> n3 == 0
    ensures var s := TriplesUpTo(b2, b3, n1, n2, n3);
            && (forall t :: t in s <==> Before(t, n1, n2, n3) && t.n2 < b2 && t.n3 < b3)
            && NoDuplicates(s)
    decreases n1, n2, n3
  {
    if n3 > 0 {
      TriplesComplete(b2, b3, n1, n2, n3 - 1);
    } else if n2 > 0 {
      TriplesComplete(b2, b3, n1, n2 - 1, b3);
    } else if n1 > 0 {
      TriplesComplete(b2, b3, n1 - 1, b2, 0);
    }
  }

  lemma {:induction false} TriplesCount(b2: nat, b3: nat, n1: nat, n2: nat, n3: nat)
    ensures |TriplesUpTo(b2, b3, n1, n2, n3)| == n1 * (b2 * b3) + n2 * b3 + n3
    decreases n1, n2, n3
  {
    if n3 > 0 {
      TriplesCount(b2, b3, n1, n2, n3 - 1);
    } else if n2 > 0 {
      TriplesCount(b2, b3, n1, n2 - 1, b3);
      assert (n2 - 1) * b3 + b3 == n2 * b3;
    } else if n1 > 0 {
      TriplesCount(b2, b3, n1 - 1, b2, 0);
      assert (n1 - 1) * (b2 * b3) + b2 * b3 == n1 * (b2 * b3);
    }
  }

  function ClonesOf(ranked: ByPlane, triples: seq<Triple>): (clones: seq<seq<Hit>>)
    requires Clonable3(ranked)
    requires forall t <- triples :: t.n1 < |ranked[0]| && t.n2 < |ranked[1]| && t.n3 < |ranked[2]|
    ensures |clones| == |triples|
    ensures forall k :: 0 <= k < |triples| ==>
      clones[k] == CloneHits(ranked, triples[k].n1, triples[k].n2, triples[k].n3)
  {
    if triples == [] then []
    else
      var t := triples[|triples| - 1];
      ClonesOf(ranked, triples[..|triples| - 1]) + [CloneHits(ranked, t.n1, t.n2, t.n3)]
  }

  function AllTriples(ranked: ByPlane): (triples: seq<Triple>)
    ensures forall t :: t in triples <==> t.n1 < |ranked[0]| && t.n2 < |ranked[1]| && t.n3 < |ranked[2]|
    ensures NoDuplicates(triples)
  {
    TriplesInBox(|ranked[0]|, |ranked[1]|, |ranked[2]|);
    TriplesUpTo(|ranked[1]|, |ranked[2]|, |ranked[0]|, 0, 0)
  }

  /** All clones, in the order of the loops. */
  function Clones(ranked: ByPlane): (clones: seq<seq<Hit>>)
    requires Clonable3(ranked)
  {
    ClonesOf(ranked, AllTriples(ranked))
  }

  lemma TriplesInBox(b1: nat, b2: nat, b3: nat)
    ensures forall t :: t in TriplesUpTo(b2, b3, b1, 0, 0) <==> t.n1 < b1 && t.n2 < b2 && t.n3 < b3
    ensures NoDuplicates(TriplesUpTo(b2, b3, b1, 0, 0))
  {
    if b2 > 0 {
      TriplesComplete(b2, b3, b1, 0, 0);
    } else {
      NoTriples(b3, b1);
    }
  }

  lemma {:induction false} NoTriples(b3: nat, n1: nat)
    ensures TriplesUpTo(0, b3, n1, 0, 0) == []
  {
    if n1 > 0 {
      NoTriples(b3, n1 - 1);
    }
  }

  // ---- exactly the Cartesian product ----------------------------------------------------------------

  /** A choice of one hit (by its index) on every plane that has any, and index 0 on the others. */
  predicate IsChoice(planes: ByPlane, choice: seq<nat>) {
    |choice| == NPLANES && forall p :: 0 <= p < NPLANES ==> choice[p] < Factor(planes[p])
  }

  /** The hits are the chosen ones: each of them, and no other. */
  predicate Picks(planes: ByPlane, choice: seq<nat>, hits: seq<Hit>)
    requires IsChoice(planes, choice)
  {
    && (forall p :: 0 <= p < NPLANES && planes[p] != [] ==> planes[p][choice[p]] in hits)
    && (forall h <- hits :: 0 <= h.plane < NPLANES && planes[h.plane] != [] && h == planes[h.plane][choice[h.plane]])
    && |hits| == |Busy(planes, 0)|
  }

  /** What SortByPlane makes of a space point that holds no hit twice. */
  predicate SortedProperly(planes: ByPlane) {
    forall p :: 0 <= p < NPLANES ==> NoDuplicates(planes[p]) && forall h <- planes[p] :: h.plane == p
  }

  lemma {:induction false} OnPlaneProper(hits: seq<Hit>, p: int)
    requires NoDuplicates(hits)
    ensures NoDuplicates(OnPlane(hits, p))
    ensures forall h :: h in OnPlane(hits, p) <==> h in hits && h.plane == p
  {
    if hits != [] {
      OnPlaneProper(hits[..|hits| - 1], p);
      assert hits == hits[..|hits| - 1] + [hits[|hits| - 1]];
    }
  }

  lemma SortedByPlane(hits: seq<Hit>)
    requires NoDuplicates(hits)
    ensures SortedProperly(SortByPlane(hits))
  {
    forall p | 0 <= p < NPLANES ensures SortByPlane(hits)[p] == OnPlane(hits, p) {
    }
    forall p | 0 <= p < NPLANES
      ensures NoDuplicates(SortByPlane(hits)[p]) && forall h <- SortByPlane(hits)[p] :: h.plane == p
    {
      OnPlaneProper(hits, p);
    }
  }

  lemma SingleHitsByRank(fifth: seq<Hit>, sixth: seq<Hit>)
    requires 1 >= |fifth| >= |sixth|
    ensures var s := SingleHits(fifth, sixth);
            && |s| == |fifth| + |sixth|
            && (fifth != [] ==> s[0] == fifth[0]) && (sixth != [] ==> s[1] == sixth[0])
  {
  }

  /** Position r of a clone holds a hit of the r-th busiest plane. */
  lemma CloneByRank(ranked: ByPlane, t: Triple)
    requires Clonable3(ranked) && t.n1 < |ranked[0]| && t.n2 < |ranked[1]| && t.n3 < |ranked[2]|
    ensures var clone := CloneHits(ranked, t.n1, t.n2, t.n3);
            && |clone| <= NPLANES
            && (forall r :: 0 <= r < NPLANES ==> (ranked[r] != [] <==> r < |clone|))
            && clone[0] == ranked[0][t.n1] && clone[1] == ranked[1][t.n2] && clone[2] == ranked[2][t.n3]
            && (forall r :: 3 <= r < |clone| ==> |ranked[r]| == 1 && clone[r] == ranked[r][0])
  {
    SingleHitsByRank(ranked[4], ranked[5]);
  }

  /** The triple that makes a choice. */
  function ChosenTriple(order: seq<int>, choice: seq<nat>): Triple
    requires IsOrder(order) && |choice| == NPLANES
  {
    Triple(choice[order[0]], choice[order[1]], choice[order[2]])
  }

  predicate InBox(ranked: ByPlane, t: Triple) {
    t.n1 < |ranked[0]| && t.n2 < |ranked[1]| && t.n3 < |ranked[2]|
  }

  lemma ChosenInBox(planes: ByPlane, order: seq<int>, choice: seq<nat>)
    requires IsOrder(order) && Clonable3(Ranked(planes, order)) && IsChoice(planes, choice)
    ensures InBox(Ranked(planes, order), ChosenTriple(order, choice))
  {
    var ranked := Ranked(planes, order);
    assert ranked[0] != [] && ranked[1] != [] && ranked[2] != [];
  }

  /** A position of the clone made for a choice holds the chosen hit of its plane. */
  lemma CloneHitAt(planes: ByPlane, order: seq<int>, choice: seq<nat>, r: nat)
    requires IsOrder(order) && Clonable3(Ranked(planes, order)) && IsChoice(planes, choice) && r < NPLANES
    requires InBox(Ranked(planes, order), ChosenTriple(order, choice))
    ensures var t := ChosenTriple(order, choice);
            var clone := CloneHits(Ranked(planes, order), t.n1, t.n2, t.n3);
            && |clone| <= NPLANES && (planes[order[r]] != [] <==> r < |clone|)
            && (r < |clone| ==> clone[r] == planes[order[r]][choice[order[r]]])
  {
    var ranked, t, p := Ranked(planes, order), ChosenTriple(order, choice), order[r];
    var clone := CloneHits(ranked, t.n1, t.n2, t.n3);
    CloneByRank(ranked, t);
    assert ranked[r] == planes[p] && 0 <= p < NPLANES;
    assert choice[p] < Factor(planes[p]);
    hide CloneHits, Clonable3, Ranked, IsOrder, IsChoice;
    if r == 0 {
    } else if r == 1 {
    } else if r == 2 {
    } else if r < |clone| {
      assert choice[p] == 0;
    }
  }

  /** The clone made for a choice picks exactly that choice. */
  lemma ClonePicks(planes: ByPlane, order: seq<int>, choice: seq<nat>, clone: seq<Hit>)
    requires IsOrder(order) && SortedProperly(planes) && IsChoice(planes, choice) && |clone| <= NPLANES
    requires forall r :: 0 <= r < NPLANES ==> (planes[order[r]] != [] <==> r < |clone|)
    requires forall r :: 0 <= r < |clone| ==> clone[r] == planes[order[r]][choice[order[r]]]
    ensures Picks(planes, choice, clone)
  {
    forall p | 0 <= p < NPLANES && planes[p] != [] ensures planes[p][choice[p]] in clone {
      OrderHasAll(order, p);
      var r :| 0 <= r < NPLANES && order[r] == p;
      assert clone[r] in clone;
    }
    forall h | h in clone
      ensures 0 <= h.plane < NPLANES && planes[h.plane] != [] && h == planes[h.plane][choice[h.plane]]
    {
      var r :| 0 <= r < |clone| && clone[r] == h;
      assert h in planes[order[r]];
    }
    BusyCount(planes, order, |clone|);
  }

  lemma BusyCount(planes: ByPlane, order: seq<int>, n: nat)
    requires IsOrder(order) && n <= NPLANES
    requires forall r :: 0 <= r < NPLANES ==> (planes[order[r]] != [] <==> r < n)
    ensures |Busy(planes, 0)| == n
  {
    ElementCount(order[..n]);
    forall p | 0 <= p < NPLANES ensures p in Busy(planes, 0) <==> p in order[..n] {
      OrderHasAll(order, p);
      var r :| 0 <= r < NPLANES && order[r] == p;
      assert r < n ==> order[..n][r] == p;
    }
    assert Busy(planes, 0) == set p | p in order[..n];
  }

  /** Every choice of one hit per plane is one of the clones ... */
  lemma EveryChoiceCloned(planes: ByPlane, order: seq<int>, choice: seq<nat>)
    requires IsOrder(order) && Clonable3(Ranked(planes, order)) && SortedProperly(planes) && IsChoice(planes, choice)
    ensures var clones := Clones(Ranked(planes, order));
            exists k :: 0 <= k < |clones| && Picks(planes, choice, clones[k])
  {
    var t, ranked := ChosenTriple(order, choice), Ranked(planes, order);
    ChosenInBox(planes, order, choice);
    ChoicePicked(planes, order, choice);
    assert t in AllTriples(ranked);
    var k :| 0 <= k < |AllTriples(ranked)| && AllTriples(ranked)[k] == t;
    assert Clones(ranked)[k] == CloneHits(ranked, t.n1, t.n2, t.n3);
  }

  /** The clone made with the triple of a choice picks that choice. */
  lemma ChoicePicked(planes: ByPlane, order: seq<int>, choice: seq<nat>)
    requires IsOrder(order) && Clonable3(Ranked(planes, order)) && SortedProperly(planes) && IsChoice(planes, choice)
    ensures var t, ranked := ChosenTriple(order, choice), Ranked(planes, order);
            InBox(ranked, t) && Picks(planes, choice, CloneHits(ranked, t.n1, t.n2, t.n3))
  {
    var t, ranked := ChosenTriple(order, choice), Ranked(planes, order);
    ChosenInBox(planes, order, choice);
    forall r: nat | r < NPLANES
      ensures var clone := CloneHits(ranked, t.n1, t.n2, t.n3);
              && |clone| <= NPLANES && (planes[order[r]] != [] <==> r < |clone|)
              && (r < |clone| ==> clone[r] == planes[order[r]][choice[order[r]]])
    {
      CloneHitAt(planes, order, choice, r);
    }
    ClonePicks(planes, order, choice, CloneHits(ranked, t.n1, t.n2, t.n3));
  }

  /** ... no two clones are the same choice ... */
  lemma ClonesDiffer(planes: ByPlane, order: seq<int>, choice: seq<nat>, k: nat, l: nat)
    requires IsOrder(order) && Clonable3(Ranked(planes, order)) && SortedProperly(planes) && IsChoice(planes, choice)
    requires k < |Clones(Ranked(planes, order))| && l < |Clones(Ranked(planes, order))|
    requires Picks(planes, choice, Clones(Ranked(planes, order))[k])
    requires Picks(planes, choice, Clones(Ranked(planes, order))[l])
    ensures k == l
  {
    var triples := AllTriples(Ranked(planes, order));
    PickedTriple(planes, order, choice, triples[k]);
    PickedTriple(planes, order, choice, triples[l]);
  }

  lemma PickedTriple(planes: ByPlane, order: seq<int>, choice: seq<nat>, t: Triple)
    requires IsOrder(order) && Clonable3(Ranked(planes, order)) && SortedProperly(planes) && IsChoice(planes, choice)
    requires var ranked := Ranked(planes, order); t.n1 < |ranked[0]| && t.n2 < |ranked[1]| && t.n3 < |ranked[2]|
    requires Picks(planes, choice, CloneHits(Ranked(planes, order), t.n1, t.n2, t.n3))
    ensures t == ChosenTriple(order, choice)
  {
    var ranked := Ranked(planes, order);
    var clone := CloneHits(ranked, t.n1, t.n2, t.n3);
    CloneByRank(ranked, t);
    hide CloneHits, Clonable3, Picks, IsChoice, SortedProperly;
    assert clone[0] in clone && clone[1] in clone && clone[2] in clone;
    PickedAt(planes, choice, clone, order[0], t.n1);
    PickedAt(planes, choice, clone, order[1], t.n2);
    PickedAt(planes, choice, clone, order[2], t.n3);
  }

  /** A hit of a plane that was picked is the chosen one. */
  lemma PickedAt(planes: ByPlane, choice: seq<nat>, hits: seq<Hit>, p: int, n: nat)
    requires SortedProperly(planes) && IsChoice(planes, choice) && Picks(planes, choice, hits)
    requires 0 <= p < NPLANES && n < |planes[p]| && planes[p][n] in hits
    ensures choice[p] == n
  {
    assert planes[p][n] in planes[p];
  }

  /** The choice that a triple makes, plane by plane. */
  function PickAt(order: seq<int>, t: Triple, p: int): nat
    requires IsOrder(order)
  {
    if p == order[0] then t.n1 else if p == order[1] then t.n2 else if p == order[2] then t.n3 else 0
  }

  function ChoiceOf(order: seq<int>, t: Triple): seq<nat>
    requires IsOrder(order)
  {
    seq(NPLANES, p requires 0 <= p < NPLANES => PickAt(order, t, p))
  }

  lemma ChoiceOfTriple(planes: ByPlane, order: seq<int>, t: Triple)
    requires IsOrder(order) && InBox(Ranked(planes, order), t)
    ensures IsChoice(planes, ChoiceOf(order, t)) && ChosenTriple(order, ChoiceOf(order, t)) == t
  {
    var ranked, choice := Ranked(planes, order), ChoiceOf(order, t);
    assert ranked[0] == planes[order[0]] && ranked[1] == planes[order[1]] && ranked[2] == planes[order[2]];
    forall p | 0 <= p < NPLANES ensures choice[p] < Factor(planes[p]) {
    }
  }

  /** ... every clone is one of them: it picks one hit of every plane that has any ... */
  lemma EveryCloneIsChoice(planes: ByPlane, order: seq<int>, k: nat)
    requires IsOrder(order) && Clonable3(Ranked(planes, order)) && SortedProperly(planes)
    requires k < |Clones(Ranked(planes, order))|
    ensures exists choice :: IsChoice(planes, choice) && Picks(planes, choice, Clones(Ranked(planes, order))[k])
  {
    var ranked := Ranked(planes, order);
    var t := AllTriples(ranked)[k];
    assert t in AllTriples(ranked);
    ChoiceOfTriple(planes, order, t);
    ChoicePicked(planes, order, ChoiceOf(order, t));
    hide AllTriples, CloneHits, ChoiceOf, Clonable3, IsOrder, SortedProperly, Picks, IsChoice, Ranked;
  }

  /** ... and of one choice only ... */
  lemma OneChoiceEach(planes: ByPlane, choice: seq<nat>, other: seq<nat>, hits: seq<Hit>)
    requires SortedProperly(planes) && IsChoice(planes, choice) && IsChoice(planes, other)
    requires Picks(planes, choice, hits) && Picks(planes, other, hits)
    ensures choice == other
  {
    forall p | 0 <= p < NPLANES ensures choice[p] == other[p] {
      if planes[p] != [] {
        PickedAt(planes, other, hits, p, choice[p]);
      }
    }
  }

  /** ... and there are as many clones as choices. */
  lemma CloneCount(planes: ByPlane, order: seq<int>)
    requires IsOrder(order) && Clonable3(Ranked(planes, order))
    ensures |Clones(Ranked(planes, order))| == Choices(planes) >= 1
  {
    SomeChoice(planes);
    CountInOrder(Ranked(planes, order));
    ProductInOrder(planes, order);
    hide Clones, Clonable3, Product;
    UnfoldProduct(planes, [0, 1, 2, 3, 4, 5]);
    SameMultiset(order);
    ProductOfMultiset(planes, order, [0, 1, 2, 3, 4, 5]);
    Associate(Factor(planes[0]), Factor(planes[1]), Factor(planes[2]), Factor(planes[3]), Factor(planes[4]),
              Factor(planes[5]));
  }

  lemma Positive(a: nat, b: nat)
    requires a >= 1 && b >= 1
    ensures a * b >= 1
  {
  }

  lemma SomeChoice(planes: ByPlane)
    ensures Choices(planes) >= 1
  {
    var a, b, c, d, e := Factor(planes[0]), Factor(planes[1]), Factor(planes[2]), Factor(planes[3]), Factor(planes[4]);
    Positive(a, b);
    Positive(a * b, c);
    Positive(a * b * c, d);
    Positive(a * b * c * d, e);
    Positive(a * b * c * d * e, Factor(planes[5]));
  }

  lemma CountInOrder(ranked: ByPlane)
    requires Clonable3(ranked)
    ensures |Clones(ranked)| == Factor(ranked[0]) * (Factor(ranked[1]) * Factor(ranked[2]))
  {
    TriplesCount(|ranked[1]|, |ranked[2]|, |ranked[0]|, 0, 0);
  }

  lemma ProductInOrder(planes: ByPlane, order: seq<int>)
    requires IsOrder(order) && Clonable3(Ranked(planes, order))
    ensures var ranked := Ranked(planes, order);
            Product(planes, order) == Factor(ranked[0]) * (Factor(ranked[1]) * Factor(ranked[2]))
  {
    UnfoldProduct(planes, order);
    hide Product;
    assert FactorAt(planes, order[3]) == 1 && FactorAt(planes, order[4]) == 1 && FactorAt(planes, order[5]) == 1;
  }

  function FactorAt(planes: ByPlane, p: int): nat {
    if 0 <= p < NPLANES then Factor(planes[p]) else 1
  }

  /** The product of the factors of the listed planes. */
  function Product(planes: ByPlane, list: seq<int>): nat {
    if list == [] then 1 else FactorAt(planes, list[0]) * Product(planes, list[1..])
  }

  lemma Associate(a: nat, b: nat, c: nat, d: nat, e: nat, f: nat)
    ensures a * (b * (c * (d * (e * f)))) == a * b * c * d * e * f
  {
    assert b * (c * (d * (e * f))) == b * c * d * e * f by {
      assert c * (d * (e * f)) == c * d * e * f by {
        assert d * (e * f) == d * e * f;
      }
    }
  }

  lemma UnfoldProduct(planes: ByPlane, list: seq<int>)
    requires |list| == NPLANES
    ensures Product(planes, list)
            == FactorAt(planes, list[0]) * (FactorAt(planes, list[1]) * (FactorAt(planes, list[2])
               * (FactorAt(planes, list[3]) * (FactorAt(planes, list[4]) * FactorAt(planes, list[5])))))
  {
    hide FactorAt;
    var l1, l2, l3, l4, l5 := list[1..], list[2..], list[3..], list[4..], list[5..];
    assert l1[1..] == l2 && l2[1..] == l3 && l3[1..] == l4 && l4[1..] == l5 && l5[1..] == [];
    assert Product(planes, l5) == FactorAt(planes, list[5]) * Product(planes, []) == FactorAt(planes, list[5]);
    assert Product(planes, l4) == FactorAt(planes, list[4]) * Product(planes, l5);
    assert Product(planes, l3) == FactorAt(planes, list[3]) * Product(planes, l4);
    assert Product(planes, l2) == FactorAt(planes, list[2]) * Product(planes, l3);
    assert Product(planes, l1) == FactorAt(planes, list[1]) * Product(planes, l2);
  }

  lemma {:induction false} ProductTakeOut(planes: ByPlane, list: seq<int>, k: nat)
    requires k < |list|
    ensures Product(planes, list) == FactorAt(planes, list[k]) * Product(planes, list[..k] + list[k + 1..])
  {
    hide FactorAt;
    var without := list[..k] + list[k + 1..];
    if k == 0 {
      assert without == list[1..];
    } else {
      ProductTakeOut(planes, list[1..], k - 1);
      assert list[1..][..k - 1] + list[1..][k..] == without[1..];
      Swap(FactorAt(planes, list[0]), FactorAt(planes, list[k]), Product(planes, without[1..]));
    }
  }

  lemma Swap(a: nat, b: nat, c: nat)
    ensures a * (b * c) == b * (a * c)
  {
  }

  lemma {:induction false} ProductOfMultiset(planes: ByPlane, list: seq<int>, other: seq<int>)
    requires multiset(list) == multiset(other)
    ensures Product(planes, list) == Product(planes, other)
  {
    if list == [] {
      assert |multiset(other)| == |other|;
    } else {
      var k := PlaceOf(list, other);
      hide Product, FactorAt;
      ProductTakeOut(planes, list, 0);
      ProductTakeOut(planes, other, k);
      assert list[..0] + list[1..] == list[1..];
      ProductOfMultiset(planes, list[1..], other[..k] + other[k + 1..]);
    }
  }

  lemma PlaceOf(list: seq<int>, other: seq<int>) returns (k: nat)
    requires list != [] && multiset(list) == multiset(other)
    ensures k < |other| && other[k] == list[0] && multiset(list[1..]) == multiset(other[..k] + other[k + 1..])
  {
    assert list == [list[0]] + list[1..];
    assert list[0] in multiset(other);
    k :| 0 <= k < |other| && other[k] == list[0];
    assert other == other[..k] + [other[k]] + other[k + 1..];
    assert multiset(list[1..]) == multiset(list) - multiset{list[0]};
    assert multiset(other[..k] + other[k + 1..]) == multiset(other) - multiset{other[k]};
  }

  lemma {:induction false} OnceEach(s: seq<int>, v: int)
    requires NoDuplicates(s)
    ensures multiset(s)[v] == if v in s then 1 else 0
  {
    if s != [] {
      var rest, last := s[..|s| - 1], s[|s| - 1];
      OnceEach(rest, v);
      assert s == rest + [last];
    }
  }

  lemma SameMultiset(order: seq<int>)
    requires IsOrder(order)
    ensures multiset(order) == multiset([0, 1, 2, 3, 4, 5])
  {
    var all := [0, 1, 2, 3, 4, 5];
    forall v ensures multiset(order)[v] == multiset(all)[v] {
      OnceEach(order, v);
      OnceEach(all, v);
      if v in all {
        OrderHasAll(order, v);
      }
    }
  }

  // ---- in the list of space points --------------------------------------------------------------------

  predicate AreClones(ranked: ByPlane, triples: seq<Triple>, clones: seq<seq<Hit>>)
    requires Clonable3(ranked)
  {
    && |clones| == |triples|
    && forall k :: 0 <= k < |triples| ==>
         InBox(ranked, triples[k]) && clones[k] == CloneHits(ranked, triples[k].n1, triples[k].n2, triples[k].n3)
  }

  lemma OneMoreClone(ranked: ByPlane, triples: seq<Triple>, clones: seq<seq<Hit>>, t: Triple)
    requires Clonable3(ranked) && AreClones(ranked, triples, clones) && InBox(ranked, t)
    ensures AreClones(ranked, triples + [t], clones + [CloneHits(ranked, t.n1, t.n2, t.n3)])
  {
  }

  /** The clones made when the three loops stand at (n1, n2, n3). */
  predicate ClonedUpTo(ranked: ByPlane, n1: nat, n2: nat, n3: nat, clones: seq<seq<Hit>>)
    requires Clonable3(ranked)
  {
    && AreClones(ranked, TriplesUpTo(|ranked[1]|, |ranked[2]|, n1, n2, n3), clones)
    && (clones == [] <==> n1 == 0 && n2 == 0 && n3 == 0)
  }

  lemma StartCloning(ranked: ByPlane)
    requires Clonable3(ranked)
    ensures ClonedUpTo(ranked, 0, 0, 0, [])
  {
  }

  lemma KeepCloning(ranked: ByPlane, n1: nat, n2: nat, n3: nat, clones: seq<seq<Hit>>)
    requires Clonable3(ranked) && InBox(ranked, Triple(n1, n2, n3)) && ClonedUpTo(ranked, n1, n2, n3, clones)
    ensures ClonedUpTo(ranked, n1, n2, n3 + 1, clones + [CloneHits(ranked, n1, n2, n3)])
  {
    OneMoreClone(ranked, TriplesUpTo(|ranked[1]|, |ranked[2]|, n1, n2, n3), clones, Triple(n1, n2, n3));
  }

  /** When an inner loop is done the loop around it moves on. */
  lemma Carry(ranked: ByPlane, n1: nat, n2: nat, clones: seq<seq<Hit>>)
    requires Clonable3(ranked)
    ensures ClonedUpTo(ranked, n1, n2, |ranked[2]|, clones) ==> ClonedUpTo(ranked, n1, n2 + 1, 0, clones)
    ensures ClonedUpTo(ranked, n1, |ranked[1]|, 0, clones) ==> ClonedUpTo(ranked, n1 + 1, 0, 0, clones)
  {
  }

  lemma AllCloned(ranked: ByPlane, clones: seq<seq<Hit>>)
    requires Clonable3(ranked) && ClonedUpTo(ranked, |ranked[0]|, 0, 0, clones)
    ensures clones == Clones(ranked)
  {
  }

  /** The clones with the given hits: the first in place of the original, the others at the end. */
  function Replaced(sps: seq<SpacePoint>, isp: nat, clones: seq<seq<Hit>>): seq<SpacePoint>
    requires isp < |sps|
  {
    if |clones| == 0 then sps
    else sps[isp := sps[isp].(hits := clones[0])]
         + seq(|clones| - 1, k requires 0 <= k < |clones| - 1 => sps[isp].(hits := clones[k + 1]))
  }

  lemma NothingReplaced(sps: seq<SpacePoint>, isp: nat)
    requires isp < |sps|
    ensures Replaced(sps, isp, []) == sps
  {
  }

  /** Space point isp replaced by its clones, made with its planes in this order. */
  predicate ClonedInOrder(sps: seq<SpacePoint>, after: seq<SpacePoint>, isp: nat, order: seq<int>)
    requires isp < |sps|
  {
    var planes := SortByPlane(sps[isp].hits);
    && IsOrder(order) && Clonable3(Ranked(planes, order))
    && after == Replaced(sps, isp, Clones(Ranked(planes, order)))
  }

  /** One space point treated: cloned, or left alone. */
  ghost predicate Treated(sps: seq<SpacePoint>, after: seq<SpacePoint>, isp: nat)
    requires isp < |sps|
  {
    if Clonable(SortByPlane(sps[isp].hits), |sps|) then exists order :: ClonedInOrder(sps, after, isp, order)
    else after == sps
  }

  /** The list after each of the first n points, of `originals`, was treated. */
  ghost predicate TreatedInTurn(history: seq<seq<SpacePoint>>, originals: nat, n: nat) {
    && |history| == n + 1
    && (forall k :: 0 <= k <= n ==> |history[k]| >= originals)
    && forall k :: 0 <= k < n <= originals ==> Treated(history[k], history[k + 1], k)
  }

  /** Where the k-th clone of space point isp is, in a list that had `total` points before. */
  function PlaceOfClone(isp: nat, total: nat, k: nat): nat {
    if k == 0 then isp else total + k - 1
  }

  ghost predicate IsCloneFor(before: seq<SpacePoint>, after: seq<SpacePoint>, isp: nat, choice: seq<nat>, k: nat)
    requires isp < |before|
  {
    var planes := SortByPlane(before[isp].hits);
    && IsChoice(planes, choice)
    && PlaceOfClone(isp, |before|, k) < |after|
    && var clone := after[PlaceOfClone(isp, |before|, k)];
       Picks(planes, choice, clone.hits) && clone == before[isp].(hits := clone.hits)
  }

  /** The list grows by the number of choices less one, and all other points stay what they were. */
  lemma CloningGrows(before: seq<SpacePoint>, after: seq<SpacePoint>, isp: nat)
    requires isp < |before| && Treated(before, after, isp)
    ensures var planes := SortByPlane(before[isp].hits);
            |after| == if Clonable(planes, |before|) then |before| + Choices(planes) - 1 else |before|
    ensures forall i :: 0 <= i < |before| && i != isp ==> after[i] == before[i]
  {
    hide Choices, Clones, Busy, SortByPlane, Ranked, IsOrder, Clonable3, Clonable, Replaced;
    var planes := SortByPlane(before[isp].hits);
    if Clonable(planes, |before|) {
      var order :| ClonedInOrder(before, after, isp, order);
      CloneCount(planes, order);
      CloneFound(before, isp, Clones(Ranked(planes, order)));
    }
  }

  /** Every choice of one hit per plane is found in exactly one of the places meant for clones. */
  lemma EveryChoiceOnce(before: seq<SpacePoint>, after: seq<SpacePoint>, isp: nat, choice: seq<nat>)
    requires isp < |before| && NoDuplicates(before[isp].hits) && Treated(before, after, isp)
    requires Clonable(SortByPlane(before[isp].hits), |before|)
    requires IsChoice(SortByPlane(before[isp].hits), choice)
    ensures var total := Choices(SortByPlane(before[isp].hits));
            && (exists k: nat :: k < total && IsCloneFor(before, after, isp, choice, k))
            && (forall k: nat, l: nat ::
                  (k < total && l < total
                   && IsCloneFor(before, after, isp, choice, k)
                   && IsCloneFor(before, after, isp, choice, l)) ==> k == l)
  {
    hide Choices, Clones, Busy, Clonable, Clonable3, IsOrder, SortedProperly, SortByPlane, Ranked, Picks;
    hide IsChoice, Replaced;
    var planes := SortByPlane(before[isp].hits);
    SortedByPlane(before[isp].hits);
    var order :| ClonedInOrder(before, after, isp, order);
    var clones := Clones(Ranked(planes, order));
    CloneCount(planes, order);
    CloneFound(before, isp, clones);
    EveryChoiceCloned(planes, order, choice);
    var k: nat :| k < |clones| && Picks(planes, choice, clones[k]);
    assert IsCloneFor(before, after, isp, choice, k);
    forall k: nat, l: nat
      | k < |clones| && l < |clones|
        && IsCloneFor(before, after, isp, choice, k) && IsCloneFor(before, after, isp, choice, l)
      ensures k == l
    {
      ClonesDiffer(planes, order, choice, k, l);
    }
  }

  /** Each of the places meant for clones holds one hit of every plane hit, as exactly one choice has them. */
  lemma EveryCloneOnce(before: seq<SpacePoint>, after: seq<SpacePoint>, isp: nat, k: nat)
    requires isp < |before| && NoDuplicates(before[isp].hits) && Treated(before, after, isp)
    requires Clonable(SortByPlane(before[isp].hits), |before|) && k < Choices(SortByPlane(before[isp].hits))
    ensures exists choice :: IsCloneFor(before, after, isp, choice, k)
    ensures forall c, d :: IsCloneFor(before, after, isp, c, k) && IsCloneFor(before, after, isp, d, k) ==> c == d
  {
    hide Choices, Clones, Busy, Clonable, Clonable3, IsOrder, SortedProperly, SortByPlane, Ranked, Picks;
    hide IsChoice, Replaced;
    var planes := SortByPlane(before[isp].hits);
    SortedByPlane(before[isp].hits);
    var order :| ClonedInOrder(before, after, isp, order);
    var clones := Clones(Ranked(planes, order));
    CloneCount(planes, order);
    CloneFound(before, isp, clones);
    EveryCloneIsChoice(planes, order, k);
    var choice :| IsChoice(planes, choice) && Picks(planes, choice, clones[k]);
    assert IsCloneFor(before, after, isp, choice, k);
    forall c, d | IsCloneFor(before, after, isp, c, k) && IsCloneFor(before, after, isp, d, k) ensures c == d {
      OneChoiceEach(planes, c, d, clones[k]);
    }
  }

  lemma CloneFound(sps: seq<SpacePoint>, isp: nat, clones: seq<seq<Hit>>)
    requires isp < |sps| && |clones| > 0
    ensures var after := Replaced(sps, isp, clones);
            && |after| == |sps| + |clones| - 1
            && (forall i :: 0 <= i < |sps| && i != isp ==> after[i] == sps[i])
            && (forall k: nat :: k < |clones| ==>
                  PlaceOfClone(isp, |sps|, k) < |after|
                  && after[PlaceOfClone(isp, |sps|, k)] == sps[isp].(hits := clones[k]))
  {
  }

  // ---- the limits of cloning ------------------------------------------------------------------------------------

  /** How many of the hits are on plane p. */
  function Occurs(hits: seq<Hit>, p: int): nat {
    if hits == [] then 0
    else Occurs(hits[..|hits| - 1], p) + if hits[|hits| - 1].plane == p then 1 else 0
  }

  /** How many of the first n planes have so many hits or more. */
  function PlanesWith(hits: seq<Hit>, least: nat, n: nat): nat {
    if n == 0 then 0 else PlanesWith(hits, least, n - 1) + if Occurs(hits, n - 1) >= least then 1 else 0
  }

  /** The ways to take one hit on each of the first n planes that has any. */
  function Ways(hits: seq<Hit>, n: nat): nat {
    if n == 0 then 1
    else if Occurs(hits, n - 1) >= 2 then Ways(hits, n - 1) * Occurs(hits, n - 1)
    else Ways(hits, n - 1)
  }

  lemma {:induction false} OccursIs(hits: seq<Hit>, p: int)
    ensures |OnPlane(hits, p)| == Occurs(hits, p)
  {
    if hits != [] {
      OccursIs(hits[..|hits| - 1], p);
    }
  }

  lemma {:induction false} BusyIs(hits: seq<Hit>, threshold: nat, n: nat)
    requires n <= NPLANES
    ensures |BusyUpTo(SortByPlane(hits), threshold, n)| == PlanesWith(hits, threshold + 1, n)
  {
    hide OnPlane, Occurs;
    var planes := SortByPlane(hits);
    if n == 0 {
      assert BusyUpTo(planes, threshold, 0) == {};
    } else {
      BusyIs(hits, threshold, n - 1);
      PlaneIs(hits, n - 1);
      OneMoreBusy(planes, threshold, n - 1);
      hide BusyUpTo, SortByPlane;
    }
  }

  lemma PlaneIs(hits: seq<Hit>, p: nat)
    requires p < NPLANES
    ensures |SortByPlane(hits)[p]| == Occurs(hits, p)
  {
    OccursIs(hits, p);
    hide OnPlane, Occurs;
  }

  lemma {:induction false} WaysAre(hits: seq<Hit>, n: nat)
    requires n <= NPLANES
    ensures ChoicesUpTo(SortByPlane(hits), n) == Ways(hits, n)
  {
    hide SortByPlane, Occurs;
    if n > 0 {
      WaysAre(hits, n - 1);
      PlaneIs(hits, n - 1);
    }
  }

  /**
   A space point is cloned when four of its six planes or more are hit, some but at most three of them
   more than once, and the list would have fewer than twenty points with all of the ways in place of
   the one point.
   */
  lemma ClonableIff(hits: seq<Hit>, total: nat)
    ensures Clonable(SortByPlane(hits), total)
            <==> PlanesWith(hits, 1, 6) >= 4 && 1 <= PlanesWith(hits, 2, 6) <= 3 && total - 1 + Ways(hits, 6) <= 19
    ensures Choices(SortByPlane(hits)) == Ways(hits, 6)
  {
    hide SortByPlane, Occurs, Choices, PlanesWith, Ways, ChoicesUpTo;
    var planes := SortByPlane(hits);
    AllBusy(planes, 0);
    AllBusy(planes, 1);
    BusyIs(hits, 0, 6);
    BusyIs(hits, 1, 6);
    AllChoices(planes);
    WaysAre(hits, 6);
  }

  lemma AllBusy(planes: ByPlane, threshold: nat)
    ensures Busy(planes, threshold) == BusyUpTo(planes, threshold, 6)
  {
  }

  /** What the treatment of a point does to the number of points, by its hits alone. */
  lemma GrowsByWays(before: seq<SpacePoint>, after: seq<SpacePoint>, isp: nat)
    requires isp < |before| && Treated(before, after, isp)
    ensures var hits := before[isp].hits;
            if PlanesWith(hits, 1, 6) >= 4 && 1 <= PlanesWith(hits, 2, 6) <= 3 && |before| - 1 + Ways(hits, 6) <= 19
            then |after| == |before| - 1 + Ways(hits, 6)
            else after == before
  {
    hide SortByPlane, Clonable, Choices, PlanesWith, Ways, ClonedInOrder;
    ClonableIff(before[isp].hits, |before|);
    CloningGrows(before, after, isp);
  }
}
