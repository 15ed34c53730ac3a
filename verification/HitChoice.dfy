/** Keeping one hit per plane: the one with the shortest drift time, the earlier of equal ones. */
module HitChoice {
  import opened SpacePoints

  /** Hit i beats hit j of the same plane. */
  predicate Beats(hits: seq<Hit>, i: nat, j: nat)
    requires i < |hits| && j < |hits|
  {
    && i != j && hits[i].plane == hits[j].plane
    && (hits[i].time < hits[j].time || (hits[i].time == hits[j].time && i < j))
  }

  predicate Survives(hits: seq<Hit>, i: nat)
    requires i < |hits|
  {
    forall j :: 0 <= j < |hits| ==> !Beats(hits, j, i)
  }

  /** The survivors among the first n hits, in order. */
  function Kept(hits: seq<Hit>, n: nat): seq<Hit>
    requires n <= |hits|
  {
    if n == 0 then []
    else if Survives(hits, n - 1) then Kept(hits, n - 1) + [hits[n - 1]]
    else Kept(hits, n - 1)
  }

  function Chosen(hits: seq<Hit>): seq<Hit> {
    Kept(hits, |hits|)
  }

  // ---- one survivor per plane ---------------------------------------------------------------------

  /** The best hit of plane p among the first n. */
  function Best(hits: seq<Hit>, p: int, n: nat): (b: nat)
    requires n <= |hits| && exists i :: 0 <= i < n && hits[i].plane == p
    ensures b < n && hits[b].plane == p
    ensures forall j :: 0 <= j < n && hits[j].plane == p && j != b ==> Beats(hits, b, j)
  {
    if exists i :: 0 <= i < n - 1 && hits[i].plane == p then
      var b := Best(hits, p, n - 1);
      if hits[n - 1].plane == p && hits[n - 1].time < hits[b].time then n - 1 else b
    else n - 1
  }

  lemma OneSurvivor(hits: seq<Hit>, i: nat)
    requires i < |hits|
    ensures var b := Best(hits, hits[i].plane, |hits|);
            Survives(hits, b) && (Survives(hits, i) <==> i == b)
  {
    var b := Best(hits, hits[i].plane, |hits|);
    if i != b {
      assert Beats(hits, b, i);
    }
  }

  ghost predicate IsSurvivor(hits: seq<Hit>, n: nat, h: Hit)
    requires n <= |hits|
  {
    exists i :: 0 <= i < n && Survives(hits, i) && hits[i] == h
  }

  lemma {:induction false} KeptMembers(hits: seq<Hit>, n: nat)
    requires n <= |hits|
    ensures forall h :: h in Kept(hits, n) <==> IsSurvivor(hits, n, h)
  {
    if n > 0 {
      KeptMembers(hits, n - 1);
      forall h ensures h in Kept(hits, n) <==> IsSurvivor(hits, n, h) {
        if Survives(hits, n - 1) && h == hits[n - 1] {
          assert IsSurvivor(hits, n, h);
        } else {
          assert IsSurvivor(hits, n, h) <==> IsSurvivor(hits, n - 1, h);
        }
      }
    }
  }

  predicate DistinctPlanes(hits: seq<Hit>) {
    forall i, j :: 0 <= i < j < |hits| ==> hits[i].plane != hits[j].plane
  }

  lemma {:induction false} KeptDistinct(hits: seq<Hit>, n: nat)
    requires n <= |hits|
    ensures DistinctPlanes(Kept(hits, n))
  {
    if n > 0 {
      KeptDistinct(hits, n - 1);
      if Survives(hits, n - 1) {
        var before := Kept(hits, n - 1);
        KeptMembers(hits, n - 1);
        forall k | 0 <= k < |before| ensures before[k].plane != hits[n - 1].plane {
          assert before[k] in before;
          var i :| 0 <= i < n - 1 && Survives(hits, i) && hits[i] == before[k];
          assert !Beats(hits, i, n - 1) && !Beats(hits, n - 1, i);
        }
      }
    }
  }

  /** The choice leaves exactly one hit of every plane that had any: its shortest in drift time. */
  lemma ChosenIsBestPerPlane(hits: seq<Hit>)
    ensures DistinctPlanes(Chosen(hits))
    ensures forall h <- hits :: exists c :: c in Chosen(hits) && c.plane == h.plane && c.time <= h.time
    ensures forall c <- Chosen(hits) :: c in hits
  {
    KeptDistinct(hits, |hits|);
    KeptMembers(hits, |hits|);
    forall h | h in hits ensures exists c :: c in Chosen(hits) && c.plane == h.plane && c.time <= h.time {
      var i :| 0 <= i < |hits| && hits[i] == h;
      OneSurvivor(hits, i);
      var b := Best(hits, h.plane, |hits|);
      assert Survives(hits, b) && IsSurvivor(hits, |hits|, hits[b]);
    }
  }

  /** Hits that are already one per plane are all kept, in their order. */
  lemma {:induction false} KeepsAllOfOnePerPlane(hits: seq<Hit>, n: nat)
    requires DistinctPlanes(hits) && n <= |hits|
    ensures Kept(hits, n) == hits[..n]
  {
    if n > 0 {
      KeepsAllOfOnePerPlane(hits, n - 1);
      assert hits[..n] == hits[..n - 1] + [hits[n - 1]];
    }
  }

  // ---- the pairwise comparison of the program -------------------------------------------------------

  /** The pair (j, h), in either order, has been compared when the two loops stand at (n, m). */
  predicate Compared(n: int, m: int, j: int, h: int) {
    j < n || h < n || (j == n && h < m) || (h == n && j < m)
  }

  /** Hit h has not lost any comparison so far. */
  predicate Unbeaten(hits: seq<Hit>, n: int, m: int, h: nat)
    requires h < |hits|
  {
    forall j: nat :: j < |hits| && Compared(n, m, j, h) ==> !Beats(hits, j, h)
  }

  /** Hit h loses the comparison of hits n and m. */
  predicate Loses(hits: seq<Hit>, n: nat, m: nat, h: nat)
    requires n < |hits| && m < |hits|
  {
    (h == n && Beats(hits, m, n)) || (h == m && Beats(hits, n, m))
  }

  lemma NextComparison(hits: seq<Hit>, n: nat, m: nat)
    requires n < m < |hits|
    ensures forall h: nat :: h < |hits| ==>
              (Unbeaten(hits, n, m + 1, h) <==> (Unbeaten(hits, n, m, h) && !Loses(hits, n, m, h)))
  {
    hide Beats;
    forall h: nat | h < |hits|
      ensures Unbeaten(hits, n, m + 1, h) <==> (Unbeaten(hits, n, m, h) && !Loses(hits, n, m, h))
    {
      forall j: nat | j < |hits| && j != h
        ensures Compared(n, m + 1, j, h) <==> (Compared(n, m, j, h) || (j == n && h == m) || (j == m && h == n))
      {
      }
      NeverBeatsItself(hits, h);
    }
  }

  lemma NeverBeatsItself(hits: seq<Hit>, h: nat)
    requires h < |hits|
    ensures !Beats(hits, h, h)
  {
  }

  lemma RowDone(hits: seq<Hit>, n: nat)
    requires n < |hits|
    ensures forall h: nat :: h < |hits| ==> (Unbeaten(hits, n, |hits|, h) <==> Unbeaten(hits, n + 1, n + 2, h))
  {
    forall h: nat | h < |hits| ensures Unbeaten(hits, n, |hits|, h) <==> Unbeaten(hits, n + 1, n + 2, h) {
      forall j: nat | j < |hits| && j != h
        ensures Compared(n, |hits|, j, h) <==> Compared(n + 1, n + 2, j, h)
      {
      }
    }
  }
}
