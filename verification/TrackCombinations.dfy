/**
 Linking with any number of chambers: the tracks of a seed are all its combinations with one point of
 every other chamber that has a point to link.
 */
module TrackCombinations {
  import opened Linking

  /** The points of the track other than its seed. */
  ghost function Others(t: Track): set<nat> {
    set k | 1 <= k < |t| :: t[k]
  }

  predicate AllPlaces(sps: seq<Stub>, ps: set<nat>) {
    forall p <- ps :: p < |sps|
  }

  ghost predicate HasChamber(sps: seq<Stub>, ps: set<nat>, chamber: int)
    requires AllPlaces(sps, ps)
  {
    exists p <- ps :: sps[p].chamber == chamber
  }

  /** Of these points, one of every chamber that has any. */
  ghost predicate Combination(sps: seq<Stub>, ps: set<nat>, chosen: set<nat>)
    requires AllPlaces(sps, ps)
  {
    && chosen <= ps
    && (forall p, q :: p in chosen && q in chosen && sps[p].chamber == sps[q].chamber ==> p == q)
    && forall p <- ps :: HasChamber(sps, chosen, sps[p].chamber)
  }

  /** The chambers are numbered from 1, and no more than a track can have points. */
  predicate FewChambers(sps: seq<Stub>) {
    forall k :: 0 <= k < |sps| ==> 1 <= sps[k].chamber <= 10
  }

  predicate GoodTrack(sps: seq<Stub>, seed: nat, t: Track) {
    && InList(sps, t) && |t| >= 2 && t[0] == seed
    && forall k, l :: 0 <= k < l < |t| ==> sps[t[k]].chamber != sps[t[l]].chamber
  }

  predicate GoodTracks(sps: seq<Stub>, seed: nat, ts: seq<Track>) {
    forall k :: 0 <= k < |ts| ==> GoodTrack(sps, seed, ts[k])
  }

  ghost predicate Found(ts: seq<Track>, chosen: set<nat>) {
    exists k :: 0 <= k < |ts| && Others(ts[k]) == chosen
  }

  /** Every combination is a track. */
  ghost predicate Complete(sps: seq<Stub>, ps: set<nat>, ts: seq<Track>)
    requires AllPlaces(sps, ps)
  {
    forall chosen: set<nat> :: Combination(sps, ps, chosen) && chosen != {} ==> Found(ts, chosen)
  }

  /** Every track is a combination. */
  ghost predicate Covering(sps: seq<Stub>, ps: set<nat>, ts: seq<Track>)
    requires AllPlaces(sps, ps)
  {
    forall k :: 0 <= k < |ts| ==> Combination(sps, ps, Others(ts[k]))
  }

  /** Point p may come next: its chamber is not the seed's, and it was not there before. */
  predicate Newcomer(sps: seq<Stub>, seed: nat, ps: set<nat>, p: nat) {
    && seed < |sps| && p < |sps| && p !in ps && sps[p].chamber != sps[seed].chamber
    && AllPlaces(sps, ps)
  }

  // ---- one track ------------------------------------------------------------------------------------------

  /** The chambers of the track's first n points. */
  function ChambersOf(sps: seq<Stub>, t: Track, n: nat): (chambers: set<int>)
    requires InList(sps, t) && n <= |t|
  {
    if n == 0 then {} else ChambersOf(sps, t, n - 1) + {sps[t[n - 1]].chamber}
  }

  lemma {:induction false} ChambersInRange(sps: seq<Stub>, t: Track, n: nat)
    requires InList(sps, t) && n <= |t| && FewChambers(sps)
    ensures ChambersOf(sps, t, n) <= NumbersTo(10)
  {
    hide NumbersTo;
    if n > 0 {
      ChambersInRange(sps, t, n - 1);
    }
  }

  function NumbersTo(n: nat): (numbers: set<int>)
    ensures |numbers| == n && forall k :: k in numbers <==> 1 <= k <= n
  {
    if n == 0 then {} else NumbersTo(n - 1) + {n as int}
  }

  lemma {:induction false} AsManyChambers(sps: seq<Stub>, t: Track, n: nat, chamber: int)
    requires InList(sps, t) && n <= |t|
    requires forall k, l :: 0 <= k < l < |t| ==> sps[t[k]].chamber != sps[t[l]].chamber
    requires forall k :: 0 <= k < n ==> sps[t[k]].chamber != chamber
    ensures |ChambersOf(sps, t, n)| == n && chamber !in ChambersOf(sps, t, n)
  {
    if n > 0 {
      AsManyChambers(sps, t, n - 1, chamber);
      AsManyChambers(sps, t, n - 1, sps[t[n - 1]].chamber);
    }
  }

  lemma SmallerSet(a: set<int>, b: set<int>)
    requires a <= b
    ensures |a| <= |b|
  {
    assert b == a + (b - a);
  }

  /** There is room in a track that lacks the chamber of a point. */
  lemma RoomLeft(sps: seq<Stub>, t: Track, p: nat)
    requires InList(sps, t) && p < |sps| && FewChambers(sps)
    requires forall k, l :: 0 <= k < l < |t| ==> sps[t[k]].chamber != sps[t[l]].chamber
    requires forall k :: 0 <= k < |t| ==> sps[t[k]].chamber != sps[p].chamber
    ensures |t| < MOST_POINTS
  {
    var chambers := ChambersOf(sps, t, |t|) + {sps[p].chamber};
    AsManyChambers(sps, t, |t|, sps[p].chamber);
    ChambersInRange(sps, t, |t|);
    hide NumbersTo, ChambersOf;
    SmallerSet(chambers, NumbersTo(10));
  }

  lemma OthersMore(t: Track, p: nat)
    requires |t| >= 1
    ensures Others(t + [p]) == Others(t) + {p}
  {
    assert (t + [p])[|t|] == p;
    assert forall k :: 1 <= k < |t| ==> (t + [p])[k] == t[k];
  }

  lemma OthersReplaced(t: Track, slot: nat, p: nat)
    requires 1 <= slot < |t| && forall k, l :: 0 <= k < l < |t| ==> t[k] != t[l]
    ensures Others(t[slot := p]) == Others(t) - {t[slot]} + {p}
  {
    var after := t[slot := p];
    assert after[slot] == p;
    assert forall k :: 1 <= k < |t| && k != slot ==> after[k] == t[k];
  }

  /** Whether a new point is blocked, and by which one. */
  lemma BlockedIff(sps: seq<Stub>, seed: nat, ps: set<nat>, t: Track, p: nat)
    requires GoodTrack(sps, seed, t) && Newcomer(sps, seed, ps, p) && Combination(sps, ps, Others(t))
    ensures p !in t
    ensures Blocked(sps, t, p) <==> HasChamber(sps, ps, sps[p].chamber)
    ensures Blocked(sps, t, p) ==>
              var slot := SlotOf(sps, t, sps[p].chamber, |t|);
              && 1 <= slot < |t| && t[slot] in Others(t) && sps[t[slot]].chamber == sps[p].chamber
  {
    forall k | 0 <= k < |t| ensures t[k] != p {
      if k > 0 {
        assert t[k] in Others(t);
      }
    }
    var slot := SlotOf(sps, t, sps[p].chamber, |t|);
    if slot >= 0 {
      assert slot > 0;
      assert t[slot] in Others(t) && t[slot] in ps;
    }
    if HasChamber(sps, ps, sps[p].chamber) {
      var q :| q in ps && sps[q].chamber == sps[p].chamber;
      assert HasChamber(sps, Others(t), sps[q].chamber);
      var o :| o in Others(t) && sps[o].chamber == sps[q].chamber;
    }
  }

  /** A combination with a point of a chamber that had none. */
  lemma CombinationMore(sps: seq<Stub>, ps: set<nat>, chosen: set<nat>, p: nat)
    requires AllPlaces(sps, ps) && p < |sps| && p !in ps && !HasChamber(sps, ps, sps[p].chamber)
    ensures Combination(sps, ps, chosen) ==> Combination(sps, ps + {p}, chosen + {p})
    ensures Combination(sps, ps + {p}, chosen) ==> p in chosen && Combination(sps, ps, chosen - {p})
  {
    if Combination(sps, ps, chosen) {
      var more := chosen + {p};
      forall q | q in ps + {p} ensures HasChamber(sps, more, sps[q].chamber) {
        if q == p {
          assert p in more;
        } else {
          assert HasChamber(sps, chosen, sps[q].chamber);
          var o :| o in chosen && sps[o].chamber == sps[q].chamber;
          assert o in more;
        }
      }
    }
    if Combination(sps, ps + {p}, chosen) {
      var fewer := chosen - {p};
      assert p in ps + {p};
      assert HasChamber(sps, chosen, sps[p].chamber);
      forall q | q in ps ensures HasChamber(sps, fewer, sps[q].chamber) {
        assert q in ps + {p};
        var o :| o in chosen && sps[o].chamber == sps[q].chamber;
        assert o in fewer;
      }
    }
  }

  /** A combination when there is another point of a chamber that had some. */
  lemma CombinationSame(sps: seq<Stub>, ps: set<nat>, chosen: set<nat>, p: nat)
    requires AllPlaces(sps, ps) && p < |sps| && p !in ps && HasChamber(sps, ps, sps[p].chamber)
    ensures Combination(sps, ps, chosen) ==> Combination(sps, ps + {p}, chosen)
    ensures Combination(sps, ps + {p}, chosen) && p !in chosen ==> Combination(sps, ps, chosen)
  {
    if Combination(sps, ps, chosen) {
      var q :| q in ps && sps[q].chamber == sps[p].chamber;
      assert HasChamber(sps, chosen, sps[q].chamber);
    }
    if Combination(sps, ps + {p}, chosen) && p !in chosen {
      forall q | q in ps ensures HasChamber(sps, chosen, sps[q].chamber) {
        assert q in ps + {p};
      }
    }
  }

  /** One point of a chamber in place of another. */
  lemma CombinationSwapped(sps: seq<Stub>, ps: set<nat>, chosen: set<nat>, old': nat, new': nat)
    requires AllPlaces(sps, ps) && Combination(sps, ps, chosen)
    requires old' in chosen && new' in ps && sps[old'].chamber == sps[new'].chamber
    ensures Combination(sps, ps, chosen - {old'} + {new'})
  {
    var after := chosen - {old'} + {new'};
    forall q | q in ps ensures HasChamber(sps, after, sps[q].chamber) {
      var o :| o in chosen && sps[o].chamber == sps[q].chamber;
      if o == old' {
        assert new' in after;
      } else {
        assert o in after;
      }
    }
  }

  lemma Different(sps: seq<Stub>, seed: nat, t: Track)
    requires GoodTrack(sps, seed, t)
    ensures forall k, l :: 0 <= k < l < |t| ==> t[k] != t[l]
  {
  }

  lemma ExtendedCombines(sps: seq<Stub>, seed: nat, ps: set<nat>, t: Track, p: nat)
    requires FewChambers(sps) && GoodTrack(sps, seed, t) && Newcomer(sps, seed, ps, p)
    requires Combination(sps, ps, Others(t))
    ensures Others(Extended(sps, t, p)) == if HasChamber(sps, ps, sps[p].chamber) then Others(t) else Others(t) + {p}
    ensures Combination(sps, ps + {p}, Others(Extended(sps, t, p)))
  {
    hide FewChambers, Combination, HasChamber, Others;
    BlockedIff(sps, seed, ps, t, p);
    if HasChamber(sps, ps, sps[p].chamber) {
      CombinationSame(sps, ps, Others(t), p);
    } else {
      CombinationMore(sps, ps, Others(t), p);
      RoomLeft(sps, t, p);
      OthersMore(t, p);
    }
  }

  lemma CloneCombines(sps: seq<Stub>, seed: nat, ps: set<nat>, t: Track, p: nat)
    requires GoodTrack(sps, seed, t) && Newcomer(sps, seed, ps, p)
    requires Combination(sps, ps, Others(t)) && Blocked(sps, t, p)
    ensures Combination(sps, ps + {p}, Others(Clone(sps, t, p)))
    ensures exists q :: q in Others(t) && q < |sps| && sps[q].chamber == sps[p].chamber
                        && Others(Clone(sps, t, p)) == Others(t) - {q} + {p}
  {
    hide Combination, HasChamber, Others;
    BlockedIff(sps, seed, ps, t, p);
    CombinationSame(sps, ps, Others(t), p);
    var slot := SlotOf(sps, t, sps[p].chamber, |t|);
    Different(sps, seed, t);
    OthersReplaced(t, slot, p);
    CombinationSwapped(sps, ps + {p}, Others(t), t[slot], p);
  }

  // ---- all tracks of a seed ---------------------------------------------------------------------------------

  lemma {:induction false} ClonesCombine(sps: seq<Stub>, seed: nat, ps: set<nat>, ts: seq<Track>, p: nat)
    requires AllInList(sps, ts) && GoodTracks(sps, seed, ts) && Newcomer(sps, seed, ps, p) && Covering(sps, ps, ts)
    ensures Covering(sps, ps + {p}, CloneAll(sps, ts, p))
    ensures forall k :: 0 <= k < |ts| && Blocked(sps, ts[k], p) ==> Clone(sps, ts[k], p) in CloneAll(sps, ts, p)
  {
    hide Combination, Others, GoodTrack, Clone, Blocked;
    if ts != [] {
      var front, t := ts[..|ts| - 1], ts[|ts| - 1];
      ClonesCombine(sps, seed, ps, front, p);
      if Blocked(sps, t, p) {
        CloneCombines(sps, seed, ps, t, p);
      }
    }
  }

  lemma NextCovers(sps: seq<Stub>, seed: nat, ps: set<nat>, ts: seq<Track>, p: nat)
    requires FewChambers(sps) && AllInList(sps, ts) && GoodTracks(sps, seed, ts) && Newcomer(sps, seed, ps, p)
    requires Covering(sps, ps, ts) && (ts == [] ==> ps == {})
    ensures Covering(sps, ps + {p}, Next(sps, ts, seed, p))
  {
    hide Combination, Others, GoodTrack, Clone, Blocked, FewChambers;
    if ts == [] {
      OnlyOne(sps, seed, p);
    } else {
      ClonesCombine(sps, seed, ps, ts, p);
      forall k | 0 <= k < |ts| ensures Combination(sps, ps + {p}, Others(Extended(sps, ts[k], p))) {
        ExtendedCombines(sps, seed, ps, ts[k], p);
      }
    }
  }

  lemma OnlyOne(sps: seq<Stub>, seed: nat, p: nat)
    requires p < |sps|
    ensures Others([seed, p]) == {p} && Combination(sps, {} + {p}, {p})
    ensures forall chosen: set<nat> :: Combination(sps, {} + {p}, chosen) ==> chosen == {p}
  {
    assert [seed, p][1] == p;
    assert p in {p};
    forall chosen: set<nat> | Combination(sps, {} + {p}, chosen) ensures chosen == {p} {
      assert p in {} + {p};
      assert HasChamber(sps, chosen, sps[p].chamber);
    }
  }

  /** The track that a combination comes from. */
  lemma Origin(sps: seq<Stub>, seed: nat, ps: set<nat>, ts: seq<Track>, p: nat, chosen: set<nat>)
    requires FewChambers(sps) && AllInList(sps, ts) && GoodTracks(sps, seed, ts) && Newcomer(sps, seed, ps, p)
    requires Covering(sps, ps, ts) && Complete(sps, ps, ts) && ts != [] && ps != {}
    requires Combination(sps, ps + {p}, chosen)
    ensures Found(Next(sps, ts, seed, p), chosen)
  {
    hide Combination, Others, GoodTrack, Clone, Blocked, FewChambers, Extended, Covering, Complete;
    if !HasChamber(sps, ps, sps[p].chamber) {
      CombinationMore(sps, ps, chosen, p);
      SomeChosen(sps, ps, chosen - {p});
      var k := TrackFor(sps, ps, ts, chosen - {p});
      ExtendedCombines(sps, seed, ps, ts[k], p);
      assert Next(sps, ts, seed, p)[k] == Extended(sps, ts[k], p);
      assert chosen - {p} + {p} == chosen;
    } else {
      CombinationSame(sps, ps, chosen, p);
      if p !in chosen {
        SomeChosen(sps, ps, chosen);
        var k := TrackFor(sps, ps, ts, chosen);
        ExtendedCombines(sps, seed, ps, ts[k], p);
        assert Next(sps, ts, seed, p)[k] == Extended(sps, ts[k], p);
      } else {
        ClonedFor(sps, seed, ps, ts, p, chosen);
      }
    }
  }

  lemma SomeChosen(sps: seq<Stub>, ps: set<nat>, chosen: set<nat>)
    requires AllPlaces(sps, ps) && Combination(sps, ps, chosen) && ps != {}
    ensures chosen != {}
  {
    var p :| p in ps;
    assert HasChamber(sps, chosen, sps[p].chamber);
  }

  lemma TrackFor(sps: seq<Stub>, ps: set<nat>, ts: seq<Track>, chosen: set<nat>) returns (k: nat)
    requires AllPlaces(sps, ps) && Covering(sps, ps, ts) && Complete(sps, ps, ts)
    requires Combination(sps, ps, chosen) && chosen != {}
    ensures k < |ts| && Others(ts[k]) == chosen && Combination(sps, ps, Others(ts[k]))
  {
    hide Combination, Others;
    assert Found(ts, chosen);
    k :| 0 <= k < |ts| && Others(ts[k]) == chosen;
  }

  lemma ClonedFor(sps: seq<Stub>, seed: nat, ps: set<nat>, ts: seq<Track>, p: nat, chosen: set<nat>)
    requires AllInList(sps, ts) && GoodTracks(sps, seed, ts) && Newcomer(sps, seed, ps, p)
    requires Covering(sps, ps, ts) && Complete(sps, ps, ts) && ts != []
    requires Combination(sps, ps + {p}, chosen) && HasChamber(sps, ps, sps[p].chamber) && p in chosen
    ensures Found(Next(sps, ts, seed, p), chosen)
  {
    hide Combination, Others, GoodTrack, Clone, Blocked, Complete, Covering, ExtendAll, CloneAll, Next, SlotOf, Found;
    var q :| q in ps && sps[q].chamber == sps[p].chamber;
    CombinationSwapped(sps, ps + {p}, chosen, p, q);
    var was := chosen - {p} + {q};
    CombinationSame(sps, ps, was, p);
    var k := TrackFor(sps, ps, ts, was);
    BlockedIff(sps, seed, ps, ts[k], p);
    CloneCombines(sps, seed, ps, ts[k], p);
    OnlyOfChamber(sps, ps, was, q);
    ClonesCombine(sps, seed, ps, ts, p);
    NotBoth(sps, ps + {p}, chosen, p, q);
    CloneIsFound(sps, seed, ts, p, Clone(sps, ts[k], p));
  }

  lemma CloneIsFound(sps: seq<Stub>, seed: nat, ts: seq<Track>, p: nat, clone: Track)
    requires AllInList(sps, ts) && seed < |sps| && p < |sps| && ts != [] && clone in CloneAll(sps, ts, p)
    ensures Found(Next(sps, ts, seed, p), Others(clone))
  {
    hide ExtendAll, CloneAll, Others, AllInList, Found;
    FoundAfter(ExtendAll(sps, ts, p), CloneAll(sps, ts, p), clone);
  }

  lemma FoundAfter(es: seq<Track>, cs: seq<Track>, t: Track)
    requires t in cs
    ensures Found(es + cs, Others(t))
  {
    hide Others;
    var l :| 0 <= l < |cs| && cs[l] == t;
    assert (es + cs)[|es| + l] == t;
  }

  lemma OnlyOfChamber(sps: seq<Stub>, ps: set<nat>, chosen: set<nat>, q: nat)
    requires AllPlaces(sps, ps) && Combination(sps, ps, chosen) && q in chosen
    ensures forall r <- chosen :: sps[r].chamber == sps[q].chamber ==> r == q
  {
  }

  lemma NotBoth(sps: seq<Stub>, ps: set<nat>, chosen: set<nat>, p: nat, q: nat)
    requires AllPlaces(sps, ps) && Combination(sps, ps, chosen) && p in chosen && q in ps && p != q
    requires sps[p].chamber == sps[q].chamber
    ensures q !in chosen && chosen - {p} + {q} - {q} + {p} == chosen
  {
  }

  lemma NextComplete(sps: seq<Stub>, seed: nat, ps: set<nat>, ts: seq<Track>, p: nat)
    requires FewChambers(sps) && AllInList(sps, ts) && GoodTracks(sps, seed, ts) && Newcomer(sps, seed, ps, p)
    requires Covering(sps, ps, ts) && Complete(sps, ps, ts) && (ts == [] <==> ps == {})
    ensures Complete(sps, ps + {p}, Next(sps, ts, seed, p))
  {
    hide Combination, Others, GoodTracks, Covering, FewChambers;
    if ts == [] {
      PlaceOf(sps, seed, ps, p);
      OnlyOne(sps, seed, p);
      assert Next(sps, ts, seed, p)[0] == [seed, p];
    } else {
      hide Next, Found, Complete;
      forall chosen: set<nat> | Combination(sps, ps + {p}, chosen) ensures Found(Next(sps, ts, seed, p), chosen) {
        Origin(sps, seed, ps, ts, p, chosen);
      }
      AllFound(sps, ps + {p}, Next(sps, ts, seed, p));
    }
  }

  lemma AllFound(sps: seq<Stub>, ps: set<nat>, ts: seq<Track>)
    requires AllPlaces(sps, ps) && forall chosen: set<nat> :: Combination(sps, ps, chosen) ==> Found(ts, chosen)
    ensures Complete(sps, ps, ts)
  {
    hide Combination, Found;
  }

  lemma PlaceOf(sps: seq<Stub>, seed: nat, ps: set<nat>, p: nat)
    requires Newcomer(sps, seed, ps, p)
    ensures p < |sps| && AllPlaces(sps, ps + {p})
  {
  }

  /** The points before n that can be linked to the seed. */
  function Candidates(sps: seq<Stub>, c: Criteria, seed: nat, n: nat): (ps: set<nat>)
    requires n <= |sps|
    ensures AllPlaces(sps, ps)
  {
    set p: nat | p < n && Linkable(sps, c, seed, p)
  }

  lemma OneMoreCandidate(sps: seq<Stub>, c: Criteria, seed: nat, n: nat)
    requires n < |sps|
    ensures Candidates(sps, c, seed, n + 1)
            == if Linkable(sps, c, seed, n) then Candidates(sps, c, seed, n) + {n} else Candidates(sps, c, seed, n)
    ensures Linkable(sps, c, seed, n) ==> Newcomer(sps, seed, Candidates(sps, c, seed, n), n)
  {
    hide Agree;
  }

  lemma SoundIsGood(sps: seq<Stub>, c: Criteria, ts: seq<Track>, seed: nat)
    requires AllOfSeed(sps, c, ts, seed)
    ensures GoodTracks(sps, seed, ts) && AllInList(sps, ts)
  {
    hide Linkable;
  }

  lemma NothingToLink(sps: seq<Stub>, c: Criteria, seed: nat)
    requires seed < |sps|
    ensures Candidates(sps, c, seed, seed + 1) == {}
    ensures Covering(sps, {}, []) && Complete(sps, {}, [])
  {
  }

  lemma CutCovers(sps: seq<Stub>, ps: set<nat>, ts: seq<Track>, room: int)
    requires AllPlaces(sps, ps) && Covering(sps, ps, ts)
    ensures Covering(sps, ps, Cut(ts, room))
    ensures room > 0 && ts != [] ==> Cut(ts, room) != []
  {
    hide Combination;
  }

  lemma NextNonempty(sps: seq<Stub>, ts: seq<Track>, seed: nat, p: nat)
    requires AllInList(sps, ts) && seed < |sps| && p < |sps|
    ensures |Next(sps, ts, seed, p)| >= 1
  {
  }

  /**
   The tracks of a seed: every one combines it with one point of every other chamber that has a point to
   link, and, unless one was refused, every such combination is a track.
   */
  lemma {:induction false} SeedTracksCombine(sps: seq<Stub>, c: Criteria, seed: nat, n: nat, room: nat)
    requires FewChambers(sps) && seed < n <= |sps|
    ensures var ps, ts := Candidates(sps, c, seed, n), SeedTracks(sps, c, seed, n, room);
            && Covering(sps, ps, ts) && (!SeedRefuses(sps, c, seed, n, room) ==> Complete(sps, ps, ts))
            && (ts == [] && (room > 0 || !SeedRefuses(sps, c, seed, n, room)) ==> ps == {})
            && (ps == {} ==> ts == [])
  {
    hide SeedTracks, SeedRefuses, Linkable, AllInList, Next, Linked, FewChambers, Candidates, Covering, Complete;
    hide GoodTracks, Newcomer, AllOfSeed;
    if n == seed + 1 {
      SeedBegins(sps, c, seed, room);
      NothingToLink(sps, c, seed);
    } else {
      SeedTracksCombine(sps, c, seed, n - 1, room);
      SeedStep(sps, c, seed, n - 1, room);
      OneMoreCandidate(sps, c, seed, n - 1);
      if Linkable(sps, c, seed, n - 1) {
        SeedTracksSound(sps, c, seed, n - 1, room);
        PointAdded(sps, c, seed, n - 1, room, Candidates(sps, c, seed, n - 1), SeedTracks(sps, c, seed, n - 1, room));
      }
    }
  }

  lemma PointAdded(sps: seq<Stub>, c: Criteria, seed: nat, p: nat, room: nat, ps: set<nat>, ts: seq<Track>)
    requires FewChambers(sps) && Newcomer(sps, seed, ps, p) && AllOfSeed(sps, c, ts, seed) && |ts| <= room
    requires AllInList(sps, ts) && Covering(sps, ps, ts)
    requires (room > 0 && ts == [] ==> ps == {}) && (ps == {} ==> ts == [])
    ensures var next := Next(sps, ts, seed, p);
            && Covering(sps, ps + {p}, Linked(sps, ts, seed, p, room))
            && (Complete(sps, ps, ts) && |next| <= room ==> Complete(sps, ps + {p}, Linked(sps, ts, seed, p, room)))
            && (room > 0 ==> Linked(sps, ts, seed, p, room) != [])
            && |next| >= 1
  {
    SoundIsGood(sps, c, ts, seed);
    var next := Next(sps, ts, seed, p);
    NextNonempty(sps, ts, seed, p);
    LinkedIs(sps, ts, seed, p, room);
    PlaceOf(sps, seed, ps, p);
    hide FewChambers, Covering, Complete, GoodTracks, AllOfSeed, AllInList, Next, Linked, Newcomer;
    if room > 0 {
      NextCovers(sps, seed, ps, ts, p);
      CutCovers(sps, ps + {p}, next, room);
      if Complete(sps, ps, ts) && |next| <= room {
        NextComplete(sps, seed, ps, ts, p);
        CutOrNot(next, room);
      }
    } else {
      NothingCovers(sps, ps + {p});
    }
  }

  lemma NothingCovers(sps: seq<Stub>, ps: set<nat>)
    requires AllPlaces(sps, ps)
    ensures Covering(sps, ps, [])
  {
  }

  // ---- the whole list -----------------------------------------------------------------------------------------

  /** The track combines its seed with one point of every other chamber that has a point to link. */
  ghost predicate Combines(sps: seq<Stub>, c: Criteria, t: Track) {
    |t| >= 2 && Combination(sps, Candidates(sps, c, t[0], |sps|), Others(t))
  }

  ghost predicate AllCombine(sps: seq<Stub>, c: Criteria, ts: seq<Track>) {
    forall k :: 0 <= k < |ts| ==> Combines(sps, c, ts[k])
  }

  lemma SeedsCombine(sps: seq<Stub>, c: Criteria, seed: nat, ts: seq<Track>)
    requires AllOfSeed(sps, c, ts, seed) && Covering(sps, Candidates(sps, c, seed, |sps|), ts)
    ensures AllCombine(sps, c, ts)
  {
    hide Candidates, Combination, Others, Linkable;
  }

  lemma TogetherCombine(sps: seq<Stub>, c: Criteria, ts: seq<Track>, us: seq<Track>)
    requires AllCombine(sps, c, ts) && AllCombine(sps, c, us)
    ensures AllCombine(sps, c, ts + us)
  {
    hide Combines;
  }

  /** Every track, refused ones or not, is complete in this sense. */
  lemma {:induction false} TracksCombine(sps: seq<Stub>, c: Criteria, n: nat)
    requires FewChambers(sps) && n <= |sps|
    ensures AllCombine(sps, c, Tracks(sps, c, n))
  {
    hide Tracks, SeedTracks, AllCombine, AllOfSeed, Used, FewChambers, Covering, Complete, Candidates;
    if n == 0 {
      NoTracksYet(sps, c);
      NoneCombine(sps, c);
    } else {
      TracksCombine(sps, c, n - 1);
      TracksStep(sps, c, n - 1);
      var before := Tracks(sps, c, n - 1);
      var own := SeedTracks(sps, c, n - 1, |sps|, MAXTRACKS - |before|);
      SeedTracksSound(sps, c, n - 1, |sps|, MAXTRACKS - |before|);
      SeedTracksCombine(sps, c, n - 1, |sps|, MAXTRACKS - |before|);
      SeedsCombine(sps, c, n - 1, own);
      TogetherCombine(sps, c, before, own);
    }
  }

  lemma NoneCombine(sps: seq<Stub>, c: Criteria)
    ensures AllCombine(sps, c, [])
  {
  }

  ghost predicate HasTrack(ts: seq<Track>, seed: nat, chosen: set<nat>) {
    exists k :: 0 <= k < |ts| && |ts[k]| >= 2 && ts[k][0] == seed && Others(ts[k]) == chosen
  }

  lemma StillThere(ts: seq<Track>, us: seq<Track>, seed: nat, chosen: set<nat>)
    requires HasTrack(ts, seed, chosen) || HasTrack(us, seed, chosen)
    ensures HasTrack(ts + us, seed, chosen)
  {
    hide Others;
    if HasTrack(ts, seed, chosen) {
      var k :| 0 <= k < |ts| && |ts[k]| >= 2 && ts[k][0] == seed && Others(ts[k]) == chosen;
      assert (ts + us)[k] == ts[k];
    } else {
      var k :| 0 <= k < |us| && |us[k]| >= 2 && us[k][0] == seed && Others(us[k]) == chosen;
      assert (ts + us)[|ts| + k] == us[k];
    }
  }

  lemma OwnTrack(sps: seq<Stub>, c: Criteria, seed: nat, ts: seq<Track>, chosen: set<nat>)
    requires AllOfSeed(sps, c, ts, seed) && Complete(sps, Candidates(sps, c, seed, |sps|), ts)
    requires Combination(sps, Candidates(sps, c, seed, |sps|), chosen) && chosen != {}
    ensures HasTrack(ts, seed, chosen)
  {
    hide Candidates, Combination, Others, Linkable;
    var k :| 0 <= k < |ts| && Others(ts[k]) == chosen;
    assert OfSeed(sps, c, ts[k], seed);
  }

  /**
   When nothing was refused, a point that is in no track of an earlier seed makes a track of every
   combination with points it can be linked to, one of every chamber that has any.
   */
  lemma {:induction false} EveryCombinationIsTrack(sps: seq<Stub>, c: Criteria, n: nat, seed: nat, chosen: set<nat>)
    requires FewChambers(sps) && seed < n <= |sps| && !Refuses(sps, c, n) && !Used(Tracks(sps, c, seed), seed)
    requires Combination(sps, Candidates(sps, c, seed, |sps|), chosen) && chosen != {}
    ensures HasTrack(Tracks(sps, c, n), seed, chosen)
  {
    hide Tracks, SeedTracks, Refuses, SeedRefuses, Used, FewChambers, Covering, Complete, Candidates, Combination;
    hide HasTrack, AllOfSeed;
    TracksStep(sps, c, n - 1);
    var before := Tracks(sps, c, n - 1);
    var own := SeedTracks(sps, c, n - 1, |sps|, MAXTRACKS - |before|);
    if n == seed + 1 {
      SeedTracksSound(sps, c, seed, |sps|, MAXTRACKS - |before|);
      SeedTracksCombine(sps, c, seed, |sps|, MAXTRACKS - |before|);
      OwnTrack(sps, c, seed, own, chosen);
      StillThere(before, own, seed, chosen);
    } else {
      EveryCombinationIsTrack(sps, c, n - 1, seed, chosen);
      StillThere(before, own, seed, chosen);
    }
  }

  /** All of this, for the list that the program makes. */
  ghost predicate MadeOfCombinations(sps: seq<Stub>, c: Criteria, ts: seq<Track>, n: nat)
    requires n <= |sps|
  {
    && AllCombine(sps, c, ts)
    && (!Refuses(sps, c, n) ==>
          forall seed: nat, chosen: set<nat> ::
            seed < n && !Used(Tracks(sps, c, seed), seed)
            && Combination(sps, Candidates(sps, c, seed, |sps|), chosen) && chosen != {} ==>
              HasTrack(ts, seed, chosen))
  }

  lemma ListCombines(sps: seq<Stub>, c: Criteria, n: nat)
    requires FewChambers(sps) && n <= |sps|
    ensures MadeOfCombinations(sps, c, Tracks(sps, c, n), n)
  {
    hide Tracks, Refuses, Used, FewChambers, Candidates, Combination, HasTrack, AllCombine;
    TracksCombine(sps, c, n);
    if !Refuses(sps, c, n) {
      forall seed: nat, chosen: set<nat>
        | seed < n && !Used(Tracks(sps, c, seed), seed)
          && Combination(sps, Candidates(sps, c, seed, |sps|), chosen) && chosen != {}
        ensures HasTrack(Tracks(sps, c, n), seed, chosen)
      {
        EveryCombinationIsTrack(sps, c, n, seed, chosen);
      }
    }
  }
}
