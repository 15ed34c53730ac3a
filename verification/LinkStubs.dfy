/** The drift chamber package: its list of tracks is made by linking stubs, seed by seed. */
module LinkStubs {
  import opened Linking
  import TrackCombinations

  function Min(a: int, b: int): int {
    if a <= b then a else b
  }

  lemma {:induction false} ClonesHoldPoint(sps: seq<Stub>, ts: seq<Track>, p: nat)
    requires AllInList(sps, ts) && p < |sps|
    ensures forall k :: 0 <= k < |CloneAll(sps, ts, p)| ==> p in CloneAll(sps, ts, p)[k]
  {
    if ts != [] {
      ClonesHoldPoint(sps, ts[..|ts| - 1], p);
      var t := ts[|ts| - 1];
      if Blocked(sps, t, p) {
        assert Clone(sps, t, p)[SlotOf(sps, t, sps[p].chamber, |t|)] == p;
      }
    }
  }

  /** How many space points of a chamber are put in the list, when it has so many already. */
  function Taken(ich: nat, have: nat, available: nat): nat {
    Min(available, if ich == 0 then 51 else if have >= 100 then 1 else 101 - have)
  }

  function Numbered(sps: seq<Stub>, number: int): (r: seq<Stub>)
    ensures |r| == |sps| && forall k :: 0 <= k < |sps| ==> r[k] == sps[k].(chamber := number)
  {
    seq(|sps|, k requires 0 <= k < |sps| => sps[k].(chamber := number))
  }

  function Gathered(chambers: seq<seq<Stub>>, n: nat): seq<Stub>
    requires n <= |chambers|
  {
    if n == 0 then []
    else
      var before, more := Gathered(chambers, n - 1), chambers[n - 1];
      before + Numbered(more[..Taken(n - 1, |before|, |more|)], n)
  }

  /** The seed's tracks ts when the loop over them stands at n: clones so far are at the end. */
  function Visited(sps: seq<Stub>, ts: seq<Track>, p: nat, n: nat, room: int): seq<Track>
    requires AllInList(sps, ts) && p < |sps| && n <= |ts|
  {
    ExtendAll(sps, ts[..n], p) + ts[n..] + Cut(CloneAll(sps, ts[..n], p), room - |ts|)
  }

  predicate RefusedSoFar(sps: seq<Stub>, ts: seq<Track>, p: nat, n: nat, room: int)
    requires AllInList(sps, ts) && p < |sps| && n <= |ts|
  {
    |CloneAll(sps, ts[..n], p)| > room - |ts|
  }

  lemma NothingVisited(sps: seq<Stub>, ts: seq<Track>, p: nat, room: int)
    requires AllInList(sps, ts) && p < |sps| && |ts| <= room
    ensures Visited(sps, ts, p, 0, room) == ts && !RefusedSoFar(sps, ts, p, 0, room)
  {
  }

  lemma AllVisited(sps: seq<Stub>, ts: seq<Track>, seed: nat, p: nat, room: int)
    requires AllInList(sps, ts) && p < |sps| && seed < |sps| && 0 < |ts| <= room
    ensures Visited(sps, ts, p, |ts|, room) == Cut(Next(sps, ts, seed, p), room)
    ensures RefusedSoFar(sps, ts, p, |ts|, room) <==> |Next(sps, ts, seed, p)| > room
  {
    assert ts[..|ts|] == ts;
  }

  /** The list before and after track n is visited, in parts. */
  lemma VisitedParts(sps: seq<Stub>, ts: seq<Track>, p: nat, n: nat, room: int)
    requires AllInList(sps, ts) && p < |sps| && n < |ts|
    ensures InList(sps, ts[n]) && AllInList(sps, ts[..n])
    ensures var es, cs, t := ExtendAll(sps, ts[..n], p), CloneAll(sps, ts[..n], p), ts[n];
            var more := if Blocked(sps, t, p) then [Clone(sps, t, p)] else [];
            && |es| == n && Visited(sps, ts, p, n, room) == es + ([t] + ts[n + 1..]) + Cut(cs, room - |ts|)
            && Visited(sps, ts, p, n + 1, room)
               == (es + [Extended(sps, t, p)]) + ts[n + 1..] + Cut(cs + more, room - |ts|)
            && (RefusedSoFar(sps, ts, p, n, room) <==> |cs| > room - |ts|)
            && (RefusedSoFar(sps, ts, p, n + 1, room) <==> |cs| + |more| > room - |ts|)
  {
    hide Extended, Clone, Blocked, Cut, ExtendAll, CloneAll, InList;
    assert ts[..n] + [ts[n]] == ts[..n + 1] && ts[n..] == [ts[n]] + ts[n + 1..];
    OneMoreExtended(sps, ts[..n], ts[n], p);
  }

  /** What visiting track n does to the list. */
  lemma OneVisited(sps: seq<Stub>, ts: seq<Track>, p: nat, n: nat, room: int)
    requires AllInList(sps, ts) && p < |sps| && n < |ts| <= room
    ensures var now, t := Visited(sps, ts, p, n, room), ts[n];
            && |now| >= |ts| && now[n] == t
            && Visited(sps, ts, p, n + 1, room)
               == (if Blocked(sps, t, p) && |now| < room then now + [Clone(sps, t, p)]
                   else now[n := Extended(sps, t, p)])
            && (RefusedSoFar(sps, ts, p, n + 1, room)
                <==> RefusedSoFar(sps, ts, p, n, room) || (Blocked(sps, t, p) && |now| >= room))
  {
    hide Extended, Clone, Blocked, Cut, ExtendAll, CloneAll, InList, AllInList, Visited, RefusedSoFar;
    VisitedParts(sps, ts, p, n, room);
    var es, cs, t := ExtendAll(sps, ts[..n], p), CloneAll(sps, ts[..n], p), ts[n];
    var e, rest, kept := Extended(sps, t, p), ts[n + 1..], Cut(cs, room - |ts|);
    CutMore(cs, if Blocked(sps, t, p) then Clone(sps, t, p) else t, room - |ts|);
    Replace(es, t, e, rest, kept);
    if Blocked(sps, t, p) {
      ExtendedIfBlocked(sps, t, p);
      AppendLast((es + [t]) + rest, kept, Clone(sps, t, p));
    } else {
      assert cs + [] == cs;
    }
  }

  lemma OneMoreExtended(sps: seq<Stub>, before: seq<Track>, t: Track, p: nat)
    requires AllInList(sps, before) && InList(sps, t) && p < |sps|
    ensures AllInList(sps, before + [t])
    ensures ExtendAll(sps, before + [t], p) == ExtendAll(sps, before, p) + [Extended(sps, t, p)]
    ensures CloneAll(sps, before + [t], p)
            == CloneAll(sps, before, p) + if Blocked(sps, t, p) then [Clone(sps, t, p)] else []
  {
    hide Extended, Clone, Blocked;
    assert (before + [t])[..|before|] == before;
  }

  lemma AppendLast(ts: seq<Track>, kept: seq<Track>, t: Track)
    ensures ts + (kept + [t]) == (ts + kept) + [t]
  {
  }

  lemma Replace(es: seq<Track>, t: Track, e: Track, rest: seq<Track>, cs: seq<Track>)
    ensures (es + ([t] + rest) + cs)[|es| := e] == (es + [e]) + rest + cs
    ensures (es + ([t] + rest) + cs)[|es|] == t && es + ([t] + rest) == (es + [t]) + rest
  {
  }

  /** One more at the end is kept if there is room. */
  lemma CutMore(cs: seq<Track>, t: Track, room: int)
    requires room >= 0
    ensures |Cut(cs, room)| == if |cs| <= room then |cs| else room
    ensures Cut(cs + [t], room) == if |Cut(cs, room)| < room then Cut(cs, room) + [t] else Cut(cs, room)
  {
  }

  lemma ExtendedIfBlocked(sps: seq<Stub>, t: Track, p: nat)
    requires InList(sps, t) && p < |sps|
    ensures Blocked(sps, t, p) ==> Extended(sps, t, p) == t
  {
  }

  lemma {:induction false} RefusedForGood(sps: seq<Stub>, c: Criteria, seed: nat, n: nat, k: nat, room: int)
    requires seed < n <= k <= |sps| && SeedRefuses(sps, c, seed, n, room)
    ensures SeedRefuses(sps, c, seed, k, room)
  {
    if n < k {
      RefusedForGood(sps, c, seed, n, k - 1, room);
    }
  }

  lemma {:induction false} AllRefused(sps: seq<Stub>, c: Criteria, n: nat, k: nat)
    requires n <= k <= |sps| && Refuses(sps, c, n)
    ensures Refuses(sps, c, k)
  {
    if n < k {
      AllRefused(sps, c, n, k - 1);
    }
  }

  class DriftChambers {
    const hmsStyle: bool
    const singleStub: bool
    const criteria: Criteria

    var sps: seq<Stub>
    var tracks: seq<Track>

    constructor (hmsStyle: bool, singleStub: bool, criteria: Criteria)
      ensures this.hmsStyle == hmsStyle && this.singleStub == singleStub && this.criteria == criteria
      ensures sps == [] && tracks == []
    {
      this.hmsStyle, this.singleStub, this.criteria := hmsStyle, singleStub, criteria;
      sps, tracks := [], [];
    }

    /** The space points of one chamber added to the list, with the limits on their number. */
    method CollectChamber(ich: nat, chamber: seq<Stub>)
      requires ich == 0 ==> sps == []
      modifies this`sps
      ensures sps == old(sps) + Numbered(chamber[..Taken(ich, old(|sps|), |chamber|)], ich + 1)
    {
      ghost var before, have := sps, |sps|;
      var isp := 0;
      while isp < |chamber|
        invariant 0 <= isp <= |chamber| && |sps| == have + isp
        invariant sps == before + Numbered(chamber[..isp], ich + 1)
        invariant isp == |chamber| || isp < Taken(ich, have, |chamber|)
        invariant isp <= Taken(ich, have, |chamber|)
      {
        sps := sps + [chamber[isp].(chamber := ich + 1)];
        isp := isp + 1;
        if ich == 0 && |sps| > 50 {
          break;
        }
        if |sps| > 100 {
          break;
        }
      }
    }

    /** The space points of all chambers in one list. */
    method Collect(chambers: seq<seq<Stub>>)
      modifies this`sps
      ensures sps == Gathered(chambers, |chambers|)
    {
      sps := [];
      for ich := 0 to |chambers|
        invariant sps == Gathered(chambers, ich)
      {
        CollectChamber(ich, chambers[ich]);
      }
    }

    /** Whether the space point is in a track already. */
    method IsUsed(isp1: nat) returns (used: bool)
      ensures used <==> Used(tracks, isp1)
    {
      used := false;
      for itrack := 0 to |tracks|
        invariant used <==> exists k :: 0 <= k < itrack && isp1 in tracks[k]
      {
        for isp := 0 to |tracks[itrack]|
          invariant used <==> ((exists k :: 0 <= k < itrack && isp1 in tracks[k]) || isp1 in tracks[itrack][..isp])
        {
          if tracks[itrack][isp] == isp1 {
            used := true;
          }
        }
        assert tracks[itrack][..|tracks[itrack]|] == tracks[itrack];
      }
    }

    /** The track's point in the chamber of isp2, and whether it holds isp2 itself. */
    method Scan(t: Track, isp2: nat) returns (spoint: int, duppoint: bool)
      requires InList(sps, t) && isp2 < |sps|
      ensures spoint == SlotOf(sps, t, sps[isp2].chamber, |t|) && (duppoint <==> isp2 in t)
    {
      spoint, duppoint := -1, false;
      for isp := 0 to |t|
        invariant spoint == SlotOf(sps, t, sps[isp2].chamber, isp) && (duppoint <==> isp2 in t[..isp])
      {
        if sps[isp2].chamber == sps[t[isp]].chamber {
          spoint := isp;
        }
        if isp2 == t[isp] {
          duppoint := true;
        }
      }
      assert t[..|t|] == t;
    }

    /** A new track with the same points, except isp2 in the place spoint. */
    method CopyTrack(t: Track, spoint: nat, isp2: nat) returns (copy: Track)
      requires spoint < |t| <= MOST_POINTS
      ensures copy == t[spoint := isp2]
    {
      copy := [];
      for isp := 0 to |t|
        invariant copy == t[spoint := isp2][..isp]
      {
        copy := AddPoint(copy, if isp != spoint then t[isp] else isp2);
      }
    }

    /** Space point isp2 against one track of the seed. */
    method VisitTrack(track: nat, isp2: nat) returns (cloned: bool, refused: bool)
      requires track < |tracks| && InList(sps, tracks[track]) && isp2 < |sps| && |tracks[track]| <= MOST_POINTS
      modifies this`tracks
      ensures var t := old(tracks)[track];
              && (cloned <==> Blocked(sps, t, isp2) && old(|tracks|) < MAXTRACKS)
              && (refused <==> Blocked(sps, t, isp2) && old(|tracks|) >= MAXTRACKS)
              && tracks == AfterVisit(sps, old(tracks), track, isp2)
    {
      cloned, refused := false, false;
      var t := tracks[track];
      var spoint, duppoint := Scan(t, isp2);
      if !duppoint {
        if spoint < 0 {
          tracks := tracks[track := AddPoint(t, isp2)];
        } else if |tracks| < MAXTRACKS {
          cloned := true;
          var copy := CopyTrack(t, spoint, isp2);
          tracks := tracks + [copy];
        } else {
          refused := true;
        }
      }
    }

    /**
     Space point isp2 against all tracks of the seed.  The list of these grows while it is scanned;
     the scan ends because a clone holds isp2 itself and is left alone when its turn comes.
     */
    method VisitTracks(stubTracks: seq<nat>, isp2: nat, ghost base: seq<Track>, ghost ts: seq<Track>)
      returns (more: seq<nat>, refused: bool)
      requires tracks == base + ts && |tracks| <= MAXTRACKS && AllInList(sps, ts) && isp2 < |sps|
      requires Short(ts) && IndicesFrom(stubTracks, |base|) && |stubTracks| == |ts| > 0
      modifies this`tracks
      ensures refused <==> RefusedSoFar(sps, ts, isp2, |ts|, MAXTRACKS - |base|)
      ensures !(hmsStyle && refused) ==>
                && tracks == base + Visited(sps, ts, isp2, |ts|, MAXTRACKS - |base|)
                && IndicesFrom(more, |base|) && |base| + |more| == |tracks|
    {
      hide Scanned, Blocked, Extended, Clone, IndicesFrom, Visited, RefusedSoFar, AllInList, Short, InList;
      more, refused := stubTracks, false;
      ScanStarts(sps, base, ts, isp2, more);
      var itrack := 0;
      while itrack < |more|
        invariant 0 <= itrack <= |more| && |tracks| <= MAXTRACKS
        invariant Scanned(sps, base, ts, isp2, itrack, tracks, more, refused)
        invariant hmsStyle ==> !refused
        decreases MAXTRACKS - |tracks|, |more| - itrack
      {
        ghost var before, list, was := tracks, more, refused;
        ScanAt(sps, base, ts, isp2, itrack, tracks, more, refused);
        var cloned, full := VisitTrack(more[itrack], isp2);
        if cloned {
          more := more + [|tracks| - 1];
        }
        refused := refused || full;
        ScanNext(sps, base, ts, isp2, itrack, before, list, was, tracks, more, refused);
        itrack := itrack + 1;
        if full && hmsStyle {
          ScanRefused(sps, base, ts, isp2, itrack, tracks, more);
          return;
        }
      }
      ScanEnds(sps, base, ts, isp2, itrack, tracks, more, refused);
    }

    /** Space point isp2, which agrees with the seed. */
    method AddPartner(stubTracks: seq<nat>, isp1: nat, isp2: nat, ghost base: seq<Track>)
      returns (more: seq<nat>, refused: bool)
      requires isp1 < isp2 < |sps| && SeedState(sps, criteria, isp1, isp2, base, tracks, stubTracks)
      requires Linkable(sps, criteria, isp1, isp2)
      modifies this`tracks
      ensures refused <==> |Next(sps, SeedTracks(sps, criteria, isp1, isp2, MAXTRACKS - |base|), isp1, isp2)|
                           > MAXTRACKS - |base|
      ensures !(hmsStyle && refused) ==> SeedState(sps, criteria, isp1, isp2 + 1, base, tracks, more)
    {
      hide SeedTracks, Linkable, Visited, RefusedSoFar, Next, Cut, Short, Sound, AllInList;
      ghost var room := MAXTRACKS - |base|;
      ghost var ts := SeedTracks(sps, criteria, isp1, isp2, room);
      SeedTracksSound(sps, criteria, isp1, isp2, room);
      SoundIsShort(sps, criteria, ts, isp1);
      SeedStep(sps, criteria, isp1, isp2, room);
      LinkedIs(sps, ts, isp1, isp2, room);
      more, refused := stubTracks, false;
      if |stubTracks| == 0 {
        FirstPartner(sps, ts, isp1, isp2, room);
        if |tracks| < MAXTRACKS {
          more := [|tracks|];
          tracks := tracks + [[isp1, isp2]];
        } else {
          refused := true;
        }
      } else {
        more, refused := VisitTracks(stubTracks, isp2, base, ts);
        AllVisited(sps, ts, isp1, isp2, room);
      }
    }

    /** All later space points against one seed. */
    method LinkSeed(isp1: nat) returns (refused: bool)
      requires isp1 < |sps| && |tracks| <= MAXTRACKS
      modifies this`tracks
      ensures refused <==> SeedRefuses(sps, criteria, isp1, |sps|, MAXTRACKS - old(|tracks|))
      ensures !(hmsStyle && refused) ==>
                tracks == old(tracks) + SeedTracks(sps, criteria, isp1, |sps|, MAXTRACKS - old(|tracks|))
    {
      hide SeedState, Linkable, SeedTracks, SeedRefuses, Next, AllInList;
      ghost var base, room := tracks, MAXTRACKS - |tracks|;
      var stubTracks: seq<nat> := [];
      refused := false;
      SeedStarts(sps, criteria, isp1, base);
      for isp2 := isp1 + 1 to |sps|
        invariant SeedState(sps, criteria, isp1, isp2, base, tracks, stubTracks)
        invariant refused <==> SeedRefuses(sps, criteria, isp1, isp2, room)
        invariant hmsStyle ==> !refused
      {
        SeedStep(sps, criteria, isp1, isp2, room);
        SkipPartner(sps, criteria, isp1, isp2, base, tracks, stubTracks);
        if Linkable(sps, criteria, isp1, isp2) {
          var full;
          stubTracks, full := AddPartner(stubTracks, isp1, isp2, base);
          refused := refused || full;
          if full && hmsStyle {
            RefusedForGood(sps, criteria, isp1, isp2 + 1, |sps|, room);
            return;
          }
        }
      }
      SeedDone(sps, criteria, isp1, base, tracks, stubTracks);
    }

    /** One seed, unless it is in a track already; fails when the old style of chamber is short of room. */
    method TrySeed(isp1: nat) returns (failed: bool)
      requires isp1 < |sps| && tracks == Tracks(sps, criteria, isp1)
      requires hmsStyle ==> !Refuses(sps, criteria, isp1)
      modifies this`tracks
      ensures failed <==> hmsStyle && Refuses(sps, criteria, isp1 + 1)
      ensures !failed ==> tracks == Tracks(sps, criteria, isp1 + 1)
    {
      hide Tracks, Refuses, SeedTracks, SeedRefuses, Used;
      TracksStep(sps, criteria, isp1);
      failed := false;
      var used := IsUsed(isp1);
      if !used {
        var full := LinkSeed(isp1);
        failed := full && hmsStyle;
      }
    }

    /** All seeds in turn; when one fails there are no tracks at all. */
    method LinkAll()
      requires tracks == [] && |sps| > 0
      modifies this`tracks
      ensures tracks == if hmsStyle && Refuses(sps, criteria, |sps| - 1) then [] else Tracks(sps, criteria, |sps| - 1)
    {
      hide Tracks, Refuses;
      NoTracksYet(sps, criteria);
      for isp1 := 0 to |sps| - 1
        invariant tracks == Tracks(sps, criteria, isp1)
        invariant hmsStyle ==> !Refuses(sps, criteria, isp1)
      {
        var failed := TrySeed(isp1);
        if failed {
          tracks := [];
          AllRefused(sps, criteria, isp1 + 1, |sps| - 1);
          return;
        }
      }
    }

    /** A track of every single stub, or none at all when there is no room for the next space point. */
    method TrackSingles()
      requires tracks == [] && |sps| > 0
      modifies this`tracks
      ensures tracks == if |Singles(sps, |sps| - 1)| >= MAXTRACKS then [] else Singles(sps, |sps|)
    {
      for isp := 0 to |sps|
        invariant tracks == Singles(sps, isp) && (isp > 0 ==> |Singles(sps, isp - 1)| < MAXTRACKS)
      {
        if |tracks| < MAXTRACKS {
          if sps[isp].isSet {
            tracks := tracks + [[isp]];
          }
        } else {
          tracks := [];
          SinglesGrow(sps, isp, |sps| - 1);
          return;
        }
      }
    }

    /** The tracks of one event. */
    method Link(chambers: seq<seq<Stub>>)
      modifies this`sps, this`tracks
      ensures sps == Gathered(chambers, |chambers|)
      ensures sps == [] ==> tracks == []
      ensures sps != [] && singleStub ==>
                tracks == if |Singles(sps, |sps| - 1)| >= MAXTRACKS then [] else Singles(sps, |sps|)
      ensures sps != [] && !singleStub ==>
                tracks == if hmsStyle && Refuses(sps, criteria, |sps| - 1) then [] else Tracks(sps, criteria, |sps| - 1)
      ensures !singleStub ==> forall t <- tracks :: NearSeed(sps, criteria, t)
      ensures !singleStub && |chambers| == 2 && sps != [] && !Refuses(sps, criteria, |sps| - 1) ==>
                forall i: nat, j: nat :: MayLink(sps, criteria, i, j) ==> [i, j] in tracks
      ensures singleStub ==> forall t <- tracks :: |t| == 1 && t[0] < |sps| && sps[t[0]].isSet
      ensures !singleStub && sps != [] && |chambers| <= MOST_POINTS && tracks != [] ==>
                TrackCombinations.MadeOfCombinations(sps, criteria, tracks, |sps| - 1)
    {
      hide Tracks, Refuses, Gathered, NearSeed, MayLink, Singles;
      hide TrackCombinations.FewChambers, TrackCombinations.MadeOfCombinations;
      tracks := [];
      Collect(chambers);
      if |sps| > 0 {
        if !singleStub {
          LinkAll();
          TracksNear(sps, criteria, |sps| - 1);
          if |chambers| <= MOST_POINTS {
            FewGathered(chambers, |chambers|);
            TrackCombinations.ListCombines(sps, criteria, |sps| - 1);
          }
          if |chambers| == 2 && !Refuses(sps, criteria, |sps| - 1) {
            NearAreLinked(chambers, criteria);
          }
        } else {
          TrackSingles();
          SinglesAre(sps, |sps|);
        }
      }
    }
  }

  // ---- what the tracks mean -------------------------------------------------------------------------------

  /** Two stubs differ in each coordinate by less than its criterion; y is compared at the chambers if that is on. */
  predicate Near(s: Stub, t: Stub, c: Criteria) {
    && -c.x < s.x - t.x < c.x && -c.xp < s.xp - t.xp < c.xp && -c.yp < s.yp - t.yp < c.yp
    && if c.project
       then -c.y < (s.y + c.zpos(s.chamber) * s.yp) - (t.y + c.zpos(t.chamber) * t.yp) < c.y
       else -c.y < s.y - t.y < c.y
  }

  /** A later stub that is near a seed in another chamber. */
  predicate MayLink(sps: seq<Stub>, c: Criteria, i: int, j: int) {
    && 0 <= i < j < |sps| && sps[i].chamber != sps[j].chamber && sps[i].isSet && sps[j].isSet
    && Near(sps[i], sps[j], c)
  }

  /** The track is a seed and points near it, all of different chambers. */
  predicate NearSeed(sps: seq<Stub>, c: Criteria, t: Track) {
    && 2 <= |t| <= MOST_POINTS
    && (forall k :: 1 <= k < |t| ==> MayLink(sps, c, t[0], t[k]))
    && forall k, l :: 0 <= k < l < |t| ==> t[k] < |sps| && t[l] < |sps| && sps[t[k]].chamber != sps[t[l]].chamber
  }

  lemma LinkableIff(sps: seq<Stub>, c: Criteria, i: nat, j: nat)
    ensures Linkable(sps, c, i, j) <==> MayLink(sps, c, i, j)
  {
  }

  lemma SoundIsNear(sps: seq<Stub>, c: Criteria, t: Track)
    requires Sound(sps, c, t)
    ensures NearSeed(sps, c, t)
  {
    hide Agree, Near;
    forall k | 1 <= k < |t| ensures MayLink(sps, c, t[0], t[k]) {
      LinkableIff(sps, c, t[0], t[k]);
    }
  }

  /** Every track that is made is a seed with points near it. */
  lemma TracksNear(sps: seq<Stub>, c: Criteria, n: nat)
    requires n <= |sps|
    ensures forall t <- Tracks(sps, c, n) :: NearSeed(sps, c, t)
  {
    hide Tracks, Sound, NearSeed;
    TracksSound(sps, c, n);
    var ts := Tracks(sps, c, n);
    forall t | t in ts ensures NearSeed(sps, c, t) {
      var k :| 0 <= k < |ts| && ts[k] == t;
      assert SoundBefore(sps, c, ts[k], n);
      SoundIsNear(sps, c, t);
    }
  }

  /** With two chambers, and room for all, every two stubs that are near are a track. */
  lemma NearAreLinked(chambers: seq<seq<Stub>>, c: Criteria)
    requires |chambers| == 2 && Gathered(chambers, 2) != []
    requires !Refuses(Gathered(chambers, 2), c, |Gathered(chambers, 2)| - 1)
    ensures var sps := Gathered(chambers, 2);
            forall i: nat, j: nat :: MayLink(sps, c, i, j) ==> [i, j] in Tracks(sps, c, |sps| - 1)
  {
    hide Tracks, Linkable, MayLink, Refuses, Gathered, Wanted, AllDifferent, AtMostTwoPartners;
    var sps := Gathered(chambers, 2);
    TwoChamberTracks(chambers, c);
    forall i: nat, j: nat | MayLink(sps, c, i, j) ensures [i, j] in Tracks(sps, c, |sps| - 1) {
      LinkableIff(sps, c, i, j);
    }
  }

  /** The tracks of single stubs are the stubs that were fitted, each alone. */
  lemma {:induction false} SinglesAre(sps: seq<Stub>, n: nat)
    requires n <= |sps|
    ensures forall t :: t in Singles(sps, n) <==> |t| == 1 && t[0] < n && sps[t[0]].isSet
  {
    if n > 0 {
      SinglesAre(sps, n - 1);
      forall t: Track ensures t in Singles(sps, n) <==> |t| == 1 && t[0] < n && sps[t[0]].isSet {
        assert |t| == 1 ==> t == [t[0]];
      }
    }
  }

  /** The tracks of the single stubs before point n. */
  function Singles(sps: seq<Stub>, n: nat): seq<Track>
    requires n <= |sps|
  {
    if n == 0 then [] else Singles(sps, n - 1) + if sps[n - 1].isSet then [[n - 1]] else []
  }

  lemma {:induction false} SinglesGrow(sps: seq<Stub>, n: nat, k: nat)
    requires n <= k <= |sps|
    ensures |Singles(sps, n)| <= |Singles(sps, k)|
  {
    if n < k {
      SinglesGrow(sps, n, k - 1);
    }
  }

  /** Points of two chambers, as they are gathered. */
  lemma TwoGathered(chambers: seq<seq<Stub>>)
    requires |chambers| == 2
    ensures TwoChambers(Gathered(chambers, 2), Taken(0, 0, |chambers[0]|))
  {
    hide TwoChambers;
    var first := Taken(0, 0, |chambers[0]|);
    assert Gathered(chambers, 0) == [];
    var a := Numbered(chambers[0][..first], 1);
    assert Gathered(chambers, 1) == a;
    var b := Numbered(chambers[1][..Taken(1, |a|, |chambers[1]|)], 2);
    assert Gathered(chambers, 2) == a + b;
    hide Gathered, Taken;
    TwoParts(a, b);
  }

  lemma TwoParts(a: seq<Stub>, b: seq<Stub>)
    requires forall k :: 0 <= k < |a| ==> a[k].chamber == 1
    requires forall k :: 0 <= k < |b| ==> b[k].chamber == 2
    ensures TwoChambers(a + b, |a|)
  {
    assert forall k :: 0 <= k < |a + b| ==> (a + b)[k].chamber == if k < |a| then 1 else 2;
  }

  /** Which points of two chambers are in the list: the first 51 at most of one, and up to 101 in all. */
  lemma TwoChambersListed(chambers: seq<seq<Stub>>)
    requires |chambers| == 2
    ensures var sps, a := Gathered(chambers, 2), if |chambers[0]| > 51 then 51 else |chambers[0]|;
            && |sps| == (if a + |chambers[1]| > 101 then 101 else a + |chambers[1]|)
            && (forall k :: 0 <= k < a ==> sps[k] == chambers[0][k].(chamber := 1))
            && forall k :: a <= k < |sps| ==> sps[k] == chambers[1][k - a].(chamber := 2)
  {
    var first := chambers[0][..Taken(0, 0, |chambers[0]|)];
    assert Gathered(chambers, 0) == [];
    var a := Numbered(first, 1);
    assert Gathered(chambers, 1) == a;
    var second := chambers[1][..Taken(1, |a|, |chambers[1]|)];
    assert Gathered(chambers, 2) == a + Numbered(second, 2);
    hide Gathered;
  }

  /** With more chambers, each later one has one point more at most than there is room for. */
  lemma {:induction false} ListLimited(chambers: seq<seq<Stub>>, n: nat)
    requires 0 < n <= |chambers|
    ensures |Gathered(chambers, n)| <= 100 + n - (if n == 1 then 50 else 1)
    ensures forall i :: 0 <= i < n && chambers[i] != [] ==> Represented(Gathered(chambers, n), i + 1)
  {
    hide Represented;
    if n == 1 {
      FirstListed(chambers);
    } else {
      ListLimited(chambers, n - 1);
      NextListed(chambers, n);
    }
  }

  lemma {:induction false} FewGathered(chambers: seq<seq<Stub>>, n: nat)
    requires n <= |chambers| && n <= MOST_POINTS
    ensures TrackCombinations.FewChambers(Gathered(chambers, n))
  {
    hide Taken;
    if n > 0 {
      FewGathered(chambers, n - 1);
    }
  }

  ghost predicate Represented(sps: seq<Stub>, number: int) {
    exists k :: 0 <= k < |sps| && sps[k].chamber == number
  }

  lemma FirstListed(chambers: seq<seq<Stub>>)
    requires |chambers| > 0
    ensures |Gathered(chambers, 1)| <= 51 && (chambers[0] != [] ==> Represented(Gathered(chambers, 1), 1))
  {
    assert Gathered(chambers, 0) == [];
    var sps := Gathered(chambers, 1);
    if chambers[0] != [] {
      assert sps[0].chamber == 1;
    }
  }

  lemma NextListed(chambers: seq<seq<Stub>>, n: nat)
    requires 1 < n <= |chambers| && |Gathered(chambers, n - 1)| <= 100 + n - 2
    ensures |Gathered(chambers, n)| <= 100 + n - 1
    ensures chambers[n - 1] != [] ==> Represented(Gathered(chambers, n), n)
    ensures forall i :: Represented(Gathered(chambers, n - 1), i) ==> Represented(Gathered(chambers, n), i)
  {
    var before, more := Gathered(chambers, n - 1), chambers[n - 1];
    var added := Numbered(more[..Taken(n - 1, |before|, |more|)], n);
    assert Gathered(chambers, n) == before + added;
    hide Gathered, Taken;
    forall i | Represented(before, i) ensures Represented(before + added, i) {
      var k :| 0 <= k < |before| && before[k].chamber == i;
      assert (before + added)[k].chamber == i;
    }
    if more != [] {
      assert (before + added)[|before|].chamber == n;
    }
  }

  /**
   The tracks of an event with two chambers.  When no seed is refused, stubs are linked exactly when
   they agree, and all tracks differ exactly when no stub agrees with more than two others that
   follow it.
   */
  lemma TwoChamberTracks(chambers: seq<seq<Stub>>, c: Criteria)
    requires |chambers| == 2 && Gathered(chambers, 2) != []
    ensures var sps := Gathered(chambers, 2);
            var n, ts := |sps| - 1, Tracks(sps, c, |sps| - 1);
            && (Refuses(sps, c, n) <==> |Wanted(sps, c, n)| > MAXTRACKS)
            && (!Refuses(sps, c, n) ==>
                  && (forall i: nat, j: nat :: Linkable(sps, c, i, j) <==> [i, j] in ts)
                  && (forall t <- ts :: |t| == 2)
                  && (AllDifferent(ts) <==> AtMostTwoPartners(sps, c, n)))
  {
    hide Gathered, Tracks, Wanted, Linkable, Refuses, AllDifferent, AtMostTwoPartners, TwoChambers, Taken;
    var sps, m := Gathered(chambers, 2), Taken(0, 0, |chambers[0]|);
    TwoGathered(chambers);
    TracksAreWanted(sps, c, m, |sps| - 1);
    WantedDiffer(sps, c, |sps| - 1);
    if !Refuses(sps, c, |sps| - 1) {
      EveryPairLinked(sps, c, m);
    }
  }

  /** The seed's tracks at the end of the list, before point n. */
  predicate SeedState(sps: seq<Stub>, c: Criteria, seed: nat, n: nat, base: seq<Track>, tracks: seq<Track>,
                      stubTracks: seq<nat>)
  {
    && seed < n <= |sps| && |base| <= MAXTRACKS
    && tracks == base + SeedTracks(sps, c, seed, n, MAXTRACKS - |base|)
    && IndicesFrom(stubTracks, |base|) && |base| + |stubTracks| == |tracks|
  }

  lemma SeedStarts(sps: seq<Stub>, c: Criteria, seed: nat, base: seq<Track>)
    requires seed < |sps| && |base| <= MAXTRACKS
    ensures SeedState(sps, c, seed, seed + 1, base, base, [])
    ensures !SeedRefuses(sps, c, seed, seed + 1, MAXTRACKS - |base|)
  {
  }

  lemma SeedDone(sps: seq<Stub>, c: Criteria, seed: nat, base: seq<Track>, tracks: seq<Track>, stubTracks: seq<nat>)
    requires SeedState(sps, c, seed, |sps|, base, tracks, stubTracks)
    ensures seed < |sps| && |base| <= MAXTRACKS
    ensures tracks == base + SeedTracks(sps, c, seed, |sps|, MAXTRACKS - |base|)
  {
  }

  lemma SkipPartner(sps: seq<Stub>, c: Criteria, seed: nat, n: nat, base: seq<Track>, tracks: seq<Track>,
                    stubTracks: seq<nat>)
    requires n < |sps| && SeedState(sps, c, seed, n, base, tracks, stubTracks)
    ensures !Linkable(sps, c, seed, n) ==> SeedState(sps, c, seed, n + 1, base, tracks, stubTracks)
  {
    SeedStep(sps, c, seed, n, MAXTRACKS - |base|);
    hide SeedTracks, Linkable;
  }

  lemma SoundIsShort(sps: seq<Stub>, c: Criteria, ts: seq<Track>, seed: nat)
    requires AllOfSeed(sps, c, ts, seed)
    ensures Short(ts)
  {
    hide Linkable;
  }

  lemma FirstPartner(sps: seq<Stub>, ts: seq<Track>, seed: nat, p: nat, room: int)
    requires ts == [] && seed < |sps| && p < |sps| && room >= 0
    ensures |Next(sps, ts, seed, p)| == 1
    ensures Cut(Next(sps, ts, seed, p), room) == if room > 0 then [[seed, p]] else []
  {
  }

  /** The state of the scan before track number itrack of the seed. */
  predicate Scanned(sps: seq<Stub>, base: seq<Track>, ts: seq<Track>, p: nat, itrack: nat,
                    tracks: seq<Track>, more: seq<nat>, refused: bool)
    requires AllInList(sps, ts) && p < |sps|
  {
    var room := MAXTRACKS - |base|;
    && |ts| <= room && |ts| <= |more| && |base| + |more| == |tracks| <= MAXTRACKS
    && IndicesFrom(more, |base|) && itrack <= |more|
    && tracks == base + Visited(sps, ts, p, Min(itrack, |ts|), room)
    && (refused <==> RefusedSoFar(sps, ts, p, Min(itrack, |ts|), room))
  }

  predicate Short(ts: seq<Track>) {
    forall k :: 0 <= k < |ts| ==> |ts[k]| <= MOST_POINTS
  }

  lemma ScanStarts(sps: seq<Stub>, base: seq<Track>, ts: seq<Track>, p: nat, more: seq<nat>)
    requires AllInList(sps, ts) && p < |sps| && |base + ts| <= MAXTRACKS
    requires IndicesFrom(more, |base|) && |more| == |ts|
    ensures Scanned(sps, base, ts, p, 0, base + ts, more, false)
  {
    NothingVisited(sps, ts, p, MAXTRACKS - |base|);
  }

  /** The tracks after a visit that cloned, or extended, the track at this place. */
  function AfterVisit(sps: seq<Stub>, tracks: seq<Track>, track: nat, p: nat): seq<Track>
    requires track < |tracks| && InList(sps, tracks[track]) && p < |sps|
  {
    var t := tracks[track];
    if Blocked(sps, t, p) && |tracks| < MAXTRACKS then tracks + [Clone(sps, t, p)]
    else tracks[track := Extended(sps, t, p)]
  }

  lemma ScanAt(sps: seq<Stub>, base: seq<Track>, ts: seq<Track>, p: nat, itrack: nat,
               tracks: seq<Track>, more: seq<nat>, refused: bool)
    requires AllInList(sps, ts) && p < |sps| && Short(ts)
    requires Scanned(sps, base, ts, p, itrack, tracks, more, refused) && itrack < |more|
    ensures more[itrack] == |base| + itrack < |tracks| && |base| + |more| == |tracks|
    ensures tracks[more[itrack]] == Visited(sps, ts, p, Min(itrack, |ts|), MAXTRACKS - |base|)[itrack]
    ensures var t := tracks[more[itrack]];
            && InList(sps, t) && |t| <= MOST_POINTS
            && (itrack >= |ts| ==> !Blocked(sps, t, p) && Extended(sps, t, p) == t)
  {
    hide Visited, RefusedSoFar, Blocked, Extended, AllInList, InList, Short, CloneAll;
    var room := MAXTRACKS - |base|;
    var now := Visited(sps, ts, p, Min(itrack, |ts|), room);
    ClonesHoldPoint(sps, ts, p);
    VisitedAt(sps, ts, p, itrack, room);
    assert tracks[more[itrack]] == now[itrack];
  }

  lemma ScanNext(sps: seq<Stub>, base: seq<Track>, ts: seq<Track>, p: nat, itrack: nat,
                 before: seq<Track>, list: seq<nat>, was: bool, tracks: seq<Track>, more: seq<nat>, refused: bool)
    requires AllInList(sps, ts) && p < |sps| && Short(ts)
    requires Scanned(sps, base, ts, p, itrack, before, list, was) && itrack < |list|
    requires list[itrack] < |before| && InList(sps, before[list[itrack]])
    requires tracks == AfterVisit(sps, before, list[itrack], p)
    requires var blocked := Blocked(sps, before[list[itrack]], p);
             && more == (if blocked && |before| < MAXTRACKS then list + [|tracks| - 1] else list)
             && (refused <==> was || (blocked && |before| >= MAXTRACKS))
    ensures Scanned(sps, base, ts, p, itrack + 1, tracks, more, refused)
  {
    hide Scanned, Visited, RefusedSoFar, Blocked, Clone, Extended, AllInList, Short, InList, IndicesFrom;
    var room := MAXTRACKS - |base|;
    ScanAt(sps, base, ts, p, itrack, before, list, was);
    ScanParts(sps, base, ts, p, itrack, before, list, was);
    var now := Visited(sps, ts, p, Min(itrack, |ts|), room);
    VisitMoves(sps, base, ts, p, itrack, room, now);
    OneMoreIndex(list, |base|);
    ScanParts(sps, base, ts, p, itrack + 1, tracks, more, refused);
  }

  lemma ScanParts(sps: seq<Stub>, base: seq<Track>, ts: seq<Track>, p: nat, itrack: nat,
                  tracks: seq<Track>, more: seq<nat>, refused: bool)
    requires AllInList(sps, ts) && p < |sps|
    ensures Scanned(sps, base, ts, p, itrack, tracks, more, refused)
            <==> (|ts| <= MAXTRACKS - |base| && |ts| <= |more| && |base| + |more| == |tracks| <= MAXTRACKS
                  && IndicesFrom(more, |base|) && itrack <= |more|
                  && tracks == base + Visited(sps, ts, p, Min(itrack, |ts|), MAXTRACKS - |base|)
                  && (refused <==> RefusedSoFar(sps, ts, p, Min(itrack, |ts|), MAXTRACKS - |base|)))
  {
  }

  lemma OneMoreIndex(indices: seq<nat>, first: nat)
    requires IndicesFrom(indices, first)
    ensures IndicesFrom(indices + [first + |indices|], first)
  {
  }

  /** The visit takes the list from one state of the scan to the next. */
  lemma VisitMoves(sps: seq<Stub>, base: seq<Track>, ts: seq<Track>, p: nat, n: nat, room: int, now: seq<Track>)
    requires AllInList(sps, ts) && p < |sps| && |ts| <= room == MAXTRACKS - |base|
    requires now == Visited(sps, ts, p, Min(n, |ts|), room) && n < |now|
    requires InList(sps, now[n]) && (n >= |ts| ==> !Blocked(sps, now[n], p) && Extended(sps, now[n], p) == now[n])
    ensures (base + now)[|base| + n] == now[n]
    ensures AfterVisit(sps, base + now, |base| + n, p) == base + Visited(sps, ts, p, Min(n + 1, |ts|), room)
    ensures RefusedSoFar(sps, ts, p, Min(n + 1, |ts|), room)
            <==> RefusedSoFar(sps, ts, p, Min(n, |ts|), room) || (Blocked(sps, now[n], p) && |base + now| >= MAXTRACKS)
  {
    hide Visited, RefusedSoFar, Blocked, Clone, Extended, AllInList, InList;
    Behind(base, now, n, Extended(sps, now[n], p));
    if n < |ts| {
      OneVisited(sps, ts, p, n, room);
    }
  }

  lemma Behind(base: seq<Track>, now: seq<Track>, n: nat, e: Track)
    requires n < |now|
    ensures (base + now)[|base| + n := e] == base + now[n := e] && (base + now)[|base| + n] == now[n]
    ensures now[n := now[n]] == now
  {
  }

  lemma ScanRefused(sps: seq<Stub>, base: seq<Track>, ts: seq<Track>, p: nat, itrack: nat,
                    tracks: seq<Track>, more: seq<nat>)
    requires AllInList(sps, ts) && p < |sps| && Scanned(sps, base, ts, p, itrack, tracks, more, true)
    ensures RefusedSoFar(sps, ts, p, |ts|, MAXTRACKS - |base|)
  {
    RefusedRest(sps, ts, p, Min(itrack, |ts|), MAXTRACKS - |base|);
  }

  lemma ScanEnds(sps: seq<Stub>, base: seq<Track>, ts: seq<Track>, p: nat, itrack: nat,
                 tracks: seq<Track>, more: seq<nat>, refused: bool)
    requires AllInList(sps, ts) && p < |sps|
    requires Scanned(sps, base, ts, p, itrack, tracks, more, refused) && itrack >= |more|
    ensures tracks == base + Visited(sps, ts, p, |ts|, MAXTRACKS - |base|)
    ensures refused <==> RefusedSoFar(sps, ts, p, |ts|, MAXTRACKS - |base|)
    ensures IndicesFrom(more, |base|) && |base| + |more| == |tracks|
  {
  }

  /** The tracks of a seed are together at the end of the list. */
  predicate IndicesFrom(indices: seq<nat>, first: nat) {
    forall k :: 0 <= k < |indices| ==> indices[k] == first + k
  }

  /** The track at place n: still the original one, or a clone that holds the point and stays. */
  lemma VisitedAt(sps: seq<Stub>, ts: seq<Track>, p: nat, n: nat, room: int)
    requires AllInList(sps, ts) && p < |sps| && |ts| <= room
    requires forall k :: 0 <= k < |CloneAll(sps, ts, p)| ==> p in CloneAll(sps, ts, p)[k]
    requires n < |Visited(sps, ts, p, Min(n, |ts|), room)|
    requires Short(ts)
    ensures var t := Visited(sps, ts, p, Min(n, |ts|), room)[n];
            InList(sps, t) && |t| <= MOST_POINTS
            && (n >= |ts| ==> !Blocked(sps, t, p) && Extended(sps, t, p) == t)
  {
    hide Blocked, ExtendAll, CloneAll;
    if n >= |ts| {
      assert ts[..|ts|] == ts;
      ClonesInList(sps, ts, p);
      ClonesShort(sps, ts, p);
      var clones := CloneAll(sps, ts, p);
      assert Visited(sps, ts, p, |ts|, room)[n] == clones[n - |ts|];
      HeldIsFree(sps, clones[n - |ts|], p);
    } else {
      assert Visited(sps, ts, p, n, room)[n] == ts[n];
    }
  }

  lemma HeldIsFree(sps: seq<Stub>, t: Track, p: nat)
    requires InList(sps, t) && p < |sps| && p in t
    ensures !Blocked(sps, t, p) && Extended(sps, t, p) == t
  {
  }

  lemma {:induction false} ClonesShort(sps: seq<Stub>, ts: seq<Track>, p: nat)
    requires AllInList(sps, ts) && p < |sps| && Short(ts)
    ensures forall k :: 0 <= k < |CloneAll(sps, ts, p)| ==> |CloneAll(sps, ts, p)[k]| <= MOST_POINTS
  {
    if ts != [] {
      ClonesShort(sps, ts[..|ts| - 1], p);
    }
  }

  /** Once a clone was refused it stays so. */
  lemma {:induction false} RefusedRest(sps: seq<Stub>, ts: seq<Track>, p: nat, n: nat, room: int)
    requires AllInList(sps, ts) && p < |sps| && |ts| <= room
    requires n <= |ts| && RefusedSoFar(sps, ts, p, n, room)
    ensures RefusedSoFar(sps, ts, p, |ts|, room)
    decreases |ts| - n
  {
    hide RefusedSoFar, Visited, Blocked, Clone, Extended, AllInList;
    if n < |ts| {
      OneVisited(sps, ts, p, n, room);
      RefusedRest(sps, ts, p, n + 1, room);
    }
  }
}
