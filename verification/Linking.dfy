/** Linking the stubs of several chambers to tracks: what the list of tracks becomes, step by step. */
module Linking {
  import opened Basics

  const MAXTRACKS := 100
  const MOST_POINTS := 10

  /** A space point with its stub, if that was fitted.  Space points are known by their place in the list. */
  datatype Stub = Stub(chamber: int, x: real, y: real, xp: real, yp: real, isSet: bool)

  /** The four criteria; `zpos` gives the position by which y is projected back, per chamber. */
  datatype Criteria = Criteria(x: real, y: real, xp: real, yp: real, project: bool, zpos: int -> real)

  /** The places of a track's space points in the list. */
  type Track = seq<nat>

  function ComparedY(s: Stub, c: Criteria): real {
    if c.project then s.y + c.zpos(s.chamber) * s.yp else s.y
  }

  /** The two stubs agree in all four coordinates. */
  predicate Agree(s: Stub, t: Stub, c: Criteria) {
    && Abs(s.x - t.x) < c.x
    && Abs(ComparedY(s, c) - ComparedY(t, c)) < c.y
    && Abs(s.xp - t.xp) < c.xp
    && Abs(s.yp - t.yp) < c.yp
  }

  predicate Linkable(sps: seq<Stub>, c: Criteria, seed: nat, p: nat) {
    && seed < p < |sps|
    && sps[seed].chamber != sps[p].chamber && sps[seed].isSet && sps[p].isSet
    && Agree(sps[seed], sps[p], c)
  }

  // ---- one track and one more space point -----------------------------------------------------------

  predicate InList(sps: seq<Stub>, t: Track) {
    forall k :: 0 <= k < |t| ==> t[k] < |sps|
  }

  /** The last of the first n points of the track that is in the chamber, or -1. */
  function SlotOf(sps: seq<Stub>, t: Track, chamber: int, n: nat): (slot: int)
    requires InList(sps, t) && n <= |t|
    ensures -1 <= slot < n
    ensures slot >= 0 ==> sps[t[slot]].chamber == chamber
    ensures forall k :: slot < k < n ==> sps[t[k]].chamber != chamber
  {
    if n == 0 then -1
    else if sps[t[n - 1]].chamber == chamber then n - 1
    else SlotOf(sps, t, chamber, n - 1)
  }

  function AddPoint(t: Track, p: nat): Track {
    if |t| < MOST_POINTS then t + [p] else t
  }

  /** The track has another point in p's chamber. */
  predicate Blocked(sps: seq<Stub>, t: Track, p: nat)
    requires InList(sps, t) && p < |sps|
  {
    p !in t && SlotOf(sps, t, sps[p].chamber, |t|) >= 0
  }

  /** The track itself after point p was considered. */
  function Extended(sps: seq<Stub>, t: Track, p: nat): Track
    requires InList(sps, t) && p < |sps|
  {
    if p in t || Blocked(sps, t, p) then t else AddPoint(t, p)
  }

  /** The copy with p in place of the point of the same chamber. */
  function Clone(sps: seq<Stub>, t: Track, p: nat): Track
    requires InList(sps, t) && p < |sps| && Blocked(sps, t, p)
  {
    t[SlotOf(sps, t, sps[p].chamber, |t|) := p]
  }

  // ---- all tracks of one seed -------------------------------------------------------------------------

  predicate AllInList(sps: seq<Stub>, ts: seq<Track>) {
    forall k :: 0 <= k < |ts| ==> InList(sps, ts[k])
  }

  function ExtendAll(sps: seq<Stub>, ts: seq<Track>, p: nat): (es: seq<Track>)
    requires AllInList(sps, ts) && p < |sps|
    ensures |es| == |ts| && forall k :: 0 <= k < |ts| ==> es[k] == Extended(sps, ts[k], p)
  {
    seq(|ts|, k requires 0 <= k < |ts| => Extended(sps, ts[k], p))
  }

  function CloneAll(sps: seq<Stub>, ts: seq<Track>, p: nat): (cs: seq<Track>)
    requires AllInList(sps, ts) && p < |sps|
    ensures |cs| <= |ts|
  {
    if ts == [] then []
    else
      var before, t := CloneAll(sps, ts[..|ts| - 1], p), ts[|ts| - 1];
      if Blocked(sps, t, p) then before + [Clone(sps, t, p)] else before
  }

  function Cut(ts: seq<Track>, room: int): (cut: seq<Track>)
    ensures room >= 0 ==> |cut| <= room
  {
    if |ts| <= room then ts else if room <= 0 then [] else ts[..room]
  }

  /** The seed's tracks after a linkable point: the first makes a track, others extend or clone. */
  function Next(sps: seq<Stub>, ts: seq<Track>, seed: nat, p: nat): seq<Track>
    requires AllInList(sps, ts) && seed < |sps| && p < |sps|
  {
    if ts == [] then [[seed, p]] else ExtendAll(sps, ts, p) + CloneAll(sps, ts, p)
  }

  lemma {:induction false} ClonesInList(sps: seq<Stub>, ts: seq<Track>, p: nat)
    requires AllInList(sps, ts) && p < |sps|
    ensures AllInList(sps, CloneAll(sps, ts, p))
  {
    if ts != [] {
      ClonesInList(sps, ts[..|ts| - 1], p);
    }
  }

  lemma NextInList(sps: seq<Stub>, ts: seq<Track>, seed: nat, p: nat)
    requires AllInList(sps, ts) && seed < |sps| && p < |sps|
    ensures AllInList(sps, Next(sps, ts, seed, p))
  {
    ClonesInList(sps, ts, p);
  }

  lemma CutInList(sps: seq<Stub>, ts: seq<Track>, room: int)
    requires AllInList(sps, ts)
    ensures AllInList(sps, Cut(ts, room))
  {
  }

  /** The tracks with one more point, when it can be linked. */
  function Linked(sps: seq<Stub>, ts: seq<Track>, seed: nat, p: nat, room: int): (linked: seq<Track>)
    requires AllInList(sps, ts) && seed < |sps| && p < |sps|
    ensures AllInList(sps, linked)
    ensures room >= 0 ==> |linked| <= room
  {
    NextInList(sps, ts, seed, p);
    CutInList(sps, Next(sps, ts, seed, p), room);
    Cut(Next(sps, ts, seed, p), room)
  }

  lemma LinkedIs(sps: seq<Stub>, ts: seq<Track>, seed: nat, p: nat, room: int)
    requires AllInList(sps, ts) && seed < |sps| && p < |sps|
    ensures Linked(sps, ts, seed, p, room) == Cut(Next(sps, ts, seed, p), room)
  {
    hide Cut, Next;
  }

  /** The tracks of a seed after the points before n, with room for so many. */
  function SeedTracks(sps: seq<Stub>, c: Criteria, seed: nat, n: nat, room: int): (ts: seq<Track>)
    requires seed < n <= |sps|
    ensures AllInList(sps, ts)
    ensures room >= 0 ==> |ts| <= room
  {
    if n == seed + 1 then []
    else
      var before := SeedTracks(sps, c, seed, n - 1, room);
      if Linkable(sps, c, seed, n - 1) then Linked(sps, before, seed, n - 1, room) else before
  }

  /** Some track of the seed was refused for want of room. */
  predicate SeedRefuses(sps: seq<Stub>, c: Criteria, seed: nat, n: nat, room: int)
    requires seed < n <= |sps|
  {
    n > seed + 1
    && (SeedRefuses(sps, c, seed, n - 1, room)
        || (Linkable(sps, c, seed, n - 1)
            && |Next(sps, SeedTracks(sps, c, seed, n - 1, room), seed, n - 1)| > room))
  }

  // ---- all seeds ----------------------------------------------------------------------------------------

  predicate Used(ts: seq<Track>, p: nat) {
    exists k :: 0 <= k < |ts| && p in ts[k]
  }

  /** The tracks after the seeds before n. */
  function Tracks(sps: seq<Stub>, c: Criteria, n: nat): (ts: seq<Track>)
    requires n <= |sps|
    ensures AllInList(sps, ts) && |ts| <= MAXTRACKS
  {
    if n == 0 then []
    else
      var before := Tracks(sps, c, n - 1);
      if Used(before, n - 1) then before
      else before + SeedTracks(sps, c, n - 1, |sps|, MAXTRACKS - |before|)
  }

  predicate Refuses(sps: seq<Stub>, c: Criteria, n: nat)
    requires n <= |sps|
  {
    n > 0
    && (Refuses(sps, c, n - 1)
        || (!Used(Tracks(sps, c, n - 1), n - 1)
            && SeedRefuses(sps, c, n - 1, |sps|, MAXTRACKS - |Tracks(sps, c, n - 1)|)))
  }

  // ---- every track is sound -------------------------------------------------------------------------------

  /** A seed and points of other chambers that each meet the criteria against it, one per chamber. */
  predicate Sound(sps: seq<Stub>, c: Criteria, t: Track) {
    && InList(sps, t) && 2 <= |t| <= MOST_POINTS
    && (forall k :: 1 <= k < |t| ==> Linkable(sps, c, t[0], t[k]))
    && forall k, l :: 0 <= k < l < |t| ==> sps[t[k]].chamber != sps[t[l]].chamber
  }

  predicate OfSeed(sps: seq<Stub>, c: Criteria, t: Track, seed: nat) {
    Sound(sps, c, t) && t[0] == seed
  }

  predicate AllOfSeed(sps: seq<Stub>, c: Criteria, ts: seq<Track>, seed: nat) {
    forall k :: 0 <= k < |ts| ==> OfSeed(sps, c, ts[k], seed)
  }

  lemma ExtendedSound(sps: seq<Stub>, c: Criteria, t: Track, seed: nat, p: nat)
    requires OfSeed(sps, c, t, seed) && Linkable(sps, c, seed, p)
    ensures OfSeed(sps, c, Extended(sps, t, p), seed)
  {
    hide Agree;
  }

  lemma CloneSound(sps: seq<Stub>, c: Criteria, t: Track, seed: nat, p: nat)
    requires OfSeed(sps, c, t, seed) && Linkable(sps, c, seed, p) && Blocked(sps, t, p)
    ensures OfSeed(sps, c, Clone(sps, t, p), seed) && p in Clone(sps, t, p)
  {
    hide Agree;
    var slot := SlotOf(sps, t, sps[p].chamber, |t|);
    assert Clone(sps, t, p)[slot] == p;
  }

  lemma {:induction false} ClonesSound(sps: seq<Stub>, c: Criteria, ts: seq<Track>, seed: nat, p: nat)
    requires AllInList(sps, ts) && AllOfSeed(sps, c, ts, seed) && Linkable(sps, c, seed, p)
    ensures AllOfSeed(sps, c, CloneAll(sps, ts, p), seed)
    ensures forall k :: 0 <= k < |CloneAll(sps, ts, p)| ==> p in CloneAll(sps, ts, p)[k]
  {
    assert p < |sps|;
    hide OfSeed, Linkable;
    if ts != [] {
      var t := ts[|ts| - 1];
      ClonesSound(sps, c, ts[..|ts| - 1], seed, p);
      if Blocked(sps, t, p) {
        CloneSound(sps, c, t, seed, p);
      }
    }
  }

  lemma PairSound(sps: seq<Stub>, c: Criteria, seed: nat, p: nat)
    requires Linkable(sps, c, seed, p)
    ensures AllOfSeed(sps, c, [[seed, p]], seed)
  {
    hide Agree;
  }

  lemma ExtendAllSound(sps: seq<Stub>, c: Criteria, ts: seq<Track>, seed: nat, p: nat)
    requires AllInList(sps, ts) && AllOfSeed(sps, c, ts, seed) && Linkable(sps, c, seed, p)
    ensures AllOfSeed(sps, c, ExtendAll(sps, ts, p), seed)
  {
    assert p < |sps|;
    hide OfSeed, Linkable, Extended;
    forall k | 0 <= k < |ts| ensures OfSeed(sps, c, Extended(sps, ts[k], p), seed) {
      ExtendedSound(sps, c, ts[k], seed, p);
    }
  }

  lemma TogetherSound(sps: seq<Stub>, c: Criteria, ts: seq<Track>, us: seq<Track>, seed: nat)
    requires AllOfSeed(sps, c, ts, seed) && AllOfSeed(sps, c, us, seed)
    ensures AllOfSeed(sps, c, ts + us, seed)
  {
    hide OfSeed;
  }

  lemma NextSound(sps: seq<Stub>, c: Criteria, ts: seq<Track>, seed: nat, p: nat)
    requires AllInList(sps, ts) && AllOfSeed(sps, c, ts, seed) && Linkable(sps, c, seed, p)
    ensures AllOfSeed(sps, c, Next(sps, ts, seed, p), seed)
  {
    assert seed < |sps| && p < |sps|;
    hide Linkable, AllOfSeed, AllInList, ExtendAll, CloneAll;
    if ts == [] {
      PairSound(sps, c, seed, p);
    } else {
      ExtendAllSound(sps, c, ts, seed, p);
      ClonesSound(sps, c, ts, seed, p);
      TogetherSound(sps, c, ExtendAll(sps, ts, p), CloneAll(sps, ts, p), seed);
    }
  }

  lemma CutSound(sps: seq<Stub>, c: Criteria, ts: seq<Track>, seed: nat, room: int)
    requires AllOfSeed(sps, c, ts, seed)
    ensures AllOfSeed(sps, c, Cut(ts, room), seed)
  {
    hide OfSeed;
  }

  lemma LinkedSound(sps: seq<Stub>, c: Criteria, ts: seq<Track>, seed: nat, p: nat, room: int)
    requires AllInList(sps, ts) && AllOfSeed(sps, c, ts, seed) && Linkable(sps, c, seed, p)
    ensures AllOfSeed(sps, c, Linked(sps, ts, seed, p, room), seed)
  {
    assert seed < |sps| && p < |sps|;
    NextSound(sps, c, ts, seed, p);
    LinkedIs(sps, ts, seed, p, room);
    CutSound(sps, c, Next(sps, ts, seed, p), seed, room);
    hide AllOfSeed, Linkable, Next, AllInList, Linked, Cut;
  }

  /** The seed's tracks, one point further. */
  lemma SeedStep(sps: seq<Stub>, c: Criteria, seed: nat, n: nat, room: int)
    requires seed < n < |sps| && room >= 0
    ensures var ts := SeedTracks(sps, c, seed, n, room);
            && AllInList(sps, ts) && |ts| <= room
            && SeedTracks(sps, c, seed, n + 1, room)
               == (if Linkable(sps, c, seed, n) then Linked(sps, ts, seed, n, room) else ts)
            && (SeedRefuses(sps, c, seed, n + 1, room)
                <==> SeedRefuses(sps, c, seed, n, room)
                     || (Linkable(sps, c, seed, n) && |Next(sps, ts, seed, n)| > room))
  {
    hide Linkable, Next, Linked, AllInList;
  }

  lemma SeedBegins(sps: seq<Stub>, c: Criteria, seed: nat, room: int)
    requires seed < |sps|
    ensures SeedTracks(sps, c, seed, seed + 1, room) == [] && !SeedRefuses(sps, c, seed, seed + 1, room)
  {
  }

  lemma NoneOfSeed(sps: seq<Stub>, c: Criteria, seed: nat)
    ensures AllOfSeed(sps, c, [], seed)
  {
  }

  lemma {:induction false} SeedTracksSound(sps: seq<Stub>, c: Criteria, seed: nat, n: nat, room: nat)
    requires seed < n <= |sps|
    ensures AllOfSeed(sps, c, SeedTracks(sps, c, seed, n, room), seed)
  {
    hide SeedTracks, SeedRefuses, Linkable, AllOfSeed, AllInList, Next, Linked;
    if n == seed + 1 {
      SeedBegins(sps, c, seed, room);
      NoneOfSeed(sps, c, seed);
    } else {
      SeedTracksSound(sps, c, seed, n - 1, room);
      SeedStep(sps, c, seed, n - 1, room);
      if Linkable(sps, c, seed, n - 1) {
        LinkedSound(sps, c, SeedTracks(sps, c, seed, n - 1, room), seed, n - 1, room);
      }
    }
  }

  predicate SoundBefore(sps: seq<Stub>, c: Criteria, t: Track, n: nat) {
    Sound(sps, c, t) && t[0] < n
  }

  predicate AllSound(sps: seq<Stub>, c: Criteria, ts: seq<Track>, n: nat) {
    forall k :: 0 <= k < |ts| ==> SoundBefore(sps, c, ts[k], n)
  }

  lemma SeedAdded(sps: seq<Stub>, c: Criteria, ts: seq<Track>, us: seq<Track>, n: nat)
    requires AllSound(sps, c, ts, n) && AllOfSeed(sps, c, us, n)
    ensures AllSound(sps, c, ts + us, n + 1) && AllSound(sps, c, ts, n + 1)
  {
    hide Sound;
    forall k | 0 <= k < |ts| ensures SoundBefore(sps, c, ts[k], n + 1) {
      assert SoundBefore(sps, c, ts[k], n);
    }
    forall k | 0 <= k < |us| ensures SoundBefore(sps, c, us[k], n + 1) {
      assert OfSeed(sps, c, us[k], n);
    }
    hide SoundBefore;
  }

  lemma TracksStep(sps: seq<Stub>, c: Criteria, n: nat)
    requires n < |sps|
    ensures var before := Tracks(sps, c, n);
            && |before| <= MAXTRACKS
            && Tracks(sps, c, n + 1)
               == (if Used(before, n) then before else before + SeedTracks(sps, c, n, |sps|, MAXTRACKS - |before|))
            && (Refuses(sps, c, n + 1)
                <==> Refuses(sps, c, n)
                     || (!Used(before, n) && SeedRefuses(sps, c, n, |sps|, MAXTRACKS - |before|)))
  {
    hide SeedTracks, SeedRefuses, Used;
  }

  lemma NoTracksYet(sps: seq<Stub>, c: Criteria)
    ensures Tracks(sps, c, 0) == [] && !Refuses(sps, c, 0)
  {
  }

  /** Every track holds its seed and at most one linkable point of each other chamber. */
  lemma {:induction false} TracksSound(sps: seq<Stub>, c: Criteria, n: nat)
    requires n <= |sps|
    ensures AllSound(sps, c, Tracks(sps, c, n), n)
  {
    hide Tracks, SeedTracks, AllSound, AllOfSeed, Used;
    if n == 0 {
      NoTracksYet(sps, c);
      NoneSound(sps, c);
    } else {
      TracksSound(sps, c, n - 1);
      TracksStep(sps, c, n - 1);
      var before := Tracks(sps, c, n - 1);
      var own := SeedTracks(sps, c, n - 1, |sps|, MAXTRACKS - |before|);
      SeedTracksSound(sps, c, n - 1, |sps|, MAXTRACKS - |before|);
      SeedAdded(sps, c, before, own, n - 1);
    }
  }

  lemma NoneSound(sps: seq<Stub>, c: Criteria)
    ensures AllSound(sps, c, [], 0)
  {
  }

  // ---- two chambers ---------------------------------------------------------------------------------------

  /** The points before m are in one chamber, the others in another. */
  predicate TwoChambers(sps: seq<Stub>, m: nat) {
    && m <= |sps|
    && (forall i, j :: 0 <= i < m && 0 <= j < m ==> sps[i].chamber == sps[j].chamber)
    && (forall i, j :: m <= i < |sps| && m <= j < |sps| ==> sps[i].chamber == sps[j].chamber)
    && forall i, j :: 0 <= i < m <= j < |sps| ==> sps[i].chamber != sps[j].chamber
  }

  /** The points before n that can be linked to the seed. */
  function Partners(sps: seq<Stub>, c: Criteria, seed: nat, n: nat): (ps: seq<nat>)
    requires seed < n <= |sps|
  {
    if n == seed + 1 then []
    else
      var before := Partners(sps, c, seed, n - 1);
      if Linkable(sps, c, seed, n - 1) then before + [n - 1] else before
  }

  lemma {:induction false} PartnersAre(sps: seq<Stub>, c: Criteria, seed: nat, n: nat)
    requires seed < n <= |sps|
    ensures forall p: nat :: p in Partners(sps, c, seed, n) <==> (Linkable(sps, c, seed, p) && p < n)
    ensures forall i, j :: 0 <= i < j < |Partners(sps, c, seed, n)| ==>
              Partners(sps, c, seed, n)[i] < Partners(sps, c, seed, n)[j]
  {
    hide Linkable;
    if n > seed + 1 {
      PartnersAre(sps, c, seed, n - 1);
      var before := Partners(sps, c, seed, n - 1);
      forall i | 0 <= i < |before| ensures before[i] < n - 1 {
        assert before[i] in before;
      }
    } else {
      NoneBeforeSeed(sps, c, seed);
    }
  }

  lemma NoneBeforeSeed(sps: seq<Stub>, c: Criteria, seed: nat)
    ensures forall p: nat :: p < seed + 1 ==> !Linkable(sps, c, seed, p)
  {
  }

  function Repeat(t: Track, k: nat): (ts: seq<Track>)
    ensures |ts| == k && forall i :: 0 <= i < k ==> ts[i] == t
  {
    if k == 0 then [] else Repeat(t, k - 1) + [t]
  }

  /** Every partner after the first makes as many tracks as there are already. */
  function Doubled(seed: nat, ps: seq<nat>): seq<Track> {
    if ps == [] then []
    else
      var before, p := Doubled(seed, ps[..|ps| - 1]), ps[|ps| - 1];
      before + Repeat([seed, p], if |ps| == 1 then 1 else |before|)
  }

  lemma {:induction false} DoubledIs(seed: nat, ps: seq<nat>)
    ensures |Doubled(seed, ps)| == if ps == [] then 0 else Pow2(|ps| - 1)
    ensures forall p <- ps :: [seed, p] in Doubled(seed, ps)
    ensures forall t <- Doubled(seed, ps) :: |t| == 2 && t[0] == seed && t[1] in ps
  {
    if ps != [] {
      var front, p := ps[..|ps| - 1], ps[|ps| - 1];
      DoubledIs(seed, front);
      var copies := Repeat([seed, p], if |ps| == 1 then 1 else |Doubled(seed, front)|);
      assert ps == front + [p];
      assert copies[0] == [seed, p];
      forall t | t in copies ensures t == [seed, p] {
        var i :| 0 <= i < |copies| && copies[i] == t;
      }
    }
  }

  /** With two chambers every track of the seed is blocked for the next partner. */
  lemma AllBlocked(sps: seq<Stub>, c: Criteria, m: nat, seed: nat, ts: seq<Track>, p: nat)
    requires TwoChambers(sps, m) && Linkable(sps, c, seed, p)
    requires AllInList(sps, ts)
    requires forall k :: 0 <= k < |ts| ==> |ts[k]| == 2 && ts[k][0] == seed && seed < ts[k][1] < p && ts[k][1] >= m
    ensures ExtendAll(sps, ts, p) == ts && CloneAll(sps, ts, p) == Repeat([seed, p], |ts|)
  {
    hide Agree;
    assert seed < m <= p;
    forall k | 0 <= k < |ts| ensures Blocked(sps, ts[k], p) && Clone(sps, ts[k], p) == [seed, p] {
      assert ts[k] == [seed, ts[k][1]];
    }
    AllCloned(sps, ts, p, [seed, p]);
  }

  lemma {:induction false} AllCloned(sps: seq<Stub>, ts: seq<Track>, p: nat, t: Track)
    requires AllInList(sps, ts) && p < |sps|
    requires forall k :: 0 <= k < |ts| ==> Blocked(sps, ts[k], p) && Clone(sps, ts[k], p) == t
    ensures CloneAll(sps, ts, p) == Repeat(t, |ts|)
  {
    hide Blocked, Clone;
    if ts != [] {
      AllCloned(sps, ts[..|ts| - 1], p, t);
    }
  }

  /** The seed's tracks, as long as there was room, and when there was. */
  lemma {:induction false} SeedDoubles(sps: seq<Stub>, c: Criteria, m: nat, seed: nat, n: nat, room: nat)
    requires TwoChambers(sps, m) && seed < n <= |sps|
    ensures var all := Doubled(seed, Partners(sps, c, seed, n));
            && (SeedRefuses(sps, c, seed, n, room) <==> |all| > room)
            && (|all| <= room ==> SeedTracks(sps, c, seed, n, room) == all)
  {
    hide SeedTracks, SeedRefuses, Linkable, AllInList, Next, Linked, Cut, Doubled, TwoChambers;
    if n == seed + 1 {
      SeedBegins(sps, c, seed, room);
      NoneDoubled(seed);
    } else {
      var ps := Partners(sps, c, seed, n - 1);
      SeedDoubles(sps, c, m, seed, n - 1, room);
      SeedStep(sps, c, seed, n - 1, room);
      if Linkable(sps, c, seed, n - 1) {
        DoubledGrows(seed, ps, n - 1);
        if |Doubled(seed, ps)| <= room {
          NextDoubles(sps, c, m, seed, n - 1);
          LinkedIs(sps, Doubled(seed, ps), seed, n - 1, room);
          CutOrNot(Doubled(seed, ps + [n - 1]), room);
        }
      }
    }
  }

  lemma DoubledGrows(seed: nat, ps: seq<nat>, p: nat)
    ensures |Doubled(seed, ps + [p])| >= |Doubled(seed, ps)|
  {
    assert (ps + [p])[..|ps|] == ps;
  }

  lemma CutOrNot(ts: seq<Track>, room: int)
    ensures |ts| <= room ==> Cut(ts, room) == ts
  {
  }

  lemma NextDoubles(sps: seq<Stub>, c: Criteria, m: nat, seed: nat, p: nat)
    requires TwoChambers(sps, m) && Linkable(sps, c, seed, p)
    requires AllInList(sps, Doubled(seed, Partners(sps, c, seed, p)))
    ensures Next(sps, Doubled(seed, Partners(sps, c, seed, p)), seed, p) == Doubled(seed, Partners(sps, c, seed, p + 1))
  {
    var ps := Partners(sps, c, seed, p);
    var ts := Doubled(seed, ps);
    DoubledIs(seed, ps);
    PartnersAre(sps, c, seed, p);
    assert (ps + [p])[..|ps|] == ps && Partners(sps, c, seed, p + 1) == ps + [p];
    if ps == [] {
      assert Repeat([seed, p], 1) == [[seed, p]];
    } else {
      forall k | 0 <= k < |ts| ensures |ts[k]| == 2 && ts[k][0] == seed && seed < ts[k][1] < p && ts[k][1] >= m {
        assert ts[k] in ts;
        PartnerBeyond(sps, c, m, seed, ts[k][1]);
      }
      AllBlocked(sps, c, m, seed, ts, p);
    }
  }

  lemma PartnerBeyond(sps: seq<Stub>, c: Criteria, m: nat, seed: nat, p: nat)
    requires TwoChambers(sps, m) && Linkable(sps, c, seed, p)
    ensures seed < m <= p
  {
  }

  // ---- all seeds of two chambers ----------------------------------------------------------------------------

  /** All tracks the seeds before n ask for. */
  function Wanted(sps: seq<Stub>, c: Criteria, n: nat): seq<Track>
    requires n <= |sps|
  {
    if n == 0 then [] else Wanted(sps, c, n - 1) + Doubled(n - 1, Partners(sps, c, n - 1, |sps|))
  }

  predicate LinkedPair(sps: seq<Stub>, c: Criteria, t: Track, n: nat) {
    |t| == 2 && t[0] < n && Linkable(sps, c, t[0], t[1])
  }

  lemma DoubledIsLinked(sps: seq<Stub>, c: Criteria, seed: nat, k: nat)
    requires seed < |sps| && k < |Doubled(seed, Partners(sps, c, seed, |sps|))|
    ensures LinkedPair(sps, c, Doubled(seed, Partners(sps, c, seed, |sps|))[k], seed + 1)
  {
    var ps := Partners(sps, c, seed, |sps|);
    PartnersAre(sps, c, seed, |sps|);
    DoubledIs(seed, ps);
    hide Doubled, Partners, Linkable;
    assert Doubled(seed, ps)[k] in Doubled(seed, ps);
  }

  lemma {:induction false} WantedIsLinkable(sps: seq<Stub>, c: Criteria, n: nat, k: nat)
    requires n <= |sps| && k < |Wanted(sps, c, n)|
    ensures LinkedPair(sps, c, Wanted(sps, c, n)[k], n)
  {
    hide Doubled, Partners;
    var before := Wanted(sps, c, n - 1);
    if k < |before| {
      WantedIsLinkable(sps, c, n - 1, k);
    } else {
      DoubledIsLinked(sps, c, n - 1, k - |before|);
    }
    hide Linkable;
  }

  lemma {:induction false} LinkableAreWanted(sps: seq<Stub>, c: Criteria, n: nat, i: nat, j: nat)
    requires i < n <= |sps| && Linkable(sps, c, i, j)
    ensures [i, j] in Wanted(sps, c, n)
  {
    if i < n - 1 {
      LinkableAreWanted(sps, c, n - 1, i, j);
    } else {
      PartnersAre(sps, c, i, |sps|);
      DoubledIs(i, Partners(sps, c, i, |sps|));
    }
  }

  /** A seed that is in a track already wants no tracks of its own. */
  lemma UsedWantsNothing(sps: seq<Stub>, c: Criteria, m: nat, n: nat)
    requires TwoChambers(sps, m) && n < |sps| && Used(Wanted(sps, c, n), n)
    ensures Partners(sps, c, n, |sps|) == []
  {
    hide Wanted, Partners, Linkable, TwoChambers;
    var k :| 0 <= k < |Wanted(sps, c, n)| && n in Wanted(sps, c, n)[k];
    WantedIsLinkable(sps, c, n, k);
    SecondOfPair(sps, c, Wanted(sps, c, n)[k], n);
    PartnerBeyond(sps, c, m, Wanted(sps, c, n)[k][0], n);
    NoPartnersBeyond(sps, c, m, n);
  }

  lemma SecondOfPair(sps: seq<Stub>, c: Criteria, t: Track, n: nat)
    requires LinkedPair(sps, c, t, n) && n in t
    ensures t[1] == n
  {
  }

  lemma NoPartnersBeyond(sps: seq<Stub>, c: Criteria, m: nat, n: nat)
    requires TwoChambers(sps, m) && m <= n < |sps|
    ensures Partners(sps, c, n, |sps|) == []
  {
    PartnersAre(sps, c, n, |sps|);
    hide Partners, Linkable, TwoChambers;
    var ps := Partners(sps, c, n, |sps|);
    if ps != [] {
      assert ps[0] in ps;
      PartnerBeyond(sps, c, m, n, ps[0]);
      assert false;
    }
  }

  /** Tracks are refused exactly when more are wanted than there is room for; if not, all are made. */
  lemma {:induction false} TracksAreWanted(sps: seq<Stub>, c: Criteria, m: nat, n: nat)
    requires TwoChambers(sps, m) && n <= |sps|
    ensures Refuses(sps, c, n) <==> |Wanted(sps, c, n)| > MAXTRACKS
    ensures |Wanted(sps, c, n)| <= MAXTRACKS ==> Tracks(sps, c, n) == Wanted(sps, c, n)
  {
    hide Tracks, Refuses, SeedTracks, SeedRefuses, Used, Doubled, Partners, TwoChambers;
    if n == 0 {
      NoTracksYet(sps, c);
    } else {
      TracksAreWanted(sps, c, m, n - 1);
      TracksStep(sps, c, n - 1);
      var before := Tracks(sps, c, n - 1);
      if |Wanted(sps, c, n - 1)| <= MAXTRACKS {
        SeedDoubles(sps, c, m, n - 1, |sps|, MAXTRACKS - |before|);
        if Used(before, n - 1) {
          UsedWantsNothing(sps, c, m, n - 1);
          NoneDoubled(n - 1);
        }
      }
    }
  }

  lemma NoneDoubled(seed: nat)
    ensures Doubled(seed, []) == []
  {
  }

  /** With two chambers, and room for all, exactly the pairs of stubs that agree are linked. */
  lemma EveryPairLinked(sps: seq<Stub>, c: Criteria, m: nat)
    requires TwoChambers(sps, m) && |sps| > 0 && !Refuses(sps, c, |sps| - 1)
    ensures forall i: nat, j: nat :: Linkable(sps, c, i, j) <==> [i, j] in Tracks(sps, c, |sps| - 1)
    ensures forall t <- Tracks(sps, c, |sps| - 1) :: |t| == 2
  {
    TracksAreWanted(sps, c, m, |sps| - 1);
    var ts := Tracks(sps, c, |sps| - 1);
    forall t | t in ts ensures LinkedPair(sps, c, t, |sps| - 1) {
      var k :| 0 <= k < |ts| && ts[k] == t;
      WantedIsLinkable(sps, c, |sps| - 1, k);
    }
    forall i: nat, j: nat ensures Linkable(sps, c, i, j) <==> [i, j] in ts {
      if Linkable(sps, c, i, j) {
        LinkableAreWanted(sps, c, |sps| - 1, i, j);
      }
    }
  }

  // ---- identical tracks ---------------------------------------------------------------------------------------

  predicate AllDifferent(ts: seq<Track>) {
    forall i, j :: 0 <= i < j < |ts| ==> ts[i] != ts[j]
  }

  lemma DoubledDiffer(seed: nat, ps: seq<nat>)
    requires forall i, j :: 0 <= i < j < |ps| ==> ps[i] < ps[j]
    ensures AllDifferent(Doubled(seed, ps)) <==> |ps| <= 2
  {
    if |ps| == 1 {
      assert Doubled(seed, ps) == Repeat([seed, ps[0]], 1);
    } else if |ps| == 2 {
      assert Doubled(seed, ps[..1]) == Repeat([seed, ps[0]], 1);
      assert Doubled(seed, ps) == Repeat([seed, ps[0]], 1) + Repeat([seed, ps[1]], 1);
    } else if |ps| > 2 {
      var before, t := Doubled(seed, ps[..|ps| - 1]), [seed, ps[|ps| - 1]];
      DoubledIs(seed, ps[..|ps| - 1]);
      assert Doubled(seed, ps)[|before|] == t && Doubled(seed, ps)[|before| + 1] == t;
    }
  }

  predicate NoneCommon(ts: seq<Track>, us: seq<Track>) {
    forall i, j :: 0 <= i < |ts| && 0 <= j < |us| ==> ts[i] != us[j]
  }

  lemma JoinedDiffer(ts: seq<Track>, us: seq<Track>)
    requires NoneCommon(ts, us)
    ensures AllDifferent(ts + us) <==> AllDifferent(ts) && AllDifferent(us)
  {
    if AllDifferent(ts + us) {
      forall i, j | 0 <= i < j < |ts| ensures ts[i] != ts[j] {
        assert (ts + us)[i] != (ts + us)[j];
      }
      forall i, j | 0 <= i < j < |us| ensures us[i] != us[j] {
        assert (ts + us)[|ts| + i] != (ts + us)[|ts| + j];
      }
    }
  }

  predicate AtMostTwoPartners(sps: seq<Stub>, c: Criteria, n: nat)
    requires n <= |sps|
  {
    forall i :: 0 <= i < n ==> |Partners(sps, c, i, |sps|)| <= 2
  }

  /** All tracks differ exactly when no seed has more than two partners. */
  lemma {:induction false} WantedDiffer(sps: seq<Stub>, c: Criteria, n: nat)
    requires n <= |sps|
    ensures AllDifferent(Wanted(sps, c, n)) <==> AtMostTwoPartners(sps, c, n)
  {
    hide Wanted, Partners, Doubled, AllDifferent, NoneCommon;
    if n == 0 {
      NothingDiffers(sps, c);
    } else {
      WantedDiffer(sps, c, n - 1);
      WantedNext(sps, c, n - 1);
      PartnersAre(sps, c, n - 1, |sps|);
      DoubledDiffer(n - 1, Partners(sps, c, n - 1, |sps|));
      SeedsDiffer(sps, c, n - 1);
      JoinedDiffer(Wanted(sps, c, n - 1), Doubled(n - 1, Partners(sps, c, n - 1, |sps|)));
    }
  }

  lemma NothingDiffers(sps: seq<Stub>, c: Criteria)
    ensures AllDifferent(Wanted(sps, c, 0))
  {
  }

  lemma WantedNext(sps: seq<Stub>, c: Criteria, n: nat)
    requires n < |sps|
    ensures Wanted(sps, c, n + 1) == Wanted(sps, c, n) + Doubled(n, Partners(sps, c, n, |sps|))
  {
  }

  lemma SeedsDiffer(sps: seq<Stub>, c: Criteria, n: nat)
    requires n < |sps|
    ensures NoneCommon(Wanted(sps, c, n), Doubled(n, Partners(sps, c, n, |sps|)))
  {
    var ws, ds := Wanted(sps, c, n), Doubled(n, Partners(sps, c, n, |sps|));
    DoubledIs(n, Partners(sps, c, n, |sps|));
    hide Wanted, Doubled, Partners, Linkable;
    forall i, j | 0 <= i < |ws| && 0 <= j < |ds| ensures ws[i] != ds[j] {
      WantedIsLinkable(sps, c, n, i);
      assert ds[j] in ds;
    }
  }

  /** Four equal stubs, one in the first chamber and three in the second: the program makes a track twice. */
  lemma IdenticalTracks(c: Criteria)
    requires c.x > 0.0 && c.y > 0.0 && c.xp > 0.0 && c.yp > 0.0 && !c.project
    ensures var near, far := Stub(1, 0.0, 0.0, 0.0, 0.0, true), Stub(2, 0.0, 0.0, 0.0, 0.0, true);
            var ts := Tracks([near, far, far, far], c, 3);
            !AllDifferent(ts) && |ts| == 4
  {
    var near, far := Stub(1, 0.0, 0.0, 0.0, 0.0, true), Stub(2, 0.0, 0.0, 0.0, 0.0, true);
    var sps := [near, far, far, far];
    FourPartners(sps, c);
    WantedDiffer(sps, c, 3);
    TracksAreWanted(sps, c, 1, 3);
    hide Wanted, Partners, Tracks, Refuses, AllDifferent;
  }

  lemma FourPartners(sps: seq<Stub>, c: Criteria)
    requires c.x > 0.0 && c.y > 0.0 && c.xp > 0.0 && c.yp > 0.0 && !c.project
    requires sps == [Stub(1, 0.0, 0.0, 0.0, 0.0, true), Stub(2, 0.0, 0.0, 0.0, 0.0, true),
                     Stub(2, 0.0, 0.0, 0.0, 0.0, true), Stub(2, 0.0, 0.0, 0.0, 0.0, true)]
    ensures TwoChambers(sps, 1) && !AtMostTwoPartners(sps, c, 3) && |Wanted(sps, c, 3)| == 4
  {
    FourLinks(sps, c);
    hide Partners, Doubled, Linkable, Wanted, AtMostTwoPartners, TwoChambers;
    PartnersOfFirst(sps, c);
    TooManyPartners(sps, c, 3);
    NoPartners(sps, c, 1, 4);
    NoPartners(sps, c, 2, 4);
    FourWanted(sps, c);
  }

  lemma FourLinks(sps: seq<Stub>, c: Criteria)
    requires c.x > 0.0 && c.y > 0.0 && c.xp > 0.0 && c.yp > 0.0 && !c.project
    requires sps == [Stub(1, 0.0, 0.0, 0.0, 0.0, true), Stub(2, 0.0, 0.0, 0.0, 0.0, true),
                     Stub(2, 0.0, 0.0, 0.0, 0.0, true), Stub(2, 0.0, 0.0, 0.0, 0.0, true)]
    ensures TwoChambers(sps, 1)
    ensures forall p: nat :: 1 <= p < 4 ==> Linkable(sps, c, 0, p)
    ensures forall p: nat :: !Linkable(sps, c, 1, p) && !Linkable(sps, c, 2, p)
  {
  }

  lemma FourWanted(sps: seq<Stub>, c: Criteria)
    requires |sps| == 4 && Partners(sps, c, 0, 4) == [1, 2, 3]
    requires Partners(sps, c, 1, 4) == [] && Partners(sps, c, 2, 4) == []
    ensures |Wanted(sps, c, 3)| == 4
  {
    hide Partners, Doubled, Linkable;
    DoubledIs(0, [1, 2, 3]);
    NoneDoubled(1);
    NoneDoubled(2);
    WantedNext(sps, c, 0);
    WantedNext(sps, c, 1);
    WantedNext(sps, c, 2);
    assert Pow2(2) == 4;
  }

  lemma TooManyPartners(sps: seq<Stub>, c: Criteria, n: nat)
    requires 0 < n <= |sps| && |Partners(sps, c, 0, |sps|)| > 2
    ensures !AtMostTwoPartners(sps, c, n)
  {
    hide Partners;
  }

  lemma PartnersOfFirst(sps: seq<Stub>, c: Criteria)
    requires |sps| == 4 && forall p: nat :: 1 <= p < 4 ==> Linkable(sps, c, 0, p)
    ensures Partners(sps, c, 0, 4) == [1, 2, 3]
  {
    hide Linkable;
    assert Partners(sps, c, 0, 1) == [];
    assert Partners(sps, c, 0, 2) == [1];
    assert Partners(sps, c, 0, 3) == [1, 2];
  }

  lemma {:induction false} NoPartners(sps: seq<Stub>, c: Criteria, seed: nat, n: nat)
    requires seed < n <= |sps| && forall p: nat :: !Linkable(sps, c, seed, p)
    ensures Partners(sps, c, seed, n) == []
  {
    hide Linkable;
    if n > seed + 1 {
      NoPartners(sps, c, seed, n - 1);
    }
  }
}
