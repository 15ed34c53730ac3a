/** Choosing the best track: stage by stage, tracks that fail a test are dropped unless none would be left. */
module Pruning {
  import opened Basics

  const STAGES := 12
  const MAX_RATIO := 1.0e10

  /**
   What the tests look at.  `insideDipole` says whether the track leaves the dipole inside its window,
   `betaP` is the velocity expected from the momentum, and `fpTime` is relative to the centre of the
   start time.
   */
  datatype Track = Track(xpTar: real, ypTar: real, yTar: real, delta: real, insideDipole: bool, beta: real,
                         betaP: real, nDof: int, nPmt: real, betaChi2: real, fpTime: real, goodPlane3: int,
                         goodPlane4: int, chi2: real)

  datatype Cuts = Cuts(xp: real, yp: real, yTar: real, delta: real, dipoleExit: int, beta: real, nDof: real,
                       nPmt: real, chiBeta: real, fpTime: real)

  /** The test of each stage. */
  predicate Test(c: Cuts, t: Track, stage: int) {
    if stage == 1 then Abs(t.xpTar) < c.xp
    else if stage == 2 then Abs(t.ypTar) < c.yp
    else if stage == 3 then Abs(t.yTar) < c.yTar
    else if stage == 4 then Abs(t.delta) < c.delta
    else if stage == 5 then t.insideDipole
    else if stage == 6 then Abs(t.beta - t.betaP) < c.beta
    else if stage == 7 then t.nDof as real >= c.nDof
    else if stage == 8 then t.nPmt >= c.nPmt
    else if stage == 9 then 0.01 < t.betaChi2 < c.chiBeta
    else if stage == 10 then Abs(t.fpTime) < c.fpTime
    else if stage == 11 then t.goodPlane4 == 1
    else t.goodPlane3 == 1
  }

  /** Only the dipole stage can be switched off. */
  predicate Enabled(c: Cuts, stage: int) {
    stage == 5 ==> c.dipoleExit == 1
  }

  /** The kept tracks that pass. */
  function Passing(c: Cuts, tracks: seq<Track>, keep: seq<bool>, stage: int): (p: seq<bool>)
    requires |keep| == |tracks|
    ensures |p| == |keep| && forall i :: 0 <= i < |p| ==> p[i] == (keep[i] && Test(c, tracks[i], stage))
  {
    seq(|keep|, i requires 0 <= i < |keep| => keep[i] && Test(c, tracks[i], stage))
  }

  function Count(keep: seq<bool>): nat {
    if keep == [] then 0 else Count(keep[..|keep| - 1]) + if keep[|keep| - 1] then 1 else 0
  }

  /** How many tracks pass a stage, if it is switched on. */
  function Good(c: Cuts, tracks: seq<Track>, keep: seq<bool>, stage: int): nat
    requires |keep| == |tracks|
  {
    if Enabled(c, stage) then Count(Passing(c, tracks, keep, stage)) else 0
  }

  function All(n: nat): (keep: seq<bool>)
    ensures |keep| == n && forall i :: 0 <= i < n ==> keep[i]
  {
    seq(n, i => true)
  }

  /** What is kept after so many stages. */
  function Kept(c: Cuts, tracks: seq<Track>, stage: nat): (keep: seq<bool>)
    ensures |keep| == |tracks|
  {
    if stage == 0 then All(|tracks|)
    else
      var before := Kept(c, tracks, stage - 1);
      if Good(c, tracks, before, stage) > 0 then Passing(c, tracks, before, stage) else before
  }

  // ---- what the stages keep ---------------------------------------------------------------------------

  lemma {:induction false} CountPositive(keep: seq<bool>)
    ensures Count(keep) > 0 <==> exists i :: 0 <= i < |keep| && keep[i]
  {
    if keep != [] {
      CountPositive(keep[..|keep| - 1]);
      if i :| 0 <= i < |keep| && keep[i] && i < |keep| - 1 {
        assert keep[..|keep| - 1][i];
      }
    }
  }

  lemma {:induction false} CountAll(n: nat)
    ensures Count(All(n)) == n
  {
    if n > 0 {
      CountAll(n - 1);
      assert All(n)[..n - 1] == All(n - 1);
    }
  }

  /** The sets shrink and are never empty; a stage that some kept track passes leaves only such. */
  lemma {:induction false} KeptShrinks(c: Cuts, tracks: seq<Track>, stage: nat)
    requires |tracks| > 0
    ensures Count(Kept(c, tracks, stage)) > 0
    ensures stage > 0 ==> forall i :: 0 <= i < |tracks| && Kept(c, tracks, stage)[i] ==>
              Kept(c, tracks, stage - 1)[i]
    ensures stage > 0 && Enabled(c, stage)
              && (exists i :: 0 <= i < |tracks| && Kept(c, tracks, stage - 1)[i] && Test(c, tracks[i], stage)) ==>
              forall i :: 0 <= i < |tracks| && Kept(c, tracks, stage)[i] ==> Test(c, tracks[i], stage)
  {
    hide Test;
    if stage == 0 {
      CountAll(|tracks|);
    } else {
      KeptShrinks(c, tracks, stage - 1);
      CountPositive(Passing(c, tracks, Kept(c, tracks, stage - 1), stage));
    }
  }

  /** A track that passes every test is kept to the end. */
  lemma {:induction false} PerfectTrackKept(c: Cuts, tracks: seq<Track>, i: nat, stage: nat)
    requires i < |tracks| && forall s :: 1 <= s <= stage ==> Test(c, tracks[i], s)
    ensures Kept(c, tracks, stage)[i]
  {
    if stage > 0 {
      PerfectTrackKept(c, tracks, i, stage - 1);
    }
  }

  /** The track meets the first so many requirements, each with its own limit. */
  predicate Meets(c: Cuts, t: Track, stages: int) {
    && (stages >= 1 ==> -c.xp < t.xpTar < c.xp)
    && (stages >= 2 ==> -c.yp < t.ypTar < c.yp)
    && (stages >= 3 ==> -c.yTar < t.yTar < c.yTar)
    && (stages >= 4 ==> -c.delta < t.delta < c.delta)
    && (stages >= 5 && c.dipoleExit == 1 ==> t.insideDipole)
    && (stages >= 6 ==> t.betaP - c.beta < t.beta < t.betaP + c.beta)
    && (stages >= 7 ==> t.nDof as real >= c.nDof)
    && (stages >= 8 ==> t.nPmt >= c.nPmt)
    && (stages >= 9 ==> t.betaChi2 > 0.01 && t.betaChi2 < c.chiBeta)
    && (stages >= 10 ==> -c.fpTime < t.fpTime < c.fpTime)
    && (stages >= 11 ==> t.goodPlane4 == 1)
    && (stages >= 12 ==> t.goodPlane3 == 1)
  }

  lemma MeetsNext(c: Cuts, t: Track, stage: int)
    requires 1 <= stage <= STAGES
    ensures Meets(c, t, stage) <==> Meets(c, t, stage - 1) && (Enabled(c, stage) ==> Test(c, t, stage))
  {
  }

  /**
   As long as some track meets all the requirements so far, the tracks kept are exactly those that do.
   */
  lemma {:induction false} KeptMeet(c: Cuts, tracks: seq<Track>, stage: nat, j: nat)
    requires stage <= STAGES && j < |tracks| && Meets(c, tracks[j], stage)
    ensures forall i :: 0 <= i < |tracks| ==> (Kept(c, tracks, stage)[i] <==> Meets(c, tracks[i], stage))
  {
    hide Test, Meets, Enabled;
    if stage == 0 {
      NothingToMeet(c, tracks);
    } else {
      var before := Kept(c, tracks, stage - 1);
      MeetsNext(c, tracks[j], stage);
      KeptMeet(c, tracks, stage - 1, j);
      CountPositive(Passing(c, tracks, before, stage));
      forall i | 0 <= i < |tracks| ensures Kept(c, tracks, stage)[i] <==> Meets(c, tracks[i], stage) {
        MeetsNext(c, tracks[i], stage);
      }
    }
  }

  lemma NothingToMeet(c: Cuts, tracks: seq<Track>)
    ensures forall t <- tracks :: Meets(c, t, 0)
  {
  }

  // ---- the stage that decides --------------------------------------------------------------------------

  /** The first of the first n stages at which exactly one kept track passes, or 0. */
  function FirstSingle(c: Cuts, tracks: seq<Track>, n: nat): int {
    if n == 0 then 0
    else
      var before := FirstSingle(c, tracks, n - 1);
      if before == 0 && Good(c, tracks, Kept(c, tracks, n - 1), n) == 1 && |tracks| > 1 then n else before
  }

  function PruneSelect(c: Cuts, tracks: seq<Track>): int {
    var first := FirstSingle(c, tracks, STAGES);
    if first == 0 && |tracks| > 1 then STAGES + 1 else first
  }

  lemma {:induction false} StaysSingle(c: Cuts, tracks: seq<Track>, s: nat, n: nat)
    requires s <= n && |tracks| > 0 && Count(Kept(c, tracks, s)) == 1
    ensures Count(Kept(c, tracks, n)) == 1
  {
    if s < n {
      StaysSingle(c, tracks, s, n - 1);
      KeptShrinks(c, tracks, n);
      FewerKept(Kept(c, tracks, n), Kept(c, tracks, n - 1));
    }
  }

  lemma {:induction false} FewerKept(after: seq<bool>, before: seq<bool>)
    requires |after| == |before| && forall i :: 0 <= i < |after| && after[i] ==> before[i]
    ensures Count(after) <= Count(before)
  {
    if after != [] {
      FewerKept(after[..|after| - 1], before[..|before| - 1]);
    }
  }

  lemma {:induction false} SingleFound(c: Cuts, tracks: seq<Track>, n: nat)
    requires |tracks| > 1
    ensures 0 <= FirstSingle(c, tracks, n) <= n
    ensures FirstSingle(c, tracks, n) == 0 <==> Count(Kept(c, tracks, n)) > 1
    ensures FirstSingle(c, tracks, n) > 0 ==>
              Count(Kept(c, tracks, FirstSingle(c, tracks, n))) == 1
              && Count(Kept(c, tracks, FirstSingle(c, tracks, n) - 1)) > 1
  {
    hide Kept, Good, FirstSingle;
    if n == 0 {
      StartSingle(c, tracks);
    } else {
      SingleFound(c, tracks, n - 1);
      SingleNext(c, tracks, n);
      KeptShrinks(c, tracks, n);
      if FirstSingle(c, tracks, n - 1) > 0 {
        StaysSingle(c, tracks, FirstSingle(c, tracks, n - 1), n);
      }
    }
  }

  lemma StartSingle(c: Cuts, tracks: seq<Track>)
    ensures FirstSingle(c, tracks, 0) == 0 && Count(Kept(c, tracks, 0)) == |tracks|
  {
    CountAll(|tracks|);
  }

  /** Stage n decides when it is the first at which exactly one passes; then one is left. */
  lemma SingleNext(c: Cuts, tracks: seq<Track>, n: nat)
    requires |tracks| > 1 && n > 0
    ensures var before, good := Kept(c, tracks, n - 1), Good(c, tracks, Kept(c, tracks, n - 1), n);
            && Count(Kept(c, tracks, n)) == (if good > 0 then good else Count(before))
            && FirstSingle(c, tracks, n)
               == if FirstSingle(c, tracks, n - 1) == 0 && good == 1 then n else FirstSingle(c, tracks, n - 1)
  {
    hide Count, Passing, Enabled;
    GoodIsCount(c, tracks, Kept(c, tracks, n - 1), n);
  }

  lemma GoodIsCount(c: Cuts, tracks: seq<Track>, keep: seq<bool>, stage: int)
    requires |keep| == |tracks|
    ensures Good(c, tracks, keep, stage) > 0 ==> Good(c, tracks, keep, stage) == Count(Passing(c, tracks, keep, stage))
  {
  }

  /** With several tracks: the first stage that leaves a single one, or 13 when none does. */
  lemma SelectIsFirst(c: Cuts, tracks: seq<Track>, s: nat)
    requires |tracks| > 1 && 1 <= s <= STAGES
    ensures PruneSelect(c, tracks) == s
            <==> Count(Kept(c, tracks, s)) == 1 && forall r :: 0 <= r < s ==> Count(Kept(c, tracks, r)) > 1
    ensures PruneSelect(c, tracks) == STAGES + 1 <==> Count(Kept(c, tracks, STAGES)) > 1
  {
    var first := FirstSingle(c, tracks, STAGES);
    SingleFound(c, tracks, STAGES);
    if first > 0 {
      forall r: nat | r < first ensures Count(Kept(c, tracks, r)) > 1 {
        KeptShrinks(c, tracks, r);
        if Count(Kept(c, tracks, r)) == 1 {
          StaysSingle(c, tracks, r, first - 1);
        }
      }
    }
    KeptShrinks(c, tracks, s);
    if first == 0 && Count(Kept(c, tracks, s)) == 1 {
      StaysSingle(c, tracks, s, STAGES);
    }
  }

  // ---- the best of those left ---------------------------------------------------------------------------

  /** The track's chi-squared per degree of freedom is smaller; without degrees of freedom it is not. */
  predicate Below(t: Track, limit: real) {
    t.nDof != 0 && t.chi2 / t.nDof as real < limit
  }

  function Ratio(t: Track): real
    requires t.nDof != 0
  {
    t.chi2 / t.nDof as real
  }

  /** A kept track that the choice can fall on. */
  predicate Candidate(tracks: seq<Track>, keep: seq<bool>, i: int)
    requires |keep| == |tracks|
  {
    0 <= i < |tracks| && keep[i] && Below(tracks[i], MAX_RATIO)
  }

  /** Of the first n tracks the best kept one, and the first of equals; 0 when there is none. */
  ghost predicate Best(tracks: seq<Track>, keep: seq<bool>, n: int, best: int)
    requires |keep| == |tracks|
  {
    if exists i :: i < n && Candidate(tracks, keep, i)
    then
      && best < n && Candidate(tracks, keep, best)
      && (forall i :: i < n && Candidate(tracks, keep, i) ==> Ratio(tracks[best]) <= Ratio(tracks[i]))
      && forall i :: i < best && Candidate(tracks, keep, i) ==> Ratio(tracks[best]) < Ratio(tracks[i])
    else best == 0
  }

  /** The track chosen is one that was kept, unless there is no candidate and track 0 was rejected. */
  lemma ChosenIsKept(tracks: seq<Track>, keep: seq<bool>, best: int)
    requires |keep| == |tracks| > 0 && Best(tracks, keep, |tracks|, best)
    ensures 0 <= best < |tracks|
    ensures keep[best] <==> (exists i :: Candidate(tracks, keep, i)) || keep[0]
  {
    hide Below;
  }

  /** Once a track that can be chosen meets every requirement, the one chosen does, at the least chi-squared. */
  lemma ChosenMeets(c: Cuts, tracks: seq<Track>, best: int, j: nat)
    requires j < |tracks| && Best(tracks, Kept(c, tracks, STAGES), |tracks|, best)
    requires Meets(c, tracks[j], STAGES) && tracks[j].nDof != 0 && tracks[j].chi2 / tracks[j].nDof as real < 1.0e10
    ensures 0 <= best < |tracks| && Meets(c, tracks[best], STAGES) && tracks[best].nDof != 0
    ensures tracks[best].chi2 / tracks[best].nDof as real <= tracks[j].chi2 / tracks[j].nDof as real
  {
    KeptMeet(c, tracks, STAGES, j);
    hide Kept, Meets;
    assert Candidate(tracks, Kept(c, tracks, STAGES), j);
  }

  // ---- the spectrometer ------------------------------------------------------------------------------------

  class Spectrometer {
    const cuts: Cuts
    var pruneSelect: int
    var goodTrack: int
    var index: seq<int>

    constructor (cuts: Cuts)
      ensures this.cuts == cuts
    {
      this.cuts := cuts;
      pruneSelect, goodTrack, index := 0, -1, [];
    }

    method CountGood(tracks: seq<Track>, keep: array<bool>, stage: int) returns (nGood: nat)
      requires keep.Length == |tracks|
      ensures nGood == Good(cuts, tracks, keep[..], stage)
    {
      nGood := 0;
      ghost var passing := Passing(cuts, tracks, keep[..], stage);
      for ptrack := 0 to |tracks|
        invariant nGood == if Enabled(cuts, stage) then Count(passing[..ptrack]) else 0
      {
        assert passing[..ptrack + 1][..ptrack] == passing[..ptrack];
        if Enabled(cuts, stage) && Test(cuts, tracks[ptrack], stage) && keep[ptrack] {
          nGood := nGood + 1;
        }
      }
      assert passing[..|tracks|] == passing;
    }

    method Reject(tracks: seq<Track>, keep: array<bool>, stage: int)
      requires keep.Length == |tracks|
      modifies keep
      ensures keep[..] == Passing(cuts, tracks, old(keep[..]), stage)
    {
      for ptrack := 0 to |tracks|
        invariant forall i :: 0 <= i < ptrack ==> keep[i] == (old(keep[i]) && Test(cuts, tracks[i], stage))
        invariant forall i :: ptrack <= i < |tracks| ==> keep[i] == old(keep[i])
      {
        if !Test(cuts, tracks[ptrack], stage) {
          keep[ptrack] := false;
        }
      }
    }

    /** One stage. */
    method Prune(tracks: seq<Track>, keep: array<bool>, stage: nat)
      requires keep.Length == |tracks| && stage >= 1
      requires keep[..] == Kept(cuts, tracks, stage - 1) && pruneSelect == FirstSingle(cuts, tracks, stage - 1)
      modifies keep, this`pruneSelect
      ensures keep[..] == Kept(cuts, tracks, stage) && pruneSelect == FirstSingle(cuts, tracks, stage)
    {
      var nGood := CountGood(tracks, keep, stage);
      if nGood > 0 {
        Reject(tracks, keep, stage);
      }
      if nGood == 1 && pruneSelect == 0 && |tracks| > 1 {
        pruneSelect := stage;
      }
    }

    method PickBest(tracks: seq<Track>, keep: array<bool>)
      requires keep.Length == |tracks|
      modifies this`goodTrack
      ensures Best(tracks, keep[..], |tracks|, goodTrack)
      ensures |tracks| > 0 ==> 0 <= goodTrack < |tracks|
    {
      goodTrack := 0;
      var chi2Min := MAX_RATIO;
      ghost var kept := keep[..];
      for ptrack := 0 to |tracks|
        invariant Best(tracks, kept, ptrack, goodTrack)
        invariant if exists i :: i < ptrack && Candidate(tracks, kept, i)
                  then Candidate(tracks, kept, goodTrack) && chi2Min == Ratio(tracks[goodTrack])
                  else chi2Min == MAX_RATIO
      {
        if Below(tracks[ptrack], chi2Min) && keep[ptrack] {
          assert Candidate(tracks, kept, ptrack);
          goodTrack := ptrack;
          chi2Min := Ratio(tracks[ptrack]);
        }
      }
    }

    /**
     The best track: every stage is taken in turn, the best of the tracks left is chosen, and it
     alone gets index 0.
     */
    method BestTrackUsingPrune(tracks: seq<Track>)
      modifies this
      ensures tracks == [] ==> goodTrack == old(goodTrack) && pruneSelect == old(pruneSelect) && index == old(index)
      ensures tracks != [] ==>
                && pruneSelect == PruneSelect(cuts, tracks)
                && Best(tracks, Kept(cuts, tracks, STAGES), |tracks|, goodTrack)
                && |index| == |tracks| && 0 <= goodTrack < |tracks|
                && (Kept(cuts, tracks, STAGES)[goodTrack]
                    <==> (exists i :: Candidate(tracks, Kept(cuts, tracks, STAGES), i))
                         || Kept(cuts, tracks, STAGES)[0])
                && forall i :: 0 <= i < |index| ==> index[i] == if i == goodTrack then 0 else 1
      ensures forall j: nat ::
                j < |tracks| && Meets(cuts, tracks[j], STAGES) && Below(tracks[j], MAX_RATIO) ==>
                  && 0 <= goodTrack < |tracks| && Meets(cuts, tracks[goodTrack], STAGES)
                  && tracks[goodTrack].nDof != 0 && Ratio(tracks[goodTrack]) <= Ratio(tracks[j])
    {
      hide Kept, FirstSingle, Best, Meets;
      if |tracks| > 0 {
        var keep := new bool[|tracks|](i => true);
        pruneSelect := 0;
        NothingPruned(cuts, tracks, keep[..]);
        for stage := 1 to STAGES + 1
          invariant keep[..] == Kept(cuts, tracks, stage - 1) && pruneSelect == FirstSingle(cuts, tracks, stage - 1)
        {
          Prune(tracks, keep, stage);
        }
        PickBest(tracks, keep);
        ChosenIsKept(tracks, keep[..], goodTrack);
        forall j: nat | j < |tracks| && Meets(cuts, tracks[j], STAGES) && Below(tracks[j], MAX_RATIO)
          ensures Meets(cuts, tracks[goodTrack], STAGES)
          ensures tracks[goodTrack].nDof != 0 && Ratio(tracks[goodTrack]) <= Ratio(tracks[j])
        {
          ChosenMeets(cuts, tracks, goodTrack, j);
        }
        if pruneSelect == 0 && |tracks| > 1 {
          pruneSelect := STAGES + 1;
        }
        SetIndex(|tracks|);
      }
    }

    method SetIndex(n: nat)
      modifies this`index
      ensures |index| == n && forall i :: 0 <= i < n ==> index[i] == if i == goodTrack then 0 else 1
    {
      index := [];
      for i := 0 to n
        invariant |index| == i && forall k :: 0 <= k < i ==> index[k] == if k == goodTrack then 0 else 1
      {
        index := index + [if i == goodTrack then 0 else 1];
      }
    }
  }

  lemma NothingPruned(c: Cuts, tracks: seq<Track>, keep: seq<bool>)
    requires |keep| == |tracks| && forall i :: 0 <= i < |keep| ==> keep[i]
    ensures keep == Kept(c, tracks, 0) && FirstSingle(c, tracks, 0) == 0
  {
  }
}
