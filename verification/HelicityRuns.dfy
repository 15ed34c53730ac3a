/** What every run of the decoder keeps, whatever events it is given. */
module HelicityRuns {
  import opened Basics
  import opened Lfsr
  import opened HelicityState

  /** The state after a run that starts from `Init`. */
  function Run(events: seq<Event>, delay: int): State {
    if events == [] then InitialState()
    else Step(Run(events[..|events| - 1], delay), events[|events| - 1], delay)
  }

  predicate Calibrated(s: State) {
    s.rings.nBits == MAXBIT
  }

  predicate RingsConsistent(r: Rings, delay: int) {
    && 0 <= r.nBits <= MAXBIT
    && (r.nBits == MAXBIT ==>
          && r.seedActual == Advance(r.seedReported, DelayQuartets(delay))
          && r.startHelicity == Sign(r.seedActual) && r.startPredicted == Sign(r.seedReported))
  }

  predicate Invariant(s: State, delay: int) {
    && RingsConsistent(s.rings, delay)
    && (if s.clock.firstEvProcessed then s.quartets.firstCycle <= s.quartets.nCycle
        else s.rings.nBits == 0 && s.quartets.firstCycle == -1)
  }

  /** The event got a helicity, and a definite one only from a calibrated decoder. */
  predicate Defined(s: State) {
    s.out.actual == UNKNOWN || ((s.out.actual == PLUS || s.out.actual == MINUS) && Calibrated(s))
  }

  lemma AdvanceCommutes(r: Register, a: nat, b: nat)
    ensures Advance(Advance(r, a), b) == Advance(Advance(r, b), a)
  {
    AdvanceAdds(r, a, b);
    AdvanceAdds(r, b, a);
  }

  lemma OneStep(r: Register)
    ensures Advance(r, 1) == RanBit30(r)
  {
    assert Advance(r, 0) == r;
  }

  lemma NoStep(r: Register)
    ensures Advance(r, 0) == r
  {
  }

  lemma AdvancedRingsConsistent(r: Rings, quartets: int, delay: int)
    requires RingsConsistent(r, delay)
    ensures RingsConsistent(AdvanceRings(r, quartets), delay)
  {
    AdvanceCommutes(r.seedReported, DelayQuartets(delay), if quartets > 0 then quartets else 0);
  }

  lemma LoadedRingsConsistent(q: Quartets, r: Rings, reported: int, delay: int, scalerSeed: Option<Register>)
    requires RingsConsistent(r, delay)
    ensures RingsConsistent(LoadRings(q, r, reported, delay, scalerSeed), delay)
  {
    AdvanceCommutes(r.seedReported, DelayQuartets(delay), 1);
    OneStep(r.seedReported);
    OneStep(r.seedActual);
  }

  /** Whatever the signals say, the first cycle of the quartet count never lies in the future. */
  lemma PhaseKeepsOrder(q: Quartets, isQrt: bool)
    requires q.firstCycle <= q.nCycle
    ensures var p := FindPhase(q, isQrt);
            && p.quartets.firstCycle <= p.quartets.nCycle == q.nCycle
            && (!p.resetBits ==> p.quartets.firstCycle == q.firstCycle)
  {
  }

  lemma CatchUpKeeps(s: State, time: real, delay: int)
    requires Invariant(s, delay) && s.clock.firstEvProcessed
    ensures Invariant(CatchUp(s, time), delay) && CatchUp(s, time).clock.firstEvProcessed
    ensures !CatchUp(s, time).clock.isNewCycle ==> Defined(CatchUp(s, time))
  {
    var missed := Missed(s.clock, time);
    if missed > 1 && s.rings.nBits >= MAXBIT {
      var q := SkipQuartets(s.quartets, missed, s.out.reported, true);
      AdvancedRingsConsistent(s.rings, QuartetNumber(q) - QuartetNumber(s.quartets), delay);
    }
  }

  lemma NewCycleKeeps(s: State, ev: Event, delay: int)
    requires Invariant(s, delay) && s.clock.firstEvProcessed
    ensures Invariant(NewCycle(s, ev, delay), delay) && Defined(NewCycle(s, ev, delay))
  {
    var q := EnterCycle(s.quartets, s.out.reported);
    PhaseKeepsOrder(q, ev.isQrt);
    var phased := FindPhase(q, ev.isQrt);
    var rings := if phased.resetBits then s.rings.(nBits := 0) else s.rings;
    LoadedRingsConsistent(phased.quartets, rings, s.out.reported, delay, ev.scalerSeed);
  }

  /**
   One event of any kind: the actual seed stays `delay`/4 quartets ahead of the reported seed, the
   bit count within 30, and the event's helicity is assigned, definite only when calibrated.
   */
  lemma StepKeeps(s: State, ev: Event, delay: int)
    requires Invariant(s, delay)
    ensures Invariant(Step(s, ev, delay), delay)
    ensures delay != 0 ==> Defined(Step(s, ev, delay))
  {
    var counted := s.(clock := CountEvent(s.clock, ev.number),
                      out := s.out.(reported := ReportedOf(ev), actual := UNDEFINED));
    if s.clock.firstEvProcessed && s.clock.foundMPS && !ev.isMPS {
      CatchUpKeeps(counted, ev.time, delay);
      if CatchUp(counted, ev.time).clock.isNewCycle {
        NewCycleKeeps(CatchUp(counted, ev.time), ev, delay);
      }
    }
  }

  lemma {:induction false} RunKeeps(events: seq<Event>, delay: int)
    ensures Invariant(Run(events, delay), delay)
    ensures events != [] && delay != 0 ==> Defined(Run(events, delay))
  {
    if events != [] {
      RunKeeps(events[..|events| - 1], delay);
      StepKeeps(Run(events[..|events| - 1], delay), events[|events| - 1], delay);
    }
  }

  // ---- the reported seed follows the cycle count --------------------------------------------------

  /** From `s` to `t` the reported seed has moved exactly as far as the quartet number. */
  predicate Follows(s: State, t: State) {
    && t.quartets.firstCycle == s.quartets.firstCycle
    && QuartetNumber(t.quartets) >= QuartetNumber(s.quartets)
    && t.rings.seedReported
       == Advance(s.rings.seedReported, QuartetNumber(t.quartets) - QuartetNumber(s.quartets))
  }

  lemma FollowsTransitive(s: State, m: State, t: State)
    requires Follows(s, m) && Follows(m, t)
    ensures Follows(s, t)
  {
    AdvanceAdds(s.rings.seedReported, QuartetNumber(m.quartets) - QuartetNumber(s.quartets),
                QuartetNumber(t.quartets) - QuartetNumber(m.quartets));
  }

  /** A calibrated decoder has found the quartet phase. */
  predicate PhaseFound(s: State) {
    Calibrated(s) ==> s.quartets.foundQuartet
  }

  lemma CatchUpFollows(s: State, time: real, delay: int)
    requires Invariant(s, delay) && PhaseFound(s) && s.clock.firstEvProcessed
    ensures PhaseFound(CatchUp(s, time)) && Calibrated(CatchUp(s, time)) == Calibrated(s)
    ensures Calibrated(s) ==> Follows(s, CatchUp(s, time))
  {
  }

  lemma NewCycleFollows(s: State, ev: Event, delay: int)
    requires Invariant(s, delay) && PhaseFound(s) && s.clock.firstEvProcessed
    ensures PhaseFound(NewCycle(s, ev, delay))
    ensures Calibrated(s) && Calibrated(NewCycle(s, ev, delay)) ==> Follows(s, NewCycle(s, ev, delay))
  {
    PhaseKeepsOrder(EnterCycle(s.quartets, s.out.reported), ev.isQrt);
    OneStep(s.rings.seedReported);
  }

  lemma PhysicsFollows(s: State, ev: Event, delay: int)
    requires Invariant(s, delay) && PhaseFound(s) && s.clock.firstEvProcessed
    ensures PhaseFound(PhysicsEvent(s, ev, delay))
    ensures Calibrated(s) && Calibrated(PhysicsEvent(s, ev, delay)) ==> Follows(s, PhysicsEvent(s, ev, delay))
  {
    var caught := CatchUp(s, ev.time);
    CatchUpKeeps(s, ev.time, delay);
    CatchUpFollows(s, ev.time, delay);
    if caught.clock.isNewCycle {
      NewCycleFollows(caught, ev, delay);
      if Calibrated(s) && Calibrated(NewCycle(caught, ev, delay)) {
        FollowsTransitive(s, caught, NewCycle(caught, ev, delay));
      }
    }
  }

  /** While calibrated, one event moves the seed exactly as far as it moves the quartet number. */
  lemma StepFollows(s: State, ev: Event, delay: int)
    requires Invariant(s, delay) && PhaseFound(s)
    ensures PhaseFound(Step(s, ev, delay))
    ensures Calibrated(s) && Calibrated(Step(s, ev, delay)) ==> Follows(s, Step(s, ev, delay))
  {
    hide PhysicsEvent, Advance;
    var counted := s.(clock := CountEvent(s.clock, ev.number),
                      out := s.out.(reported := ReportedOf(ev), actual := UNDEFINED));
    assert Follows(s, s) by {
      assert Advance(s.rings.seedReported, 0) == s.rings.seedReported by {
        NoStep(s.rings.seedReported);
      }
    }
    if s.clock.firstEvProcessed {
      PhysicsFollows(counted, ev, delay);
    }
  }

  lemma {:induction false} PhaseFoundInRuns(events: seq<Event>, delay: int)
    ensures PhaseFound(Run(events, delay))
  {
    if events != [] {
      var shorter := events[..|events| - 1];
      PhaseFoundInRuns(shorter, delay);
      RunKeeps(shorter, delay);
      StepFollows(Run(shorter, delay), events[|events| - 1], delay);
    }
  }

  /** However the cycles of a calibrated stretch were split into steps and gaps, the seed counts them. */
  lemma {:induction false} SeedFollowsCycles(events: seq<Event>, from: nat, delay: int)
    requires from <= |events|
    requires forall k :: from <= k <= |events| ==> Calibrated(Run(events[..k], delay))
    ensures Follows(Run(events[..from], delay), Run(events, delay))
    decreases |events|
  {
    assert events[..|events|] == events;
    if from < |events| {
      var shorter := events[..|events| - 1];
      assert forall k :: from <= k <= |shorter| ==> shorter[..k] == events[..k];
      SeedFollowsCycles(shorter, from, delay);
      RunKeeps(shorter, delay);
      PhaseFoundInRuns(shorter, delay);
      StepFollows(Run(shorter, delay), events[|events| - 1], delay);
      assert Calibrated(Run(events[..|shorter|], delay));
      FollowsTransitive(Run(events[..from], delay), Run(shorter, delay), Run(events, delay));
    }
  }
}
