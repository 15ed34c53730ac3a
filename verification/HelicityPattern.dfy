/**
 Runs without the QRT signal: the quartets are found from the reported helicity pattern, which is
 tested in the last cycle of each quartet.
 */
module HelicityPattern {
  import opened Basics
  import opened Lfsr
  import opened HelicityState
  import opened HelicityRuns
  import opened HelicitySource

  /** The decoder's clock stands in a cycle that an event other than MPS has entered. */
  predicate InCycle(src: Source, jitter: real, c: Clock, now: real) {
    && ClockTracks(c, jitter, now) && c.foundMPS && !c.isNewCycle
    && SyncCycle(c) >= Delay(src) && now > SyncCycle(c) as real + jitter
  }

  predicate Small(p: Pattern) {
    -1 <= p.q0 <= 1 && -1 <= p.q1 <= 1 && -1 <= p.q2 <= 1 && -1 <= p.q3 <= 1
  }

  /** No quartet found, no bits. */
  predicate Idle(q: Quartets, r: Rings) {
    !q.haveQRT && !q.foundQuartet && q.firstCycle <= q.nCycle && Small(q.recent) && r.nBits == 0
  }

  /** The phase is right. */
  predicate InStep(q: Quartets, cycle: int) {
    (q.nCycle - q.firstCycle - cycle) % 4 == 0
  }

  /**
   With the right phase: the bits are the source's.  Until they are all there the quartets are counted,
   and in phase 2 either the quartet's bit was taken before or the pattern has a 0 from a gap.
   */
  predicate Gathers(src: Source, q: Quartets, r: Rings, cycle: nat)
    requires cycle >= Delay(src)
  {
    && SeedsTrack(src, r, cycle / 4)
    && (r.nBits < MAXBIT ==>
          && q.nQuartet == QuartetNumber(q)
          && (Phase(q) == 2 ==> q.nLastQuartet == q.nQuartet || q.recent.q2 == 0))
  }

  predicate Found(q: Quartets) {
    !q.haveQRT && q.foundQuartet && q.firstCycle <= q.nCycle && Small(q.recent)
  }

  predicate Settled(src: Source, q: Quartets, r: Rings, cycle: nat)
    requires cycle >= Delay(src)
  {
    Found(q) && (InStep(q, cycle) ==> Gathers(src, q, r, cycle))
  }

  /** What holds after every event of a faithful run without QRT. */
  predicate Hunts(src: Source, jitter: real, s: State, now: real) {
    && ClockTracks(s.clock, jitter, now)
    && (Idle(s.quartets, s.rings)
        || (InCycle(src, jitter, s.clock, now) && Settled(src, s.quartets, s.rings, SyncCycle(s.clock))))
  }

  // ---- entering a cycle -----------------------------------------------------------------------------

  /** The event's cycle is about to be entered, or was already. */
  lemma Caught(src: Source, jitter: real, s: State, now: real, ev: Event)
    requires 0.0 <= jitter < 0.25 && ClockTracks(s.clock, jitter, now) && s.clock.foundMPS
    requires !ev.isMPS && Faithful(src, jitter, false, ev) && now <= ev.time
    ensures var missed, caught := CycleOf(ev) - SyncCycle(s.clock), CatchUp(s, ev.time);
            && missed >= 0 && ev.time > CycleOf(ev) as real + jitter && CycleOf(ev) >= Delay(src)
            && caught.clock == s.clock.(lastMPSTime := caught.clock.lastMPSTime,
                                        isNewCycle := s.clock.isNewCycle || missed > 0)
            && ClockTracks(caught.clock, jitter, ev.time) && SyncCycle(caught.clock) == CycleOf(ev)
            && caught.out.reported == s.out.reported
            && (missed <= 1 ==> caught.quartets == s.quartets)
            && (missed > 1 ==> caught.quartets
                               == SkipQuartets(s.quartets, missed, s.out.reported, s.rings.nBits >= MAXBIT))
            && (s.rings.nBits < MAXBIT ==> caught.rings == s.rings)
            && (missed == 0 && s.rings.nBits >= MAXBIT ==> caught.rings == Refresh(s.rings))
  {
    hide AdvanceRings, SkipQuartets, ReportedHelicity;
    MissedCounted(s.clock, jitter, now, ev, src, false);
  }

  /** What is known of an event without QRT whose cycle is entered. */
  predicate Plain(src: Source, s: State, cycle: nat, ev: Event) {
    cycle >= Delay(src) && s.out.reported == ReportedHelicity(src, cycle) && !ev.isQrt && ev.scalerSeed == None
  }

  lemma ReportIsSign(src: Source, s: State, cycle: nat, ev: Event)
    requires Plain(src, s, cycle, ev)
    ensures s.out.reported == PLUS || s.out.reported == MINUS
  {
    BitShown(src, cycle, s.out.reported);
  }

  lemma ResetIsIdle(s: State, ev: Event, delay: int)
    requires !ev.isQrt && !s.quartets.haveQRT && s.quartets.firstCycle <= s.quartets.nCycle
    requires Small(EnterCycle(s.quartets, s.out.reported).recent)
    requires FindPhase(EnterCycle(s.quartets, s.out.reported), false).resetBits
    ensures var t := NewCycle(s, ev, delay); Idle(t.quartets, t.rings)
  {
    PhaseKeepsOrder(EnterCycle(s.quartets, s.out.reported), false);
  }

  /** An idle decoder enters a cycle: it stays idle, or finds the quartet and takes its first bit. */
  lemma IdleCycle(src: Source, s: State, cycle: nat, ev: Event)
    requires Plain(src, s, cycle, ev) && Idle(s.quartets, s.rings)
    ensures var t := NewCycle(s, ev, Delay(src));
            && (Idle(t.quartets, t.rings)
                || (Settled(src, t.quartets, t.rings, cycle) && t.rings.nBits == 1 && Phase(t.quartets) == 3))
            && (t.quartets.foundQuartet <==>
                  Phase(EnterCycle(s.quartets, s.out.reported)) == 3
                  && PatternComplete(EnterCycle(s.quartets, s.out.reported)))
  {
    hide Advance, RanBit30, ReportedHelicity, SeedsTrack;
    ReportIsSign(src, s, cycle, ev);
    var q := EnterCycle(s.quartets, s.out.reported);
    PhaseKeepsOrder(q, false);
    if Phase(q) == 3 && PatternComplete(q) {
      FirstBit(src, s.rings, cycle, s.out.reported);
    }
  }

  lemma FirstBit(src: Source, r: Rings, cycle: nat, reported: int)
    requires cycle >= Delay(src) && reported == ReportedHelicity(src, cycle) && r.nBits == 0
    ensures AcquireBit(r, reported, 3, Delay(src), None).nBits == 1
    ensures cycle % 4 == 3 ==> SeedsTrack(src, AcquireBit(r, reported, 3, Delay(src), None), cycle / 4)
  {
    BitShown(src, cycle, reported);
    var now := QuartetRegister(src, cycle / 4 - src.delayQuartets);
    hide Advance, RanBit30, ReportedHelicity;
    assert HoldsBits(PushBit(ZERO, LowBit(now)), now, 1);
  }

  /** With a wrong phase found, the phase is given up or stays wrong. */
  lemma WrongPhaseCycle(src: Source, s: State, cycle: nat, ev: Event)
    requires Plain(src, s, cycle, ev) && Found(s.quartets) && !InStep(EnterCycle(s.quartets, 0), cycle)
    ensures var t := NewCycle(s, ev, Delay(src));
            Idle(t.quartets, t.rings) || (Found(t.quartets) && !InStep(t.quartets, cycle))
  {
    hide LoadRings, LoadOutput, ReportedHelicity;
    ReportIsSign(src, s, cycle, ev);
    var q := EnterCycle(s.quartets, s.out.reported);
    PhaseKeepsOrder(q, false);
    if FindPhase(q, false).resetBits {
      ResetIsIdle(s, ev, Delay(src));
    }
  }

  /** A decoder that gathers bits with the right phase, before a cycle is entered. */
  predicate Gathering(src: Source, s: State, before: nat) {
    && before >= Delay(src) && Found(s.quartets) && InStep(s.quartets, before)
    && s.rings.nBits < MAXBIT && Gathers(src, s.quartets, s.rings, before)
  }

  /** The state before the cycle is entered: after a gap the pattern has a 0. */
  predicate Stands(s: State, caught: State, missed: int) {
    && missed >= 1 && caught.rings == s.rings && caught.out.reported == s.out.reported
    && caught.quartets == (if missed == 1 then s.quartets else SkipQuartets(s.quartets, missed, s.out.reported, false))
  }

  /** Entering one of the first three cycles of a quartet: at most one bit per quartet, as for QRT. */
  lemma GatherEarly(src: Source, s: State, caught: State, before: nat, cycle: nat, ev: Event)
    requires Gathering(src, s, before) && Stands(s, caught, cycle - before) && Plain(src, caught, cycle, ev)
    requires cycle % 4 != 3
    ensures var t := NewCycle(caught, ev, Delay(src));
            && Settled(src, t.quartets, t.rings, cycle) && InStep(t.quartets, cycle)
            && t.rings.nBits == NextCount(s.rings.nBits, before, cycle)
            && t.quartets.recent == EnterCycle(caught.quartets, s.out.reported).recent
  {
    hide LoadRings, LoadOutput, ReportedHelicity, SeedsTrack, NextCount, SkipQuartets, Settled, Phase, Small;
    hide QuartetNumber;
    ReportIsSign(src, caught, cycle, ev);
    var q := EnterCycle(caught.quartets, s.out.reported);
    EarlyNumbers(src, s, caught, before, cycle);
    SmallStays(src, s, caught, before, cycle, ev);
    BitAcquired(src, Renumber(q), s.rings, before, cycle, s.out.reported);
    EarlySettled(src, q, LoadRings(Renumber(q), s.rings, s.out.reported, Delay(src), None), cycle);
  }

  lemma EarlySettled(src: Source, q: Quartets, r: Rings, cycle: nat)
    requires cycle >= Delay(src) && Found(q) && SeedsTrack(src, r, cycle / 4)
    requires Phase(q) == 2 ==> q.nQuartet == QuartetNumber(q) || q.recent.q2 == 0
    ensures Settled(src, Renumber(q), r, cycle)
  {
    hide SeedsTrack;
  }

  /** The cycle and quartet numbers that go with it. */
  lemma EarlyNumbers(src: Source, s: State, caught: State, before: nat, cycle: nat)
    requires Gathering(src, s, before) && Stands(s, caught, cycle - before) && cycle % 4 != 3
    ensures var q := EnterCycle(caught.quartets, s.out.reported);
            && FindPhase(q, false) == Phased(Renumber(q), false)
            && Phase(q) == Phase(Renumber(q)) == cycle % 4 && InStep(q, cycle) && InStep(Renumber(q), cycle)
            && QuartetNumber(q) - q.nQuartet == cycle / 4 - before / 4
            && (Phase(q) == 2 ==> q.nQuartet == QuartetNumber(q) || q.recent.q2 == 0)
  {
    hide SeedsTrack, Small, Phase, QuartetNumber;
    var q, first := EnterCycle(caught.quartets, s.out.reported), s.quartets.firstCycle;
    QuartetsAcross(first, before, s.quartets.nCycle, q.nCycle);
    NumbersAfter(s.quartets, before);
    NumbersAfter(q, cycle);
    assert q.nCycle == s.quartets.nCycle + cycle - before;
  }

  lemma NumbersAfter(q: Quartets, cycle: nat)
    requires q.firstCycle <= q.nCycle && InStep(q, cycle)
    ensures Phase(q) == cycle % 4 == Phase(Renumber(q)) && QuartetNumber(q) == (q.nCycle - q.firstCycle) / 4
  {
  }

  lemma SmallStays(src: Source, s: State, caught: State, before: nat, cycle: nat, ev: Event)
    requires Gathering(src, s, before) && Stands(s, caught, cycle - before) && Plain(src, caught, cycle, ev)
    ensures Found(EnterCycle(caught.quartets, s.out.reported))
  {
    hide SeedsTrack, ReportedHelicity;
    ReportIsSign(src, caught, cycle, ev);
  }

  /** Entering the last cycle of a quartet: the pattern is complete, or the decoder is idle again. */
  lemma GatherLast(src: Source, s: State, caught: State, before: nat, cycle: nat, ev: Event)
    requires Gathering(src, s, before) && Stands(s, caught, cycle - before) && Plain(src, caught, cycle, ev)
    requires cycle % 4 == 3
    ensures var t := NewCycle(caught, ev, Delay(src));
            if cycle == before + 1 && PatternComplete(EnterCycle(s.quartets, s.out.reported)) then
              && Settled(src, t.quartets, t.rings, cycle) && InStep(t.quartets, cycle) && t.rings == s.rings
              && t.quartets.recent == EnterCycle(s.quartets, s.out.reported).recent
            else Idle(t.quartets, t.rings)
  {
    hide LoadOutput, ReportedHelicity, SeedsTrack, AcquireBit;
    ReportIsSign(src, caught, cycle, ev);
    var q := EnterCycle(caught.quartets, s.out.reported);
    if cycle == before + 1 && PatternComplete(q) {
      assert FindPhase(q, false) == Phased(q, false);
    } else {
      assert FindPhase(q, false).resetBits;
      ResetIsIdle(caught, ev, Delay(src));
    }
  }

  // ---- with all bits ----------------------------------------------------------------------------------

  /** As Tracks without QRT, except that nothing is known of the recent pattern. */
  predicate TracksButPattern(src: Source, jitter: real, s: State, now: real) {
    && InCycle(src, jitter, s.clock, now)
    && PhaseTracks(s.quartets, false, SyncCycle(s.clock))
    && SeedsTrack(src, s.rings, SyncCycle(s.clock) / 4) && Calibrated(s)
  }

  /** What the decoder needs of the recent pattern for the event's cycle. */
  predicate PatternWillDo(s: State, ev: Event) {
    || CycleOf(ev) > SyncCycle(s.clock) + 1
    || CycleOf(ev) % 4 != 3
    || PatternComplete(EnterCycle(s.quartets, ReportedOf(ev)))
  }

  /** The state in which the cycle of the event is about to be entered. */
  lemma StandsBefore(src: Source, jitter: real, s: State, now: real, ev: Event)
    requires 0.0 <= jitter < 0.25 && TracksButPattern(src, jitter, s, now)
    requires s.out.reported == ReportedOf(ev) && !ev.isMPS && Faithful(src, jitter, false, ev) && now <= ev.time
    requires CycleOf(ev) > SyncCycle(s.clock)
    ensures var caught, missed := CatchUp(s, ev.time), CycleOf(ev) - SyncCycle(s.clock);
            && caught.clock == s.clock.(lastMPSTime := s.clock.lastMPSTime + missed as real, isNewCycle := true)
            && ClockTracks(caught.clock, jitter, ev.time) && SyncCycle(caught.clock) == CycleOf(ev)
            && ev.time > CycleOf(ev) as real + jitter
            && caught.out.reported == s.out.reported && Calibrated(caught)
            && (missed == 1 ==> caught.quartets == s.quartets)
            && (PatternWillDo(s, ev) <==> ReadyFor(src, false, caught, CycleOf(ev)))
            && (!PatternWillDo(s, ev) ==> FindPhase(EnterCycle(caught.quartets, s.out.reported), false).resetBits)
  {
    hide Advance, ReportedHelicity, SeedsTrack, PatternTracks, OverGap;
    var before, cycle := SyncCycle(s.clock), CycleOf(ev);
    var missed := cycle - before;
    MissedCounted(s.clock, jitter, now, ev, src, false);
    var caught := CatchUp(s, ev.time);
    if missed > 1 {
      GapMovesSeeds(src, s, missed, before);
      PatternAcross(src, s, missed, before);
    }
    assert caught.out.reported == s.out.reported && Calibrated(caught);
    assert caught.quartets == s.quartets.(nCycle := s.quartets.nCycle + missed - 1, recent := caught.quartets.recent);
    assert SeedsTrack(src, caught.rings, (cycle - 1) / 4);
  }

  /**
   Without the QRT signal a calibrated decoder with the right phase and seeds keeps them exactly when
   the recent pattern passes its test: a gap rewrites the pattern, so then it always does.
   */
  lemma KeptIffPatternWillDo(src: Source, jitter: real, s: State, now: real, ev: Event)
    requires 0.0 <= jitter < 0.25 && src.delayQuartets > 0 && TracksButPattern(src, jitter, s, now)
    requires s.out.reported == ReportedOf(ev) && !ev.isMPS && Faithful(src, jitter, false, ev) && now <= ev.time
    requires CycleOf(ev) > SyncCycle(s.clock)
    ensures var t := PhysicsEvent(s, ev, Delay(src));
            && (Calibrated(t) <==> PatternWillDo(s, ev))
            && (Calibrated(t) ==> TracksButPattern(src, jitter, t, ev.time) && Correct(src, t, ev))
            && (Calibrated(t) && CycleOf(ev) == SyncCycle(s.clock) + 1 ==>
                  t.quartets.recent == EnterCycle(s.quartets, ReportedOf(ev)).recent)
            && SyncCycle(t.clock) == CycleOf(ev)
  {
    hide CatchUp, NewCycle, FindPhase, SeedsTrack, ReportedHelicity, PatternWillDo, ReadyFor, PhaseTracks;
    StandsBefore(src, jitter, s, now, ev);
    var caught := CatchUp(s, ev.time);
    if PatternWillDo(s, ev) {
      NewCycleTracks(src, false, caught, SyncCycle(s.clock), CycleOf(ev), ev);
    } else {
      PhaseReset(caught, ev, Delay(src));
    }
  }

  lemma PhaseReset(s: State, ev: Event, delay: int)
    requires !ev.isQrt && FindPhase(EnterCycle(s.quartets, s.out.reported), false).resetBits
    ensures !Calibrated(NewCycle(s, ev, delay)) && NewCycle(s, ev, delay).clock == s.clock.(isNewCycle := false)
  {
  }

  /** Catching up and entering a cycle keep the pattern's values small. */
  lemma SmallAfter(src: Source, jitter: real, s: State, now: real, ev: Event)
    requires 0.0 <= jitter < 0.25 && ClockTracks(s.clock, jitter, now) && s.clock.foundMPS
    requires s.out.reported == ReportedOf(ev) && Small(s.quartets.recent)
    requires !ev.isMPS && Faithful(src, jitter, false, ev) && now <= ev.time
    ensures Small(CatchUp(s, ev.time).quartets.recent)
    ensures Small(EnterCycle(CatchUp(s, ev.time).quartets, s.out.reported).recent)
    ensures Small(PhysicsEvent(s, ev, Delay(src)).quartets.recent)
  {
    hide CatchUp, LoadRings, LoadOutput, ReportedHelicity, Small, SkipQuartets, EnterCycle, FindPhase, Faithful;
    Caught(src, jitter, s, now, ev);
    var caught, missed := CatchUp(s, ev.time), CycleOf(ev) - SyncCycle(s.clock);
    SmallSkip(s.quartets, missed, s.out.reported, s.rings.nBits >= MAXBIT);
    SmallEnter(caught.quartets, s.out.reported);
    RecentKept(EnterCycle(caught.quartets, caught.out.reported), ev.isQrt);
  }

  lemma SmallSkip(q: Quartets, missed: int, reported: int, calibrated: bool)
    requires Small(q.recent) && -1 <= reported <= 1
    ensures Small(SkipQuartets(q, missed, reported, calibrated).recent)
  {
  }

  lemma SmallEnter(q: Quartets, reported: int)
    requires Small(q.recent) && -1 <= reported <= 1
    ensures Small(EnterCycle(q, reported).recent)
  {
  }

  lemma RecentKept(q: Quartets, isQrt: bool)
    ensures FindPhase(q, isQrt).quartets.recent == q.recent
  {
  }

  // ---- every event --------------------------------------------------------------------------------------

  /** A calibrated decoder with the right phase enters a later cycle. */
  lemma CalibratedCycle(src: Source, jitter: real, s: State, now: real, ev: Event)
    requires 0.0 <= jitter < 0.25 && src.delayQuartets > 0 && InCycle(src, jitter, s.clock, now)
    requires Settled(src, s.quartets, s.rings, SyncCycle(s.clock)) && InStep(s.quartets, SyncCycle(s.clock))
    requires Calibrated(s) && s.out.reported == ReportedOf(ev)
    requires !ev.isMPS && Faithful(src, jitter, false, ev) && now <= ev.time && CycleOf(ev) > SyncCycle(s.clock)
    ensures var t := PhysicsEvent(s, ev, Delay(src));
            && SyncCycle(t.clock) == CycleOf(ev)
            && (if PatternWillDo(s, ev) then
                  && TracksButPattern(src, jitter, t, ev.time) && Correct(src, t, ev)
                  && Settled(src, t.quartets, t.rings, CycleOf(ev)) && InStep(t.quartets, CycleOf(ev)) && Calibrated(t)
                  && (CycleOf(ev) == SyncCycle(s.clock) + 1 ==>
                        t.quartets.recent == EnterCycle(s.quartets, ReportedOf(ev)).recent)
                else Idle(t.quartets, t.rings) && ClockTracks(t.clock, jitter, ev.time))
  {
    hide PhysicsEvent, SeedsTrack, Small, Correct, PatternWillDo, ClockTracks, FindPhase, Faithful, Phase;
    hide QuartetNumber;
    KeptIffPatternWillDo(src, jitter, s, now, ev);
    SmallAfter(src, jitter, s, now, ev);
    if !PatternWillDo(s, ev) {
      LostIsIdle(src, jitter, s, now, ev);
    }
  }

  lemma LostIsIdle(src: Source, jitter: real, s: State, now: real, ev: Event)
    requires 0.0 <= jitter < 0.25 && src.delayQuartets > 0 && TracksButPattern(src, jitter, s, now)
    requires s.out.reported == ReportedOf(ev) && !ev.isMPS && Faithful(src, jitter, false, ev) && now <= ev.time
    requires CycleOf(ev) > SyncCycle(s.clock) && !PatternWillDo(s, ev) && Small(s.quartets.recent)
    ensures var t := PhysicsEvent(s, ev, Delay(src));
            Idle(t.quartets, t.rings) && ClockTracks(t.clock, jitter, ev.time)
  {
    hide CatchUp, NewCycle, FindPhase, SeedsTrack, PatternWillDo, ReadyFor, Small, ReportedHelicity;
    StandsBefore(src, jitter, s, now, ev);
    SmallAfter(src, jitter, s, now, ev);
    Caught(src, jitter, s, now, ev);
    var caught := CatchUp(s, ev.time);
    PhaseReset(caught, ev, Delay(src));
    ResetIsIdle(caught, ev, Delay(src));
  }

  /** A later cycle is entered after the decoder has caught up. */
  lemma LaterCaught(src: Source, jitter: real, s: State, now: real, ev: Event)
    requires 0.0 <= jitter < 0.25 && InCycle(src, jitter, s.clock, now) && s.out.reported == ReportedOf(ev)
    requires !ev.isMPS && Faithful(src, jitter, false, ev) && now <= ev.time && CycleOf(ev) > SyncCycle(s.clock)
    ensures var caught, t := CatchUp(s, ev.time), PhysicsEvent(s, ev, Delay(src));
            && CycleOf(ev) >= Delay(src) && t == NewCycle(caught, ev, Delay(src))
            && Plain(src, caught, CycleOf(ev), ev)
            && InCycle(src, jitter, t.clock, ev.time) && SyncCycle(t.clock) == CycleOf(ev)
            && (s.rings.nBits < MAXBIT ==> Stands(s, caught, CycleOf(ev) - SyncCycle(s.clock)))
            && (InStep(EnterCycle(caught.quartets, 0), CycleOf(ev)) <==> InStep(s.quartets, SyncCycle(s.clock)))
            && (Found(s.quartets) && Small(caught.quartets.recent) ==> Found(caught.quartets))
  {
    hide CatchUp, LoadRings, LoadOutput, ReportedHelicity, Small, FindPhase;
    Caught(src, jitter, s, now, ev);
  }

  /** A decoder that gathers bits enters a later cycle. */
  lemma GatheringCycle(src: Source, jitter: real, s: State, now: real, ev: Event)
    requires 0.0 <= jitter < 0.25 && InCycle(src, jitter, s.clock, now) && Gathering(src, s, SyncCycle(s.clock))
    requires s.out.reported == ReportedOf(ev)
    requires !ev.isMPS && Faithful(src, jitter, false, ev) && now <= ev.time && CycleOf(ev) > SyncCycle(s.clock)
    ensures var t, before, cycle := PhysicsEvent(s, ev, Delay(src)), SyncCycle(s.clock), CycleOf(ev);
            var entered := EnterCycle(CatchUp(s, ev.time).quartets, s.out.reported);
            && InCycle(src, jitter, t.clock, ev.time) && SyncCycle(t.clock) == cycle && cycle >= Delay(src)
            && Stands(s, CatchUp(s, ev.time), cycle - before)
            && (if cycle % 4 != 3 || (cycle == before + 1 && PatternComplete(entered)) then
                  && Settled(src, t.quartets, t.rings, cycle) && InStep(t.quartets, cycle)
                  && t.rings.nBits == NextCount(s.rings.nBits, before, cycle) && t.quartets.recent == entered.recent
                else Idle(t.quartets, t.rings))
  {
    hide CatchUp, NewCycle, PhysicsEvent, ReportedHelicity, Small, FindPhase, SeedsTrack, Settled, Gathers, Idle;
    hide PatternComplete, Faithful, ClockTracks, Plain;
    LaterCaught(src, jitter, s, now, ev);
    var caught, before, cycle := CatchUp(s, ev.time), SyncCycle(s.clock), CycleOf(ev);
    if cycle % 4 != 3 {
      GatherEarly(src, s, caught, before, cycle, ev);
    } else {
      GatherLast(src, s, caught, before, cycle, ev);
    }
  }

  /** A further event of the cycle the decoder stands in. */
  lemma SameCycleHunts(src: Source, jitter: real, s: State, now: real, ev: Event)
    requires 0.0 <= jitter < 0.25 && Hunts(src, jitter, s, now) && InCycle(src, jitter, s.clock, now)
    requires !ev.isMPS && Faithful(src, jitter, false, ev) && now <= ev.time && CycleOf(ev) == SyncCycle(s.clock)
    requires 0 <= s.rings.nBits <= MAXBIT
    ensures var t := PhysicsEvent(s, ev, Delay(src));
            && Hunts(src, jitter, t, ev.time) && t.quartets == s.quartets && t.clock == s.clock
            && t.rings.nBits == s.rings.nBits
            && (Settled(src, s.quartets, s.rings, SyncCycle(s.clock)) ==>
                  Settled(src, t.quartets, t.rings, SyncCycle(t.clock)))
            && InCycle(src, jitter, t.clock, ev.time)
  {
    hide Small, ReportedHelicity, HoldsBits, Advance;
    MissedCounted(s.clock, jitter, now, ev, src, false);
  }

  /** A decoder with a wrong phase enters a later cycle. */
  lemma WrongLater(src: Source, jitter: real, s: State, now: real, ev: Event)
    requires 0.0 <= jitter < 0.25 && InCycle(src, jitter, s.clock, now) && s.out.reported == ReportedOf(ev)
    requires Found(s.quartets) && !InStep(s.quartets, SyncCycle(s.clock))
    requires !ev.isMPS && Faithful(src, jitter, false, ev) && now <= ev.time && CycleOf(ev) > SyncCycle(s.clock)
    ensures var t := PhysicsEvent(s, ev, Delay(src));
            && InCycle(src, jitter, t.clock, ev.time) && SyncCycle(t.clock) == CycleOf(ev)
            && (Idle(t.quartets, t.rings) || (Found(t.quartets) && !InStep(t.quartets, CycleOf(ev))))
  {
    hide CatchUp, NewCycle, PhysicsEvent, ReportedHelicity, Small, FindPhase, Idle, Faithful, ClockTracks, Plain;
    hide InStep;
    LaterCaught(src, jitter, s, now, ev);
    SmallAfter(src, jitter, s, now, ev);
    WrongPhaseCycle(src, CatchUp(s, ev.time), CycleOf(ev), ev);
  }

  /** An idle decoder whose clock runs takes an event that is not MPS. */
  lemma IdleHunts(src: Source, jitter: real, s: State, now: real, ev: Event)
    requires 0.0 <= jitter < 0.25 && ClockTracks(s.clock, jitter, now) && s.clock.foundMPS
    requires Idle(s.quartets, s.rings) && s.out.reported == ReportedOf(ev)
    requires !ev.isMPS && Faithful(src, jitter, false, ev) && now <= ev.time
    ensures var t := PhysicsEvent(s, ev, Delay(src));
            && Hunts(src, jitter, t, ev.time) && InCycle(src, jitter, t.clock, ev.time)
            && SyncCycle(t.clock) == CycleOf(ev)
            && (t.quartets.foundQuartet ==> t.rings.nBits == 1 && Phase(t.quartets) == 3)
  {
    hide NewCycle, CatchUp, ReportedHelicity, Small, SeedsTrack;
    Caught(src, jitter, s, now, ev);
    SmallAfter(src, jitter, s, now, ev);
    var caught := CatchUp(s, ev.time);
    if caught.clock.isNewCycle {
      ClockAfter(caught, ev, Delay(src));
      IdleCycle(src, caught, CycleOf(ev), ev);
    }
  }

  lemma ClockAfter(s: State, ev: Event, delay: int)
    ensures NewCycle(s, ev, delay).clock == s.clock.(isNewCycle := false)
  {
  }

  lemma PhysicsHunts(src: Source, jitter: real, s: State, now: real, ev: Event)
    requires 0.0 <= jitter < 0.25 && src.delayQuartets > 0 && Hunts(src, jitter, s, now) && s.clock.foundMPS
    requires s.out.reported == ReportedOf(ev) && 0 <= s.rings.nBits <= MAXBIT
    requires !ev.isMPS && Faithful(src, jitter, false, ev) && now <= ev.time
    ensures Hunts(src, jitter, PhysicsEvent(s, ev, Delay(src)), ev.time)
    ensures SyncCycle(PhysicsEvent(s, ev, Delay(src)).clock) == CycleOf(ev)
  {
    hide PhysicsEvent, Gathers, Idle, Small, Faithful, InStep, PatternWillDo, PatternComplete, CatchUp;
    if Idle(s.quartets, s.rings) {
      IdleHunts(src, jitter, s, now, ev);
    } else {
      MissedCounted(s.clock, jitter, now, ev, src, false);
      if CycleOf(ev) == SyncCycle(s.clock) {
        SameCycleHunts(src, jitter, s, now, ev);
      } else if !InStep(s.quartets, SyncCycle(s.clock)) {
        WrongLater(src, jitter, s, now, ev);
      } else if Calibrated(s) {
        CalibratedCycle(src, jitter, s, now, ev);
      } else {
        GatheringCycle(src, jitter, s, now, ev);
      }
    }
  }

  /** One event of any kind. */
  lemma HuntStep(src: Source, jitter: real, s: State, now: real, ev: Event)
    requires 0.0 <= jitter < 0.25 && src.delayQuartets > 0 && Hunts(src, jitter, s, now)
    requires 0 <= s.rings.nBits <= MAXBIT
    requires Faithful(src, jitter, false, ev) && now <= ev.time && ev.number == s.clock.evNumCheck + 1
    ensures var t := Step(s, ev, Delay(src));
            && Hunts(src, jitter, t, ev.time) && t.clock.evNumCheck == ev.number
            && (ev.isMPS ==> t.quartets == s.quartets && t.rings == s.rings)
            && (!ev.isMPS && s.clock.foundMPS ==>
                  SyncCycle(t.clock) == CycleOf(ev) && t == PhysicsEvent(Counted(s, ev), ev, Delay(src)))
            && (!ev.isMPS && !s.clock.foundMPS ==> t.quartets == s.quartets && t.rings == s.rings)
            && (s.clock.foundMPS && ev.isMPS ==> SyncCycle(t.clock) == SyncCycle(s.clock))
  {
    hide Gathers, Idle, Small, PhysicsEvent, MPSClock;
    NumberAccepted(s, ev, Delay(src));
    var active := Counted(s, ev);
    if ev.isMPS {
      MPSCounted(active.clock, jitter, now, ev, src, false);
    } else if s.clock.foundMPS {
      PhysicsHunts(src, jitter, active, now, ev);
      NumberStays(active, ev, Delay(src));
    }
  }

  lemma NumberStays(s: State, ev: Event, delay: int)
    ensures PhysicsEvent(s, ev, delay).clock.evNumCheck == s.clock.evNumCheck
  {
  }

  // ---- whole runs ---------------------------------------------------------------------------------------

  lemma FaithfulNext(src: Source, jitter: real, events: seq<Event>, i: nat)
    requires FaithfulRun(src, jitter, false, events) && i < |events|
    ensures 0.0 <= jitter < 0.25 && Faithful(src, jitter, false, events[i])
    ensures i > 0 ==> events[i - 1].time <= events[i].time && events[i].number == events[i - 1].number + 1
  {
  }

  lemma BitsInRange(src: Source, events: seq<Event>, count: nat)
    requires count <= |events|
    ensures 0 <= StateAfter(src, events, count).rings.nBits <= MAXBIT
  {
    RunKeeps(events[..count], Delay(src));
  }

  lemma FirstHunts(src: Source, jitter: real, ev: Event)
    requires 0.0 <= jitter < 0.25 && src.delayQuartets > 0
    ensures var s := Step(InitialState(), ev, Delay(src));
            Hunts(src, jitter, s, ev.time) && s.clock.evNumCheck == ev.number
  {
  }

  /** In a run without the QRT signal: what the decoder has when it has the right phase is the source's. */
  lemma {:induction false} HuntsAlways(src: Source, jitter: real, events: seq<Event>, count: nat)
    requires FaithfulRun(src, jitter, false, events) && src.delayQuartets > 0 && 0 < count <= |events|
    ensures var s, last := StateAfter(src, events, count), events[count - 1];
            Hunts(src, jitter, s, last.time) && s.clock.evNumCheck == last.number
  {
    hide Hunts, Faithful, FaithfulRun, Run, Step;
    OneMore(src, events, count - 1);
    FaithfulNext(src, jitter, events, count - 1);
    if count > 1 {
      HuntsAlways(src, jitter, events, count - 1);
      BitsInRange(src, events, count - 1);
      HuntStep(src, jitter, StateAfter(src, events, count - 1), events[count - 2].time, events[count - 1]);
    } else {
      BeforeAny(src, events);
      FirstHunts(src, jitter, events[0]);
    }
  }

  lemma BeforeAny(src: Source, events: seq<Event>)
    ensures StateAfter(src, events, 0) == InitialState()
  {
  }

  /** The decoder has found the quartets, with the right phase. */
  predicate RightPhase(s: State) {
    s.quartets.foundQuartet && InStep(s.quartets, SyncCycle(s.clock))
  }

  /** A calibrated decoder that found the right phase has the source's registers. */
  lemma RightPhaseTracks(src: Source, jitter: real, s: State, now: real)
    requires Hunts(src, jitter, s, now) && RightPhase(s) && Calibrated(s)
    ensures TracksButPattern(src, jitter, s, now) && Small(s.quartets.recent)
    ensures Settled(src, s.quartets, s.rings, SyncCycle(s.clock))
  {
    hide Small;
  }

  // ---- how long the calibration lasts ---------------------------------------------------------------------

  /** The next report shifts the pattern; whether it will pass the test does not change. */
  lemma PatternGoesOn(src: Source, q: Quartets, cycle: nat, reported: int)
    requires cycle >= Delay(src) && Small(q.recent) && reported == ReportedHelicity(src, cycle + 1)
    ensures cycle % 4 < 2 ==>
              (PatternTracks(src, EnterCycle(q, reported).recent, cycle + 1) <==> PatternTracks(src, q.recent, cycle))
    ensures cycle % 4 == 2 ==> (PatternComplete(EnterCycle(q, reported)) <==> PatternTracks(src, q.recent, cycle))
  {
    hide Advance;
    BitShown(src, cycle, ReportedHelicity(src, cycle));
    ReportIsOwnQuartets(src, cycle);
    ReportIsOwnQuartets(src, cycle + 1);
  }

  /** An event in the middle of a cycle, with the source's report. */
  function EventIn(src: Source, cycle: nat, number: int): Event
    requires cycle >= Delay(src)
  {
    var reported := ReportedHelicity(src, cycle);
    Event(number, cycle as real + 0.5, false, false, reported == PLUS, reported == MINUS, None)
  }

  lemma EventFaithful(src: Source, jitter: real, cycle: nat, number: int)
    requires cycle >= Delay(src) && 0.0 <= jitter < 0.25
    ensures var ev := EventIn(src, cycle, number);
            Faithful(src, jitter, false, ev) && CycleOf(ev) == cycle && ReportedOf(ev) == ReportedHelicity(src, cycle)
  {
    BitShown(src, cycle, ReportedHelicity(src, cycle));
    assert (cycle as real + 0.5).Floor == cycle;
  }

  /** A longer run, after the same events. */
  lemma Longer(src: Source, jitter: real, events: seq<Event>, ev: Event)
    requires FaithfulRun(src, jitter, false, events) && events != [] && Faithful(src, jitter, false, ev)
    requires events[|events| - 1].time <= ev.time && ev.number == events[|events| - 1].number + 1
    ensures FaithfulRun(src, jitter, false, events + [ev])
    ensures StateAfter(src, events + [ev], |events|) == StateAfter(src, events, |events|)
    ensures StateAfter(src, events + [ev], |events| + 1) == Step(StateAfter(src, events, |events|), ev, Delay(src))
  {
    hide Step, Faithful;
    assert (events + [ev])[..|events|] == events[..|events|];
    OneMore(src, events + [ev], |events|);
  }

  /** The calibration is kept however a faithful run goes on. */
  ghost predicate Lasts(src: Source, jitter: real, events: seq<Event>) {
    forall more: seq<Event> :: FaithfulRun(src, jitter, false, events + more) ==>
      Calibrated(StateAfter(src, events + more, |events + more|))
  }

  /** The run has come to an event with this cycle, where the decoder is calibrated and has the right phase. */
  predicate Arrived(src: Source, jitter: real, events: seq<Event>, cycle: nat) {
    && FaithfulRun(src, jitter, false, events) && src.delayQuartets > 0 && events != [] && cycle >= Delay(src)
    && !events[|events| - 1].isMPS && CycleOf(events[|events| - 1]) == cycle
    && var s := StateAfter(src, events, |events|);
       SyncCycle(s.clock) == cycle && RightPhase(s) && Calibrated(s)
  }

  /** A cycle more, with an event in it. */
  lemma GoOn(src: Source, jitter: real, events: seq<Event>, cycle: nat) returns (ev: Event)
    requires Arrived(src, jitter, events, cycle)
    ensures FaithfulRun(src, jitter, false, events + [ev]) && ReportedOf(ev) == ReportedHelicity(src, cycle + 1)
    ensures var s, t := StateAfter(src, events, |events|), StateAfter(src, events + [ev], |events| + 1);
            if cycle % 4 != 2 || PatternComplete(EnterCycle(s.quartets, ReportedOf(ev))) then
              Arrived(src, jitter, events + [ev], cycle + 1)
              && t.quartets.recent == EnterCycle(s.quartets, ReportedOf(ev)).recent
            else !Calibrated(t)
    ensures Small(StateAfter(src, events, |events|).quartets.recent)
  {
    hide Step, Faithful, TracksButPattern, PatternComplete, ReportedHelicity, Settled, Correct, Run, Small;
    var last, s := events[|events| - 1], StateAfter(src, events, |events|);
    ev := EventIn(src, cycle + 1, last.number + 1);
    FaithfulNext(src, jitter, events, |events| - 1);
    EventFaithful(src, jitter, cycle + 1, last.number + 1);
    EventLater(src, jitter, last, ev);
    Longer(src, jitter, events, ev);
    HuntsAlways(src, jitter, events, |events|);
    RightPhaseTracks(src, jitter, s, last.time);
    TakeNext(src, jitter, s, last.time, ev);
  }

  lemma EventLater(src: Source, jitter: real, last: Event, ev: Event)
    requires Faithful(src, jitter, false, last) && !last.isMPS && CycleOf(last) < CycleOf(ev)
    requires !ev.isMPS
    ensures last.time <= ev.time
  {
  }

  /** The event of the next cycle, to a calibrated decoder with the right phase. */
  lemma TakeNext(src: Source, jitter: real, s: State, now: real, ev: Event)
    requires 0.0 <= jitter < 0.25 && src.delayQuartets > 0 && Hunts(src, jitter, s, now)
    requires RightPhase(s) && Calibrated(s)
    requires Faithful(src, jitter, false, ev) && now <= ev.time && ev.number == s.clock.evNumCheck + 1
    requires !ev.isMPS && CycleOf(ev) == SyncCycle(s.clock) + 1
    ensures var t := Step(s, ev, Delay(src));
            && SyncCycle(t.clock) == CycleOf(ev)
            && (if CycleOf(ev) % 4 != 3 || PatternComplete(EnterCycle(s.quartets, ReportedOf(ev))) then
                  && RightPhase(t) && Calibrated(t)
                  && t.quartets.recent == EnterCycle(s.quartets, ReportedOf(ev)).recent
                else !Calibrated(t))
  {
    hide Faithful, PhysicsEvent, Small, Gathers, PatternComplete, Correct, TracksButPattern;
    RightPhaseTracks(src, jitter, s, now);
    HuntStep(src, jitter, s, now, ev);
    CalibratedCycle(src, jitter, Counted(s, ev), now, ev);
  }

  /** With a pattern that is not right the calibration is lost when the run goes on cycle by cycle. */
  lemma Loses(src: Source, jitter: real, events: seq<Event>, cycle: nat) returns (more: seq<Event>)
    requires Arrived(src, jitter, events, cycle)
    requires !PatternTracks(src, StateAfter(src, events, |events|).quartets.recent, cycle)
    ensures FaithfulRun(src, jitter, false, events + more)
    ensures !Calibrated(StateAfter(src, events + more, |events + more|))
    decreases 3 - cycle % 4
  {
    hide Arrived, FaithfulRun, PatternComplete, ReportedHelicity, Run, Small;
    var ev := GoOn(src, jitter, events, cycle);
    ArrivedLate(src, jitter, events, cycle);
    PatternGoesOn(src, StateAfter(src, events, |events|).quartets, cycle, ReportedOf(ev));
    if cycle % 4 == 2 {
      more := [ev];
    } else {
      var rest := Loses(src, jitter, events + [ev], cycle + 1);
      more := [ev] + rest;
      assert events + [ev] + rest == events + more;
    }
  }

  lemma ArrivedLate(src: Source, jitter: real, events: seq<Event>, cycle: nat)
    requires Arrived(src, jitter, events, cycle)
    ensures cycle >= Delay(src)
    ensures cycle % 4 == 3 ==> PatternTracks(src, StateAfter(src, events, |events|).quartets.recent, cycle)
  {
  }

  /** The calibration lasts exactly when the recent pattern is right as far as it goes. */
  lemma LastsIffPattern(src: Source, jitter: real, events: seq<Event>, cycle: nat)
    requires Arrived(src, jitter, events, cycle)
    ensures Lasts(src, jitter, events) <==> PatternTracks(src, StateAfter(src, events, |events|).quartets.recent, cycle)
  {
    hide FaithfulRun, PatternTracks, Step, Run;
    if PatternTracks(src, StateAfter(src, events, |events|).quartets.recent, cycle) {
      forall more: seq<Event> | FaithfulRun(src, jitter, false, events + more)
        ensures Calibrated(StateAfter(src, events + more, |events + more|))
      {
        LastsFor(src, jitter, events, more, cycle);
      }
    } else {
      var more := Loses(src, jitter, events, cycle);
    }
  }

  lemma LastsFor(src: Source, jitter: real, events: seq<Event>, more: seq<Event>, cycle: nat)
    requires Arrived(src, jitter, events, cycle) && FaithfulRun(src, jitter, false, events + more)
    requires PatternTracks(src, StateAfter(src, events, |events|).quartets.recent, cycle)
    ensures Calibrated(StateAfter(src, events + more, |events + more|))
    ensures more != [] ==> Correct(src, StateAfter(src, events + more, |events + more|), more[|more| - 1])
  {
    hide FaithfulRun, PatternTracks, Step, Run, Hunts, Correct;
    assert (events + more)[..|events|] == events[..|events|];
    HuntsAlways(src, jitter, events, |events|);
    RightPhaseTracks(src, jitter, StateAfter(src, events, |events|), events[|events| - 1].time);
    RightForever(src, jitter, false, events + more, |events|, |events + more|);
  }

  /** The event that completes the seed of a decoder with the right phase is not the last of a quartet. */
  lemma CompletesSeed(src: Source, jitter: real, s: State, now: real, ev: Event)
    requires 0.0 <= jitter < 0.25 && src.delayQuartets > 0 && Hunts(src, jitter, s, now)
    requires 0 <= s.rings.nBits <= MAXBIT && !Calibrated(s)
    requires Faithful(src, jitter, false, ev) && now <= ev.time && ev.number == s.clock.evNumCheck + 1
    requires Calibrated(Step(s, ev, Delay(src))) && RightPhase(Step(s, ev, Delay(src)))
    ensures var t := Step(s, ev, Delay(src));
            && !ev.isMPS && CycleOf(ev) >= Delay(src) && SyncCycle(t.clock) == CycleOf(ev)
            && (PatternTracks(src, t.quartets.recent, CycleOf(ev)) <==> CycleOf(ev) % 4 == 0)
  {
    hide Faithful, PhysicsEvent, Small, Gathers, Step, ReportedHelicity;
    HuntStep(src, jitter, s, now, ev);
    var active := Counted(s, ev);
    if Idle(s.quartets, s.rings) {
      if !ev.isMPS && s.clock.foundMPS {
        IdleHunts(src, jitter, active, now, ev);
      }
    } else {
      CompletesFound(src, jitter, active, now, ev);
    }
  }

  lemma CompletesFound(src: Source, jitter: real, s: State, now: real, ev: Event)
    requires 0.0 <= jitter < 0.25 && InCycle(src, jitter, s.clock, now)
    requires Settled(src, s.quartets, s.rings, SyncCycle(s.clock))
    requires s.out.reported == ReportedOf(ev) && 0 <= s.rings.nBits < MAXBIT
    requires !ev.isMPS && Faithful(src, jitter, false, ev) && now <= ev.time
    requires var t := PhysicsEvent(s, ev, Delay(src)); Calibrated(t) && RightPhase(t)
    ensures var t := PhysicsEvent(s, ev, Delay(src));
            && CycleOf(ev) >= Delay(src)
            && (PatternTracks(src, t.quartets.recent, CycleOf(ev)) <==> CycleOf(ev) % 4 == 0)
  {
    hide ClockTracks, PhysicsEvent, Small, Gathers, ReportedHelicity, CatchUp, PatternTracks, PatternComplete;
    MissedCounted(s.clock, jitter, now, ev, src, false);
    var cycle := CycleOf(ev);
    if cycle == SyncCycle(s.clock) {
      SameCycleHunts(src, jitter, s, now, ev);
    } else if !InStep(s.quartets, SyncCycle(s.clock)) {
      WrongLater(src, jitter, s, now, ev);
    } else {
      GatheringCycle(src, jitter, s, now, ev);
      EnteredPattern(src, s, CatchUp(s, ev.time), SyncCycle(s.clock), cycle);
    }
  }

  /** A quartet entered at its first cycle has the right pattern; entered later, a wrong one. */
  lemma EnteredPattern(src: Source, s: State, caught: State, before: nat, cycle: nat)
    requires Delay(src) <= before < cycle && Stands(s, caught, cycle - before) && cycle / 4 > before / 4
    requires s.out.reported == ReportedHelicity(src, cycle) && cycle % 4 != 3
    ensures PatternTracks(src, EnterCycle(caught.quartets, s.out.reported).recent, cycle) <==> cycle % 4 == 0
  {
    BitShown(src, cycle, s.out.reported);
    hide ReportedHelicity;
  }

  /**
   Without the QRT signal, in any faithful run from Init: when the thirtieth bit is taken with the right
   phase, the calibration lasts through every faithful continuation exactly when the bit was taken in
   the first cycle of its quartet.
   */
  lemma LastsIffFirstCycle(src: Source, jitter: real, events: seq<Event>)
    requires FaithfulRun(src, jitter, false, events) && src.delayQuartets > 0 && |events| >= 2
    requires !Calibrated(StateAfter(src, events, |events| - 1))
    requires Calibrated(StateAfter(src, events, |events|)) && RightPhase(StateAfter(src, events, |events|))
    ensures Lasts(src, jitter, events) <==> CycleOf(events[|events| - 1]) % 4 == 0
  {
    hide FaithfulRun, PatternTracks, Step, Run, Hunts, Lasts, Faithful;
    var n := |events|;
    FaithfulNext(src, jitter, events, n - 1);
    HuntsAlways(src, jitter, events, n - 1);
    BitsInRange(src, events, n - 1);
    OneMore(src, events, n - 1);
    CompletesSeed(src, jitter, StateAfter(src, events, n - 1), events[n - 2].time, events[n - 1]);
    LastsIffPattern(src, jitter, events, CycleOf(events[n - 1]));
  }

  // ---- from Init to a calibration that lasts ----------------------------------------------------------------

  /** The phase and the recent pattern are right. */
  predicate OnPattern(src: Source, jitter: real, s: State, now: real) {
    && InCycle(src, jitter, s.clock, now) && Settled(src, s.quartets, s.rings, SyncCycle(s.clock))
    && InStep(s.quartets, SyncCycle(s.clock)) && PatternTracks(src, s.quartets.recent, SyncCycle(s.clock))
  }

  lemma OnPatternTracks(src: Source, jitter: real, s: State, now: real)
    requires OnPattern(src, jitter, s, now) && Calibrated(s)
    ensures Tracks(src, jitter, false, s, now)
  {
    hide SeedsTrack, PatternTracks, Small;
  }

  /** A right pattern passes the test that is coming. */
  lemma RightPatternPasses(src: Source, q: Quartets, cycle: nat, reported: int)
    requires cycle >= Delay(src) && Small(q.recent) && PatternTracks(src, q.recent, cycle)
    requires reported == ReportedHelicity(src, cycle + 1)
    ensures PatternTracks(src, EnterCycle(q, reported).recent, cycle + 1)
    ensures cycle % 4 == 2 ==> PatternComplete(EnterCycle(q, reported))
  {
    PatternGoesOn(src, q, cycle, reported);
    hide ReportedHelicity;
  }

  /** The next cycle, for a decoder that is on the pattern and still gathers bits. */
  lemma GatherNext(src: Source, jitter: real, s: State, now: real, ev: Event)
    requires 0.0 <= jitter < 0.25 && OnPattern(src, jitter, s, now) && 0 <= s.rings.nBits < MAXBIT
    requires s.out.reported == ReportedOf(ev)
    requires !ev.isMPS && Faithful(src, jitter, false, ev) && now <= ev.time && CycleOf(ev) == SyncCycle(s.clock) + 1
    ensures var t := PhysicsEvent(s, ev, Delay(src));
            && OnPattern(src, jitter, t, ev.time) && SyncCycle(t.clock) == CycleOf(ev)
            && t.rings.nBits == NextCount(s.rings.nBits, SyncCycle(s.clock), CycleOf(ev))
  {
    hide PhysicsEvent, Gathers, ReportedHelicity, Small, PatternTracks, PatternComplete, ClockTracks, CatchUp;
    hide NextCount, InStep, EnterCycle;
    GatheringCycle(src, jitter, s, now, ev);
    RightPatternPasses(src, s.quartets, SyncCycle(s.clock), ReportedOf(ev));
  }

  /** One event, no cycle being skipped. */
  lemma OnPatternStep(src: Source, jitter: real, s: State, now: real, ev: Event)
    requires 0.0 <= jitter < 0.25 && src.delayQuartets > 0 && OnPattern(src, jitter, s, now)
    requires 0 <= s.rings.nBits <= MAXBIT
    requires Faithful(src, jitter, false, ev) && now <= ev.time && ev.number == s.clock.evNumCheck + 1
    requires !ev.isMPS ==> CycleOf(ev) <= SyncCycle(s.clock) + 1
    ensures var t := Step(s, ev, Delay(src));
            && OnPattern(src, jitter, t, ev.time)
            && SyncCycle(t.clock) == (if ev.isMPS then SyncCycle(s.clock) else CycleOf(ev))
            && t.rings.nBits == (if ev.isMPS then s.rings.nBits
                                 else NextCount(s.rings.nBits, SyncCycle(s.clock), CycleOf(ev)))
  {
    hide PhysicsEvent, Gathers, ReportedHelicity, Small, PatternTracks, MPSClock, NextCount, Faithful;
    NumberAccepted(s, ev, Delay(src));
    var active := Counted(s, ev);
    if ev.isMPS {
      HuntStep(src, jitter, s, now, ev);
      MPSCounted(active.clock, jitter, now, ev, src, false);
    } else {
      PhysicsOnPattern(src, jitter, active, now, ev);
    }
  }

  lemma PhysicsOnPattern(src: Source, jitter: real, s: State, now: real, ev: Event)
    requires 0.0 <= jitter < 0.25 && src.delayQuartets > 0 && OnPattern(src, jitter, s, now)
    requires 0 <= s.rings.nBits <= MAXBIT && s.out.reported == ReportedOf(ev)
    requires !ev.isMPS && Faithful(src, jitter, false, ev) && now <= ev.time && CycleOf(ev) <= SyncCycle(s.clock) + 1
    ensures var t := PhysicsEvent(s, ev, Delay(src));
            && OnPattern(src, jitter, t, ev.time) && SyncCycle(t.clock) == CycleOf(ev)
            && t.rings.nBits == NextCount(s.rings.nBits, SyncCycle(s.clock), CycleOf(ev))
  {
    hide PhysicsEvent, Gathers, ReportedHelicity, Small, PatternTracks, Faithful, PatternComplete;
    MissedCounted(s.clock, jitter, now, ev, src, false);
    if CycleOf(ev) == SyncCycle(s.clock) {
      SameCycleHunts(src, jitter, s, now, ev);
    } else if Calibrated(s) {
      OnPatternTracks(src, jitter, s, now);
      LaterCycle(src, jitter, false, s, now, ev);
      CalibratedCycle(src, jitter, s, now, ev);
    } else {
      GatherNext(src, jitter, s, now, ev);
    }
  }

  /** The event at `from` makes the decoder find the quartets, with the right phase. */
  predicate FindsPhase(src: Source, events: seq<Event>, from: nat)
    requires from < |events|
  {
    !StateAfter(src, events, from).quartets.foundQuartet && RightPhase(StateAfter(src, events, from + 1))
  }

  /** From position `from` on, no cycle goes by without an event. */
  predicate NoCycleSkipped(events: seq<Event>, from: nat) {
    forall k :: from < k < |events| && !events[k].isMPS ==> CycleOf(events[k]) <= LastPhysicsCycle(events, from, k) + 1
  }

  lemma PhaseFoundBy(src: Source, jitter: real, s: State, now: real, ev: Event)
    requires 0.0 <= jitter < 0.25 && src.delayQuartets > 0 && Hunts(src, jitter, s, now)
    requires 0 <= s.rings.nBits <= MAXBIT
    requires Faithful(src, jitter, false, ev) && now <= ev.time && ev.number == s.clock.evNumCheck + 1
    requires !s.quartets.foundQuartet && RightPhase(Step(s, ev, Delay(src)))
    ensures var t := Step(s, ev, Delay(src));
            OnPattern(src, jitter, t, ev.time) && t.rings.nBits == 1 && SyncCycle(t.clock) == CycleOf(ev) && !ev.isMPS
  {
    hide PhysicsEvent, Gathers, ReportedHelicity, Small, Step, Faithful, InStep, Phase, PatternTracks;
    HuntStep(src, jitter, s, now, ev);
    if !ev.isMPS && s.clock.foundMPS {
      IdleHunts(src, jitter, Counted(s, ev), now, ev);
      LastOfQuartet(src, Step(s, ev, Delay(src)).quartets, CycleOf(ev));
    }
  }

  lemma LastOfQuartet(src: Source, q: Quartets, cycle: nat)
    requires cycle >= Delay(src) && q.firstCycle <= q.nCycle && InStep(q, cycle) && Phase(q) == 3
    ensures PatternTracks(src, q.recent, cycle)
  {
    NumbersAfter(q, cycle);
    hide ReportedHelicity;
  }

  lemma CyclesAt(events: seq<Event>, from: nat, k: nat)
    requires NoCycleSkipped(events, from) && from < k < |events|
    ensures !events[k].isMPS ==> CycleOf(events[k]) <= LastPhysicsCycle(events, from, k) + 1
  {
  }

  /** On the pattern, with a bit for each quartet since quartet `first`. */
  predicate Gathered(src: Source, jitter: real, s: State, now: real, first: int, cycle: int) {
    && OnPattern(src, jitter, s, now) && SyncCycle(s.clock) == cycle && first <= cycle / 4
    && s.rings.nBits == BitsAfter(cycle / 4 - first + 1)
  }

  lemma GatheredStep(src: Source, jitter: real, s: State, now: real, ev: Event, first: int, cycle: int)
    requires 0.0 <= jitter < 0.25 && src.delayQuartets > 0 && Gathered(src, jitter, s, now, first, cycle)
    requires 0 <= s.rings.nBits <= MAXBIT
    requires Faithful(src, jitter, false, ev) && now <= ev.time && ev.number == s.clock.evNumCheck + 1
    requires !ev.isMPS ==> CycleOf(ev) <= cycle + 1
    ensures Gathered(src, jitter, Step(s, ev, Delay(src)), ev.time, first, if ev.isMPS then cycle else CycleOf(ev))
  {
    hide Step, OnPattern, NextCount;
    OnPatternStep(src, jitter, s, now, ev);
    if !ev.isMPS {
      OnPatternClock(src, jitter, s, now);
      MissedCounted(s.clock, jitter, now, ev, src, false);
      CountGrows(first, cycle, CycleOf(ev));
    }
  }

  lemma OnPatternClock(src: Source, jitter: real, s: State, now: real)
    requires OnPattern(src, jitter, s, now)
    ensures ClockTracks(s.clock, jitter, now) && s.clock.foundMPS && SyncCycle(s.clock) >= 0
  {
  }

  /**
   Once the phase is found right, and as long as no cycle goes by without an event, the seed has one bit
   for each quartet, up to thirty, and the pattern stays right.
   */
  lemma {:induction false} GathersByPattern(src: Source, jitter: real, events: seq<Event>, from: nat, count: nat)
    requires FaithfulRun(src, jitter, false, events) && src.delayQuartets > 0 && 0 < from < count <= |events|
    requires FindsPhase(src, events, from) && NoCycleSkipped(events, from)
    ensures Gathered(src, jitter, StateAfter(src, events, count), events[count - 1].time,
                     CycleOf(events[from]) / 4, LastPhysicsCycle(events, from, count))
    decreases count
  {
    hide Step, Run, FaithfulRun, Faithful, Hunts, NoCycleSkipped, RightPhase, OnPattern;
    OneMore(src, events, count - 1);
    HuntsAlways(src, jitter, events, count - 1);
    FaithfulNext(src, jitter, events, count - 1);
    BitsInRange(src, events, count - 1);
    var s, now := StateAfter(src, events, count - 1), events[count - 2].time;
    if count == from + 1 {
      PhaseFoundBy(src, jitter, s, now, events[from]);
    } else {
      GathersByPattern(src, jitter, events, from, count - 1);
      CyclesAt(events, from, count - 1);
      GatheredStep(src, jitter, s, now, events[count - 1], CycleOf(events[from]) / 4,
                   LastPhysicsCycle(events, from, count - 1));
    }
  }

  /**
   Without the QRT signal, from Init: the phase is found right at `from`, no cycle is skipped until the
   seed is complete; then every later event, whatever cycles are skipped, is answered correctly.
   */
  lemma EndToEndByPattern(src: Source, jitter: real, events: seq<Event>, from: nat, complete: nat, count: nat)
    requires FaithfulRun(src, jitter, false, events) && src.delayQuartets > 0
    requires 0 < from < complete <= count <= |events|
    requires FindsPhase(src, events, from) && NoCycleSkipped(events[..complete], from)
    requires LastPhysicsCycle(events, from, complete) / 4 - CycleOf(events[from]) / 4 + 1 >= MAXBIT
    ensures var t := StateAfter(src, events, count);
            && Tracks(src, jitter, false, t, events[count - 1].time) && Calibrated(t)
            && (count > complete ==> Correct(src, t, events[count - 1]))
  {
    hide FaithfulRun, OnPattern, Tracks, Run, NoCycleSkipped, Step, RightPhase, Correct, Hunts;
    var part := events[..complete];
    PartOfRun(src, jitter, events, complete);
    assert part[..from] == events[..from] && part[..from + 1] == events[..from + 1];
    assert part[..complete] == events[..complete];
    SameCycles(events, from, complete, complete);
    GathersByPattern(src, jitter, part, from, complete);
    OnPatternTracks(src, jitter, StateAfter(src, events, complete), events[complete - 1].time);
    HuntsAlways(src, jitter, events, complete);
    RightForever(src, jitter, false, events, complete, count);
  }

  lemma PartOfRun(src: Source, jitter: real, events: seq<Event>, n: nat)
    requires FaithfulRun(src, jitter, false, events) && n <= |events|
    ensures FaithfulRun(src, jitter, false, events[..n])
  {
    hide Faithful;
  }

  lemma {:induction false} SameCycles(events: seq<Event>, from: nat, n: nat, count: nat)
    requires from < count <= n <= |events|
    ensures LastPhysicsCycle(events[..n], from, count) == LastPhysicsCycle(events, from, count)
  {
    if count > from + 1 {
      SameCycles(events, from, n, count - 1);
    }
  }
}
