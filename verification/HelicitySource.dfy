/**
 End to end: a beam whose helicity follows the register, an electronics chain that reports it
 `delay` cycles late, and the decoder's answer for every event.

 Cycle c of the beam begins at time c.  Every fourth cycle, those divisible by 4, starts a quartet.
 */
module HelicitySource {
  import opened Basics
  import opened Lfsr
  import opened HelicityState
  import opened HelicityRuns

  /** The register of the quartet that begins at cycle 0, and the reporting delay in quartets. */
  datatype Source = Source(start: Register, delayQuartets: nat)

  function Delay(src: Source): nat {
    4 * src.delayQuartets
  }

  function QuartetRegister(src: Source, quartet: nat): Register {
    Advance(src.start, quartet)
  }

  function TrueHelicity(src: Source, cycle: nat): int {
    InPhase(cycle % 4, Sign(QuartetRegister(src, cycle / 4)))
  }

  function ReportedHelicity(src: Source, cycle: nat): int
    requires cycle >= Delay(src)
  {
    TrueHelicity(src, cycle - Delay(src))
  }

  // ---- events of such a beam ----------------------------------------------------------------------

  function CycleOf(ev: Event): int {
    if ev.isMPS then (ev.time + 0.5).Floor else ev.time.Floor
  }

  /**
   An MPS event comes within `jitter` of the start of a cycle, any other event further than that
   from both ends of its cycle and with the report of that cycle.  With `qrt`, the signal marks
   exactly the first cycles of quartets; without, it is never there.
   */
  predicate Faithful(src: Source, jitter: real, qrt: bool, ev: Event) {
    var c := CycleOf(ev);
    && c >= Delay(src)
    && ev.scalerSeed == None
    && (if ev.isMPS then c as real - jitter <= ev.time <= c as real + jitter
        else
          && c as real + jitter < ev.time < (c + 1) as real - jitter
          && ReportedOf(ev) == ReportedHelicity(src, c)
          && ev.isQrt == (qrt && c % 4 == 0))
  }

  /** Events in time order, none of them lost by the reader. */
  predicate FaithfulRun(src: Source, jitter: real, qrt: bool, events: seq<Event>) {
    && 0.0 <= jitter < 0.25
    && (forall i :: 0 <= i < |events| ==> Faithful(src, jitter, qrt, events[i]))
    && (forall i :: 0 < i < |events| ==>
          events[i - 1].time <= events[i].time && events[i].number == events[i - 1].number + 1)
  }

  // ---- the clock ----------------------------------------------------------------------------------

  /** The cycle whose MPS the decoder's clock is set to. */
  function SyncCycle(c: Clock): int {
    (c.lastMPSTime + 0.5).Floor
  }

  /** After an event at time `now`, the clock is within the jitter of a cycle that has begun. */
  predicate ClockTracks(c: Clock, jitter: real, now: real) {
    && c.firstEvProcessed && !c.disabled
    && (c.foundMPS ==>
          var cycle := SyncCycle(c) as real;
          cycle - jitter <= c.lastMPSTime <= cycle + jitter && cycle - jitter <= now)
  }

  lemma MPSCounted(c: Clock, jitter: real, now: real, ev: Event, src: Source, qrt: bool)
    requires 0.0 <= jitter < 0.25 && ClockTracks(c, jitter, now)
    requires ev.isMPS && Faithful(src, jitter, qrt, ev) && now <= ev.time
    ensures var after := MPSClock(c, ev.time);
            && ClockTracks(after, jitter, ev.time) && after.foundMPS && after.evNumCheck == c.evNumCheck
            && SyncCycle(after) == (if c.foundMPS then SyncCycle(c) else CycleOf(ev))
            && (c.foundMPS && now > SyncCycle(c) as real + jitter ==> after.isNewCycle == c.isNewCycle)
  {
    if c.foundMPS {
      var missed := CycleOf(ev) - SyncCycle(c);
      assert Nint(ev.time - c.lastMPSTime) == missed;
      assert SyncCycle(MPSClock(c, ev.time)) == SyncCycle(c);
    }
  }

  /** Between MPS events the decoder counts exactly the cycles that began since its last one. */
  lemma MissedCounted(c: Clock, jitter: real, now: real, ev: Event, src: Source, qrt: bool)
    requires 0.0 <= jitter < 0.25 && ClockTracks(c, jitter, now) && c.foundMPS
    requires !ev.isMPS && Faithful(src, jitter, qrt, ev) && now <= ev.time
    ensures Missed(c, ev.time) == CycleOf(ev) - SyncCycle(c) >= 0
    ensures (c.lastMPSTime + Missed(c, ev.time) as real + 0.5).Floor == CycleOf(ev)
  {
    var missed := CycleOf(ev) - SyncCycle(c);
    if missed >= 1 {
      assert (ev.time - c.lastMPSTime).Floor == missed;
    }
    assert (c.lastMPSTime + missed as real + 0.5).Floor == SyncCycle(c) + missed;
  }

  // ---- phase, pattern and seeds -------------------------------------------------------------------

  /** The quartet count is right for `cycle`, and the way the phase was found is the run's own. */
  predicate PhaseTracks(q: Quartets, qrt: bool, cycle: int) {
    && q.foundQuartet && q.haveQRT == qrt
    && q.firstCycle <= q.nCycle && (q.nCycle - q.firstCycle - cycle) % 4 == 0
    && (qrt ==> q.nQRTProblems == 0 && q.nQuartet == QuartetNumber(q))
  }

  /** The recent pattern has the reports of the quartet up to `cycle`, as far as a later test uses them. */
  predicate PatternTracks(src: Source, p: Pattern, cycle: nat)
    requires cycle >= Delay(src)
  {
    var now := ReportedHelicity(src, cycle);
    match cycle % 4
    case 0 => p.q0 == now
    case 1 => p.q0 == now && p.q1 == -now
    case 2 => p.q0 == now && p.q1 == now && p.q2 == -now
    case _ => true
  }

  /** The seeds are the source's registers, or hold the bits of the latest consecutive quartets. */
  predicate SeedsTrack(src: Source, r: Rings, quartet: nat)
    requires quartet >= src.delayQuartets
  {
    var now := QuartetRegister(src, quartet - src.delayQuartets);
    && 0 <= r.nBits <= MAXBIT
    && (0 < r.nBits < MAXBIT ==> HoldsBits(r.seedReported, now, r.nBits))
    && (r.nBits == MAXBIT ==>
          && r.seedReported == now && r.seedActual == QuartetRegister(src, quartet)
          && r.startHelicity == Sign(r.seedActual) && r.startPredicted == Sign(r.seedReported))
  }

  /** Everything the decoder needs to be right about, after an event at time `now`. */
  predicate Tracks(src: Source, jitter: real, qrt: bool, s: State, now: real) {
    && ClockTracks(s.clock, jitter, now) && s.clock.foundMPS && !s.clock.isNewCycle
    && SyncCycle(s.clock) >= Delay(src) && now > SyncCycle(s.clock) as real + jitter
    && PhaseTracks(s.quartets, qrt, SyncCycle(s.clock))
    && SeedsTrack(src, s.rings, SyncCycle(s.clock) / 4)
    && (!qrt ==> Calibrated(s) && PatternTracks(src, s.quartets.recent, SyncCycle(s.clock)))
  }

  lemma ReportIsOwnQuartets(src: Source, cycle: nat)
    requires cycle >= Delay(src)
    ensures ReportedHelicity(src, cycle)
            == InPhase(cycle % 4, Sign(QuartetRegister(src, cycle / 4 - src.delayQuartets)))
  {
    assert (cycle - 4 * src.delayQuartets) / 4 == cycle / 4 - src.delayQuartets;
  }

  lemma QuartetsAcross(first: int, cycle: int, before: int, after: int)
    requires first <= before <= after && (before - first - cycle) % 4 == 0
    ensures (after - first) / 4 - (before - first) / 4 == (cycle + (after - before)) / 4 - cycle / 4
  {
  }

  lemma RegistersMove(src: Source, r: Rings, quartet: nat, steps: nat)
    requires src.delayQuartets <= quartet && r.nBits == MAXBIT && SeedsTrack(src, r, quartet)
    ensures SeedsTrack(src, AdvanceRings(r, steps), quartet + steps)
  {
    hide Advance, RanBit30;
    AdvanceAdds(src.start, quartet, steps);
    AdvanceAdds(src.start, quartet - src.delayQuartets, steps);
  }

  /** A gap of `missed` > 1 cycles moves the registers of a calibrated decoder to the last missed one. */
  lemma GapMovesSeeds(src: Source, s: State, missed: int, cycle: nat)
    requires cycle >= Delay(src) && SeedsTrack(src, s.rings, cycle / 4) && Calibrated(s)
    requires s.quartets.firstCycle <= s.quartets.nCycle && missed >= 1
    requires (s.quartets.nCycle - s.quartets.firstCycle - cycle) % 4 == 0
    ensures var t := OverGap(s, missed);
            && SeedsTrack(src, t.rings, (cycle + missed - 1) / 4) && Calibrated(t)
            && t.quartets == s.quartets.(nCycle := s.quartets.nCycle + missed - 1, recent := t.quartets.recent)
            && t.clock == s.clock && t.out.reported == s.out.reported
  {
    hide Advance, SeedsTrack;
    var q := s.quartets;
    QuartetsAcross(q.firstCycle, cycle, q.nCycle, q.nCycle + missed - 1);
    RegistersMove(src, s.rings, cycle / 4, (cycle + missed - 1) / 4 - cycle / 4);
    assert QuartetNumber(SkipQuartets(q, missed, s.out.reported, true)) - QuartetNumber(q)
           == (cycle + missed - 1) / 4 - cycle / 4;
  }

  /** What the gap code writes into the pattern is what the source must have shown. */
  lemma PatternAcross(src: Source, s: State, missed: int, cycle: nat)
    requires cycle >= Delay(src) && missed >= 1 && Calibrated(s)
    requires s.quartets.firstCycle <= s.quartets.nCycle
    requires (s.quartets.nCycle - s.quartets.firstCycle - cycle) % 4 == 0
    requires s.out.reported == ReportedHelicity(src, cycle + missed)
    requires missed > 1 || PatternTracks(src, s.quartets.recent, cycle)
    ensures var t := if missed > 1 then OverGap(s, missed) else s;
            var p := EnterCycle(t.quartets, s.out.reported).recent;
            && PatternTracks(src, p, cycle + missed)
            && ((cycle + missed) % 4 == 3 ==> IntAbs(PatternSum(p)) == 4)
  {
    hide Advance, RanBit30;
    ReportIsOwnQuartets(src, cycle);
    ReportIsOwnQuartets(src, cycle + missed);
  }

  lemma PhaseStays(q: Quartets, qrt: bool, isQrt: bool, cycle: int)
    requires q.foundQuartet && q.haveQRT == qrt && (qrt ==> q.nQRTProblems == 0)
    requires q.firstCycle <= q.nCycle && (q.nCycle - q.firstCycle - cycle) % 4 == 0
    requires isQrt == (qrt && cycle % 4 == 0)
    requires !qrt && cycle % 4 == 3 ==> IntAbs(PatternSum(q.recent)) == 4
    ensures var p := FindPhase(q, isQrt);
            && !p.resetBits && PhaseTracks(p.quartets, qrt, cycle)
            && p.quartets.nCycle == q.nCycle && p.quartets.recent == q.recent
            && (qrt ==> p.quartets.nLastQuartet == q.nQuartet && p.quartets.nQuartet == QuartetNumber(q))
  {
  }

  /** Entering a cycle when calibrated: the prediction holds and the seeds are the new quartet's. */
  lemma PredictionHolds(src: Source, q: Quartets, r: Rings, cycle: nat, reported: int, out: Output)
    requires cycle > Delay(src) && q.foundQuartet && Phase(q) == cycle % 4
    requires r.nBits == MAXBIT && SeedsTrack(src, r, (cycle - 1) / 4)
    requires reported == ReportedHelicity(src, cycle)
    ensures var after := LoadRings(q, r, reported, Delay(src), None);
            && after.nBits == MAXBIT && SeedsTrack(src, after, cycle / 4)
            && LoadOutput(q, r, after, out).actual == TrueHelicity(src, cycle)
            && LoadOutput(q, r, after, out).predicted == reported
  {
    ReportIsOwnQuartets(src, cycle);
  }

  lemma BitShown(src: Source, cycle: nat, reported: int)
    requires cycle >= Delay(src) && reported == ReportedHelicity(src, cycle)
    ensures reported == PLUS || reported == MINUS
    ensures LowBit(QuartetRegister(src, cycle / 4 - src.delayQuartets))
            == ((reported == PLUS && (cycle % 4 == 0 || cycle % 4 == 3))
                || (reported == MINUS && (cycle % 4 == 1 || cycle % 4 == 2)))
  {
    hide Advance;
    ReportIsOwnQuartets(src, cycle);
  }

  /** The bit pushed is the lowest bit of the reported quartet's register, in any phase. */
  lemma BitPushed(src: Source, r: Rings, before: nat, cycle: nat, reported: int)
    requires Delay(src) <= before && cycle / 4 == before / 4 + 1
    requires r.nBits < MAXBIT && SeedsTrack(src, r, before / 4)
    requires reported == ReportedHelicity(src, cycle)
    ensures var after := AcquireBit(r, reported, cycle % 4, Delay(src), None);
            SeedsTrack(src, after, cycle / 4) && after.nBits == r.nBits + 1
  {
    hide PushBit, RanBit30, HoldsBits, LowBit, ReportedHelicity;
    BitShown(src, cycle, reported);
    var quartet := before / 4 - src.delayQuartets;
    var now, next := QuartetRegister(src, quartet), QuartetRegister(src, quartet + 1);
    var seed := if r.nBits == 0 then ZERO else r.seedReported;
    NoBits(seed, now);
    NextBit(seed, now, r.nBits);
    if r.nBits + 1 == MAXBIT {
      AllBits(PushBit(seed, LowBit(next)), next);
      AdvanceAdds(src.start, quartet + 1, src.delayQuartets);
    }
  }

  /** Entering a cycle while acquiring: one bit per quartet, none twice, and a skipped quartet starts over. */
  lemma BitAcquired(src: Source, q: Quartets, r: Rings, before: nat, cycle: nat, reported: int)
    requires Delay(src) <= before <= cycle && q.foundQuartet && Phase(q) == cycle % 4
    requires r.nBits < MAXBIT && SeedsTrack(src, r, before / 4)
    requires q.nQuartet - q.nLastQuartet == cycle / 4 - before / 4
    requires reported == ReportedHelicity(src, cycle)
    ensures var after := LoadRings(q, r, reported, Delay(src), None);
            SeedsTrack(src, after, cycle / 4) && after.nBits == NextCount(r.nBits, before, cycle)
  {
    if cycle / 4 == before / 4 + 1 {
      BitPushed(src, r, before, cycle, reported);
    }
  }

  /** The bit count after the next event, as the cycles alone determine it. */
  function NextCount(nBits: int, before: nat, cycle: nat): int {
    if nBits == MAXBIT || cycle / 4 == before / 4 then nBits
    else if cycle / 4 == before / 4 + 1 then nBits + 1
    else 0
  }

  // ---- one event ----------------------------------------------------------------------------------

  /** The answer a calibrated decoder owes the event. */
  predicate Correct(src: Source, s: State, ev: Event) {
    if ev.isMPS then s.out.actual == UNKNOWN
    else CycleOf(ev) >= Delay(src)
         && s.out.actual == TrueHelicity(src, CycleOf(ev)) && s.out.predicted == ReportedHelicity(src, CycleOf(ev))
  }

  /** The test made in phase 3 of a quartet, when there is no QRT signal. */
  predicate PatternComplete(q: Quartets) {
    IntAbs(PatternSum(q.recent)) == 4
  }

  /** After catching up, the decoder stands at the end of the cycle before `cycle`. */
  predicate ReadyFor(src: Source, qrt: bool, s: State, cycle: nat)
    requires cycle > Delay(src)
  {
    && s.quartets.foundQuartet && s.quartets.haveQRT == qrt && (qrt ==> s.quartets.nQRTProblems == 0)
    && s.quartets.firstCycle <= s.quartets.nCycle
    && (s.quartets.nCycle + 1 - s.quartets.firstCycle - cycle) % 4 == 0
    && s.out.reported == ReportedHelicity(src, cycle)
    && (Calibrated(s) ==> SeedsTrack(src, s.rings, (cycle - 1) / 4))
    && (!qrt ==> Calibrated(s) && (cycle % 4 == 3 ==> PatternComplete(EnterCycle(s.quartets, s.out.reported))))
  }

  lemma CatchUpTracks(src: Source, qrt: bool, s: State, before: nat, missed: int, time: real)
    requires before >= Delay(src) && PhaseTracks(s.quartets, qrt, before) && SeedsTrack(src, s.rings, before / 4)
    requires !qrt ==> Calibrated(s) && PatternTracks(src, s.quartets.recent, before)
    requires missed >= 1 && Missed(s.clock, time) == missed
    requires s.out.reported == ReportedHelicity(src, before + missed)
    ensures var t := CatchUp(s, time);
            && ReadyFor(src, qrt, t, before + missed) && Calibrated(t) == Calibrated(s)
            && (!qrt ==> PatternTracks(src, EnterCycle(t.quartets, s.out.reported).recent, before + missed))
            && (!Calibrated(s) ==> t.rings == s.rings)
            && t.quartets == s.quartets.(nCycle := s.quartets.nCycle + missed - 1, recent := t.quartets.recent)
            && t.clock == s.clock.(lastMPSTime := s.clock.lastMPSTime + missed as real, isNewCycle := true)
  {
    if Calibrated(s) {
      GapMovesSeeds(src, s, missed, before);
      if !qrt || missed > 1 {
        PatternAcross(src, s, missed, before);
      }
    }
  }

  lemma NewCycleTracks(src: Source, qrt: bool, s: State, before: nat, cycle: nat, ev: Event)
    requires Delay(src) <= before < cycle && ReadyFor(src, qrt, s, cycle)
    requires ev.isQrt == (qrt && cycle % 4 == 0) && ev.scalerSeed == None
    requires !Calibrated(s) ==> SeedsTrack(src, s.rings, before / 4)
    requires qrt ==> (s.quartets.nCycle + 1 - s.quartets.firstCycle) / 4 - s.quartets.nQuartet == cycle / 4 - before / 4
    ensures var t := NewCycle(s, ev, Delay(src));
            && t.clock == s.clock.(isNewCycle := false)
            && PhaseTracks(t.quartets, qrt, cycle) && SeedsTrack(src, t.rings, cycle / 4)
            && t.quartets.recent == EnterCycle(s.quartets, s.out.reported).recent
            && t.rings.nBits == NextCount(s.rings.nBits, before, cycle)
            && t.out.actual == (if Calibrated(s) then TrueHelicity(src, cycle) else UNKNOWN)
            && (Calibrated(s) ==> t.out.predicted == s.out.reported)
  {
    hide FindPhase, LoadRings, TrueHelicity, Advance;
    PhaseStays(EnterCycle(s.quartets, s.out.reported), qrt, ev.isQrt, cycle);
    var phased := FindPhase(EnterCycle(s.quartets, s.out.reported), ev.isQrt).quartets;
    if Calibrated(s) {
      PredictionHolds(src, phased, s.rings, cycle, s.out.reported, s.out.(actual := UNKNOWN));
    } else {
      BitAcquired(src, phased, s.rings, before, cycle, s.out.reported);
    }
  }

  /** The first event of a later cycle. */
  lemma LaterCycle(src: Source, jitter: real, qrt: bool, s: State, now: real, ev: Event)
    requires 0.0 <= jitter < 0.25 && Tracks(src, jitter, qrt, s, now) && s.out.reported == ReportedOf(ev)
    requires !ev.isMPS && Faithful(src, jitter, qrt, ev) && now <= ev.time
    requires CycleOf(ev) > SyncCycle(s.clock)
    ensures var t := PhysicsEvent(s, ev, Delay(src));
            && Tracks(src, jitter, qrt, t, ev.time) && SyncCycle(t.clock) == CycleOf(ev)
            && t.clock == s.clock.(lastMPSTime := t.clock.lastMPSTime)
            && t.rings.nBits == NextCount(s.rings.nBits, SyncCycle(s.clock), CycleOf(ev))
            && (Calibrated(s) ==> Correct(src, t, ev))
            && (!Calibrated(s) ==> t.out.actual == UNKNOWN)
  {
    hide NewCycle, CatchUp, SeedsTrack, PatternTracks;
    var before, cycle := SyncCycle(s.clock), CycleOf(ev);
    MissedCounted(s.clock, jitter, now, ev, src, qrt);
    CatchUpTracks(src, qrt, s, before, cycle - before, ev.time);
    var caught := CatchUp(s, ev.time);
    QuartetsAcross(s.quartets.firstCycle, before, s.quartets.nCycle, caught.quartets.nCycle + 1);
    NewCycleTracks(src, qrt, caught, before, cycle, ev);
  }

  /** A further event of the cycle the decoder is in. */
  lemma SameCycleAgain(src: Source, jitter: real, qrt: bool, s: State, now: real, ev: Event)
    requires 0.0 <= jitter < 0.25 && Tracks(src, jitter, qrt, s, now) && s.out.reported == ReportedOf(ev)
    requires !ev.isMPS && Faithful(src, jitter, qrt, ev) && now <= ev.time
    requires CycleOf(ev) == SyncCycle(s.clock)
    ensures var t := PhysicsEvent(s, ev, Delay(src));
            && Tracks(src, jitter, qrt, t, ev.time) && t.clock == s.clock
            && t.rings.nBits == s.rings.nBits
            && (Calibrated(s) ==> Correct(src, t, ev))
            && (!Calibrated(s) ==> t.out.actual == UNKNOWN)
  {
    MissedCounted(s.clock, jitter, now, ev, src, qrt);
    ReportIsOwnQuartets(src, CycleOf(ev));
  }

  lemma NumberAccepted(s: State, ev: Event, delay: int)
    requires delay != 0 && !s.clock.disabled && ev.number == s.clock.evNumCheck + 1
    ensures Step(s, ev, delay) == ActiveStep(Counted(s, ev), ev, delay)
  {
  }

  /** The state in which an accepted event is decoded. */
  function Counted(s: State, ev: Event): State {
    s.(clock := s.clock.(evNumCheck := ev.number), out := s.out.(reported := ReportedOf(ev), actual := UNDEFINED))
  }

  /** Once the decoder tracks the source, every event keeps it so and is answered correctly. */
  lemma TrackedStep(src: Source, jitter: real, qrt: bool, s: State, now: real, ev: Event)
    requires 0.0 <= jitter < 0.25 && src.delayQuartets > 0 && Tracks(src, jitter, qrt, s, now)
    requires Faithful(src, jitter, qrt, ev) && now <= ev.time && ev.number == s.clock.evNumCheck + 1
    ensures var t := Step(s, ev, Delay(src));
            && Tracks(src, jitter, qrt, t, ev.time) && t.clock.evNumCheck == ev.number
            && SyncCycle(t.clock) == (if ev.isMPS then SyncCycle(s.clock) else CycleOf(ev))
            && t.rings.nBits == (if ev.isMPS then s.rings.nBits
                                 else NextCount(s.rings.nBits, SyncCycle(s.clock), CycleOf(ev)))
            && (Calibrated(s) ==> Correct(src, t, ev))
            && (!Calibrated(s) ==> t.out.actual == UNKNOWN)
  {
    hide SeedsTrack, PatternTracks, PhaseTracks, PhysicsEvent, CatchUp, MPSClock;
    NumberAccepted(s, ev, Delay(src));
    var active := Counted(s, ev);
    if ev.isMPS {
      MPSCounted(active.clock, jitter, now, ev, src, qrt);
    } else {
      MissedCounted(active.clock, jitter, now, ev, src, qrt);
      if CycleOf(ev) > SyncCycle(s.clock) {
        LaterCycle(src, jitter, qrt, active, now, ev);
      } else {
        SameCycleAgain(src, jitter, qrt, active, now, ev);
      }
    }
  }

  // ---- finding the source, with the QRT signal ------------------------------------------------------

  /** The clock runs; no QRT signal has been used yet. */
  predicate Searching(jitter: real, s: State, now: real) {
    ClockTracks(s.clock, jitter, now) && !s.quartets.haveQRT
  }

  /** The first event of a cycle that carries the QRT signal. */
  predicate LocksOn(s: State, ev: Event) {
    !ev.isMPS && ev.isQrt && s.clock.foundMPS && (CycleOf(ev) > SyncCycle(s.clock) || s.clock.isNewCycle)
  }

  lemma LockedCycle(src: Source, s: State, cycle: nat, ev: Event)
    requires cycle >= Delay(src) && cycle % 4 == 0 && ev.isQrt && ev.scalerSeed == None
    requires !s.quartets.haveQRT && s.out.reported == ReportedHelicity(src, cycle)
    ensures var t := NewCycle(s, ev, Delay(src));
            && t.clock == s.clock.(isNewCycle := false)
            && PhaseTracks(t.quartets, true, cycle) && SeedsTrack(src, t.rings, cycle / 4)
            && t.rings.nBits == 1 && t.out.actual == UNKNOWN
  {
    BitShown(src, cycle, s.out.reported);
    var now := QuartetRegister(src, cycle / 4 - src.delayQuartets);
    hide Advance, RanBit30, ReportedHelicity;
    assert HoldsBits(PushBit(ZERO, LowBit(now)), now, 1);
  }

  lemma SearchingStep(src: Source, jitter: real, s: State, now: real, ev: Event)
    requires 0.0 <= jitter < 0.25 && src.delayQuartets > 0 && Searching(jitter, s, now)
    requires Faithful(src, jitter, true, ev) && now <= ev.time && ev.number == s.clock.evNumCheck + 1
    ensures var t := Step(s, ev, Delay(src));
            && t.clock.evNumCheck == ev.number
            && (if LocksOn(s, ev) then
                  Tracks(src, jitter, true, t, ev.time) && SyncCycle(t.clock) == CycleOf(ev) && t.rings.nBits == 1
                else Searching(jitter, t, ev.time))
  {
    hide Advance, SeedsTrack, PhaseTracks, MPSClock, LoadRings, LoadOutput, AdvanceRings, ReportedHelicity;
    NumberAccepted(s, ev, Delay(src));
    var active := Counted(s, ev);
    if ev.isMPS {
      MPSCounted(active.clock, jitter, now, ev, src, true);
    } else if s.clock.foundMPS {
      MissedCounted(active.clock, jitter, now, ev, src, true);
      var caught := CatchUp(active, ev.time);
      assert caught.quartets.haveQRT == s.quartets.haveQRT && caught.out.reported == active.out.reported;
      if LocksOn(s, ev) {
        LockedCycle(src, caught, CycleOf(ev), ev);
      }
    }
  }

  // ---- whole runs -----------------------------------------------------------------------------------

  function StateAfter(src: Source, events: seq<Event>, count: nat): State
    requires count <= |events|
  {
    Run(events[..count], Delay(src))
  }

  lemma OneMore(src: Source, events: seq<Event>, count: nat)
    requires count < |events|
    ensures StateAfter(src, events, count + 1) == Step(StateAfter(src, events, count), events[count], Delay(src))
  {
    assert events[..count + 1][..count] == events[..count];
  }

  /** In a run with the QRT signal the decoder is searching until it locks on, and tracks from then on. */
  lemma {:induction false} SearchesOrTracks(src: Source, jitter: real, events: seq<Event>, count: nat)
    requires FaithfulRun(src, jitter, true, events) && src.delayQuartets > 0 && 0 < count <= |events|
    ensures var s, last := StateAfter(src, events, count), events[count - 1];
            && s.clock.evNumCheck == last.number
            && (if s.quartets.haveQRT then Tracks(src, jitter, true, s, last.time) else Searching(jitter, s, last.time))
  {
    OneMore(src, events, count - 1);
    if count > 1 {
      SearchesOrTracks(src, jitter, events, count - 1);
      var s, now := StateAfter(src, events, count - 1), events[count - 2].time;
      if s.quartets.haveQRT {
        TrackedStep(src, jitter, true, s, now, events[count - 1]);
      } else {
        SearchingStep(src, jitter, s, now, events[count - 1]);
      }
    } else {
      assert StateAfter(src, events, 0) == InitialState();
    }
  }

  /** A decoder that tracks the source and is calibrated stays so, and answers every event correctly. */
  lemma {:induction false} RightForever(src: Source, jitter: real, qrt: bool, events: seq<Event>, from: nat, count: nat)
    requires FaithfulRun(src, jitter, qrt, events) && src.delayQuartets > 0 && 0 < from <= count <= |events|
    requires var s := StateAfter(src, events, from);
             Tracks(src, jitter, qrt, s, events[from - 1].time) && s.clock.evNumCheck == events[from - 1].number
             && Calibrated(s)
    ensures var t := StateAfter(src, events, count);
            && Tracks(src, jitter, qrt, t, events[count - 1].time) && t.clock.evNumCheck == events[count - 1].number
            && Calibrated(t) && (count > from ==> Correct(src, t, events[count - 1]))
    decreases count
  {
    hide Step, Tracks, Correct, Run;
    if count > from {
      RightForever(src, jitter, qrt, events, from, count - 1);
      OneMore(src, events, count - 1);
      TrackedStep(src, jitter, qrt, StateAfter(src, events, count - 1), events[count - 2].time, events[count - 1]);
    }
  }

  /**
   The decoder's promise.  In a run of any length, with any cycles missed and the QRT signal in use,
   once the seed is complete the prediction never fails again: every later MPS event is told
   "unknown", every other event the true helicity of its cycle.
   */
  lemma EndToEnd(src: Source, jitter: real, events: seq<Event>, from: nat, count: nat)
    requires FaithfulRun(src, jitter, true, events) && src.delayQuartets > 0 && from < count <= |events|
    requires StateAfter(src, events, from).quartets.haveQRT && Calibrated(StateAfter(src, events, from))
    ensures Calibrated(StateAfter(src, events, count))
    ensures Correct(src, StateAfter(src, events, count), events[count - 1])
  {
    assert StateAfter(src, events, 0) == InitialState();
    SearchesOrTracks(src, jitter, events, from);
    RightForever(src, jitter, true, events, from, count);
  }

  // ---- how long it takes ----------------------------------------------------------------------------

  /** The cycle of the last non-MPS event after position `from`, or of the event at `from`. */
  function LastPhysicsCycle(events: seq<Event>, from: nat, count: nat): int
    requires from < count <= |events|
  {
    if count == from + 1 || !events[count - 1].isMPS then CycleOf(events[count - 1])
    else LastPhysicsCycle(events, from, count - 1)
  }

  /** From position `from` on, no quartet goes by without an event. */
  predicate NoQuartetSkipped(events: seq<Event>, from: nat) {
    forall k :: from < k < |events| && !events[k].isMPS ==>
      CycleOf(events[k]) / 4 <= LastPhysicsCycle(events, from, k) / 4 + 1
  }

  function BitsAfter(quartets: int): int {
    if quartets < MAXBIT then quartets else MAXBIT
  }

  lemma CountGrows(first: int, before: nat, cycle: nat)
    requires first <= before / 4 <= cycle / 4 <= before / 4 + 1
    ensures NextCount(BitsAfter(before / 4 - first + 1), before, cycle) == BitsAfter(cycle / 4 - first + 1)
  {
  }

  lemma FaithfulPair(src: Source, jitter: real, events: seq<Event>, i: nat)
    requires FaithfulRun(src, jitter, true, events) && 0 < i < |events|
    ensures 0.0 <= jitter < 0.25 && Faithful(src, jitter, true, events[i])
    ensures events[i - 1].time <= events[i].time && events[i].number == events[i - 1].number + 1
  {
  }

  /** The seed has one bit for each quartet since quartet `first`, up to thirty. */
  predicate HasBitsSince(s: State, first: int, cycle: int) {
    && s.quartets.haveQRT && SyncCycle(s.clock) == cycle && first <= cycle / 4
    && s.rings.nBits == BitsAfter(cycle / 4 - first + 1)
  }

  lemma NotSkippedAt(events: seq<Event>, from: nat, k: nat)
    requires NoQuartetSkipped(events, from) && from < k < |events|
    ensures !events[k].isMPS ==> CycleOf(events[k]) / 4 <= LastPhysicsCycle(events, from, k) / 4 + 1
  {
  }

  lemma BitsAreLocked(s: State, first: int, cycle: int)
    requires HasBitsSince(s, first, cycle)
    ensures s.quartets.haveQRT
  {
  }

  lemma AcquisitionStep(src: Source, jitter: real, s: State, now: real, ev: Event, first: int, cycle: int)
    requires 0.0 <= jitter < 0.25 && src.delayQuartets > 0 && Tracks(src, jitter, true, s, now)
    requires Faithful(src, jitter, true, ev) && now <= ev.time && ev.number == s.clock.evNumCheck + 1
    requires HasBitsSince(s, first, cycle) && (!ev.isMPS ==> CycleOf(ev) / 4 <= cycle / 4 + 1)
    ensures HasBitsSince(Step(s, ev, Delay(src)), first, if ev.isMPS then cycle else CycleOf(ev))
  {
    hide Step, SeedsTrack, PatternTracks, NextCount, Correct;
    TrackedStep(src, jitter, true, s, now, ev);
    if !ev.isMPS {
      MissedCounted(s.clock, jitter, now, ev, src, true);
      CountGrows(first, cycle, CycleOf(ev));
    }
  }

  lemma FirstBitStep(src: Source, jitter: real, s: State, now: real, ev: Event)
    requires 0.0 <= jitter < 0.25 && src.delayQuartets > 0 && Searching(jitter, s, now) && LocksOn(s, ev)
    requires Faithful(src, jitter, true, ev) && now <= ev.time && ev.number == s.clock.evNumCheck + 1
    ensures HasBitsSince(Step(s, ev, Delay(src)), CycleOf(ev) / 4, CycleOf(ev))
  {
    hide Step, SeedsTrack;
    SearchingStep(src, jitter, s, now, ev);
  }

  /**
   The event at `from` locks on.  Then the seed has one bit for each quartet since, and is complete
   after thirty.
   */
  lemma {:induction false} CalibratesInThirtyQuartets(src: Source, jitter: real, events: seq<Event>, from: nat,
                                                      count: nat)
    requires FaithfulRun(src, jitter, true, events) && src.delayQuartets > 0 && 0 < from < count <= |events|
    requires !StateAfter(src, events, from).quartets.haveQRT && LocksOn(StateAfter(src, events, from), events[from])
    requires NoQuartetSkipped(events, from)
    ensures HasBitsSince(StateAfter(src, events, count), CycleOf(events[from]) / 4,
                         LastPhysicsCycle(events, from, count))
    decreases count
  {
    hide Step, Run, FaithfulRun, Searching, Faithful, Tracks, HasBitsSince, LocksOn, NoQuartetSkipped;
    OneMore(src, events, count - 1);
    SearchesOrTracks(src, jitter, events, count - 1);
    FaithfulPair(src, jitter, events, count - 1);
    var s, now := StateAfter(src, events, count - 1), events[count - 2].time;
    if count == from + 1 {
      FirstBitStep(src, jitter, s, now, events[from]);
    } else {
      CalibratesInThirtyQuartets(src, jitter, events, from, count - 1);
      var cycle := LastPhysicsCycle(events, from, count - 1);
      BitsAreLocked(s, CycleOf(events[from]) / 4, cycle);
      NotSkippedAt(events, from, count - 1);
      AcquisitionStep(src, jitter, s, now, events[count - 1], CycleOf(events[from]) / 4, cycle);
    }
  }
}
