/**
 What the decoder does outside of a regular delayed run: without a delay, after a gap in the event
 numbers, when a report contradicts the prediction, when the QRT signal comes out of phase, and with a
 seed from the scalers.
 */
module HelicityFaults {
  import opened Basics
  import opened Lfsr
  import opened HelicityState
  import opened HelicityRuns
  import opened HelicitySource

  // ---- no delay -----------------------------------------------------------------------------------------

  /** Without a delay every event is told what its two signals say, whatever came before. */
  lemma ReportedAtOnce(events: seq<Event>)
    requires events != []
    ensures var ev, actual := events[|events| - 1], Run(events, 0).out.actual;
            && (ev.isMPS ==> actual == 0)
            && (!ev.isMPS ==>
                  && (actual == 1 <==> ev.isHelp && !ev.isHelm)
                  && (actual == -1 <==> ev.isHelm && !ev.isHelp)
                  && (actual == 0 <==> ev.isHelp == ev.isHelm))
  {
  }

  /** When the source is reported without delay, every event gets the true helicity of its cycle. */
  lemma TrueAtOnce(src: Source, jitter: real, qrt: bool, events: seq<Event>, count: nat)
    requires FaithfulRun(src, jitter, qrt, events) && src.delayQuartets == 0 && 0 < count <= |events|
    ensures var ev := events[count - 1];
            && CycleOf(ev) >= 0
            && StateAfter(src, events, count).out.actual
               == if ev.isMPS then 0 else TrueHelicity(src, CycleOf(ev))
  {
    assert events[..count] != [] && events[..count][count - 1] == events[count - 1];
    hide TrueHelicity;
  }

  // ---- event numbers ---------------------------------------------------------------------------------------

  /** Each event number follows the one before it; after number 0 any number does. */
  predicate NumbersFollow(events: seq<Event>) {
    forall i :: 0 < i < |events| ==>
      events[i].number == events[i - 1].number + 1 || events[i - 1].number == 0
  }

  /** The decoder is disabled from the first gap in the event numbers on, and only then. */
  lemma {:induction false} DisabledIff(events: seq<Event>, delay: int)
    requires delay != 0
    ensures Run(events, delay).clock.disabled <==> !NumbersFollow(events)
    ensures events != [] && NumbersFollow(events) ==>
              Run(events, delay).clock.evNumCheck == events[|events| - 1].number
  {
    if events != [] {
      var front, last := events[..|events| - 1], events[|events| - 1];
      DisabledIff(front, delay);
      NumbersOneMore(events);
      NumberStep(Run(front, delay), last, delay);
    }
  }

  lemma NumbersOneMore(events: seq<Event>)
    requires events != []
    ensures var front, last := events[..|events| - 1], events[|events| - 1];
            NumbersFollow(events)
            <==> NumbersFollow(front)
                 && (front == [] || last.number == front[|front| - 1].number + 1 || front[|front| - 1].number == 0)
  {
    var front := events[..|events| - 1];
    assert forall i :: 0 <= i < |front| ==> front[i] == events[i];
  }

  lemma NumberStep(s: State, ev: Event, delay: int)
    requires delay != 0
    ensures var t := Step(s, ev, delay);
            && (t.clock.disabled <==> s.clock.disabled
                                      || (s.clock.evNumCheck != 0 && ev.number != s.clock.evNumCheck + 1))
            && (!t.clock.disabled ==> t.clock.evNumCheck == ev.number)
  {
    hide FindPhase, LoadRings, LoadOutput, OverGap;
  }

  /** From the gap on every event is told that its helicity is not known. */
  lemma UnknownAfterGap(events: seq<Event>, delay: int)
    requires delay != 0 && !NumbersFollow(events)
    ensures Run(events, delay).out.actual == 0
  {
    DisabledIff(events, delay);
    var front, last := events[..|events| - 1], events[|events| - 1];
    DisabledUnknown(Run(front, delay), last, delay);
  }

  lemma DisabledUnknown(s: State, ev: Event, delay: int)
    requires delay != 0
    ensures Step(s, ev, delay).clock.disabled ==> Step(s, ev, delay).out.actual == 0
  {
    hide FindPhase, LoadRings, LoadOutput, OverGap;
  }

  // ---- a report that contradicts the prediction ------------------------------------------------------------

  /** The event with its two helicity signals exchanged. */
  function Contradicted(ev: Event): Event {
    ev.(isHelp := ev.isHelm, isHelm := ev.isHelp)
  }

  /**
   A calibrated decoder notices a false report in the first cycle of a quartet: it throws its bits away
   and calls the helicity of the event unknown.
   */
  lemma FalseReportNoticed(src: Source, jitter: real, s: State, now: real, ev: Event)
    requires 0.0 <= jitter < 0.25 && src.delayQuartets > 0 && Tracks(src, jitter, true, s, now) && Calibrated(s)
    requires !ev.isMPS && Faithful(src, jitter, true, ev) && now <= ev.time && ev.number == s.clock.evNumCheck + 1
    requires CycleOf(ev) == SyncCycle(s.clock) + 1 && CycleOf(ev) % 4 == 0
    ensures var t := Step(s, Contradicted(ev), Delay(src));
            t.rings.nBits == 0 && t.out.actual == 0
  {
    hide Advance, ReportedHelicity, PatternTracks, HoldsBits;
    var before, cycle, wrong := SyncCycle(s.clock), CycleOf(ev), Contradicted(ev);
    BitShown(src, cycle, ReportedHelicity(src, cycle));
    NumberAccepted(s, wrong, Delay(src));
    var active := Counted(s, wrong);
    MissedCounted(active.clock, jitter, now, ev, src, true);
    assert CatchUp(active, wrong.time).quartets == s.quartets;
    ReportIsOwnQuartets(src, cycle);
    NextRegister(src, before / 4 - src.delayQuartets);
  }

  lemma NextRegister(src: Source, quartet: nat)
    ensures QuartetRegister(src, quartet + 1) == RanBit30(QuartetRegister(src, quartet))
  {
  }

  /** A new cycle whose report is unknown, while bits are collected: they are thrown away. */
  lemma UnknownReportForgets(q: Quartets, r: Rings, delay: int, scalerSeed: Option<Register>)
    requires q.foundQuartet && 0 <= r.nBits < MAXBIT && q.nQuartet != q.nLastQuartet
    ensures LoadRings(q, r, UNKNOWN, delay, scalerSeed).nBits == 0
  {
  }

  // ---- the QRT signal out of phase ---------------------------------------------------------------------------

  /** The signal comes in a cycle that is not the first of a quartet, as the decoder counts. */
  predicate OutOfPhase(q: Quartets) {
    q.haveQRT && q.firstCycle <= q.nCycle && (q.nCycle - q.firstCycle) % 4 != 0
  }

  /** n cycles with the signal, each out of phase: the state before the next. */
  predicate InARow(qs: seq<Quartets>, n: nat) {
    && |qs| == n + 1 && qs[0].nQRTProblems == 0
    && forall k :: 0 <= k < n ==>
         OutOfPhase(qs[k]) && qs[k + 1].haveQRT == FindPhase(qs[k], true).quartets.haveQRT
         && qs[k + 1].nQRTProblems == FindPhase(qs[k], true).quartets.nQRTProblems
  }

  /** Ten signals in a row that come out of phase are tolerated ... */
  lemma {:induction false} TenTolerated(qs: seq<Quartets>, n: nat)
    requires InARow(qs, n) && n <= 10
    ensures qs[n].nQRTProblems == n
    ensures forall k :: 0 <= k < n ==>
              !FindPhase(qs[k], true).resetBits && FindPhase(qs[k], true).quartets.firstCycle == qs[k].firstCycle
  {
    if n > 0 {
      assert forall k :: 0 <= k < n ==> qs[..n][k] == qs[k];
      TenTolerated(qs[..n], n - 1);
    }
  }

  /** ... and the eleventh is taken for the first cycle of a quartet; the bits are thrown away. */
  lemma EleventhRelocks(qs: seq<Quartets>)
    requires InARow(qs, 10) && OutOfPhase(qs[10])
    ensures var after := FindPhase(qs[10], true);
            && after.resetBits && after.quartets.foundQuartet && after.quartets.haveQRT
            && after.quartets.firstCycle == qs[10].nCycle && after.quartets.nQRTProblems == 0
  {
    TenTolerated(qs, 10);
  }

  /**
   In phase the signal clears the problems.  Where it is missing in the first cycle of a quartet that is a
   problem as well, and the eleventh makes the decoder wait for the next signal.
   */
  lemma MissingSignal(q: Quartets)
    requires q.haveQRT && q.firstCycle <= q.nCycle && (q.nCycle - q.firstCycle) % 4 == 0
    ensures FindPhase(q, true).quartets.nQRTProblems == 0 && !FindPhase(q, true).resetBits
    ensures FindPhase(q, false).quartets.haveQRT <==> q.nQRTProblems < 10
    ensures FindPhase(q, false).resetBits <==> q.nQRTProblems >= 10
    ensures FindPhase(q, false).quartets.nQRTProblems == q.nQRTProblems + 1
  {
  }

  // ---- a seed from the scalers -------------------------------------------------------------------------------

  /**
   With two bits collected, the scalers' seed, when it is the register of the quartet before the reported
   one, completes the decoder's: it has the source's registers from the third bit on.
   */
  lemma ScalerSeedCompletes(src: Source, r: Rings, quartet: nat, reported: int, phase: int)
    requires src.delayQuartets > 0 && quartet > src.delayQuartets && 2 <= r.nBits < MAXBIT - 1
    requires reported == PLUS || reported == MINUS
    ensures var seed := QuartetRegister(src, quartet - 1 - src.delayQuartets);
            var after := AcquireBit(r, reported, phase, Delay(src), Some(seed));
            after.nBits == MAXBIT && SeedsTrack(src, after, quartet)
  {
    hide RanBit30;
    NextRegister(src, quartet - 1 - src.delayQuartets);
    AdvanceAdds(src.start, quartet - src.delayQuartets, src.delayQuartets);
  }

  /** Before, it is not used. */
  lemma ScalerSeedLater(r: Rings, reported: int, phase: int, delay: int, seed: Register)
    requires 0 <= r.nBits < 2 && reported != UNKNOWN
    ensures AcquireBit(r, reported, phase, delay, Some(seed)).nBits == r.nBits + 1
  {
  }

  // ---- the position in the quartet -------------------------------------------------------------------------

  /** Entering a cycle reports the phase of the quartets as they are numbered then. */
  lemma PhaseOfNewCycle(s: State, ev: Event, delay: int)
    ensures NewCycle(s, ev, delay).out.nQrt == Phase(NewCycle(s, ev, delay).quartets)
  {
    hide FindPhase, LoadRings, EnterCycle;
  }

  lemma CatchUpKeeps(s: State, time: real)
    ensures CatchUp(s, time).out.nQrt == s.out.nQrt
    ensures CatchUp(s, time).clock.isNewCycle <==> s.clock.isNewCycle || Missed(s.clock, time) >= 1
  {
    hide Missed, SkipQuartets, AdvanceRings, Refresh;
  }

  /** While the decoder tracks the source, every event is told the place of its cycle in its quartet. */
  lemma PlaceInQuartet(src: Source, jitter: real, qrt: bool, s: State, now: real, ev: Event)
    requires 0.0 <= jitter < 0.25 && src.delayQuartets > 0 && Tracks(src, jitter, qrt, s, now)
    requires Faithful(src, jitter, qrt, ev) && now <= ev.time && ev.number == s.clock.evNumCheck + 1 && !ev.isMPS
    requires CycleOf(ev) == SyncCycle(s.clock) ==> s.out.nQrt == CycleOf(ev) % 4
    ensures Step(s, ev, Delay(src)).out.nQrt == CycleOf(ev) % 4
  {
    hide SeedsTrack, PatternTracks, CatchUp, NewCycle, MPSClock, Missed;
    NumberAccepted(s, ev, Delay(src));
    var active := Counted(s, ev);
    MissedCounted(active.clock, jitter, now, ev, src, qrt);
    CatchUpKeeps(active, ev.time);
    PhaseOfNewCycle(CatchUp(active, ev.time), ev, Delay(src));
    TrackedStep(src, jitter, qrt, s, now, ev);
  }

  // ---- the clock -------------------------------------------------------------------------------------------

  /**
   An MPS event moves the clock by a quarter of a period at most; one that comes more than half a period
   before the clock sets it back to within a quarter of the event.  Less than half a period after the
   clock it is the same MPS, and a cycle begins.
   */
  lemma ClockMovesLittle(c: Clock, time: real)
    requires c.foundMPS
    ensures var after := MPSClock(c, time);
            && (time >= c.lastMPSTime - 0.5 ==> Abs(after.lastMPSTime - c.lastMPSTime) <= 0.25)
            && (time < c.lastMPSTime - 0.5 ==> Abs(after.lastMPSTime - time) <= 0.25)
            && (time < c.lastMPSTime + 0.5 ==> after.isNewCycle)
            && (time > c.lastMPSTime + 0.5 ==> after.isNewCycle == c.isNewCycle)
  {
  }

  /** While the clock follows the source, its error becomes the mean of its own and the event's. */
  lemma ErrorIsMean(c: Clock, jitter: real, now: real, ev: Event, src: Source, qrt: bool)
    requires 0.0 <= jitter < 0.25 && ClockTracks(c, jitter, now) && c.foundMPS
    requires ev.isMPS && Faithful(src, jitter, qrt, ev) && now <= ev.time
    ensures var error, late := c.lastMPSTime - SyncCycle(c) as real, ev.time - CycleOf(ev) as real;
            MPSClock(c, ev.time).lastMPSTime - SyncCycle(c) as real == (error + late) / 2.0
  {
    var missed := CycleOf(ev) - SyncCycle(c);
    assert Nint(ev.time - c.lastMPSTime) == missed;
  }

  /** So many cycles or more went by; exactly one period is not one yet. */
  lemma MissedIff(c: Clock, time: real, n: int)
    requires n >= 1
    ensures Missed(c, time) >= n
            <==> if n == 1 then time > c.lastMPSTime + 1.0 else time >= c.lastMPSTime + n as real
  {
  }
}
