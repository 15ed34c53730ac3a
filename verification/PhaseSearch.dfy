/**
 Where the search for the quartets ends, in runs without the QRT signal.  The decoder tests the last
 four reports once in what it takes for a quartet; a test that fails moves the phase by one cycle.
 The reports of two quartets with the same bit can pass in the wrong place; a quartet whose bit
 differs from the one before, with an event in every cycle, leaves the right phase behind.
 */
module PhaseSearch {
  import opened Basics
  import opened Lfsr
  import opened HelicityState
  import opened HelicityRuns
  import opened HelicitySource
  import opened HelicityPattern

  /** The bit of a quartet, as it is reported. */
  function QuartetSign(src: Source, quartet: int): int
    requires quartet >= src.delayQuartets
  {
    Sign(QuartetRegister(src, quartet - src.delayQuartets))
  }

  /** The quartet has the bit of the one before. */
  predicate Repeats(src: Source, quartet: int) {
    quartet > src.delayQuartets && QuartetSign(src, quartet) == QuartetSign(src, quartet - 1)
  }

  /** The bit changes at the quartet. */
  predicate BitChanges(src: Source, quartet: int) {
    quartet > src.delayQuartets && QuartetSign(src, quartet) != QuartetSign(src, quartet - 1)
  }

  // ---- one test ---------------------------------------------------------------------------------------

  /** The recent pattern has the reports of this cycle and of the n before it. */
  predicate HoldsReports(src: Source, p: Pattern, cycle: int, n: int) {
    && 0 <= n <= 3 && cycle - n >= Delay(src)
    && p.q0 == ReportedHelicity(src, cycle)
    && (n >= 1 ==> p.q1 == ReportedHelicity(src, cycle - 1))
    && (n >= 2 ==> p.q2 == ReportedHelicity(src, cycle - 2))
    && (n >= 3 ==> p.q3 == ReportedHelicity(src, cycle - 3))
  }

  /** Four reports in a row pass: those of a quartet, or the middle ones of two quartets with the same bit. */
  predicate Passes(src: Source, cycle: int) {
    cycle % 4 == 3 || (cycle % 4 == 1 && Repeats(src, cycle / 4))
  }

  /** The report in terms of the quartet's bit. */
  lemma ReportIs(src: Source, cycle: int)
    requires cycle >= Delay(src)
    ensures cycle / 4 >= src.delayQuartets
    ensures ReportedHelicity(src, cycle) == InPhase(cycle % 4, QuartetSign(src, cycle / 4))
    ensures QuartetSign(src, cycle / 4) == 1 || QuartetSign(src, cycle / 4) == -1
  {
    hide Advance;
    ReportIsOwnQuartets(src, cycle);
  }

  lemma FourReports(src: Source, p: Pattern, cycle: int)
    requires HoldsReports(src, p, cycle, 3)
    ensures IntAbs(PatternSum(p)) == 4 <==> Passes(src, cycle)
  {
    hide ReportedHelicity, QuartetSign;
    ReportIs(src, cycle);
    ReportIs(src, cycle - 1);
    ReportIs(src, cycle - 2);
    ReportIs(src, cycle - 3);
  }

  /**
   An idle decoder that makes its test with the last four reports finds the quartets exactly when they
   pass, and finds the right phase exactly in the last cycle of a quartet.
   */
  lemma FindsIff(src: Source, s: State, cycle: nat, ev: Event)
    requires Plain(src, s, cycle, ev) && Idle(s.quartets, s.rings)
    requires var q := EnterCycle(s.quartets, s.out.reported);
             Phase(q) == 3 && HoldsReports(src, q.recent, cycle, 3)
    ensures var t := NewCycle(s, ev, Delay(src));
            && (t.quartets.foundQuartet <==> Passes(src, cycle))
            && (t.quartets.foundQuartet && InStep(t.quartets, cycle) <==> cycle % 4 == 3)
  {
    hide HoldsReports, Passes, Settled, LoadRings, LoadOutput;
    var q := EnterCycle(s.quartets, s.out.reported);
    IdleCycle(src, s, cycle, ev);
    FourReports(src, q.recent, cycle);
    AlwaysAtEnd(src, cycle);
    PhaseKeepsOrder(q, false);
    AtLastPhase(q, cycle);
  }

  lemma AlwaysAtEnd(src: Source, cycle: int)
    ensures cycle % 4 == 3 ==> Passes(src, cycle)
  {
  }

  lemma AtLastPhase(q: Quartets, cycle: int)
    requires q.firstCycle <= q.nCycle && Phase(q) == 3
    ensures InStep(q, cycle) <==> cycle % 4 == 3
  {
  }

  // ---- a quartet whose bit differs -------------------------------------------------------------------------

  /** The quartet state one cycle on, the source's report being entered. */
  function OneCycle(src: Source, q: Quartets, cycle: int): Quartets
    requires cycle >= Delay(src)
  {
    FindPhase(EnterCycle(q, ReportedHelicity(src, cycle)), false).quartets
  }

  /** A state of the search: the signal was not seen, and the count has begun. */
  predicate Searches(q: Quartets) {
    !q.haveQRT && q.firstCycle <= q.nCycle
  }

  /** By how many cycles the decoder's phase is ahead of the source's. */
  function Ahead(q: Quartets, cycle: int): (n: int)
    ensures 0 <= n < 4
  {
    (q.nCycle - q.firstCycle - cycle) % 4
  }

  /** A test that fails moves the phase back by one; other cycles leave it. */
  lemma TestMoves(src: Source, q: Quartets, cycle: int)
    requires Searches(q) && cycle >= Delay(src)
    ensures var t, entered := OneCycle(src, q, cycle), EnterCycle(q, ReportedHelicity(src, cycle));
            && Searches(t) && t.recent == entered.recent && t.nCycle == q.nCycle + 1
            && (Phase(entered) == 3 <==> (cycle + Ahead(q, cycle - 1)) % 4 == 3)
            && (if Phase(entered) != 3 then t.foundQuartet == q.foundQuartet && Ahead(t, cycle) == Ahead(q, cycle - 1)
                else if PatternComplete(entered) then t.foundQuartet && Ahead(t, cycle) == Ahead(q, cycle - 1)
                else !t.foundQuartet && Ahead(t, cycle) == (Ahead(q, cycle - 1) + 3) % 4)
  {
    hide ReportedHelicity, PatternSum;
    var entered := EnterCycle(q, ReportedHelicity(src, cycle));
    PhaseKeepsOrder(entered, false);
    RecentKept(entered, false);
    PhaseAhead(entered, cycle);
    SameAhead(q, entered, cycle);
    if Phase(entered) == 3 && !PatternComplete(entered) {
      MovedBack(entered, cycle);
    }
  }

  lemma PhaseAhead(q: Quartets, cycle: int)
    requires q.firstCycle <= q.nCycle
    ensures Phase(q) == (cycle + Ahead(q, cycle)) % 4
  {
  }

  lemma SameAhead(q: Quartets, entered: Quartets, cycle: int)
    requires entered.nCycle == q.nCycle + 1 && entered.firstCycle == q.firstCycle
    ensures Ahead(entered, cycle) == Ahead(q, cycle - 1)
  {
  }

  lemma MovedBack(q: Quartets, cycle: int)
    requires Searches(q) && Phase(q) == 3 && !PatternComplete(q)
    ensures var t := FindPhase(q, false).quartets;
            !t.foundQuartet && Ahead(t, cycle) == (Ahead(q, cycle) + 3) % 4
  {
    var n := q.nCycle - q.firstCycle;
    assert n % 4 == 3 && 4 * QuartetNumber(q) == n - 3;
  }

  /** Within a quartet whose bit differs: the test is still to come, and after the last cycle it was passed. */
  predicate Closing(q: Quartets, cycle: int) {
    if cycle % 4 == 3 then q.foundQuartet && Ahead(q, cycle) == 0 else Ahead(q, cycle) <= 2 - cycle % 4
  }

  lemma CloseStep(src: Source, q: Quartets, cycle: int)
    requires Searches(q) && BitChanges(src, cycle / 4) && (cycle % 4 == 0 || Closing(q, cycle - 1))
    requires cycle >= Delay(src) && HoldsReports(src, EnterCycle(q, ReportedHelicity(src, cycle)).recent, cycle, 3)
    ensures var t := OneCycle(src, q, cycle);
            && Searches(t) && Closing(t, cycle)
            && (cycle % 4 < 3 && t.foundQuartet && Ahead(t, cycle) == 0 ==>
                  q.foundQuartet && Ahead(q, cycle - 1) == 0)
            && (cycle % 4 == 3 ==> Ahead(q, cycle - 1) == 0)
  {
    hide ReportedHelicity, OneCycle, HoldsReports, Ahead, Phase;
    var entered := EnterCycle(q, ReportedHelicity(src, cycle));
    TestMoves(src, q, cycle);
    FourReports(src, entered.recent, cycle);
    hide EnterCycle, QuartetSign;
  }

  lemma NextReports(src: Source, q: Quartets, cycle: int, n: int)
    requires HoldsReports(src, q.recent, cycle - 1, n)
    ensures cycle >= Delay(src) && 0 <= n <= 3
    ensures HoldsReports(src, EnterCycle(q, ReportedHelicity(src, cycle)).recent, cycle, if n < 3 then n + 1 else 3)
  {
    hide ReportedHelicity;
  }

  /**
   Whatever the search has found so far, or not: four cycles in a row of a quartet whose bit differs
   from the one before, whose reports the decoder holds, leave the quartets found with the right phase.
   */
  lemma ChangeFinds(src: Source, q: Quartets, quartet: int)
    requires Searches(q) && BitChanges(src, quartet) && HoldsReports(src, q.recent, 4 * quartet - 1, 3)
    ensures 4 * quartet >= Delay(src)
    ensures var q0 := OneCycle(src, q, 4 * quartet);
            var q1 := OneCycle(src, q0, 4 * quartet + 1);
            var q2 := OneCycle(src, q1, 4 * quartet + 2);
            var q3 := OneCycle(src, q2, 4 * quartet + 3);
            q3.foundQuartet && InStep(q3, 4 * quartet + 3)
  {
    hide OneCycle, HoldsReports, BitChanges, Searches, Closing, EnterCycle;
    var first := 4 * quartet;
    NextReports(src, q, first, 3);
    ChangeStep(src, q, first);
    var q0 := OneCycle(src, q, first);
    ChangeStep(src, q0, first + 1);
    var q1 := OneCycle(src, q0, first + 1);
    ChangeStep(src, q1, first + 2);
    var q2 := OneCycle(src, q1, first + 2);
    ChangeStep(src, q2, first + 3);
    ClosedRight(OneCycle(src, q2, first + 3), first + 3);
  }

  lemma ChangeStep(src: Source, q: Quartets, cycle: int)
    requires Searches(q) && BitChanges(src, cycle / 4) && (cycle % 4 == 0 || Closing(q, cycle - 1))
    requires HoldsReports(src, q.recent, cycle - 1, 3)
    ensures cycle >= Delay(src)
    ensures var t := OneCycle(src, q, cycle);
            Searches(t) && Closing(t, cycle) && HoldsReports(src, t.recent, cycle, 3)
  {
    hide OneCycle, HoldsReports, BitChanges, Searches, Closing, EnterCycle;
    NextReports(src, q, cycle, 3);
    CloseStep(src, q, cycle);
    TestMoves(src, q, cycle);
  }

  lemma ClosedRight(q: Quartets, cycle: int)
    requires Closing(q, cycle) && cycle % 4 == 3
    ensures q.foundQuartet && InStep(q, cycle)
  {
  }

  // ---- whole runs ---------------------------------------------------------------------------------------------

  /** An event after this one has set the clock: it comes in a later cycle than an MPS event that is not the first. */
  predicate Underway(events: seq<Event>, mps: nat, from: nat) {
    && 0 < mps < from < |events| && events[mps].isMPS && !events[from].isMPS
    && CycleOf(events[mps]) < CycleOf(events[from])
  }

  /** The clock runs; in a cycle later than `cycle` the event's report has been read. */
  predicate Started(src: Source, jitter: real, s: State, now: real, cycle: int) {
    && s.clock.foundMPS
    && (SyncCycle(s.clock) <= cycle
        || (InCycle(src, jitter, s.clock, now) && HoldsReports(src, s.quartets.recent, SyncCycle(s.clock), 0)))
  }

  /** An MPS event leaves a cycle that was entered as it is. */
  lemma MPSInCycle(src: Source, jitter: real, s: State, now: real, ev: Event)
    requires 0.0 <= jitter < 0.25 && src.delayQuartets > 0 && InCycle(src, jitter, s.clock, now) && ev.isMPS
    requires Faithful(src, jitter, false, ev) && now <= ev.time && ev.number == s.clock.evNumCheck + 1
    ensures var t := Step(s, ev, Delay(src));
            && InCycle(src, jitter, t.clock, ev.time) && SyncCycle(t.clock) == SyncCycle(s.clock)
            && t.quartets == s.quartets && t.rings == s.rings
  {
    hide MPSClock, PhysicsEvent;
    NumberAccepted(s, ev, Delay(src));
    MPSCounted(s.clock, jitter, now, ev, src, false);
    MPSCounted(Counted(s, ev).clock, jitter, now, ev, src, false);
  }

  /** A later cycle is entered by an event that is not MPS. */
  lemma LaterEntered(src: Source, jitter: real, s: State, now: real, ev: Event)
    requires 0.0 <= jitter < 0.25 && ClockTracks(s.clock, jitter, now) && s.clock.foundMPS
    requires s.out.reported == ReportedOf(ev) && CycleOf(ev) > SyncCycle(s.clock)
    requires !ev.isMPS && Faithful(src, jitter, false, ev) && now <= ev.time
    ensures var t := PhysicsEvent(s, ev, Delay(src));
            && InCycle(src, jitter, t.clock, ev.time) && SyncCycle(t.clock) == CycleOf(ev)
            && HoldsReports(src, t.quartets.recent, CycleOf(ev), 0)
            && (CycleOf(ev) == SyncCycle(s.clock) + 1 ==> t.quartets == OneCycle(src, s.quartets, CycleOf(ev)))
  {
    hide CatchUp, FindPhase, ReportedHelicity, LoadRings, LoadOutput, SkipQuartets;
    Caught(src, jitter, s, now, ev);
    RecentKept(EnterCycle(CatchUp(s, ev.time).quartets, s.out.reported), false);
  }

  /** The events of a run, as far as one step needs them. */
  predicate NextEvent(src: Source, jitter: real, s: State, now: real, ev: Event) {
    && 0.0 <= jitter < 0.25 && src.delayQuartets > 0 && Hunts(src, jitter, s, now) && 0 <= s.rings.nBits <= MAXBIT
    && Faithful(src, jitter, false, ev) && now <= ev.time && ev.number == s.clock.evNumCheck + 1
  }

  lemma NextOfRun(src: Source, jitter: real, events: seq<Event>, i: nat)
    requires FaithfulRun(src, jitter, false, events) && src.delayQuartets > 0 && 0 < i < |events|
    ensures NextEvent(src, jitter, StateAfter(src, events, i), events[i - 1].time, events[i])
    ensures StateAfter(src, events, i + 1) == Step(StateAfter(src, events, i), events[i], Delay(src))
  {
    hide Hunts, Faithful, FaithfulRun, Run, Step;
    HuntsAlways(src, jitter, events, i);
    BitsInRange(src, events, i);
    FaithfulNext(src, jitter, events, i);
    OneMore(src, events, i);
  }

  lemma ClockSet(src: Source, jitter: real, s: State, now: real, ev: Event)
    requires NextEvent(src, jitter, s, now, ev) && ev.isMPS
    ensures Started(src, jitter, Step(s, ev, Delay(src)), ev.time, CycleOf(ev))
  {
    hide PhysicsEvent, Gathers, Small, Idle, Settled;
    NumberAccepted(s, ev, Delay(src));
    MPSCounted(Counted(s, ev).clock, jitter, now, ev, src, false);
  }

  lemma StartedStep(src: Source, jitter: real, s: State, now: real, ev: Event, cycle: int)
    requires NextEvent(src, jitter, s, now, ev) && Started(src, jitter, s, now, cycle)
    ensures var t := Step(s, ev, Delay(src));
            && Started(src, jitter, t, ev.time, cycle) && (!ev.isMPS ==> SyncCycle(t.clock) == CycleOf(ev))
  {
    hide PhysicsEvent, Gathers, Small, Idle, Settled, MPSClock, HoldsReports, Faithful;
    HuntStep(src, jitter, s, now, ev);
    NumberAccepted(s, ev, Delay(src));
    if ev.isMPS {
      MPSCounted(Counted(s, ev).clock, jitter, now, ev, src, false);
      if SyncCycle(s.clock) > cycle {
        MPSInCycle(src, jitter, s, now, ev);
      }
    } else {
      StartedPhysics(src, jitter, Counted(s, ev), now, ev, cycle);
    }
  }

  lemma StartedPhysics(src: Source, jitter: real, s: State, now: real, ev: Event, cycle: int)
    requires 0.0 <= jitter < 0.25 && Hunts(src, jitter, s, now) && Started(src, jitter, s, now, cycle)
    requires s.out.reported == ReportedOf(ev) && 0 <= s.rings.nBits <= MAXBIT
    requires !ev.isMPS && Faithful(src, jitter, false, ev) && now <= ev.time
    ensures Started(src, jitter, PhysicsEvent(s, ev, Delay(src)), ev.time, cycle)
  {
    hide Gathers, Small, Idle, Settled, HoldsReports, PhysicsEvent;
    MissedCounted(s.clock, jitter, now, ev, src, false);
    StaysFound(s, ev, Delay(src));
    Caught(src, jitter, s, now, ev);
    if CycleOf(ev) > SyncCycle(s.clock) {
      LaterEntered(src, jitter, s, now, ev);
    } else if SyncCycle(s.clock) > cycle {
      SameCycleHunts(src, jitter, s, now, ev);
    } else {
      SameSync(src, jitter, s, now, ev);
    }
  }

  lemma StaysFound(s: State, ev: Event, delay: int)
    ensures PhysicsEvent(s, ev, delay).clock.foundMPS == s.clock.foundMPS
  {
  }

  lemma SameSync(src: Source, jitter: real, s: State, now: real, ev: Event)
    requires 0.0 <= jitter < 0.25 && ClockTracks(s.clock, jitter, now) && s.clock.foundMPS
    requires !ev.isMPS && Faithful(src, jitter, false, ev) && now <= ev.time && CycleOf(ev) == SyncCycle(s.clock)
    ensures SyncCycle(PhysicsEvent(s, ev, Delay(src)).clock) == SyncCycle(s.clock)
  {
    Caught(src, jitter, s, now, ev);
    hide CatchUp, FindPhase, LoadRings, LoadOutput;
  }

  /** Once the clock is set, a cycle that an event other than MPS comes in has been entered. */
  lemma {:induction false} StartedAlways(src: Source, jitter: real, events: seq<Event>, mps: nat, count: nat)
    requires FaithfulRun(src, jitter, false, events) && src.delayQuartets > 0
    requires 0 < mps < count <= |events| && events[mps].isMPS
    ensures var s, last := StateAfter(src, events, count), events[count - 1];
            && Started(src, jitter, s, last.time, CycleOf(events[mps]))
            && (count > mps + 1 && !last.isMPS ==> SyncCycle(s.clock) == CycleOf(last))
  {
    hide Started, NextEvent, FaithfulRun, Step, Run;
    NextOfRun(src, jitter, events, count - 1);
    if count == mps + 1 {
      ClockSet(src, jitter, StateAfter(src, events, mps), events[mps - 1].time, events[mps]);
    } else {
      StartedAlways(src, jitter, events, mps, count - 1);
      StartedStep(src, jitter, StateAfter(src, events, count - 1), events[count - 2].time, events[count - 1],
                  CycleOf(events[mps]));
    }
  }

  /** The decoder is in this cycle and holds its report and those before it from cycle `first` on, up to four. */
  predicate HeldAt(src: Source, jitter: real, s: State, now: real, first: int, cycle: int) {
    && InCycle(src, jitter, s.clock, now) && SyncCycle(s.clock) == cycle && first <= cycle
    && HoldsReports(src, s.quartets.recent, cycle, if cycle - first < 3 then cycle - first else 3)
  }

  lemma HeldStep(src: Source, jitter: real, s: State, now: real, ev: Event, first: int, cycle: int)
    requires NextEvent(src, jitter, s, now, ev) && HeldAt(src, jitter, s, now, first, cycle)
    requires !ev.isMPS ==> CycleOf(ev) <= cycle + 1
    ensures var t := Step(s, ev, Delay(src));
            && HeldAt(src, jitter, t, ev.time, first, if ev.isMPS then cycle else CycleOf(ev))
            && (ev.isMPS || CycleOf(ev) == cycle ==> t.quartets == s.quartets && t.rings.nBits == s.rings.nBits)
            && (!ev.isMPS && CycleOf(ev) == cycle + 1 ==>
                  t.quartets == OneCycle(src, s.quartets, cycle + 1)
                  && t == PhysicsEvent(Counted(s, ev), ev, Delay(src)))
  {
    hide PhysicsEvent, Gathers, Small, Idle, Settled, HoldsReports, Faithful, OneCycle, EnterCycle;
    HuntStep(src, jitter, s, now, ev);
    if ev.isMPS {
      MPSInCycle(src, jitter, s, now, ev);
    } else {
      MissedCounted(s.clock, jitter, now, ev, src, false);
      if CycleOf(ev) == cycle {
        SameCycleHunts(src, jitter, Counted(s, ev), now, ev);
      } else {
        LaterEntered(src, jitter, Counted(s, ev), now, ev);
        NextReports(src, s.quartets, cycle + 1, if cycle - first < 3 then cycle - first else 3);
        RecentOneOn(src, s.quartets, cycle + 1);
      }
    }
  }

  lemma RecentOneOn(src: Source, q: Quartets, cycle: int)
    requires cycle >= Delay(src)
    ensures OneCycle(src, q, cycle).recent == EnterCycle(q, ReportedHelicity(src, cycle)).recent
  {
    RecentKept(EnterCycle(q, ReportedHelicity(src, cycle)), false);
  }

  /** With no cycle skipped from `from` on, the decoder holds the reports. */
  lemma {:induction false} HeldAlways(src: Source, jitter: real, events: seq<Event>, mps: nat, from: nat, count: nat)
    requires FaithfulRun(src, jitter, false, events) && src.delayQuartets > 0 && from < count <= |events|
    requires Underway(events, mps, from) && NoCycleSkipped(events, from)
    ensures HeldAt(src, jitter, StateAfter(src, events, count), events[count - 1].time, CycleOf(events[from]),
                   LastPhysicsCycle(events, from, count))
    decreases count
  {
    hide Step, Run, FaithfulRun, NextEvent, HeldAt, NoCycleSkipped;
    if count == from + 1 {
      StartedAlways(src, jitter, events, mps, count);
      HeldFirst(src, jitter, StateAfter(src, events, count), events[from].time, CycleOf(events[mps]),
                CycleOf(events[from]));
    } else {
      HeldAlways(src, jitter, events, mps, from, count - 1);
      NextOfRun(src, jitter, events, count - 1);
      CyclesAt(events, from, count - 1);
      HeldStep(src, jitter, StateAfter(src, events, count - 1), events[count - 2].time, events[count - 1],
               CycleOf(events[from]), LastPhysicsCycle(events, from, count - 1));
    }
  }

  lemma HeldFirst(src: Source, jitter: real, s: State, now: real, cycle: int, first: int)
    requires Started(src, jitter, s, now, cycle) && SyncCycle(s.clock) == first > cycle
    ensures HeldAt(src, jitter, s, now, first, first)
  {
    hide HoldsReports;
  }

  /** The event enters the next cycle, after three others without a gap, and the decoder makes its test. */
  predicate TestedAt(src: Source, events: seq<Event>, from: nat, k: nat) {
    && from < k < |events| && !events[k].isMPS
    && CycleOf(events[k]) == LastPhysicsCycle(events, from, k) + 1 >= CycleOf(events[from]) + 3
    && Phase(EnterCycle(StateAfter(src, events, k).quartets, 0)) == 3
  }

  /**
   In a faithful run from Init, when the test is made with the reports of four cycles in a row: the
   quartets are found, or stay found, exactly when these pass, and with the right phase exactly in the
   last cycle of a quartet.
   */
  lemma TestedIff(src: Source, jitter: real, events: seq<Event>, mps: nat, from: nat, k: nat)
    requires FaithfulRun(src, jitter, false, events) && src.delayQuartets > 0
    requires Underway(events, mps, from) && NoCycleSkipped(events, from) && TestedAt(src, events, from, k)
    ensures var t, cycle := StateAfter(src, events, k + 1), CycleOf(events[k]);
            && (t.quartets.foundQuartet <==> Passes(src, cycle))
            && (RightPhase(t) <==> cycle % 4 == 3)
  {
    hide Step, Run, FaithfulRun, NextEvent, NoCycleSkipped, Underway, HeldAt, OneCycle, Phase, EnterCycle, Passes;
    var s, cycle := StateAfter(src, events, k), CycleOf(events[k]);
    HeldAlways(src, jitter, events, mps, from, k);
    NextOfRun(src, jitter, events, k);
    HeldStep(src, jitter, s, events[k - 1].time, events[k], CycleOf(events[from]), cycle - 1);
    HeldFour(src, jitter, StateAfter(src, events, k + 1), events[k].time, CycleOf(events[from]), cycle);
    StillSearches(src, jitter, s, events[k - 1].time, events[k]);
    SameCount(s.quartets, 0, ReportedHelicity(src, cycle));
    TestedState(src, s.quartets, cycle);
  }

  lemma HeldFour(src: Source, jitter: real, s: State, now: real, first: int, cycle: int)
    requires HeldAt(src, jitter, s, now, first, cycle) && cycle >= first + 3
    ensures cycle >= Delay(src) && SyncCycle(s.clock) == cycle && HoldsReports(src, s.quartets.recent, cycle, 3)
  {
    hide ReportedHelicity;
  }

  lemma StillSearches(src: Source, jitter: real, s: State, now: real, ev: Event)
    requires NextEvent(src, jitter, s, now, ev)
    ensures Searches(s.quartets)
  {
    hide Small, Gathers, Faithful;
  }

  lemma SameCount(q: Quartets, a: int, b: int)
    ensures Phase(EnterCycle(q, a)) == Phase(EnterCycle(q, b))
  {
  }

  /** The quartet state in which a test was made with four reports in a row. */
  lemma TestedState(src: Source, q: Quartets, cycle: int)
    requires Searches(q) && cycle >= Delay(src) && Phase(EnterCycle(q, ReportedHelicity(src, cycle))) == 3
    requires HoldsReports(src, OneCycle(src, q, cycle).recent, cycle, 3)
    ensures var t := OneCycle(src, q, cycle);
            && (t.foundQuartet <==> Passes(src, cycle))
            && (t.foundQuartet && InStep(t, cycle) <==> cycle % 4 == 3)
  {
    hide OneCycle, Phase, HoldsReports, ReportedHelicity;
    TestMoves(src, q, cycle);
    FourReports(src, EnterCycle(q, ReportedHelicity(src, cycle)).recent, cycle);
    AlwaysAtEnd(src, cycle);
    hide Passes, EnterCycle;
  }

  // ---- from Init to the right phase -----------------------------------------------------------------------

  /** In or after a quartet at which the bit changes: the test is still to come, or the phase is right for good. */
  predicate Settling(src: Source, jitter: real, s: State, now: real, quartet: int, cycle: int) {
    && Searches(s.quartets)
    && (cycle / 4 == quartet ==>
          && Closing(s.quartets, cycle)
          && (s.quartets.foundQuartet && Ahead(s.quartets, cycle) == 0 ==> s.rings.nBits >= 1))
    && (cycle >= 4 * quartet + 3 ==>
          OnPattern(src, jitter, s, now) && s.rings.nBits >= BitsAfter(cycle / 4 - quartet + 1))
  }

  /** A decoder that was in step, or just found the quartets, has taken the quartet's bit. */
  lemma BitTaken(src: Source, jitter: real, s: State, now: real, ev: Event, cycle: int)
    requires NextEvent(src, jitter, s, now, ev) && InCycle(src, jitter, s.clock, now) && SyncCycle(s.clock) == cycle
    requires !ev.isMPS && CycleOf(ev) == cycle + 1
    requires var t := PhysicsEvent(Counted(s, ev), ev, Delay(src));
             t.quartets.foundQuartet && Ahead(t.quartets, cycle + 1) == 0
    requires s.quartets.foundQuartet ==>
               Ahead(s.quartets, cycle) == 0 && (s.rings.nBits >= 1 || (cycle + 1) % 4 == 0)
    ensures PhysicsEvent(Counted(s, ev), ev, Delay(src)).rings.nBits >= 1
  {
    hide PhysicsEvent, Gathers, Small, PatternWillDo, PatternComplete, CatchUp, Faithful, HoldsReports;
    var active := Counted(s, ev);
    if Idle(s.quartets, s.rings) {
      IdleHunts(src, jitter, active, now, ev);
    } else if Calibrated(s) {
      CalibratedCycle(src, jitter, active, now, ev);
    } else {
      GatheringCycle(src, jitter, active, now, ev);
    }
  }

  lemma BitsGrow(first: int, before: nat, cycle: nat, nBits: int)
    requires first <= before / 4 <= cycle / 4 <= before / 4 + 1
    requires BitsAfter(before / 4 - first + 1) <= nBits <= MAXBIT
    ensures NextCount(nBits, before, cycle) >= BitsAfter(cycle / 4 - first + 1)
  {
  }

  /** One event of a run in which no cycle is skipped, from before the quartet on. */
  lemma SettlingStep(src: Source, jitter: real, s: State, now: real, ev: Event, first: int, quartet: int, cycle: int)
    requires NextEvent(src, jitter, s, now, ev) && HeldAt(src, jitter, s, now, first, cycle)
    requires Settling(src, jitter, s, now, quartet, cycle) && BitChanges(src, quartet) && first <= 4 * quartet - 3
    requires !ev.isMPS ==> CycleOf(ev) <= cycle + 1
    ensures Settling(src, jitter, Step(s, ev, Delay(src)), ev.time, quartet, if ev.isMPS then cycle else CycleOf(ev))
  {
    hide Step, OnPattern, Faithful, Hunts, OneCycle, Closing, HoldsReports, BitChanges, Ahead, NextCount, BitsAfter;
    hide PhysicsEvent;
    var t := Step(s, ev, Delay(src));
    HeldStep(src, jitter, s, now, ev, first, cycle);
    AfterEvent(src, jitter, s, now, ev);
    if !ev.isMPS {
      NotEarlier(src, jitter, s, now, ev, cycle);
    }
    if cycle >= 4 * quartet + 3 {
      OnPatternStep(src, jitter, s, now, ev);
      if !ev.isMPS {
        BitsGrow(quartet, cycle, CycleOf(ev), s.rings.nBits);
      }
    }
    if !ev.isMPS && CycleOf(ev) == cycle + 1 && (cycle + 1) / 4 == quartet {
      SettlingInQuartet(src, jitter, s, now, ev, first, quartet, cycle);
    }
  }

  lemma AfterEvent(src: Source, jitter: real, s: State, now: real, ev: Event)
    requires NextEvent(src, jitter, s, now, ev)
    ensures Searches(Step(s, ev, Delay(src)).quartets) && Hunts(src, jitter, Step(s, ev, Delay(src)), ev.time)
  {
    hide Step, Small, Gathers, Faithful, ClockTracks;
    HuntStep(src, jitter, s, now, ev);
  }

  lemma NotEarlier(src: Source, jitter: real, s: State, now: real, ev: Event, cycle: int)
    requires NextEvent(src, jitter, s, now, ev) && InCycle(src, jitter, s.clock, now) && SyncCycle(s.clock) == cycle
    requires !ev.isMPS
    ensures CycleOf(ev) >= cycle >= 0
  {
    hide Hunts;
    MissedCounted(s.clock, jitter, now, ev, src, false);
  }

  /** The next cycle belongs to the quartet at which the bit changes. */
  lemma SettlingInQuartet(src: Source, jitter: real, s: State, now: real, ev: Event, first: int, quartet: int,
                          cycle: int)
    requires NextEvent(src, jitter, s, now, ev) && HeldAt(src, jitter, s, now, first, cycle)
    requires Settling(src, jitter, s, now, quartet, cycle) && BitChanges(src, quartet) && first <= 4 * quartet - 3
    requires !ev.isMPS && CycleOf(ev) == cycle + 1 && (cycle + 1) / 4 == quartet
    ensures Settling(src, jitter, Step(s, ev, Delay(src)), ev.time, quartet, cycle + 1)
  {
    hide Step, OnPattern, Faithful, Hunts, OneCycle, Closing, HoldsReports, BitChanges, Ahead, PhysicsEvent;
    var t := Step(s, ev, Delay(src));
    HeldStep(src, jitter, s, now, ev, first, cycle);
    AfterEvent(src, jitter, s, now, ev);
    RecentOneOn(src, s.quartets, cycle + 1);
    CloseStep(src, s.quartets, cycle + 1);
    ClosingMeans(t.quartets, cycle + 1);
    if t.quartets.foundQuartet && Ahead(t.quartets, cycle + 1) == 0 {
      BitTaken(src, jitter, s, now, ev, cycle);
    }
    if (cycle + 1) % 4 == 3 {
      PatternFound(src, jitter, t, ev.time, cycle + 1);
    }
  }

  lemma ClosingMeans(q: Quartets, cycle: int)
    requires Closing(q, cycle)
    ensures cycle % 4 == 3 ==> q.foundQuartet && Ahead(q, cycle) == 0
  {
  }

  lemma PatternFound(src: Source, jitter: real, s: State, now: real, cycle: int)
    requires Hunts(src, jitter, s, now) && SyncCycle(s.clock) == cycle && cycle % 4 == 3
    requires s.quartets.foundQuartet && Ahead(s.quartets, cycle) == 0
    ensures OnPattern(src, jitter, s, now)
  {
    hide Gathers, Small, ReportedHelicity;
  }

  lemma {:induction false} SettlesAlways(src: Source, jitter: real, events: seq<Event>, mps: nat, from: nat,
                                         quartet: int, count: nat)
    requires FaithfulRun(src, jitter, false, events) && src.delayQuartets > 0 && from < count <= |events|
    requires Underway(events, mps, from) && NoCycleSkipped(events, from)
    requires BitChanges(src, quartet) && CycleOf(events[from]) <= 4 * quartet - 3
    ensures Settling(src, jitter, StateAfter(src, events, count), events[count - 1].time, quartet,
                     LastPhysicsCycle(events, from, count))
    decreases count
  {
    hide Step, Run, FaithfulRun, NextEvent, HeldAt, NoCycleSkipped, BitChanges, OnPattern, Closing;
    NextOfRun(src, jitter, events, count - 1);
    var s, now := StateAfter(src, events, count - 1), events[count - 2].time;
    if count == from + 1 {
      AfterEvent(src, jitter, s, now, events[from]);
    } else {
      hide Settling;
      SettlesAlways(src, jitter, events, mps, from, quartet, count - 1);
      HeldAlways(src, jitter, events, mps, from, count - 1);
      CyclesAt(events, from, count - 1);
      SettlingStep(src, jitter, s, now, events[count - 1], CycleOf(events[from]), quartet,
                   LastPhysicsCycle(events, from, count - 1));
    }
  }

  lemma SettledThen(src: Source, jitter: real, s: State, now: real, quartet: int, cycle: int)
    requires Settling(src, jitter, s, now, quartet, cycle) && cycle >= 4 * quartet + 3
    ensures OnPattern(src, jitter, s, now) && RightPhase(s) && s.rings.nBits >= BitsAfter(cycle / 4 - quartet + 1)
  {
    hide Gathers, Small, PatternTracks;
  }

  /**
   In every faithful run from Init without the QRT signal: with no cycle skipped from the quartet before
   a bit change on, the right phase is found by the end of the quartet with the change, and kept.
   */
  lemma FindsRightPhase(src: Source, jitter: real, events: seq<Event>, mps: nat, from: nat, quartet: int, count: nat)
    requires FaithfulRun(src, jitter, false, events) && src.delayQuartets > 0 && from < count <= |events|
    requires Underway(events, mps, from) && NoCycleSkipped(events, from)
    requires BitChanges(src, quartet) && CycleOf(events[from]) <= 4 * quartet - 3
    requires LastPhysicsCycle(events, from, count) >= 4 * quartet + 3
    ensures RightPhase(StateAfter(src, events, count))
  {
    hide FaithfulRun, Run, Step, Settling, RightPhase, OnPattern, NoCycleSkipped, BitChanges;
    SettlesAlways(src, jitter, events, mps, from, quartet, count);
    SettledThen(src, jitter, StateAfter(src, events, count), events[count - 1].time, quartet,
            LastPhysicsCycle(events, from, count));
  }

  /**
   The decoder's promise without the QRT signal.  From Init: with no cycle skipped from the quartet
   before a bit change until thirty quartets are there, every later event, whatever cycles are skipped
   then, is answered correctly.
   */
  lemma EndToEndFromInit(src: Source, jitter: real, events: seq<Event>, mps: nat, from: nat, quartet: int,
                         complete: nat, count: nat)
    requires FaithfulRun(src, jitter, false, events) && src.delayQuartets > 0
    requires Underway(events, mps, from) && from < complete <= count <= |events|
    requires BitChanges(src, quartet) && CycleOf(events[from]) <= 4 * quartet - 3
    requires NoCycleSkipped(events[..complete], from)
    requires LastPhysicsCycle(events, from, complete) / 4 - quartet + 1 >= MAXBIT
    ensures var t := StateAfter(src, events, count);
            && Tracks(src, jitter, false, t, events[count - 1].time) && Calibrated(t)
            && (count > complete ==> Correct(src, t, events[count - 1]))
  {
    hide FaithfulRun, OnPattern, Tracks, Run, NoCycleSkipped, Step, RightPhase, Correct, Hunts, Settling, BitChanges;
    var part := events[..complete];
    PartOfRun(src, jitter, events, complete);
    assert part[..complete] == events[..complete];
    SameCycles(events, from, complete, complete);
    SettlesAlways(src, jitter, part, mps, from, quartet, complete);
    SettledThen(src, jitter, StateAfter(src, events, complete), events[complete - 1].time, quartet,
            LastPhysicsCycle(events, from, complete));
    BitsInRange(src, events, complete);
    OnPatternTracks(src, jitter, StateAfter(src, events, complete), events[complete - 1].time);
    HuntsAlways(src, jitter, events, complete);
    RightForever(src, jitter, false, events, complete, count);
  }

  // ---- there is a bit change -------------------------------------------------------------------------------

  /** A bit moves up the register, step by step. */
  lemma {:induction false} BitMoves(r: Register, n: nat, k: nat)
    requires k < WIDTH
    ensures Advance(r, n + k)[k] == LowBit(Advance(r, n))
  {
    hide Taps;
    if k > 0 {
      BitMoves(r, n, k - 1);
    }
  }

  /** Thirty-one quartets in a row do not all have the same bit. */
  lemma SomeChange(src: Source, first: int) returns (quartet: int)
    requires src.start != ZERO && first >= src.delayQuartets
    ensures first < quartet <= first + 30 && BitChanges(src, quartet)
  {
    quartet := first + 1;
    while quartet < first + 30 && !BitChanges(src, quartet)
      invariant first < quartet <= first + 30
      invariant forall k :: first <= k < quartet ==> QuartetSign(src, k) == QuartetSign(src, first)
    {
      quartet := quartet + 1;
    }
    if !BitChanges(src, quartet) {
      AllSame(src, first);
    }
  }

  /** The register that shows thirty-one times the same bit is zero. */
  lemma AllSame(src: Source, first: int)
    requires first >= src.delayQuartets
    requires forall k :: first <= k <= first + 30 ==> QuartetSign(src, k) == QuartetSign(src, first)
    ensures src.start == ZERO
  {
    hide Advance, RanBit30, QuartetSign;
    var from := first - src.delayQuartets;
    var last := Advance(src.start, from + 29);
    ThirtyShown(src, first);
    assert QuartetSign(src, first + 29) == QuartetSign(src, first);
    assert QuartetSign(src, first + 30) == QuartetSign(src, first);
    OneMoreStep(src.start, from + 29);
    LowBitSign(src, first + 29);
    LowBitSign(src, first + 30);
    if last[0] {
      AllOnes(last);
      assert false;
    } else {
      AllZeros(last);
      NonzeroForever(src.start, from + 29);
    }
  }

  lemma LowBitSign(src: Source, quartet: int)
    requires quartet >= src.delayQuartets
    ensures LowBit(Advance(src.start, quartet - src.delayQuartets)) <==> QuartetSign(src, quartet) == PLUS
  {
    hide Advance;
  }

  /** The bits of the register are those that the last thirty quartets showed. */
  lemma ThirtyShown(src: Source, first: int)
    requires first >= src.delayQuartets
    requires forall k :: first <= k <= first + 30 ==> QuartetSign(src, k) == QuartetSign(src, first)
    ensures var last := Advance(src.start, first - src.delayQuartets + 29);
            forall k :: 0 <= k < WIDTH ==> last[k] == last[0]
  {
    hide Advance, QuartetSign;
    var from := first - src.delayQuartets;
    var last := Advance(src.start, from + 29);
    forall k: nat | k < WIDTH ensures last[k] == last[0] {
      BitMoves(src.start, from + 29 - k, k);
      LowBitSign(src, first + 29 - k);
      LowBitSign(src, first + 29);
      assert QuartetSign(src, first + 29 - k) == QuartetSign(src, first) == QuartetSign(src, first + 29);
    }
  }

  lemma OneMoreStep(r: Register, n: nat)
    ensures Advance(r, n + 1) == RanBit30(Advance(r, n))
  {
  }

  lemma AllOnes(r: Register)
    requires forall k :: 0 <= k < WIDTH ==> r[k]
    ensures !LowBit(RanBit30(r))
  {
  }

  lemma AllZeros(r: Register)
    requires forall k :: 0 <= k < WIDTH ==> !r[k]
    ensures r == ZERO
  {
    assert forall k :: 0 <= k < 10 ==> !TEN_ZEROS[k];
    assert forall k :: 0 <= k < WIDTH ==> ZERO[k] == TEN_ZEROS[k % 10];
  }

  /**
   For every source but the one that shows no bit at all: sixty quartets with no cycle skipped are
   enough, whatever the phase in which the run begins.
   */
  lemma SixtyQuartetsAreEnough(src: Source, jitter: real, events: seq<Event>, mps: nat, from: nat, complete: nat,
                               count: nat)
    requires FaithfulRun(src, jitter, false, events) && src.delayQuartets > 0 && src.start != ZERO
    requires Underway(events, mps, from) && from < complete <= count <= |events|
    requires NoCycleSkipped(events[..complete], from)
    requires LastPhysicsCycle(events, from, complete) / 4 >= CycleOf(events[from]) / 4 + 60
    ensures var t := StateAfter(src, events, count);
            && Tracks(src, jitter, false, t, events[count - 1].time) && Calibrated(t)
            && (count > complete ==> Correct(src, t, events[count - 1]))
  {
    hide OnPattern, Tracks, Run, NoCycleSkipped, Step, Correct, BitChanges;
    FaithfulNext(src, jitter, events, from);
    var quartet := SomeChange(src, CycleOf(events[from]) / 4 + 1);
    EndToEndFromInit(src, jitter, events, mps, from, quartet, complete, count);
  }
}
