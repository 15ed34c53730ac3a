/**
 Runs without the QRT signal, from Init: two MPS events and then cycle after cycle with one event each,
 and what the decoder makes of them.
 */
module PatternRuns {
  import opened Basics
  import opened Lfsr
  import opened HelicityState
  import opened HelicityRuns
  import opened HelicitySource
  import opened HelicityPattern
  import opened PhaseSearch

  function MPSIn(cycle: nat, number: int): Event {
    Event(number, cycle as real, true, false, false, false, None)
  }

  /** Two MPS events and n cycles with one event each. */
  function Unbroken(src: Source, lead: nat, n: nat): (events: seq<Event>)
    requires lead >= Delay(src)
    ensures |events| == n + 2
  {
    if n == 0 then [MPSIn(lead, 1), MPSIn(lead, 2)]
    else Unbroken(src, lead, n - 1) + [EventIn(src, lead + n, n + 2)]
  }

  lemma {:induction false} UnbrokenAt(src: Source, lead: nat, n: nat, k: nat)
    requires lead >= Delay(src)
    requires 0 < k <= n
    ensures Unbroken(src, lead, n)[k + 1] == EventIn(src, lead + k, k + 2)
    ensures Unbroken(src, lead, n)[..k + 2] == Unbroken(src, lead, k)
  {
    hide EventIn, MPSIn;
    if k < n {
      UnbrokenAt(src, lead, n - 1, k);
      assert Unbroken(src, lead, n)[..n + 1] == Unbroken(src, lead, n - 1);
      assert Unbroken(src, lead, n)[..k + 2] == Unbroken(src, lead, n - 1)[..k + 2];
    } else {
      assert Unbroken(src, lead, n)[..n + 2] == Unbroken(src, lead, n);
    }
  }

  /** The report of the i-th cycle, and nothing before the first. */
  function ShownAt(src: Source, lead: nat, i: int): int
    requires lead >= Delay(src)
  {
    if i <= 0 then 0 else ReportedHelicity(src, lead + i)
  }

  /** The state after k <= 3 cycles: the search has moved on by one cycle from the third on. */
  predicate Begun(src: Source, lead: nat, s: State, k: nat)
    requires lead >= Delay(src)
  {
    && s.clock == Clock(k + 2, false, true, true, false, (lead + k) as real)
    && !s.quartets.foundQuartet && !s.quartets.haveQRT && s.rings.nBits == 0 && s.quartets.nCycle == k
    && s.quartets.firstCycle == (if k < 2 then -1 else k - 2)
    && s.quartets.recent
       == Pattern(ShownAt(src, lead, k), ShownAt(src, lead, k - 1), ShownAt(src, lead, k - 2),
                  ShownAt(src, lead, k - 3))
  }

  lemma BeginsSo(src: Source, lead: nat)
    requires lead >= Delay(src)
    requires src.delayQuartets > 0
    ensures Begun(src, lead, StateAfter(src, Unbroken(src, lead, 0), 2), 0)
  {
    var events := Unbroken(src, lead, 0);
    OneMore(src, events, 0);
    OneMore(src, events, 1);
    BeforeAny(src, events);
  }

  lemma PlusOne(x: real)
    ensures x + 1.0 + 0.5 - x == 1.5 && (1.5).Floor == 1
  {
  }

  /** A cycle more, one at a time. */
  lemma StepByOne(src: Source, lead: nat, s: State, k: nat)
    requires lead >= Delay(src)
    requires src.delayQuartets > 0 && Begun(src, lead, s, k)
    ensures var ev := EventIn(src, lead + k + 1, k + 3);
            var entered := EnterCycle(s.quartets, ReportedOf(ev));
            var t := Step(s, ev, Delay(src));
            && t.quartets == FindPhase(entered, false).quartets
            && t.clock == s.clock.(evNumCheck := k + 3, lastMPSTime := (lead + k + 1) as real)
            && t.rings == LoadRings(t.quartets, s.rings, ReportedOf(ev), Delay(src), None)
            && ReportedOf(ev) == ShownAt(src, lead, k + 1)
  {
    hide FindPhase, LoadRings, LoadOutput, ReportedHelicity, Faithful, NewCycle, CatchUp, PhysicsEvent;
    var cycle := lead + k + 1;
    var ev := EventIn(src, cycle, k + 3);
    EventFaithful(src, 0.0, cycle, k + 3);
    NumberAccepted(s, ev, Delay(src));
    PlusOne((lead + k) as real);
    EnteredByOne(Counted(s, ev), ev, Delay(src));
  }

  lemma EnteredByOne(s: State, ev: Event, delay: int)
    requires Missed(s.clock, ev.time) == 1 && s.rings.nBits == 0 && !ev.isQrt && ev.scalerSeed == None
    ensures var t := PhysicsEvent(s, ev, delay);
            && t.quartets == FindPhase(EnterCycle(s.quartets, s.out.reported), false).quartets
            && t.clock == s.clock.(lastMPSTime := s.clock.lastMPSTime + 1.0, isNewCycle := false)
            && t.rings == LoadRings(t.quartets, s.rings, s.out.reported, delay, None)
  {
    hide FindPhase, LoadRings, LoadOutput;
  }

  lemma ShownSmall(src: Source, lead: nat, i: int)
    requires lead >= Delay(src)
    ensures -1 <= ShownAt(src, lead, i) <= 1
  {
    if i > 0 {
      BitShown(src, lead + i, ReportedHelicity(src, lead + i));
    }
    hide ReportedHelicity;
  }

  lemma BeginStep(src: Source, lead: nat, s: State, k: nat)
    requires lead >= Delay(src)
    requires src.delayQuartets > 0 && Begun(src, lead, s, k) && k < 3
    ensures Begun(src, lead, Step(s, EventIn(src, lead + k + 1, k + 3), Delay(src)), k + 1)
  {
    hide EventIn, Step, AcquireBit, ShownAt, FindPhase, LoadRings;
    ShownSmall(src, lead, k + 1);
    ShownSmall(src, lead, k);
    ShownSmall(src, lead, k - 1);
    StepByOne(src, lead, s, k);
    NothingShown(src, lead, k - 2);
    SearchMoves(s.quartets, k, ShownAt(src, lead, k + 1));
    NoBitsUnfound(FindPhase(EnterCycle(s.quartets, ShownAt(src, lead, k + 1)), false).quartets, s.rings,
                  ShownAt(src, lead, k + 1), Delay(src));
  }

  lemma SearchMoves(q: Quartets, k: nat, reported: int)
    requires k < 3 && !q.foundQuartet && !q.haveQRT && q.nCycle == k && q.firstCycle == (if k < 2 then -1 else k - 2)
    requires -1 <= reported <= 1 && -1 <= q.recent.q0 <= 1 && -1 <= q.recent.q1 <= 1 && q.recent.q2 == 0
    ensures var entered := EnterCycle(q, reported);
            var after := FindPhase(entered, false).quartets;
            && !after.foundQuartet && !after.haveQRT && after.nCycle == k + 1
            && after.firstCycle == (if k + 1 < 2 then -1 else k - 1) && after.recent == entered.recent
  {
    if k == 0 {
    } else if k == 1 {
    } else {
    }
  }

  lemma NoBitsUnfound(q: Quartets, r: Rings, reported: int, delay: int)
    requires !q.foundQuartet && r.nBits == 0
    ensures LoadRings(q, r, reported, delay, None).nBits == 0
  {
  }

  lemma NothingShown(src: Source, lead: nat, i: int)
    requires lead >= Delay(src)
    requires i <= 0
    ensures ShownAt(src, lead, i) == 0
  {
  }

  /** The fourth cycle brings the first test with four reports. */
  lemma FourthCycle(src: Source, lead: nat, s: State)
    requires lead >= Delay(src)
    requires src.delayQuartets > 0 && Begun(src, lead, s, 3)
    ensures var t := Step(s, EventIn(src, lead + 4, 6), Delay(src));
            && (t.quartets.foundQuartet <==> Passes(src, lead + 4)) && SyncCycle(t.clock) == lead + 4
            && (RightPhase(t) <==> (lead + 4) % 4 == 3)
            && (t.quartets.foundQuartet ==> (lead + 4 + Ahead(t.quartets, lead + 4)) % 4 == 3)
  {
    hide EventIn, Step, LoadRings, FindPhase, ReportedHelicity, Passes;
    StepByOne(src, lead, s, 3);
    var entered := EnterCycle(s.quartets, ReportedHelicity(src, lead + 4));
    RecentKept(entered, false);
    TestedState(src, s.quartets, lead + 4);
    TestMoves(src, s.quartets, lead + 4);
    hide InStep, Ahead;
  }

  lemma UnbrokenStep(src: Source, lead: nat, jitter: real, n: nat)
    requires lead >= Delay(src)
    requires FaithfulRun(src, jitter, false, Unbroken(src, lead, n))
    ensures FaithfulRun(src, jitter, false, Unbroken(src, lead, n + 1))
    ensures StateAfter(src, Unbroken(src, lead, n + 1), n + 2) == StateAfter(src, Unbroken(src, lead, n), n + 2)
    ensures StateAfter(src, Unbroken(src, lead, n + 1), n + 3)
            == Step(StateAfter(src, Unbroken(src, lead, n), n + 2), EventIn(src, lead + n + 1, n + 3), Delay(src))
  {
    hide Step, Faithful, FaithfulRun, Run, EventIn;
    var events, ev := Unbroken(src, lead, n), EventIn(src, lead + n + 1, n + 3);
    FaithfulNext(src, jitter, events, n + 1);
    EventFaithful(src, jitter, lead + n + 1, n + 3);
    UnbrokenLast(src, lead, n);
    Longer(src, jitter, events, ev);
  }

  lemma UnbrokenLast(src: Source, lead: nat, n: nat)
    requires lead >= Delay(src)
    ensures var last, ev := Unbroken(src, lead, n)[n + 1], EventIn(src, lead + n + 1, n + 3);
            ev.number == last.number + 1 && last.time <= ev.time
  {
    if n > 0 {
      UnbrokenAt(src, lead, n, n);
    }
    hide ReportedHelicity;
  }

  lemma {:induction false} UnbrokenFaithful(src: Source, lead: nat, jitter: real, n: nat)
    requires lead >= Delay(src)
    requires 0.0 <= jitter < 0.25
    ensures FaithfulRun(src, jitter, false, Unbroken(src, lead, n))
  {
    hide FaithfulRun, EventIn;
    if n == 0 {
      StartFaithful(src, lead, jitter);
    } else {
      UnbrokenFaithful(src, lead, jitter, n - 1);
      UnbrokenStep(src, lead, jitter, n - 1);
    }
  }

  lemma StartFaithful(src: Source, lead: nat, jitter: real)
    requires lead >= Delay(src)
    requires 0.0 <= jitter < 0.25
    ensures FaithfulRun(src, jitter, false, Unbroken(src, lead, 0))
  {
    assert (lead as real + 0.5).Floor == lead;
  }

  lemma {:induction false} UnbrokenBegins(src: Source, lead: nat, n: nat)
    requires lead >= Delay(src)
    requires src.delayQuartets > 0 && n <= 3
    ensures Begun(src, lead, StateAfter(src, Unbroken(src, lead, n), n + 2), n)
  {
    hide Begun, Step, EventIn, Unbroken;
    if n == 0 {
      BeginsSo(src, lead);
    } else {
      UnbrokenBegins(src, lead, n - 1);
      UnbrokenFaithful(src, lead, 0.0, n - 1);
      UnbrokenStep(src, lead, 0.0, n - 1);
      BeginStep(src, lead, StateAfter(src, Unbroken(src, lead, n - 1), n + 1), n - 1);
    }
  }

  /**
   From Init, with the run beginning anywhere: after four cycles the quartets are found exactly when the
   reports of these pass the test, and with the right phase exactly when they are those of a quartet.
   */
  lemma UnbrokenFinds(src: Source, lead: nat)
    requires lead >= Delay(src)
    requires src.delayQuartets > 0
    ensures var s := StateAfter(src, Unbroken(src, lead, 4), 6);
            && (s.quartets.foundQuartet <==> Passes(src, lead + 4)) && SyncCycle(s.clock) == lead + 4
            && (RightPhase(s) <==> (lead + 4) % 4 == 3)
            && (s.quartets.foundQuartet ==> (lead + 4 + Ahead(s.quartets, lead + 4)) % 4 == 3)
    ensures !StateAfter(src, Unbroken(src, lead, 4), 5).quartets.foundQuartet
  {
    hide Step, Run, EventIn, Unbroken, RightPhase, Begun, FaithfulRun, Passes;
    UnbrokenBegins(src, lead, 3);
    UnbrokenFaithful(src, lead, 0.0, 3);
    UnbrokenStep(src, lead, 0.0, 3);
    FourthCycle(src, lead, StateAfter(src, Unbroken(src, lead, 3), 5));
    NoneYet(src, lead, StateAfter(src, Unbroken(src, lead, 3), 5), 3);
  }

  /**
   A run that ends with a wrong phase: when two quartets have the same bit and the first event comes in
   the third cycle of the first of them.
   */
  lemma WrongPhaseFound(src: Source, jitter: real) returns (events: seq<Event>)
    requires src.delayQuartets > 0 && 0.0 <= jitter < 0.25 && Repeats(src, src.delayQuartets + 2)
    ensures FaithfulRun(src, jitter, false, events)
    ensures var s := StateAfter(src, events, |events|); s.quartets.foundQuartet && !RightPhase(s)
  {
    hide Step, Run, EventIn, Unbroken, RightPhase, FaithfulRun, Repeats;
    events := Unbroken(src, Delay(src) + 5, 4);
    UnbrokenFaithful(src, Delay(src) + 5, jitter, 4);
    UnbrokenFinds(src, Delay(src) + 5);
    assert (Delay(src) + 9) / 4 == src.delayQuartets + 2;
  }

  /** There are such sources. */
  lemma SomeRepeat() returns (src: Source)
    ensures src.delayQuartets > 0 && src.start != ZERO && Repeats(src, src.delayQuartets + 2)
  {
    var start: Register := [true] + ZERO[..29];
    src := Source(start, 1);
    assert forall k :: 0 <= k < 10 ==> !TEN_ZEROS[k];
    assert forall k :: 0 <= k < WIDTH ==> ZERO[k] == TEN_ZEROS[k % 10];
    assert start[0] != ZERO[0];
    assert Advance(start, 1) == RanBit30(Advance(start, 0)) == RanBit30(start);
    assert Advance(start, 2) == RanBit30(RanBit30(start));
    assert forall k :: 2 <= k < WIDTH ==> !RanBit30(start)[k];
    hide Advance;
    assert QuartetRegister(src, 1) == RanBit30(start) && QuartetRegister(src, 2) == RanBit30(RanBit30(start));
  }

  lemma NoneYet(src: Source, lead: nat, s: State, k: nat)
    requires lead >= Delay(src)
    requires Begun(src, lead, s, k)
    ensures !s.quartets.foundQuartet
  {
  }

  /** After n >= 4 unbroken cycles the decoder is on the pattern, with a bit for each quartet begun. */
  lemma UnbrokenGathers(src: Source, lead: nat, jitter: real, n: nat)
    requires lead >= Delay(src) && lead % 4 == 3
    requires src.delayQuartets > 0 && 0.0 <= jitter < 0.25 && n >= 4
    ensures var events := Unbroken(src, lead, n);
            && FaithfulRun(src, jitter, false, events)
            && OnPattern(src, jitter, StateAfter(src, events, n + 2), events[n + 1].time)
            && SyncCycle(StateAfter(src, events, n + 2).clock) == lead + n
            && StateAfter(src, events, n + 2).rings.nBits == BitsAfter((n + 3) / 4)
  {
    hide OnPattern, Step, Run, RightPhase, FaithfulRun, EventIn, Unbroken, NoCycleSkipped, Gathered;
    var events := Unbroken(src, lead, n);
    UnbrokenFaithful(src, lead, jitter, n);
    UnbrokenFinds(src, lead);
    UnbrokenAt(src, lead, n, 4);
    assert events[..5] == events[..6][..5] && Unbroken(src, lead, 4)[..6] == Unbroken(src, lead, 4);
    UnbrokenSkipsNone(src, lead, n, 5);
    GathersByPattern(src, jitter, events, 5, n + 2);
    CycleAt(src, lead, n, 4);
    LastCycleAt(src, lead, n, 5, n + 2);
    GatheredMeans(src, jitter, StateAfter(src, events, n + 2), events[n + 1].time, CycleOf(events[5]) / 4,
                  LastPhysicsCycle(events, 5, n + 2));
    QuartetsSince(src, lead, n);
  }

  lemma GatheredMeans(src: Source, jitter: real, s: State, now: real, first: int, cycle: int)
    requires Gathered(src, jitter, s, now, first, cycle)
    ensures OnPattern(src, jitter, s, now) && SyncCycle(s.clock) == cycle
    ensures s.rings.nBits == BitsAfter(cycle / 4 - first + 1)
  {
    hide OnPattern;
  }

  lemma QuartetsSince(src: Source, lead: nat, n: nat)
    requires lead >= Delay(src) && lead % 4 == 3
    ensures (lead + n) / 4 - (lead + 4) / 4 + 1 == (n + 3) / 4
  {
  }

  lemma CycleAt(src: Source, lead: nat, n: nat, k: nat)
    requires lead >= Delay(src)
    requires 0 < k <= n
    ensures CycleOf(Unbroken(src, lead, n)[k + 1]) == lead + k && !Unbroken(src, lead, n)[k + 1].isMPS
  {
    UnbrokenAt(src, lead, n, k);
    EventFaithful(src, 0.0, lead + k, k + 2);
    hide ReportedHelicity, Faithful;
  }

  lemma LastCycleAt(src: Source, lead: nat, n: nat, from: nat, count: nat)
    requires lead >= Delay(src) && 2 <= from < count <= n + 2
    ensures LastPhysicsCycle(Unbroken(src, lead, n), from, count) == lead + count - 2
  {
    CycleAt(src, lead, n, count - 2);
  }

  lemma UnbrokenSkipsNone(src: Source, lead: nat, n: nat, from: nat)
    requires lead >= Delay(src) && 2 <= from < n + 2
    ensures NoCycleSkipped(Unbroken(src, lead, n), from)
  {
    var events := Unbroken(src, lead, n);
    hide LastPhysicsCycle;
    forall k | from < k < |events| && !events[k].isMPS
      ensures CycleOf(events[k]) <= LastPhysicsCycle(events, from, k) + 1
    {
      CycleAt(src, lead, n, k - 1);
      LastCycleAt(src, lead, n, from, k);
    }
  }

  /** Every source has a run from Init that calibrates the decoder for good: 117 cycles with an event in each. */
  lemma CalibratesForGood(src: Source, jitter: real) returns (events: seq<Event>)
    requires src.delayQuartets > 0 && 0.0 <= jitter < 0.25
    ensures FaithfulRun(src, jitter, false, events) && events != [] && Lasts(src, jitter, events)
    ensures var s := StateAfter(src, events, |events|);
            Calibrated(s) && Tracks(src, jitter, false, s, events[|events| - 1].time)
  {
    hide FaithfulRun, OnPattern, Tracks, Step, Run, EventIn, Unbroken, Hunts, Correct;
    var lead := Delay(src) + 3;
    events := Unbroken(src, lead, 117);
    UnbrokenGathers(src, lead, jitter, 117);
    var s := StateAfter(src, events, |events|);
    OnPatternTracks(src, jitter, s, events[|events| - 1].time);
    HuntsAlways(src, jitter, events, |events|);
    forall more: seq<Event> | FaithfulRun(src, jitter, false, events + more)
      ensures Calibrated(StateAfter(src, events + more, |events + more|))
    {
      assert (events + more)[..|events|] == events[..|events|];
      RightForever(src, jitter, false, events + more, |events|, |events + more|);
    }
  }

  /**
   ... and one in which the cycle of the thirtieth bit is missed, so that the bit is taken in the next
   one: the decoder is calibrated, with the right phase.
   */
  lemma CompletedAfterGap(src: Source, jitter: real) returns (events: seq<Event>)
    requires src.delayQuartets > 0 && 0.0 <= jitter < 0.25
    ensures FaithfulRun(src, jitter, false, events) && |events| >= 2
    ensures !Calibrated(StateAfter(src, events, |events| - 1))
    ensures Calibrated(StateAfter(src, events, |events|)) && RightPhase(StateAfter(src, events, |events|))
    ensures CycleOf(events[|events| - 1]) % 4 == 1
  {
    hide FaithfulRun, OnPattern, Step, Run, EventIn, Unbroken, Hunts, RightPhase, Faithful;
    var lead := Delay(src) + 3;
    var before, cycle := Unbroken(src, lead, 116), lead + 118;
    UnbrokenGathers(src, lead, jitter, 116);
    var ev := EventIn(src, cycle, 119);
    EventFaithful(src, jitter, cycle, 119);
    CycleAt(src, lead, 116, 116);
    UnbrokenAt(src, lead, 116, 116);
    HuntsAlways(src, jitter, before, 118);
    FaithfulNext(src, jitter, before, 117);
    NumberIn(src, cycle, 119);
    NumberIn(src, cycle - 2, 118);
    EventLater(src, jitter, before[117], ev);
    Longer(src, jitter, before, ev);
    BitTakenLate(src, jitter, StateAfter(src, before, 118), before[117].time, ev);
    events := before + [ev];
  }

  lemma NumberIn(src: Source, cycle: nat, number: int)
    requires cycle >= Delay(src)
    ensures EventIn(src, cycle, number).number == number && !EventIn(src, cycle, number).isMPS
  {
  }

  lemma BitTakenLate(src: Source, jitter: real, s: State, now: real, ev: Event)
    requires 0.0 <= jitter < 0.25 && src.delayQuartets > 0 && OnPattern(src, jitter, s, now)
    requires s.rings.nBits == 29 && SyncCycle(s.clock) % 4 == 3 && CycleOf(ev) == SyncCycle(s.clock) + 2
    requires Faithful(src, jitter, false, ev) && !ev.isMPS && now <= ev.time && ev.number == s.clock.evNumCheck + 1
    ensures Calibrated(Step(s, ev, Delay(src))) && RightPhase(Step(s, ev, Delay(src)))
  {
    hide PhysicsEvent, Gathers, ReportedHelicity, Small, PatternTracks, PatternComplete, CatchUp;
    HuntStep(src, jitter, s, now, ev);
    GatheringCycle(src, jitter, Counted(s, ev), now, ev);
  }

  /** That calibration is lost in a faithful continuation, although all the decoder holds is right. */
  lemma LostAfterGap(src: Source, jitter: real) returns (events: seq<Event>, from: nat)
    requires src.delayQuartets > 0 && 0.0 <= jitter < 0.25
    ensures FaithfulRun(src, jitter, false, events) && 0 < from < |events|
    ensures var s := StateAfter(src, events, from);
            && Calibrated(s) && RightPhase(s)
            && TracksButPattern(src, jitter, s, events[from - 1].time)
    ensures !Calibrated(StateAfter(src, events, |events|))
  {
    hide FaithfulRun, Step, Run, Hunts, RightPhase, TracksButPattern;
    var start := CompletedAfterGap(src, jitter);
    from := |start|;
    LastsIffFirstCycle(src, jitter, start);
    var more: seq<Event> :| FaithfulRun(src, jitter, false, start + more)
                            && !Calibrated(StateAfter(src, start + more, |start + more|));
    events := start + more;
    assert events[..from] == start[..from];
    assert more == [] ==> events == start;
    HuntsAlways(src, jitter, start, from);
    RightPhaseTracks(src, jitter, StateAfter(src, start, from), start[from - 1].time);
  }

  // ---- the source that shows no bit ----------------------------------------------------------------------------

  lemma ZeroRepeats(src: Source, quartet: int)
    requires src.start == ZERO && quartet > src.delayQuartets
    ensures Repeats(src, quartet)
  {
    NonzeroForever(src.start, quartet - src.delayQuartets);
    NonzeroForever(src.start, quartet - 1 - src.delayQuartets);
    hide Advance;
  }

  /** The next cycle of the unbroken run, with all four reports held. */
  lemma UnbrokenOneCycle(src: Source, lead: nat, jitter: real, n: nat)
    requires lead >= Delay(src) && src.delayQuartets > 0 && 0.0 <= jitter < 0.25 && n >= 4
    ensures var events := Unbroken(src, lead, n);
            var s, t := StateAfter(src, events, n + 1), StateAfter(src, events, n + 2);
            && Searches(s.quartets) && t.quartets == OneCycle(src, s.quartets, lead + n)
            && HoldsReports(src, t.quartets.recent, lead + n, 3) && SyncCycle(t.clock) == lead + n
  {
    hide FaithfulRun, HeldAt, Unbroken, EventIn, NoCycleSkipped, Run, Step, OneCycle, NextEvent, HoldsReports;
    var events := Unbroken(src, lead, n);
    var s, now := StateAfter(src, events, n + 1), events[n].time;
    UnbrokenFaithful(src, lead, jitter, n);
    UnbrokenSkipsNone(src, lead, n, 2);
    UnbrokenUnderway(src, lead, n);
    HeldAlways(src, jitter, events, 1, 2, n + 1);
    CycleAt(src, lead, n, 1);
    CycleAt(src, lead, n, n);
    LastCycleAt(src, lead, n, 2, n + 1);
    NextOfRun(src, jitter, events, n + 1);
    HeldStep(src, jitter, s, now, events[n + 1], lead + 1, lead + n - 1);
    StillSearches(src, jitter, s, now, events[n + 1]);
    HeldFour(src, jitter, StateAfter(src, events, n + 2), events[n + 1].time, lead + 1, lead + n);
  }

  lemma UnbrokenUnderway(src: Source, lead: nat, n: nat)
    requires lead >= Delay(src) && n >= 1
    ensures Underway(Unbroken(src, lead, n), 1, 2)
  {
    CycleAt(src, lead, n, 1);
    UnbrokenStarts(src, lead, n);
    assert (lead as real + 0.5).Floor == lead;
    hide EventIn;
  }

  lemma {:induction false} UnbrokenStarts(src: Source, lead: nat, n: nat)
    requires lead >= Delay(src)
    ensures Unbroken(src, lead, n)[1] == MPSIn(lead, 2)
  {
    hide EventIn;
    if n > 0 {
      UnbrokenStarts(src, lead, n - 1);
    }
  }

  /** One cycle of the source that shows no bit: a phase two cycles off stays. */
  lemma ZeroStep(src: Source, q: Quartets, cycle: int)
    requires src.start == ZERO && Searches(q) && q.foundQuartet && Ahead(q, cycle - 1) == 2
    requires cycle >= Delay(src) + 4 && HoldsReports(src, OneCycle(src, q, cycle).recent, cycle, 3)
    ensures OneCycle(src, q, cycle).foundQuartet && Ahead(OneCycle(src, q, cycle), cycle) == 2
  {
    hide OneCycle, HoldsReports, ReportedHelicity, Ahead, Phase, EnterCycle;
    TestMoves(src, q, cycle);
    FourReports(src, EnterCycle(q, ReportedHelicity(src, cycle)).recent, cycle);
    ZeroRepeats(src, cycle / 4);
    hide Repeats;
  }

  /**
   A source whose register is zero repeats its bit for ever: a run that begins in the third cycle of a
   quartet finds the wrong phase and never any other, however long it goes on.
   */
  lemma {:induction false} ZeroStaysWrong(src: Source, jitter: real, n: nat)
    requires src.delayQuartets > 0 && src.start == ZERO && 0.0 <= jitter < 0.25 && n >= 4
    ensures var lead := Delay(src) + 5;
            var s := StateAfter(src, Unbroken(src, lead, n), n + 2);
            && FaithfulRun(src, jitter, false, Unbroken(src, lead, n))
            && s.quartets.foundQuartet && Ahead(s.quartets, lead + n) == 2 && SyncCycle(s.clock) == lead + n
            && !RightPhase(s)
  {
    hide FaithfulRun, HeldAt, Unbroken, EventIn, Run, Step, OneCycle, RightPhase, Ahead, HoldsReports, Repeats;
    var lead := Delay(src) + 5;
    UnbrokenFaithful(src, lead, jitter, n);
    if n == 4 {
      ZeroRepeats(src, (lead + 4) / 4);
      UnbrokenFinds(src, lead);
    } else {
      ZeroStaysWrong(src, jitter, n - 1);
      UnbrokenStep(src, lead, jitter, n - 1);
      UnbrokenOneCycle(src, lead, jitter, n);
      ZeroStep(src, StateAfter(src, Unbroken(src, lead, n), n + 1).quartets, lead + n);
    }
    var s := StateAfter(src, Unbroken(src, lead, n), n + 2);
    NotInStep(s, lead + n);
  }

  lemma NotInStep(s: State, cycle: int)
    requires Ahead(s.quartets, cycle) == 2 && SyncCycle(s.clock) == cycle
    ensures !RightPhase(s)
  {
  }
}
