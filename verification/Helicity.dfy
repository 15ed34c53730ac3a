/**
 The delayed-mode helicity decoder (`THcHelicity`): its state, one `Decode` call as a function on
 that state, and the class whose methods update the fields in place and are proved against it.

 Times are in units of the reversal period `fTIPeriod`; rounding of doubles is not modelled.
 */
module HelicityState {
  import opened Basics
  import opened Lfsr

  const PLUS := 1
  const MINUS := -1
  const UNKNOWN := 0
  const UNDEFINED := -10   // placed in the actual helicity until a branch of Decode assigns it
  const MAXBIT := 30

  /**
   One physics event as the reader delivers it.  `scalerSeed` is the reported seed of the scaler
   handler, present when there is a handler and it says that its seed is good.
   */
  datatype Event = Event(number: int, time: real, isMPS: bool, isQrt: bool, isHelp: bool, isHelm: bool,
                         scalerSeed: Option<Register>)

  /** Event counting and the clock that tells cycles apart. */
  datatype Clock = Clock(evNumCheck: int, disabled: bool, firstEvProcessed: bool, foundMPS: bool,
                         isNewCycle: bool, lastMPSTime: real)

  /** The reported helicities of the last four cycles decoded, newest first. */
  datatype Pattern = Pattern(q0: int, q1: int, q2: int, q3: int)

  /** Where the decoder believes it is in the sequence of quartets. */
  datatype Quartets = Quartets(foundQuartet: bool, haveQRT: bool, nQRTProblems: int, nCycle: int,
                               firstCycle: int, nQuartet: int, nLastQuartet: int, recent: Pattern)

  /** The shift registers and the helicities they give for the first cycle of the quartet. */
  datatype Rings = Rings(nBits: int, seedReported: Register, seedActual: Register, startHelicity: int,
                         startPredicted: int)

  /** What the event is told. */
  datatype Output = Output(reported: int, actual: int, predicted: int, nQrt: int)

  datatype State = State(clock: Clock, quartets: Quartets, rings: Rings, out: Output)

  // ---- C++ integer arithmetic -------------------------------------------------------------------

  /** Division and remainder by 4 and remainder by 2 as C++ has them, truncating toward zero. */
  function Quot4(x: int): int {
    if x >= 0 then x / 4 else -(-x / 4)
  }

  function Rem4(x: int): int {
    if x >= 0 then x % 4 else -(-x % 4)
  }

  function Rem2(x: int): int {
    if x >= 0 then x % 2 else -(-x % 2)
  }

  function IntAbs(x: int): int {
    if x >= 0 then x else -x
  }

  /** `TMath::Nint`: to the nearest integer, halves to the even one. */
  function Nint(x: real): int {
    var up := (x + 0.5).Floor;
    if up as real == x + 0.5 && up % 2 == 1 then up - 1 else up
  }

  // ---- pieces of a step -------------------------------------------------------------------------

  function ReportedOf(ev: Event): int {
    if ev.isHelp then (if ev.isHelm then UNKNOWN else PLUS) else (if ev.isHelm then MINUS else UNKNOWN)
  }

  function Sign(seed: Register): int {
    if LowBit(seed) then PLUS else MINUS
  }

  /** The quartet pattern: `start` in phases 0 and 3, its opposite in phases 1 and 2. */
  function InPhase(phase: int, start: int): int {
    if phase == 0 || phase == 3 then start else -start
  }

  function DelayQuartets(delay: int): (n: nat) {
    if delay >= 4 then delay / 4 else 0
  }

  function Phase(q: Quartets): int {
    Rem4(q.nCycle - q.firstCycle)
  }

  function QuartetNumber(q: Quartets): int {
    Quot4(q.nCycle - q.firstCycle)
  }

  // ---- the registers ----------------------------------------------------------------------------

  function Calibrate(seed: Register, delay: int): Rings {
    var actualSeed := Advance(seed, DelayQuartets(delay));
    Rings(MAXBIT, seed, actualSeed, Sign(actualSeed), Sign(seed))
  }

  /** Shift the observed bit into the seed; calibrate when it is complete or the scalers have one. */
  function AcquireBit(r: Rings, reported: int, phase: int, delay: int, scalerSeed: Option<Register>): Rings {
    var bit := (reported == PLUS && (phase == 0 || phase == 3)) || (reported == MINUS && (phase == 1 || phase == 2));
    var seed := PushBit(if r.nBits == 0 then ZERO else r.seedReported, bit);
    if reported == UNKNOWN then r.(nBits := 0, seedReported := ZERO)
    else if r.nBits + 1 == MAXBIT then Calibrate(seed, delay)
    else if scalerSeed.Some? && r.nBits + 1 > 2 then Calibrate(RanBit30(scalerSeed.value), delay)
    else r.(nBits := r.nBits + 1, seedReported := seed)
  }

  /** Advance both seeds at the start of a quartet and check the prediction against the report. */
  function StartQuartet(r: Rings, reported: int): Rings {
    var seedReported, seedActual := RanBit30(r.seedReported), RanBit30(r.seedActual);
    if reported == Sign(seedReported)
    then Rings(r.nBits, seedReported, seedActual, Sign(seedActual), Sign(seedReported))
    else Rings(0, seedReported, seedActual, UNKNOWN, UNKNOWN)
  }

  function LoadRings(q: Quartets, r: Rings, reported: int, delay: int, scalerSeed: Option<Register>): Rings {
    if q.nQuartet - q.nLastQuartet > 1 && r.nBits < MAXBIT then r.(nBits := 0)
    else if !q.foundQuartet then r
    else if r.nBits < MAXBIT then
      if q.nQuartet != q.nLastQuartet then AcquireBit(r, reported, Phase(q), delay, scalerSeed) else r
    else if Phase(q) == 0 then StartQuartet(r, reported)
    else r
  }

  /** Only a decoder that was calibrated when the cycle began reports helicities. */
  function LoadOutput(q: Quartets, before: Rings, after: Rings, out: Output): Output {
    var out := out.(nQrt := Phase(q));
    if !q.foundQuartet || (q.nQuartet - q.nLastQuartet > 1 && before.nBits < MAXBIT) then out
    else if before.nBits < MAXBIT then if q.nQuartet != q.nLastQuartet then out.(actual := UNKNOWN) else out
    else FromRings(after, Phase(q), out)
  }

  function FromRings(r: Rings, phase: int, out: Output): Output {
    out.(actual := InPhase(phase, r.startHelicity), predicted := InPhase(phase, r.startPredicted))
  }

  /** Both registers moved on by some quartets. */
  function AdvanceRings(r: Rings, quartets: int): Rings {
    var steps := if quartets > 0 then quartets else 0;
    Refresh(r.(seedReported := Advance(r.seedReported, steps), seedActual := Advance(r.seedActual, steps)))
  }

  function Refresh(r: Rings): Rings {
    r.(startHelicity := Sign(r.seedActual), startPredicted := Sign(r.seedReported))
  }

  // ---- the quartet phase ------------------------------------------------------------------------

  /** A gap: count the missed cycles and rewrite the recent pattern from the current report. */
  function SkipQuartets(q: Quartets, missed: int, reported: int, calibrated: bool): Quartets {
    var newCycle := q.nCycle + missed - 1;
    var q3 := q.recent.q3;
    q.(nCycle := newCycle, recent :=
       if !calibrated then Pattern(reported, 0, q.recent.q2, q3)
       else if Rem2(newCycle - q.firstCycle) == 1 then Pattern(reported, -reported, -reported, q3)
       else Pattern(-reported, -reported, reported, q3))
  }

  function EnterCycle(q: Quartets, reported: int): Quartets {
    q.(nCycle := q.nCycle + 1, recent := Pattern(reported, q.recent.q0, q.recent.q1, q.recent.q2))
  }

  function Renumber(q: Quartets): Quartets {
    q.(nLastQuartet := q.nQuartet, nQuartet := QuartetNumber(q))
  }

  /** Each phase function also says whether the seed found so far is thrown away. */
  datatype Phased = Phased(quartets: Quartets, resetBits: bool)

  /** An event with the QRT signal, which marks the first cycle of a quartet. */
  function PhaseFromQRT(q: Quartets): Phased {
    var q := Renumber(q);
    if q.haveQRT && Phase(q) == 0 then Phased(q.(nQRTProblems := 0), false)
    else if q.haveQRT && q.nQRTProblems + 1 <= 10 then Phased(q.(nQRTProblems := q.nQRTProblems + 1), false)
    else Phased(Quartets(true, true, 0, q.nCycle, q.nCycle, 0, -1, q.recent), true)
  }

  /** No QRT signal on this event, but the run has it. */
  function PhaseBetweenQRT(q: Quartets): Phased {
    var q := Renumber(q);
    if Phase(q) != 0 then Phased(q, false)
    else if q.nQRTProblems + 1 <= 10 then Phased(q.(nQRTProblems := q.nQRTProblems + 1), false)
    else Phased(q.(nQRTProblems := q.nQRTProblems + 1, haveQRT := false, nLastQuartet := q.nQuartet), true)
  }

  function PatternSum(p: Pattern): int {
    p.q0 + p.q3 - p.q1 - p.q2
  }

  /** A run without QRT: find and keep the phase from the reported helicity pattern. */
  function PhaseFromPattern(q: Quartets): Phased {
    if Phase(q) != 3 then Phased(Renumber(q), false)
    else if IntAbs(PatternSum(q.recent)) == 4 then
      if q.foundQuartet then Phased(q, false)
      else Phased(q.(nQuartet := QuartetNumber(q), nLastQuartet := QuartetNumber(q) - 1, foundQuartet := true), false)
    else
      var kept := if q.nCycle - q.firstCycle > 4 then q.firstCycle + 4 * QuartetNumber(q) else q.firstCycle;
      Phased(q.(foundQuartet := false, firstCycle := kept + 1), true)
  }

  function FindPhase(q: Quartets, isQrt: bool): Phased {
    if isQrt then PhaseFromQRT(q) else if q.haveQRT then PhaseBetweenQRT(q) else PhaseFromPattern(q)
  }

  // ---- the three kinds of event -----------------------------------------------------------------

  /** The state that `Init` and `ReadDatabase` leave. */
  function InitialState(): State {
    State(Clock(0, false, false, false, false, 0.0),
          Quartets(false, false, 0, 0, -1, 0, -1, Pattern(0, 0, 0, 0)),
          Rings(0, ZERO, ZERO, UNKNOWN, UNKNOWN), Output(UNKNOWN, UNKNOWN, UNKNOWN, -1))
  }

  function FirstEvent(s: State, time: real): State {
    State(s.clock.(lastMPSTime := time, firstEvProcessed := true, foundMPS := false, isNewCycle := false),
          s.quartets.(nCycle := 0, foundQuartet := false), s.rings.(nBits := 0),
          s.out.(actual := UNKNOWN, predicted := UNKNOWN))
  }

  function MPSClock(c: Clock, time: real): Clock {
    if !c.foundMPS then c.(foundMPS := true, lastMPSTime := time)
    else
      var missed := Nint(time - c.lastMPSTime);
      if missed < 1 then c.(lastMPSTime := (time + c.lastMPSTime + missed as real) / 2.0, isNewCycle := true)
      else c.(lastMPSTime := (c.lastMPSTime + time - missed as real) / 2.0)
  }

  /** Cycle boundaries crossed since the last MPS accounted for. */
  function Missed(c: Clock, time: real): int {
    if time - c.lastMPSTime > 1.0 then (time - c.lastMPSTime).Floor else 0
  }

  /** The first non-MPS event of a cycle. */
  function NewCycle(s: State, ev: Event, delay: int): State {
    var phased := FindPhase(EnterCycle(s.quartets, s.out.reported), ev.isQrt);
    var rings := if phased.resetBits then s.rings.(nBits := 0) else s.rings;
    var loaded := LoadRings(phased.quartets, rings, s.out.reported, delay, ev.scalerSeed);
    State(s.clock.(isNewCycle := false), phased.quartets, loaded,
          LoadOutput(phased.quartets, rings, loaded, s.out.(actual := UNKNOWN)))
  }

  /** The gap is made up for before the new cycle is entered. */
  function OverGap(s: State, missed: int): State {
    var calibrated := s.rings.nBits >= MAXBIT;
    var q := SkipQuartets(s.quartets, missed, s.out.reported, calibrated);
    var r := if calibrated then AdvanceRings(s.rings, QuartetNumber(q) - QuartetNumber(s.quartets)) else s.rings;
    State(s.clock, q, r, if calibrated then FromRings(r, Phase(q), s.out) else s.out.(actual := UNKNOWN))
  }

  function SameCycle(s: State): State {
    if s.rings.nBits >= MAXBIT then
      s.(rings := Refresh(s.rings), out := FromRings(Refresh(s.rings), Phase(s.quartets), s.out))
    else s.(out := s.out.(actual := UNKNOWN))
  }

  /** Make up for missed cycles, or read the registers if the event is still in the same cycle. */
  function CatchUp(s: State, time: real): State {
    var missed := Missed(s.clock, time);
    if missed < 1 then SameCycle(s)
    else
      var clock := s.clock.(lastMPSTime := s.clock.lastMPSTime + missed as real, isNewCycle := true);
      (if missed > 1 then OverGap(s, missed) else s).(clock := clock)
  }

  function PhysicsEvent(s: State, ev: Event, delay: int): State {
    var s := CatchUp(s, ev.time);
    if s.clock.isNewCycle then NewCycle(s, ev, delay) else s
  }

  /** Consecutive event numbers are required: a gap disables the decoder for the rest of the run. */
  function CountEvent(c: Clock, number: int): Clock {
    var expected := if c.evNumCheck + 1 == 1 then number else c.evNumCheck + 1;
    c.(evNumCheck := expected, disabled := expected != number)
  }

  function ActiveStep(s: State, ev: Event, delay: int): State {
    if !s.clock.firstEvProcessed then FirstEvent(s, ev.time)
    else if ev.isMPS then
      s.(clock := MPSClock(s.clock, ev.time), out := s.out.(actual := UNKNOWN, predicted := UNKNOWN))
    else if s.clock.foundMPS then PhysicsEvent(s, ev, delay)
    else s.(out := s.out.(actual := UNKNOWN))
  }

  function Step(s: State, ev: Event, delay: int): State {
    var s := s.(out := s.out.(reported := ReportedOf(ev)));
    if delay == 0 then s.(out := s.out.(actual := if ev.isMPS then UNKNOWN else s.out.reported))
    else if s.clock.disabled then s.(out := s.out.(actual := UNKNOWN))
    else
      var counted := s.(clock := CountEvent(s.clock, ev.number));
      if counted.clock.disabled then counted.(out := s.out.(actual := UNKNOWN))
      else ActiveStep(counted.(out := counted.out.(actual := UNDEFINED)), ev, delay)
  }
}

/** The decoder object: its methods update its fields as the program does. */
module HelicityDecoder {
  import opened Basics
  import opened Lfsr
  import opened HelicityState

  class Helicity {
    const delay: int           // reporting delay in cycles
    const recent: array<int>   // the last four reported helicities, newest first

    var evNumCheck: int
    var disabled: bool
    var firstEvProcessed: bool
    var foundMPS: bool
    var isNewCycle: bool
    var lastMPSTime: real

    var foundQuartet: bool
    var haveQRT: bool
    var nQRTProblems: int
    var nCycle: int
    var firstCycle: int
    var nQuartet: int
    var nLastQuartet: int

    var nBits: int
    var seedReported: Register
    var seedActual: Register
    var startHelicity: int
    var startPredicted: int

    var reported: int
    var actual: int
    var predicted: int
    var nQrt: int

    ghost predicate Valid() {
      recent.Length == 4
    }

    ghost function ClockNow(): Clock
      reads this
    {
      Clock(evNumCheck, disabled, firstEvProcessed, foundMPS, isNewCycle, lastMPSTime)
    }

    ghost function QuartetsNow(): Quartets
      requires Valid()
      reads this, recent
    {
      Quartets(foundQuartet, haveQRT, nQRTProblems, nCycle, firstCycle, nQuartet, nLastQuartet,
               Pattern(recent[0], recent[1], recent[2], recent[3]))
    }

    ghost function RingsNow(): Rings
      reads this
    {
      Rings(nBits, seedReported, seedActual, startHelicity, startPredicted)
    }

    ghost function OutNow(): Output
      reads this
    {
      Output(reported, actual, predicted, nQrt)
    }

    ghost function Contents(): State
      requires Valid()
      reads this, recent
    {
      State(ClockNow(), QuartetsNow(), RingsNow(), OutNow())
    }

    constructor (helDelay: int)
      ensures Valid() && delay == helDelay && fresh(recent)
      ensures Contents() == InitialState()
    {
      delay := helDelay;
      recent := new int[4](_ => 0);
      evNumCheck, disabled, firstEvProcessed, foundMPS, isNewCycle, lastMPSTime := 0, false, false, false, false, 0.0;
      foundQuartet, haveQRT, nQRTProblems := false, false, 0;
      nCycle, firstCycle, nQuartet, nLastQuartet := 0, -1, 0, -1;
      nBits, seedReported, seedActual, startHelicity, startPredicted := 0, ZERO, ZERO, UNKNOWN, UNKNOWN;
      reported, actual, predicted, nQrt := UNKNOWN, UNKNOWN, UNKNOWN, -1;
    }

    /** The loop that moves a seed forward one register step at a time. */
    method AdvanceSeed(seed: Register, steps: int) returns (advanced: Register)
      ensures advanced == Advance(seed, if steps > 0 then steps else 0)
    {
      advanced := seed;
      var i := 0;
      while i < steps
        invariant 0 <= i && (i <= steps || i == 0)
        invariant advanced == Advance(seed, i)
      {
        advanced := RanBit30(advanced);
        i := i + 1;
      }
    }

    method SetActualSeed()
      modifies this`seedActual, this`startHelicity, this`startPredicted, this`nBits
      ensures RingsNow() == Calibrate(seedReported, delay)
    {
      seedActual := AdvanceSeed(seedReported, if delay >= 0 then delay / 4 else -(-delay / 4));
      startHelicity := if LowBit(seedActual) then PLUS else MINUS;
      startPredicted := if LowBit(seedReported) then PLUS else MINUS;
      nBits := MAXBIT;
    }

    method AddBit(phase: int, scalerSeed: Option<Register>)
      modifies this`seedReported, this`seedActual, this`startHelicity, this`startPredicted, this`nBits
      ensures RingsNow() == AcquireBit(old(RingsNow()), reported, phase, delay, scalerSeed)
    {
      if nBits == 0 {
        seedReported := ZERO;
      }
      if (reported == PLUS && (phase == 0 || phase == 3)) || (reported == MINUS && (phase == 1 || phase == 2)) {
        seedReported := PushBit(seedReported, true);
      } else {
        seedReported := PushBit(seedReported, false);
      }
      nBits := nBits + 1;
      if reported == UNKNOWN {
        nBits := 0;
        seedReported := ZERO;
      } else if nBits == MAXBIT {
        SetActualSeed();
      } else if scalerSeed.Some? && nBits > 2 {
        seedReported := RanBit30(scalerSeed.value);
        SetActualSeed();
      }
    }

    /** At the start of a quartet: predict, and start over if the prediction fails. */
    method Predict()
      modifies this`seedReported, this`seedActual, this`startHelicity, this`startPredicted, this`nBits
      modifies this`actual, this`predicted
      ensures RingsNow() == StartQuartet(old(RingsNow()), reported)
    {
      seedReported := RanBit30(seedReported);
      seedActual := RanBit30(seedActual);
      actual := if LowBit(seedActual) then PLUS else MINUS;
      predicted := if LowBit(seedReported) then PLUS else MINUS;
      if reported != predicted {
        nBits := 0;
        actual := UNKNOWN;
        predicted := UNKNOWN;
      }
      startHelicity := actual;
      startPredicted := predicted;
    }

    method LoadHelicity(scalerSeed: Option<Register>)
      requires Valid()
      modifies this`seedReported, this`seedActual, this`startHelicity, this`startPredicted, this`nBits
      modifies this`actual, this`predicted, this`nQrt
      ensures RingsNow() == LoadRings(QuartetsNow(), old(RingsNow()), reported, delay, scalerSeed)
      ensures OutNow() == LoadOutput(QuartetsNow(), old(RingsNow()), RingsNow(), old(OutNow()))
    {
      ghost var q := QuartetsNow();
      var phase := Rem4(nCycle - firstCycle);
      nQrt := phase;
      assert QuartetsNow() == q && Phase(q) == phase;
      if nQuartet - nLastQuartet > 1 {
        if nBits < MAXBIT {
          nBits := 0;
          return;
        }
      }
      if !foundQuartet {
        return;
      }
      if nBits < MAXBIT {
        if nQuartet != nLastQuartet {
          AddBit(phase, scalerSeed);
          actual := UNKNOWN;
          assert QuartetsNow() == q;
        }
      } else {
        if phase == 0 {
          Predict();
        }
        actual := if phase == 0 || phase == 3 then startHelicity else -startHelicity;
        predicted := if phase == 0 || phase == 3 then startPredicted else -startPredicted;
        assert QuartetsNow() == q;
      }
    }

    /** Take the helicities of the current cycle from the registers. */
    method ReadRings(phase: int)
      modifies this`startHelicity, this`startPredicted, this`actual, this`predicted
      ensures RingsNow() == Refresh(old(RingsNow()))
      ensures OutNow() == FromRings(RingsNow(), phase, old(OutNow()))
    {
      startHelicity := if LowBit(seedActual) then PLUS else MINUS;
      startPredicted := if LowBit(seedReported) then PLUS else MINUS;
      actual := if phase == 0 || phase == 3 then startHelicity else -startHelicity;
      predicted := if phase == 0 || phase == 3 then startPredicted else -startPredicted;
    }

    /** Count the cycles of a gap and rewrite the pattern as the current report says it must have been. */
    method SkipPattern(newCycle: int)
      requires Valid()
      modifies this`nCycle, recent
      ensures QuartetsNow() == SkipQuartets(old(QuartetsNow()), newCycle - old(nCycle) + 1, reported, nBits >= MAXBIT)
    {
      nCycle := newCycle;
      if nBits >= MAXBIT {
        if Rem2(nCycle - firstCycle) == 1 {
          recent[0] := reported;
          recent[2] := -recent[0];
          recent[1] := recent[2];
        } else {
          recent[1] := -reported;
          recent[0] := recent[1];
          recent[2] := -recent[1];
        }
      } else {
        recent[0] := reported;
        recent[1] := 0;
      }
    }

    method MoveRings(quartets: int, phase: int)
      modifies this`seedReported, this`seedActual, this`startHelicity, this`startPredicted
      modifies this`actual, this`predicted
      ensures RingsNow() == AdvanceRings(old(RingsNow()), quartets)
      ensures OutNow() == FromRings(RingsNow(), phase, old(OutNow()))
    {
      seedReported := AdvanceSeed(seedReported, quartets);
      seedActual := AdvanceSeed(seedActual, quartets);
      ReadRings(phase);
    }

    /** A gap of more than one cycle since the last MPS accounted for. */
    method MissCycles(missed: int)
      requires Valid()
      modifies this`nCycle, this`seedReported, this`seedActual, this`startHelicity, this`startPredicted
      modifies this`actual, this`predicted, recent
      ensures Contents() == OverGap(old(Contents()), missed)
    {
      hide SkipQuartets, AdvanceRings, FromRings, Quot4, Rem4;
      var quartetBefore := Quot4(nCycle - firstCycle);
      SkipPattern(nCycle + missed - 1);
      ghost var q := QuartetsNow();
      var quartetsMissed := Quot4(nCycle - firstCycle) - quartetBefore;
      var phase := Rem4(nCycle - firstCycle);
      assert quartetsMissed == QuartetNumber(q) - QuartetNumber(old(QuartetsNow())) && phase == Phase(q);
      if nBits >= MAXBIT {
        MoveRings(quartetsMissed, phase);
        assert QuartetsNow() == q;
      } else {
        actual := UNKNOWN;
        assert QuartetsNow() == q;
      }
    }

    /** The event carries the QRT signal. */
    method LocateByQRT()
      requires Valid()
      modifies this`foundQuartet, this`haveQRT, this`nQRTProblems, this`firstCycle, this`nQuartet, this`nLastQuartet
      modifies this`nBits
      ensures var phased := PhaseFromQRT(old(QuartetsNow()));
              QuartetsNow() == phased.quartets && nBits == if phased.resetBits then 0 else old(nBits)
    {
      nLastQuartet := nQuartet;
      nQuartet := Quot4(nCycle - firstCycle);
      if haveQRT {
        if Rem4(nCycle - firstCycle) != 0 {
          nQRTProblems := nQRTProblems + 1;
          if nQRTProblems > 10 {
            haveQRT := false;
            foundQuartet := false;
            nQRTProblems := 0;
          }
        } else {
          nQRTProblems := 0;
        }
      }
      if !haveQRT {
        haveQRT := true;
        foundQuartet := true;
        firstCycle := nCycle;
        nQuartet := Quot4(nCycle - firstCycle);
        nLastQuartet := nQuartet - 1;
        nBits := 0;
        nQRTProblems := 0;
      }
    }

    /** No QRT signal so far in the run: use the pattern of reported helicities. */
    method LocateByPattern()
      requires Valid()
      modifies this`foundQuartet, this`firstCycle, this`nQuartet, this`nLastQuartet, this`nBits
      ensures var phased := PhaseFromPattern(old(QuartetsNow()));
              QuartetsNow() == phased.quartets && nBits == if phased.resetBits then 0 else old(nBits)
    {
      if Rem4(nCycle - firstCycle) == 3 {
        if IntAbs(recent[0] + recent[3] - recent[1] - recent[2]) == 4 {
          if !foundQuartet {
            nQuartet := Quot4(nCycle - firstCycle);
            nLastQuartet := nQuartet - 1;
            foundQuartet := true;
          }
        } else {
          if nCycle - firstCycle > 4 {
            firstCycle := firstCycle + 4 * Quot4(nCycle - firstCycle);
          }
          foundQuartet := false;
          nBits := 0;
          firstCycle := firstCycle + 1;
        }
      } else {
        nLastQuartet := nQuartet;
        nQuartet := Quot4(nCycle - firstCycle);
      }
    }

    method LocateCycle(isQrt: bool)
      requires Valid()
      modifies this`foundQuartet, this`haveQRT, this`nQRTProblems, this`firstCycle, this`nQuartet, this`nLastQuartet
      modifies this`nBits
      ensures var phased := FindPhase(old(QuartetsNow()), isQrt);
              QuartetsNow() == phased.quartets && nBits == if phased.resetBits then 0 else old(nBits)
    {
      if isQrt {
        LocateByQRT();
      } else if haveQRT {
        nLastQuartet := nQuartet;
        nQuartet := Quot4(nCycle - firstCycle);
        if Rem4(nCycle - firstCycle) == 0 {
          nQRTProblems := nQRTProblems + 1;
          if nQRTProblems > 10 {
            haveQRT := false;
            nBits := 0;
            nLastQuartet := nQuartet;
          }
        }
      } else {
        LocateByPattern();
      }
    }

    method PushReported()
      requires Valid()
      modifies this`nCycle, recent
      ensures QuartetsNow() == EnterCycle(old(QuartetsNow()), reported)
    {
      recent[3] := recent[2];
      recent[2] := recent[1];
      recent[1] := recent[0];
      recent[0] := reported;
      nCycle := nCycle + 1;
    }

    method EnterNextCycle(isQrt: bool)
      requires Valid()
      modifies this, recent
      ensures var phased := FindPhase(EnterCycle(old(QuartetsNow()), old(reported)), isQrt);
              QuartetsNow() == phased.quartets
              && RingsNow() == if phased.resetBits then old(RingsNow()).(nBits := 0) else old(RingsNow())
      ensures ClockNow() == old(ClockNow()) && OutNow() == old(OutNow()).(actual := UNKNOWN)
    {
      PushReported();
      LocateCycle(isQrt);
      actual := UNKNOWN;
    }

    method BeginCycle(ev: Event)
      requires Valid()
      modifies this, recent
      ensures Contents() == NewCycle(old(Contents()), ev, delay)
    {
      hide FindPhase, LoadRings, LoadOutput, EnterCycle;
      EnterNextCycle(ev.isQrt);
      LoadHelicity(ev.scalerSeed);
      isNewCycle := false;
    }

    method AccountForTime(time: real)
      requires Valid()
      modifies this, recent
      ensures Contents() == CatchUp(old(Contents()), time)
    {
      hide OverGap, Refresh, FromRings;
      if time - lastMPSTime > 1.0 {
        var missed := (time - lastMPSTime).Floor;
        if missed > 1 {
          MissCycles(missed);
        }
        lastMPSTime := lastMPSTime + missed as real;
        isNewCycle := true;
      } else if nBits >= MAXBIT {
        ReadRings(Rem4(nCycle - firstCycle));
      } else {
        actual := UNKNOWN;
      }
    }

    method DecodePhysics(ev: Event)
      requires Valid()
      modifies this, recent
      ensures Contents() == PhysicsEvent(old(Contents()), ev, delay)
    {
      AccountForTime(ev.time);
      if isNewCycle {
        BeginCycle(ev);
      }
    }

    method DecodeMPS(time: real)
      modifies this`actual, this`predicted, this`foundMPS, this`lastMPSTime, this`isNewCycle
      ensures ClockNow() == MPSClock(old(ClockNow()), time)
      ensures OutNow() == old(OutNow()).(actual := UNKNOWN, predicted := UNKNOWN)
    {
      actual := UNKNOWN;
      predicted := UNKNOWN;
      if foundMPS {
        var missed := Nint(time - lastMPSTime);
        if missed < 1 {
          lastMPSTime := (time + lastMPSTime + missed as real) / 2.0;
          isNewCycle := true;
        } else {
          lastMPSTime := (lastMPSTime + time - missed as real) / 2.0;
        }
      } else {
        foundMPS := true;
        lastMPSTime := time;
      }
    }

    method StartClock(time: real)
      modifies this`lastMPSTime, this`firstEvProcessed, this`foundMPS, this`isNewCycle
      ensures ClockNow() == old(ClockNow()).(lastMPSTime := time, firstEvProcessed := true, foundMPS := false,
                                             isNewCycle := false)
    {
      lastMPSTime := time;
      firstEvProcessed := true;
      foundMPS := false;
      isNewCycle := false;
    }

    method StartRun(time: real)
      requires Valid()
      modifies this
      ensures Contents() == FirstEvent(old(Contents()), time)
    {
      StartClock(time);
      actual := UNKNOWN;
      predicted := UNKNOWN;
      nCycle := 0;
      foundQuartet := false;
      nBits := 0;
    }

    method DecodeActive(ev: Event)
      requires Valid()
      modifies this, recent
      ensures Contents() == ActiveStep(old(Contents()), ev, delay)
    {
      if firstEvProcessed {
        if ev.isMPS {
          DecodeMPS(ev.time);
        } else if foundMPS {
          DecodePhysics(ev);
        } else {
          actual := UNKNOWN;
        }
      } else {
        StartRun(ev.time);
      }
    }

    method CheckNumber(number: int)
      requires !disabled
      modifies this`evNumCheck, this`disabled
      ensures ClockNow() == CountEvent(old(ClockNow()), number)
    {
      evNumCheck := evNumCheck + 1;
      if evNumCheck == 1 {
        evNumCheck := number;
      }
      if evNumCheck != number {
        disabled := true;
      }
    }

    method Decode(ev: Event)
      requires Valid()
      modifies this, recent
      ensures Contents() == Step(old(Contents()), ev, delay)
    {
      hide ActiveStep, ReportedOf, CountEvent;
      reported := ReportedOf(ev);
      if delay == 0 {
        actual := if ev.isMPS then UNKNOWN else reported;
        return;
      }
      if disabled {
        actual := UNKNOWN;
        return;
      }
      CheckNumber(ev.number);
      if disabled {
        actual := UNKNOWN;
        return;
      }
      actual := UNDEFINED;
      DecodeActive(ev);
    }
  }
}
