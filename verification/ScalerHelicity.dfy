/**
 How the helicity scalers follow the beam helicity: one trigger per cycle, each with a quartet bit and
 the helicity reported for a cycle nine earlier.
 */
module ScalerHelicity {
  import opened Lfsr
  import HelicityState

  const NO_CYCLE := -100
  const DELAY := 9

  /** One read of the scalers. */
  datatype Read = Read(isQuartet: bool, isPos: bool, counts: seq<real>, aboveThreshold: bool)

  datatype Lock = Lock(nTriggers: int, firstCycle: int, nBits: int, reported: Register, actual: Register)

  /** What one trigger gives: the new state, the phase in the actual quartet, and the actual helicity. */
  datatype Outcome = Outcome(lock: Lock, phase: int, helicity: int)

  const START := Lock(0, NO_CYCLE, 0, ZERO, ZERO)

  function Push(l: Lock, isPos: bool): Lock {
    l.(reported := PushBit(l.reported, isPos), nBits := l.nBits + 1)
  }

  function Reset(l: Lock): Lock {
    l.(nBits := 0, reported := ZERO, actual := ZERO, firstCycle := NO_CYCLE)
  }

  /** The quartet bit is missing where it is expected. */
  predicate Misses(l: Lock, r: Read, offset: int, phase: int) {
    l.firstCycle >= -10 && !r.isQuartet && ((phase == 0 && offset == 0) || (phase == 3 && offset == 3))
  }

  predicate MissesNext(l: Lock, r: Read, offset: int) {
    var counted := l.(nTriggers := l.nTriggers + 1);
    Misses(counted, r, offset, PhaseOf(counted))
  }

  /** The phase in the reported quartet, as the program's remainder gives it. */
  function PhaseOf(l: Lock): int {
    HelicityState.Rem4(l.nTriggers - l.firstCycle)
  }

  /** Following, or looking for, the quartets. */
  function Follow(before: Lock, r: Read, offset: int): (Lock, int) {
    var l := before.(nTriggers := before.nTriggers + 1);
    var phase := PhaseOf(l);
    if l.firstCycle >= -10 then
      var pushed := if phase == 0 then Push(l, r.isPos) else l;
      (if Misses(l, r, offset, phase) then Reset(pushed) else pushed, phase)
    else if r.isQuartet then
      var found := l.(firstCycle := l.nTriggers - offset);
      (Push(found, r.isPos), PhaseOf(found))
    else (l, phase)
  }

  /** The actual helicity, from the seed of the quartet that is two (or three) further on. */
  function Predict(l: Lock, phase: int): Outcome {
    if l.nBits >= 30 then
      var second := RanBit30(RanBit30(l.reported));
      if phase == 3 then
        var third := RanBit30(second);
        Outcome(l.(actual := third), HelicityState.Rem4(phase + 1), HelicityState.Sign(third))
      else
        var sign := HelicityState.Sign(second);
        Outcome(l.(actual := second), HelicityState.Rem4(phase + 1), if phase == 0 || phase == 1 then -sign else sign)
    else Outcome(l.(actual := ZERO), phase, 0)
  }

  function Step(l: Lock, r: Read, offset: int): Outcome {
    var (followed, phase) := Follow(l, r, offset);
    Predict(followed, phase)
  }

  function Run(series: seq<Read>, offset: int, n: nat): Lock
    requires n <= |series|
  {
    if n == 0 then START else Step(Run(series, offset, n - 1), series[n - 1], offset).lock
  }

  /** The outcome of the n-th trigger. */
  function OutcomeAt(series: seq<Read>, offset: int, n: nat): Outcome
    requires 0 < n <= |series|
  {
    Step(Run(series, offset, n - 1), series[n - 1], offset)
  }

  // ---- the source ---------------------------------------------------------------------------------------

  /**
   The helicity that is reported: quartet 0 begins with trigger number `start`, with this register,
   and each later quartet has the next one.
   */
  datatype Source = Source(register: Register, start: int)
  {
    predicate Valid() {
      start <= 1
    }

    function Quartet(t: int): (q: int)
      ensures t >= start ==> q >= 0
    {
      (t - start) / 4
    }

    function Phase(t: int): (p: int)
      ensures 0 <= p < 4
    {
      (t - start) % 4
    }

    function RegisterOf(q: int): Register
      requires q >= 0
    {
      Advance(register, q)
    }

    /** Cycles 0 and 3 of a quartet have the helicity of its bit, 1 and 2 the opposite. */
    predicate Positive(t: int)
      requires t >= start
    {
      LowBit(RegisterOf(Quartet(t))) == (Phase(t) == 0 || Phase(t) == 3)
    }
  }

  function HelicityOf(positive: bool): int {
    if positive then 1 else -1
  }

  /** Cycle offsets within a quartet; the program's default is -3. */
  predicate OffsetSound(offset: int) {
    -3 <= offset <= 3
  }

  /** A source whose quartet bit comes in phase `bitPhase` of each quartet, read with a cycle offset. */
  datatype Setup = Setup(source: Source, bitPhase: int, offset: int)
  {
    predicate Valid() {
      source.Valid() && 0 <= bitPhase < 4 && OffsetSound(offset)
    }

    /** The offset is the one for this source. */
    predicate Matches() {
      bitPhase == offset % 4
    }

    predicate Reads(t: int, r: Read)
      requires Valid() && t >= 1
    {
      r.isPos == source.Positive(t) && r.isQuartet == (source.Phase(t) == bitPhase)
    }

    predicate Reports(series: seq<Read>) {
      Valid() && forall k :: 0 <= k < |series| ==> Reads(k + 1, series[k])
    }

    /** The first trigger with a quartet bit. */
    function LockTrigger(): int {
      1 + (bitPhase - source.Phase(1)) % 4
    }

    /** What the program takes for the phase of a trigger. */
    function PhaseSeen(t: int): (p: int)
      ensures 0 <= p < 4
    {
      (t - FirstStart()) % 4
    }

    /** The first trigger after the lock that the program takes for the start of a quartet. */
    function FirstStart(): int {
      LockTrigger() + 4 - offset % 4
    }

    /** The number of quartet starts after the lock, up to trigger n. */
    function Starts(n: int): int {
      (n - FirstStart()) / 4 + 1
    }

    /** The phase in which the source is there. */
    function StartPhase(): int {
      (bitPhase - offset) % 4
    }

    /** Quartet of the source that has the last start up to trigger n. */
    function StartQuartet(n: int): int {
      source.Quartet(FirstStart()) + Starts(n) - 1
    }

    /** The register before the quartet of the first start. */
    function Base(): Register
      requires Valid()
    {
      FirstStartLater(this);
      BackStep(source.RegisterOf(source.Quartet(FirstStart())))
    }

    /** At what the program takes for the start of a quartet the source reports the bit inverted. */
    predicate Inverts() {
      StartPhase() == 1 || StartPhase() == 2
    }

    function Shown(r: Register): Register {
      if Inverts() then Complement(r) else r
    }

    /** The seed when the quartets are found. */
    function FirstSeed(): Register
      requires Valid()
    {
      PushBit(ZERO, source.Positive(LockTrigger()))
    }
  }

  // ---- following the source -------------------------------------------------------------------------------

  lemma {:induction false} SameRest(a: int, b: int, k: int)
    requires a == b + 4 * k
    ensures a % 4 == b % 4 && a / 4 == b / 4 + k
  {
  }

  lemma FirstStartLater(u: Setup)
    requires u.Valid()
    ensures 1 <= u.LockTrigger() <= 4 && u.LockTrigger() < u.FirstStart() <= 8 && u.FirstStart() >= u.source.start
    ensures u.FirstStart() == u.LockTrigger() + 4 - u.offset % 4
    ensures u.FirstStart() - u.source.start == 4 * u.source.Quartet(u.FirstStart()) + u.StartPhase()
    ensures u.Matches() <==> u.StartPhase() == 0
  {
    LockPhase(u);
    var t, s := u.LockTrigger(), u.source.start;
    SameRest(u.FirstStart() - s, u.bitPhase - u.offset, u.source.Quartet(t) + 1 + u.offset / 4);
    assert u.source.Phase(u.FirstStart()) == u.StartPhase();
  }

  lemma LockPhase(u: Setup)
    requires u.Valid()
    ensures 1 <= u.LockTrigger() <= 4 && u.source.Phase(u.LockTrigger()) == u.bitPhase
    ensures forall t :: 1 <= t < u.LockTrigger() ==> u.source.Phase(t) != u.bitPhase
  {
  }

  ghost predicate Follows(u: Setup, n: int, l: Lock) {
    && u.Valid() && l.nTriggers == n
    && if n < u.LockTrigger() then l.firstCycle == NO_CYCLE && l.nBits == 0 && l.reported == ZERO
       else
         && l.firstCycle == u.LockTrigger() - u.offset
         && l.nBits == u.Starts(n) + 1 >= 1
         && u.Shown(l.reported) == SeedFromBits(u.Shown(u.FirstSeed()), u.Base(), u.Starts(n))
  }

  /** Once the quartets are found, the phase seen goes on from there; it is the source's if the offset matches. */
  lemma SamePhase(u: Setup, t: int)
    requires u.Valid()
    ensures u.PhaseSeen(t) == (u.source.Phase(t) - u.StartPhase()) % 4
    ensures u.Matches() ==> u.PhaseSeen(t) == u.source.Phase(t)
  {
    FirstStartLater(u);
    var first, s := u.FirstStart(), u.source;
    hide Setup.FirstStart, Setup.StartPhase, Source.Phase;
    PhaseAndQuartet(s, t);
    SameRest(t - first, s.Phase(t) - u.StartPhase(), s.Quartet(t) - s.Quartet(first));
  }

  lemma PhaseAndQuartet(s: Source, t: int)
    ensures t - s.start == 4 * s.Quartet(t) + s.Phase(t)
  {
  }

  /** The program's remainder is the phase seen, up to a multiple of 4 before the first start. */
  lemma PhaseIsSeen(u: Setup, t: int)
    requires u.Valid() && t >= u.LockTrigger()
    ensures var phase := HelicityState.Rem4(t - (u.LockTrigger() - u.offset));
            (phase == 0 <==> u.PhaseSeen(t) == 0) && (phase == 3 ==> u.PhaseSeen(t) == 3)
            && (t >= u.FirstStart() ==> phase == u.PhaseSeen(t))
  {
    FirstStartLater(u);
    SameRest(t - (u.LockTrigger() - u.offset), t - u.FirstStart(), 1 + u.offset / 4);
    hide Setup.LockTrigger, Setup.FirstStart;
  }

  /** The quartet bit comes where the offset has it, in the program's phases. */
  lemma BitExpected(u: Setup, t: int)
    requires u.Valid()
    ensures u.PhaseSeen(t) == u.offset % 4 <==> u.source.Phase(t) == u.bitPhase
  {
    hide Setup.PhaseSeen, Source.Phase;
    SamePhase(u, t);
    PhaseAndOffset(u.source.Phase(t), u.bitPhase, u.offset);
  }

  lemma PhaseAndOffset(phase: int, bitPhase: int, offset: int)
    requires 0 <= phase < 4 && 0 <= bitPhase < 4 && OffsetSound(offset)
    ensures (phase - (bitPhase - offset) % 4) % 4 == offset % 4 <==> phase == bitPhase
  {
  }

  /** A start more is shown exactly at phase 0. */
  lemma NextStart(u: Setup, n: int)
    requires u.Valid() && n >= u.LockTrigger()
    ensures u.Starts(n) >= 0
    ensures u.Starts(n + 1) == u.Starts(n) + if u.PhaseSeen(n + 1) == 0 then 1 else 0
    ensures u.PhaseSeen(n + 1) == 0 ==>
              && n + 1 >= u.FirstStart() && u.source.Quartet(n + 1) == u.StartQuartet(n + 1)
              && u.source.Phase(n + 1) == u.StartPhase()
  {
    FirstStartLater(u);
  }

  /** The seed's base, advanced, is the source's register. */
  lemma BaseAdvances(u: Setup, starts: int)
    requires u.Valid() && starts >= 1
    ensures u.source.Quartet(u.FirstStart()) >= 0
    ensures Advance(u.Base(), starts) == u.source.RegisterOf(u.source.Quartet(u.FirstStart()) + starts - 1)
  {
    hide RanBit30, BackStep;
    FirstStartLater(u);
    var q := u.source.Quartet(u.FirstStart());
    BackThenStep(u.source.RegisterOf(q));
    assert Advance(u.Base(), 1) == RanBit30(Advance(u.Base(), 0));
    AdvanceAdds(u.Base(), 1, starts - 1);
    AdvanceAdds(u.source.register, q, starts - 1);
  }

  /** The bit read at a start, inverted or not, is the one that the seed lacks. */
  lemma StartPushed(u: Setup, n: int, seed: Register)
    requires u.Valid() && n >= u.FirstStart() && u.PhaseSeen(n) == 0
    requires u.Starts(n) >= 1
    requires u.Shown(seed) == SeedFromBits(u.Shown(u.FirstSeed()), u.Base(), u.Starts(n) - 1)
    ensures u.Shown(PushBit(seed, u.source.Positive(n)))
            == SeedFromBits(u.Shown(u.FirstSeed()), u.Base(), u.Starts(n))
  {
    hide PushBit, Complement, Advance, RanBit30;
    FirstStartLater(u);
    NextStart(u, n - 1);
    BaseAdvances(u, u.Starts(n));
    var bit := LowBit(u.source.RegisterOf(u.source.Quartet(n)));
    assert u.source.Positive(n) == (bit != u.Inverts());
    ComplementPush(seed, u.source.Positive(n));
  }

  /** The quartet bit is never missed, whatever its phase. */
  lemma NeverMissed(u: Setup, n: nat, l: Lock, r: Read)
    requires u.Valid() && Follows(u, n, l) && u.Reads(n + 1, r)
    ensures !MissesNext(l, r, u.offset)
  {
    hide SeedFromBits, Setup.Base, Setup.FirstSeed, Setup.Shown, Setup.FirstStart, Setup.LockTrigger, Setup.PhaseSeen;
    hide Setup.Starts, Source.Phase, Source.Positive, HelicityState.Rem4;
    if n >= u.LockTrigger() {
      FirstStartLater(u);
      PhaseIsSeen(u, n + 1);
      BitExpected(u, n + 1);
    }
  }

  /** One trigger, while the quartets have been found. */
  lemma StepFollowing(u: Setup, n: nat, l: Lock, r: Read)
    requires Follows(u, n, l) && n >= u.LockTrigger() && u.Reads(n + 1, r)
    ensures Follows(u, n + 1, Follow(l, r, u.offset).0)
    ensures n + 1 >= u.FirstStart() ==> Follow(l, r, u.offset).1 == u.PhaseSeen(n + 1)
  {
    hide SeedFromBits, PushBit, LowBit, Advance, Setup.Base, Setup.FirstSeed, Setup.Shown;
    hide Setup.FirstStart, Setup.LockTrigger, Setup.PhaseSeen, Setup.Starts, Source.Phase, HelicityState.Rem4;
    FirstStartLater(u);
    PhaseIsSeen(u, n + 1);
    BitExpected(u, n + 1);
    NextStart(u, n);
    if u.PhaseSeen(n + 1) == 0 {
      StartPushed(u, n + 1, l.reported);
    }
  }

  /** One trigger, while the quartets are looked for. */
  lemma StepSearching(u: Setup, n: nat, l: Lock, r: Read)
    requires Follows(u, n, l) && n < u.LockTrigger() && u.Reads(n + 1, r)
    ensures Follows(u, n + 1, Follow(l, r, u.offset).0)
  {
    hide PushBit, LowBit, Advance, Setup.Base;
    hide Setup.FirstStart, Setup.LockTrigger, Source.Phase, HelicityState.Rem4;
    FirstStartLater(u);
    LockPhase(u);
    assert u.Starts(u.LockTrigger()) == 0;
  }

  lemma PredictKeeps(u: Setup, n: int, l: Lock, phase: int)
    requires Follows(u, n, l)
    ensures Follows(u, n, Predict(l, phase).lock)
  {
  }

  /**
   Whatever the offset and the phase of the quartet bit, the program follows the quartets as it takes
   them, and its seed is that of the bits shown at their starts, inverted or not.
   */
  lemma {:induction false} RunFollows(u: Setup, series: seq<Read>, n: nat)
    requires u.Reports(series) && n <= |series|
    ensures Follows(u, n, Run(series, u.offset, n))
  {
    hide Follows, Follow, Predict;
    if n == 0 {
      StartFollows(u);
    } else {
      RunFollows(u, series, n - 1);
      StepFollows(u, n - 1, Run(series, u.offset, n - 1), series[n - 1]);
    }
  }

  lemma StartFollows(u: Setup)
    requires u.Valid()
    ensures Follows(u, 0, START)
  {
    FirstStartLater(u);
  }

  lemma StepFollows(u: Setup, n: nat, l: Lock, r: Read)
    requires u.Valid() && Follows(u, n, l) && u.Reads(n + 1, r)
    ensures Follows(u, n + 1, Step(l, r, u.offset).lock) && Follows(u, n + 1, Follow(l, r, u.offset).0)
    ensures n + 1 >= u.FirstStart() ==> Follow(l, r, u.offset).1 == u.PhaseSeen(n + 1)
  {
    hide Follows, Follow, Predict;
    if n < u.LockTrigger() {
      FirstStartLater(u);
      StepSearching(u, n, l, r);
    } else {
      StepFollowing(u, n, l, r);
    }
    var (followed, phase) := Follow(l, r, u.offset);
    PredictKeeps(u, n + 1, followed, phase);
  }

  // ---- the actual helicity --------------------------------------------------------------------------------

  /**
   With thirty bits, all but the top bit of the seed are those of the source's register, or all
   inverted; with one bit more, or if the first bit was right, the top bit is as well.
   */
  lemma SeedIsRegister(u: Setup, n: int, l: Lock)
    requires Follows(u, n, l) && l.nBits >= 30
    ensures n >= u.FirstStart() && u.StartQuartet(n) >= 0
    ensures HoldsBits(u.Shown(l.reported), u.source.RegisterOf(u.StartQuartet(n)), 29)
    ensures l.nBits >= 31 || (u.Matches() && (u.bitPhase == 0 || u.bitPhase == 3))
            ==> u.Shown(l.reported) == u.source.RegisterOf(u.StartQuartet(n))
  {
    hide SeedFromBits, Advance, Setup.Base, RanBit30, Complement, PushBit;
    FirstStartLater(u);
    BitsGained(u.Shown(u.FirstSeed()), u.Base(), 0, u.Starts(n));
    BaseAdvances(u, u.Starts(n));
    var seed, full := u.Shown(l.reported), u.source.RegisterOf(u.StartQuartet(n));
    if l.nBits >= 31 {
      AllBits(seed, full);
    } else {
      FewerBits(seed, full, u.Starts(n), 29);
      if u.Matches() && (u.bitPhase == 0 || u.bitPhase == 3) {
        FirstBitRight(u);
        BitsGained(u.Shown(u.FirstSeed()), u.Base(), 1, u.Starts(n));
        AllBits(seed, full);
      }
    }
  }

  lemma FirstBitRight(u: Setup)
    requires u.Valid() && u.Matches() && (u.bitPhase == 0 || u.bitPhase == 3)
    ensures HoldsBits(u.Shown(u.FirstSeed()), u.Base(), 1)
  {
    FirstStartLater(u);
    var q := u.source.Quartet(u.LockTrigger());
    assert u.source.Quartet(u.FirstStart()) == q + 1;
    StepThenBack(u.source.RegisterOf(q));
    assert u.Base() == u.source.RegisterOf(q);
    hide Advance, RanBit30, BackStep;
  }

  /** The signs that are given: those of the register two, or three, quartets on, inverted or not alike. */
  lemma SignsGiven(u: Setup, n: int, l: Lock)
    requires Follows(u, n, l) && l.nBits >= 30
    ensures n >= u.FirstStart() && u.StartQuartet(n) >= 0
    ensures var second, q := RanBit30(RanBit30(l.reported)), u.StartQuartet(n);
            && LowBit(second) == LowBit(u.source.RegisterOf(q + 2))
            && LowBit(RanBit30(second)) == LowBit(u.source.RegisterOf(q + 3))
  {
    hide RanBit30, Follows, Complement;
    SeedIsRegister(u, n, l);
    var full := u.source.RegisterOf(u.StartQuartet(n));
    TwoOrThreeSteps(u.source, u.StartQuartet(n));
    TopBitUnused(u.Shown(l.reported), full);
    ComplementForgotten(l.reported);
    hide Advance, HoldsBits;
  }

  lemma TwoOrThreeSteps(s: Source, q: nat)
    ensures RanBit30(RanBit30(s.RegisterOf(q))) == s.RegisterOf(q + 2)
    ensures RanBit30(s.RegisterOf(q + 2)) == s.RegisterOf(q + 3)
  {
    hide RanBit30;
    assert s.RegisterOf(q + 1) == RanBit30(s.RegisterOf(q));
    assert s.RegisterOf(q + 2) == RanBit30(s.RegisterOf(q + 1));
  }

  /** The bit of a quartet. */
  predicate BitOf(s: Source, q: nat) {
    LowBit(s.RegisterOf(q))
  }

  /** The actual helicity that is given, from the phase that the program sees. */
  function Given(u: Setup, n: int): int
    requires u.StartQuartet(n) >= 0
  {
    var q, phase := u.StartQuartet(n), u.PhaseSeen(n);
    if phase == 3 then HelicityOf(BitOf(u.source, q + 3))
    else HelicityOf(BitOf(u.source, q + 2) == (phase == 2))
  }

  /** What the source reports nine cycles later. */
  function Truth(u: Setup, n: int): int
    requires u.Valid() && n >= 1
  {
    HelicityOf(u.source.Positive(n + DELAY))
  }

  lemma PredictGives(u: Setup, n: int, l: Lock)
    requires Follows(u, n, l) && l.nBits >= 30
    ensures n >= u.FirstStart() && u.StartQuartet(n) >= 0
    ensures Predict(l, u.PhaseSeen(n)).helicity == Given(u, n)
    ensures Predict(l, u.PhaseSeen(n)).phase == (u.PhaseSeen(n) + 1) % 4
  {
    hide LowBit, PushBit, Setup.LockTrigger;
    hide Follows, RanBit30, Advance, Source.RegisterOf, Setup.FirstStart, Setup.StartQuartet, Setup.PhaseSeen;
    SignsGiven(u, n, l);
  }

  /** The cycles since the start of a quartet, as the program and as the source have it. */
  lemma SinceStart(u: Setup, n: int)
    requires u.Valid() && n >= u.FirstStart()
    ensures u.StartQuartet(n) >= 0
    ensures n - u.source.start == 4 * u.StartQuartet(n) + u.StartPhase() + u.PhaseSeen(n)
  {
    FirstStartLater(u);
  }

  /** With the matching offset every answer is right. */
  lemma GivenRight(u: Setup, n: int)
    requires u.Valid() && n >= u.FirstStart() && u.Matches()
    ensures u.StartQuartet(n) >= 0 && n >= 1
    ensures Given(u, n) == Truth(u, n) && (u.PhaseSeen(n) + 1) % 4 == u.source.Phase(n + DELAY)
  {
    hide Advance;
    FirstStartLater(u);
    SinceStart(u, n);
    LaterBy(u, n);
  }

  /** Quartet and phase nine cycles later. */
  lemma LaterBy(u: Setup, n: int)
    requires u.Valid() && n >= u.FirstStart()
    ensures var k := u.StartPhase() + u.PhaseSeen(n) + 9;
            && u.source.Quartet(n + DELAY) == u.StartQuartet(n) + k / 4 && u.source.Phase(n + DELAY) == k % 4
  {
    SinceStart(u, n);
  }

  /** The prediction is right: it is what the source reports nine cycles later. */
  lemma PredictRight(u: Setup, t: int, l: Lock)
    requires Follows(u, t, l) && l.nBits >= 30 && u.Matches()
    ensures t >= 1 && Predict(l, u.source.Phase(t)).helicity == HelicityOf(u.source.Positive(t + DELAY))
    ensures Predict(l, u.source.Phase(t)).phase == u.source.Phase(t + DELAY)
  {
    hide Predict, Given, Advance;
    PredictGives(u, t, l);
    GivenRight(u, t);
    SamePhase(u, t);
  }

  /** The trigger after a start is in the same quartet, as the program takes it. */
  lemma AfterStart(u: Setup, n: int)
    requires u.PhaseSeen(n) == 0
    ensures u.PhaseSeen(n + 1) == 1 && u.StartQuartet(n + 1) == u.StartQuartet(n)
  {
  }

  /** With any other offset one of the first two answers of each quartet is wrong. */
  lemma GivenWrong(u: Setup, n: int)
    requires u.Valid() && n >= u.FirstStart() && !u.Matches() && u.PhaseSeen(n) == 0
    ensures n >= 1 && u.StartQuartet(n) >= 0 && u.StartQuartet(n + 1) >= 0
    ensures Given(u, n) != Truth(u, n) || Given(u, n + 1) != Truth(u, n + 1)
  {
    hide Source.RegisterOf, Setup.FirstStart, Setup.StartQuartet, Setup.PhaseSeen, Source.Quartet, Source.Phase;
    hide BitOf, Truth, Setup.Matches, Setup.LockTrigger;
    FirstStartLater(u);
    AfterStart(u, n);
    TruthIs(u, n);
    TruthIs(u, n + 1);
  }

  /** The truth nine cycles on, in terms of the quartet that was started. */
  lemma TruthIs(u: Setup, n: int)
    requires u.Valid() && n >= u.FirstStart()
    ensures n >= 1 && u.StartQuartet(n) >= 0
    ensures var k := u.StartPhase() + u.PhaseSeen(n) + 9;
            Truth(u, n) == HelicityOf(BitOf(u.source, u.StartQuartet(n) + k / 4) == (k % 4 == 0 || k % 4 == 3))
  {
    hide Source.RegisterOf, Setup.StartQuartet, Setup.PhaseSeen, Source.Quartet, Source.Phase;
    FirstStartLater(u);
    SinceStart(u, n);
    LaterBy(u, n);
  }

  /** ... and the phase of every answer is. */
  lemma PhaseWrong(u: Setup, n: int)
    requires u.Valid() && n >= u.FirstStart() && !u.Matches()
    ensures (u.PhaseSeen(n) + 1) % 4 != u.source.Phase(n + DELAY)
  {
    hide Setup.FirstStart, Setup.PhaseSeen, Source.Phase, Setup.Matches, Setup.StartQuartet, Source.Quartet;
    FirstStartLater(u);
    LaterBy(u, n);
    OtherPhase(u.StartPhase(), u.PhaseSeen(n));
  }

  lemma OtherPhase(e: int, p: int)
    requires 0 < e < 4 && 0 <= p < 4
    ensures (p + 1) % 4 != (e + p + 9) % 4
  {
  }

  /** Thirty bits are there by the 120th trigger at the latest. */
  lemma BitsByThen(u: Setup, t: int, l: Lock)
    requires Follows(u, t, l) && t >= 120
    ensures l.nBits >= 30
  {
    FirstStartLater(u);
    hide SeedFromBits, Setup.Base, Setup.FirstSeed;
  }

  lemma PredictBits(l: Lock, phase: int)
    ensures Predict(l, phase).lock.nBits == l.nBits && (l.nBits < 30 ==> Predict(l, phase).helicity == 0)
  {
  }

  /** What is answered at each trigger. */
  lemma AnswerAt(u: Setup, series: seq<Read>, t: nat)
    requires u.Reports(series) && 0 < t <= |series|
    ensures var o := OutcomeAt(series, u.offset, t);
            && (t >= 120 ==> o.lock.nBits >= 30)
            && (o.lock.nBits >= 30 ==> t >= u.FirstStart() && u.StartQuartet(t) >= 0
                                       && o.helicity == Given(u, t) && o.phase == (u.PhaseSeen(t) + 1) % 4)
            && (o.lock.nBits < 30 ==> o.helicity == 0)
  {
    hide Follow, Predict, Follows, Run, Given;
    var l, r := Run(series, u.offset, t - 1), series[t - 1];
    RunFollows(u, series, t - 1);
    StepFollows(u, t - 1, l, r);
    var (followed, phase) := Follow(l, r, u.offset);
    PredictBits(followed, phase);
    if t >= 120 {
      BitsByThen(u, t, followed);
    }
    if followed.nBits >= 30 {
      PredictGives(u, t, followed);
    }
  }

  /**
   With the matching offset, the default -3 included: the actual helicity, from the first trigger
   with thirty bits on and at the latest from trigger 120, is the one the source will report nine
   cycles later; before, it is left undetermined.
   */
  lemma ActualHelicityRight(u: Setup, series: seq<Read>, t: nat)
    requires u.Reports(series) && u.Matches() && 0 < t <= |series|
    ensures var o := OutcomeAt(series, u.offset, t);
            && (t >= 120 ==> o.lock.nBits >= 30)
            && (o.lock.nBits >= 30 ==> o.helicity == HelicityOf(u.source.Positive(t + DELAY))
                                       && o.phase == u.source.Phase(t + DELAY))
            && (o.lock.nBits < 30 ==> o.helicity == 0)
  {
    AnswerAt(u, series, t);
    hide OutcomeAt, Given;
    if OutcomeAt(series, u.offset, t).lock.nBits >= 30 {
      GivenRight(u, t);
    }
  }

  /**
   In a run of 124 triggers or more the helicities are right from thirty bits on exactly when the
   offset matches the phase of the quartet bit.
   */
  lemma RightIffMatching(u: Setup, series: seq<Read>)
    requires u.Reports(series) && |series| >= 124
    ensures (forall t: nat :: 0 < t <= |series| && OutcomeAt(series, u.offset, t).lock.nBits >= 30 ==>
               OutcomeAt(series, u.offset, t).helicity == HelicityOf(u.source.Positive(t + DELAY)))
            <==> u.Matches()
  {
    hide OutcomeAt, Given, Setup.Matches, Setup.FirstStart, Setup.PhaseSeen, Source.Positive;
    if u.Matches() {
      forall t: nat | 0 < t <= |series| && OutcomeAt(series, u.offset, t).lock.nBits >= 30
        ensures OutcomeAt(series, u.offset, t).helicity == HelicityOf(u.source.Positive(t + DELAY))
      {
        ActualHelicityRight(u, series, t);
      }
    } else {
      var t := StartAround(u);
      AnswerAt(u, series, t);
      AnswerAt(u, series, t + 1);
      GivenWrong(u, t);
    }
  }

  /** The phase that goes with a known helicity is right exactly when the offset matches. */
  lemma PhaseRightIffMatching(u: Setup, series: seq<Read>, t: nat)
    requires u.Reports(series) && 0 < t <= |series| && OutcomeAt(series, u.offset, t).lock.nBits >= 30
    ensures OutcomeAt(series, u.offset, t).phase == u.source.Phase(t + DELAY) <==> u.Matches()
  {
    hide OutcomeAt, Given;
    AnswerAt(u, series, t);
    if u.Matches() {
      GivenRight(u, t);
    } else {
      PhaseWrong(u, t);
    }
  }

  lemma StartAround(u: Setup) returns (t: nat)
    requires u.Valid()
    ensures 120 <= t < 124 && u.PhaseSeen(t) == 0
  {
    t := 120 + (u.FirstStart() - 120) % 4;
  }

  /**
   The default offset with the quartet bit in the last cycle of each quartet: from the 31st bit on
   the seed is the complement of the register, and the helicity at each start of a quartet, as the
   program takes it, has the wrong sign.
   */
  lemma DefaultWithEarlyBit(u: Setup, series: seq<Read>, t: nat)
    requires u.Reports(series) && u.offset == -3 && u.bitPhase == 3 && 0 < t <= |series|
    requires OutcomeAt(series, -3, t).lock.nBits >= 31
    ensures u.StartQuartet(t) >= 0
    ensures OutcomeAt(series, -3, t).lock.reported == Complement(u.source.RegisterOf(u.StartQuartet(t)))
    ensures OutcomeAt(series, -3, t).phase == 1 ==>
              OutcomeAt(series, -3, t).helicity == -HelicityOf(u.source.Positive(t + DELAY))
  {
    hide Follows, Step, Advance, Complement, HoldsBits, Given;
    RunFollows(u, series, t);
    SeedIsRegister(u, t, Run(series, -3, t));
    ComplementTwice(Run(series, -3, t).reported);
    AnswerAt(u, series, t);
    if u.PhaseSeen(t) == 0 {
      GivenInverted(u, t);
    }
    hide Run, Setup.PhaseSeen, Setup.StartQuartet;
  }

  lemma GivenInverted(u: Setup, n: int)
    requires u.Valid() && n >= u.FirstStart() && u.offset == -3 && u.bitPhase == 3 && u.PhaseSeen(n) == 0
    ensures n >= 1 && u.StartQuartet(n) >= 0 && Given(u, n) == -Truth(u, n)
  {
    hide Advance;
    FirstStartLater(u);
    LaterBy(u, n);
    SinceStart(u, n);
  }

  /** Over a quartet of actual phases 0 to 3 the helicity is b, -b, -b, b. */
  lemma QuartetPattern(u: Setup, series: seq<Read>, t: nat)
    requires u.Reports(series) && u.Matches() && 0 < t && t + 3 <= |series|
    requires OutcomeAt(series, u.offset, t).lock.nBits >= 30 && OutcomeAt(series, u.offset, t).phase == 0
    ensures var b := OutcomeAt(series, u.offset, t).helicity;
            && (b == 1 || b == -1)
            && IsAnswer(OutcomeAt(series, u.offset, t + 1), 1, -b)
            && IsAnswer(OutcomeAt(series, u.offset, t + 2), 2, -b)
            && IsAnswer(OutcomeAt(series, u.offset, t + 3), 3, b)
  {
    hide OutcomeAt;
    KnownLater(u, series, t, t);
    KnownLater(u, series, t, t + 1);
    KnownLater(u, series, t, t + 2);
    KnownLater(u, series, t, t + 3);
    hide Advance;
  }

  predicate IsAnswer(o: Outcome, phase: int, helicity: int) {
    o.phase == phase && o.helicity == helicity
  }

  lemma KnownLater(u: Setup, series: seq<Read>, t: nat, later: nat)
    requires u.Reports(series) && u.Matches() && 0 < t <= later <= |series|
    requires OutcomeAt(series, u.offset, t).lock.nBits >= 30
    ensures OutcomeAt(series, u.offset, later).helicity == HelicityOf(u.source.Positive(later + DELAY))
    ensures OutcomeAt(series, u.offset, later).phase == u.source.Phase(later + DELAY)
  {
    StaysKnown(u, series, t, later);
    ActualHelicityRight(u, series, later);
  }

  /** The number of bits does not go down again. */
  lemma StaysKnown(u: Setup, series: seq<Read>, t: nat, later: nat)
    requires u.Reports(series) && 0 < t <= later <= |series|
    requires OutcomeAt(series, u.offset, t).lock.nBits >= 30
    ensures OutcomeAt(series, u.offset, later).lock.nBits >= 30
  {
    FirstStartLater(u);
    RunFollows(u, series, t);
    RunFollows(u, series, later);
    hide Step, SeedFromBits, Setup.Base;
    assert u.Starts(later) >= u.Starts(t);
  }
}
