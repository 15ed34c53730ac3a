/** The helicity scalers: counts sorted by actual helicity, and asymmetries quartet by quartet. */
module HelicityScaler {
  import opened Basics
  import opened Lfsr
  import HelicityState
  import opened ScalerHelicity
  import opened QuartetSums

  // ---- runs in which no quartet bit is missing ------------------------------------------------------------

  /** Between triggers: either no quartet was found, or its first cycle is known. */
  predicate Sane(l: Lock) {
    && l.nTriggers >= 0
    && if l.firstCycle == NO_CYCLE then l.nBits == 0
       else -2 <= l.firstCycle <= l.nTriggers + 3 && l.nBits >= 1 && (l.nBits >= 2 ==> l.firstCycle <= l.nTriggers)
  }

  lemma StepSane(l: Lock, r: Read, offset: int)
    requires Sane(l) && OffsetSound(offset)
    ensures var o := Step(l, r, offset);
            && Sane(o.lock) && o.lock.nTriggers == l.nTriggers + 1
            && (o.helicity != 0 <==> o.lock.nBits >= 30)
            && (o.helicity != 0 ==> (o.helicity == 1 || o.helicity == -1) && 0 <= o.phase < 4
                                    && o.phase == (o.lock.nTriggers - o.lock.firstCycle + 1) % 4)
  {
    hide RanBit30, PushBit;
  }

  /** Without a missing bit, a known helicity stays known and the phase goes on. */
  lemma StepRegular(l: Lock, r: Read, offset: int)
    requires Sane(l) && OffsetSound(offset) && l.nBits >= 30 && !MissesNext(l, r, offset)
    ensures var o := Step(l, r, offset);
            o.helicity != 0 && o.lock.firstCycle == l.firstCycle && o.phase == (l.nTriggers - l.firstCycle + 2) % 4
  {
    hide RanBit30, PushBit;
  }

  predicate NeverMisses(series: seq<Read>, offset: int) {
    forall k :: 0 <= k < |series| ==> !MissesNext(Run(series, offset, k), series[k], offset)
  }

  lemma {:induction false} RunSane(series: seq<Read>, offset: int, n: nat)
    requires OffsetSound(offset) && n <= |series|
    ensures Sane(Run(series, offset, n)) && Run(series, offset, n).nTriggers == n
  {
    hide Step;
    if n > 0 {
      RunSane(series, offset, n - 1);
      StepSane(Run(series, offset, n - 1), series[n - 1], offset);
    }
  }

  function TickOf(o: Outcome, r: Read): Tick {
    Tick(o.phase, o.helicity, r.aboveThreshold, r.counts)
  }

  function TickAt(series: seq<Read>, offset: int, k: nat): Tick
    requires k < |series|
  {
    TickOf(OutcomeAt(series, offset, k + 1), series[k])
  }

  /** The first n triggers. */
  function Ticks(series: seq<Read>, offset: int, n: nat): (ticks: seq<Tick>)
    requires n <= |series|
    ensures |ticks| == n
  {
    if n == 0 then [] else Ticks(series, offset, n - 1) + [TickAt(series, offset, n - 1)]
  }

  lemma {:induction false} TickIs(series: seq<Read>, offset: int, n: nat, k: nat)
    requires k < n <= |series|
    ensures Ticks(series, offset, n)[k] == TickAt(series, offset, k)
  {
    hide TickAt;
    if k < n - 1 {
      TickIs(series, offset, n - 1, k);
    }
  }

  /** One trigger after another, in a run where no quartet bit is missing. */
  lemma TickRegular(series: seq<Read>, offset: int, k: nat)
    requires OffsetSound(offset) && k < |series|
    requires TickAt(series, offset, k).helicity != 0
    requires k + 1 < |series| ==> !MissesNext(Run(series, offset, k + 1), series[k + 1], offset)
    ensures 0 <= TickAt(series, offset, k).phase < 4
    ensures k + 1 < |series| ==>
              && TickAt(series, offset, k + 1).helicity != 0
              && TickAt(series, offset, k + 1).phase == (TickAt(series, offset, k).phase + 1) % 4
  {
    hide Step, MissesNext;
    RunSane(series, offset, k);
    StepSane(Run(series, offset, k), series[k], offset);
    if k + 1 < |series| {
      StepRegular(Run(series, offset, k + 1), series[k + 1], offset);
    }
  }

  lemma TicksRegular(series: seq<Read>, offset: int, n: nat)
    requires OffsetSound(offset) && NeverMisses(series, offset) && n <= |series|
    ensures Regular(Ticks(series, offset, n))
  {
    hide TickAt, MissesNext, Run, Ticks;
    var ticks := Ticks(series, offset, n);
    forall k | 0 <= k < n && ticks[k].helicity != 0
      ensures 0 <= ticks[k].phase < 4
      ensures k + 1 < n ==> ticks[k + 1].helicity != 0 && ticks[k + 1].phase == (ticks[k].phase + 1) % 4
    {
      TickIs(series, offset, n, k);
      TickRegular(series, offset, k);
      if k + 1 < n {
        TickIs(series, offset, n, k + 1);
      }
    }
  }

  // ---- sums by helicity -----------------------------------------------------------------------------------

  datatype Totals = Totals(plus: seq<real>, minus: seq<real>, all: seq<real>, nPlus: nat, nMinus: nat)

  function AddEach(sums: seq<real>, counts: seq<real>): (r: seq<real>)
    requires |sums| == |counts|
    ensures |r| == |sums| && forall i :: 0 <= i < |r| ==> r[i] == sums[i] + counts[i]
  {
    seq(|sums|, i requires 0 <= i < |sums| => sums[i] + counts[i])
  }

  predicate Sized(t: Totals, n: nat) {
    |t.plus| == |t.minus| == |t.all| == n
  }

  function AddTotals(t: Totals, helicity: int, counts: seq<real>): Totals
    requires Sized(t, |counts|)
  {
    if helicity == 0 then t
    else
      var all := AddEach(t.all, counts);
      if helicity > 0 then t.(plus := AddEach(t.plus, counts), all := all, nPlus := t.nPlus + 1)
      else t.(minus := AddEach(t.minus, counts), all := all, nMinus := t.nMinus + 1)
  }

  /** Nothing is lost between the helicities. */
  predicate Balanced(t: Totals) {
    && Sized(t, |t.all|)
    && forall i :: 0 <= i < |t.all| ==> t.plus[i] + t.minus[i] == t.all[i]
  }

  lemma StaysBalanced(t: Totals, helicity: int, counts: seq<real>)
    requires Balanced(t) && |t.all| == |counts|
    ensures Balanced(AddTotals(t, helicity, counts))
  {
  }

  // ---- sums by quartet --------------------------------------------------------------------------------------

  datatype Sums = Sums(count: nat, total: seq<real>, asymSum: seq<Option<real>>, asymSum2: seq<Option<real>>)

  predicate Shaped(s: Sums, n: nat) {
    |s.total| == |s.asymSum| == |s.asymSum2| == n
  }

  function QuartetAsymmetry(helicity: int, counts: seq<seq<real>>, i: nat): Option<real>
    requires |counts| == 4 && forall k :: 0 <= k < 4 ==> i < |counts[k]|
  {
    Asymmetry(helicity, counts[0][i], counts[1][i], counts[2][i], counts[3][i])
  }

  predicate FourOf(counts: seq<seq<real>>, n: nat) {
    |counts| == 4 && forall k :: 0 <= k < 4 ==> |counts[k]| == n
  }

  function AddQuartet(s: Sums, helicity: int, counts: seq<seq<real>>): (r: Sums)
    requires FourOf(counts, |s.total|) && Shaped(s, |s.total|)
    ensures Shaped(r, |s.total|)
  {
    var n := |s.total|;
    Sums(s.count + 1,
         seq(n, i requires 0 <= i < n => s.total[i] + (counts[0][i] + counts[1][i] + counts[2][i] + counts[3][i])),
         seq(n, i requires 0 <= i < n => Plus(s.asymSum[i], QuartetAsymmetry(helicity, counts, i))),
         seq(n, i requires 0 <= i < n => Plus(s.asymSum2[i], Squared(QuartetAsymmetry(helicity, counts, i)))))
  }

  /** The last four triggers up to number n make a complete quartet. */
  predicate CompleteAt(ticks: seq<Tick>, n: nat) {
    n >= 3 && Taken(ticks, n - 3, 3)
  }

  function LastFour(ticks: seq<Tick>, n: nat, i: nat): Option<real>
    requires 3 <= n < |ticks| && forall k :: 0 <= k < |ticks| ==> i < |ticks[k].counts|
  {
    Asymmetry(ticks[n].helicity, ticks[n - 3].counts[i], ticks[n - 2].counts[i], ticks[n - 1].counts[i],
              ticks[n].counts[i])
  }

  /** The asymmetries of one channel in the quartets counted so far. */
  function Asymmetries(ticks: seq<Tick>, n: nat, i: nat): seq<Option<real>>
    requires Regular(ticks) && n <= |ticks| && forall k :: 0 <= k < |ticks| ==> i < |ticks[k].counts|
  {
    if n == 0 then []
    else if CompleteAt(ticks, n - 1) then Asymmetries(ticks, n - 1, i) + [LastFour(ticks, n - 1, i)]
    else Asymmetries(ticks, n - 1, i)
  }

  /** Later cycles are only taken after earlier ones, and taken cycles have all channels. */
  predicate InTurn(c: Cycles, n: nat) {
    && c.Valid()
    && (c.have[3] ==> c.have[2]) && (c.have[2] ==> c.have[1]) && (c.have[1] ==> c.have[0])
    && forall k :: 0 <= k < 4 && c.have[k] ==> |c.counts[k]| == n
  }

  lemma FilledInTurn(c: Cycles, t: Tick, n: nat)
    requires InTurn(c, n) && 0 <= t.phase < 4 && |t.counts| == n
    ensures InTurn(Fill(c, t), n)
    ensures Fill(c, t).have[3] ==> FourOf(Fill(c, t).counts, n)
  {
  }

  /** All that is kept between triggers. */
  datatype State = State(lock: Lock, totals: Totals, cycles: Cycles, sums: Sums)

  predicate Ready(st: State, n: nat) {
    && Sane(st.lock) && Sized(st.totals, n) && InTurn(st.cycles, n) && Shaped(st.sums, n)
  }

  function FillIfKnown(c: Cycles, t: Tick): Cycles
    requires c.Valid() && (t.helicity != 0 ==> 0 <= t.phase < 4)
  {
    if t.helicity == 0 then c else Fill(c, t)
  }

  /** The quartet is complete: last phase, and the current was high enough all the time. */
  predicate Completes(c: Cycles, t: Tick)
    requires c.Valid()
  {
    t.helicity != 0 && t.phase == 3 && c.have[3]
  }

  function SumIfComplete(s: Sums, c: Cycles, t: Tick, n: nat): Sums
    requires InTurn(c, n) && Shaped(s, n)
  {
    if Completes(c, t) then AddQuartet(s, t.helicity, c.counts) else s
  }

  function Analyzed(st: State, r: Read, offset: int): State
    requires OffsetSound(offset) && Ready(st, |r.counts|)
  {
    StepSane(st.lock, r, offset);
    var o := Step(st.lock, r, offset);
    var t, n := TickOf(o, r), |r.counts|;
    FilledIfKnown(st.cycles, t, n);
    var cycles := FillIfKnown(st.cycles, t);
    State(o.lock, AddTotals(st.totals, o.helicity, r.counts), cycles, SumIfComplete(st.sums, cycles, t, n))
  }

  lemma FilledIfKnown(c: Cycles, t: Tick, n: nat)
    requires InTurn(c, n) && (t.helicity != 0 ==> 0 <= t.phase < 4) && |t.counts| == n
    ensures InTurn(FillIfKnown(c, t), n)
  {
    if t.helicity != 0 {
      FilledInTurn(c, t, n);
    }
  }

  class Scaler {
    const nChannels: nat
    const offset: int

    var nTriggers: int
    var firstCycle: int
    var nBits: int
    var ringSeedReported: Register
    var ringSeedActual: Register
    var quartetPhase: int
    var actualHelicity: int
    var totals: Totals
    var cycles: Cycles
    var sums: Sums

    constructor (nChannels: nat, offset: int)
      ensures this.nChannels == nChannels && this.offset == offset
      ensures Contents() == Beginning(nChannels)
    {
      this.nChannels, this.offset := nChannels, offset;
      nTriggers, firstCycle, nBits, ringSeedReported, ringSeedActual := 0, NO_CYCLE, 0, ZERO, ZERO;
      quartetPhase, actualHelicity := 0, 0;
      totals, cycles, sums := Beginning(nChannels).totals, INITIAL, Beginning(nChannels).sums;
    }

    function LockOf(): Lock
      reads this
    {
      Lock(nTriggers, firstCycle, nBits, ringSeedReported, ringSeedActual)
    }

    function Contents(): State
      reads this
    {
      State(LockOf(), totals, cycles, sums)
    }

    predicate Valid()
      reads this
    {
      OffsetSound(offset) && Ready(Contents(), nChannels) && Balanced(totals)
    }

    method ResetSeeds()
      modifies this`nBits, this`ringSeedReported, this`ringSeedActual, this`firstCycle
      ensures LockOf() == Reset(old(LockOf()))
    {
      nBits := 0;
      ringSeedReported := ZERO;
      ringSeedActual := ZERO;
      firstCycle := NO_CYCLE;
    }

    method PushReported(isPos: bool)
      modifies this`nBits, this`ringSeedReported
      ensures LockOf() == Push(old(LockOf()), isPos)
    {
      ringSeedReported := PushBit(ringSeedReported, isPos);
      nBits := nBits + 1;
    }

    method FollowQuartets(r: Read) returns (phase: int)
      modifies this`nTriggers, this`firstCycle, this`nBits, this`ringSeedReported, this`ringSeedActual
      ensures (LockOf(), phase) == Follow(old(LockOf()), r, offset)
    {
      nTriggers := nTriggers + 1;
      phase := HelicityState.Rem4(nTriggers - firstCycle);
      if firstCycle >= -10 {
        if phase == 0 {
          PushReported(r.isPos);
          if !r.isQuartet && offset == 0 {
            ResetSeeds();
          }
        } else if phase == 3 && offset == 3 {
          if !r.isQuartet {
            ResetSeeds();
          }
        }
      } else {
        if r.isQuartet {
          firstCycle := nTriggers - offset;
          phase := HelicityState.Rem4(nTriggers - firstCycle);
          PushReported(r.isPos);
        }
      }
    }

    method PredictActual(phase: int)
      modifies this`ringSeedActual, this`quartetPhase, this`actualHelicity
      ensures Outcome(LockOf(), quartetPhase, actualHelicity) == Predict(old(LockOf()), phase)
    {
      quartetPhase := phase;
      actualHelicity := 0;
      if nBits >= 30 {
        ringSeedActual := RanBit30(ringSeedReported);
        ringSeedActual := RanBit30(ringSeedActual);
        if phase == 3 {
          ringSeedActual := RanBit30(ringSeedActual);
          actualHelicity := if LowBit(ringSeedActual) then 1 else -1;
        } else {
          actualHelicity := if LowBit(ringSeedActual) then 1 else -1;
          if phase == 0 || phase == 1 {
            actualHelicity := -actualHelicity;
          }
        }
        quartetPhase := HelicityState.Rem4(phase + 1);
      } else {
        ringSeedActual := ZERO;
      }
    }

    method AddCounts(before: seq<real>, counts: seq<real>) returns (after: seq<real>)
      requires |before| == |counts|
      ensures after == AddEach(before, counts)
    {
      after := before;
      for i := 0 to |counts|
        invariant |after| == |counts|
        invariant forall k :: 0 <= k < i ==> after[k] == before[k] + counts[k]
        invariant forall k :: i <= k < |counts| ==> after[k] == before[k]
      {
        after := after[i := after[i] + counts[i]];
      }
    }

    method SortByHelicity(counts: seq<real>)
      requires Sized(totals, |counts|) && Balanced(totals)
      modifies this`totals
      ensures totals == AddTotals(old(totals), actualHelicity, counts) && Balanced(totals)
    {
      StaysBalanced(totals, actualHelicity, counts);
      if actualHelicity != 0 {
        var all := AddCounts(totals.all, counts);
        if actualHelicity > 0 {
          var plus := AddCounts(totals.plus, counts);
          totals := Totals(plus, totals.minus, all, totals.nPlus + 1, totals.nMinus);
        } else {
          var minus := AddCounts(totals.minus, counts);
          totals := Totals(totals.plus, minus, all, totals.nPlus, totals.nMinus + 1);
        }
      }
    }

    method FillCycle(r: Read)
      requires cycles.Valid() && (actualHelicity != 0 ==> 0 <= quartetPhase < 4)
      modifies this`cycles
      ensures cycles == FillIfKnown(old(cycles), Tick(quartetPhase, actualHelicity, r.aboveThreshold, r.counts))
    {
      if actualHelicity != 0 {
        var have := cycles.have;
        if quartetPhase == 0 {
          have := NO_CYCLES;
        }
        var counts := cycles.counts;
        if r.aboveThreshold && (quartetPhase == 0 || have[Max(quartetPhase - 1, 0)]) {
          have := have[quartetPhase := true];
          counts := counts[quartetPhase := r.counts];
        }
        cycles := Cycles(have, counts);
      }
    }

    method CountQuartet()
      requires InTurn(cycles, nChannels) && Shaped(sums, nChannels)
      requires actualHelicity != 0 && quartetPhase == 3 && cycles.have[3]
      modifies this`sums
      ensures sums == AddQuartet(old(sums), actualHelicity, cycles.counts)
    {
      var total, asymSum, asymSum2 := sums.total, sums.asymSum, sums.asymSum2;
      var c := cycles.counts;
      for i := 0 to nChannels
        invariant |total| == |asymSum| == |asymSum2| == nChannels
        invariant forall k :: 0 <= k < i ==> total[k] == sums.total[k] + (c[0][k] + c[1][k] + c[2][k] + c[3][k])
        invariant forall k :: 0 <= k < i ==> asymSum[k] == Plus(sums.asymSum[k], QuartetAsymmetry(actualHelicity, c, k))
        invariant forall k :: 0 <= k < i ==>
                    asymSum2[k] == Plus(sums.asymSum2[k], Squared(QuartetAsymmetry(actualHelicity, c, k)))
        invariant forall k :: i <= k < nChannels ==>
                    total[k] == sums.total[k] && asymSum[k] == sums.asymSum[k] && asymSum2[k] == sums.asymSum2[k]
      {
        var asy := Asymmetry(actualHelicity, c[0][i], c[1][i], c[2][i], c[3][i]);
        total := total[i := total[i] + (c[0][i] + c[1][i] + c[2][i] + c[3][i])];
        asymSum := asymSum[i := Plus(asymSum[i], asy)];
        asymSum2 := asymSum2[i := Plus(asymSum2[i], Squared(asy))];
      }
      sums := Sums(sums.count + 1, total, asymSum, asymSum2);
    }

    /** One read of the scalers. */
    method AnalyzeHelicityScaler(r: Read)
      requires Valid() && |r.counts| == nChannels
      modifies this
      ensures Valid() && Contents() == Analyzed(old(Contents()), r, offset)
      ensures Outcome(LockOf(), quartetPhase, actualHelicity) == Step(old(LockOf()), r, offset)
    {
      StepSane(LockOf(), r, offset);
      var phase := FollowQuartets(r);
      PredictActual(phase);
      hide Step, Sane, InTurn, Fill, Follow, Predict;
      SortByHelicity(r.counts);
      FillAndCount(r);
    }

    method FillAndCount(r: Read)
      requires InTurn(cycles, nChannels) && Shaped(sums, nChannels) && |r.counts| == nChannels
      requires actualHelicity != 0 ==> 0 <= quartetPhase < 4
      modifies this`cycles, this`sums
      ensures var t := Tick(quartetPhase, actualHelicity, r.aboveThreshold, r.counts);
              && cycles == FillIfKnown(old(cycles), t) && InTurn(cycles, nChannels)
              && sums == SumIfComplete(old(sums), cycles, t, nChannels) && Shaped(sums, nChannels)
    {
      FilledIfKnown(cycles, Tick(quartetPhase, actualHelicity, r.aboveThreshold, r.counts), nChannels);
      FillCycle(r);
      if actualHelicity != 0 && quartetPhase == 3 && cycles.have[3] {
        CountQuartet();
      }
    }

    /** All reads of a run, one after another. */
    method AnalyzeRun(series: seq<Read>)
      requires Valid() && Contents() == Beginning(nChannels) && AllSized(series, nChannels)
      modifies this
      ensures Valid() && Contents() == After(series, offset, nChannels, |series|)
    {
      for iev := 0 to |series|
        invariant Valid() && Contents() == After(series, offset, nChannels, iev)
      {
        hide Analyzed, Valid, Beginning;
        AfterNext(series, offset, nChannels, iev);
        AnalyzeHelicityScaler(series[iev]);
      }
    }

    /** The asymmetry of every channel, and the square of its error. */
    method End() returns (asymmetry: seq<Option<real>>, squaredError: seq<real>)
      requires Valid()
      ensures |asymmetry| == |squaredError| == nChannels
      ensures forall i :: 0 <= i < nChannels ==>
                && asymmetry[i] == Mean(sums.count, sums.asymSum[i])
                && squaredError[i] == SquaredError(sums.count, sums.asymSum[i], sums.asymSum2[i])
                && (sums.count <= 1 ==> asymmetry[i] == Some(-1000.0) && squaredError[i] == 0.0)
    {
      asymmetry, squaredError := [], [];
      var n := sums.count;
      for i := 0 to nChannels
        invariant |asymmetry| == |squaredError| == i
        invariant forall k :: 0 <= k < i ==>
                    && asymmetry[k] == Mean(n, sums.asymSum[k])
                    && squaredError[k] == SquaredError(n, sums.asymSum[k], sums.asymSum2[k])
      {
        asymmetry := asymmetry + [Mean(n, sums.asymSum[i])];
        squaredError := squaredError + [SquaredError(n, sums.asymSum[i], sums.asymSum2[i])];
      }
    }
  }

  function Zeros(n: nat): (z: seq<real>)
    ensures |z| == n && forall i :: 0 <= i < n ==> z[i] == 0.0
  {
    seq(n, i => 0.0)
  }

  function NoAsymmetries(n: nat): (z: seq<Option<real>>)
    ensures |z| == n && forall i :: 0 <= i < n ==> z[i] == Some(0.0)
  {
    seq(n, i => Some(0.0))
  }

  function Beginning(n: nat): State {
    State(START, Totals(Zeros(n), Zeros(n), Zeros(n), 0, 0), INITIAL,
          Sums(0, Zeros(n), NoAsymmetries(n), NoAsymmetries(n)))
  }

  // ---- whole runs --------------------------------------------------------------------------------------------

  predicate AllSized(series: seq<Read>, n: nat) {
    forall k :: 0 <= k < |series| ==> |series[k].counts| == n
  }

  lemma AnalyzedReady(st: State, r: Read, offset: int)
    requires OffsetSound(offset) && Ready(st, |r.counts|)
    ensures Ready(Analyzed(st, r, offset), |r.counts|)
  {
    hide Step, Sane, Fill, InTurn;
    StepSane(st.lock, r, offset);
    FilledIfKnown(st.cycles, TickOf(Step(st.lock, r, offset), r), |r.counts|);
  }

  function After(series: seq<Read>, offset: int, channels: nat, n: nat): (st: State)
    requires OffsetSound(offset) && AllSized(series, channels) && n <= |series|
    ensures Ready(st, channels)
  {
    if n == 0 then Beginning(channels)
    else
      var before := After(series, offset, channels, n - 1);
      AnalyzedReady(before, series[n - 1], offset);
      Analyzed(before, series[n - 1], offset)
  }

  lemma AfterNext(series: seq<Read>, offset: int, channels: nat, n: nat)
    requires OffsetSound(offset) && AllSized(series, channels) && n < |series|
    ensures Ready(After(series, offset, channels, n), |series[n].counts|)
    ensures After(series, offset, channels, n + 1) == Analyzed(After(series, offset, channels, n), series[n], offset)
  {
    hide Analyzed, Ready;
  }

  lemma TicksSized(series: seq<Read>, offset: int, channels: nat)
    requires AllSized(series, channels)
    ensures forall k :: 0 <= k < |series| ==> |Ticks(series, offset, |series|)[k].counts| == channels
  {
    forall k | 0 <= k < |series| ensures |Ticks(series, offset, |series|)[k].counts| == channels {
      TickIs(series, offset, |series|, k);
      hide OutcomeAt, Ticks;
    }
  }

  lemma AnalyzedParts(st: State, r: Read, offset: int)
    requires OffsetSound(offset) && Ready(st, |r.counts|)
    ensures var o := Step(st.lock, r, offset);
            var t, after := TickOf(o, r), Analyzed(st, r, offset);
            && after.lock == o.lock
            && (t.helicity != 0 ==> 0 <= t.phase < 4)
            && after.cycles == FillIfKnown(st.cycles, t) && InTurn(after.cycles, |r.counts|)
            && after.sums == SumIfComplete(st.sums, after.cycles, t, |r.counts|)
  {
    hide Step, InTurn, FillIfKnown, SumIfComplete, AddTotals;
    StepSane(st.lock, r, offset);
    FilledIfKnown(st.cycles, TickOf(Step(st.lock, r, offset), r), |r.counts|);
  }

  /** The next state, given that the lock is that of the run so far. */
  lemma AfterParts(series: seq<Read>, offset: int, channels: nat, n: nat)
    requires OffsetSound(offset) && AllSized(series, channels) && n < |series|
    requires After(series, offset, channels, n).lock == Run(series, offset, n)
    ensures var st, after, t := After(series, offset, channels, n), After(series, offset, channels, n + 1),
                                TickAt(series, offset, n);
            && after.lock == Run(series, offset, n + 1)
            && (t.helicity != 0 ==> 0 <= t.phase < 4)
            && after.cycles == FillIfKnown(st.cycles, t) && InTurn(after.cycles, channels)
            && after.sums == SumIfComplete(st.sums, after.cycles, t, channels)
  {
    hide After, Analyzed, Step, Ready, InTurn, FillIfKnown, SumIfComplete;
    AfterNext(series, offset, channels, n);
    AnalyzedParts(After(series, offset, channels, n), series[n], offset);
  }

  lemma StartOfRun(series: seq<Read>, offset: int, channels: nat)
    requires OffsetSound(offset) && AllSized(series, channels)
    ensures After(series, offset, channels, 0) == Beginning(channels) && Run(series, offset, 0) == START
  {
    hide Beginning;
  }

  /** The lock and the cycles of the whole state are those of the single steps. */
  lemma {:induction false} PartsAfter(series: seq<Read>, offset: int, channels: nat, ticks: seq<Tick>, n: nat)
    requires OffsetSound(offset) && AllSized(series, channels) && n <= |series|
    requires ticks == Ticks(series, offset, |series|) && Regular(ticks)
    ensures After(series, offset, channels, n).lock == Run(series, offset, n)
    ensures After(series, offset, channels, n).cycles == CyclesAfter(ticks, n)
  {
    hide After, Run, Step, Fill, Regular, Ticks, TickAt, SumIfComplete, CyclesAfter;
    if n == 0 {
      StartOfRun(series, offset, channels);
      NoCyclesYet(ticks);
    } else {
      PartsAfter(series, offset, channels, ticks, n - 1);
      AfterParts(series, offset, channels, n - 1);
      TickIs(series, offset, |series|, n - 1);
      LastStep(ticks, n);
    }
  }

  lemma NoCyclesYet(ticks: seq<Tick>)
    requires Regular(ticks)
    ensures CyclesAfter(ticks, 0) == INITIAL
  {
  }

  /** What one trigger adds to the sums of a channel. */
  ghost predicate AddsOne(before: Sums, after: Sums, i: nat, asymmetry: Option<real>)
    requires i < |before.asymSum| && i < |before.asymSum2| && i < |after.asymSum| && i < |after.asymSum2|
  {
    && after.count == before.count + 1
    && after.asymSum[i] == Plus(before.asymSum[i], asymmetry)
    && after.asymSum2[i] == Plus(before.asymSum2[i], Squared(asymmetry))
  }

  lemma SumStep(s: Sums, c: Cycles, t: Tick, channels: nat, i: nat)
    requires InTurn(c, channels) && Shaped(s, channels) && i < channels
    ensures Shaped(SumIfComplete(s, c, t, channels), channels)
    ensures if Completes(c, t)
            then FourOf(c.counts, channels)
                 && AddsOne(s, SumIfComplete(s, c, t, channels), i, QuartetAsymmetry(t.helicity, c.counts, i))
            else SumIfComplete(s, c, t, channels) == s
  {
    hide QuartetAsymmetry, AddsOne;
    if Completes(c, t) {
      QuartetAdds(s, t.helicity, c.counts, i, channels);
    }
  }

  /** The quartet is complete exactly when the last four triggers make one, with their counts. */
  lemma QuartetOfLastFour(ticks: seq<Tick>, n: nat, channels: nat, i: nat)
    requires Regular(ticks) && n < |ticks| && i < channels && InTurn(CyclesAfter(ticks, n + 1), channels)
    requires forall k :: 0 <= k < |ticks| ==> |ticks[k].counts| == channels
    ensures Completes(CyclesAfter(ticks, n + 1), ticks[n]) <==> CompleteAt(ticks, n)
    ensures CompleteAt(ticks, n) ==>
              FourOf(CyclesAfter(ticks, n + 1).counts, channels)
              && QuartetAsymmetry(ticks[n].helicity, CyclesAfter(ticks, n + 1).counts, i) == LastFour(ticks, n, i)
  {
    FourConsecutive(ticks, n + 1);
    hide CyclesAfter, Regular, Taken, Asymmetry;
  }

  lemma SumsStep(series: seq<Read>, offset: int, channels: nat, n: nat, i: nat, ticks: seq<Tick>)
    requires OffsetSound(offset) && AllSized(series, channels) && n < |series| && i < channels
    requires ticks == Ticks(series, offset, |series|) && Regular(ticks)
    requires forall k :: 0 <= k < |ticks| ==> |ticks[k].counts| == channels
    ensures var before, after := After(series, offset, channels, n).sums, After(series, offset, channels, n + 1).sums;
            && Shaped(before, channels) && Shaped(after, channels)
            && if CompleteAt(ticks, n) then AddsOne(before, after, i, LastFour(ticks, n, i)) else after == before
  {
    hide After, Run, Step, FillIfKnown, Ticks, TickAt, Regular, CyclesAfter, CompleteAt, LastFour;
    hide AddsOne, SumIfComplete, Completes, QuartetAsymmetry, InTurn, FourOf;
    PartsAfter(series, offset, channels, ticks, n);
    PartsAfter(series, offset, channels, ticks, n + 1);
    AfterParts(series, offset, channels, n);
    TickIs(series, offset, |series|, n);
    SumStep(After(series, offset, channels, n).sums, CyclesAfter(ticks, n + 1), ticks[n], channels, i);
    QuartetOfLastFour(ticks, n, channels, i);
  }

  lemma QuartetAdds(s: Sums, helicity: int, counts: seq<seq<real>>, i: nat, n: nat)
    requires Shaped(s, n) && FourOf(counts, n) && i < n
    ensures AddsOne(s, AddQuartet(s, helicity, counts), i, QuartetAsymmetry(helicity, counts, i))
  {
    hide QuartetAsymmetry, Plus, Squared;
  }

  lemma AsymmetriesStep(ticks: seq<Tick>, n: nat, i: nat)
    requires Regular(ticks) && n < |ticks| && forall k :: 0 <= k < |ticks| ==> i < |ticks[k].counts|
    ensures Asymmetries(ticks, n + 1, i)
            == if CompleteAt(ticks, n) then Asymmetries(ticks, n, i) + [LastFour(ticks, n, i)]
               else Asymmetries(ticks, n, i)
  {
    hide CompleteAt, LastFour;
  }

  /** The sums of a channel are those of this list of asymmetries. */
  predicate SumsOf(s: Sums, i: nat, list: seq<Option<real>>)
    requires i < |s.asymSum| && i < |s.asymSum2|
  {
    s.count == |list| && s.asymSum[i] == Total(list) && s.asymSum2[i] == TotalSquares(list)
  }

  lemma OneMoreSummed(before: Sums, after: Sums, i: nat, list: seq<Option<real>>, asymmetry: Option<real>)
    requires i < |before.asymSum| && i < |before.asymSum2| && i < |after.asymSum| && i < |after.asymSum2|
    requires SumsOf(before, i, list) && AddsOne(before, after, i, asymmetry)
    ensures SumsOf(after, i, list + [asymmetry])
  {
    assert (list + [asymmetry])[..|list|] == list;
    hide Plus, Squared;
  }

  /** The sums of every channel are those of the asymmetries of the quartets counted. */
  lemma {:induction false} SumsAreTotals(series: seq<Read>, offset: int, channels: nat, ticks: seq<Tick>, n: nat,
                                         i: nat)
    requires OffsetSound(offset) && AllSized(series, channels) && n <= |series| && i < channels
    requires ticks == Ticks(series, offset, |series|) && Regular(ticks)
    requires forall k :: 0 <= k < |ticks| ==> |ticks[k].counts| == channels
    ensures Shaped(After(series, offset, channels, n).sums, channels)
    ensures SumsOf(After(series, offset, channels, n).sums, i, Asymmetries(ticks, n, i))
  {
    hide After, Ticks, Regular, Asymmetries, SumsOf, AddsOne, CompleteAt, LastFour;
    if n == 0 {
      StartOfRun(series, offset, channels);
      NothingSummed(ticks, channels, i);
    } else {
      SumsAreTotals(series, offset, channels, ticks, n - 1, i);
      SumsStep(series, offset, channels, n - 1, i, ticks);
      AsymmetriesStep(ticks, n - 1, i);
      if CompleteAt(ticks, n - 1) {
        AtLeastFour(ticks, n - 1);
        OneMoreSummed(After(series, offset, channels, n - 1).sums, After(series, offset, channels, n).sums, i,
                      Asymmetries(ticks, n - 1, i), LastFour(ticks, n - 1, i));
      }
    }
  }

  lemma AtLeastFour(ticks: seq<Tick>, n: nat)
    requires CompleteAt(ticks, n)
    ensures n >= 3
  {
  }

  lemma NothingSummed(ticks: seq<Tick>, channels: nat, i: nat)
    requires Regular(ticks) && i < channels && forall k :: 0 <= k < |ticks| ==> |ticks[k].counts| == channels
    ensures Shaped(Beginning(channels).sums, channels)
    ensures SumsOf(Beginning(channels).sums, i, Asymmetries(ticks, 0, i))
  {
  }

  /**
   At the end of a run without missing quartet bits: with two quartets or more, none of which had no
   counts at all in a channel, the asymmetry of the channel is the mean over its quartets and the
   squared error that of the mean.
   */
  lemma ErrorAtEnd(series: seq<Read>, offset: int, channels: nat, i: nat)
    requires OffsetSound(offset) && NeverMisses(series, offset) && AllSized(series, channels) && i < channels
    ensures var ticks := Ticks(series, offset, |series|);
            && Regular(ticks) && (forall k :: 0 <= k < |ticks| ==> |ticks[k].counts| == channels)
            && var s, list := After(series, offset, channels, |series|).sums, Asymmetries(ticks, |series|, i);
               && Shaped(s, channels) && s.count == |list|
               && (Defined(list) && |list| > 1 ==>
                     && Total(list).Some? && Mean(s.count, s.asymSum[i]) == Some(Total(list).value / |list| as real)
                     && SquaredError(s.count, s.asymSum[i], s.asymSum2[i])
                        == Scatter(list, Mean(s.count, s.asymSum[i]).value)
                           / (s.count as real * (s.count as real - 1.0)))
  {
    hide After, Ticks, Asymmetries, Mean, SquaredError, Scatter, Regular, NeverMisses, Total, TotalSquares, Times;
    var ticks := Ticks(series, offset, |series|);
    TicksRegular(series, offset, |series|);
    TicksSized(series, offset, channels);
    SumsAreTotals(series, offset, channels, ticks, |series|, i);
    var list := Asymmetries(ticks, |series|, i);
    if Defined(list) && |list| > 1 {
      ErrorIsScatter(list);
    }
  }

  /** A source that is reported faithfully never misses a quartet bit. */
  lemma FaithfulNeverMisses(u: Setup, series: seq<Read>)
    requires u.Reports(series)
    ensures NeverMisses(series, u.offset)
  {
    hide Run, Step, MissesNext, Follows;
    forall k | 0 <= k < |series| ensures !MissesNext(Run(series, u.offset, k), series[k], u.offset) {
      RunFollows(u, series, k);
      NeverMissed(u, k, Run(series, u.offset, k), series[k]);
    }
  }

  function SignedCounts(ticks: seq<Tick>, n: nat, i: nat, sign: int): real
    requires 3 <= n < |ticks| && forall k :: 0 <= k < |ticks| ==> i < |ticks[k].counts|
  {
    Part(sign, ticks[n - 3].helicity, ticks[n - 3].counts[i])
    + Part(sign, ticks[n - 2].helicity, ticks[n - 2].counts[i])
    + Part(sign, ticks[n - 1].helicity, ticks[n - 1].counts[i]) + Part(sign, ticks[n].helicity, ticks[n].counts[i])
  }

  /**
   With a faithful source the asymmetry of a quartet is the counts of its positive cycles less those
   of its negative cycles over their sum, and the helicities are those reported nine cycles later.
   */
  lemma QuartetMeasured(u: Setup, series: seq<Read>, channels: nat, n: nat, i: nat)
    requires u.Reports(series) && u.Matches()
    requires AllSized(series, channels) && n < |series| && i < channels
    requires CompleteAt(Ticks(series, u.offset, |series|), n)
    ensures var ticks := Ticks(series, u.offset, |series|);
            && n >= 3 && (forall k :: 0 <= k < |ticks| ==> |ticks[k].counts| == channels)
            && (forall k :: n - 3 <= k <= n ==> ticks[k].helicity == HelicityOf(u.source.Positive(k + 1 + DELAY)))
            && var plus, minus := SignedCounts(ticks, n, i, 1), SignedCounts(ticks, n, i, -1);
               LastFour(ticks, n, i) == if plus + minus == 0.0 then None else Some((plus - minus) / (plus + minus))
  {
    var ticks := Ticks(series, u.offset, |series|);
    TicksSized(series, u.offset, channels);
    assert ticks[n - 3].helicity != 0 && ticks[n - 3].phase == 0;
    forall k | n - 3 <= k <= n ensures ticks[k].helicity == HelicityOf(u.source.Positive(k + 1 + DELAY)) {
      assert ticks[k].helicity != 0;
      TickIs(series, u.offset, |series|, k);
      KnownHelicity(u, series, k);
    }
    FourSigns(u, series, n);
    PlusLessMinus(ticks[n - 3].helicity, ticks[n - 3].counts[i], ticks[n - 2].counts[i], ticks[n - 1].counts[i],
                  ticks[n].counts[i]);
    hide Ticks, Part, Asymmetry;
  }

  lemma KnownHelicity(u: Setup, series: seq<Read>, k: nat)
    requires u.Reports(series) && u.Matches() && k < |series|
    requires TickAt(series, u.offset, k).helicity != 0
    ensures TickAt(series, u.offset, k).helicity == HelicityOf(u.source.Positive(k + 1 + DELAY))
    ensures TickAt(series, u.offset, k).phase == u.source.Phase(k + 1 + DELAY)
    ensures OutcomeAt(series, u.offset, k + 1).lock.nBits >= 30
  {
    ActualHelicityRight(u, series, k + 1);
    hide OutcomeAt;
  }

  lemma FourSigns(u: Setup, series: seq<Read>, n: nat)
    requires u.Reports(series) && u.Matches() && n < |series|
    requires CompleteAt(Ticks(series, u.offset, |series|), n)
    ensures n >= 3
    ensures var ticks := Ticks(series, u.offset, |series|);
            var b := ticks[n - 3].helicity;
            (b == 1 || b == -1) && ticks[n - 2].helicity == -b && ticks[n - 1].helicity == -b && ticks[n].helicity == b
  {
    hide Ticks, TickAt, CompleteAt, Setup.Reports, Step;
    FirstOfFour(Ticks(series, u.offset, |series|), n);
    TickIs(series, u.offset, |series|, n - 3);
    TickIs(series, u.offset, |series|, n - 2);
    TickIs(series, u.offset, |series|, n - 1);
    TickIs(series, u.offset, |series|, n);
    PatternFrom(u, series, n - 3);
  }

  lemma FirstOfFour(ticks: seq<Tick>, n: nat)
    requires CompleteAt(ticks, n)
    ensures 3 <= n < |ticks| && ticks[n - 3].helicity != 0 && ticks[n - 3].phase == 0
  {
  }

  lemma PatternFrom(u: Setup, series: seq<Read>, k: nat)
    requires u.Reports(series) && u.Matches() && k + 3 < |series|
    requires TickAt(series, u.offset, k).helicity != 0 && TickAt(series, u.offset, k).phase == 0
    ensures var b := TickAt(series, u.offset, k).helicity;
            && (b == 1 || b == -1)
            && TickAt(series, u.offset, k + 1).helicity == -b && TickAt(series, u.offset, k + 2).helicity == -b
            && TickAt(series, u.offset, k + 3).helicity == b
  {
    hide OutcomeAt, Setup.Reports;
    KnownHelicity(u, series, k);
    QuartetPattern(u, series, k + 1);
  }
}
