/** What the sums of the helicity scalers hold after a run: which triggers are in which sum. */
module HelicityCounts {
  import opened Lfsr
  import opened ScalerHelicity
  import opened QuartetSums
  import opened HelicityScaler

  // ---- sums over the triggers of one helicity ---------------------------------------------------------------

  /** The counts of channel i in the triggers of this helicity. */
  function SumWhere(ticks: seq<Tick>, helicity: int, i: nat): real
    requires forall k :: 0 <= k < |ticks| ==> i < |ticks[k].counts|
  {
    if ticks == [] then 0.0
    else
      var last := ticks[|ticks| - 1];
      SumWhere(ticks[..|ticks| - 1], helicity, i) + if last.helicity == helicity then last.counts[i] else 0.0
  }

  /** The number of triggers of this helicity. */
  function CountWhere(ticks: seq<Tick>, helicity: int): nat {
    if ticks == [] then 0
    else CountWhere(ticks[..|ticks| - 1], helicity) + if ticks[|ticks| - 1].helicity == helicity then 1 else 0
  }

  lemma OneMoreTick(ticks: seq<Tick>, t: Tick, helicity: int, i: nat)
    requires i < |t.counts| && forall k :: 0 <= k < |ticks| ==> i < |ticks[k].counts|
    ensures SumWhere(ticks + [t], helicity, i)
            == SumWhere(ticks, helicity, i) + if t.helicity == helicity then t.counts[i] else 0.0
    ensures CountWhere(ticks + [t], helicity) == CountWhere(ticks, helicity) + if t.helicity == helicity then 1 else 0
  {
    assert (ticks + [t])[..|ticks|] == ticks;
  }

  /** The sums of channel i are those over positive and over negative triggers, and all of them together. */
  ghost predicate SortedBy(totals: Totals, ticks: seq<Tick>, i: nat)
    requires forall k :: 0 <= k < |ticks| ==> i < |ticks[k].counts|
  {
    && i < |totals.plus| && i < |totals.minus| && i < |totals.all|
    && totals.plus[i] == SumWhere(ticks, 1, i) && totals.minus[i] == SumWhere(ticks, -1, i)
    && totals.all[i] == SumWhere(ticks, 1, i) + SumWhere(ticks, -1, i)
    && totals.nPlus == CountWhere(ticks, 1) && totals.nMinus == CountWhere(ticks, -1)
  }

  lemma SortedByOneMore(totals: Totals, ticks: seq<Tick>, t: Tick, i: nat)
    requires forall k :: 0 <= k < |ticks| ==> i < |ticks[k].counts|
    requires i < |t.counts| && Sized(totals, |t.counts|) && (t.helicity == 1 || t.helicity == -1 || t.helicity == 0)
    requires SortedBy(totals, ticks, i)
    ensures SortedBy(AddTotals(totals, t.helicity, t.counts), ticks + [t], i)
  {
    OneMoreTick(ticks, t, 1, i);
    OneMoreTick(ticks, t, -1, i);
    hide SumWhere, CountWhere;
  }

  lemma TotalsStep(st: State, r: Read, offset: int)
    requires OffsetSound(offset) && Ready(st, |r.counts|)
    ensures var o, after := Step(st.lock, r, offset), Analyzed(st, r, offset);
            && after.lock == o.lock && after.totals == AddTotals(st.totals, o.helicity, r.counts)
            && (o.helicity == 1 || o.helicity == -1 || o.helicity == 0)
  {
    hide Step, InTurn, FillIfKnown, SumIfComplete, AddTotals;
    StepSane(st.lock, r, offset);
    FilledIfKnown(st.cycles, TickOf(Step(st.lock, r, offset), r), |r.counts|);
  }

  lemma {:induction false} LockAfter(series: seq<Read>, offset: int, channels: nat, n: nat)
    requires OffsetSound(offset) && AllSized(series, channels) && n <= |series|
    ensures After(series, offset, channels, n).lock == Run(series, offset, n)
  {
    hide After, Analyzed, Step, Ready, AddTotals;
    if n == 0 {
      StartOfRun(series, offset, channels);
    } else {
      LockAfter(series, offset, channels, n - 1);
      AfterNext(series, offset, channels, n - 1);
      TotalsStep(After(series, offset, channels, n - 1), series[n - 1], offset);
    }
  }

  lemma TicksHave(series: seq<Read>, offset: int, channels: nat, n: nat)
    requires AllSized(series, channels) && n <= |series|
    ensures forall k :: 0 <= k < n ==> |Ticks(series, offset, n)[k].counts| == channels
  {
    hide OutcomeAt, Ticks;
    forall k | 0 <= k < n ensures |Ticks(series, offset, n)[k].counts| == channels {
      TickIs(series, offset, n, k);
    }
  }

  /**
   After any run: the plus sums hold the counts of exactly the triggers of helicity +1, the minus sums
   those of -1, and the two numbers of triggers are theirs.
   */
  lemma {:induction false} SortedAfter(series: seq<Read>, offset: int, channels: nat, n: nat, i: nat)
    requires OffsetSound(offset) && AllSized(series, channels) && n <= |series| && i < channels
    ensures forall k :: 0 <= k < n ==> |Ticks(series, offset, n)[k].counts| == channels
    ensures SortedBy(After(series, offset, channels, n).totals, Ticks(series, offset, n), i)
  {
    hide After, Analyzed, Step, Run, AddTotals, SortedBy;
    TicksHave(series, offset, channels, n);
    if n == 0 {
      StartOfRun(series, offset, channels);
      NothingSorted(channels, i);
    } else {
      SortedAfter(series, offset, channels, n - 1, i);
      LockAfter(series, offset, channels, n - 1);
      AfterNext(series, offset, channels, n - 1);
      var st, r := After(series, offset, channels, n - 1), series[n - 1];
      TotalsStep(st, r, offset);
      SortedByOneMore(st.totals, Ticks(series, offset, n - 1), TickAt(series, offset, n - 1), i);
    }
  }

  lemma NothingSorted(channels: nat, i: nat)
    requires i < channels
    ensures SortedBy(Beginning(channels).totals, [], i)
  {
  }

  // ---- with a faithful source ---------------------------------------------------------------------------------

  /** The first trigger with thirty bits: a bit at the lock and one at each of 29 starts. */
  function FirstKnown(u: Setup): int {
    u.FirstStart() + 4 * 28
  }

  lemma KnownIff(u: Setup, series: seq<Read>, t: nat)
    requires u.Reports(series) && 0 < t <= |series|
    ensures OutcomeAt(series, u.offset, t).lock.nBits >= 30 <==> t >= FirstKnown(u)
  {
    RunFollows(u, series, t);
    FirstStartLater(u);
    hide Step, SeedFromBits, Setup.Base, Setup.FirstStart;
  }

  /** The counts of the cycles known that come nine cycles before one of this sign. */
  function CountsBefore(u: Setup, series: seq<Read>, positive: bool, i: nat, n: nat): real
    requires u.Reports(series) && n <= |series| && forall k :: 0 <= k < |series| ==> i < |series[k].counts|
  {
    if n == 0 then 0.0
    else
      CountsBefore(u, series, positive, i, n - 1)
      + if n >= FirstKnown(u) && u.source.Positive(n + 9) == positive then series[n - 1].counts[i] else 0.0
  }

  function CyclesBefore(u: Setup, positive: bool, n: nat): nat
    requires u.Valid()
  {
    if n == 0 then 0
    else
      CyclesBefore(u, positive, n - 1) + if n >= FirstKnown(u) && u.source.Positive(n + 9) == positive then 1 else 0
  }

  lemma HelicityIs(u: Setup, series: seq<Read>, k: nat, positive: bool)
    requires u.Reports(series) && u.Matches() && k < |series|
    ensures TickAt(series, u.offset, k).helicity == HelicityOf(positive)
            <==> k + 1 >= FirstKnown(u) && u.source.Positive(k + 1 + 9) == positive
  {
    ActualHelicityRight(u, series, k + 1);
    KnownIff(u, series, k + 1);
    hide OutcomeAt, Setup.Reports, FirstKnown, Source.Positive;
  }

  lemma NextBefore(u: Setup, series: seq<Read>, channels: nat, positive: bool, i: nat, n: nat, ticks: seq<Tick>)
    requires u.Reports(series) && u.Matches() && n < |series| && AllSized(series, channels) && i < channels
    requires forall k :: 0 <= k < |ticks| ==> |ticks[k].counts| == channels
    requires SumWhere(ticks, HelicityOf(positive), i) == CountsBefore(u, series, positive, i, n)
    requires CountWhere(ticks, HelicityOf(positive)) == CyclesBefore(u, positive, n)
    ensures var more := ticks + [TickAt(series, u.offset, n)];
            && (forall k :: 0 <= k < |more| ==> |more[k].counts| == channels)
            && SumWhere(more, HelicityOf(positive), i) == CountsBefore(u, series, positive, i, n + 1)
            && CountWhere(more, HelicityOf(positive)) == CyclesBefore(u, positive, n + 1)
  {
    hide OutcomeAt, SumWhere, CountWhere, Setup.Reads, FirstKnown, Source.Positive;
    HelicityIs(u, series, n, positive);
    OneMoreTick(ticks, TickAt(series, u.offset, n), HelicityOf(positive), i);
  }

  lemma {:induction false} WhereIsBefore(u: Setup, series: seq<Read>, channels: nat, positive: bool, i: nat, n: nat)
    requires u.Reports(series) && u.Matches() && n <= |series| && AllSized(series, channels) && i < channels
    ensures forall k :: 0 <= k < n ==> |Ticks(series, u.offset, n)[k].counts| == channels
    ensures SumWhere(Ticks(series, u.offset, n), HelicityOf(positive), i) == CountsBefore(u, series, positive, i, n)
    ensures CountWhere(Ticks(series, u.offset, n), HelicityOf(positive)) == CyclesBefore(u, positive, n)
  {
    hide TickAt, Setup.Reports, Setup.Matches, CountsBefore, CyclesBefore, SumWhere, CountWhere;
    if n > 0 {
      WhereIsBefore(u, series, channels, positive, i, n - 1);
      NextBefore(u, series, channels, positive, i, n - 1, Ticks(series, u.offset, n - 1));
    } else {
      NothingBefore(u, series, channels, positive, i);
    }
  }

  lemma NothingBefore(u: Setup, series: seq<Read>, channels: nat, positive: bool, i: nat)
    requires u.Reports(series) && AllSized(series, channels) && i < channels
    ensures SumWhere([], HelicityOf(positive), i) == CountsBefore(u, series, positive, i, 0)
    ensures CountWhere([], HelicityOf(positive)) == CyclesBefore(u, positive, 0)
  {
  }

  /**
   With a faithful source and the matching offset, the plus sums are the counts of exactly the cycles,
   from the first with thirty bits on, nine cycles before a positive one; the minus sums those nine
   cycles before a negative one.
   */
  lemma SortedRight(u: Setup, series: seq<Read>, channels: nat, n: nat, i: nat)
    requires u.Reports(series) && u.Matches() && AllSized(series, channels) && n <= |series| && i < channels
    ensures var totals := After(series, u.offset, channels, n).totals;
            && Sized(totals, channels)
            && totals.plus[i] == CountsBefore(u, series, true, i, n)
            && totals.minus[i] == CountsBefore(u, series, false, i, n)
            && totals.nPlus == CyclesBefore(u, true, n) && totals.nMinus == CyclesBefore(u, false, n)
  {
    hide After, Ticks, Setup.Matches, CountsBefore, CyclesBefore, SumWhere, CountWhere, Setup.Reads, Step;
    SortedAfter(series, u.offset, channels, n, i);
    WhereIsBefore(u, series, channels, true, i, n);
    WhereIsBefore(u, series, channels, false, i, n);
  }

  // ---- the counts of the quartets -------------------------------------------------------------------------------

  /** The counts of channel i in the four triggers of every complete quartet. */
  function QuartetCounts(ticks: seq<Tick>, n: nat, i: nat): real
    requires n <= |ticks| && forall k :: 0 <= k < |ticks| ==> i < |ticks[k].counts|
  {
    if n == 0 then 0.0
    else
      QuartetCounts(ticks, n - 1, i)
      + if CompleteAt(ticks, n - 1)
        then ticks[n - 4].counts[i] + ticks[n - 3].counts[i] + ticks[n - 2].counts[i] + ticks[n - 1].counts[i]
        else 0.0
  }

  lemma FourAdded(ticks: seq<Tick>, n: nat, channels: nat, i: nat, s: Sums)
    requires Regular(ticks) && n < |ticks| && i < channels && InTurn(CyclesAfter(ticks, n + 1), channels)
    requires forall k :: 0 <= k < |ticks| ==> |ticks[k].counts| == channels
    requires Shaped(s, channels)
    ensures var after := SumIfComplete(s, CyclesAfter(ticks, n + 1), ticks[n], channels);
            && |after.total| == channels
            && QuartetCounts(ticks, n + 1, i) - QuartetCounts(ticks, n, i) == after.total[i] - s.total[i]
  {
    FourConsecutive(ticks, n + 1);
    QuartetOfLastFour(ticks, n, channels, i);
    hide CyclesAfter, Regular, Taken, Asymmetry, QuartetAsymmetry;
  }

  /** The total of every channel is that of the complete quartets. */
  lemma {:induction false} TotalOfQuartets(series: seq<Read>, offset: int, channels: nat, ticks: seq<Tick>, n: nat,
                                           i: nat)
    requires OffsetSound(offset) && AllSized(series, channels) && n <= |series| && i < channels
    requires ticks == Ticks(series, offset, |series|) && Regular(ticks)
    requires forall k :: 0 <= k < |ticks| ==> |ticks[k].counts| == channels
    ensures Shaped(After(series, offset, channels, n).sums, channels)
    ensures After(series, offset, channels, n).sums.total[i] == QuartetCounts(ticks, n, i)
  {
    hide After, Ticks, TickAt, Run, Regular, CompleteAt, SumIfComplete, CyclesAfter, FillIfKnown, InTurn;
    if n == 0 {
      StartOfRun(series, offset, channels);
    } else {
      TotalOfQuartets(series, offset, channels, ticks, n - 1, i);
      PartsAfter(series, offset, channels, ticks, n);
      LockAfter(series, offset, channels, n - 1);
      AfterParts(series, offset, channels, n - 1);
      TickIs(series, offset, |series|, n - 1);
      FourAdded(ticks, n - 1, channels, i, After(series, offset, channels, n - 1).sums);
    }
  }
}
