/** Counts of four consecutive cycles, their asymmetry, and what becomes of many asymmetries. */
module QuartetSums {
  import opened Basics

  /** One trigger with its actual helicity (0 while that is unknown) and phase in the actual quartet. */
  datatype Tick = Tick(phase: int, helicity: int, above: bool, counts: seq<real>)

  /** The cycles of the quartet under way. */
  datatype Cycles = Cycles(have: seq<bool>, counts: seq<seq<real>>)
  {
    predicate Valid() {
      |have| == 4 && |counts| == 4
    }
  }

  const NO_CYCLES := [false, false, false, false]
  const INITIAL := Cycles(NO_CYCLES, [[], [], [], []])

  function Max(a: int, b: int): int {
    if a >= b then a else b
  }

  /** A cycle is taken when the current is above threshold and the one before was taken. */
  function Fill(c: Cycles, t: Tick): (filled: Cycles)
    requires c.Valid() && 0 <= t.phase < 4
    ensures filled.Valid()
  {
    var have := if t.phase == 0 then NO_CYCLES else c.have;
    if t.above && (t.phase == 0 || have[Max(t.phase - 1, 0)])
    then Cycles(have[t.phase := true], c.counts[t.phase := t.counts])
    else Cycles(have, c.counts)
  }

  /** The helicity, once known, stays known, and the phases follow each other. */
  predicate Regular(ticks: seq<Tick>) {
    && (forall k :: 0 <= k < |ticks| && ticks[k].helicity != 0 ==> 0 <= ticks[k].phase < 4)
    && forall k :: 0 <= k < |ticks| - 1 && ticks[k].helicity != 0 ==>
         ticks[k + 1].helicity != 0 && ticks[k + 1].phase == (ticks[k].phase + 1) % 4
  }

  function CyclesAfter(ticks: seq<Tick>, n: nat): (c: Cycles)
    requires Regular(ticks) && n <= |ticks|
    ensures c.Valid()
  {
    if n == 0 then INITIAL
    else if ticks[n - 1].helicity == 0 then CyclesAfter(ticks, n - 1)
    else Fill(CyclesAfter(ticks, n - 1), ticks[n - 1])
  }

  /** A quartet is counted at the n-th trigger. */
  predicate Counted(ticks: seq<Tick>, n: nat)
    requires Regular(ticks) && 0 < n <= |ticks|
  {
    ticks[n - 1].helicity != 0 && ticks[n - 1].phase == 3 && CyclesAfter(ticks, n).have[3]
  }

  /** From trigger `first` on, the cycles of phases 0 to j are there and above threshold. */
  predicate Taken(ticks: seq<Tick>, first: int, j: int) {
    && first >= 0 && first + j < |ticks|
    && forall k :: first <= k <= first + j ==>
         ticks[k].helicity != 0 && ticks[k].phase == k - first && ticks[k].above
  }

  lemma TakenNext(ticks: seq<Tick>, first: int, j: int)
    requires Regular(ticks) && 0 < j < 4 && 0 <= first + j < |ticks|
    requires ticks[first + j].helicity != 0 && ticks[first + j].phase == j
    ensures Taken(ticks, first, j) <==> Taken(ticks, first, j - 1) && ticks[first + j].above
  {
  }

  /** The flags up to phase f say which cycles were taken, from trigger `first` on. */
  predicate FlagsRight(ticks: seq<Tick>, first: int, f: int, c: Cycles)
    requires c.Valid() && 0 <= f < 4
  {
    && (forall j :: 0 <= j <= f ==> (c.have[j] <==> Taken(ticks, first, j)))
    && forall j :: f < j < 4 ==> !c.have[j]
  }

  /** The counts of the cycles taken are those of their triggers. */
  predicate CountsRight(ticks: seq<Tick>, first: int, f: int, c: Cycles)
    requires c.Valid() && 0 <= f < 4 && first + f < |ticks|
  {
    forall j :: 0 <= j <= f && c.have[j] && first + j >= 0 ==> c.counts[j] == ticks[first + j].counts
  }

  /** What the flags and counts say after a trigger with known helicity. */
  predicate Current(ticks: seq<Tick>, n: int, c: Cycles)
    requires 0 < n <= |ticks| && 0 <= ticks[n - 1].phase < 4 && c.Valid()
  {
    var f := ticks[n - 1].phase;
    FlagsRight(ticks, n - 1 - f, f, c) && CountsRight(ticks, n - 1 - f, f, c)
  }

  lemma FillFirst(ticks: seq<Tick>, n: int, c: Cycles)
    requires Regular(ticks) && 0 < n <= |ticks| && ticks[n - 1].helicity != 0 && ticks[n - 1].phase == 0 && c.Valid()
    ensures Current(ticks, n, Fill(c, ticks[n - 1]))
  {
  }

  lemma FillNext(ticks: seq<Tick>, n: int, c: Cycles)
    requires Regular(ticks) && 1 < n <= |ticks| && c.Valid()
    requires ticks[n - 2].helicity != 0 && ticks[n - 1].phase > 0 && Current(ticks, n - 1, c)
    ensures Current(ticks, n, Fill(c, ticks[n - 1]))
  {
    hide FlagsRight, CountsRight, Fill;
    assert ticks[n - 2 + 1].phase == (ticks[n - 2].phase + 1) % 4;
    var f := ticks[n - 1].phase;
    assert n - 2 - ticks[n - 2].phase == n - 1 - f;
    NoneAfter(ticks, n - 1 - f, f - 1, c);
    NextFlags(ticks, n - 1 - f, f, c);
    NextCounts(ticks, n - 1 - f, f, c);
  }

  lemma NextFlags(ticks: seq<Tick>, first: int, f: int, c: Cycles)
    requires Regular(ticks) && c.Valid() && 0 < f < 4 && 0 <= first + f < |ticks|
    requires ticks[first + f].helicity != 0 && ticks[first + f].phase == f && FlagsRight(ticks, first, f - 1, c)
    ensures FlagsRight(ticks, first, f, Fill(c, ticks[first + f]))
  {
    TakenNext(ticks, first, f);
    hide Taken, Regular;
  }

  lemma NoneAfter(ticks: seq<Tick>, first: int, f: int, c: Cycles)
    requires c.Valid() && 0 <= f < 3 && FlagsRight(ticks, first, f, c)
    ensures !c.have[f + 1]
  {
  }

  lemma NextCounts(ticks: seq<Tick>, first: int, f: int, c: Cycles)
    requires c.Valid() && 0 < f < 4 && 0 <= first + f < |ticks| && ticks[first + f].phase == f
    requires !c.have[f] && CountsRight(ticks, first, f - 1, c)
    ensures CountsRight(ticks, first, f, Fill(c, ticks[first + f]))
  {
    FillKeeps(c, ticks[first + f]);
    hide Fill;
  }

  /** In a later phase the earlier cycles are kept, and those after it are still missing. */
  lemma FillKeeps(c: Cycles, t: Tick)
    requires c.Valid() && 0 < t.phase < 4
    ensures var after := Fill(c, t);
            && (forall j :: 0 <= j < 4 && j != t.phase ==> after.have[j] == c.have[j] && after.counts[j] == c.counts[j])
            && (after.have[t.phase] && !c.have[t.phase] ==> after.counts[t.phase] == t.counts)
  {
  }

  /** The first trigger with known helicity, in the middle of a quartet. */
  lemma FillAlone(ticks: seq<Tick>, n: int, c: Cycles)
    requires Regular(ticks) && 0 < n <= |ticks| && c.Valid() && c.have == NO_CYCLES
    requires ticks[n - 1].helicity != 0 && ticks[n - 1].phase > 0 && (n > 1 ==> ticks[n - 2].helicity == 0)
    ensures Current(ticks, n, Fill(c, ticks[n - 1]))
  {
    var first := n - 1 - ticks[n - 1].phase;
    forall j | 0 <= j <= ticks[n - 1].phase ensures !Taken(ticks, first, j) {
      NoneTaken(ticks, n, first, j);
    }
  }

  lemma NoneTaken(ticks: seq<Tick>, n: int, first: int, j: int)
    requires Regular(ticks) && 0 < n <= |ticks| && first < n - 1 && j >= 0
    requires n > 1 ==> ticks[n - 2].helicity == 0
    ensures !Taken(ticks, first, j)
  {
    if Taken(ticks, first, j) {
      KnownFrom(ticks, first, n - 2);
    }
  }

  lemma {:induction false} KnownFrom(ticks: seq<Tick>, a: nat, b: int)
    requires Regular(ticks) && a <= b < |ticks| && ticks[a].helicity != 0
    ensures ticks[b].helicity != 0
  {
    if a < b {
      KnownFrom(ticks, a, b - 1);
      assert ticks[b - 1 + 1].helicity != 0;
    }
  }

  lemma {:induction false} AlwaysCurrent(ticks: seq<Tick>, n: nat)
    requires Regular(ticks) && n <= |ticks|
    ensures n > 0 && ticks[n - 1].helicity != 0 ==> Current(ticks, n, CyclesAfter(ticks, n))
    ensures n > 0 && ticks[n - 1].helicity == 0 ==> CyclesAfter(ticks, n).have == NO_CYCLES
  {
    if n > 0 {
      AlwaysCurrent(ticks, n - 1);
      var c := CyclesAfter(ticks, n - 1);
      hide Current, Fill, Taken, CyclesAfter;
      if n > 1 && ticks[n - 2].helicity != 0 {
        assert ticks[n - 2 + 1].helicity != 0;
      }
      LastStep(ticks, n);
      if ticks[n - 1].helicity != 0 {
        if ticks[n - 1].phase == 0 {
          FillFirst(ticks, n, c);
        } else if n > 1 && ticks[n - 2].helicity != 0 {
          FillNext(ticks, n, c);
        } else {
          FillAlone(ticks, n, c);
        }
      }
    }
  }

  lemma LastStep(ticks: seq<Tick>, n: nat)
    requires Regular(ticks) && 0 < n <= |ticks|
    ensures CyclesAfter(ticks, n) == if ticks[n - 1].helicity == 0 then CyclesAfter(ticks, n - 1)
                                     else Fill(CyclesAfter(ticks, n - 1), ticks[n - 1])
    ensures CyclesAfter(ticks, 0).have == NO_CYCLES
  {
  }

  /**
   A quartet is counted exactly when its four cycles are the last four triggers, all of them above
   threshold, and the counts used are theirs.
   */
  lemma FourConsecutive(ticks: seq<Tick>, n: nat)
    requires Regular(ticks) && 0 < n <= |ticks|
    ensures Counted(ticks, n) <==> Taken(ticks, n - 4, 3)
    ensures Counted(ticks, n) ==>
              forall j :: 0 <= j < 4 ==> CyclesAfter(ticks, n).counts[j] == ticks[n - 4 + j].counts
  {
    AlwaysCurrent(ticks, n);
    hide CyclesAfter;
    assert Taken(ticks, n - 4, 3) ==> ticks[n - 1].phase == 3 && ticks[n - 1].helicity != 0;
  }

  // ---- the asymmetry of a quartet -----------------------------------------------------------------------------

  /** Nothing stands for the result of dividing zero by zero. */
  function Asymmetry(helicity: int, c0: real, c1: real, c2: real, c3: real): Option<real> {
    var total := c0 + c3 + c1 + c2;
    if total == 0.0 then None else Some(Times(helicity as real, c0 + c3 - c1 - c2) / total)
  }

  function Part(sign: int, helicity: int, count: real): real {
    if helicity == sign then count else 0.0
  }

  lemma Signed(b: int, x: real)
    requires b == 1 || b == -1
    ensures Times(b as real, x) == if b == 1 then x else -x
  {
  }

  /** For cycles with helicities b, -b, -b, b it is plus counts less minus counts over the sum. */
  lemma PlusLessMinus(b: int, c0: real, c1: real, c2: real, c3: real)
    requires b == 1 || b == -1
    ensures var plus := Part(1, b, c0) + Part(1, -b, c1) + Part(1, -b, c2) + Part(1, b, c3);
            var minus := Part(-1, b, c0) + Part(-1, -b, c1) + Part(-1, -b, c2) + Part(-1, b, c3);
            && plus + minus == c0 + c1 + c2 + c3
            && Asymmetry(b, c0, c1, c2, c3)
               == if plus + minus == 0.0 then None else Some((plus - minus) / (plus + minus))
  {
    var total := c0 + c3 + c1 + c2;
    Signed(b, c0 + c3 - c1 - c2);
    if b == 1 {
      assert Part(1, b, c0) + Part(1, -b, c1) + Part(1, -b, c2) + Part(1, b, c3) == c0 + c3;
      assert Part(-1, b, c0) + Part(-1, -b, c1) + Part(-1, -b, c2) + Part(-1, b, c3) == c1 + c2;
    } else {
      assert Part(1, b, c0) + Part(1, -b, c1) + Part(1, -b, c2) + Part(1, b, c3) == c1 + c2;
      assert Part(-1, b, c0) + Part(-1, -b, c1) + Part(-1, -b, c2) + Part(-1, b, c3) == c0 + c3;
    }
  }

  lemma AtMostOne(b: int, c0: real, c1: real, c2: real, c3: real)
    requires (b == 1 || b == -1) && c0 >= 0.0 && c1 >= 0.0 && c2 >= 0.0 && c3 >= 0.0
    ensures Asymmetry(b, c0, c1, c2, c3).Some? ==> -1.0 <= Asymmetry(b, c0, c1, c2, c3).value <= 1.0
  {
    var total, difference := c0 + c3 + c1 + c2, c0 + c3 - c1 - c2;
    Signed(b, difference);
    hide Times;
    if total != 0.0 {
      Bounded(Times(b as real, difference), total);
    }
  }

  lemma Bounded(x: real, y: real)
    requires y > 0.0 && -y <= x <= y
    ensures -1.0 <= x / y <= 1.0
  {
  }

  // ---- many asymmetries -----------------------------------------------------------------------------------------

  function Plus(a: Option<real>, b: Option<real>): Option<real> {
    if a.None? || b.None? then None else Some(a.value + b.value)
  }

  function Times(x: real, y: real): real {
    x * y
  }

  function Squared(a: Option<real>): Option<real> {
    if a.None? then None else Some(Square(a.value))
  }

  function Total(list: seq<Option<real>>): Option<real> {
    if list == [] then Some(0.0) else Plus(Total(list[..|list| - 1]), list[|list| - 1])
  }

  function TotalSquares(list: seq<Option<real>>): Option<real> {
    if list == [] then Some(0.0) else Plus(TotalSquares(list[..|list| - 1]), Squared(list[|list| - 1]))
  }

  predicate Defined(list: seq<Option<real>>) {
    forall i :: 0 <= i < |list| ==> list[i].Some?
  }

  lemma {:induction false} TotalsDefined(list: seq<Option<real>>)
    ensures Total(list).Some? <==> Defined(list)
    ensures TotalSquares(list).Some? <==> Defined(list)
  {
    if list != [] {
      TotalsDefined(list[..|list| - 1]);
      assert list == list[..|list| - 1] + [list[|list| - 1]];
    }
  }

  /** The sum of the squared distances from m. */
  function Scatter(list: seq<Option<real>>, m: real): real
    requires Defined(list)
  {
    if list == [] then 0.0
    else Scatter(list[..|list| - 1], m) + Square(list[|list| - 1].value - m)
  }

  /** The sums in front of the last asymmetry, and with it. */
  lemma SumsNext(list: seq<Option<real>>)
    requires list != [] && Defined(list)
    ensures var front, a := list[..|list| - 1], list[|list| - 1].value;
            && Defined(front) && Total(front).Some? && TotalSquares(front).Some?
            && Total(list) == Some(Total(front).value + a)
            && TotalSquares(list) == Some(TotalSquares(front).value + Square(a))
  {
    hide Square;
    TotalsDefined(list[..|list| - 1]);
  }

  lemma ScatterStep(m: real, sum: real, n: real, a: real)
    ensures Square(a - m) == Square(a) - 2.0 * Times(m, a) + Square(m)
    ensures Times(m, sum + a) == Times(m, sum) + Times(m, a)
    ensures Times(n + 1.0, Square(m)) == Times(n, Square(m)) + Square(m)
  {
  }

  lemma {:induction false} ScatterExpanded(list: seq<Option<real>>, m: real)
    requires Defined(list)
    ensures Total(list).Some? && TotalSquares(list).Some?
    ensures Scatter(list, m)
            == TotalSquares(list).value - 2.0 * Times(m, Total(list).value) + Times(|list| as real, Square(m))
  {
    TotalsDefined(list);
    if list == [] {
      NothingScattered(m);
    } else {
      hide Times, Square, Total, TotalSquares;
      var front, a := list[..|list| - 1], list[|list| - 1].value;
      SumsNext(list);
      ScatterExpanded(front, m);
      ScatterStep(m, Total(front).value, |front| as real, a);
      assert |list| as real == |front| as real + 1.0;
    }
  }

  lemma NothingScattered(m: real)
    ensures Times(m, 0.0) == 0.0 && Times(0 as real, Square(m)) == 0.0
  {
  }

  lemma SquareNonnegative(x: real)
    ensures Square(x) >= 0.0
  {
  }

  lemma {:induction false} ScatterNonnegative(list: seq<Option<real>>, m: real)
    requires Defined(list)
    ensures Scatter(list, m) >= 0.0
  {
    if list != [] {
      hide Square;
      SquareNonnegative(list[|list| - 1].value - m);
      ScatterNonnegative(list[..|list| - 1], m);
    }
  }

  /** The mean and the square of its error as they are computed at the end of a run. */
  function Mean(n: nat, sum: Option<real>): Option<real> {
    if n <= 1 then Some(-1000.0) else if sum.None? then None else Some(sum.value / n as real)
  }

  function SquaredError(n: nat, sum: Option<real>, sum2: Option<real>): real {
    if n <= 1 then 0.0
    else
      var mean := Mean(n, sum);
      if sum2.None? || mean.None? then 0.0
      else if sum2.value >= Times(n as real, Square(mean.value))
      then (sum2.value - Times(n as real, Square(mean.value))) / (n as real * (n as real - 1.0))
      else 0.0
  }

  lemma MeanTimesSum(n: real, sum: real)
    requires n != 0.0
    ensures Times(sum / n, sum) == Times(n, Square(sum / n))
  {
    var m := sum / n;
    assert n * m == sum;
    Regroup(n, m);
  }

  lemma Regroup(n: real, m: real)
    ensures Times(m, n * m) == Times(n, Square(m))
  {
  }

  /**
   With two quartets or more, none of them without counts, the guarded difference is never negative:
   the error is that of the mean, from the scatter of the asymmetries about it.
   */
  lemma ErrorIsScatter(list: seq<Option<real>>)
    requires Defined(list) && |list| > 1
    ensures var n, sum, sum2 := |list|, Total(list), TotalSquares(list);
            && sum.Some? && sum2.Some? && Mean(n, sum) == Some(sum.value / n as real)
            && sum2.value >= Times(n as real, Square(Mean(n, sum).value))
            && SquaredError(n, sum, sum2)
               == Scatter(list, Mean(n, sum).value) / (n as real * (n as real - 1.0))
  {
    hide Total, TotalSquares, Scatter, Times, Square;
    TotalsDefined(list);
    var n, sum, sum2 := |list| as real, Total(list).value, TotalSquares(list).value;
    var m := sum / n;
    ScatterExpanded(list, m);
    ScatterNonnegative(list, m);
    MeanTimesSum(n, sum);
    assert Mean(|list|, Total(list)) == Some(m);
    assert Scatter(list, m) == sum2 - Times(n, Square(m)) >= 0.0;
  }
}
