/** The search for the left/right signs of a space point, and the stub fitted with them. */
module LeftRight {
  import opened Basics
  import opened LeastSquares
  import opened PlanePatterns
  import opened StubFit
  import opened StubRotation
  import opened SignChoices
  import opened KnownSigns

  const MAX_CHI2 := 1.0e10

  /** All that the fit of one space point depends on, except the signs. */
  datatype Fit = Fit(g: Geometry, inverse: Matrix, hits: seq<StubHit>, x: real, maxXPDiff: real, ratio: real)
  {
    ghost predicate Valid() {
      g.Valid() && OnPlanes(g, hits) && |hits| > 0
    }
  }

  function Stub(f: Fit, signs: seq<int>): (stub: Vector)
    requires f.Valid() && |signs| == |f.hits|
    ensures |stub| == 3
  {
    StubOf(PointsOf(f.g, f.hits, signs), f.inverse)
  }

  function Chi2(f: Fit, signs: seq<int>): real
    requires f.Valid() && |signs| == |f.hits|
  {
    ChiSquared(PointsOf(f.g, f.hits, signs), Stub(f, signs))
  }

  /** The slope the stub is judged by; nothing stands for an infinite one. */
  function Slope(f: Fit, slope: real): Option<real>
    requires f.Valid()
  {
    CutSlope(slope, f.g.tanBeta[f.hits[0].plane])
  }

  /** The slope of the cut is the slope after the rotation only without tilt, or for a stub without slope. */
  lemma CutIsRotatedIff(f: Fit, slope: real)
    requires f.Valid() && Slope(f, slope).Some?
    ensures var tanBeta := f.g.tanBeta[f.hits[0].plane];
            Slope(f, slope) == SlopeX(slope, tanBeta) <==> slope == 0.0 || tanBeta == 0.0
  {
    hide SlopeX, CutSlope;
    CutSlopeIff(slope, f.g.tanBeta[f.hits[0].plane]);
  }

  /** The angle cut: the slope agrees with the one expected from the position. */
  predicate Agrees(f: Fit, slope: real)
    requires f.Valid()
  {
    Slope(f, slope).Some? && Abs(Slope(f, slope).value - f.x * f.ratio) < f.maxXPDiff
  }

  /** The signs pass the angle cut, if there is one. */
  predicate Passes(f: Fit, signs: seq<int>)
    requires f.Valid() && |signs| == |f.hits|
  {
    f.maxXPDiff >= 100.0 || Agrees(f, Stub(f, signs)[2])
  }

  // ---- choosing by chi-squared ------------------------------------------------------------------------

  /** Signs that the given choice competes with: all, or only those passing the cut. */
  predicate Competes(f: Fit, signs: seq<int>, cut: bool)
    requires f.Valid() && |signs| == |f.hits|
  {
    cut ==> Passes(f, signs)
  }

  /** Of the first n assignments, the b-th has the smallest chi-squared, and is the first that has it. */
  ghost predicate BestOf(f: Fit, known: seq<int>, cut: bool, b: nat, n: nat)
    requires f.Valid() && |known| == |f.hits|
  {
    && b < n && Chi2(f, Assign(known, b)) < MAX_CHI2 && Competes(f, Assign(known, b), cut)
    && forall pm: nat :: pm < n && Competes(f, Assign(known, pm), cut) ==>
         Chi2(f, Assign(known, b)) <= Chi2(f, Assign(known, pm))
         && (pm < b ==> Chi2(f, Assign(known, b)) < Chi2(f, Assign(known, pm)))
  }

  ghost predicate NoneOf(f: Fit, known: seq<int>, cut: bool, n: nat)
    requires f.Valid() && |known| == |f.hits|
  {
    forall pm: nat :: pm < n && Competes(f, Assign(known, pm), cut) ==> Chi2(f, Assign(known, pm)) >= MAX_CHI2
  }

  /** The result of the search: the best that passes the cut, or else the best of all, or nothing. */
  ghost predicate ChosenByChi2(f: Fit, known: seq<int>, n: nat, found: bool, signs: seq<int>)
    requires f.Valid() && |known| == |f.hits|
  {
    if found then exists b: nat :: signs == Assign(known, b)
                                   && (BestOf(f, known, true, b, n)
                                       || (NoneOf(f, known, true, n) && BestOf(f, known, false, b, n)))
    else NoneOf(f, known, false, n)
  }

  /** A minimum and where it was found. */
  datatype Record = Record(minChi2: real, signs: seq<int>, stub: Vector)

  ghost predicate RecordOf(f: Fit, known: seq<int>, r: Record, b: nat)
    requires f.Valid() && |known| == |f.hits|
  {
    r.signs == Assign(known, b) && r.minChi2 == Chi2(f, r.signs) && r.stub == Stub(f, r.signs) + [0.0]
  }

  /** What is recorded about the assignments before n: the best that pass, and the best that fail. */
  ghost predicate Recorded(f: Fit, known: seq<int>, n: nat, best: Record, failing: Record)
    requires f.Valid() && |known| == |f.hits|
  {
    && (best.minChi2 == MAX_CHI2 ==> NoneOf(f, known, true, n))
    && (best.minChi2 != MAX_CHI2 ==> exists b: nat :: RecordOf(f, known, best, b) && BestOf(f, known, true, b, n))
    && (failing.minChi2 == MAX_CHI2 && best.minChi2 == MAX_CHI2 ==> NoneOf(f, known, false, n))
    && (failing.minChi2 != MAX_CHI2 ==>
          failing.minChi2 < MAX_CHI2
          && exists b: nat ::
               (RecordOf(f, known, failing, b) && (best.minChi2 == MAX_CHI2 ==> BestOf(f, known, false, b, n))))
    && best.minChi2 <= MAX_CHI2
  }

  /** Assignment n against the best before it. */
  lemma StillBest(f: Fit, known: seq<int>, cut: bool, b: nat, n: nat)
    requires f.Valid() && |known| == |f.hits| && BestOf(f, known, cut, b, n)
    requires !Competes(f, Assign(known, n), cut) || Chi2(f, Assign(known, n)) >= Chi2(f, Assign(known, b))
    ensures BestOf(f, known, cut, b, n + 1)
  {
  }

  lemma StillNone(f: Fit, known: seq<int>, cut: bool, n: nat)
    requires f.Valid() && |known| == |f.hits| && NoneOf(f, known, cut, n)
    requires !Competes(f, Assign(known, n), cut) || Chi2(f, Assign(known, n)) >= MAX_CHI2
    ensures NoneOf(f, known, cut, n + 1)
  {
  }

  lemma NewBest(f: Fit, known: seq<int>, cut: bool, b: nat, n: nat)
    requires f.Valid() && |known| == |f.hits|
    requires NoneOf(f, known, cut, n)
             || (BestOf(f, known, cut, b, n) && Chi2(f, Assign(known, n)) < Chi2(f, Assign(known, b)))
    requires Competes(f, Assign(known, n), cut) && Chi2(f, Assign(known, n)) < MAX_CHI2
    ensures BestOf(f, known, cut, n, n + 1)
  {
  }

  /** One assignment tried. */
  lemma NextRecorded(f: Fit, known: seq<int>, n: nat, best: Record, failing: Record, r: Record)
    requires f.Valid() && |known| == |f.hits| && Recorded(f, known, n, best, failing) && RecordOf(f, known, r, n)
    ensures r.minChi2 >= best.minChi2 ==> Recorded(f, known, n + 1, best, failing)
    ensures r.minChi2 < best.minChi2 && Passes(f, r.signs) ==> Recorded(f, known, n + 1, r, failing)
    ensures r.minChi2 < best.minChi2 && !Passes(f, r.signs) ==>
              Recorded(f, known, n + 1, best, if r.minChi2 < failing.minChi2 then r else failing)
  {
    hide Passes, Chi2, Stub;
    if best.minChi2 != MAX_CHI2 {
      BestKnown(f, known, n, best, failing, r);
    } else {
      NoBestYet(f, known, n, best, failing, r);
    }
  }

  lemma BestKnown(f: Fit, known: seq<int>, n: nat, best: Record, failing: Record, r: Record)
    requires f.Valid() && |known| == |f.hits| && Recorded(f, known, n, best, failing) && RecordOf(f, known, r, n)
    requires best.minChi2 != MAX_CHI2
    ensures r.minChi2 >= best.minChi2 ==> Recorded(f, known, n + 1, best, failing)
    ensures r.minChi2 < best.minChi2 && Passes(f, r.signs) ==> Recorded(f, known, n + 1, r, failing)
    ensures r.minChi2 < best.minChi2 && !Passes(f, r.signs) ==>
              Recorded(f, known, n + 1, best, if r.minChi2 < failing.minChi2 then r else failing)
  {
    hide Passes, Chi2, Stub;
    var b: nat :| RecordOf(f, known, best, b) && BestOf(f, known, true, b, n);
    if r.minChi2 >= best.minChi2 || !Passes(f, r.signs) {
      StillBest(f, known, true, b, n);
    } else {
      NewBest(f, known, true, b, n);
    }
  }

  lemma NoBestYet(f: Fit, known: seq<int>, n: nat, best: Record, failing: Record, r: Record)
    requires f.Valid() && |known| == |f.hits| && Recorded(f, known, n, best, failing) && RecordOf(f, known, r, n)
    requires best.minChi2 == MAX_CHI2
    ensures r.minChi2 >= best.minChi2 ==> Recorded(f, known, n + 1, best, failing)
    ensures r.minChi2 < best.minChi2 && Passes(f, r.signs) ==> Recorded(f, known, n + 1, r, failing)
    ensures r.minChi2 < best.minChi2 && !Passes(f, r.signs) ==>
              Recorded(f, known, n + 1, best, if r.minChi2 < failing.minChi2 then r else failing)
  {
    hide Passes, Chi2, Stub;
    if r.minChi2 < MAX_CHI2 && Passes(f, r.signs) {
      NewBest(f, known, true, 0, n);
    } else {
      StillNone(f, known, true, n);
      if failing.minChi2 != MAX_CHI2 {
        var b: nat :| RecordOf(f, known, failing, b) && BestOf(f, known, false, b, n);
        if r.minChi2 < failing.minChi2 {
          NewBest(f, known, false, b, n);
        } else {
          StillBest(f, known, false, b, n);
        }
      } else if r.minChi2 < MAX_CHI2 {
        NewBest(f, known, false, 0, n);
      } else {
        StillNone(f, known, false, n);
      }
    }
  }

  /** The search when at most one plane is missing, or two in the newer style of chamber. */
  method SearchByChi2(f: Fit, known: seq<int>, n: nat) returns (found: bool, signs: seq<int>, stub: Vector)
    requires f.Valid() && |known| == |f.hits|
    ensures ChosenByChi2(f, known, n, found, signs)
    ensures found ==> |signs| == |f.hits| && stub == Stub(f, signs) + [0.0]
  {
    hide Chi2, Stub, Passes;
    var best, failing := Record(MAX_CHI2, [], []), Record(MAX_CHI2, [], []);
    for pmloop := 0 to n
      invariant Recorded(f, known, pmloop, best, failing)
    {
      var r := TryAssignment(f, known, pmloop);
      best, failing := Compare(f, known, pmloop, best, failing, r);
    }
    found := !(best.minChi2 == MAX_CHI2 && failing.minChi2 == MAX_CHI2);
    if best.minChi2 == MAX_CHI2 {
      best := failing;
    }
    signs, stub := best.signs, best.stub;
  }

  method TryAssignment(f: Fit, known: seq<int>, pmloop: nat) returns (r: Record)
    requires f.Valid() && |known| == |f.hits|
    ensures RecordOf(f, known, r, pmloop)
  {
    var plusminus := AssignSigns(known, pmloop);
    var stub, chi2 := FindStub(f.g, f.hits, plusminus, f.inverse);
    r := Record(chi2, plusminus, stub);
  }

  method Compare(f: Fit, known: seq<int>, ghost n: nat, best: Record, failing: Record, r: Record)
    returns (newBest: Record, newFailing: Record)
    requires f.Valid() && |known| == |f.hits| && Recorded(f, known, n, best, failing) && RecordOf(f, known, r, n)
    ensures Recorded(f, known, n + 1, newBest, newFailing)
  {
    NextRecorded(f, known, n, best, failing, r);
    StubLength(f, known, r, n);
    hide Recorded, RecordOf, Chi2, Stub;
    newBest, newFailing := best, failing;
    if r.minChi2 < best.minChi2 {
      if f.maxXPDiff < 100.0 {
        if Agrees(f, r.stub[2]) {
          newBest := r;
        } else if r.minChi2 < failing.minChi2 {
          newFailing := r;
        }
      } else {
        newBest := r;
      }
    }
  }

  lemma StubLength(f: Fit, known: seq<int>, r: Record, n: nat)
    requires f.Valid() && |known| == |f.hits| && RecordOf(f, known, r, n)
    ensures |r.stub| == 4 && |r.signs| == |f.hits| && Stub(f, r.signs)[2] == r.stub[2]
  {
  }

  // ---- choosing by slope --------------------------------------------------------------------------------

  const MIN_SLOPE := 0.25

  /** How steep the stub of these signs is; nothing stands for infinitely steep. */
  function Steepness(f: Fit, signs: seq<int>): Option<real>
    requires f.Valid() && |signs| == |f.hits|
  {
    var slope := Slope(f, Stub(f, signs)[2]);
    if slope.None? then None else Some(Abs(slope.value))
  }

  predicate FlatEnough(f: Fit, signs: seq<int>)
    requires f.Valid() && |signs| == |f.hits|
  {
    Steepness(f, signs).Some? && Steepness(f, signs).value <= MIN_SLOPE
  }

  /** Of the first n assignments, the b-th is the flattest, and the last that is so flat. */
  ghost predicate FlattestOf(f: Fit, known: seq<int>, b: nat, n: nat)
    requires f.Valid() && |known| == |f.hits|
  {
    && b < n && FlatEnough(f, Assign(known, b))
    && forall pm: nat :: pm < n && FlatEnough(f, Assign(known, pm)) ==>
         Steepness(f, Assign(known, b)).value <= Steepness(f, Assign(known, pm)).value
         && (pm > b ==> Steepness(f, Assign(known, b)).value < Steepness(f, Assign(known, pm)).value)
  }

  ghost predicate NoneFlat(f: Fit, known: seq<int>, n: nat)
    requires f.Valid() && |known| == |f.hits|
  {
    forall pm: nat :: pm < n ==> !FlatEnough(f, Assign(known, pm))
  }

  /** The result: the flattest, whatever its chi-squared is, as long as that is not exactly 1.0e10. */
  ghost predicate ChosenBySlope(f: Fit, known: seq<int>, n: nat, found: bool, signs: seq<int>)
    requires f.Valid() && |known| == |f.hits|
  {
    || (!found && NoneFlat(f, known, n))
    || exists b: nat :: signs == Assign(known, b) && FlattestOf(f, known, b, n)
                        && (found <==> Chi2(f, signs) != MAX_CHI2)
  }

  ghost predicate FlattestRecorded(f: Fit, known: seq<int>, n: nat, best: Record, minxp: real)
    requires f.Valid() && |known| == |f.hits|
  {
    || (best.minChi2 == MAX_CHI2 && minxp == MIN_SLOPE && NoneFlat(f, known, n))
    || exists b: nat :: RecordOf(f, known, best, b) && FlattestOf(f, known, b, n)
                        && Steepness(f, Assign(known, b)) == Some(minxp)
  }

  lemma NextFlattest(f: Fit, known: seq<int>, n: nat, best: Record, minxp: real, r: Record)
    requires f.Valid() && |known| == |f.hits| && RecordOf(f, known, r, n) && minxp <= MIN_SLOPE
    requires FlattestRecorded(f, known, n, best, minxp)
    ensures var s := Steepness(f, Assign(known, n));
            if s.Some? && s.value <= minxp then FlattestRecorded(f, known, n + 1, r, s.value)
            else FlattestRecorded(f, known, n + 1, best, minxp)
  {
    hide Chi2, Stub, Steepness;
    var s := Steepness(f, Assign(known, n));
    if best.minChi2 == MAX_CHI2 && minxp == MIN_SLOPE && NoneFlat(f, known, n) {
      if s.Some? && s.value <= minxp {
        assert FlattestOf(f, known, n, n + 1);
      }
    } else {
      var b: nat :| RecordOf(f, known, best, b) && FlattestOf(f, known, b, n)
                    && Steepness(f, Assign(known, b)) == Some(minxp);
      if s.Some? && s.value <= minxp {
        assert FlattestOf(f, known, n, n + 1);
      } else {
        assert FlattestOf(f, known, b, n + 1);
      }
    }
  }

  /** The search when two planes are missing in the old style of chamber. */
  method SearchBySlope(f: Fit, known: seq<int>, n: nat) returns (found: bool, signs: seq<int>, stub: Vector)
    requires f.Valid() && |known| == |f.hits|
    ensures ChosenBySlope(f, known, n, found, signs)
    ensures found ==> |signs| == |f.hits| && stub == Stub(f, signs) + [0.0]
  {
    hide Chi2, Stub, Steepness, Slope;
    var minxp := MIN_SLOPE;
    var best := Record(MAX_CHI2, [], []);
    for pmloop := 0 to n
      invariant minxp <= MIN_SLOPE && FlattestRecorded(f, known, pmloop, best, minxp)
    {
      var r := TryAssignment(f, known, pmloop);
      NextFlattest(f, known, pmloop, best, minxp, r);
      StubLength(f, known, r, pmloop);
      var xpFit := Slope(f, r.stub[2]);
      SteepnessIs(f, r.signs);
      if xpFit.Some? && Abs(xpFit.value) <= minxp {
        minxp := Abs(xpFit.value);
        best := r;
      }
    }
    found := best.minChi2 != MAX_CHI2;
    signs, stub := best.signs, best.stub;
  }

  lemma SteepnessIs(f: Fit, signs: seq<int>)
    requires f.Valid() && |signs| == |f.hits|
    ensures var slope := Slope(f, Stub(f, signs)[2]);
            Steepness(f, signs) == if slope.None? then None else Some(Abs(slope.value))
  {
  }

  // ---- in terms of signs ------------------------------------------------------------------------------

  /** These signs beat all other consistent ones that compete. */
  ghost predicate BestSigns(f: Fit, known: seq<int>, cut: bool, signs: seq<int>)
    requires f.Valid() && |known| == |f.hits|
  {
    && Consistent(known, signs) && Competes(f, signs, cut) && Chi2(f, signs) < MAX_CHI2
    && forall other :: Consistent(known, other) && Competes(f, other, cut) ==> Chi2(f, signs) <= Chi2(f, other)
  }

  ghost predicate NoSigns(f: Fit, known: seq<int>, cut: bool)
    requires f.Valid() && |known| == |f.hits|
  {
    forall other :: Consistent(known, other) && Competes(f, other, cut) ==> Chi2(f, other) >= MAX_CHI2
  }

  /**
   Of all signs that agree with the known ones: those with the smallest chi-squared among those
   passing the cut; when none pass, those with the smallest of all.
   */
  ghost predicate RightSigns(f: Fit, known: seq<int>, found: bool, signs: seq<int>)
    requires f.Valid() && |known| == |f.hits|
  {
    if found then BestSigns(f, known, true, signs) || (NoSigns(f, known, true) && BestSigns(f, known, false, signs))
    else NoSigns(f, known, false)
  }

  lemma BestIsBestSigns(f: Fit, known: seq<int>, cut: bool, b: nat)
    requires f.Valid() && |known| == |f.hits| && Known(known) && BestOf(f, known, cut, b, Pow2(Free(known)))
    ensures BestSigns(f, known, cut, Assign(known, b))
  {
    hide Chi2, Competes;
    AssignIsConsistent(known, b);
    forall other | Consistent(known, other) && Competes(f, other, cut)
      ensures Chi2(f, Assign(known, b)) <= Chi2(f, other)
    {
      EveryAssignmentVisited(known, other);
      assert Competes(f, Assign(known, WordOf(known, other)), cut);
    }
  }

  lemma NoneIsNoSigns(f: Fit, known: seq<int>, cut: bool)
    requires f.Valid() && |known| == |f.hits| && NoneOf(f, known, cut, Pow2(Free(known)))
    ensures NoSigns(f, known, cut)
  {
    hide Chi2, Competes;
    forall other | Consistent(known, other) && Competes(f, other, cut) ensures Chi2(f, other) >= MAX_CHI2 {
      EveryAssignmentVisited(known, other);
      assert Competes(f, Assign(known, WordOf(known, other)), cut);
    }
  }

  /** The search through all words is the search through all signs. */
  lemma SearchIsExhaustive(f: Fit, known: seq<int>, found: bool, signs: seq<int>)
    requires f.Valid() && |known| == |f.hits| && Known(known)
    requires ChosenByChi2(f, known, Pow2(Free(known)), found, signs)
    ensures RightSigns(f, known, found, signs)
  {
    hide Chi2, Competes, BestOf, NoneOf, BestSigns, NoSigns;
    var n := Pow2(Free(known));
    if found {
      var b: nat :| signs == Assign(known, b) && (BestOf(f, known, true, b, n)
                                                  || (NoneOf(f, known, true, n) && BestOf(f, known, false, b, n)));
      if BestOf(f, known, true, b, n) {
        BestIsBestSigns(f, known, true, b);
      } else {
        NoneIsNoSigns(f, known, true);
        BestIsBestSigns(f, known, false, b);
      }
    } else {
      NoneIsNoSigns(f, known, false);
    }
  }

  /** The flattest of all signs that agree with the known ones. */
  ghost predicate FlattestSigns(f: Fit, known: seq<int>, found: bool, signs: seq<int>)
    requires f.Valid() && |known| == |f.hits|
  {
    if exists other :: Consistent(known, other) && FlatEnough(f, other)
    then
      && Consistent(known, signs) && FlatEnough(f, signs) && (found <==> Chi2(f, signs) != MAX_CHI2)
      && forall other :: Consistent(known, other) && FlatEnough(f, other) ==>
           Steepness(f, signs).value <= Steepness(f, other).value
    else !found
  }

  lemma FlattestOfAll(f: Fit, known: seq<int>, found: bool, signs: seq<int>)
    requires f.Valid() && |known| == |f.hits| && Known(known)
    requires ChosenBySlope(f, known, Pow2(Free(known)), found, signs)
    ensures FlattestSigns(f, known, found, signs)
  {
    hide Chi2, Steepness;
    forall other | Consistent(known, other)
      ensures WordOf(known, other) < Pow2(Free(known)) && Assign(known, WordOf(known, other)) == other
    {
      EveryAssignmentVisited(known, other);
    }
    if !(!found && NoneFlat(f, known, Pow2(Free(known)))) {
      var b: nat :| signs == Assign(known, b) && FlattestOf(f, known, b, Pow2(Free(known)))
                    && (found <==> Chi2(f, signs) != MAX_CHI2);
      AssignIsConsistent(known, b);
    }
  }

  // ---- one space point ----------------------------------------------------------------------------------

  /** A chamber's constants; `inverses` holds the inverted matrices of the table. */
  datatype Chamber = Chamber(g: Geometry, style: Style, table: Table, inverses: Table, maxXPDiff: real, ratio: real)
  {
    ghost predicate Valid() {
      && g.Valid() && StyleSound(style) && EntriesRight(g, table)
      && forall planes: set<int> :: planes <= AllPlanes(g) && |planes| >= |g.coefs| - 2 ==> PatternOf(planes) in table
    }

    /** The matrix for the planes of these hits could be inverted. */
    ghost predicate Invertible(hits: seq<StubHit>) {
      var pattern := PatternOf(PlanesOf(hits));
      pattern in table ==> pattern in inverses && IsInverse(table[pattern], inverses[pattern])
    }

    /** All matrices of the table could be inverted. */
    ghost predicate AllInverted() {
      forall pattern :: pattern in table ==> pattern in inverses && IsInverse(table[pattern], inverses[pattern])
    }
  }

  /** A space point as the search leaves it: its hits, their left/right signs and its stub, if that is finite. */
  class StubPoint {
    const x: real
    const hits: seq<StubHit>
    var lr: seq<int>
    var stub: Option<Vector>
    var stubSet: bool

    constructor (x: real, hits: seq<StubHit>)
      ensures this.x == x && this.hits == hits && Untouched()
    {
      this.x, this.hits := x, hits;
      lr, stub, stubSet := seq(|hits|, i => 0), Some([0.0, 0.0, 0.0, 0.0]), false;
    }

    predicate Untouched()
      reads this
    {
      !stubSet && stub == Some([0.0, 0.0, 0.0, 0.0]) && lr == seq(|hits|, i => 0)
    }
  }

  function FitOf(c: Chamber, x: real, hits: seq<StubHit>): Fit
    requires PatternOf(PlanesOf(hits)) in c.inverses
  {
    Fit(c.g, c.inverses[PatternOf(PlanesOf(hits))], hits, x, c.maxXPDiff, c.ratio)
  }

  method MakePattern(g: Geometry, hits: seq<StubHit>) returns (bitpat: bv32)
    requires g.Valid() && OnPlanes(g, hits)
    ensures bitpat == Mask(PlanesOf(hits))
  {
    hide Mask, Bit;
    bitpat := 0;
    NoPlanes();
    ghost var planes: set<int> := {};
    for ihit := 0 to |hits|
      invariant bitpat == Mask(planes)
      invariant forall p :: p in planes <==> exists i :: 0 <= i < ihit && hits[i].plane == p
    {
      MaskWith(planes, hits[ihit].plane);
      planes := planes + {hits[ihit].plane};
      bitpat := bitpat | Bit(hits[ihit].plane);
    }
    forall p ensures p in planes <==> p in PlanesOf(hits) {
      InPlanesOf(hits, p);
    }
    assert planes == PlanesOf(hits);
  }

  lemma {:induction false} PlanesHit(g: Geometry, hits: seq<StubHit>)
    requires g.Valid() && OnPlanes(g, hits)
    ensures Below(PlanesOf(hits), MOST_PLANES) && PlanesOf(hits) <= AllPlanes(g)
    ensures hits == [] ==> |PlanesOf(hits)| == 0
  {
    PlanesKnown(g, hits);
  }

  /** What the search leaves behind for a space point. */
  ghost predicate SearchDone(c: Chamber, x: real, hits: seq<StubHit>, known: seq<int>, found: bool, signs: seq<int>)
    requires c.Valid() && OnPlanes(c.g, hits) && |known| == |hits|
  {
    var planes := |PlanesOf(hits)|;
    if planes < |c.g.coefs| - 2 then !found
    else
      && PatternOf(PlanesOf(hits)) in c.inverses && hits != []
      && if planes == |c.g.coefs| - 2 && c.style.hms then FlattestSigns(FitOf(c, x, hits), known, found, signs)
         else RightSigns(FitOf(c, x, hits), known, found, signs)
  }

  /** No stub has a smaller chi-squared with these signs. */
  ghost predicate BestFor(g: Geometry, hits: seq<StubHit>, signs: seq<int>, stub: Vector)
    requires g.Valid() && OnPlanes(g, hits) && |signs| == |hits| && |stub| == 4
  {
    forall other: Vector :: |other| == 3 ==>
      ChiSquared(PointsOf(g, hits, signs), stub[..3]) <= ChiSquared(PointsOf(g, hits, signs), other)
  }

  /** The tilt of the chamber, as the plane has it. */
  function TiltOf(g: Geometry, plane: int): Tilt
    requires g.Valid() && 0 <= plane < |g.coefs|
  {
    Tilt(g.cosBeta[plane], g.sinBeta[plane], g.tanBeta[plane])
  }

  /** Signs for one space point, and the stub fitted with them in the chamber's own coordinates. */
  datatype Answer = Answer(found: bool, signs: seq<int>, fitted: Vector)

  ghost predicate RightAnswer(c: Chamber, x: real, hits: seq<StubHit>, known: seq<int>, a: Answer)
    requires c.Valid() && OnPlanes(c.g, hits)
  {
    && |known| == |hits| && AllKnown(c.style, hits, known) && SearchDone(c, x, hits, known, a.found, a.signs)
    && (a.found ==>
          && hits != [] && |a.signs| == |hits| && |a.fitted| == 4 && a.fitted[3] == 0.0
          && BestFor(c.g, hits, a.signs, a.fitted))
  }

  /** The space point as it is left: signs and rotated stub are written when signs are found. */
  ghost predicate Written(c: Chamber, sp: StubPoint, a: Answer)
    requires c.Valid() && OnPlanes(c.g, sp.hits) && a.found && sp.hits != [] && |a.fitted| == 4
    reads sp
  {
    sp.lr == a.signs && sp.stub == Turned(a.fitted, TiltOf(c.g, sp.hits[0].plane)) && sp.stubSet
  }

  /**
   Signs and stub of one space point.  When signs are found they are written to the hits, and the
   stub is the one with the smallest chi-squared for these signs, turned into the coordinates of the
   spectrometer; otherwise nothing is written.
   */
  method FindSigns(c: Chamber, sp: StubPoint) returns (ghost known: seq<int>, ghost answer: Answer)
    requires c.Valid() && OnPlanes(c.g, sp.hits) && OnePerPlane(sp.hits) && c.Invertible(sp.hits)
    modifies sp
    ensures RightAnswer(c, sp.x, sp.hits, known, answer)
    ensures if answer.found then Written(c, sp, answer)
            else sp.lr == old(sp.lr) && sp.stub == old(sp.stub) && sp.stubSet == old(sp.stubSet)
  {
    hide SearchDone, AllKnown, BestFor, Turned;
    var bitpat, nplaneshit := CountPlanes(c.g, sp.hits);
    var plusminusknown, nplusminus := FindKnown(c.style, sp.hits);
    known := plusminusknown;
    var found, signs, stub := Search(c, sp.x, sp.hits, bitpat, nplaneshit, plusminusknown, nplusminus);
    answer := Answer(found, signs, stub);
    if found {
      var pindex := sp.hits[0].plane;
      var turned := RotateStub(stub, c.g.cosBeta[pindex], c.g.sinBeta[pindex], c.g.tanBeta[pindex]);
      sp.lr, sp.stub, sp.stubSet := signs, turned, true;
    }
  }

  /** The slopes first, then the coordinates moved along them. */
  method RotateStub(spstub: Vector, cosBeta: real, sinBeta: real, tanBeta: real) returns (stub: Option<Vector>)
    requires |spstub| == 4
    ensures stub == Turned(spstub, Tilt(cosBeta, sinBeta, tanBeta))
  {
    var d, e := 1.0 + spstub[2] * tanBeta, spstub[2] * sinBeta + cosBeta;
    if d == 0.0 || e == 0.0 {
      stub := None;
    } else {
      var dx := (spstub[2] - tanBeta) / d;
      var dy := spstub[3] / e;
      var x := spstub[0] * cosBeta - spstub[0] * dx * sinBeta;
      var y := spstub[1] - spstub[1] * dy * sinBeta;
      assert SlopeX(spstub[2], tanBeta) == Some(dx) && SlopeY(spstub[2], spstub[3], sinBeta, cosBeta) == Some(dy);
      assert MovedX(spstub[0], dx, sinBeta, cosBeta) == x && MovedY(spstub[1], dy, sinBeta) == y;
      hide SlopeX, SlopeY, MovedX, MovedY;
      stub := Some([x, y, dx, dy]);
    }
  }

  /** A bit for each hit, exactly when no plane has two hits. */
  lemma BitsAreHits(g: Geometry, hits: seq<StubHit>)
    requires g.Valid() && OnPlanes(g, hits)
    ensures Count1Bits(Mask(PlanesOf(hits))) as int == |hits| <==> OnePerPlane(hits)
  {
    hide Mask, Count1Bits, PlanesOf, OnePerPlane;
    PlanesHit(g, hits);
    CountIsSize(PlanesOf(hits));
    PlanesCounted(hits);
  }

  method CountPlanes(g: Geometry, hits: seq<StubHit>) returns (bitpat: BitPattern, nplaneshit: int)
    requires g.Valid() && OnPlanes(g, hits)
    ensures bitpat == PatternOf(PlanesOf(hits)) && nplaneshit == |PlanesOf(hits)|
  {
    hide Mask, Count1Bits;
    var word := MakePattern(g, hits);
    PlanesHit(g, hits);
    CountIsSize(PlanesOf(hits));
    bitpat, nplaneshit := BitPattern(word), Count1Bits(word) as int;
  }

  method Search(c: Chamber, x: real, hits: seq<StubHit>, bitpat: BitPattern, nplaneshit: int, known: seq<int>, n: nat)
    returns (found: bool, signs: seq<int>, stub: Vector)
    requires c.Valid() && OnPlanes(c.g, hits) && OnePerPlane(hits) && c.Invertible(hits)
    requires bitpat == PatternOf(PlanesOf(hits)) && nplaneshit == |PlanesOf(hits)|
    requires |known| == |hits| && Known(known) && n == Pow2(Free(known))
    ensures SearchDone(c, x, hits, known, found, signs)
    ensures found ==> hits != [] && |signs| == |hits| && |stub| == 4 && stub[3] == 0.0
    ensures found ==> BestFor(c.g, hits, signs, stub)
  {
    PlanesHit(c.g, hits);
    found, signs, stub := false, [], [];
    if nplaneshit >= |c.g.coefs| - 2 {
      var f := Fit(c.g, c.inverses[bitpat], hits, x, c.maxXPDiff, c.ratio);
      if nplaneshit >= |c.g.coefs| - 1 || !c.style.hms {
        found, signs, stub := SearchByChi2(f, known, n);
        SearchIsExhaustive(f, known, found, signs);
      } else {
        found, signs, stub := SearchBySlope(f, known, n);
        FlattestOfAll(f, known, found, signs);
      }
      if found {
        forall other: Vector | |other| == 3
          ensures ChiSquared(PointsOf(c.g, hits, signs), stub[..3]) <= ChiSquared(PointsOf(c.g, hits, signs), other)
        {
          StubIsBest(c.g, c.table, c.inverses[bitpat], hits, signs, other);
        }
      }
    }
  }
}
