# Proofs about hcana

Hall C's analyzer turns raw detector data into tracks and helicity-sorted counts.  This project models
the parts of it that are decided by logic rather than by the ROOT and Podd libraries, in Dafny, and
proves what they promise.  `dafny verify dfyconfig.toml` checks all of it.

**Delayed helicity** (`Lfsr`, `Helicity`, `HelicityRuns`, `HelicitySource`, `HelicityPattern`,
`PhaseSearch`, `PatternRuns`, `HelicityFaults`).  The beam helicity follows a 30-bit shift register, one bit per quartet of
cycles, and is reported some quartets late.  Class `HelicityDecoder.Helicity` has the fields and methods of
`THcHelicity`; every method is proved equal to a specification function of the old state.  About that
specification: what every event of any run keeps, and end-to-end theorems against a model of the source, with the QRT signal and without it; and what the
decoder does without a delay and when numbers, reports or signals are wrong.

**Helicity scalers** (`ScalerHelicity`, `QuartetSums`, `HelicityScaler`, `HelicityCounts`, `MissingBits`).  The
second decoder, one read per cycle, with counts sorted by helicity, quartet asymmetries and their error.

**Drift chambers** (`SpacePoints`, `ComboCounts`, `MultiWire`, `HitChoice`, `DriftChamber`, `PlanePatterns`,
`StubFit`, `StubRotation`, `SignChoices`, `KnownSigns`, `LeftRight`, `StubRecovery`, `ChamberStubs`, `Linking`,
`TrackCombinations`, `LinkStubs`).  Space
points from hit pairs, cloning, choice of one hit per plane, the search over left/right signs with the stub
fit, its table of matrices and the rotation of the stub, and linking of stubs over a list that grows while it
is scanned.

**Detector map and hits** (`DetectorMap`, `MapJoins`, `HitList`, `ChamberPlanes`).  Compression of channel tables,
the decoder that undoes it, and the planes that share out the sorted hits.

**Fits and selection** (`LeastSquares`, `Hodoscope`, `Pruning`).  The velocity fit of the hodoscope and the
twelve stages that choose the best track.

Where comments and code of hcana differ, or the code does something a reader may not expect, the model
follows the code:

- `fIsQrt` is described as marking the last cycle of a quartet; the decoder treats it as the first
  (src/THcHelicity.cxx:463-485).
- Without QRT a calibration is lost again when the thirtieth bit is taken after a gap, in the second or third
  cycle of its quartet (`PatternRuns.LostAfterGap`); it lasts exactly when the bit is taken in the first
  (`HelicityPattern.LastsIffFirstCycle`).
- Without QRT the search can settle on a wrong phase while quartets repeat (`PatternRuns.WrongPhaseFound`,
  `PhaseSearch.TestedIff`); the first bit change in an unbroken run puts it right
  (`PhaseSearch.FindsRightPhase`), and every register but zero has one (`PhaseSearch.SixtyQuartetsAreEnough`,
  `PatternRuns.ZeroStaysWrong`).
- `FillMap` compares a channel only with the one before it, so blocks that could be joined are left when a
  channel is entered twice (`MapJoins.FirstAndThird`, `MapJoins.MapJoinableIff`).
- `SpacePointMultiWire` compares two counts that are always equal, so it returns 0 whatever it added
  (src/THcDriftChamber.cxx:1106-1115).
- The angle cut subtracts tan(beta)/(1 + slope tan(beta)) from the slope; the rotation at the end divides
  the difference (src/THcDriftChamber.cxx:1480-1481 and 1559-1560; `LeftRight.CutIsRotatedIff`).  That
  rotation corrects y with y where
  the geometry has x (src/THcDriftChamber.cxx:1568-1569); `StubRotation.SameLine` says when that is right.
- `LinkStubs` links the same pair again and again: with three or more partners a seed has identical tracks
  (`Linking.WantedDiffer`, `Linking.IdenticalTracks`), and it wants a power of two of them.
- `fProjectToChamber` looks up the chamber by its number, which counts from 1, in an array that counts
  from 0; the model takes the position as a function of the number.
- `LinkStubs` makes every combination of a seed with one point of each other chamber (`TrackCombinations`); with
  more than ten chambers a track would be full, which is not modelled further than `AddPoint` says.
- The hodoscope fits a velocity along z and then divides it by the path length per distance in z, where the
  particle's own velocity is that product (src/THcHodoscope.cxx:1635-1639; `Hodoscope.TrueVelocityIff`).
- The scaler's check for a missing quartet bit exists for offsets 0 and 3 only; with the default offset a missing
  bit goes unnoticed (`MissingBits.LostIff`).
- The dipole stage of the pruning counts tracks only if it is switched on, and so never rejects otherwise.
- The scaler's default cycle offset is -3, which is right for a quartet bit in the second cycle of each
  quartet.  With the bit in the last cycle, which its comments describe for older runs, the offset must be 3:
  with -3 the seed is inverted and signs are wrong (`ScalerHelicity.DefaultWithEarlyBit`,
  `ScalerHelicity.RightIffMatching`).

Conventions: `Double_t` is `real` and rounding is not modelled; times of the helicity decoder are in
units of the cycle period; a result that is infinite or not a number in C++ is a missing value where the
code can meet one (slopes, asymmetries, ratios without degrees of freedom).  Registers are sequences of
bits; `LfsrWords` shows that the word expressions compute the same.  Library sorts are stable insertion
sorts (`Sorting`).  `Basics` holds a few shared definitions.  Hits are objects compared by address in hcana;
here they carry their place in the list.  `ScalerHelicity.Setup` is a source with the phase of its quartet
bit and the program's cycle offset; the offset matches when it is that phase modulo 4.

## Model

| member | source | states |
|---|---|---|
| Lfsr.StepThenBack | src/THcHelicity.cxx:731-797 | a back-step undoes a generator step, on every 30-bit register |
| Lfsr.BackThenStep | src/THcHelicity.cxx:731-797 | a generator step undoes a back-step |
| Lfsr.BacktrackUndoesAdvance | src/THcHelicity.cxx:731-797 | any number of back-steps undoes as many steps, for every register |
| Lfsr.AdvanceUndoesBacktrack | src/THcHelicity.cxx:731-797 | and the reverse, so every number of steps permutes the registers |
| Lfsr.NonzeroForever | src/THcHelicity.cxx:731-757 | the zero register is reached from zero alone, after any number of steps |
| Lfsr.GetSeed30 | src/THcHelicity.cxx:759-797 | the loop returns the register that thirty steps take to the current one |
| Lfsr.NextBit | src/THcHelicity.cxx:655-662 | shifting in the bit the generator shows next extends the agreement with its register by one bit |
| Lfsr.BitsGained | src/THcHelicity.cxx:647-680 | bits shifted in are right one by one on top of those that were right before, up to thirty |
| Lfsr.SeedAcquired | src/THcHelicity.cxx:647-680 | thirty consecutive bits leave exactly the generator's register, whatever the seed held before |
| Lfsr.TopBitUnused | src/THcHelicityScaler.cxx:616-626 | the bits that the second and third step show do not depend on the top bit of the register |
| Lfsr.ComplementForgotten | src/THcHelicityScaler.cxx:616-626 | nor on whether all bits are inverted |
| Lfsr.Recurrence | src/THcHelicity.cxx:731-757 | the bit shown next is the exclusive or of those shown 7, 28, 29 and 30 steps before, after any number of steps |
| LfsrWords.PushOfWord | src/THcHelicity.cxx:655-662 | the word expression that shifts a bit in computes the register function, for every register |
| LfsrWords.StepOfWord | src/THcHelicity.cxx:731-757 | the word expression of RanBit30 computes the register step |
| LfsrWords.BackStepOfWord | src/THcHelicity.cxx:759-797 | one turn of GetSeed30's loop on words computes the back-step |
| LfsrWords.BitOfWord | src/THcHelicity.cxx:731-757 | a mask test on the word reads the register's bit |
| LfsrWords.CopiesAgreeIff | src/THcHelicityScaler.cxx:1059-1072 | the two copies of RanBit30 agree on a word exactly when it is not negative or its taps are even |
| HelicityDecoder.Helicity.constructor | src/THcHelicity.cxx:59-97 | the state that Init leaves |
| HelicityDecoder.Helicity.Decode | src/THcHelicity.cxx:282-585 | one call takes the whole state to Step of the old state and the event; what Step answers is said for every run by HelicityFaults (no delay, gaps in the numbers, false or unknown reports, signals out of phase) and HelicitySource |
| HelicityDecoder.Helicity.DecodeActive | src/THcHelicity.cxx:357-582 | the same, past the checks on delay and event numbers |
| HelicityDecoder.Helicity.DecodePhysics | src/THcHelicity.cxx:393-552 | a non-MPS event: account for time, then enter a new cycle if there is one |
| HelicityDecoder.Helicity.DecodeMPS | src/THcHelicity.cxx:363-392 | an MPS event moves the clock alone |
| HelicityDecoder.Helicity.StartRun | src/THcHelicity.cxx:558-572 | the first event of a run |
| HelicityDecoder.Helicity.CheckNumber | src/THcHelicity.cxx:342-355 | a gap in the event numbers disables the decoder |
| HelicityDecoder.Helicity.AccountForTime | src/THcHelicity.cxx:394-451 | missed cycles are counted and made up for; without any the registers are read |
| HelicityDecoder.Helicity.MissCycles | src/THcHelicity.cxx:396-434 | over a gap the registers advance by the quartets begun, the pattern is rewritten |
| HelicityDecoder.Helicity.BeginCycle | src/THcHelicity.cxx:452-552 | a new cycle: phase, then seed and helicities |
| HelicityDecoder.Helicity.LocateByQRT | src/THcHelicity.cxx:463-492 | the phase from an event with the QRT signal |
| HelicityDecoder.Helicity.LocateByPattern | src/THcHelicity.cxx:508-538 | the phase from the pattern of reported helicities |
| HelicityDecoder.Helicity.LocateCycle | src/THcHelicity.cxx:463-539 | which of the two, or neither, finds the phase |
| HelicityDecoder.Helicity.LoadHelicity | src/THcHelicity.cxx:624-729 | building the seed, or predicting, according to the quartet count |
| HelicityDecoder.Helicity.AddBit | src/THcHelicity.cxx:647-698 | one observed bit into the seed, and calibration at thirty |
| HelicityDecoder.Helicity.Predict | src/THcHelicity.cxx:700-722 | both seeds advance at the start of a quartet; a failed prediction drops the calibration |
| HelicityDecoder.Helicity.AdvanceSeed | src/THcHelicity.cxx:675-678 | the loop advances a register by so many quartets |
| HelicityRuns.StepKeeps | src/THcHelicity.cxx:282-585 | every event keeps: at most thirty bits, and in a calibrated state the actual seed is the reported one advanced by delay/4; past the checks the helicity is defined, and is +1 or -1 only if calibrated |
| HelicityRuns.RunKeeps | src/THcHelicity.cxx:282-585 | the same over every run from Init |
| HelicityRuns.StepFollows | src/THcHelicity.cxx:394-439 | while calibrated, one event moves the reported seed as far as it moves the quartet number, by single steps or over a gap |
| HelicityRuns.SeedFollowsCycles | src/THcHelicity.cxx:394-439 | over any calibrated stretch of a run the reported seed is the first one advanced by the change in quartet number |
| HelicityRuns.PhaseFoundInRuns | src/THcHelicity.cxx:463-539 | a calibrated decoder has found the quartet phase, in every run |
| HelicityRuns.PhaseKeepsOrder | src/THcHelicity.cxx:463-539 | the first cycle never lies in the future, whatever the signals say |
| HelicityFaults.ReportedAtOnce | src/THcHelicity.cxx:332-335 | without a delay, after any events: helicity 0 in an MPS event, else +1 exactly for isHelp without isHelm, -1 exactly for isHelm without isHelp, 0 otherwise |
| HelicityFaults.TrueAtOnce | src/THcHelicity.cxx:332-335 | when the source is reported without delay, every faithful non-MPS event gets the true helicity of its cycle |
| HelicityFaults.DisabledIff | src/THcHelicity.cxx:342-355 | the decoder is disabled exactly when some event number did not follow the one before it |
| HelicityFaults.UnknownAfterGap | src/THcHelicity.cxx:337-355 | from then on every helicity is undetermined |
| HelicityFaults.FalseReportNoticed | src/THcHelicity.cxx:700-722 | for a calibrated decoder that tracks the source: a report at the start of a quartet that contradicts the source drops the calibration |
| HelicityFaults.UnknownReportForgets | src/THcHelicity.cxx:664-667 | a quartet without a known report drops the bits collected |
| HelicityFaults.TenTolerated | src/THcHelicity.cxx:463-475 | up to ten QRT signals in a row that come out of phase change neither phase nor bits |
| HelicityFaults.EleventhRelocks | src/THcHelicity.cxx:463-475 | the eleventh starts a quartet where it comes, and the bits are dropped |
| HelicityFaults.MissingSignal | src/THcHelicity.cxx:476-506 | a signal in phase clears the problems; one missing at the start of a quartet adds one, and the eleventh gives the phase up |
| HelicityFaults.ScalerSeedCompletes | src/THcHelicity.cxx:681-696 | with two bits or more the seed of the scalers, when it is the register of the quartet before, gives the decoder the source's registers at the next bit |
| HelicityFaults.PlaceInQuartet | src/THcHelicity.cxx:624-629 | while the decoder tracks the source every non-MPS event is told the place of its cycle in its quartet |
| HelicityFaults.ClockMovesLittle | src/THcHelicity.cxx:363-392 | an MPS event moves the clock by a quarter period at most, or, from more than half a period before it, sets it back near the event; less than half a period after the clock a cycle begins |
| HelicityFaults.ErrorIsMean | src/THcHelicity.cxx:378-388 | while the clock follows the source its error becomes the mean of its own and the event's |
| HelicityFaults.MissedIff | src/THcHelicity.cxx:394-395 | so many cycles are counted as missed exactly from so many periods on, and one only after more than a period |
| HelicitySource.MPSCounted | src/THcHelicity.cxx:363-392 | with MPS jitter below a quarter period the clock stays within it of a cycle that has begun |
| HelicitySource.MissedCounted | src/THcHelicity.cxx:394-395 | the missed count is the true number of cycle boundaries |
| HelicitySource.GapMovesSeeds | src/THcHelicity.cxx:396-429 | over a gap of any length the registers of a calibrated decoder become the source's |
| HelicitySource.PatternAcross | src/THcHelicity.cxx:423-429 | the pattern written over a gap is what the source must have shown |
| HelicitySource.PredictionHolds | src/THcHelicity.cxx:700-722 | in a cycle entered while calibrated the prediction equals the report and the seeds are the new quartet's |
| HelicitySource.BitPushed | src/THcHelicity.cxx:655-662 | the bit pushed is the quartet's, at any phase 0 to 3 |
| HelicitySource.BitAcquired | src/THcHelicity.cxx:630-680 | one bit per quartet, none twice; a skipped quartet starts the count over, so that the bits are consecutive |
| HelicitySource.TrackedStep | src/THcHelicity.cxx:282-585 | a decoder that tracks the source keeps tracking it through every event and answers it correctly (both ways of finding the phase) |
| HelicitySource.SearchingStep | src/THcHelicity.cxx:463-492 | until the QRT signal is seen the decoder searches; then it tracks |
| HelicitySource.SearchesOrTracks | src/THcHelicity.cxx:282-585 | the same over every faithful run with the QRT signal |
| HelicitySource.RightForever | src/THcHelicity.cxx:282-585 | once calibrated and tracking the source, the decoder stays calibrated and every later non-MPS event gets the true helicity of its cycle, over runs of any length with any gaps; with QRT every calibrated run from Init that has seen the signal tracks (EndToEnd), without it see HelicityPattern |
| HelicitySource.EndToEnd | src/THcHelicity.cxx:282-585 | from Init, in a faithful run with the QRT signal: at any event where the signal has been seen and thirty bits are there, the decoder stays calibrated and the actual helicity is the true one for ever (a calibration found from the pattern alone is thrown away by the first QRT event) |
| HelicitySource.CalibratesInThirtyQuartets | src/THcHelicity.cxx:647-680 | thirty quartets none of which goes by without an event calibrate the decoder |
| HelicityPattern.IdleCycle | src/THcHelicity.cxx:508-537 | without QRT: a decoder with no phase stays without bits, or finds a phase and takes one bit that is right if the phase is |
| HelicityPattern.GatherEarly | src/THcHelicity.cxx:509-533 | with the right phase, in the first three cycles of a quartet: at most one bit per quartet, the source's, and a skipped quartet starts the count over |
| HelicityPattern.GatherLast | src/THcHelicity.cxx:509-533 | in the last cycle: the pattern is complete, which takes four cycles in a row, or phase and bits are given up |
| HelicityPattern.HuntsAlways | src/THcHelicity.cxx:282-585 | in every faithful run without QRT from Init: no bits without a phase, and with the right phase the bits, and the registers when calibrated, are the source's |
| HelicityPattern.KeptIffPatternWillDo | src/THcHelicity.cxx:508-533 | without QRT: the phase, and with it the calibration, is kept through an event exactly when the pattern test passes or is not made |
| HelicityPattern.LastsIffPattern | src/THcHelicity.cxx:508-533 | at an event other than MPS of a calibrated run with the right phase, the calibration is kept in every faithful continuation exactly when the recent pattern is right as far as it goes |
| HelicityPattern.LastsIffFirstCycle | src/THcHelicity.cxx:396-434 | in every faithful run from Init: when the thirtieth bit is taken with the right phase, the calibration is kept in every faithful continuation exactly when that bit was taken in the first cycle of its quartet |
| HelicityPattern.GathersByPattern | src/THcHelicity.cxx:508-537 | from the event that finds the right phase on, as long as no cycle goes by without an event, there is one bit per quartet up to thirty and the phase is kept |
| HelicityPattern.EndToEndByPattern | src/THcHelicity.cxx:282-585 | so after thirty such quartets every later non-MPS event gets the true helicity of its cycle, whatever cycles are skipped then; that the phase found is the right one is assumed here and proved below |
| PhaseSearch.FindsIff | src/THcHelicity.cxx:508-533 | an idle decoder that tests the reports of four cycles in a row finds the quartets exactly in the last cycle of a quartet, or in the second one of a quartet with the bit of the one before, and finds the right phase exactly in the last cycle |
| PhaseSearch.TestedIff | src/THcHelicity.cxx:508-533 | the same at any event of a faithful run from Init that brings a test after four cycles without a gap: the phase is found, or kept, exactly then, and is right exactly in the last cycle of a quartet |
| PhaseSearch.ChangeFinds | src/THcHelicity.cxx:508-533 | whatever the search has found so far, four cycles in a row of a quartet whose bit differs from the one before leave the quartets found with the right phase |
| PhaseSearch.FindsRightPhase | src/THcHelicity.cxx:508-533 | in every faithful run from Init in which no cycle is skipped from the quartet before a bit change on, the right phase is found by the end of the quartet with the change, and kept |
| PhaseSearch.EndToEndFromInit | src/THcHelicity.cxx:282-585 | from Init, in every faithful run without QRT: with no cycle skipped from the quartet before a bit change until thirty quartets are there, the decoder is calibrated and every later non-MPS event gets the true helicity of its cycle, whatever cycles are skipped then |
| PhaseSearch.SomeChange | src/THcHelicity.cxx:731-757 | a source whose register is not zero changes its bit within any thirty-one quartets |
| PhaseSearch.SixtyQuartetsAreEnough | src/THcHelicity.cxx:282-585 | so for every such source sixty quartets without a skipped cycle are enough, wherever in a quartet the run begins |
| PatternRuns.UnbrokenFinds | src/THcHelicity.cxx:508-533 | in the run from Init that begins in any given cycle, after four cycles the quartets are found exactly when the reports of these pass the test, and with the right phase exactly when they are those of a quartet |
| PatternRuns.WrongPhaseFound | src/THcHelicity.cxx:508-533 | when two quartets have the same bit, the run from Init whose first event comes in the third cycle of the first of them ends with a wrong phase |
| PatternRuns.SomeRepeat | src/THcHelicity.cxx:508-533 | there are such sources |
| PatternRuns.ZeroStaysWrong | src/THcHelicity.cxx:508-533 | for the source whose register is zero such a run keeps the wrong phase for ever |
| PatternRuns.CalibratesForGood | src/THcHelicity.cxx:282-585 | for every source a run from Init without QRT whose calibration is kept in every faithful continuation |
| PatternRuns.CompletedAfterGap | src/THcHelicity.cxx:396-434 | and one from Init where the cycle of the thirtieth bit is missed: it is calibrated in the second cycle of a quartet, with the right phase |
| PatternRuns.LostAfterGap | src/THcHelicity.cxx:430-434 | that run has a faithful continuation in which the calibration is lost, although phase and registers are the source's |
| ScalerHelicity.PhaseIsSeen | src/THcHelicityScaler.cxx:540-582 | once a quartet was found the program's remainder counts on from there, for every cycle offset from -3 to 3; before the first quartet it may be negative |
| ScalerHelicity.SamePhase | src/THcHelicityScaler.cxx:540-582 | and is the source's phase when the offset is the quartet bit's phase modulo 4 |
| ScalerHelicity.NeverMissed | src/THcHelicityScaler.cxx:559-578 | with a faithful source the quartet bit is there where it is expected, whatever its phase and the offset |
| ScalerHelicity.RunFollows | src/THcHelicityScaler.cxx:534-591 | in every faithful run, for every cycle offset from -3 to 3 and every phase of the quartet bit, the seed holds the bits shown at what the program takes for the starts of quartets, each inverted or none, and the count is their number |
| ScalerHelicity.SeedIsRegister | src/THcHelicityScaler.cxx:542-591 | with thirty bits all but the top bit of the seed, with 31 all of it, is the source's register, or its complement where the bits are shown inverted |
| ScalerHelicity.PredictRight | src/THcHelicityScaler.cxx:616-633 | with thirty bits and the matching offset the predicted helicity and phase are what the source reports nine cycles later |
| ScalerHelicity.ActualHelicityRight | src/THcHelicityScaler.cxx:534-640 | in every faithful run with the matching offset, the default -3 included, the actual helicity is undetermined before thirty bits, known from trigger 120 at the latest, and then the one reported nine cycles later |
| ScalerHelicity.RightIffMatching | src/THcHelicityScaler.cxx:534-640 | in every faithful run of 124 triggers or more all helicities from thirty bits on are right exactly when the offset matches the phase of the quartet bit modulo 4 |
| ScalerHelicity.PhaseRightIffMatching | src/THcHelicityScaler.cxx:627-633 | and so is the phase that goes with a known helicity, at every trigger |
| ScalerHelicity.DefaultWithEarlyBit | src/THcHelicityScaler.cxx:542-633 | with the default offset -3 and the quartet bit in the last cycle of a quartet the seed is the complement of the register, and the helicity at each start of a quartet has the wrong sign |
| ScalerHelicity.QuartetPattern | src/THcHelicityScaler.cxx:616-633 | with the matching offset, over the actual phases 0 to 3 the helicity is b, -b, -b, b |
| QuartetSums.FourConsecutive | src/THcHelicityScaler.cxx:950-977 | a quartet is counted exactly when the last four triggers are its phases 0 to 3, all above threshold, and the counts used are theirs |
| QuartetSums.AlwaysCurrent | src/THcHelicityScaler.cxx:950-974 | after every trigger the flags say which cycles of the current quartet were taken |
| QuartetSums.PlusLessMinus | src/THcHelicityScaler.cxx:998-1006 | the asymmetry formula is plus counts less minus counts over their sum |
| QuartetSums.AtMostOne | src/THcHelicityScaler.cxx:998-1006 | for nonnegative counts with a nonzero sum it is between -1 and 1 |
| QuartetSums.ScatterExpanded | src/THcHelicityScaler.cxx:147-183 | the sum of squared distances from any m in terms of the two running sums |
| QuartetSums.ErrorIsScatter | src/THcHelicityScaler.cxx:147-183 | for two or more defined asymmetries the guard of the square root always holds, and the squared error is the scatter about the mean over n(n-1) |
| QuartetSums.TotalsDefined | src/THcHelicityScaler.cxx:998-1006 | the running sums stay defined exactly as long as no counted quartet had a zero sum |
| HelicityScaler.StepSane | src/THcHelicityScaler.cxx:534-640 | every trigger keeps the lock consistent, and a known helicity comes with a phase 0 to 3 |
| HelicityScaler.TicksRegular | src/THcHelicityScaler.cxx:534-640 | in a run where no expected quartet bit is missing, a known helicity stays known and the phases follow each other |
| HelicityScaler.StaysBalanced | src/THcHelicityScaler.cxx:666-683 | plus and minus counts add up to the sums, channel by channel, after every trigger |
| HelicityScaler.Scaler.constructor | src/THcHelicityScaler.cxx:1244-1293 | the state that Init leaves |
| HelicityScaler.Scaler.FollowQuartets | src/THcHelicityScaler.cxx:534-591 | the quartet and seed part of a trigger |
| HelicityScaler.Scaler.PredictActual | src/THcHelicityScaler.cxx:616-640 | the actual helicity and phase |
| HelicityScaler.Scaler.SortByHelicity | src/THcHelicityScaler.cxx:666-683 | the counts are added by helicity and stay balanced; which triggers are in which sum is HelicityCounts.SortedAfter |
| HelicityScaler.Scaler.FillCycle | src/THcHelicityScaler.cxx:950-974 | the cycle is taken or not |
| HelicityScaler.Scaler.CountQuartet | src/THcHelicityScaler.cxx:977-1031 | totals, asymmetries and their squares of a quartet are added |
| HelicityScaler.Scaler.AnalyzeHelicityScaler | src/THcHelicityScaler.cxx:530-1043 | one read takes the whole state to Analyzed of the old one; over whole runs its sums are described by HelicityCounts and SumsAreTotals, its helicities by ScalerHelicity |
| HelicityScaler.Scaler.AnalyzeRun | src/THcHelicityScaler.cxx:490-495 | a whole run of reads |
| HelicityScaler.Scaler.End | src/THcHelicityScaler.cxx:147-183 | means and squared errors of all channels, with -1000 and 0 for fewer than two quartets |
| HelicityScaler.SumsAreTotals | src/THcHelicityScaler.cxx:977-1031 | after any number of triggers the sums of a channel are those of the list of its quartets' asymmetries |
| HelicityScaler.ErrorAtEnd | src/THcHelicityScaler.cxx:147-183 | at the end of a run the reported values are the mean of that list, its total over its length, and the squared error of the mean |
| HelicityScaler.FaithfulNeverMisses | src/THcHelicityScaler.cxx:559-578 | a faithful source never trips the quartet-bit check, for every offset from -3 to 3 |
| HelicityScaler.QuartetMeasured | src/THcHelicityScaler.cxx:998-1006 | with a faithful source and the matching offset the asymmetry of a counted quartet is by the helicities that are reported nine cycles later |
| HelicityCounts.SortedAfter | src/THcHelicityScaler.cxx:666-683 | after any number of triggers of any run: the plus sums of a channel are the counts of exactly the triggers with helicity +1, the minus sums those with -1, the totals both, and the two numbers of triggers are theirs |
| HelicityCounts.SortedRight | src/THcHelicityScaler.cxx:534-683 | with a faithful source and the matching offset the plus sums are the counts of exactly the triggers, from the first with thirty bits on, nine cycles before a positive one, the minus sums those nine cycles before a negative one |
| HelicityCounts.KnownIff | src/THcHelicityScaler.cxx:616-640 | in a faithful run the helicity is known exactly from 112 triggers after the first start on |
| HelicityCounts.TotalOfQuartets | src/THcHelicityScaler.cxx:977-1031 | the total of a channel is the sum of the four counts of every quartet that was complete |
| MissingBits.LostIff | src/THcHelicityScaler.cxx:559-578 | quartets that were found are lost exactly when the quartet bit is missing where it is looked for, which is at the start of a quartet for offset 0, at its end for offset 3, and nowhere for the others, the default included; then no helicity is known |
| MissingBits.UnknownAfterLoss | src/THcHelicityScaler.cxx:534-640 | after a loss no helicity is known for the next 113 triggers, whatever is read |
| SpacePoints.PairOnBothWires | src/THcDriftChamber.cxx:761-783 | the crossing point of a pair lies on both wires |
| SpacePoints.NewHitsAreNew | src/THcDriftChamber.cxx:829-858 | the hits merged in are those not held, each once |
| SpacePoints.AddComboKeeps | src/THcDriftChamber.cxx:805-899 | one combination keeps: no hit twice in a point, centres at squared distance at least 3 times the criterion, at most 100 points; the combination counts grow by at most one |
| SpacePoints.BuildKeeps | src/THcDriftChamber.cxx:805-899 | the same after any number of combinations, whose counts add up to no more than their number |
| SpacePoints.ComboIsHeld | src/THcDriftChamber.cxx:816-898 | a counted combination is held by a point entirely |
| DriftChamber.Chamber.FindPairs | src/THcDriftChamber.cxx:759-783 | all pairs on crossing wires, as far as there is room |
| DriftChamber.Chamber.FindCombos | src/THcDriftChamber.cxx:784-802 | all combinations of close pairs, as far as there is room |
| DriftChamber.Chamber.MergeHits | src/THcDriftChamber.cxx:829-857 | the combination's hits that the point does not hold yet, without repetition, and one more combination counted; see ComboCounts.PointsMadeOf |
| DriftChamber.Chamber.PlaceCombo | src/THcDriftChamber.cxx:816-899 | a combination goes to the first point it matches, makes a new one, or is dropped |
| DriftChamber.Chamber.FindHardSpacePoints | src/THcDriftChamber.cxx:750-903 | the points are exactly those built from the combinations in order, are good, and each counts exactly the combinations that belong to it, holds exactly their hits and stands in the middle of the first |
| DriftChamber.CombosAreProper | src/THcDriftChamber.cxx:759-802 | every combination is of two pairs of different hits, on crossing wires, close together |
| ComboCounts.CrossingHitsArePairs | src/THcDriftChamber.cxx:759-783 | every two hits whose wires cross at more than the smallest angle are a pair, as far as there is room |
| ComboCounts.ClosePairsAreCombos | src/THcDriftChamber.cxx:784-802 | every two pairs that cross close together are a combination, as far as there is room |
| ComboCounts.PlacedWhereItBelongs | src/THcDriftChamber.cxx:816-899 | one combination changes exactly the point it belongs to, said by distance: the first nearer than the criterion, else a new one if none is within three times it and there is room |
| ComboCounts.PointsMadeOf | src/THcDriftChamber.cxx:805-899 | after any number of combinations each point counts those that belong to it, holds exactly their hits and stands in the middle of the first |
| ComboCounts.CountGrowsIff | src/THcDriftChamber.cxx:816-899 | the count of all grows by one exactly when some point is nearer than the criterion, or none is nearer than three times it and there is room |
| ComboCounts.CountsAddUp | src/THcDriftChamber.cxx:805-899 | so the counts of all points add up to the number of combinations not dropped |
| DriftChamber.Chamber.SortHits | src/THcDriftChamber.cxx:1001-1016 | the hits of a point by plane |
| DriftChamber.Chamber.CountPlanes | src/THcDriftChamber.cxx:1017-1025 | planes hit, planes with several hits, and the product of the hit counts |
| DriftChamber.Chamber.OrderPlanes | src/THcDriftChamber.cxx:1034-1049 | the exchange sort leaves a permutation of the planes with decreasing hit counts |
| DriftChamber.Chamber.AddClone | src/THcDriftChamber.cxx:1054-1094 | one clone, in place of the original or at the end |
| DriftChamber.Chamber.ClonePoint | src/THcDriftChamber.cxx:1050-1097 | the three nested loops make all clones, in order |
| DriftChamber.Chamber.TreatPoint | src/THcDriftChamber.cxx:994-1105 | one space point cloned if the conditions hold, else left alone |
| DriftChamber.Chamber.SpacePointMultiWire | src/THcDriftChamber.cxx:970-1116 | every point there was is treated in turn, and the number returned is always 0 |
| MultiWire.FourthHasOne | src/THcDriftChamber.cxx:1031-1032 | the conditions for cloning leave exactly one hit on the fourth busiest plane |
| MultiWire.TriplesComplete | src/THcDriftChamber.cxx:1051-1053 | the loops go through every triple once |
| MultiWire.EveryChoiceCloned | src/THcDriftChamber.cxx:1050-1097 | every choice of one hit per hit plane is one of the clones |
| MultiWire.ClonesDiffer | src/THcDriftChamber.cxx:1050-1097 | no two clones are the same choice |
| MultiWire.EveryCloneIsChoice | src/THcDriftChamber.cxx:1050-1097 | every clone picks one hit of every plane hit |
| MultiWire.CloneCount | src/THcDriftChamber.cxx:1017-1025 | there are as many clones as the product of the hit counts |
| MultiWire.CloningGrows | src/THcDriftChamber.cxx:994-1105 | the list grows by the product less one and no other point changes |
| MultiWire.EveryChoiceOnce | src/THcDriftChamber.cxx:994-1105 | in the list every choice of one hit per plane has exactly one of the places of the clones |
| MultiWire.EveryCloneOnce | src/THcDriftChamber.cxx:994-1105 | and each of these places, as many as the product of the hit counts, holds exactly one choice of one hit of every plane hit |
| MultiWire.ClonableIff | src/THcDriftChamber.cxx:1017-1032 | the conditions by the hits alone: four planes hit or more, one to three of them more than once, and at most 19 points with all ways to take one hit per plane |
| MultiWire.GrowsByWays | src/THcDriftChamber.cxx:994-1105 | what the treatment of a point does to the number of points, by its hits alone |
| HitChoice.OneSurvivor | src/THcDriftChamber.cxx:1133-1150 | exactly one hit of each hit plane is beaten by none: the earliest with the shortest drift time |
| HitChoice.ChosenIsBestPerPlane | src/THcDriftChamber.cxx:1120-1165 | the hits left are on distinct planes, one for each plane that was hit, with the shortest time |
| HitChoice.KeepsAllOfOnePerPlane | src/THcDriftChamber.cxx:1120-1165 | hits that are one per plane already are all kept, in order |
| DriftChamber.Chamber.MarkBeaten | src/THcDriftChamber.cxx:1129-1150 | the pairwise comparison marks exactly the hits that some hit of their plane beats |
| DriftChamber.Chamber.ChooseHits | src/THcDriftChamber.cxx:1151-1162 | the survivors are moved to the front, in order |
| DriftChamber.Chamber.ChooseSingleHit | src/THcDriftChamber.cxx:1120-1165 | every space point is left with the chosen hits |
| SpacePoints.SelectedMembers | src/THcDriftChamber.cxx:1179-1202 | the points selected are exactly the acceptable ones |
| DriftChamber.Chamber.SelectSpacePoints | src/THcDriftChamber.cxx:1168-1202 | the acceptable points are moved to the front, in order |
| DriftChamber.Chamber.ChooseAndSelect | src/THcDriftChamber.cxx:621-622 | after both, every point has its hits on distinct planes and at least the required number of them, and every point with enough chosen hits and combinations is still there |
| PlanePatterns.MaskWith | src/THcDriftChamber.cxx:1391 | setting a bit adds a plane to the pattern |
| PlanePatterns.MaskWithout | src/THcDriftChamber.cxx:223 | clearing a bit removes one |
| PlanePatterns.MaskInjective | src/THcDriftChamber.cxx:223-228 | different sets of planes have different patterns |
| PlanePatterns.CountIsSize | src/THcDriftChamber.cxx:1344-1350 | the bit count of a pattern is the number of its planes |
| StubFit.NormalMatrix | src/THcDriftChamber.cxx:211-222 | the matrix is the normal matrix of all planes but the two |
| StubFit.BuildTable | src/THcDriftChamber.cxx:204-230 | every pattern with at most two planes missing has an entry, and every entry is the normal matrix of exactly its planes |
| StubFit.RowSumIsPlaneSum | src/THcDriftChamber.cxx:1590-1603 | summing over the hits of one-hit-per-plane points is summing over the pattern's planes |
| StubFit.InverseSolves | src/THcDriftChamber.cxx:1603 | multiplying with the inverse solves the normal equations |
| StubFit.PlanesCounted | src/THcDriftChamber.cxx:1386-1444 | there are as many planes hit as hits exactly when no plane has two |
| StubFit.StubIsBest | src/THcDriftChamber.cxx:1577-1620 | the stub made with the table's inverse has the smallest chi-squared of all stubs |
| StubFit.FindStub | src/THcDriftChamber.cxx:1577-1620 | the loops compute that stub and its chi-squared; on which side of a wire a sign puts the line is StubRecovery.LineRecovered |
| SignChoices.AssignIsConsistent | src/THcDriftChamber.cxx:1451-1465 | every word gives signs that agree with the known ones |
| SignChoices.EveryAssignmentVisited | src/THcDriftChamber.cxx:1451-1465 | every assignment that agrees with the known signs is visited |
| SignChoices.VisitedOnce | src/THcDriftChamber.cxx:1451-1465 | and only once |
| SignChoices.AssignSigns | src/THcDriftChamber.cxx:1452-1465 | the loop over the hits computes the assignment of a word |
| KnownSigns.PairAdjacent | src/THcDriftChamber.cxx:1417-1440 | facing hits of adjacent planes point at each other, nothing else is known, and the pairs counted are the signs known |
| KnownSigns.PairYPlanes | src/THcDriftChamber.cxx:1395-1415 | the same for the two Y planes |
| KnownSigns.FindKnown | src/THcDriftChamber.cxx:1398-1441 | the known signs, and as many words as there are ways to choose the others |
| KnownSigns.KnownIff | src/THcDriftChamber.cxx:1398-1441 | a sign is known exactly when the small angle is asked for and there is a hit on the other Y plane, or on the other plane of the pair and closer than 0.51 |
| KnownSigns.Closer | src/THcDriftChamber.cxx:1398-1441 | facing hits moved by their distances to the sides of their signs come closer to each other by both distances |
| LeftRight.NextRecorded | src/THcDriftChamber.cxx:1470-1507 | one assignment keeps: the best that passes the cut and the best that fails are recorded |
| LeftRight.SearchByChi2 | src/THcDriftChamber.cxx:1451-1541 | the first minimum among those passing, else the first overall, if below 1e10 |
| LeftRight.SearchIsExhaustive | src/THcDriftChamber.cxx:1451-1541 | that is the minimum over all sign assignments that agree with the known ones |
| LeftRight.SearchBySlope | src/THcDriftChamber.cxx:1509-1526 | the last of the flattest stubs with slope up to 0.25 |
| LeftRight.FlattestOfAll | src/THcDriftChamber.cxx:1509-1526 | that is the flattest over all sign assignments that agree with the known ones |
| LeftRight.MakePattern | src/THcDriftChamber.cxx:1386-1397 | the pattern has the bits of the planes hit |
| LeftRight.BitsAreHits | src/THcDriftChamber.cxx:1386-1444 | the bit count of the pattern is the number of hits exactly when no plane has two |
| LeftRight.RotateStub | src/THcDriftChamber.cxx:1553-1570 | the rotation of the stub, slopes first |
| StubRotation.FiniteIff | src/THcDriftChamber.cxx:1556-1565 | it is finite exactly when the line does not run along the spectrometer's x axis |
| StubRotation.SameLine | src/THcDriftChamber.cxx:1559-1569 | the rotated stub is the same line in x; in y, which is corrected with y instead of x, exactly when x and y are equal, the slope in y is 0, as FindStub gives it, or the chamber is not tilted |
| LeftRight.CutIsRotatedIff | src/THcDriftChamber.cxx:1480-1481 | the slope of the angle cut is the slope after the rotation exactly without tilt or for a stub without slope |
| LeftRight.FindSigns | src/THcDriftChamber.cxx:1361-1572 | signs and stub of one space point: exactly as the search says, written only when found, and the stub is the best one for its signs, rotated |
| StubRecovery.LineFits | src/THcDriftChamber.cxx:1577-1620 | a line whose coordinate is the wire's position plus the distance for sign +1 and minus it for -1, in the plane of every hit, has chi-squared 0 |
| StubRecovery.LineRecovered | src/THcDriftChamber.cxx:1577-1620 | and with an invertible matrix it is the stub that is fitted |
| StubRecovery.OneSolution | src/THcDriftChamber.cxx:1603 | the normal equations then have one solution |
| StubRecovery.SearchFindsLine | src/THcDriftChamber.cxx:1451-1541 | when a line runs past all hits on sides that agree with the known ones and its slope passes the cut, the search finds signs whose stub has chi-squared 0 |
| StubRecovery.FlatIff | src/THcDriftChamber.cxx:1516-1526 | the stubs that compete by slope are those with a slope of the cut from -0.25 to 0.25 |
| ChamberStubs.PatternOfHits | src/THcDriftChamber.cxx:1386-1444 | hits on distinct planes make a pattern with as many bits as hits |
| ChamberStubs.MatrixOfHits | src/THcDriftChamber.cxx:204-230 | with at most two planes missing the table has an entry for the pattern, the normal matrix of exactly the planes hit |
| ChamberStubs.LeftRightAll | src/THcDriftChamber.cxx:1361-1572 | every space point in turn gets its signs and its stub |
| ChamberStubs.FinishChamber | src/THcDC.cxx:628-631 | choosing one hit per plane and selecting points leaves what the search needs: distinct planes, so one bit per hit, for every point |
| Linking.TracksSound | src/THcDC.cxx:902-1036 | every track has its seed and at most one point of each other chamber, each meeting the four criteria against the seed |
| Linking.SeedDoubles | src/THcDC.cxx:918-1034 | with two chambers every partner after the first doubles the seed's tracks, and they are refused exactly when that is more than there is room for |
| Linking.TracksAreWanted | src/THcDC.cxx:902-1036 | with two chambers tracks are refused exactly when more than 100 are wanted; otherwise all are made |
| Linking.EveryPairLinked | src/THcDC.cxx:902-1036 | with two chambers and no overflow a pair of points is linked exactly when it agrees |
| Linking.WantedDiffer | src/THcDC.cxx:902-1036 | all tracks differ exactly when no seed has more than two partners |
| Linking.IdenticalTracks | src/THcDC.cxx:902-1036 | four stubs for which the program makes four tracks, two of them identical |
| Linking.ClonesSound | src/THcDC.cxx:1003-1021 | clones are sound and hold the point they were made for |
| TrackCombinations.SeedTracksCombine | src/THcDC.cxx:918-1034 | for up to ten chambers: every track of a seed combines it with one point of every other chamber that has a point to link, and, unless one is refused, every such combination is a track |
| TrackCombinations.TracksCombine | src/THcDC.cxx:902-1036 | every track of the whole list is complete in this sense, refusals or not |
| TrackCombinations.EveryCombinationIsTrack | src/THcDC.cxx:902-1036 | without refusal a point that is in no track of an earlier seed has every one of its combinations as a track |
| LinkStubs.DriftChambers.Collect | src/THcDC.cxx:885-896 | the list of space points, with its limits of 51 and 101 |
| LinkStubs.DriftChambers.IsUsed | src/THcDC.cxx:906-917 | whether a seed is in a track already |
| LinkStubs.DriftChambers.Scan | src/THcDC.cxx:984-995 | the track's point in the chamber, and whether it has the point itself |
| LinkStubs.DriftChambers.CopyTrack | src/THcDC.cxx:1009-1020 | a copy with one point replaced |
| LinkStubs.DriftChambers.VisitTrack | src/THcDC.cxx:982-1029 | one point against one track: left alone, extended, cloned or refused |
| LinkStubs.DriftChambers.VisitTracks | src/THcDC.cxx:980-1030 | the scan over the growing list ends, every track there was is visited once and no clone is cloned again |
| LinkStubs.DriftChambers.AddPartner | src/THcDC.cxx:956-1031 | one agreeing point against all tracks of the seed |
| LinkStubs.DriftChambers.LinkSeed | src/THcDC.cxx:918-1035 | all later points against one seed |
| LinkStubs.DriftChambers.LinkAll | src/THcDC.cxx:902-1036 | all seeds; the old style of chamber gives no tracks exactly when one is refused |
| LinkStubs.DriftChambers.TrackSingles | src/THcDC.cxx:1039-1053 | the tracks of single stubs |
| LinkStubs.DriftChambers.Link | src/THcDC.cxx:859-1054 | the tracks of an event: each differs from its seed in x, y, xp and yp by less than the criterion of that coordinate; for two chambers without refusal every such pair is a track; for up to ten the tracks are the combinations; single stubs are the set ones |
| LinkStubs.TwoChamberTracks | src/THcDC.cxx:859-1036 | for the points gathered from two chambers: overflow, linked pairs and identical tracks, each by its exact condition |
| LinkStubs.TracksNear | src/THcDC.cxx:902-1036 | so every point of a track is near its seed in all four coordinates |
| LinkStubs.NearAreLinked | src/THcDC.cxx:902-1036 | and for two chambers without refusal every near pair is a track |
| LinkStubs.TwoChambersListed | src/THcDC.cxx:885-896 | of two chambers the first 51 points at most of one are listed, then those of the other up to 101 in all |
| LinkStubs.ListLimited | src/THcDC.cxx:885-896 | with more chambers every one that has points is represented, so the list can be longer by one for each |
| LinkStubs.SinglesAre | src/THcDC.cxx:1039-1053 | the tracks of single stubs are exactly the set ones |
| DetectorMap.SortConserves | src/THcDetectorMap.cxx:121-126 | sorting every module by channel loses nothing |
| DetectorMap.SortedInOrder | src/THcDetectorMap.cxx:121-126 | after it the channels of a module are in order |
| DetectorMap.ScanMoves | src/THcDetectorMap.cxx:151-172 | one channel of the scan: it lengthens the block under way, or ends it for good and starts the next |
| DetectorMap.Map.AddEntry | src/THcDetectorMap.cxx:86-115 | one more entry in the lists, one list per module |
| DetectorMap.Map.GroupByModule | src/THcDetectorMap.cxx:82-116 | the lists hold exactly the detector's entries |
| DetectorMap.Map.CompressModule | src/THcDetectorMap.cxx:131-179 | the blocks of a module expand to its channels in order and none can be joined with the next |
| DetectorMap.Map.FillMap | src/THcDetectorMap.cxx:82-180 | the result is MapOf of the table and the detector: its blocks expand to exactly the multiset of the detector's entries, no block can be joined with the next, and the blocks of a module are together and ascending; -1 exactly when there are none |
| MapJoins.OnlyBlocks | src/THcDetectorMap.cxx:131-179 | for the channels of a module in their order there are no other blocks of which none can be joined with the next |
| MapJoins.JoinableIff | src/THcDetectorMap.cxx:151-172 | two blocks of a module can be joined exactly when a run of its channels ends where another run that carries it on starts |
| MapJoins.MapJoinableIff | src/THcDetectorMap.cxx:82-180 | two blocks of the map that FillMap makes can be joined exactly when that is so in one of the sorted lists of its modules |
| MapJoins.NothingJoins | src/THcDetectorMap.cxx:151-172 | when no channel of a module is entered twice for the detector, no two blocks at all can be joined |
| MapJoins.FirstAndThird | src/THcDetectorMap.cxx:82-180 | with channel 5 entered for counters 1 and 9 and channel 6 for counter 2 FillMap makes three blocks, the first and the third of which can be joined, so that two blocks would do |
| HitList.DecodingUndoesFilling | src/THcHitList.cxx:423-433 | the decoder's formula takes a channel to an element, with signal and reference, exactly when the table has that entry |
| HitList.CollectedOneEach | src/THcHitList.cxx:435-454 | one hit per element with data, holding all its data in order |
| HitList.ArrivalsInAre | src/THcHitList.cxx:411-435 | of a block exactly the readings with its channels arrive, in their order; the counter goes up from the first with the channel or, reversed, with the distance from the last channel, and all values are there |
| HitList.ArrivalsAre | src/THcHitList.cxx:411-435 | of all blocks the same, one block after the other; blocks of planes from 1000 on give nothing |
| HitList.ArrivesInOrder | src/THcHitList.cxx:435-454 | what arrives for an element comes right after all that arrived for it before |
| HitList.FlagAdded | src/THcHitList.cxx:448-453 | the sorted flag says exactly whether the list is increasing |
| HitList.SortIncreasing | src/THcHitList.cxx:683-684 | sorting leaves the list strictly increasing |
| HitList.Decoder.AddChannel | src/THcHitList.cxx:435-454 | lookup, append and flag for one channel |
| HitList.Decoder.AddModule | src/THcHitList.cxx:411-454 | all channels of a block |
| HitList.Decoder.DecodeToHitList | src/THcHitList.cxx:404-688 | the list ends strictly increasing by plane and counter, with exactly one complete hit for every element that had data |
| ChamberPlanes.SegmentIsPlane | src/THcDriftChamberPlane.cxx:367-401 | between the boundaries of a plane and the one before are exactly its hits |
| ChamberPlanes.PlaneHoldsAll | src/THcDriftChamberPlane.cxx:355-402 | a plane holds every time of every hit, in order, and of each wire with a time in the window the first such time, and nothing else |
| ChamberPlanes.Planes.ProcessHits | src/THcDriftChamberPlane.cxx:355-402 | a plane takes its segment of the list, with all times and the first one in the window per wire |
| ChamberPlanes.Planes.Decode | src/THcDC.cxx:572-579 | every plane gets exactly its own hits, each once; hits beyond the last plane are left over |
| ChamberPlanes.WireOfItsPosition | src/THcDriftChamberPlane.cxx:344-349 | the wire number calculated from a wire's position is the wire's, in both orders |
| ChamberPlanes.WireSpacing | src/THcDriftChamberPlane.cxx:266-267 | the wires are one pitch apart in the direction of their order, and the central wire is at the centre |
| Hodoscope.DeterminantPositiveIff | src/THcHodoscope.cxx:1611 | the determinant is positive exactly when two good hits have different positions |
| Hodoscope.SinglePositionIsCaught | src/THcHodoscope.cxx:1611-1615 | otherwise the guard on the denominator catches the event |
| Hodoscope.FittedLineIsBest | src/THcHodoscope.cxx:1586-1633 | no straight line through the times has a smaller chi-squared |
| Hodoscope.AccumulateSums | src/THcHodoscope.cxx:1586-1609 | the loop computes the five sums of the good hits |
| Hodoscope.LineChiSquared | src/THcHodoscope.cxx:1617-1633 | the loop computes the chi-squared of the line |
| Hodoscope.FitLine | src/THcHodoscope.cxx:1611-1645 | velocity and chi-squared before the path correction, or the guard's values |
| Hodoscope.FitBeta | src/THcHodoscope.cxx:1586-1645 | the chi-squared reported is the least of all lines and the velocity is that line's, unless the denominator is too small; for hits on a line the chi-squared is 0 and the result its inverse slope, over the path length and the speed of light |
| Hodoscope.LineRecovered | src/THcHodoscope.cxx:1586-1633 | hits exactly on a line, at two positions or more, give back that line, with chi-squared 0 |
| Hodoscope.TrueVelocityIff | src/THcHodoscope.cxx:1635-1639 | for a particle whose way is pathNorm times the distance along z the result is its velocity over pathNorm squared, so it is the velocity exactly for a track along z |
| LeastSquares.Optimal | src/THcHodoscope.cxx:1611-1633 | parameters that solve the normal equations have the smallest chi-squared, in any number of parameters |
| Pruning.KeptShrinks | src/THcHallCSpectrometer.cxx:815-1044 | the kept set shrinks, is never empty, and after a stage that some kept track passes holds only such |
| Pruning.PerfectTrackKept | src/THcHallCSpectrometer.cxx:815-1044 | a track that passes every test is kept to the end |
| Pruning.KeptMeet | src/THcHallCSpectrometer.cxx:815-1044 | with the twelve requirements written out: as long as some track meets all so far, the tracks kept are exactly those that do |
| Pruning.ChosenMeets | src/THcHallCSpectrometer.cxx:815-1056 | if a track that can be chosen meets all twelve, the one chosen does, with the least chi-squared per degree of freedom of those |
| Pruning.SelectIsFirst | src/THcHallCSpectrometer.cxx:813-1058 | for several tracks the selecting stage is the first that leaves a single one, or 13 when none does |
| Pruning.Spectrometer.CountGood | src/THcHallCSpectrometer.cxx:816-821 | how many kept tracks pass a stage |
| Pruning.Spectrometer.Reject | src/THcHallCSpectrometer.cxx:823-828 | those that fail are dropped |
| Pruning.Spectrometer.Prune | src/THcHallCSpectrometer.cxx:815-831 | one stage |
| Pruning.Spectrometer.PickBest | src/THcHallCSpectrometer.cxx:1046-1056 | the first kept track with the smallest ratio below 1e10, or track 0, kept or not |
| Pruning.ChosenIsKept | src/THcHallCSpectrometer.cxx:1046-1056 | the track chosen is one that was kept exactly when some kept track has a ratio below 1e10 or track 0 was kept |
| Pruning.Spectrometer.BestTrackUsingPrune | src/THcHallCSpectrometer.cxx:785-1068 | the chosen track is the best of those kept after all stages, or track 0 when none of them has a ratio below 1e10; it meets all twelve requirements if some track that can be chosen does; and it alone has index 0 |

## Left out

- ROOT and Podd calls, database reading, histograms, trees, debug printing.
- THcHelicity: the period check and recommended frequency, and the disabled comparison with scaler seeds; reading the event's words. The delay is taken to be a multiple of 4 as `fHelDelay/4` in the code has it, and a scaler seed is an optional part of the event that the end-to-end theorem does not use.
- PhaseSearch: an unbroken stretch of cycles is asked for until thirty bits are there; runs that skip cycles before that are covered by HelicityPattern.HuntsAlways and LastsIffFirstCycle. A scaler handler with a seed of its own is not used in the theorems about sources.
- THcHelicityScaler: bank decoding, BCM currents and charges (the threshold test is part of a read, and charges and times are further channels), the scaler tree; End returns the square of each error, since square roots are not modelled.
- ScalerHelicity: cycle offsets are taken to be -3 to 3; the nine-cycle delay is the one that is compiled in.
- THcDriftChamber: FindEasySpacePoint, DestroyPoorSpacePoints (which loses the combination counts of the points it moves), CorrectHitTimes. Of a chamber at most eight planes are modelled; the words are 32 bits.
- DriftChamber.Chamber.SpacePointMultiWire: does not model the limit of 20 hits of one plane in its local array.
- StubFit.StubIsBest: takes the inverse matrix as given; inverting is the library's, and the code does not check that it can be done.
- LeftRight.FindSigns: does not model writing the sign to the shared hit object as well, nor the stub that is set, unrotated, when the chosen chi-squared is exactly 1e10 and the signs are then not used.
- The left/right choice over a whole track (NewTrackFit), the track fits and residuals, and NewLinkStubs.
- LinkStubs: tracks are values, so sharing of track objects and their copied hits and identification numbers are not modelled; the stubmin values that only printing uses are left out.
- DetectorMap.Map.FillMap: requires module and channel numbers of 16 bits and nonnegative planes, because the map keeps them so; looking up the detector's number by name is left out.
- HitList.Decoder.DecodeToHitList: does not model reference times and waveforms; a channel's data are values with its signal.
- ChamberPlanes.Planes.Decode: drift times and the later cut on them are left out.
- Hodoscope: corrected times, the choice of usable hits, focal-plane time and path length.
- Pruning: the rejection codes, which nothing reads, and computing the quantities that are compared; BestTrackUsingScin.
- All other detectors, event types and physics modules.
