/** What a missing quartet bit does to the helicity scalers. */
module MissingBits {
  import opened Lfsr
  import opened ScalerHelicity
  import opened HelicityScaler

  /** The trigger is where the quartet bit is looked for: offset 0 at the start of a quartet, 3 at its end. */
  predicate BitLookedFor(l: Lock, offset: int) {
    || (offset == 0 && (l.nTriggers + 1 - l.firstCycle) % 4 == 0)
    || (offset == 3 && (l.nTriggers + 1 - l.firstCycle) % 4 == 3)
  }

  /** The first cycle was counted from a trigger that has been. */
  predicate FoundBefore(l: Lock, offset: int) {
    l.firstCycle != NO_CYCLE ==> l.firstCycle + offset <= l.nTriggers
  }

  lemma StepFoundBefore(l: Lock, r: Read, offset: int)
    requires Sane(l) && OffsetSound(offset) && FoundBefore(l, offset)
    ensures FoundBefore(Step(l, r, offset).lock, offset)
  {
    hide RanBit30, PushBit;
  }

  lemma {:induction false} RunFoundBefore(series: seq<Read>, offset: int, n: nat)
    requires OffsetSound(offset) && n <= |series|
    ensures FoundBefore(Run(series, offset, n), offset)
  {
    hide Step;
    if n > 0 {
      RunFoundBefore(series, offset, n - 1);
      RunSane(series, offset, n - 1);
      StepFoundBefore(Run(series, offset, n - 1), series[n - 1], offset);
    }
  }

  lemma StepLosesIff(l: Lock, r: Read, offset: int)
    requires Sane(l) && OffsetSound(offset) && l.firstCycle != NO_CYCLE && FoundBefore(l, offset)
    ensures var o := Step(l, r, offset);
            && (o.lock.firstCycle == NO_CYCLE <==> BitLookedFor(l, offset) && !r.isQuartet)
            && (o.lock.firstCycle == NO_CYCLE ==> o.helicity == 0 && o.lock.nBits == 0 && o.lock.reported == ZERO)
            && (o.lock.firstCycle != NO_CYCLE ==>
                  && o.lock.firstCycle == l.firstCycle
                  && o.lock.nBits == l.nBits + if (l.nTriggers + 1 - l.firstCycle) % 4 == 0 then 1 else 0)
  {
    hide RanBit30, PushBit;
  }

  /**
   In any run, quartets that were found are lost exactly when the bit is looked for and is not there; then
   nothing is known any more.  With every other offset, the default -3 included, they are never lost, and
   every fourth trigger brings a bit.
   */
  lemma LostIff(series: seq<Read>, offset: int, n: nat)
    requires OffsetSound(offset) && n < |series| && Run(series, offset, n).firstCycle != NO_CYCLE
    ensures var l, o := Run(series, offset, n), OutcomeAt(series, offset, n + 1);
            && (o.lock.firstCycle == NO_CYCLE <==> BitLookedFor(l, offset) && !series[n].isQuartet)
            && (o.lock.firstCycle == NO_CYCLE ==> o.helicity == 0 && o.lock.nBits == 0 && o.lock.reported == ZERO)
            && (o.lock.firstCycle != NO_CYCLE ==>
                  && o.lock.firstCycle == l.firstCycle
                  && o.lock.nBits == l.nBits + if (n + 1 - l.firstCycle) % 4 == 0 then 1 else 0)
  {
    hide Step, Run, Sane, FoundBefore, BitLookedFor;
    RunSane(series, offset, n);
    RunFoundBefore(series, offset, n);
    StepLosesIff(Run(series, offset, n), series[n], offset);
  }

  /** While no quartets are found, the first quartet bit finds them: the next start counts from there. */
  lemma FoundIff(l: Lock, r: Read, offset: int)
    requires Sane(l) && OffsetSound(offset) && l.firstCycle == NO_CYCLE
    ensures var o := Step(l, r, offset);
            && (o.lock.firstCycle != NO_CYCLE <==> r.isQuartet)
            && (r.isQuartet ==> o.lock.firstCycle == l.nTriggers + 1 - offset && o.lock.nBits == 1)
            && o.helicity == 0
  {
    hide RanBit30, PushBit;
  }

  /** Bits come four triggers apart: this many at most, so many triggers after there were none. */
  predicate FewBits(l: Lock, since: int) {
    l.nBits > 0 ==> 4 * l.nBits + (l.nTriggers - l.firstCycle) % 4 <= 7 + (l.nTriggers - since - 1)
  }

  lemma FewBitsStep(l: Lock, r: Read, offset: int, since: int)
    requires Sane(l) && OffsetSound(offset) && since <= l.nTriggers && FewBits(l, since)
    ensures FewBits(Step(l, r, offset).lock, since)
  {
    hide RanBit30, PushBit;
  }

  lemma {:induction false} FewBitsAfter(series: seq<Read>, offset: int, lost: nat, n: nat)
    requires OffsetSound(offset) && lost <= n <= |series| && Run(series, offset, lost).nBits == 0
    ensures FewBits(Run(series, offset, n), lost)
  {
    hide Step;
    if n > lost {
      FewBitsAfter(series, offset, lost, n - 1);
      RunSane(series, offset, n - 1);
      FewBitsStep(Run(series, offset, n - 1), series[n - 1], offset, lost);
    }
  }

  /** Once the quartets are lost, no helicity is known in the next 113 triggers, whatever is read. */
  lemma UnknownAfterLoss(series: seq<Read>, offset: int, lost: nat, t: nat)
    requires OffsetSound(offset) && lost < t <= |series| && t <= lost + 113 && Run(series, offset, lost).nBits == 0
    ensures OutcomeAt(series, offset, t).helicity == 0
  {
    hide Step, FewBits;
    RunSane(series, offset, t - 1);
    StepSane(Run(series, offset, t - 1), series[t - 1], offset);
    FewBitsAfter(series, offset, lost, t);
    TooFew(Run(series, offset, t), lost);
    RunSane(series, offset, t);
  }

  lemma TooFew(l: Lock, since: int)
    requires FewBits(l, since) && l.nTriggers <= since + 113
    ensures l.nBits < 30
  {
  }
}
