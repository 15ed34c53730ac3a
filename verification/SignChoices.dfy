/** Left/right signs of the hits of a space point, and the words that enumerate them. */
module SignChoices {
  import opened Basics

  /** How many signs are still unknown (0). */
  function Free(known: seq<int>): nat {
    if known == [] then 0 else Free(known[1..]) + if known[0] == 0 then 1 else 0
  }

  /** Known signs stay; the others are taken from the bits of pm, lowest first. */
  function Assign(known: seq<int>, pm: nat): (signs: seq<int>)
    ensures |signs| == |known|
  {
    if known == [] then []
    else if known[0] != 0 then [known[0]] + Assign(known[1..], pm)
    else [if pm % 2 == 1 then 1 else -1] + Assign(known[1..], pm / 2)
  }

  predicate Consistent(known: seq<int>, signs: seq<int>) {
    && |signs| == |known|
    && forall i :: 0 <= i < |known| ==>
         (signs[i] == 1 || signs[i] == -1) && (known[i] == 0 || signs[i] == known[i])
  }

  predicate Known(known: seq<int>) {
    forall i :: 0 <= i < |known| ==> known[i] == 0 || known[i] == 1 || known[i] == -1
  }

  /** The word that enumerates the assignment. */
  function WordOf(known: seq<int>, signs: seq<int>): nat
    requires |signs| == |known|
  {
    if known == [] then 0
    else if known[0] != 0 then WordOf(known[1..], signs[1..])
    else 2 * WordOf(known[1..], signs[1..]) + if signs[0] == 1 then 1 else 0
  }

  lemma {:induction false} AssignIsConsistent(known: seq<int>, pm: nat)
    requires Known(known)
    ensures Consistent(known, Assign(known, pm))
  {
    if known != [] {
      AssignIsConsistent(known[1..], if known[0] != 0 then pm else pm / 2);
    }
  }

  /** Every consistent assignment is visited ... */
  lemma {:induction false} EveryAssignmentVisited(known: seq<int>, signs: seq<int>)
    requires Consistent(known, signs)
    ensures WordOf(known, signs) < Pow2(Free(known)) && Assign(known, WordOf(known, signs)) == signs
  {
    if known != [] {
      EveryAssignmentVisited(known[1..], signs[1..]);
      assert signs == [signs[0]] + signs[1..];
    }
  }

  /** ... and only once. */
  lemma {:induction false} VisitedOnce(known: seq<int>, pm: nat)
    requires Known(known) && pm < Pow2(Free(known))
    ensures WordOf(known, Assign(known, pm)) == pm
  {
    if known != [] {
      var signs := Assign(known, pm);
      if known[0] != 0 {
        assert signs[1..] == Assign(known[1..], pm);
        VisitedOnce(known[1..], pm);
      } else {
        assert signs[1..] == Assign(known[1..], pm / 2);
        VisitedOnce(known[1..], pm / 2);
      }
    }
  }

  /** Making one sign known halves the choices. */
  lemma {:induction false} OneMoreKnown(known: seq<int>, i: nat, sign: int)
    requires i < |known| && known[i] == 0 && sign != 0
    ensures Free(known) == Free(known[i := sign]) + 1
  {
    if i > 0 {
      OneMoreKnown(known[1..], i - 1, sign);
      assert known[i := sign][1..] == known[1..][i - 1 := sign];
    } else {
      assert known[i := sign][1..] == known[1..];
    }
  }

  lemma {:induction false} NothingKnown(known: seq<int>)
    requires forall i :: 0 <= i < |known| ==> known[i] == 0
    ensures Free(known) == |known|
  {
    if known != [] {
      NothingKnown(known[1..]);
    }
  }

  /** The word shifted right by k places. */
  function Shifted(pm: nat, k: nat): nat {
    if k == 0 then pm else Shifted(pm, k - 1) / 2
  }

  /** Bit k of the word, that is, pm & (1 << k) is not 0. */
  predicate BitSet(pm: nat, k: nat) {
    Shifted(pm, k) % 2 == 1
  }

  lemma AssignNext(known: seq<int>, i: nat, q: nat)
    requires i < |known|
    ensures Assign(known[i..], q)
            == [if known[i] != 0 then known[i] else if q % 2 == 1 then 1 else -1]
               + Assign(known[i + 1..], if known[i] != 0 then q else q / 2)
    ensures Assign(known[i..], q)[1..] == Assign(known[i + 1..], if known[i] != 0 then q else q / 2)
  {
    assert known[i..][1..] == known[i + 1..];
  }

  /** The loop over the hits; the mask of the program is 1 << iswhit. */
  method AssignSigns(known: seq<int>, pmloop: nat) returns (signs: seq<int>)
    ensures signs == Assign(known, pmloop)
  {
    var iswhit: nat := 0;
    signs := [];
    assert known[0..] == known;
    ghost var rest := Assign(known, pmloop);
    hide Assign, BitSet, Shifted;
    Shiftless(pmloop);
    for ihit := 0 to |known|
      invariant |rest| == |known| - ihit && rest == Assign(known[ihit..], Shifted(pmloop, iswhit))
      invariant signs + rest == Assign(known, pmloop)
    {
      AssignNext(known, ihit, Shifted(pmloop, iswhit));
      BitOf(pmloop, iswhit);
      MoveOne(signs, rest);
      if known[ihit] != 0 {
        signs := signs + [known[ihit]];
      } else {
        if BitSet(pmloop, iswhit) {
          signs := signs + [1];
        } else {
          signs := signs + [-1];
        }
        iswhit := iswhit + 1;
      }
      rest := rest[1..];
    }
    assert rest == [];
  }

  lemma MoveOne(signs: seq<int>, rest: seq<int>)
    requires rest != []
    ensures signs + rest == (signs + [rest[0]]) + rest[1..]
  {
  }

  lemma BitOf(pm: nat, k: nat)
    ensures BitSet(pm, k) <==> Shifted(pm, k) % 2 == 1
    ensures Shifted(pm, k + 1) == Shifted(pm, k) / 2
  {
  }

  lemma Shiftless(pm: nat)
    ensures Shifted(pm, 0) == pm
  {
  }
}
