/**
 The 30-bit linear-feedback shift register that drives the beam helicity.

 A register is its 30 bits, the least significant first; `bits[k]` is what the program calls bit
 k+1.  Each quartet of helicity cycles advances the register once, and its lowest bit is the
 helicity.  The program keeps registers in `Int_t` words and works on them with masks and shifts;
 module LfsrWords shows that those expressions are the functions below.
 */
module Lfsr {
  const WIDTH := 30

  type Register = bits: seq<bool> | |bits| == WIDTH witness ZERO

  const ZERO: seq<bool> := TEN_ZEROS + TEN_ZEROS + TEN_ZEROS

  const TEN_ZEROS := [false, false, false, false, false, false, false, false, false, false]

  /** Exclusive or of the taps at bits 30, 29, 28 and 7. */
  predicate Taps(r: Register) {
    ((r[29] != r[28]) != r[27]) != r[6]
  }

  /** Shift one bit in at the bottom; the top bit falls off. */
  function PushBit(r: Register, bit: bool): Register {
    [bit] + r[..29]
  }

  function RanBit30(r: Register): Register {
    PushBit(r, Taps(r))
  }

  /** One turn of the loop that tracks a seed backwards. */
  function BackStep(r: Register): Register {
    r[1..] + [((r[29] != r[28]) != r[7]) != r[0]]
  }

  predicate LowBit(r: Register) {
    r[0]
  }

  // ---- forwards and backwards -------------------------------------------------------------------

  lemma StepThenBack(r: Register)
    ensures BackStep(RanBit30(r)) == r
  {
    assert RanBit30(r)[1..] == r[..29];
  }

  lemma BackThenStep(r: Register)
    ensures RanBit30(BackStep(r)) == r
  {
    assert BackStep(r)[..29] == r[1..];
  }

  function Advance(r: Register, steps: nat): Register {
    if steps == 0 then r else RanBit30(Advance(r, steps - 1))
  }

  function Backtrack(r: Register, steps: nat): Register {
    if steps == 0 then r else BackStep(Backtrack(r, steps - 1))
  }

  lemma {:induction false} AdvanceAdds(r: Register, a: nat, b: nat)
    ensures Advance(Advance(r, a), b) == Advance(r, a + b)
  {
    if b > 0 {
      AdvanceAdds(r, a, b - 1);
    }
  }

  lemma {:induction false} BacktrackFirst(r: Register, steps: nat)
    ensures Backtrack(BackStep(r), steps) == Backtrack(r, steps + 1)
  {
    if steps > 0 {
      BacktrackFirst(r, steps - 1);
    }
  }

  /** Stepping back undoes stepping forward ... */
  lemma {:induction false} BacktrackUndoesAdvance(r: Register, steps: nat)
    ensures Backtrack(Advance(r, steps), steps) == r
  {
    if steps > 0 {
      StepThenBack(Advance(r, steps - 1));
      BacktrackFirst(Advance(r, steps), steps - 1);
      BacktrackUndoesAdvance(r, steps - 1);
    }
  }

  /** ... and the reverse, so that every number of steps permutes the registers. */
  lemma {:induction false} AdvanceUndoesBacktrack(r: Register, steps: nat)
    ensures Advance(Backtrack(r, steps), steps) == r
  {
    if steps > 0 {
      AdvanceUndoesBacktrack(r, steps - 1);
      var prev := Backtrack(r, steps - 1);
      BackThenStep(prev);
      AdvanceAdds(BackStep(prev), 1, steps - 1);
      assert Advance(BackStep(prev), 1) == RanBit30(Advance(BackStep(prev), 0));
    }
  }

  lemma ZeroStays()
    ensures RanBit30(ZERO) == ZERO
  {
    assert forall k :: 0 <= k < 10 ==> TEN_ZEROS[k] == false;
    assert forall k :: 0 <= k < WIDTH ==> ZERO[k] == TEN_ZEROS[k % 10];
    assert forall k :: 0 <= k < WIDTH ==> RanBit30(ZERO)[k] == ZERO[k];
  }

  lemma OnlyZeroGivesZero(r: Register)
    ensures RanBit30(r) == ZERO <==> r == ZERO
  {
    ZeroStays();
    StepThenBack(r);
    StepThenBack(ZERO);
    hide RanBit30, BackStep;
  }

  /** The only register that ever reaches zero is zero itself. */
  lemma {:induction false} NonzeroForever(r: Register, steps: nat)
    ensures Advance(r, steps) == ZERO <==> r == ZERO
  {
    hide RanBit30;
    if steps > 0 {
      NonzeroForever(r, steps - 1);
      OnlyZeroGivesZero(Advance(r, steps - 1));
    }
  }

  /** `GetSeed30` as the program runs it: thirty back-steps in a loop. */
  method GetSeed30(currentSeed: Register) returns (seed: Register)
    ensures seed == Backtrack(currentSeed, 30)
    ensures Advance(seed, 30) == currentSeed
  {
    seed := currentSeed;
    for i := 0 to 30
      invariant seed == Backtrack(currentSeed, i)
    {
      seed := BackStep(seed);
    }
    AdvanceUndoesBacktrack(currentSeed, 30);
  }

  // ---- building a seed from observed bits -------------------------------------------------------

  /** The seed built so far has the generator's last n bits. */
  predicate HoldsBits(seed: Register, full: Register, n: nat)
    requires n <= WIDTH
  {
    seed[..n] == full[..n]
  }

  lemma NoBits(seed: Register, full: Register)
    ensures HoldsBits(seed, full, 0)
  {
  }

  /** Shifting in the bit that the generator shows next extends the agreement by one bit. */
  lemma NextBit(seed: Register, full: Register, n: nat)
    requires n < WIDTH && HoldsBits(seed, full, n)
    ensures HoldsBits(PushBit(seed, LowBit(RanBit30(full))), RanBit30(full), n + 1)
  {
    assert PushBit(seed, Taps(full))[..n + 1] == [Taps(full)] + seed[..n];
    assert RanBit30(full)[..n + 1] == [Taps(full)] + full[..n];
  }

  lemma AllBits(seed: Register, full: Register)
    requires HoldsBits(seed, full, WIDTH)
    ensures seed == full
  {
    assert seed[..WIDTH] == seed && full[..WIDTH] == full;
  }

  /** The seed after the bits shown by the `count` quartets that follow register `from`. */
  function SeedFromBits(start: Register, from: Register, count: nat): Register {
    if count == 0 then start
    else PushBit(SeedFromBits(start, from, count - 1), LowBit(Advance(from, count)))
  }

  lemma FewerBits(seed: Register, full: Register, n: nat, fewer: nat)
    requires fewer <= n <= WIDTH && HoldsBits(seed, full, n)
    ensures HoldsBits(seed, full, fewer)
  {
    assert seed[..fewer] == seed[..n][..fewer] && full[..fewer] == full[..n][..fewer];
  }

  /** Each bit that is shifted in is one more that is right, up to all thirty. */
  lemma {:induction false} BitsGained(start: Register, from: Register, held: nat, count: nat)
    requires held <= WIDTH && HoldsBits(start, from, held)
    ensures HoldsBits(SeedFromBits(start, from, count), Advance(from, count), Least(held + count, WIDTH))
  {
    hide HoldsBits, PushBit, RanBit30;
    if count > 0 {
      BitsGained(start, from, held, count - 1);
      var seed, full := SeedFromBits(start, from, count - 1), Advance(from, count - 1);
      var right := Least(held + count - 1, WIDTH);
      FewerBits(seed, full, right, Least(right, WIDTH - 1));
      NextBit(seed, full, Least(right, WIDTH - 1));
    }
  }

  function Least(a: nat, b: nat): nat {
    if a < b then a else b
  }

  /** Whatever the seed held before, thirty consecutive bits leave exactly the generator's register. */
  lemma SeedAcquired(start: Register, from: Register, count: nat)
    ensures count <= WIDTH ==> HoldsBits(SeedFromBits(start, from, count), Advance(from, count), count)
    ensures count >= WIDTH ==> SeedFromBits(start, from, count) == Advance(from, count)
  {
    NoBits(start, from);
    BitsGained(start, from, 0, count);
    if count >= WIDTH {
      AllBits(SeedFromBits(start, from, count), Advance(from, count));
    }
  }

  // ---- the bits alone -----------------------------------------------------------------------------

  /** The bit that the generator shows after so many steps. */
  predicate BitAfter(r: Register, n: nat) {
    LowBit(Advance(r, n))
  }

  lemma {:induction false} EarlierBits(r: Register, n: nat, k: nat)
    requires k <= n && k < WIDTH
    ensures Advance(r, n)[k] == BitAfter(r, n - k)
  {
    hide Taps;
    if k > 0 {
      EarlierBits(r, n - 1, k - 1);
    }
  }

  /**
   The bit shown next is the exclusive or of those shown 7, 28, 29 and 30 steps before: the shift
   register of the polynomial with these four terms.
   */
  lemma Recurrence(r: Register, n: nat)
    requires n >= 30
    ensures BitAfter(r, n)
            == (((BitAfter(r, n - 7) != BitAfter(r, n - 28)) != BitAfter(r, n - 29)) != BitAfter(r, n - 30))
  {
    hide Advance, RanBit30, BitAfter;
    EarlierBits(r, n - 1, 6);
    EarlierBits(r, n - 1, 27);
    EarlierBits(r, n - 1, 28);
    EarlierBits(r, n - 1, 29);
    NextShown(r, n);
  }

  lemma NextShown(r: Register, n: nat)
    requires n > 0
    ensures BitAfter(r, n) == Taps(Advance(r, n - 1))
  {
    hide Taps;
  }

  // ---- what two steps forget ----------------------------------------------------------------------

  /** The bits that the second and the third step show do not depend on the top bit. */
  lemma TopBitUnused(r: Register, full: Register)
    requires HoldsBits(r, full, 29)
    ensures LowBit(RanBit30(RanBit30(r))) == LowBit(RanBit30(RanBit30(full)))
    ensures LowBit(RanBit30(RanBit30(RanBit30(r)))) == LowBit(RanBit30(RanBit30(RanBit30(full))))
  {
    assert forall k :: 0 <= k < 29 ==> r[k] == r[..29][k] && full[k] == full[..29][k];
    LaterBits(r);
    LaterBits(full);
    hide RanBit30;
  }

  lemma LaterBits(r: Register)
    ensures LowBit(RanBit30(RanBit30(r))) == (((r[28] != r[27]) != r[26]) != r[5])
    ensures LowBit(RanBit30(RanBit30(RanBit30(r)))) == (((r[27] != r[26]) != r[25]) != r[4])
  {
  }

  /** All bits inverted. */
  function Complement(r: Register): Register {
    seq(WIDTH, k requires 0 <= k < WIDTH => !r[k])
  }

  lemma ComplementTwice(r: Register)
    ensures Complement(Complement(r)) == r
  {
    assert forall k :: 0 <= k < WIDTH ==> Complement(Complement(r))[k] == r[k];
  }

  lemma ComplementPush(r: Register, bit: bool)
    ensures Complement(PushBit(r, bit)) == PushBit(Complement(r), !bit)
  {
  }

  /** The number of taps is even: the second and the third step show the same bits for the complement. */
  lemma ComplementForgotten(r: Register)
    ensures LowBit(RanBit30(RanBit30(Complement(r)))) == LowBit(RanBit30(RanBit30(r)))
    ensures LowBit(RanBit30(RanBit30(RanBit30(Complement(r))))) == LowBit(RanBit30(RanBit30(RanBit30(r))))
  {
    LaterBits(r);
    LaterBits(Complement(r));
    hide RanBit30;
  }
}

/** The register operations as the program writes them, on integer words. */
module LfsrWords {
  import opened Basics
  import opened Lfsr

  function Bit(b: bool): int {
    if b then 1 else 0
  }

  /** `(word & (1 << k)) != 0`. */
  predicate BitAt(word: int, k: nat)
    decreases k
  {
    if k == 0 then word % 2 == 1 else BitAt(word / 2, k - 1)
  }

  predicate TapsWord(seed: int) {
    ((BitAt(seed, 29) != BitAt(seed, 28)) != BitAt(seed, 27)) != BitAt(seed, 6)
  }

  /** `((seed << 1) | bit) & 0x3FFFFFFF`. */
  function PushBitWord(seed: int, bit: bool): int {
    (2 * seed + Bit(bit)) % 0x40000000
  }

  /** The event decoder's step: a seed that is not positive feeds back 0. */
  function RanBit30Word(seed: int): int {
    PushBitWord(seed, seed > 0 && TapsWord(seed))
  }

  /** The scaler's copy of the step, which does not test the sign. */
  function ScalerRanBit30Word(seed: int): int {
    PushBitWord(seed, TapsWord(seed))
  }

  /** `(seed >> 1) | (newbit30 << 29)`. */
  function BackStepWord(seed: int): int {
    seed / 2 + 0x20000000 * Bit(((BitAt(seed, 29) != BitAt(seed, 28)) != BitAt(seed, 7)) != BitAt(seed, 0))
  }

  function WordOf(bits: seq<bool>): (w: nat) {
    if bits == [] then 0 else Bit(bits[0]) + 2 * WordOf(bits[1..])
  }

  lemma {:induction false} WordAppend(bits: seq<bool>, top: bool)
    ensures WordOf(bits + [top]) == WordOf(bits) + Pow2(|bits|) * Bit(top)
  {
    if bits == [] {
      assert bits + [top] == [top];
    } else {
      assert (bits + [top])[1..] == bits[1..] + [top];
      WordAppend(bits[1..], top);
    }
  }

  lemma {:induction false} WordBound(bits: seq<bool>)
    ensures WordOf(bits) < Pow2(|bits|)
  {
    if bits != [] {
      WordBound(bits[1..]);
    }
  }

  lemma {:induction false} BitOfWord(bits: seq<bool>, k: nat)
    requires k < |bits|
    ensures BitAt(WordOf(bits), k) == bits[k]
  {
    if k > 0 {
      assert WordOf(bits) / 2 == WordOf(bits[1..]);
      BitOfWord(bits[1..], k - 1);
    }
  }

  lemma {:induction false} ZeroHasNoBits(k: nat)
    ensures !BitAt(0, k)
  {
    if k > 0 {
      ZeroHasNoBits(k - 1);
    }
  }

  lemma Weights()
    ensures Pow2(29) == 0x20000000
  {
    assert Pow2(9) == 512;
    assert Pow2(12) == 8 * Pow2(9) && Pow2(15) == 8 * Pow2(12) && Pow2(18) == 8 * Pow2(15);
    assert Pow2(21) == 8 * Pow2(18) && Pow2(24) == 8 * Pow2(21) && Pow2(27) == 8 * Pow2(24);
  }

  lemma BitsOfRegister(r: Register)
    ensures BitAt(WordOf(r), 29) == r[29] && BitAt(WordOf(r), 28) == r[28] && BitAt(WordOf(r), 27) == r[27]
    ensures BitAt(WordOf(r), 7) == r[7] && BitAt(WordOf(r), 6) == r[6] && BitAt(WordOf(r), 0) == r[0]
  {
    forall k: nat | k < WIDTH ensures BitAt(WordOf(r), k) == r[k] {
      BitOfWord(r, k);
    }
  }

  lemma PushOfWord(r: Register, bit: bool)
    ensures PushBitWord(WordOf(r), bit) == WordOf(PushBit(r, bit))
  {
    Weights();
    assert r[..29] + [r[29]] == r;
    WordAppend(r[..29], r[29]);
    assert PushBit(r, bit)[1..] == r[..29];
    WordBound(r[..29]);
  }

  /** Both copies of RanBit30, and the back-step, do to the words what the model does to the bits. */
  lemma StepOfWord(r: Register)
    ensures RanBit30Word(WordOf(r)) == WordOf(RanBit30(r))
    ensures ScalerRanBit30Word(WordOf(r)) == WordOf(RanBit30(r))
  {
    BitsOfRegister(r);
    PushOfWord(r, Taps(r));
    CopiesAgreeIff(WordOf(r));
  }

  lemma BackStepOfWord(r: Register)
    ensures BackStepWord(WordOf(r)) == WordOf(BackStep(r))
  {
    BitsOfRegister(r);
    Weights();
    WordAppend(r[1..], ((r[29] != r[28]) != r[7]) != r[0]);
  }

  /** Off the registers the copies differ: exactly on negative words whose taps are odd. */
  lemma CopiesAgreeIff(seed: int)
    ensures RanBit30Word(seed) == ScalerRanBit30Word(seed) <==> seed >= 0 || !TapsWord(seed)
  {
    ZeroHasNoBits(29);
    ZeroHasNoBits(28);
    ZeroHasNoBits(27);
    ZeroHasNoBits(6);
  }
}
