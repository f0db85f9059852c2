// The xorshift32 generator behind the sequencer's Random mode.
module Generator {

  const FALLBACK_SEED: bv32 := 0x6D2B79F5

  function ShiftedLeft(x: bv32, bits: nat): bv32
    requires bits <= 32
  {
    x ^ (x << bits)
  }

  function ShiftedRight(x: bv32, bits: nat): bv32
    requires bits <= 32
  {
    x ^ (x >> bits)
  }

  function XorShift32(state: bv32): bv32 {
    var seeded := if state == 0 then FALLBACK_SEED else state;
    ShiftedLeft(ShiftedRight(ShiftedLeft(seeded, 13), 17), 5)
  }

  lemma {:induction false} ShiftedLeftKeepsNonzero(x: bv32)
    ensures x != 0 ==> ShiftedLeft(x, 13) != 0 && ShiftedLeft(x, 5) != 0
  {}

  lemma {:induction false} ShiftedRightKeepsNonzero(x: bv32)
    ensures x != 0 ==> ShiftedRight(x, 17) != 0
  {}

  /** The generator never reaches zero, so no reseeding branch is taken after a reset. */
  lemma {:induction false} GeneratorIsNeverZero(state: bv32)
    ensures XorShift32(state) != 0
  {
    var seeded := if state == 0 then FALLBACK_SEED else state;
    ShiftedLeftKeepsNonzero(seeded);
    ShiftedRightKeepsNonzero(ShiftedLeft(seeded, 13));
    ShiftedLeftKeepsNonzero(ShiftedRight(ShiftedLeft(seeded, 13), 17));
  }

  /** Known outputs of the generator, the second the first of its author's example; a zero
      state counts as the fallback seed. */
  lemma {:induction false} KnownOutputs()
    ensures XorShift32(1) == 270369
    ensures XorShift32(2463534242) == 723471715
    ensures XorShift32(0) == XorShift32(FALLBACK_SEED)
  {}
}
