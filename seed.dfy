/**
 * The per-frame seed: Thomas Wang's 32-bit integer hash of the frame counter.
 * The source computes it on `unsigned int`, whose `+`, `<<` and `*` wrap modulo
 * 2^32; Dafny's `bv32` has exactly that arithmetic.
 */
module Seed {

  // The five reassignments of the hash, one function each. Each step is
  // invertible on 32-bit values: its contract names the step that undoes it.
  // An xor with a right shift of itself is undone by xoring in every further
  // shifted copy; a multiplication by an odd constant is undone by the
  // constant's inverse modulo 2^32 (0x38e38e39 for 9, 0xfb699ca5 for 0x27d4eb2d).
  function MixFold(a: bv32): (r: bv32)
    ensures UnmixFold(r) == a
  {
    FoldExpanded(a);
    (a ^ 61) ^ (a >> 16)
  }
  function MixShiftAdd(a: bv32): (r: bv32)
    ensures UnmixShiftAdd(r) == a
  {
    ShiftAddExpanded(a);
    a + (a << 3)
  }
  function MixXorShift4(a: bv32): (r: bv32)
    ensures UnmixXorShift4(r) == a
  {
    XorShift4Expanded(a);
    a ^ (a >> 4)
  }
  function MixMultiply(a: bv32): (r: bv32)
    ensures UnmixMultiply(r) == a
  {
    MultiplyExpanded(a);
    a * 0x27d4eb2d
  }
  function MixXorShift15(a: bv32): (r: bv32)
    ensures UnmixXorShift15(r) == a
  {
    XorShift15Expanded(a);
    a ^ (a >> 15)
  }

  /**
   * The hash: the five steps applied in the source's order. WangUnhash is a
   * left inverse of it, so no two counter values share a seed.
   */
  function WangHash(a: bv32): (h: bv32)
    ensures WangUnhash(h) == a
  {
    MixXorShift15(MixMultiply(MixXorShift4(MixShiftAdd(MixFold(a)))))
  }

  // The inverse of each step.
  function UnmixFold(h: bv32): bv32 { (h ^ 61) ^ ((h ^ 61) >> 16) }
  function UnmixShiftAdd(h: bv32): bv32 { h * 0x38e38e39 }
  function UnmixXorShift4(h: bv32): bv32 {
    h ^ (h >> 4) ^ (h >> 8) ^ (h >> 12) ^ (h >> 16) ^ (h >> 20) ^ (h >> 24) ^ (h >> 28)
  }
  function UnmixMultiply(h: bv32): bv32 { h * 0xfb699ca5 }
  function UnmixXorShift15(h: bv32): bv32 { h ^ (h >> 15) ^ (h >> 30) }

  /** Undoes WangHash, last step first. */
  function WangUnhash(h: bv32): bv32 {
    UnmixFold(UnmixShiftAdd(UnmixXorShift4(UnmixMultiply(UnmixXorShift15(h)))))
  }

  // Each step and its inverse undo each other, in both orders. The facts are
  // first stated on the step written out, then lifted to the step's function.
  lemma FoldExpanded(a: bv32)
    ensures UnmixFold((a ^ 61) ^ (a >> 16)) == a
  {}
  lemma FoldExpandedBack(a: bv32)
    ensures MixFold((a ^ 61) ^ ((a ^ 61) >> 16)) == a
  {}
  lemma FoldInverse(a: bv32)
    ensures UnmixFold(MixFold(a)) == a && MixFold(UnmixFold(a)) == a
  {
    FoldExpandedBack(a);
  }

  lemma ShiftAddExpanded(a: bv32)
    ensures UnmixShiftAdd(a + (a << 3)) == a
  {}
  lemma ShiftAddExpandedBack(a: bv32)
    ensures MixShiftAdd(a * 0x38e38e39) == a
  {}
  lemma ShiftAddInverse(a: bv32)
    ensures UnmixShiftAdd(MixShiftAdd(a)) == a && MixShiftAdd(UnmixShiftAdd(a)) == a
  {
    ShiftAddExpandedBack(a);
  }

  lemma XorShift4Expanded(a: bv32)
    ensures UnmixXorShift4(a ^ (a >> 4)) == a
  {}
  lemma XorShift4ExpandedBack(a: bv32)
    ensures MixXorShift4(a ^ (a >> 4) ^ (a >> 8) ^ (a >> 12) ^ (a >> 16) ^ (a >> 20) ^ (a >> 24) ^ (a >> 28)) == a
  {}
  lemma XorShift4Inverse(a: bv32)
    ensures UnmixXorShift4(MixXorShift4(a)) == a && MixXorShift4(UnmixXorShift4(a)) == a
  {
    XorShift4ExpandedBack(a);
  }

  lemma MultiplyExpanded(a: bv32)
    ensures UnmixMultiply(a * 0x27d4eb2d) == a
  {}
  lemma MultiplyExpandedBack(a: bv32)
    ensures MixMultiply(a * 0xfb699ca5) == a
  {}
  lemma MultiplyInverse(a: bv32)
    ensures UnmixMultiply(MixMultiply(a)) == a && MixMultiply(UnmixMultiply(a)) == a
  {
    MultiplyExpandedBack(a);
  }

  lemma XorShift15Expanded(a: bv32)
    ensures UnmixXorShift15(a ^ (a >> 15)) == a
  {}
  lemma XorShift15ExpandedBack(a: bv32)
    ensures MixXorShift15(a ^ (a >> 15) ^ (a >> 30)) == a
  {}
  lemma XorShift15Inverse(a: bv32)
    ensures UnmixXorShift15(MixXorShift15(a)) == a && MixXorShift15(UnmixXorShift15(a)) == a
  {
    XorShift15ExpandedBack(a);
  }

  /** WangUnhash is a right inverse of WangHash: every 32-bit value is the seed of some counter. */
  lemma HashUnhash(h: bv32)
    ensures WangHash(WangUnhash(h)) == h
  {
    var b4 := UnmixXorShift15(h);
    var b3 := UnmixMultiply(b4);
    var b2 := UnmixXorShift4(b3);
    var b1 := UnmixShiftAdd(b2);
    FoldInverse(b1);
    ShiftAddInverse(b2);
    XorShift4Inverse(b3);
    MultiplyInverse(b4);
    XorShift15Inverse(h);
  }

  /** Distinct frame counters give distinct seeds. */
  lemma WangHashInjective(a: bv32, b: bv32)
    ensures WangHash(a) == WangHash(b) <==> a == b
  {
  }

  /** The shift-and-add step is a multiplication by 9 modulo 2^32. */
  lemma ShiftAddIsTimesNine(a: bv32)
    ensures MixShiftAdd(a) == a * 9
  {
  }

  /** The seeds of the first counter values; in particular the seed of 0 is not 0. */
  lemma FirstSeeds()
    ensures WangHash(0) == 0xc0a9496a
    ensures WangHash(1) == 0x27922c9d
  {
  }

  /** No small counter value is its own seed. */
  lemma NoSmallFixedPoint(n: bv32)
    requires n < 0x1_0000
    ensures WangHash(n) != n
  {
  }
}
