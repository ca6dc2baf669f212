/** Bit masks as sets of bit numbers: the view of receivers_mask and ack_mask the multicast takes. */
module Bitmasks {
  import opened Multicast

  const WORD_BITS: nat := 32

  function Pow2(n: nat): (p: nat)
    ensures p >= 1
  {
    if n == 0 then 1 else 2 * Pow2(n - 1)
  }

  /** (b & (1 << i)) != 0 */
  predicate HasBit(b: nat, i: nat)
    decreases i
  {
    if i == 0 then b % 2 == 1 else HasBit(b / 2, i - 1)
  }

  function Bits(b: nat): set<nat> {
    set i | 0 <= i < WORD_BITS && HasBit(b, i)
  }

  lemma {:induction false} HighBitsClear(b: nat, n: nat, i: nat)
    requires b < Pow2(n) && i >= n
    ensures !HasBit(b, i)
    decreases i
  {
    if i > 0 {
      HighBitsClear(b / 2, if n == 0 then 0 else n - 1, i - 1);
    }
  }

  lemma {:induction false} SomeHighBit(b: nat, n: nat) returns (i: nat)
    requires b >= Pow2(n)
    ensures i >= n && HasBit(b, i)
    decreases b
  {
    if n == 0 && b % 2 == 1 {
      return 0;
    }
    i := SomeHighBit(b / 2, if n == 0 then 0 else n - 1);
    i := i + 1;
  }

  /** The test of line 231: a 32-bit mask exceeds (1 << n) - 1 exactly when it names a receiver there is not. */
  lemma MaskTest(b: nat, n: nat)
    requires b < Pow2(WORD_BITS)
    ensures b > Pow2(n) - 1 <==> !ValidMask(n, Bits(b))
  {
    if b >= Pow2(n) {
      var i := SomeHighBit(b, n);
      if i >= WORD_BITS {
        HighBitsClear(b, WORD_BITS, i);
      }
      assert i in Bits(b);
    } else {
      forall i: nat | i >= n ensures !HasBit(b, i) {
        HighBitsClear(b, n, i);
      }
    }
  }

  /** Masks compare as sets: equal words have equal bits, and equal bits make equal words. */
  lemma {:induction false} SameBitsSameWord(a: nat, b: nat, n: nat)
    requires a < Pow2(n) && b < Pow2(n) && forall i :: 0 <= i < n ==> HasBit(a, i) == HasBit(b, i)
    ensures a == b
    decreases n
  {
    if n > 0 {
      forall i | 0 <= i < n - 1 ensures HasBit(a / 2, i) == HasBit(b / 2, i) {
        assert HasBit(a, i + 1) == HasBit(b, i + 1);
      }
      SameBitsSameWord(a / 2, b / 2, n - 1);
      assert HasBit(a, 0) == HasBit(b, 0);
    }
  }

  lemma EqualMasks(a: nat, b: nat)
    requires a < Pow2(WORD_BITS) && b < Pow2(WORD_BITS)
    ensures a == b <==> Bits(a) == Bits(b)
  {
    if Bits(a) == Bits(b) {
      forall i | 0 <= i < WORD_BITS ensures HasBit(a, i) == HasBit(b, i) {
        assert i in Bits(a) <==> i in Bits(b);
      }
      SameBitsSameWord(a, b, WORD_BITS);
    }
  }
}
