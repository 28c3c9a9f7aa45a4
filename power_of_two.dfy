/** Conversion between table indices and powers of two: Exp2 maps an
    exponent to 1 << exponent, Log2 maps a power of two back to its exponent
    by counting right shifts. */
module PowerOfTwo {
  import opened SizeT

  /** Number of set bits (std::popcount). */
  function PopCount(x: nat): nat
  {
    if x == 0 then 0 else x % 2 + PopCount(x / 2)
  }

  /** std::has_single_bit: exactly one bit is set. */
  predicate HasSingleBit(x: nat)
  {
    PopCount(x) == 1
  }

  /** Number of bits needed to write x (std::bit_width): 0 for 0. */
  function BitWidth(x: nat): nat
  {
    if x == 0 then 0 else 1 + BitWidth(x / 2)
  }

  /** The exponent Log2 computes for a positive argument: the index of the
      highest set bit. */
  function Log2Of(p: nat): nat
    requires p >= 1
  {
    BitWidth(p) - 1
  }

  /** Exp2: `size_t(1) << exponent`, asserted to stay below the word width. */
  function Exp2(exponent: nat): (r: u64)
    requires exponent < 64
    ensures r == Pow2(exponent)
    ensures HasSingleBit(r)
  {
    Pow2FitsWord(exponent);
    Pow2SingleBit(exponent);
    Shl(1, exponent)
  }

  lemma {:induction false} Pow2SingleBit(e: nat)
    ensures HasSingleBit(Pow2(e))
  {
    if e > 0 {
      Pow2SingleBit(e - 1);
      assert Pow2(e) / 2 == Pow2(e - 1);
    }
  }

  lemma {:induction false} BitWidthOfPow2(e: nat)
    ensures BitWidth(Pow2(e)) == e + 1
  {
    if e > 0 {
      BitWidthOfPow2(e - 1);
      assert Pow2(e) / 2 == Pow2(e - 1);
    }
  }

  /** A value with a single set bit is the power of two of its top bit. */
  lemma {:induction false} SingleBitIsPow2(x: nat)
    requires HasSingleBit(x)
    ensures x >= 1 && x == Pow2(Log2Of(x))
  {
    if x % 2 == 1 {
      assert PopCount(x / 2) == 0;
      ZeroPopCount(x / 2);
      assert x == 1;
    } else {
      SingleBitIsPow2(x / 2);
      assert BitWidth(x) == 1 + BitWidth(x / 2);
    }
  }

  lemma {:induction false} ZeroPopCount(x: nat)
    requires PopCount(x) == 0
    ensures x == 0
  {
    if x != 0 {
      assert x % 2 == 0 && PopCount(x / 2) == 0;
      ZeroPopCount(x / 2);
    }
  }

  lemma {:induction false} BitWidthBelow(x: nat, n: nat)
    requires x < Pow2(n)
    ensures BitWidth(x) <= n
  {
    if x > 0 {
      assert n > 0;
      BitWidthBelow(x / 2, n - 1);
    }
  }

  /** Log2 undoes Exp2 for every exponent below the word width. */
  lemma Log2OfExp2(e: nat)
    requires e < 64
    ensures Log2Of(Exp2(e)) == e
  {
    BitWidthOfPow2(e);
  }

  /** Exp2 undoes Log2 for every word with a single set bit, and the exponent
      is below the word width. */
  lemma Exp2OfLog2(p: u64)
    requires HasSingleBit(p)
    ensures p >= 1 && Log2Of(p) < 64 && Exp2(Log2Of(p)) == p
  {
    SingleBitIsPow2(p);
    Pow2Of64();
    BitWidthBelow(p, 64);
  }

  /** Exp2 is strictly increasing, so the exponents order the sizes. */
  lemma Exp2Increasing(a: nat, b: nat)
    requires a < b < 64
    ensures Exp2(a) < Exp2(b)
  {
    Pow2StrictlyIncreasing(a, b);
  }

  /** Log2 (ParamPassTiming.cpp:78-85): shift right until the value is zero,
      counting the shifts that leave it non-zero. */
  method Log2(powerOf2: u64) returns (result: nat)
    requires HasSingleBit(powerOf2)
    ensures powerOf2 >= 1 && result == Log2Of(powerOf2)
    ensures result < 64 && Exp2(result) == powerOf2
  {
    result := 0;
    var v: u64 := powerOf2 / 2;
    while v != 0
      invariant result + 1 + BitWidth(v) == BitWidth(powerOf2)
      decreases v
    {
      result := result + 1;
      v := v / 2;
    }
    Exp2OfLog2(powerOf2);
  }
}
