/** The 64-bit `size_t` word the benchmark computes with, and the four
    unsigned element types it sweeps over (uint8_t .. uint64_t). */
module SizeT {

  const TWO_64: int := 0x1_0000_0000_0000_0000

  /** A value of a 64-bit unsigned `size_t`. */
  type u64 = x: int | 0 <= x < TWO_64

  /** 2^e as a mathematical integer. */
  function Pow2(e: nat): (r: nat)
    ensures r >= 1
  {
    if e == 0 then 1 else 2 * Pow2(e - 1)
  }

  lemma {:induction false} Pow2Add(a: nat, b: nat)
    ensures Pow2(a + b) == Pow2(a) * Pow2(b)
  {
    if b > 0 {
      Pow2Add(a, b - 1);
      assert Pow2(a + b) == 2 * Pow2(a + b - 1);
    }
  }

  lemma {:induction false} Pow2StrictlyIncreasing(a: nat, b: nat)
    requires a < b
    ensures Pow2(a) < Pow2(b)
  {
    if a + 1 < b { Pow2StrictlyIncreasing(a, b - 1); }
  }

  /** The powers of two that are the ranges of the element types. */
  lemma Pow2Widths()
    ensures Pow2(8) == 0x100 && Pow2(16) == 0x1_0000 && Pow2(32) == 0x1_0000_0000
    ensures Pow2(64) == TWO_64
  {
    assert Pow2(4) == 16;
    Pow2Add(4, 4);
    assert Pow2(8) == 0x100;
    Pow2Add(8, 8);
    assert Pow2(16) == 0x1_0000;
    Pow2Add(16, 16);
    assert Pow2(32) == 0x1_0000_0000;
    Pow2Add(32, 32);
  }

  lemma Pow2Of64()
    ensures Pow2(64) == TWO_64
  {
    Pow2Widths();
  }

  /** Every exponent below the word width gives a value that fits in a word. */
  lemma Pow2FitsWord(e: nat)
    requires e < 64
    ensures Pow2(e) < TWO_64
  {
    Pow2StrictlyIncreasing(e, 64);
    Pow2Of64();
  }

  /** `a + b` on size_t: wraps modulo 2^64. */
  function Add(a: u64, b: u64): (r: u64)
    ensures a + b < TWO_64 ==> r == a + b
    ensures a + b >= TWO_64 ==> r == a + b - TWO_64
  {
    (a + b) % TWO_64
  }

  /** `a << k` on size_t: the bits shifted past bit 63 are lost. */
  function Shl(a: u64, k: nat): u64
  {
    (a * Pow2(k)) % TWO_64
  }

  /** Bitwise exclusive or of two naturals, bit by bit from the lowest. */
  function BitXor(a: nat, b: nat): nat
  {
    if a == 0 && b == 0 then 0
    else (a % 2 + b % 2) % 2 + 2 * BitXor(a / 2, b / 2)
  }

  lemma {:induction false} BitXorBelow(a: nat, b: nat, n: nat)
    requires a < Pow2(n) && b < Pow2(n)
    ensures BitXor(a, b) < Pow2(n)
  {
    if !(a == 0 && b == 0) {
      assert n > 0;
      BitXorBelow(a / 2, b / 2, n - 1);
    }
  }

  /** `a ^ b` on size_t. */
  function Xor(a: u64, b: u64): (r: u64)
  {
    Pow2Of64();
    BitXorBelow(a, b, 64);
    BitXor(a, b)
  }

  /** The element types the sweep instantiates RandArray with. */
  datatype ElemType = U8 | U16 | U32 | U64
  {
    /** sizeof(T) in bytes. */
    function SizeOf(): (r: nat)
      ensures r in {1, 2, 4, 8}
    {
      match this
      case U8 => 1
      case U16 => 2
      case U32 => 4
      case U64 => 8
    }

    /** The number of distinct values of T: 2^(8 * sizeof(T)). */
    function Range(): (r: nat)
      ensures 256 <= r <= TWO_64
      ensures SizeOf() <= 4 ==> r <= 0x1_0000_0000
    {
      match this
      case U8 => 0x100
      case U16 => 0x1_0000
      case U32 => 0x1_0000_0000
      case U64 => TWO_64
    }
  }

  /** The range of T is 2^(8 * sizeof(T)), so Truncate keeps exactly the
      low 8 * sizeof(T) bits. */
  lemma RangeIsPow2(t: ElemType)
    ensures t.Range() == Pow2(8 * t.SizeOf())
  {
    Pow2Widths();
  }

  /** static_cast<T>(x) for an unsigned T: keep the low 8 * sizeof(T) bits. */
  function Truncate(x: u64, t: ElemType): (r: u64)
    ensures r < t.Range()
    ensures x < t.Range() ==> r == x
  {
    x % t.Range()
  }
}
