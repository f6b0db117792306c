/** Bit-level view of the bytes of an 8x8 LED frame.
    A frame is eight bytes, one per row; bit 7 of a row is its leftmost pixel. */
module Bits {

  /** The byte `1 << k` for bit position `k`, listed by value. */
  function Mask(k: nat): (m: bv8)
    requires k < 8
  {
    if k == 0 then 0x01 else if k == 1 then 0x02 else if k == 2 then 0x04 else if k == 3 then 0x08
    else if k == 4 then 0x10 else if k == 5 then 0x20 else if k == 6 then 0x40 else 0x80
  }

  /** `Mask(k)` is the shifted one bit `1 << k`. */
  lemma ShiftIsMask(k: nat)
    requires k < 8
    ensures (1 as bv8) << k == Mask(k)
  {
    if k == 0 {} else if k == 1 {} else if k == 2 {} else if k == 3 {}
    else if k == 4 {} else if k == 5 {} else if k == 6 {} else {}
  }

  /** Bit `k` (0 = least significant) of byte `b`, the test `b & (1 << k)`. */
  predicate Bit(b: bv8, k: nat)
    requires k < 8
  {
    b & Mask(k) != 0
  }

  /** Pixel at row `r`, column `c` of a frame (column 0 is bit 7). */
  predicate Pixel(f: seq<bv8>, r: nat, c: nat)
    requires |f| == 8 && r < 8 && c < 8
  {
    Bit(f[r], 7 - c)
  }

  /** The byte whose bit `k` is `bits[k]`. */
  function ByteOf(bits: seq<bool>): (b: bv8)
    requires |bits| == 8
    ensures forall k :: 0 <= k < 8 ==> Bit(b, k) == bits[k]
  {
    (if bits[0] then 0x01 else 0) | (if bits[1] then 0x02 else 0) |
    (if bits[2] then 0x04 else 0) | (if bits[3] then 0x08 else 0) |
    (if bits[4] then 0x10 else 0) | (if bits[5] then 0x20 else 0) |
    (if bits[6] then 0x40 else 0) | (if bits[7] then 0x80 else 0)
  }

  /** `b | (1 << k)`: byte `b` with bit `k` set. */
  function SetBit(b: bv8, k: nat): bv8
    requires k < 8
  {
    b | Mask(k)
  }

  /** A byte is determined by its eight bits. */
  lemma ByteExt(a: bv8, b: bv8)
    requires forall k :: 0 <= k < 8 ==> Bit(a, k) == Bit(b, k)
    ensures a == b
  {
    assert Bit(a, 0) == Bit(b, 0) && Bit(a, 1) == Bit(b, 1);
    assert Bit(a, 2) == Bit(b, 2) && Bit(a, 3) == Bit(b, 3);
    assert Bit(a, 4) == Bit(b, 4) && Bit(a, 5) == Bit(b, 5);
    assert Bit(a, 6) == Bit(b, 6) && Bit(a, 7) == Bit(b, 7);
  }

  /** A frame is determined by its 64 pixels. */
  lemma FrameExt(f: seq<bv8>, g: seq<bv8>)
    requires |f| == 8 && |g| == 8
    requires forall r, c :: 0 <= r < 8 && 0 <= c < 8 ==> Pixel(f, r, c) == Pixel(g, r, c)
    ensures f == g
  {
    forall r | 0 <= r < 8
      ensures f[r] == g[r]
    {
      forall k | 0 <= k < 8
        ensures Bit(f[r], k) == Bit(g[r], k)
      {
        assert Pixel(f, r, 7 - k) == Pixel(g, r, 7 - k);
      }
      ByteExt(f[r], g[r]);
    }
  }

  /** `x | (1 << i)` sets bit `i` and leaves the other bits as they were. */
  lemma BitSet(x: bv8, i: nat, k: nat)
    requires i < 8 && k < 8
    ensures Bit(SetBit(x, i), k) == (Bit(x, k) || k == i)
  {
  }

  /** The test `(b >> k) & 1` reads the same bit as `b & (1 << k)`. */
  lemma ShiftTest(b: bv8, k: nat)
    requires k < 8
    ensures ((b >> k) & 1 != 0) == Bit(b, k)
  {
    if k == 0 {} else if k == 1 {} else if k == 2 {} else if k == 3 {}
    else if k == 4 {} else if k == 5 {} else if k == 6 {} else {}
  }

  /** The all-zero byte has no bit set. */
  lemma ZeroBits(k: nat)
    requires k < 8
    ensures !Bit(0, k)
  {
  }
}
