/** The bitmap transforms of the LED frame: clockwise rotation by a
    multiple of 90 degrees and the horizontal mirror (`rotate8x8` and
    `mirror8x8` in script.js). Each is specified by a function on the
    frame's bytes; the methods fill a fresh `array<bv8>` (a `Uint8Array`)
    with the nested loops of the source and are proved to return that
    function of their input. The source's `x & (1 << k)` and
    `x |= 1 << k` are `Bit(x, k)` and `x := SetBit(x, k)`. */
module Bitmap {
  import opened Bits

  // ----- Specification -----

  /** Row `r` of the frame turned 90 degrees clockwise: its bit `b` is bit `7 - r` of source row `b`. */
  function Rot90Row(f: seq<bv8>, r: nat): bv8
    requires |f| == 8 && r < 8
  {
    ByteOf(seq(8, b requires 0 <= b < 8 => Bit(f[b], 7 - r)))
  }

  /** Row `r` of the frame turned 180 degrees: source row `7 - r` read backwards. */
  function Rot180Row(f: seq<bv8>, r: nat): bv8
    requires |f| == 8 && r < 8
  {
    ReverseBits(f[7 - r])
  }

  /** Row `r` of the frame turned 270 degrees clockwise: its bit `b` is bit `r` of source row `7 - b`. */
  function Rot270Row(f: seq<bv8>, r: nat): bv8
    requires |f| == 8 && r < 8
  {
    ByteOf(seq(8, b requires 0 <= b < 8 => Bit(f[7 - b], r)))
  }

  /** The frame `rotate8x8` returns for `angle`: the input itself for 0,
      the three quarter turns, and eight zero bytes for any other angle. */
  function Rotate(f: seq<bv8>, angle: int): (g: seq<bv8>)
    requires |f| == 8
    ensures |g| == 8
  {
    if angle == 0 then f
    else if angle == 90 then seq(8, r requires 0 <= r < 8 => Rot90Row(f, r))
    else if angle == 180 then seq(8, r requires 0 <= r < 8 => Rot180Row(f, r))
    else if angle == 270 then seq(8, r requires 0 <= r < 8 => Rot270Row(f, r))
    else seq(8, r => 0)
  }

  /** The bit reversal of one byte: bit `k` of the result is bit `7 - k` of `b`. */
  function ReverseBits(b: bv8): (r: bv8)
    ensures forall k :: 0 <= k < 8 ==> Bit(r, k) == Bit(b, 7 - k)
  {
    ByteOf(seq(8, k requires 0 <= k < 8 => Bit(b, 7 - k)))
  }

  /** The frame `mirror8x8` returns: every row bit-reversed, rows in place. */
  function Mirrored(f: seq<bv8>): (g: seq<bv8>)
    ensures |g| == |f|
  {
    seq(|f|, i requires 0 <= i < |f| => ReverseBits(f[i]))
  }

  // ----- Pixel-level properties -----

  /** Angle 0 returns the frame unchanged. */
  lemma RotateZero(f: seq<bv8>)
    requires |f| == 8
    ensures Rotate(f, 0) == f
  {
  }

  /** A quarter turn moves pixel (i, j) to (j, 7 - i). */
  lemma Rotate90Pixel(f: seq<bv8>, i: nat, j: nat)
    requires |f| == 8 && i < 8 && j < 8
    ensures Pixel(Rotate(f, 90), j, 7 - i) == Pixel(f, i, j)
  {
    assert Rotate(f, 90)[j] == Rot90Row(f, j);
  }

  /** A half turn moves pixel (i, j) to (7 - i, 7 - j). */
  lemma Rotate180Pixel(f: seq<bv8>, i: nat, j: nat)
    requires |f| == 8 && i < 8 && j < 8
    ensures Pixel(Rotate(f, 180), 7 - i, 7 - j) == Pixel(f, i, j)
  {
    assert Rotate(f, 180)[7 - i] == Rot180Row(f, 7 - i);
  }

  /** Three quarter turns move pixel (i, j) to (7 - j, i). */
  lemma Rotate270Pixel(f: seq<bv8>, i: nat, j: nat)
    requires |f| == 8 && i < 8 && j < 8
    ensures Pixel(Rotate(f, 270), 7 - j, i) == Pixel(f, i, j)
  {
    assert Rotate(f, 270)[7 - j] == Rot270Row(f, 7 - j);
  }

  /** Any angle other than 0, 90, 180 and 270 yields eight zero bytes. */
  lemma RotateOther(f: seq<bv8>, angle: int)
    requires |f| == 8
    requires angle != 0 && angle != 90 && angle != 180 && angle != 270
    ensures Rotate(f, angle) == [0, 0, 0, 0, 0, 0, 0, 0]
  {
  }

  /** The quarter turn read backwards: pixel (r, c) of the result is pixel (7 - c, r) of the input. */
  lemma Rotate90At(f: seq<bv8>)
    requires |f| == 8
    ensures forall r, c :: 0 <= r < 8 && 0 <= c < 8 ==> Pixel(Rotate(f, 90), r, c) == Pixel(f, 7 - c, r)
  {
    forall r, c | 0 <= r < 8 && 0 <= c < 8
      ensures Pixel(Rotate(f, 90), r, c) == Pixel(f, 7 - c, r)
    {
      Rotate90Pixel(f, 7 - c, r);
    }
  }

  /** Four quarter turns give back the original frame. */
  lemma FourQuarterTurns(f: seq<bv8>)
    requires |f| == 8
    ensures Rotate(Rotate(Rotate(Rotate(f, 90), 90), 90), 90) == f
  {
    var f1 := Rotate(f, 90);
    var f2 := Rotate(f1, 90);
    var f3 := Rotate(f2, 90);
    var f4 := Rotate(f3, 90);
    Rotate90At(f);
    Rotate90At(f1);
    Rotate90At(f2);
    Rotate90At(f3);
    FrameExt(f4, f);
  }

  /** A half turn is two quarter turns. */
  lemma HalfTurnIsTwoQuarterTurns(f: seq<bv8>)
    requires |f| == 8
    ensures Rotate(f, 180) == Rotate(Rotate(f, 90), 90)
  {
    var f1 := Rotate(f, 90);
    var f2 := Rotate(f1, 90);
    Rotate90At(f);
    Rotate90At(f1);
    forall r, c | 0 <= r < 8 && 0 <= c < 8
      ensures Pixel(Rotate(f, 180), r, c) == Pixel(f2, r, c)
    {
      Rotate180Pixel(f, 7 - r, 7 - c);
    }
    FrameExt(Rotate(f, 180), f2);
  }

  /** Pixel (r, c) of the 270-degree turn is pixel (c, 7 - r) of the input. */
  lemma Rotate270At(f: seq<bv8>)
    requires |f| == 8
    ensures forall r, c :: 0 <= r < 8 && 0 <= c < 8 ==> Pixel(Rotate(f, 270), r, c) == Pixel(f, c, 7 - r)
  {
    forall r, c | 0 <= r < 8 && 0 <= c < 8
      ensures Pixel(Rotate(f, 270), r, c) == Pixel(f, c, 7 - r)
    {
      Rotate270Pixel(f, c, 7 - r);
    }
  }

  /** The 270-degree turn undoes the quarter turn. */
  lemma ThreeQuarterTurnUndoesQuarterTurn(f: seq<bv8>)
    requires |f| == 8
    ensures Rotate(Rotate(f, 90), 270) == f
  {
    var f1 := Rotate(f, 90);
    Rotate90At(f);
    Rotate270At(f1);
    FrameExt(Rotate(f1, 270), f);
  }

  /** The quarter turn undoes the 270-degree turn. */
  lemma QuarterTurnUndoesThreeQuarterTurn(f: seq<bv8>)
    requires |f| == 8
    ensures Rotate(Rotate(f, 270), 90) == f
  {
    var g1 := Rotate(f, 270);
    Rotate270At(f);
    Rotate90At(g1);
    FrameExt(Rotate(g1, 90), f);
  }

  /** Mirroring keeps the rows in place and moves column j to column 7 - j. */
  lemma MirrorPixel(f: seq<bv8>, i: nat, j: nat)
    requires |f| == 8 && i < 8 && j < 8
    ensures Pixel(Mirrored(f), i, 7 - j) == Pixel(f, i, j)
  {
    assert Mirrored(f)[i] == ReverseBits(f[i]);
  }

  /** Bit reversal undoes itself. */
  lemma ReverseBitsTwice(b: bv8)
    ensures ReverseBits(ReverseBits(b)) == b
  {
    forall k | 0 <= k < 8
      ensures Bit(ReverseBits(ReverseBits(b)), k) == Bit(b, k)
    {
      assert Bit(ReverseBits(ReverseBits(b)), k) == Bit(ReverseBits(b), 7 - k);
    }
    ByteExt(ReverseBits(ReverseBits(b)), b);
  }

  /** Mirroring twice is the identity, on a buffer of any length. */
  lemma MirrorTwice(f: seq<bv8>)
    ensures Mirrored(Mirrored(f)) == f
  {
    forall i | 0 <= i < |f|
      ensures Mirrored(Mirrored(f))[i] == f[i]
    {
      ReverseBitsTwice(f[i]);
    }
  }

  // ----- The source's loops -----

  /** `rotate8x8`: angle 0 hands back the source buffer itself; every other
      angle fills a fresh zeroed buffer of eight bytes, which stays zero
      for an angle other than 90, 180 and 270. */
  method Rotate8x8(src: array<bv8>, angle: int) returns (dst: array<bv8>)
    requires src.Length == 8
    ensures angle == 0 ==> dst == src
    ensures angle != 0 ==> fresh(dst)
    ensures dst.Length == 8 && dst[..] == Rotate(src[..], angle)
  {
    if angle == 0 {
      return src;
    }
    if angle == 90 {
      dst := QuarterTurn(src);
    } else if angle == 180 {
      dst := HalfTurn(src);
    } else if angle == 270 {
      dst := ThreeQuarterTurn(src);
    } else {
      dst := new bv8[8](_ => 0);
      assert dst[..] == Rotate(src[..], angle);
    }
  }

  /** The quarter-turn buffer after the loop has visited source rows
      before `i` and columns before `j` of row `i`: each visited set pixel
      (i, j) has done `dst[j] |= 1 << i`. */
  ghost function Turn90(s: seq<bv8>, i: nat, j: nat): (d: seq<bv8>)
    requires |s| == 8 && i <= 8 && j <= 8
    ensures |d| == 8
    decreases i, j
  {
    if j == 0 then
      (if i == 0 then seq(8, _ => 0) else Turn90(s, i - 1, 8))
    else
      var d := Turn90(s, i, j - 1);
      if i < 8 && Bit(s[i], 7 - (j - 1)) then d[j - 1 := SetBit(d[j - 1], i)] else d
  }

  /** One step of the loop sets at most the one bit it visits. */
  lemma Turn90Step(s: seq<bv8>, i: nat, j: nat, r: nat, b: nat)
    requires |s| == 8 && i < 8 && 0 < j <= 8 && r < 8 && b < 8
    ensures Bit(Turn90(s, i, j)[r], b) ==
      (Bit(Turn90(s, i, j - 1)[r], b) || (r == j - 1 && b == i && Bit(s[i], 7 - (j - 1))))
  {
    var d := Turn90(s, i, j - 1);
    if Bit(s[i], 7 - (j - 1)) {
      assert Turn90(s, i, j) == d[j - 1 := SetBit(d[j - 1], i)];
      BitSet(d[r], i, b);
    } else {
      assert Turn90(s, i, j) == d;
    }
  }

  /** Bit `b` of buffer row `r` is set exactly when pixel (b, r) of the
      source has been visited and is lit. */
  lemma {:induction false} Turn90Bit(s: seq<bv8>, i: nat, j: nat, r: nat, b: nat)
    requires |s| == 8 && i < 8 && j <= 8 && r < 8 && b < 8
    ensures Bit(Turn90(s, i, j)[r], b) == ((b < i || (b == i && r < j)) && Bit(s[b], 7 - r))
    decreases i, j
  {
    if j == 0 {
      if i == 0 {
        ZeroBits(b);
      } else {
        Turn90Bit(s, i - 1, 8, r, b);
      }
    } else {
      Turn90Bit(s, i, j - 1, r, b);
      Turn90Step(s, i, j, r, b);
    }
  }

  /** Once every source row is visited the buffer is the quarter turn. */
  lemma Turn90Done(s: seq<bv8>)
    requires |s| == 8
    ensures Turn90(s, 8, 0) == Rotate(s, 90)
  {
    forall r | 0 <= r < 8
      ensures Turn90(s, 7, 8)[r] == Rot90Row(s, r)
    {
      Turn90DoneRow(s, r);
    }
    assert Turn90(s, 8, 0) == Turn90(s, 7, 8);
  }

  /** One finished row of the buffer. */
  lemma Turn90DoneRow(s: seq<bv8>, r: nat)
    requires |s| == 8 && r < 8
    ensures Turn90(s, 7, 8)[r] == Rot90Row(s, r)
  {
    forall b | 0 <= b < 8
      ensures Bit(Turn90(s, 7, 8)[r], b) == Bit(Rot90Row(s, r), b)
    {
      Turn90Bit(s, 7, 8, r, b);
    }
    ByteExt(Turn90(s, 7, 8)[r], Rot90Row(s, r));
  }

  /** The 90-degree branch of `rotate8x8`: for every set pixel (i, j) of
      the source, `dst[j] |= 1 << i`. */
  method QuarterTurn(src: array<bv8>) returns (dst: array<bv8>)
    requires src.Length == 8
    ensures fresh(dst) && dst.Length == 8
    ensures dst[..] == Rotate(src[..], 90)
  {
    dst := new bv8[8](_ => 0);
    ghost var s := src[..];
    for i := 0 to 8
      invariant dst[..] == Turn90(s, i, 0)
    {
      for j := 0 to 8
        invariant dst[..] == Turn90(s, i, j)
      {
        if Bit(src[i], 7 - j) {
          dst[j] := SetBit(dst[j], i);
        }
      }
    }
    Turn90Done(s);
  }

  /** A byte reversed one bit at a time: after `n` steps each set bit
      `m < n` of `x` has done `|= 1 << (7 - m)`. */
  ghost function PartialReverse(x: bv8, n: nat): bv8
    requires n <= 8
  {
    if n == 0 then 0
    else
      var p := PartialReverse(x, n - 1);
      if Bit(x, n - 1) then SetBit(p, 7 - (n - 1)) else p
  }

  /** Bit `k` of a partial reversal is bit `7 - k` of `x` once that bit has been visited. */
  lemma {:induction false} PartialReverseBit(x: bv8, n: nat, k: nat)
    requires n <= 8 && k < 8
    ensures Bit(PartialReverse(x, n), k) == (7 - k < n && Bit(x, 7 - k))
  {
    if n == 0 {
      ZeroBits(k);
    } else {
      PartialReverseBit(x, n - 1, k);
      BitSet(PartialReverse(x, n - 1), 7 - (n - 1), k);
    }
  }

  /** A finished bit-reversal loop yields the reversed byte. */
  lemma PartialReverseDone(x: bv8)
    ensures PartialReverse(x, 8) == ReverseBits(x)
  {
    forall k | 0 <= k < 8
      ensures Bit(PartialReverse(x, 8), k) == Bit(ReverseBits(x), k)
    {
      PartialReverseBit(x, 8, k);
    }
    ByteExt(PartialReverse(x, 8), ReverseBits(x));
  }

  /** The 180-degree branch of `rotate8x8`: row `i` of the result is
      source row `7 - i` with its bits reversed, built in `row`. */
  method HalfTurn(src: array<bv8>) returns (dst: array<bv8>)
    requires src.Length == 8
    ensures fresh(dst) && dst.Length == 8
    ensures dst[..] == Rotate(src[..], 180)
  {
    dst := new bv8[8](_ => 0);
    for i := 0 to 8
      invariant forall r :: 0 <= r < i ==> dst[r] == Rot180Row(src[..], r)
    {
      var row: bv8 := 0;
      for j := 0 to 8
        invariant forall r :: 0 <= r < i ==> dst[r] == Rot180Row(src[..], r)
        invariant row == PartialReverse(src[7 - i], j)
      {
        if Bit(src[7 - i], j) {
          row := SetBit(row, 7 - j);
        }
      }
      PartialReverseDone(src[7 - i]);
      dst[i] := row;
    }
  }

  /** The 270-degree buffer after the loop has visited source rows before
      `i` and columns before `j` of row `i`: each visited set pixel (i, j)
      has done `dst[7 - j] |= 1 << (7 - i)`. */
  ghost function Turn270(s: seq<bv8>, i: nat, j: nat): (d: seq<bv8>)
    requires |s| == 8 && i <= 8 && j <= 8
    ensures |d| == 8
    decreases i, j
  {
    if j == 0 then
      (if i == 0 then seq(8, _ => 0) else Turn270(s, i - 1, 8))
    else
      var d := Turn270(s, i, j - 1);
      if i < 8 && Bit(s[i], 7 - (j - 1)) then d[7 - (j - 1) := SetBit(d[7 - (j - 1)], 7 - i)] else d
  }

  /** One step of the loop sets at most the one bit it visits. */
  lemma Turn270Step(s: seq<bv8>, i: nat, j: nat, r: nat, b: nat)
    requires |s| == 8 && i < 8 && 0 < j <= 8 && r < 8 && b < 8
    ensures Bit(Turn270(s, i, j)[r], b) ==
      (Bit(Turn270(s, i, j - 1)[r], b) || (r == 7 - (j - 1) && b == 7 - i && Bit(s[i], 7 - (j - 1))))
  {
    var d := Turn270(s, i, j - 1);
    if Bit(s[i], 7 - (j - 1)) {
      assert Turn270(s, i, j) == d[7 - (j - 1) := SetBit(d[7 - (j - 1)], 7 - i)];
      BitSet(d[r], 7 - i, b);
    } else {
      assert Turn270(s, i, j) == d;
    }
  }

  /** Bit `b` of buffer row `r` is set exactly when pixel (7 - b, 7 - r)
      of the source has been visited and is lit. */
  lemma {:induction false} Turn270Bit(s: seq<bv8>, i: nat, j: nat, r: nat, b: nat)
    requires |s| == 8 && i < 8 && j <= 8 && r < 8 && b < 8
    ensures Bit(Turn270(s, i, j)[r], b) == ((7 - b < i || (7 - b == i && 7 - r < j)) && Bit(s[7 - b], r))
    decreases i, j
  {
    if j == 0 {
      if i == 0 {
        ZeroBits(b);
      } else {
        Turn270Bit(s, i - 1, 8, r, b);
      }
    } else {
      Turn270Bit(s, i, j - 1, r, b);
      Turn270Step(s, i, j, r, b);
    }
  }

  /** Once every source row is visited the buffer is the three-quarter turn. */
  lemma Turn270Done(s: seq<bv8>)
    requires |s| == 8
    ensures Turn270(s, 8, 0) == Rotate(s, 270)
  {
    forall r | 0 <= r < 8
      ensures Turn270(s, 7, 8)[r] == Rot270Row(s, r)
    {
      Turn270DoneRow(s, r);
    }
    assert Turn270(s, 8, 0) == Turn270(s, 7, 8);
  }

  /** One finished row of the buffer. */
  lemma Turn270DoneRow(s: seq<bv8>, r: nat)
    requires |s| == 8 && r < 8
    ensures Turn270(s, 7, 8)[r] == Rot270Row(s, r)
  {
    forall b | 0 <= b < 8
      ensures Bit(Turn270(s, 7, 8)[r], b) == Bit(Rot270Row(s, r), b)
    {
      Turn270Bit(s, 7, 8, r, b);
    }
    ByteExt(Turn270(s, 7, 8)[r], Rot270Row(s, r));
  }

  /** The 270-degree branch of `rotate8x8`: for every set pixel (i, j) of
      the source, `dst[7 - j] |= 1 << (7 - i)`. */
  method ThreeQuarterTurn(src: array<bv8>) returns (dst: array<bv8>)
    requires src.Length == 8
    ensures fresh(dst) && dst.Length == 8
    ensures dst[..] == Rotate(src[..], 270)
  {
    dst := new bv8[8](_ => 0);
    ghost var s := src[..];
    for i := 0 to 8
      invariant dst[..] == Turn270(s, i, 0)
    {
      for j := 0 to 8
        invariant dst[..] == Turn270(s, i, j)
      {
        if Bit(src[i], 7 - j) {
          dst[7 - j] := SetBit(dst[7 - j], 7 - i);
        }
      }
    }
    Turn270Done(s);
  }

  /** `mirror8x8`: a fresh buffer of the same length whose byte `i` is the
      bit reversal of source byte `i`. The source's test `(b >> bit) & 1`
      reads the same bit as `Bit(b, bit)` (`ShiftTest`). */
  method Mirror8x8(src: array<bv8>) returns (dst: array<bv8>)
    ensures fresh(dst)
    ensures dst[..] == Mirrored(src[..])
  {
    dst := new bv8[src.Length](_ => 0);
    for i := 0 to src.Length
      invariant forall k :: 0 <= k < i ==> dst[k] == ReverseBits(src[k])
    {
      var b := src[i];
      var rev: bv8 := 0;
      for bit := 0 to 8
        invariant forall k :: 0 <= k < i ==> dst[k] == ReverseBits(src[k])
        invariant rev == PartialReverse(b, bit)
      {
        if Bit(b, bit) {
          rev := SetBit(rev, 7 - bit);
        }
      }
      PartialReverseDone(b);
      dst[i] := rev;
    }
  }
}
