// Logical-to-physical pixel mapping under the four panel rotations
// (src/rotation.rs). The frame buffer is packed MSB first, row major:
// physical pixel (col, row) lives in byte col / 8 + (width / 8) * row under
// mask 0x80 >> (col % 8).
module Rotations {
  import opened Command
  import opened Config

  const U32_MODULUS: int := 0x1_0000_0000

  /** `u32` wrapping addition, subtraction and multiplication. */
  function Add32(a: u32, b: u32): u32 { (a + b) % U32_MODULUS }
  function Sub32(a: u32, b: u32): u32 { (a - b) % U32_MODULUS }
  function Mul32(a: u32, b: u32): u32 { (a * b) % U32_MODULUS }

  /** A byte with exactly one bit set. */
  predicate OneBit(m: byte)
  {
    m != 0 && m & (m - 1) == 0
  }

  /** Position, counted from the most significant bit, of a one-bit mask. */
  function MsbIndex(m: byte): nat
  {
    if m == 0x80 then 0 else if m == 0x40 then 1 else if m == 0x20 then 2
    else if m == 0x10 then 3 else if m == 0x08 then 4 else if m == 0x04 then 5
    else if m == 0x02 then 6 else 7
  }

  /** `0x80 >> k`, the mask of bit `k` counted from the most significant end, has one bit. */
  lemma MsbOneBit(k: nat)
    requires k < 8
    ensures OneBit((0x80 as byte) >> k)
  {
    if k == 0 {} else if k == 1 {} else if k == 2 {} else if k == 3 {}
    else if k == 4 {} else if k == 5 {} else if k == 6 {} else {}
  }

  /** `0x01 << k`, the mask of bit `k` counted from the least significant end, has one bit. */
  lemma LsbOneBit(k: nat)
    requires k < 8
    ensures OneBit((0x01 as byte) << k)
  {
    if k == 0 {} else if k == 1 {} else if k == 2 {} else if k == 3 {}
    else if k == 4 {} else if k == 5 {} else if k == 6 {} else {}
  }

  /** The position of `0x80 >> k` is `k`. */
  lemma MsbPosition(k: nat)
    requires k < 8
    ensures MsbIndex((0x80 as byte) >> k) == k
  {
    if k == 0 {} else if k == 1 {} else if k == 2 {} else if k == 3 {}
    else if k == 4 {} else if k == 5 {} else if k == 6 {} else {}
  }

  /** Bit `k` from the bottom is bit `7 - k` from the top. */
  lemma LsbIsMsb(k: nat)
    requires k < 8
    ensures (0x01 as byte) << k == (0x80 as byte) >> (7 - k)
  {
    if k == 0 {} else if k == 1 {} else if k == 2 {} else if k == 3 {}
    else if k == 4 {} else if k == 5 {} else if k == 6 {} else {}
  }

  // Where no wrap-around happens, the `u32` operations are the exact ones.

  lemma Add32Exact(a: u32, b: u32)
    requires a + b < U32_MODULUS
    ensures Add32(a, b) == a + b
  {
  }

  lemma Sub32Exact(a: u32, b: u32)
    requires b <= a
    ensures Sub32(a, b) == a - b
  {
  }

  lemma Mul32Exact(a: u32, b: u32)
    requires a * b < U32_MODULUS
    ensures Mul32(a, b) == a * b
  {
  }

  /**
   * `apply_rotation`: byte index and bit mask of logical pixel (x, y).
   * Arithmetic is `u32` and wraps exactly as a release build does when the
   * coordinates are outside the panel.
   */
  function ApplyRotation(x: u32, y: u32, width: u32, height: u32, rot: Rotation): (r: (nat, byte))
    ensures OneBit(r.1)
  {
    match rot
    case Rotate0 =>
      MsbOneBit(x % 8);
      (Add32(x / 8, Mul32(width / 8, y)), (0x80 as byte) >> (x % 8))
    case Rotate90 =>
      LsbOneBit(y % 8);
      (Add32(Sub32(Sub32(width, 1), y) / 8, Mul32(width / 8, x)), (0x01 as byte) << (y % 8))
    case Rotate180 =>
      LsbOneBit(x % 8);
      (Sub32(Sub32(Mul32(width / 8, height), 1), Add32(x / 8, Mul32(width / 8, y))),
       (0x01 as byte) << (x % 8))
    case Rotate270 =>
      MsbOneBit(y % 8);
      (Add32(y / 8, Mul32(Sub32(Sub32(height, 1), x), width / 8)), (0x80 as byte) >> (y % 8))
  }

  /** Native (0 degree) packing of physical pixel (col, row). */
  function Native(col: nat, row: nat, width: nat): (nat, byte)
  {
    (col / 8 + (width / 8) * row, (0x80 as byte) >> (col % 8))
  }

  /**
   * Where a logical coordinate is meaningful: inside the panel for 0 and 180
   * degrees, inside the exchanged rectangle for 90 and 270 degrees.
   */
  predicate InRange(x: nat, y: nat, width: nat, height: nat, rot: Rotation)
  {
    if rot in {Rotate0, Rotate180} then x < width && y < height
    else y < width && x < height
  }

  /** Physical (col, row) that logical (x, y) denotes under each rotation. */
  function Physical(x: nat, y: nat, width: nat, height: nat, rot: Rotation): (p: (nat, nat))
    requires InRange(x, y, width, height, rot)
    ensures p.0 < width && p.1 < height
  {
    match rot
    case Rotate0 => (x, y)
    case Rotate90 => (width - 1 - y, x)
    case Rotate180 => (width - 1 - x, height - 1 - y)
    case Rotate270 => (y, height - 1 - x)
  }

  /** A panel whose dimensions are `u16` values and whose width is whole bytes. */
  predicate PanelShape(width: nat, height: nat)
  {
    width < 0x1_0000 && height < 0x1_0000 && width % 8 == 0
  }

  lemma MulBound(a: nat, b: nat, c: nat, d: nat)
    requires a <= c && b <= d
    ensures a * b <= c * d
  {
    MulMono(a, c, b, d);
  }

  /** `a + n * b` with `a < n` determines `a` and `b`. */
  lemma MixedRadixUnique(a1: nat, b1: nat, a2: nat, b2: nat, n: nat)
    requires a1 < n && a2 < n
    requires a1 + n * b1 == a2 + n * b2
    ensures a1 == a2 && b1 == b2
  {
    if b1 < b2 {
      assert n * (b1 + 1) == n * b1 + n;
      MulBound(n, b1 + 1, n, b2);
    } else if b2 < b1 {
      assert n * (b2 + 1) == n * b2 + n;
      MulBound(n, b2 + 1, n, b1);
    }
  }

  /** Native packing stays inside a `width * height / 8` byte frame. */
  lemma NativeBounds(col: nat, row: nat, width: nat, height: nat)
    requires width % 8 == 0 && col < width && row < height
    ensures Native(col, row, width).0 < width * height / 8
    ensures Native(col, row, width).0 < (width / 8) * height
  {
    var n := width / 8;
    assert width == 8 * n;
    assert col / 8 < n;
    MulBound(n, row + 1, n, height);
    assert n * (row + 1) == n * row + n;
    assert width * height == 8 * (n * height);
  }

  /** Distinct physical pixels have distinct (index, mask) pairs. */
  lemma NativeInjective(c1: nat, r1: nat, c2: nat, r2: nat, width: nat)
    requires width % 8 == 0 && c1 < width && c2 < width
    requires Native(c1, r1, width) == Native(c2, r2, width)
    ensures c1 == c2 && r1 == r2
  {
    MsbPosition(c1 % 8);
    MsbPosition(c2 % 8);
    assert c1 % 8 == c2 % 8;
    MixedRadixUnique(c1 / 8, r1, c2 / 8, r2, width / 8);
  }

  /** Bytes per row times a row count stays far below the `u32` range. */
  lemma RowOffsetFits(n: nat, k: nat)
    requires n < 0x2000 && k < 0x1_0000
    ensures n * k < 0x2000_0000
  {
    MulBound(n, k, 0x1FFF, 0xFFFF);
    assert 0x1FFF * 0xFFFF < 0x2000_0000;
  }

  lemma Rotate0Native(x: nat, y: nat, width: nat, height: nat)
    requires PanelShape(width, height) && x < width && y < height
    ensures ApplyRotation(x, y, width, height, Rotate0) == Native(x, y, width)
  {
    var n := width / 8;
    RowOffsetFits(n, y);
    Mul32Exact(n, y);
    Add32Exact(x / 8, n * y);
  }

  /** Mirroring a column inside whole bytes mirrors its byte and its bit position. */
  lemma MirrorIndex(a: nat, width: nat)
    requires width % 8 == 0 && a < width
    ensures (width - 1 - a) / 8 == width / 8 - 1 - a / 8
    ensures (width - 1 - a) % 8 == 7 - a % 8
  {
    var n := width / 8;
    assert width == 8 * n;
    assert a == 8 * (a / 8) + a % 8;
    assert width - 1 - a == 8 * (n - 1 - a / 8) + (7 - a % 8);
  }

  /** ... and so its native mask is the low-end mask of the original column. */
  lemma MirrorMask(a: nat, width: nat)
    requires width % 8 == 0 && a < width
    ensures (0x01 as byte) << (a % 8) == (0x80 as byte) >> ((width - 1 - a) % 8)
  {
    MirrorIndex(a, width);
    LsbIsMsb(a % 8);
  }

  /** `n * (h - 1 - y)` expanded. */
  lemma MulRest(n: nat, h: nat, y: nat)
    requires y < h
    ensures n * (h - 1 - y) == n * h - n - n * y
  {
  }

  lemma Rotate90Native(x: nat, y: nat, width: nat, height: nat)
    requires PanelShape(width, height) && y < width && x < height
    ensures ApplyRotation(x, y, width, height, Rotate90) == Native(width - 1 - y, x, width)
  {
    var n := width / 8;
    Sub32Exact(width, 1);
    Sub32Exact(width - 1, y);
    RowOffsetFits(n, x);
    Mul32Exact(n, x);
    Add32Exact((width - 1 - y) / 8, n * x);
    MirrorMask(y, width);
  }

  lemma Rotate180Native(x: nat, y: nat, width: nat, height: nat)
    requires PanelShape(width, height) && x < width && y < height
    ensures ApplyRotation(x, y, width, height, Rotate180) == Native(width - 1 - x, height - 1 - y, width)
  {
    var n := width / 8;
    RowOffsetFits(n, height);
    Mul32Exact(n, height);
    RowOffsetFits(n, y);
    Mul32Exact(n, y);
    Add32Exact(x / 8, n * y);
    NativeBounds(x, y, width, height);
    Sub32Exact(n * height, 1);
    Sub32Exact(n * height - 1, x / 8 + n * y);
    MirrorIndex(x, width);
    MulRest(n, height, y);
    MirrorMask(x, width);
  }

  lemma Rotate270Native(x: nat, y: nat, width: nat, height: nat)
    requires PanelShape(width, height) && y < width && x < height
    ensures ApplyRotation(x, y, width, height, Rotate270) == Native(y, height - 1 - x, width)
  {
    var n := width / 8;
    Sub32Exact(height, 1);
    Sub32Exact(height - 1, x);
    RowOffsetFits(n, height - 1 - x);
    assert (height - 1 - x) * n == n * (height - 1 - x);
    Mul32Exact(height - 1 - x, n);
    Add32Exact(y / 8, n * (height - 1 - x));
  }

  /**
   * Every rotation arm is the native packing of the physical pixel its
   * logical coordinate denotes: no wrap-around happens inside the range.
   */
  lemma RotationIsNative(x: nat, y: nat, width: nat, height: nat, rot: Rotation)
    requires PanelShape(width, height) && InRange(x, y, width, height, rot)
    ensures ApplyRotation(x, y, width, height, rot)
         == Native(Physical(x, y, width, height, rot).0, Physical(x, y, width, height, rot).1, width)
  {
    match rot
    case Rotate0 => Rotate0Native(x, y, width, height);
    case Rotate90 => Rotate90Native(x, y, width, height);
    case Rotate180 => Rotate180Native(x, y, width, height);
    case Rotate270 => Rotate270Native(x, y, width, height);
  }

  /** Every in-range logical pixel lands inside the frame buffer. */
  lemma RotationBounds(x: nat, y: nat, width: nat, height: nat, rot: Rotation)
    requires PanelShape(width, height) && InRange(x, y, width, height, rot)
    ensures ApplyRotation(x, y, width, height, rot).0 < width * height / 8
  {
    RotationIsNative(x, y, width, height, rot);
    var p := Physical(x, y, width, height, rot);
    NativeBounds(p.0, p.1, width, height);
  }

  /** Distinct in-range logical pixels never share a bit of the frame buffer. */
  lemma RotationInjective(x1: nat, y1: nat, x2: nat, y2: nat, width: nat, height: nat, rot: Rotation)
    requires PanelShape(width, height)
    requires InRange(x1, y1, width, height, rot) && InRange(x2, y2, width, height, rot)
    requires ApplyRotation(x1, y1, width, height, rot) == ApplyRotation(x2, y2, width, height, rot)
    ensures x1 == x2 && y1 == y2
  {
    RotationIsNative(x1, y1, width, height, rot);
    RotationIsNative(x2, y2, width, height, rot);
    var p1 := Physical(x1, y1, width, height, rot);
    var p2 := Physical(x2, y2, width, height, rot);
    NativeInjective(p1.0, p1.1, p2.0, p2.1, width);
  }

  /** The concrete mappings the driver's own tests pin down. */
  lemma RotationExamples()
    ensures ApplyRotation(0, 0, 8, 1, Rotate0) == (0, 0x80)
    ensures ApplyRotation(1, 0, 8, 1, Rotate0) == (0, 0x40)
    ensures ApplyRotation(7, 0, 8, 1, Rotate0) == (0, 0x01)
    ensures ApplyRotation(0, 1, 8, 2, Rotate0) == (1, 0x80)
    ensures ApplyRotation(7, 0, 8, 1, Rotate180) == (0, 0x80)
    ensures ApplyRotation(0, 0, 8, 1, Rotate180) == (0, 0x01)
    ensures ApplyRotation(0, 0, 16, 16, Rotate90) == (1, 0x01)
    ensures ApplyRotation(0, 0, 16, 16, Rotate270) == (30, 0x80)
  {
  }
}
