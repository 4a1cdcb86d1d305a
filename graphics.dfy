// The frame-buffer layer (src/graphics.rs): a display together with two
// caller-owned byte buffers, one per RAM plane, that drawing operations update
// in place and that `update` sends to the panel.
module Graphics {
  import opened Command
  import opened Errors
  import opened Config
  import opened Colors
  import opened Rotations
  import opened Interface
  import opened Trace
  import opened Display

  /** `embedded_graphics::Point` coordinates are `i32`. */
  type i32 = x: int | -0x8000_0000 <= x < 0x8000_0000

  /** One pixel handed to `draw_iter`: a point and its colour. */
  datatype Pixel = Pixel(x: i32, y: i32, color: Color)

  // ---------------------------------------------------------------------------
  // Buffer sizes

  /**
   * The check shared by `new` (which panics) and `try_new` (which returns the
   * error): both buffers must hold the physical frame; black is checked first.
   */
  function CheckBuffers(d: Dimensions, blackLen: nat, redLen: nat): (r: Option<Error>)
    ensures r.None? <==> BufferSize(d) <= blackLen && BufferSize(d) <= redLen
    ensures blackLen < BufferSize(d) ==> r == Some(BufferTooSmall(BufferSize(d), blackLen))
    ensures BufferSize(d) <= blackLen && redLen < BufferSize(d) ==>
      r == Some(BufferTooSmall(BufferSize(d), redLen))
  {
    var required := BufferSize(d);
    if blackLen < required then Some(BufferTooSmall(required, blackLen))
    else if redLen < required then Some(BufferTooSmall(required, redLen))
    else None
  }

  /** The requirement does not depend on the rotation: it is the physical frame. */
  lemma RequiredIgnoresRotation(c: Config, blackLen: nat, redLen: nat)
    ensures CheckBuffers(c.dimensions, blackLen, redLen) == CheckBuffers(RotatedDimensions(c), blackLen, redLen)
  {
  }

  /** The logical canvas `size()` reports: the rotated dimensions, width first. */
  function CanvasSize(c: Config): (s: (nat, nat))
    ensures c.rotation in {Rotate0, Rotate180} ==> s == (c.dimensions.cols, c.dimensions.rows)
    ensures c.rotation in {Rotate90, Rotate270} ==> s == (c.dimensions.rows, c.dimensions.cols)
    ensures s.0 * s.1 == c.dimensions.rows * c.dimensions.cols
  {
    var r := RotatedDimensions(c);
    (r.cols, r.rows)
  }

  /** A 480 x 480 panel turned by 90 degrees keeps its size and needs 28800 bytes per plane. */
  lemma Square480Rotated()
    ensures var c := Build(NewBuilder().WithDimensions(Dimensions(480, 480)).WithRotation(Rotate90)).value;
            CanvasSize(c) == (480, 480) && CheckBuffers(c.dimensions, 28800, 28800).None? &&
            CheckBuffers(c.dimensions, 28799, 28800) == Some(BufferTooSmall(28800, 28799))
  {
    Panel480();
  }

  /** Logical (x, y) lies on the canvas `draw_iter` accepts. */
  predicate OnCanvas(c: Config, x: nat, y: nat)
  {
    x < CanvasSize(c).0 && y < CanvasSize(c).1
  }

  // ---------------------------------------------------------------------------
  // Pixel writes on plane contents

  /** Bits of `b` outside `mask`, and bits of `v` inside it. */
  function Blend(b: byte, mask: byte, v: byte): byte
  {
    (b & !mask) | (v & mask)
  }

  /** Clearing the masked bits (`&= !mask`) blends in an all-zero byte. */
  lemma BlendClear(b: byte, mask: byte)
    ensures b & !mask == Blend(b, mask, 0x00)
  {
  }

  /** Setting the masked bits (`|= mask`) blends in an all-one byte. */
  lemma BlendSet(b: byte, mask: byte)
    ensures b | mask == Blend(b, mask, 0xFF)
  {
  }

  /** The compound assignments `set_pixel` makes to one byte of each plane, per colour. */
  function PlaneBytes(color: Color, bw: byte, red: byte, bit: byte): (byte, byte)
  {
    match color
    case Black => (bw & !bit, red & !bit)
    case White => (bw | bit, red & !bit)
    case Red => (bw | bit, red | bit)
  }

  /** The black plane byte takes the colour's black-plane bit. */
  lemma PlaneBytesBw(color: Color, bw: byte, red: byte, bit: byte)
    ensures PlaneBytes(color, bw, red, bit).0 == Blend(bw, bit, BwByte(color))
  {
    if color == Black { BlendClear(bw, bit); } else { BlendSet(bw, bit); }
  }

  /** The red plane byte takes the colour's red-plane bit. */
  lemma PlaneBytesRed(color: Color, bw: byte, red: byte, bit: byte)
    ensures PlaneBytes(color, bw, red, bit).1 == Blend(red, bit, RedByte(color))
  {
    if color == Red { BlendSet(red, bit); } else { BlendClear(red, bit); }
  }

  /** A blend sets the masked bits to those of `v`. */
  lemma BlendInside(b: byte, mask: byte, v: byte)
    ensures Blend(b, mask, v) & mask == v & mask
  {
  }

  /** A blend keeps the bits outside the mask. */
  lemma BlendOutside(b: byte, mask: byte, v: byte)
    ensures Blend(b, mask, v) & !mask == b & !mask
  {
  }

  /** A blend leaves the bits of a disjoint mask alone. */
  lemma BlendAway(b: byte, mask: byte, v: byte, m: byte)
    requires m & mask == 0
    ensures Blend(b, mask, v) & m == b & m
  {
  }

  /** Blending both plane bytes under one mask does not change what another mask reads. */
  lemma NeighbourKept(bw: byte, red: byte, mask: byte, v: byte, w: byte, m: byte)
    requires m & mask == 0
    ensures ReadPixel(Blend(bw, mask, v), Blend(red, mask, w), m) == ReadPixel(bw, red, m)
  {
    BlendAway(bw, mask, v, m);
    BlendAway(red, mask, w, m);
  }

  /** Blending the same bits again changes nothing. */
  lemma BlendTwice(b: byte, mask: byte, v: byte)
    ensures Blend(Blend(b, mask, v), mask, v) == Blend(b, mask, v)
  {
  }

  /** Blends under disjoint masks do not interfere. */
  lemma BlendCommute(b: byte, m1: byte, v1: byte, m2: byte, v2: byte)
    requires m1 & m2 == 0
    ensures Blend(Blend(b, m1, v1), m2, v2) == Blend(Blend(b, m2, v2), m1, v1)
  {
  }

  /**
   * The colour a pixel shows, read from its bit in each plane: a clear black
   * bit is black; otherwise a set red bit is red, and a clear one white.
   */
  function ReadPixel(bw: byte, red: byte, mask: byte): Color
  {
    if bw & mask == 0 then Black else if red & mask == 0 then White else Red
  }

  /** Writing a colour's plane bytes under a one-bit mask reads back as that colour. */
  lemma ReadBack(bw: byte, red: byte, mask: byte, color: Color)
    requires OneBit(mask)
    ensures ReadPixel(Blend(bw, mask, BwByte(color)), Blend(red, mask, RedByte(color)), mask) == color
  {
    BlendInside(bw, mask, BwByte(color));
    BlendInside(red, mask, RedByte(color));
    assert mask != 0;
  }

  /** The plane buffers a configuration needs, as `new` and `try_new` demand. */
  predicate Buffers(c: Config, black: seq<byte>, red: seq<byte>)
  {
    ValidDimensions(c.dimensions) && BufferSize(c.dimensions) <= |black| && BufferSize(c.dimensions) <= |red|
  }

  /** A canvas pixel lands inside the frame: its byte index is below the buffer size. */
  lemma InFrame(c: Config, x: u32, y: u32)
    requires ValidDimensions(c.dimensions) && OnCanvas(c, x, y)
    ensures InRange(x, y, c.dimensions.cols, c.dimensions.rows, c.rotation)
    ensures ApplyRotation(x, y, c.dimensions.cols, c.dimensions.rows, c.rotation).0 < BufferSize(c.dimensions)
  {
    var d := c.dimensions;
    RotationBounds(x, y, d.cols, d.rows, c.rotation);
    assert d.cols * d.rows == d.rows * d.cols;
  }

  /**
   * `set_pixel` on the buffer contents, with the guard the canvas needs: a
   * point off the logical canvas is ignored; any other is written at its
   * rotated position, one bit of one byte in each plane. (The code's own
   * guard is `PaintAsWritten` below.)
   */
  function Paint(c: Config, black: seq<byte>, red: seq<byte>, x: u32, y: u32, color: Color): (r: (seq<byte>, seq<byte>))
    requires Buffers(c, black, red)
    ensures |r.0| == |black| && |r.1| == |red|
  {
    var d := c.dimensions;
    if !OnCanvas(c, x, y) then (black, red)
    else
      var (i, bit) := ApplyRotation(x, y, d.cols, d.rows, c.rotation);
      if i < |black| && i < |red| then WriteAt(black, red, i, bit, color) else (black, red)
  }

  /** The colour's bit under `bit` in byte `i` of both planes. */
  function WriteAt(black: seq<byte>, red: seq<byte>, i: nat, bit: byte, color: Color): (r: (seq<byte>, seq<byte>))
    requires i < |black| && i < |red|
    ensures |r.0| == |black| && |r.1| == |red|
  {
    var (bw, rd) := PlaneBytes(color, black[i], red[i], bit);
    (black[i := bw], red[i := rd])
  }

  /** A write blends the colour's plane bytes into byte `i` under the mask. */
  lemma WriteAtBlend(black: seq<byte>, red: seq<byte>, i: nat, bit: byte, color: Color)
    requires i < |black| && i < |red|
    ensures WriteAt(black, red, i, bit, color) ==
      (black[i := Blend(black[i], bit, BwByte(color))], red[i := Blend(red[i], bit, RedByte(color))])
  {
    PlaneBytesBw(color, black[i], red[i], bit);
    PlaneBytesRed(color, black[i], red[i], bit);
  }

  /** A write under a one-bit mask leaves the other pixels of the target byte as they were ... */
  lemma WriteAtKeepsNeighbours(black: seq<byte>, red: seq<byte>, i: nat, bit: byte, color: Color, m: byte)
    requires i < |black| && i < |red| && m & bit == 0
    ensures var r := WriteAt(black, red, i, bit, color);
            ReadPixel(r.0[i], r.1[i], m) == ReadPixel(black[i], red[i], m)
  {
    WriteAtBlend(black, red, i, bit, color);
    NeighbourKept(black[i], red[i], bit, BwByte(color), RedByte(color), m);
  }

  /** ... makes the pixel read back as the colour ... */
  lemma WriteAtReadsBack(black: seq<byte>, red: seq<byte>, i: nat, bit: byte, color: Color)
    requires i < |black| && i < |red| && OneBit(bit)
    ensures var r := WriteAt(black, red, i, bit, color);
            ReadPixel(r.0[i], r.1[i], bit) == color
  {
    WriteAtBlend(black, red, i, bit, color);
    ReadBack(black[i], red[i], bit, color);
  }

  /** ... and every other byte of both planes is unchanged. */
  lemma WriteAtFrame(black: seq<byte>, red: seq<byte>, i: nat, bit: byte, color: Color)
    requires i < |black| && i < |red|
    ensures var r := WriteAt(black, red, i, bit, color);
            (forall j :: 0 <= j < |black| && j != i ==> r.0[j] == black[j]) &&
            (forall j :: 0 <= j < |red| && j != i ==> r.1[j] == red[j])
  {
  }

  /** Writes under disjoint masks, or into different bytes, commute. */
  lemma WriteAtCommute(black: seq<byte>, red: seq<byte>, i1: nat, m1: byte, c1: Color, i2: nat, m2: byte, c2: Color)
    requires i1 < |black| && i1 < |red| && i2 < |black| && i2 < |red|
    requires i1 != i2 || m1 & m2 == 0
    ensures var a := WriteAt(black, red, i1, m1, c1);
            var b := WriteAt(black, red, i2, m2, c2);
            WriteAt(a.0, a.1, i2, m2, c2) == WriteAt(b.0, b.1, i1, m1, c1)
  {
    var a := WriteAt(black, red, i1, m1, c1);
    var b := WriteAt(black, red, i2, m2, c2);
    WriteAtBlend(black, red, i1, m1, c1);
    WriteAtBlend(black, red, i2, m2, c2);
    WriteAtBlend(a.0, a.1, i2, m2, c2);
    WriteAtBlend(b.0, b.1, i1, m1, c1);
    BlendAtCommute(black, i1, m1, BwByte(c1), i2, m2, BwByte(c2));
    BlendAtCommute(red, i1, m1, RedByte(c1), i2, m2, RedByte(c2));
  }

  /** One plane, byte `i` blended under `m` with `v`. */
  function BlendAt(s: seq<byte>, i: nat, m: byte, v: byte): (r: seq<byte>)
    requires i < |s|
    ensures |r| == |s|
  {
    s[i := Blend(s[i], m, v)]
  }

  lemma BlendAtTwice(s: seq<byte>, i: nat, m: byte, v: byte)
    requires i < |s|
    ensures BlendAt(BlendAt(s, i, m, v), i, m, v) == BlendAt(s, i, m, v)
  {
    BlendTwice(s[i], m, v);
    assert BlendAt(BlendAt(s, i, m, v), i, m, v) == s[i := Blend(Blend(s[i], m, v), m, v)];
  }

  lemma BlendAtCommute(s: seq<byte>, i1: nat, m1: byte, v1: byte, i2: nat, m2: byte, v2: byte)
    requires i1 < |s| && i2 < |s|
    requires i1 != i2 || m1 & m2 == 0
    ensures BlendAt(BlendAt(s, i1, m1, v1), i2, m2, v2) == BlendAt(BlendAt(s, i2, m2, v2), i1, m1, v1)
  {
    if i1 == i2 {
      BlendAtCommuteSame(s, i1, m1, v1, m2, v2);
    } else {
      BlendAtCommuteApart(s, i1, m1, v1, i2, m2, v2);
    }
  }

  lemma BlendAtCommuteSame(s: seq<byte>, i: nat, m1: byte, v1: byte, m2: byte, v2: byte)
    requires i < |s| && m1 & m2 == 0
    ensures BlendAt(BlendAt(s, i, m1, v1), i, m2, v2) == BlendAt(BlendAt(s, i, m2, v2), i, m1, v1)
  {
    BlendCommute(s[i], m1, v1, m2, v2);
    assert BlendAt(BlendAt(s, i, m1, v1), i, m2, v2) == s[i := Blend(Blend(s[i], m1, v1), m2, v2)];
    assert BlendAt(BlendAt(s, i, m2, v2), i, m1, v1) == s[i := Blend(Blend(s[i], m2, v2), m1, v1)];
  }

  lemma BlendAtCommuteApart(s: seq<byte>, i1: nat, m1: byte, v1: byte, i2: nat, m2: byte, v2: byte)
    requires i1 < |s| && i2 < |s| && i1 != i2
    ensures BlendAt(BlendAt(s, i1, m1, v1), i2, m2, v2) == BlendAt(BlendAt(s, i2, m2, v2), i1, m1, v1)
  {
  }

  /** A canvas pixel is written at its rotated position. */
  lemma PaintAt(c: Config, black: seq<byte>, red: seq<byte>, x: u32, y: u32, color: Color)
    requires Buffers(c, black, red) && OnCanvas(c, x, y)
    ensures var t := ApplyRotation(x, y, c.dimensions.cols, c.dimensions.rows, c.rotation);
            t.0 < BufferSize(c.dimensions) && Paint(c, black, red, x, y, color) == WriteAt(black, red, t.0, t.1, color)
  {
    InFrame(c, x, y);
  }

  /**
   * What a pixel write does: nothing off the canvas; on it, the pixel reads
   * back as the colour and every byte but the target one is unchanged in
   * both planes.
   */
  lemma PaintEffect(c: Config, black: seq<byte>, red: seq<byte>, x: u32, y: u32, color: Color)
    requires Buffers(c, black, red)
    ensures var d := c.dimensions;
            var r := Paint(c, black, red, x, y, color);
            if !OnCanvas(c, x, y) then r == (black, red)
            else
              var (i, bit) := ApplyRotation(x, y, d.cols, d.rows, c.rotation);
              i < BufferSize(d) && ReadPixel(r.0[i], r.1[i], bit) == color &&
              (forall j :: 0 <= j < |black| && j != i ==> r.0[j] == black[j]) &&
              (forall j :: 0 <= j < |red| && j != i ==> r.1[j] == red[j])
  {
    var d := c.dimensions;
    if OnCanvas(c, x, y) {
      PaintAt(c, black, red, x, y, color);
      var (i, bit) := ApplyRotation(x, y, d.cols, d.rows, c.rotation);
      WriteAtReadsBack(black, red, i, bit, color);
      WriteAtFrame(black, red, i, bit, color);
    }
  }

  /** The colour canvas pixel (x, y) shows. */
  function PixelAt(c: Config, black: seq<byte>, red: seq<byte>, x: u32, y: u32): Color
    requires Buffers(c, black, red) && OnCanvas(c, x, y)
  {
    InFrame(c, x, y);
    var (i, bit) := ApplyRotation(x, y, c.dimensions.cols, c.dimensions.rows, c.rotation);
    ReadPixel(black[i], red[i], bit)
  }

  /** Writing a pixel makes it show the colour and leaves every other pixel as it was. */
  lemma PaintPixels(c: Config, black: seq<byte>, red: seq<byte>, x: u32, y: u32, color: Color, x2: u32, y2: u32)
    requires Buffers(c, black, red) && OnCanvas(c, x, y) && OnCanvas(c, x2, y2)
    ensures var r := Paint(c, black, red, x, y, color);
            PixelAt(c, r.0, r.1, x2, y2) == if (x2, y2) == (x, y) then color else PixelAt(c, black, red, x2, y2)
  {
    var d := c.dimensions;
    PaintAt(c, black, red, x, y, color);
    InFrame(c, x2, y2);
    var (i, bit) := ApplyRotation(x, y, d.cols, d.rows, c.rotation);
    var (i2, bit2) := ApplyRotation(x2, y2, d.cols, d.rows, c.rotation);
    if (x2, y2) == (x, y) {
      WriteAtReadsBack(black, red, i, bit, color);
    } else if i2 == i {
      if bit2 == bit {
        RotationInjective(x, y, x2, y2, d.cols, d.rows, c.rotation);
        assert false;
      }
      OneBitsDisjoint(bit2, bit);
      WriteAtKeepsNeighbours(black, red, i, bit, color, bit2);
    } else {
      WriteAtFrame(black, red, i, bit, color);
    }
  }

  /** Writing the same pixel twice is writing it once. */
  lemma PaintIdempotent(c: Config, black: seq<byte>, red: seq<byte>, x: u32, y: u32, color: Color)
    requires Buffers(c, black, red)
    ensures var r := Paint(c, black, red, x, y, color);
            Paint(c, r.0, r.1, x, y, color) == r
  {
    if OnCanvas(c, x, y) {
      PaintAt(c, black, red, x, y, color);
      var (i, bit) := ApplyRotation(x, y, c.dimensions.cols, c.dimensions.rows, c.rotation);
      WriteAtTwice(black, red, i, bit, color);
    }
  }

  /** The same write twice is the write once. */
  lemma WriteAtTwice(black: seq<byte>, red: seq<byte>, i: nat, bit: byte, color: Color)
    requires i < |black| && i < |red|
    ensures var r := WriteAt(black, red, i, bit, color);
            WriteAt(r.0, r.1, i, bit, color) == r
  {
    var r := WriteAt(black, red, i, bit, color);
    WriteAtBlend(black, red, i, bit, color);
    WriteAtBlend(r.0, r.1, i, bit, color);
    BlendAtTwice(black, i, bit, BwByte(color));
    BlendAtTwice(red, i, bit, RedByte(color));
  }

  /** Writes to two different pixels commute: drawing order only matters per pixel. */
  lemma PaintCommute(c: Config, black: seq<byte>, red: seq<byte>,
                     x1: u32, y1: u32, c1: Color, x2: u32, y2: u32, c2: Color)
    requires Buffers(c, black, red) && (x1, y1) != (x2, y2)
    ensures var a := Paint(c, black, red, x1, y1, c1);
            var b := Paint(c, black, red, x2, y2, c2);
            Paint(c, a.0, a.1, x2, y2, c2) == Paint(c, b.0, b.1, x1, y1, c1)
  {
    var d := c.dimensions;
    if OnCanvas(c, x1, y1) && OnCanvas(c, x2, y2) {
      InFrame(c, x1, y1);
      InFrame(c, x2, y2);
      var (i1, m1) := ApplyRotation(x1, y1, d.cols, d.rows, c.rotation);
      var (i2, m2) := ApplyRotation(x2, y2, d.cols, d.rows, c.rotation);
      if i1 == i2 && m1 == m2 {
        RotationInjective(x1, y1, x2, y2, d.cols, d.rows, c.rotation);
        assert false;
      }
      if i1 == i2 {
        OneBitsDisjoint(m1, m2);
      }
      WriteAtCommute(black, red, i1, m1, c1, i2, m2, c2);
    }
  }

  /** Two different one-bit masks share no bit. */
  lemma OneBitsDisjoint(m1: byte, m2: byte)
    requires OneBit(m1) && OneBit(m2) && m1 != m2
    ensures m1 & m2 == 0
  {
  }

  // ---------------------------------------------------------------------------
  // Drawing a sequence of pixels

  /**
   * One pixel of `draw_iter`: points with a negative coordinate, or outside
   * the logical canvas, are skipped; the rest go to `set_pixel`.
   */
  function DrawOne(c: Config, black: seq<byte>, red: seq<byte>, p: Pixel): (r: (seq<byte>, seq<byte>))
    requires Buffers(c, black, red)
    ensures |r.0| == |black| && |r.1| == |red|
  {
    if p.x < 0 || p.y < 0 then (black, red)
    else if !OnCanvas(c, p.x, p.y) then (black, red)
    else Paint(c, black, red, p.x as u32, p.y as u32, p.color)
  }

  /** `draw_iter` on the buffer contents: the pixels in order. */
  function DrawAll(c: Config, black: seq<byte>, red: seq<byte>, ps: seq<Pixel>): (r: (seq<byte>, seq<byte>))
    requires Buffers(c, black, red)
    ensures |r.0| == |black| && |r.1| == |red|
    decreases |ps|
  {
    if ps == [] then (black, red)
    else
      var q := DrawAll(c, black, red, ps[..|ps| - 1]);
      DrawOne(c, q.0, q.1, ps[|ps| - 1])
  }

  /** Drawing two batches is drawing their concatenation. */
  lemma {:induction false} DrawAppend(c: Config, black: seq<byte>, red: seq<byte>, a: seq<Pixel>, b: seq<Pixel>)
    requires Buffers(c, black, red)
    ensures var q := DrawAll(c, black, red, a);
            DrawAll(c, q.0, q.1, b) == DrawAll(c, black, red, a + b)
    decreases |b|
  {
    if b == [] {
      assert a + b == a;
    } else {
      var b' := b[..|b| - 1];
      DrawAppend(c, black, red, a, b');
      assert (a + b)[..|a + b| - 1] == a + b';
    }
  }

  /** Pixels that all fall off the canvas leave both planes untouched. */
  lemma {:induction false} DrawOffCanvas(c: Config, black: seq<byte>, red: seq<byte>, ps: seq<Pixel>)
    requires Buffers(c, black, red)
    requires forall k :: 0 <= k < |ps| ==> ps[k].x < 0 || ps[k].y < 0 || !OnCanvas(c, ps[k].x, ps[k].y)
    ensures DrawAll(c, black, red, ps) == (black, red)
    decreases |ps|
  {
    if ps != [] {
      DrawOffCanvas(c, black, red, ps[..|ps| - 1]);
    }
  }

  /** A canvas pixel drawn last shows its colour, whatever was drawn before. */
  lemma DrawLastWins(c: Config, black: seq<byte>, red: seq<byte>, ps: seq<Pixel>, p: Pixel)
    requires Buffers(c, black, red) && 0 <= p.x && 0 <= p.y && OnCanvas(c, p.x, p.y)
    ensures var r := DrawAll(c, black, red, ps + [p]);
            var (i, bit) := ApplyRotation(p.x, p.y, c.dimensions.cols, c.dimensions.rows, c.rotation);
            i < |r.0| && i < |r.1| && ReadPixel(r.0[i], r.1[i], bit) == p.color
  {
    var q := DrawAll(c, black, red, ps);
    assert (ps + [p])[..|ps + [p]| - 1] == ps;
    assert DrawAll(c, black, red, ps + [p]) == Paint(c, q.0, q.1, p.x, p.y, p.color);
    PaintAt(c, q.0, q.1, p.x, p.y, p.color);
    var (i, bit) := ApplyRotation(p.x, p.y, c.dimensions.cols, c.dimensions.rows, c.rotation);
    WriteAtReadsBack(q.0, q.1, i, bit, p.color);
  }

  // ---------------------------------------------------------------------------
  // The guard as the code writes it

  /**
   * The guard `set_pixel` applies compares x with the panel's columns and y
   * with its rows. `draw_iter` has already limited the point to the logical
   * canvas, which at 90 and 270 degrees is rows wide and columns high. On a
   * panel that is not square the guard then drops the strip of the canvas
   * beyond the shorter side.
   */
  predicate PhysicalGuard(c: Config, x: nat, y: nat)
  {
    x < c.dimensions.cols && y < c.dimensions.rows
  }

  /**
   * Where `set_pixel` as written puts logical (x, y): the physical guard, then
   * the rotation, then the black buffer's length.
   */
  function Target(c: Config, x: u32, y: u32, len: nat): (t: Option<(nat, byte)>)
    requires ValidDimensions(c.dimensions)
    ensures t.Some? <==> PhysicalGuard(c, x, y) &&
                         ApplyRotation(x, y, c.dimensions.cols, c.dimensions.rows, c.rotation).0 < len
    ensures t.Some? ==> t.value == ApplyRotation(x, y, c.dimensions.cols, c.dimensions.rows, c.rotation)
    ensures t.Some? ==> t.value.0 < len && OneBit(t.value.1)
  {
    var d := c.dimensions;
    if x >= d.cols || y >= d.rows then None
    else
      var (i, bit) := ApplyRotation(x, y, d.cols, d.rows, c.rotation);
      if i >= len then None else Some((i, bit))
  }

  /**
   * `set_pixel` as written, on the buffer contents. `None` stands for the
   * panic of an index that passes the black buffer's length check but lies
   * past the end of the red buffer, which the code indexes unchecked.
   */
  function PaintAsWritten(c: Config, black: seq<byte>, red: seq<byte>, x: u32, y: u32, color: Color): (r: Option<(seq<byte>, seq<byte>)>)
    requires Buffers(c, black, red)
    ensures r.None? <==> Target(c, x, y, |black|).Some? && Target(c, x, y, |black|).value.0 >= |red|
    ensures r.Some? ==> |r.value.0| == |black| && |r.value.1| == |red|
  {
    match Target(c, x, y, |black|)
    case None => Some((black, red))
    case Some((i, bit)) => if i < |red| then Some(WriteAt(black, red, i, bit, color)) else None
  }

  /** An 800-column, 480-row panel turned by 90 degrees. */
  function Portrait(): (c: Config)
    ensures ValidDimensions(c.dimensions) && c.rotation == Rotate90
    ensures c.dimensions == Dimensions(480, 800) && CanvasSize(c) == (480, 800)
  {
    Build(NewBuilder().WithDimensions(Dimensions(480, 800)).WithRotation(Rotate90)).value
  }

  /**
   * Pixel (0, 600) of that canvas is a real pixel of the frame (byte 24, bit
   * 0x01), yet `set_pixel` as written, and so `draw_iter` as written, leave
   * both planes unchanged, where the corrected write makes it show the colour.
   */
  lemma GuardDropsCanvasPixel(black: seq<byte>, red: seq<byte>, color: Color)
    requires Buffers(Portrait(), black, red)
    ensures OnCanvas(Portrait(), 0, 600) && !PhysicalGuard(Portrait(), 0, 600)
    ensures ApplyRotation(0, 600, 800, 480, Rotate90) == (24, 0x01) && 24 < BufferSize(Portrait().dimensions)
    ensures PaintAsWritten(Portrait(), black, red, 0, 600, color) == Some((black, red))
    ensures DrawAllAsWritten(Portrait(), black, red, [Pixel(0, 600, color)]) == Some((black, red))
    ensures var r := Paint(Portrait(), black, red, 0, 600, color);
            ReadPixel(r.0[24], r.1[24], 0x01) == color
  {
    PaintEffect(Portrait(), black, red, 0, 600, color);
    assert [Pixel(0, 600, color)][..0] == [];
  }

  /**
   * The panic: point (600, 0) of that panel passes the physical guard though
   * it is off the canvas, and its wrapped index 60099 passes a 60100-byte
   * black buffer but not a 48000-byte red one.
   */
  lemma PanicPastRed(black: seq<byte>, red: seq<byte>, color: Color)
    requires |black| == 60100 && |red| == 48000
    ensures Buffers(Portrait(), black, red)
    ensures PhysicalGuard(Portrait(), 600, 0) && !OnCanvas(Portrait(), 600, 0)
    ensures Target(Portrait(), 600, 0, |black|) == Some((60099, 0x01))
    ensures PaintAsWritten(Portrait(), black, red, 600, 0, color).None?
  {
  }

  /** Both guards agree on 0 and 180 degrees and on square panels. */
  lemma GuardsAgree(c: Config, x: nat, y: nat)
    requires c.rotation in {Rotate0, Rotate180} || c.dimensions.rows == c.dimensions.cols
    ensures PhysicalGuard(c, x, y) <==> OnCanvas(c, x, y)
  {
  }

  /**
   * On the canvas the written version never panics: it is the corrected
   * write where the written guard passes the point, and no change where it
   * does not.
   */
  lemma PaintAsWrittenAgrees(c: Config, black: seq<byte>, red: seq<byte>, x: u32, y: u32, color: Color)
    requires Buffers(c, black, red) && OnCanvas(c, x, y)
    ensures PaintAsWritten(c, black, red, x, y, color) ==
      if PhysicalGuard(c, x, y) then Some(Paint(c, black, red, x, y, color)) else Some((black, red))
  {
    InFrame(c, x, y);
  }

  /** A canvas pixel of `draw_iter` that the written guard drops. */
  predicate Dropped(c: Config, p: Pixel)
  {
    0 <= p.x && 0 <= p.y && OnCanvas(c, p.x, p.y) && !PhysicalGuard(c, p.x, p.y)
  }

  /** The pixels the written guard keeps, in order. */
  function Survivors(c: Config, ps: seq<Pixel>): (r: seq<Pixel>)
    ensures |r| <= |ps|
    ensures forall p :: p in r <==> p in ps && !Dropped(c, p)
    decreases |ps|
  {
    if ps == [] then []
    else
      assert ps == ps[..|ps| - 1] + [ps[|ps| - 1]];
      var rest := Survivors(c, ps[..|ps| - 1]);
      if Dropped(c, ps[|ps| - 1]) then rest else rest + [ps[|ps| - 1]]
  }

  /** One pixel of `draw_iter` as written: its canvas filter, then `set_pixel` as written. */
  function DrawOneAsWritten(c: Config, black: seq<byte>, red: seq<byte>, p: Pixel): (r: Option<(seq<byte>, seq<byte>)>)
    requires Buffers(c, black, red)
    ensures r.Some? ==> |r.value.0| == |black| && |r.value.1| == |red|
  {
    if p.x < 0 || p.y < 0 then Some((black, red))
    else if !OnCanvas(c, p.x, p.y) then Some((black, red))
    else PaintAsWritten(c, black, red, p.x as u32, p.y as u32, p.color)
  }

  /** `draw_iter` as written on the buffer contents; `None` if some pixel panics. */
  function DrawAllAsWritten(c: Config, black: seq<byte>, red: seq<byte>, ps: seq<Pixel>): (r: Option<(seq<byte>, seq<byte>)>)
    requires Buffers(c, black, red)
    ensures r.Some? ==> |r.value.0| == |black| && |r.value.1| == |red|
    decreases |ps|
  {
    if ps == [] then Some((black, red))
    else
      match DrawAllAsWritten(c, black, red, ps[..|ps| - 1])
      case None => None
      case Some(q) => DrawOneAsWritten(c, q.0, q.1, ps[|ps| - 1])
  }

  /**
   * `draw_iter` as written never panics, and it is the corrected drawing of
   * the pixels the written guard keeps: the two differ exactly by the
   * dropped canvas pixels.
   */
  lemma {:induction false} DrawAsWritten(c: Config, black: seq<byte>, red: seq<byte>, ps: seq<Pixel>)
    requires Buffers(c, black, red)
    ensures DrawAllAsWritten(c, black, red, ps) == Some(DrawAll(c, black, red, Survivors(c, ps)))
    decreases |ps|
  {
    if ps != [] {
      var front, p := ps[..|ps| - 1], ps[|ps| - 1];
      DrawAsWritten(c, black, red, front);
      var q := DrawAll(c, black, red, Survivors(c, front));
      if 0 <= p.x && 0 <= p.y && OnCanvas(c, p.x, p.y) {
        PaintAsWrittenAgrees(c, q.0, q.1, p.x as u32, p.y as u32, p.color);
      }
      if !Dropped(c, p) {
        var s := Survivors(c, front) + [p];
        assert s[..|s| - 1] == Survivors(c, front);
      }
    }
  }

  /** A batch the written guard drops nothing from survives whole. */
  lemma {:induction false} SurvivorsAll(c: Config, ps: seq<Pixel>)
    requires forall k :: 0 <= k < |ps| ==> !Dropped(c, ps[k])
    ensures Survivors(c, ps) == ps
    decreases |ps|
  {
    if ps != [] {
      SurvivorsAll(c, ps[..|ps| - 1]);
      assert ps == ps[..|ps| - 1] + [ps[|ps| - 1]];
    }
  }

  /** At 0 and 180 degrees and on square panels, `draw_iter` as written is the corrected one. */
  lemma DrawAsWrittenAgrees(c: Config, black: seq<byte>, red: seq<byte>, ps: seq<Pixel>)
    requires Buffers(c, black, red)
    requires c.rotation in {Rotate0, Rotate180} || c.dimensions.rows == c.dimensions.cols
    ensures DrawAllAsWritten(c, black, red, ps) == Some(DrawAll(c, black, red, ps))
  {
    forall k | 0 <= k < |ps| && 0 <= ps[k].x && 0 <= ps[k].y
      ensures !Dropped(c, ps[k])
    {
      GuardsAgree(c, ps[k].x, ps[k].y);
    }
    SurvivorsAll(c, ps);
    DrawAsWritten(c, black, red, ps);
  }

  // ---------------------------------------------------------------------------
  // The graphic display

  class GraphicDisplay {
    const display: Display
    const black: array<byte>
    const red: array<byte>

    /** The display is usable and each plane buffer holds the physical frame. */
    ghost predicate Valid()
    {
      black != red && display.Valid() &&
      BufferSize(display.config.dimensions) <= black.Length &&
      BufferSize(display.config.dimensions) <= red.Length
    }

    /** `new`: panics (here: may not be called) unless both buffers are large enough. */
    constructor (display: Display, black: array<byte>, red: array<byte>)
      requires display.Valid() && black != red
      requires CheckBuffers(display.config.dimensions, black.Length, red.Length).None?
      ensures Valid()
      ensures this.display == display && this.black == black && this.red == red
    {
      this.display := display;
      this.black := black;
      this.red := red;
    }

    /** `try_new`: the same check, reported as `BufferTooSmall`. */
    static method TryNew(display: Display, black: array<byte>, red: array<byte>)
      returns (r: Result<GraphicDisplay, Error>)
      requires display.Valid() && black != red
      ensures r.Err? <==> CheckBuffers(display.config.dimensions, black.Length, red.Length).Some?
      ensures r.Err? ==> Some(r.error) == CheckBuffers(display.config.dimensions, black.Length, red.Length)
      ensures r.Ok? ==> r.value.Valid() && r.value.display == display
      ensures r.Ok? ==> r.value.black == black && r.value.red == red
    {
      var e := CheckBuffers(display.config.dimensions, black.Length, red.Length);
      if e.Some? {
        return Err(e.value);
      }
      var g := new GraphicDisplay(display, black, red);
      return Ok(g);
    }

    /** `size`: the logical canvas, width first. */
    function Size(): (s: (u32, u32))
      requires Valid()
      ensures s == CanvasSize(display.config)
    {
      var r := RotatedDimensions(display.config);
      (r.cols, r.rows)
    }

    /** `clear`: every byte of each plane becomes the colour's plane byte. */
    method Clear(color: Color)
      requires Valid()
      modifies black, red
      ensures forall i :: 0 <= i < black.Length ==> black[i] == BwByte(color)
      ensures forall i :: 0 <= i < red.Length ==> red[i] == RedByte(color)
    {
      var bw, rd := BwByte(color), RedByte(color);
      var i := 0;
      while i < black.Length
        invariant 0 <= i <= black.Length
        invariant forall j :: 0 <= j < i ==> black[j] == bw
      {
        black[i] := bw;
        i := i + 1;
      }
      i := 0;
      while i < red.Length
        invariant 0 <= i <= red.Length
        invariant forall j :: 0 <= j < i ==> red[j] == rd
        invariant forall j :: 0 <= j < black.Length ==> black[j] == bw
      {
        red[i] := rd;
        i := i + 1;
      }
    }

    /**
     * `set_pixel`, with its guard taken against the logical canvas (see
     * `GuardDropsCanvasPixel`): the rotation's bit of the target byte in
     * both planes.
     */
    method SetPixel(x: u32, y: u32, color: Color)
      requires Valid()
      modifies black, red
      ensures (black[..], red[..]) == Paint(display.config, old(black[..]), old(red[..]), x, y, color)
    {
      var sz := Size();
      if x >= sz.0 || y >= sz.1 {
        return;
      }
      var d := display.config.dimensions;
      var (index, bit) := ApplyRotation(x, y, d.cols, d.rows, display.config.rotation);
      InFrame(display.config, x, y);
      if index >= black.Length {
        return;
      }
      WriteBit(index, bit, color);
    }

    /** The colour's compound assignments of `set_pixel` to byte `index` of both planes. */
    method WriteBit(index: nat, bit: byte, color: Color)
      requires Valid() && index < black.Length && index < red.Length
      modifies black, red
      ensures (black[..], red[..]) == WriteAt(old(black[..]), old(red[..]), index, bit, color)
    {
      var (bw, rd) := PlaneBytes(color, black[index], red[index], bit);
      black[index] := bw;
      red[index] := rd;
    }

    /** `draw_iter`: each pixel in order, skipping those off the canvas. */
    method DrawIter(pixels: seq<Pixel>)
      requires Valid()
      modifies black, red
      ensures (black[..], red[..]) == DrawAll(display.config, old(black[..]), old(red[..]), pixels)
    {
      var sz := Size();
      var k := 0;
      while k < |pixels|
        invariant 0 <= k <= |pixels|
        invariant (black[..], red[..]) == DrawAll(display.config, old(black[..]), old(red[..]), pixels[..k])
      {
        var p := pixels[k];
        assert pixels[..k + 1][..k] == pixels[..k];
        if p.x < 0 || p.y < 0 {
        } else if p.x >= sz.0 || p.y >= sz.1 {
        } else {
          SetPixel(p.x as u32, p.y as u32, p.color);
        }
        k := k + 1;
      }
      assert pixels[..k] == pixels;
    }

    /** `update`: both planes, as they are now, with a Full refresh. */
    method Update() returns (r: Outcome)
      requires Valid()
      modifies display, display.bus
      ensures (display.Now(), r) ==
        Run(UpdatePlan(display.config, old(display.isDisplayOn), display.lutPartial, display.lutFast,
                       black[..], red[..], Full, true), old(display.Now()))
    {
      r := display.Update(black[..], red[..]);
    }

    /** `update_with_mode`: both planes with the given refresh mode. */
    method UpdateWithMode(mode: RefreshMode) returns (r: Outcome)
      requires Valid()
      modifies display, display.bus
      ensures (display.Now(), r) ==
        Run(UpdatePlan(display.config, old(display.isDisplayOn), display.lutPartial, display.lutFast,
                       black[..], red[..], mode, true), old(display.Now()))
    {
      r := display.UpdateWithMode(black[..], red[..], mode);
    }
  }

  /** After `clear`, every pixel of the frame reads back as the colour. */
  lemma ClearReadsBack(color: Color, mask: byte)
    requires OneBit(mask)
    ensures ReadPixel(BwByte(color), RedByte(color), mask) == color
  {
    assert mask != 0;
  }
}
