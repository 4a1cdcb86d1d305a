// The pure part of `set_ram_area` (src/display.rs): rectangle validation,
// the controller RAM window derived from the rectangle, and the register
// writes that program it.
module RamArea {
  import opened Command
  import opened Errors
  import opened Config
  import opened Interface

  /** `u16::saturating_add`. */
  function SatAdd16(a: u16, b: u16): (r: u16)
    ensures r == if a + b < 0x1_0000 then a + b else 0xFFFF
  {
    if a + b > 0xFFFF then 0xFFFF else a + b
  }

  /** The rejection, if any, of rectangle (x, y, w, h) on panel `d`. */
  function AreaError(d: Dimensions, x: u16, y: u16, w: u16, h: u16): (r: Option<Error>)
    ensures r.Some? ==> r.value == InvalidRamArea(x, y, w, h)
    ensures r.None? <==>
      && w != 0 && h != 0
      && SatAdd16(x, w) <= d.cols && SatAdd16(y, h) <= d.rows
      && x % 8 == 0 && w % 8 == 0
  {
    if w == 0 || h == 0 then Some(InvalidRamArea(x, y, w, h))
    else if SatAdd16(x, w) > d.cols || SatAdd16(y, h) > d.rows then Some(InvalidRamArea(x, y, w, h))
    else if x % 8 != 0 || w % 8 != 0 then Some(InvalidRamArea(x, y, w, h))
    else None
  }

  /** An accepted rectangle lies inside a panel that `Dimensions::new` admits. */
  lemma AcceptedInside(d: Dimensions, x: u16, y: u16, w: u16, h: u16)
    requires ValidDimensions(d) && AreaError(d, x, y, w, h).None?
    ensures 0 < w && 0 < h && x + w <= d.cols && y + h <= d.rows
  {
  }

  /** Data-entry-mode bit 0 (ID0): X counts up. Bit 1 (ID1): Y counts up. */
  predicate XIncrements(dem: byte) { dem & 0x01 != 0 }
  predicate YIncrements(dem: byte) { dem & 0x02 != 0 }

  /** Start and end addresses of the RAM window, in the order the counters run. */
  datatype Window = Window(xStart: nat, xEnd: nat, yStart: nat, yEnd: nat)

  /**
   * First and last RAM column of the rectangle: pixel addresses, or byte
   * addresses when the panel addresses X in bytes.
   */
  function ColumnSpan(c: Config, x: u16, w: u16): (s: (nat, nat))
    requires ValidDimensions(c.dimensions) && AreaError(c.dimensions, x, 0, w, 1).None?
    ensures c.ramXAddressing == Pixels ==> s == (x, x + w - 1) && s.1 < c.dimensions.cols
    ensures c.ramXAddressing == Bytes ==>
      8 * s.0 == x && s.1 - s.0 + 1 == w / 8 && s.1 < c.dimensions.cols / 8
  {
    match c.ramXAddressing
    case Pixels => (x, x + w - 1)
    case Bytes => (x / 8, (x + w - 1) / 8)
  }

  /**
   * First and last RAM row of the rectangle: its own rows, or their mirror
   * image (row r becomes rows - 1 - r) on a panel wired with Y inverted.
   */
  function RowSpan(c: Config, y: u16, h: u16): (s: (nat, nat))
    requires ValidDimensions(c.dimensions) && 0 < h && y + h <= c.dimensions.rows
    ensures !c.ramYInverted ==> s == (y, y + h - 1)
    ensures c.ramYInverted ==> s == (c.dimensions.rows - 1 - (y + h - 1), c.dimensions.rows - 1 - y)
    ensures s.0 <= s.1 < c.dimensions.rows
  {
    var base := if c.ramYInverted then c.dimensions.rows - y - h else y;
    (base, base + h - 1)
  }

  /**
   * The window `set_ram_area` programs: each span in ascending order when
   * its direction bit is set, descending when it is clear.
   */
  function RamWindow(c: Config, x: u16, y: u16, w: u16, h: u16): (win: Window)
    requires ValidDimensions(c.dimensions) && AreaError(c.dimensions, x, y, w, h).None?
    ensures var xs := ColumnSpan(c, x, w);
      (win.xStart, win.xEnd) == if XIncrements(c.dataEntryMode) then xs else (xs.1, xs.0)
    ensures var ys := RowSpan(c, y, h);
      (win.yStart, win.yEnd) == if YIncrements(c.dataEntryMode) then ys else (ys.1, ys.0)
    ensures win.xStart < c.dimensions.cols && win.xEnd < c.dimensions.cols
    ensures win.yStart < c.dimensions.rows && win.yEnd < c.dimensions.rows
  {
    assert AreaError(c.dimensions, x, 0, w, 1).None?;
    var xs := ColumnSpan(c, x, w);
    var ys := RowSpan(c, y, h);
    var (xStart, xEnd) := if XIncrements(c.dataEntryMode) then xs else (xs.1, xs.0);
    var (yStart, yEnd) := if YIncrements(c.dataEntryMode) then ys else (ys.1, ys.0);
    Window(xStart, xEnd, yStart, yEnd)
  }

  /** Low and high byte of a 16-bit register value, as sent on the wire. */
  function Lo(v: nat): byte
    requires v < 0x1_0000
  {
    (v % 256) as byte
  }

  function Hi(v: nat): byte
    requires v < 0x1_0000
  {
    (v / 256) as byte
  }

  /** Reassemble a 16-bit value from its low and high byte. */
  function Le16(lo: byte, hi: byte): (v: nat)
    ensures v < 0x1_0000
  {
    lo as nat + 256 * hi as nat
  }

  lemma ByteValue(k: nat)
    requires k < 256
    ensures (k as byte) as nat == k
  {
    ByteMod(k);
    SmallMod(k);
  }

  // The solver turns a conversion round trip into `% 256` at once, but is
  // slow to do that and drop the `% 256` in the same proof.
  lemma ByteMod(k: nat)
    requires k < 256
    ensures (k as byte) as nat == k % 256
  {
  }

  lemma SmallMod(k: nat)
    requires k < 256
    ensures k % 256 == k
  {
  }

  lemma Le16RoundTrip(v: nat)
    requires v < 0x1_0000
    ensures Le16(Lo(v), Hi(v)) == v
  {
    ByteValue(v % 256);
    ByteValue(v / 256);
    assert (v % 256) + 256 * (v / 256) == v;
  }

  /** Whether window `win` fits the 16-bit registers. */
  predicate Fits16(win: Window)
  {
    win.xStart < 0x1_0000 && win.xEnd < 0x1_0000 && win.yStart < 0x1_0000 && win.yEnd < 0x1_0000
  }

  /**
   * The five register writes of an accepted `set_ram_area`: data entry mode,
   * X range, Y range, X counter, Y counter; each 16-bit value low byte first.
   */
  function WindowEvents(dem: byte, win: Window): (es: seq<Event>)
    requires Fits16(win)
    ensures |es| == 10
  {
    [Cmd(DATA_ENTRY_MODE), Data([dem]),
     Cmd(SET_RAM_X_RANGE), Data([Lo(win.xStart), Hi(win.xStart), Lo(win.xEnd), Hi(win.xEnd)]),
     Cmd(SET_RAM_Y_RANGE), Data([Lo(win.yStart), Hi(win.yStart), Lo(win.yEnd), Hi(win.yEnd)]),
     Cmd(SET_RAM_X_COUNTER), Data([Lo(win.xStart), Hi(win.xStart)]),
     Cmd(SET_RAM_Y_COUNTER), Data([Lo(win.yStart), Hi(win.yStart)])]
  }

  /**
   * What a controller reads back from those ten writes: the data entry mode
   * and the window, provided the register sequence is the one above and the
   * counters start at the range starts.
   */
  function DecodeWindow(es: seq<Event>): (r: Option<(byte, Window)>)
  {
    if |es| == 10
       && es[0] == Cmd(DATA_ENTRY_MODE) && es[1].Data? && |es[1].bytes| == 1
       && es[2] == Cmd(SET_RAM_X_RANGE) && es[3].Data? && |es[3].bytes| == 4
       && es[4] == Cmd(SET_RAM_Y_RANGE) && es[5].Data? && |es[5].bytes| == 4
       && es[6] == Cmd(SET_RAM_X_COUNTER) && es[7].Data? && es[7].bytes == es[3].bytes[..2]
       && es[8] == Cmd(SET_RAM_Y_COUNTER) && es[9].Data? && es[9].bytes == es[5].bytes[..2]
    then
      var xr, yr := es[3].bytes, es[5].bytes;
      Some((es[1].bytes[0], Window(Le16(xr[0], xr[1]), Le16(xr[2], xr[3]), Le16(yr[0], yr[1]), Le16(yr[2], yr[3]))))
    else None
  }

  /** The register writes decode back to the data entry mode and the window. */
  lemma WindowRoundTrip(dem: byte, win: Window)
    requires Fits16(win)
    ensures DecodeWindow(WindowEvents(dem, win)) == Some((dem, win))
  {
    var es := WindowEvents(dem, win);
    assert es[7].bytes == es[3].bytes[..2];
    assert es[9].bytes == es[5].bytes[..2];
    Le16RoundTrip(win.xStart);
    Le16RoundTrip(win.xEnd);
    Le16RoundTrip(win.yStart);
    Le16RoundTrip(win.yEnd);
  }
}
