// What the plans of src/display.rs promise: the exact calls of each
// operation, the validation each performs before sending anything, the
// order of its checks, and where the power flag changes.
module DisplayFacts {
  import opened Command
  import opened Errors
  import opened Config
  import opened Interface
  import opened Trace
  import opened RamArea
  import opened Display

  /** A refresh is CTRL1, CTRL2, activation and a busy wait; the flag moves after CTRL1's data. */
  lemma RefreshTrace(c: Config, wasOn: bool, mode: RefreshMode, turnOff: bool, useRed: bool)
    ensures var p := RefreshPlan(c, wasOn, mode, turnOff, useRed);
      && p.events == [Cmd(DISPLAY_UPDATE_CTRL1), Data([Ctrl1(useRed)]),
                      Cmd(DISPLAY_UPDATE_CTRL2), Data([Ctrl2(ModeCtrl2(c, mode), c.powerOn, c.powerOff, wasOn, turnOff)]),
                      Cmd(MASTER_ACTIVATION), BusyWait]
      && p.switch == Some(Switch(2, !turnOff))
      && p.stop == Done
  {
  }

  /**
   * The flag after a refresh: `!turnOff` once CTRL1 and its byte are out
   * (even if CTRL2 then fails), unchanged if CTRL1 fails; on success the
   * calls end with master activation and a busy wait.
   */
  lemma RefreshFlag(c: Config, mode: RefreshMode, turnOff: bool, useRed: bool, s: Snap)
    ensures var p := RefreshPlan(c, s.on, mode, turnOff, useRed);
      var (t, o) := Run(p, s);
      && (s.budget < 2 ==> t.on == s.on && o == Failed(Interface))
      && (2 <= s.budget ==> t.on == !turnOff)
      && (6 <= s.budget ==> o == Done && t.log == s.log + p.events
                            && t.log[|t.log| - 2..] == [Cmd(MASTER_ACTIVATION), BusyWait])
  {
    var p := RefreshPlan(c, s.on, mode, turnOff, useRed);
    RefreshTrace(c, s.on, mode, turnOff, useRed);
    if 6 <= s.budget {
      RunComplete(p, s);
      assert Run(p, s).0.log[|Run(p, s).0.log| - 2..] == p.events[4..];
    }
  }

  /** CTRL1 reads red RAM exactly when asked to. */
  lemma Ctrl1Choice(useRed: bool)
    ensures Ctrl1(useRed) == CTRL1_NORMAL <==> useRed
    ensures Ctrl1(useRed) == CTRL1_BYPASS_RED <==> !useRed
  {
  }

  /**
   * Deep sleep: when the panel is on, CTRL1 bypass, CTRL2 0x03 (not the
   * configured power-off bits), activation and busy wait, then the flag
   * cleared; always DEEP_SLEEP with the mode's byte last.
   */
  lemma DeepSleepTrace(wasOn: bool, mode: DeepSleepMode)
    ensures var p := DeepSleepPlan(wasOn, mode);
      && p.stop == Done
      && (wasOn ==> p.events == [Cmd(DISPLAY_UPDATE_CTRL1), Data([CTRL1_BYPASS_RED]),
                                 Cmd(DISPLAY_UPDATE_CTRL2), Data([0x03]),
                                 Cmd(MASTER_ACTIVATION), BusyWait,
                                 Cmd(DEEP_SLEEP), Data([SleepByte(mode)])]
                    && p.switch == Some(Switch(6, false)))
      && (!wasOn ==> p.events == [Cmd(DEEP_SLEEP), Data([SleepByte(mode)])] && p.switch.None?)
  {
  }

  /** After a complete deep sleep the panel is off and the last call is the mode byte. */
  lemma DeepSleepRun(mode: DeepSleepMode, s: Snap)
    requires 8 <= s.budget
    ensures var (t, o) := Run(DeepSleepPlan(s.on, mode), s);
      && o == Done && !t.on
      && t.log[|t.log| - 2..] == [Cmd(DEEP_SLEEP), Data([SleepByte(mode)])]
  {
    var p := DeepSleepPlan(s.on, mode);
    DeepSleepTrace(s.on, mode);
    RunComplete(p, s);
    assert Run(p, s).0.log[|Run(p, s).0.log| - 2..] == p.events[|p.events| - 2..];
  }

  /** `load_lut` sends its two calls exactly for a 112-byte table and nothing otherwise. */
  lemma LoadLutChecks(lut: seq<byte>)
    ensures var p := LoadLutPlan(lut);
      && (p.stop == Done <==> |lut| == 112)
      && (|lut| == 112 ==> p.events == [Cmd(WRITE_LUT), Data(lut)])
      && (|lut| != 112 ==> p.events == [] && p.stop == Failed(InvalidLutLength(112, |lut|)))
  {
  }

  /** `load_lut_with_voltages`: 105 bytes and four register writes, or nothing. */
  lemma LoadLutWithVoltagesChecks(lut: seq<byte>, gate: byte, source: seq<byte>, vcom: byte)
    requires |source| == 3
    ensures var p := LoadLutWithVoltagesPlan(lut, gate, source, vcom);
      && (p.stop == Done <==> |lut| == 105)
      && (|lut| != 105 ==> p.events == [] && p.stop == Failed(InvalidLutShortLength(105, |lut|)))
      && (|lut| == 105 ==> p.events == [Cmd(WRITE_LUT), Data(lut), Cmd(GATE_VOLTAGE), Data([gate]),
                                        Cmd(SOURCE_VOLTAGE), Data(source), Cmd(WRITE_VCOM), Data([vcom])])
  {
  }

  /**
   * `set_ram_area` sends nothing and fails with `InvalidRamArea` exactly
   * when the rectangle is rejected; otherwise its calls decode to the data
   * entry mode and the window of the rectangle.
   */
  lemma SetRamAreaChecks(c: Config, x: u16, y: u16, w: u16, h: u16)
    requires ValidDimensions(c.dimensions)
    ensures var p := SetRamAreaPlan(c, x, y, w, h);
      && (p.stop.Failed? <==> AreaError(c.dimensions, x, y, w, h).Some?)
      && (p.stop.Failed? ==> p.events == [] && p.stop == Failed(InvalidRamArea(x, y, w, h)))
      && (p.stop.Done? ==> DecodeWindow(p.events) == Some((c.dataEntryMode, RamWindow(c, x, y, w, h))))
  {
    if AreaError(c.dimensions, x, y, w, h).None? {
      WindowRoundTrip(c.dataEntryMode, RamWindow(c, x, y, w, h));
    }
  }

  /** The default configuration on a 480 x 480 panel. */
  function Default480(): (c: Config)
    ensures ValidDimensions(c.dimensions)
    ensures c.dataEntryMode == 0x01 && c.ramXAddressing == Pixels && !c.ramYInverted
  {
    Panel480();
    BuilderDefaults();
    Build(NewBuilder().WithDimensions(Dimensions(480, 480))).value
  }

  /**
   * On that panel the whole screen is accepted and programmed with X
   * counting up from 0 to 479 and Y counting down from 479 to 0 (ID1 is
   * clear in mode 0x01); an empty or overhanging rectangle is rejected.
   */
  lemma SetRamArea480()
    ensures SetRamAreaPlan(Default480(), 0, 0, 480, 480) ==
      Calls([Cmd(DATA_ENTRY_MODE), Data([0x01]),
             Cmd(SET_RAM_X_RANGE), Data([0x00, 0x00, 0xDF, 0x01]),
             Cmd(SET_RAM_Y_RANGE), Data([0xDF, 0x01, 0x00, 0x00]),
             Cmd(SET_RAM_X_COUNTER), Data([0x00, 0x00]),
             Cmd(SET_RAM_Y_COUNTER), Data([0xDF, 0x01])])
    ensures SetRamAreaPlan(Default480(), 0, 0, 0, 100) == Halt(InvalidRamArea(0, 0, 0, 100))
    ensures SetRamAreaPlan(Default480(), 0, 0, 100, 0) == Halt(InvalidRamArea(0, 0, 100, 0))
    ensures SetRamAreaPlan(Default480(), 400, 0, 100, 100) == Halt(InvalidRamArea(400, 0, 100, 100))
    ensures SetRamAreaPlan(Default480(), 0, 400, 100, 100) == Halt(InvalidRamArea(0, 400, 100, 100))
  {
    var c := Default480();
    var win := RamWindow(c, 0, 0, 480, 480);
    assert win == Window(0, 479, 479, 0);
    assert Lo(479) == 0xDF && Hi(479) == 0x01 && Lo(0) == 0x00 && Hi(0) == 0x00;
  }

  /** The whole frame is always an acceptable RAM area. */
  lemma FullFrameAccepted(d: Dimensions)
    requires ValidDimensions(d)
    ensures AreaError(d, 0, 0, d.cols, d.rows).None?
  {
  }

  /**
   * The checks of a whole-frame update, in order: the black plane must hold
   * `buffer_size` bytes, then (only when it is explicit) the red plane;
   * a failed check sends nothing, and past them the frame is uploaded.
   */
  lemma UpdateChecks(c: Config, wasOn: bool, lutPartial: seq<byte>, lutFast: seq<byte>,
                     black: seq<byte>, red: seq<byte>, mode: RefreshMode, useBuiltinLut: bool)
    requires ValidDimensions(c.dimensions)
    ensures var p := UpdatePlan(c, wasOn, lutPartial, lutFast, black, red, mode, useBuiltinLut);
      var n := BufferSize(c.dimensions);
      && (|black| < n ==> p == Halt(BufferTooSmall(n, |black|)))
      && (n <= |black| && ExplicitRed(red) && |red| < n ==> p == Halt(BufferTooSmall(n, |red|)))
      && (n <= |black| && (ExplicitRed(red) ==> n <= |red|) ==>
            p == UploadPlan(c, wasOn, lutPartial, lutFast, Region(0, 0, c.dimensions.cols, c.dimensions.rows),
                            black, red, mode, useBuiltinLut, n))
  {
  }

  /**
   * The first two calls of a whole-frame update that passed its checks: the
   * LUT for Partial or Fast when built-in LUTs are used, and otherwise the
   * window's data entry mode.
   */
  lemma UpdateFirstCalls(c: Config, wasOn: bool, lutPartial: seq<byte>, lutFast: seq<byte>,
                         black: seq<byte>, red: seq<byte>, mode: RefreshMode, useBuiltinLut: bool)
    requires ValidDimensions(c.dimensions)
    requires BufferSize(c.dimensions) <= |black|
    requires ExplicitRed(red) ==> BufferSize(c.dimensions) <= |red|
    ensures var p := UpdatePlan(c, wasOn, lutPartial, lutFast, black, red, mode, useBuiltinLut);
      && (useBuiltinLut && mode == Partial && |lutPartial| == LUT_SIZE ==>
            p.events[..2] == [Cmd(WRITE_LUT), Data(lutPartial)])
      && (useBuiltinLut && mode == Fast && |lutFast| == LUT_SIZE ==>
            p.events[..2] == [Cmd(WRITE_LUT), Data(lutFast)])
      && (!useBuiltinLut || mode == Full ==> p.events[..2] == [Cmd(DATA_ENTRY_MODE), Data([c.dataEntryMode])])
  {
    var d := c.dimensions;
    var n := BufferSize(d);
    var full := Region(0, 0, d.cols, d.rows);
    UpdateChecks(c, wasOn, lutPartial, lutFast, black, red, mode, useBuiltinLut);
    FullFrameStart(c, mode, useBuiltinLut, lutPartial, lutFast);
    UploadPrefix(c, wasOn, lutPartial, lutFast, full, black, red, mode, useBuiltinLut, n);
    var head := BuiltinLutPlan(mode, useBuiltinLut, lutPartial, lutFast).Then(SetRamAreaPlan(c, 0, 0, d.cols, d.rows));
    if |head.events| >= 2 {
      PrefixHead(head.events, UpdatePlan(c, wasOn, lutPartial, lutFast, black, red, mode, useBuiltinLut).events, 2);
    }
  }

  /** The LUT and whole-frame window calls begin with the LUT, or else with the data entry mode. */
  lemma FullFrameStart(c: Config, mode: RefreshMode, useBuiltinLut: bool, lutPartial: seq<byte>, lutFast: seq<byte>)
    requires ValidDimensions(c.dimensions)
    ensures var head := BuiltinLutPlan(mode, useBuiltinLut, lutPartial, lutFast)
                          .Then(SetRamAreaPlan(c, 0, 0, c.dimensions.cols, c.dimensions.rows)).events;
      && (useBuiltinLut && mode == Partial && |lutPartial| == LUT_SIZE ==>
            head[..2] == [Cmd(WRITE_LUT), Data(lutPartial)])
      && (useBuiltinLut && mode == Fast && |lutFast| == LUT_SIZE ==>
            head[..2] == [Cmd(WRITE_LUT), Data(lutFast)])
      && (!useBuiltinLut || mode == Full ==> head[..2] == [Cmd(DATA_ENTRY_MODE), Data([c.dataEntryMode])])
  {
    var d := c.dimensions;
    var lut := BuiltinLutPlan(mode, useBuiltinLut, lutPartial, lutFast);
    var window := SetRamAreaPlan(c, 0, 0, d.cols, d.rows);
    FullFrameAccepted(d);
    WindowStart(c, 0, 0, d.cols, d.rows);
    ThenHead(lut, window);
  }

  /** An accepted window begins with its data entry mode. */
  lemma WindowStart(c: Config, x: u16, y: u16, w: u16, h: u16)
    requires ValidDimensions(c.dimensions) && AreaError(c.dimensions, x, y, w, h).None?
    ensures var e := SetRamAreaPlan(c, x, y, w, h).events;
      |e| >= 2 && e[..2] == [Cmd(DATA_ENTRY_MODE), Data([c.dataEntryMode])]
  {
  }

  /** The first two calls of `p.Then(q)`: those of `p`, or of `q` when `p` sends nothing and succeeds. */
  lemma ThenHead(p: Plan, q: Plan)
    requires |q.events| >= 2
    ensures |p.events| >= 2 ==> |p.Then(q).events| >= 2 && p.Then(q).events[..2] == p.events[..2]
    ensures p.events == [] && p.stop.Done? ==> p.Then(q).events == q.events
  {
  }

  /** A prefix shares its first `k` elements with the longer sequence. */
  lemma PrefixHead(a: seq<Event>, b: seq<Event>, k: nat)
    requires a <= b && k <= |a|
    ensures |b| >= k && b[..k] == a[..k]
  {
  }

  /** An update's calls begin with its LUT and window calls. */
  lemma UploadPrefix(c: Config, wasOn: bool, lutPartial: seq<byte>, lutFast: seq<byte>,
                     area: Region, black: seq<byte>, red: seq<byte>, mode: RefreshMode,
                     useBuiltinLut: bool, expected: nat)
    requires ValidDimensions(c.dimensions) && expected <= |black|
    requires ExplicitRed(red) ==> expected <= |red|
    ensures BuiltinLutPlan(mode, useBuiltinLut, lutPartial, lutFast).Then(SetRamAreaPlan(c, area.x, area.y, area.w, area.h)).events
            <= UploadPlan(c, wasOn, lutPartial, lutFast, area, black, red, mode, useBuiltinLut, expected).events
  {
    var lut := BuiltinLutPlan(mode, useBuiltinLut, lutPartial, lutFast);
    var window := SetRamAreaPlan(c, area.x, area.y, area.w, area.h);
    var bw := Calls([Cmd(WRITE_RAM_BW), Data(black[..expected])]);
    var before := RedBeforePlan(black, red, mode, expected);
    var planes := PlanesPlan(c, lutPartial, lutFast, area, black, red, mode, useBuiltinLut, expected);
    var refresh := RefreshPlan(c, wasOn, mode, false, RefreshUsesRed(red, mode));
    assert planes == lut.Then(window).Then(bw).Then(before);
    ThenPrefix(lut.Then(window), bw);
    ThenPrefix(lut.Then(window).Then(bw), before);
    PrefixTrans(lut.Then(window).events, lut.Then(window).Then(bw).events, planes.events);
    ThenPrefix(planes, refresh);
    ThenPrefix(planes.Then(refresh), ResyncPlan(c, area, black, red, mode, expected));
    PrefixTrans(lut.Then(window).events, planes.events, planes.Then(refresh).events);
    PrefixTrans(lut.Then(window).events, planes.Then(refresh).events,
                UploadPlan(c, wasOn, lutPartial, lutFast, area, black, red, mode, useBuiltinLut, expected).events);
  }

  /**
   * The checks of a region update: buffers sized `(w / 8) * h` first; the
   * rectangle is validated only after the built-in LUT has been sent, so a
   * rejected rectangle fails with that LUT already on the bus.
   */
  lemma RegionChecks(c: Config, wasOn: bool, lutPartial: seq<byte>, lutFast: seq<byte>,
                     u: UpdateRegion, useBuiltinLut: bool)
    requires ValidDimensions(c.dimensions)
    ensures var p := UpdateRegionPlan(c, wasOn, lutPartial, lutFast, u, useBuiltinLut);
      var n := (u.region.w / 8) * u.region.h;
      var r := u.region;
      && (|u.blackBuffer| < n ==> p == Halt(BufferTooSmall(n, |u.blackBuffer|)))
      && (n <= |u.blackBuffer| && ExplicitRed(u.redBuffer) && |u.redBuffer| < n ==>
            p == Halt(BufferTooSmall(n, |u.redBuffer|)))
      && (n <= |u.blackBuffer| && (ExplicitRed(u.redBuffer) ==> n <= |u.redBuffer|)
          && AreaError(c.dimensions, r.x, r.y, r.w, r.h).Some?
          && |lutPartial| == LUT_SIZE && |lutFast| == LUT_SIZE ==>
            && p.stop == Failed(InvalidRamArea(r.x, r.y, r.w, r.h))
            && (useBuiltinLut && u.mode == Partial ==> p.events == [Cmd(WRITE_LUT), Data(lutPartial)])
            && (useBuiltinLut && u.mode == Fast ==> p.events == [Cmd(WRITE_LUT), Data(lutFast)])
            && (!useBuiltinLut || u.mode == Full ==> p.events == []))
  {
    var n := RegionBufferSize(u.region);
    var r := u.region;
    if n <= |u.blackBuffer| && (ExplicitRed(u.redBuffer) ==> n <= |u.redBuffer|)
       && AreaError(c.dimensions, r.x, r.y, r.w, r.h).Some?
       && |lutPartial| == LUT_SIZE && |lutFast| == LUT_SIZE {
      var lut := BuiltinLutPlan(u.mode, useBuiltinLut, lutPartial, lutFast);
      var window := SetRamAreaPlan(c, r.x, r.y, r.w, r.h);
      var planes := PlanesPlan(c, lutPartial, lutFast, r, u.blackBuffer, u.redBuffer, u.mode, useBuiltinLut, n);
      assert window == Halt(InvalidRamArea(r.x, r.y, r.w, r.h));
      if lut.stop.Done? {
        assert lut.Then(window) == Plan(lut.events, None, Failed(InvalidRamArea(r.x, r.y, r.w, r.h)));
      }
      assert lut.Then(window).stop.Failed?;
      assert planes == lut.Then(window);
      var refresh := RefreshPlan(c, wasOn, u.mode, false, RefreshUsesRed(u.redBuffer, u.mode));
      assert planes.Then(refresh) == planes;
      assert UpdateRegionPlan(c, wasOn, lutPartial, lutFast, u, useBuiltinLut)
          == planes.Then(refresh).Then(ResyncPlan(c, r, u.blackBuffer, u.redBuffer, u.mode, n));
    }
  }

  /**
   * A red plane with no bit set is no red plane: an update with it calls
   * exactly what an update with an empty one calls.
   */
  lemma ZeroRedIsNoRed(c: Config, wasOn: bool, lutPartial: seq<byte>, lutFast: seq<byte>,
                       black: seq<byte>, red: seq<byte>, mode: RefreshMode, useBuiltinLut: bool)
    requires ValidDimensions(c.dimensions) && !ExplicitRed(red)
    ensures UpdatePlan(c, wasOn, lutPartial, lutFast, black, red, mode, useBuiltinLut)
         == UpdatePlan(c, wasOn, lutPartial, lutFast, black, [], mode, useBuiltinLut)
  {
    var n := BufferSize(c.dimensions);
    assert !ExplicitRed([]);
    if n <= |black| {
      var area := Region(0, 0, c.dimensions.cols, c.dimensions.rows);
      assert RedBeforePlan(black, red, mode, n) == RedBeforePlan(black, [], mode, n);
      assert RefreshUsesRed(red, mode) == RefreshUsesRed([], mode);
      assert ResyncPlan(c, area, black, red, mode, n) == ResyncPlan(c, area, black, [], mode, n);
    }
  }
}
