// The refresh engine of the core `Display` driver (src/display.rs). The pure
// part is a set of plan functions: the interface calls each operation makes
// and where it assigns the power flag. The imperative part is the `Display`
// class whose methods make those calls one by one and are proved to follow
// their plans, whatever call the link fails on.
module Display {
  import opened Command
  import opened Errors
  import opened Config
  import opened Interface
  import opened Trace
  import opened RamArea

  datatype RefreshMode = Full | Partial | Fast

  datatype DeepSleepMode = Normal | PreserveRam | PreserveRamAndAnalog

  /** The byte `mode as u8` that selects a deep sleep mode. */
  function SleepByte(m: DeepSleepMode): (b: byte)
    ensures b in {0x00, 0x01, 0x03}
    ensures m == Normal <==> b == 0x00
    ensures m == PreserveRam <==> b == 0x01
  {
    match m
    case Normal => 0x00
    case PreserveRam => 0x01
    case PreserveRamAndAnalog => 0x03
  }

  /** A rectangle of the panel for a partial update. */
  datatype Region = Region(x: u16, y: u16, w: u16, h: u16)

  /** `Region::buffer_size`: whole bytes per row times rows. */
  function RegionBufferSize(r: Region): (n: nat)
    ensures 8 * n <= r.w * r.h
    ensures r.w % 8 == 0 ==> 8 * n == r.w * r.h
  {
    var bytesPerRow := r.w / 8;
    assert r.w == 8 * bytesPerRow + r.w % 8;
    assert r.w * r.h == 8 * (bytesPerRow * r.h) + (r.w % 8) * r.h;
    bytesPerRow * r.h
  }

  /** A region update: the rectangle, its two planes, and the refresh mode. */
  datatype UpdateRegion = UpdateRegion(region: Region, blackBuffer: seq<byte>, redBuffer: seq<byte>, mode: RefreshMode)

  const LUT_SIZE: nat := 112
  const LUT_SHORT_SIZE: nat := 105

  /** CTRL1: read RED RAM during the refresh, or bypass it. */
  function Ctrl1(useRed: bool): byte
  {
    if useRed then CTRL1_NORMAL else CTRL1_BYPASS_RED
  }

  /** The CTRL2 byte configured for a refresh mode. */
  function ModeCtrl2(c: Config, mode: RefreshMode): byte
  {
    match mode
    case Full => c.ctrl2Full
    case Partial => c.ctrl2Partial
    case Fast => c.ctrl2Fast
  }

  /**
   * CTRL2 of a refresh: the mode's byte, with the power-on bits when the
   * display was off and the power-off bits when it is to be turned off.
   */
  function Ctrl2(modeByte: byte, powerOn: byte, powerOff: byte, wasOn: bool, turnOff: bool): byte
  {
    var on := if wasOn then 0 else powerOn;
    var off := if turnOff then powerOff else 0;
    modeByte | (on | off)
  }

  /** The power bits a refresh adds to the mode's CTRL2 byte. */
  function PowerBits(powerOn: byte, powerOff: byte, wasOn: bool, turnOff: bool): byte
  {
    (if wasOn then 0 else powerOn) | (if turnOff then powerOff else 0)
  }

  /**
   * CTRL2 has every bit of the mode's byte, the power-on bits when the display
   * was off, the power-off bits when it is turned off, and no other bit; with
   * neither power step it is the mode's byte itself.
   */
  lemma Ctrl2Bits(m: byte, on: byte, off: byte, wasOn: bool, turnOff: bool)
    ensures Ctrl2(m, on, off, wasOn, turnOff) & m == m
    ensures !wasOn ==> Ctrl2(m, on, off, wasOn, turnOff) & on == on
    ensures turnOff ==> Ctrl2(m, on, off, wasOn, turnOff) & off == off
    ensures Ctrl2(m, on, off, wasOn, turnOff) & !(m | PowerBits(on, off, wasOn, turnOff)) == 0
    ensures wasOn && !turnOff ==> Ctrl2(m, on, off, wasOn, turnOff) == m
  {
    Ctrl2HasMode(m, on, off, wasOn, turnOff);
    Ctrl2HasPowerOn(m, on, off, wasOn, turnOff);
    Ctrl2HasPowerOff(m, on, off, wasOn, turnOff);
    Ctrl2NoOtherBits(m, on, off, wasOn, turnOff);
    Ctrl2Plain(m, on, off, wasOn, turnOff);
  }

  // Single bit-vector facts: the solver proves them one at a time far more
  // cheaply than as a conjunction.

  lemma Ctrl2HasMode(m: byte, on: byte, off: byte, wasOn: bool, turnOff: bool)
    ensures Ctrl2(m, on, off, wasOn, turnOff) & m == m
  {
  }

  lemma Ctrl2HasPowerOn(m: byte, on: byte, off: byte, wasOn: bool, turnOff: bool)
    ensures !wasOn ==> Ctrl2(m, on, off, wasOn, turnOff) & on == on
  {
  }

  lemma Ctrl2HasPowerOff(m: byte, on: byte, off: byte, wasOn: bool, turnOff: bool)
    ensures turnOff ==> Ctrl2(m, on, off, wasOn, turnOff) & off == off
  {
  }

  lemma Ctrl2NoOtherBits(m: byte, on: byte, off: byte, wasOn: bool, turnOff: bool)
    ensures Ctrl2(m, on, off, wasOn, turnOff) & !(m | PowerBits(on, off, wasOn, turnOff)) == 0
  {
  }

  lemma Ctrl2Plain(m: byte, on: byte, off: byte, wasOn: bool, turnOff: bool)
    ensures wasOn && !turnOff ==> Ctrl2(m, on, off, wasOn, turnOff) == m
  {
  }

  /**
   * `refresh_with_mode`: CTRL1 with its byte, CTRL2 with its byte, master
   * activation, and a busy wait. The flag becomes `!turnOff` once CTRL1's
   * data is out, before CTRL2 is sent.
   */
  function RefreshPlan(c: Config, wasOn: bool, mode: RefreshMode, turnOff: bool, useRed: bool): (p: Plan)
    ensures p.WellFormed() && p.stop == Done
  {
    Calls([Cmd(DISPLAY_UPDATE_CTRL1), Data([Ctrl1(useRed)])])
      .Then(Assign(!turnOff))
      .Then(Calls([Cmd(DISPLAY_UPDATE_CTRL2), Data([Ctrl2(ModeCtrl2(c, mode), c.powerOn, c.powerOff, wasOn, turnOff)])]))
      .Then(Calls([Cmd(MASTER_ACTIVATION), BusyWait]))
  }

  /**
   * `deep_sleep`: when the display is on, a power-down refresh (CTRL1 bypass,
   * CTRL2 0x03, activation, busy wait) and the flag cleared; in every case
   * DEEP_SLEEP with the mode byte.
   */
  function DeepSleepPlan(wasOn: bool, mode: DeepSleepMode): (p: Plan)
    ensures p.WellFormed() && p.stop == Done
  {
    var sleep := Calls([Cmd(DEEP_SLEEP), Data([SleepByte(mode)])]);
    if wasOn then PowerDownPlan().Then(sleep) else sleep
  }

  /** The power-down refresh of `deep_sleep`, ending with the flag cleared. */
  function PowerDownPlan(): (p: Plan)
    ensures p.WellFormed() && p.stop == Done
  {
    Calls([Cmd(DISPLAY_UPDATE_CTRL1), Data([CTRL1_BYPASS_RED])])
      .Then(Calls([Cmd(DISPLAY_UPDATE_CTRL2), Data([0x03])]))
      .Then(Calls([Cmd(MASTER_ACTIVATION), BusyWait]))
      .Then(Assign(false))
  }

  /** `load_lut`: exactly 112 bytes, sent after WRITE_LUT. */
  function LoadLutPlan(lut: seq<byte>): (p: Plan)
    ensures p.WellFormed() && p.switch.None?
  {
    if |lut| != LUT_SIZE then Halt(InvalidLutLength(LUT_SIZE, |lut|))
    else Calls([Cmd(WRITE_LUT), Data(lut)])
  }

  /**
   * `load_lut_with_voltages`: a 105-byte LUT, then the gate voltage, the
   * three source voltages and VCOM.
   */
  function LoadLutWithVoltagesPlan(lut: seq<byte>, gate: byte, source: seq<byte>, vcom: byte): (p: Plan)
    requires |source| == 3
    ensures p.WellFormed() && p.switch.None?
  {
    if |lut| != LUT_SHORT_SIZE then Halt(InvalidLutShortLength(LUT_SHORT_SIZE, |lut|))
    else Calls([Cmd(WRITE_LUT), Data(lut), Cmd(GATE_VOLTAGE), Data([gate]),
                Cmd(SOURCE_VOLTAGE), Data(source), Cmd(WRITE_VCOM), Data([vcom])])
  }

  /** `set_ram_area`: validation, then the window's register writes. */
  function SetRamAreaPlan(c: Config, x: u16, y: u16, w: u16, h: u16): (p: Plan)
    requires ValidDimensions(c.dimensions)
    ensures p.WellFormed() && p.switch.None?
  {
    match AreaError(c.dimensions, x, y, w, h)
    case Some(e) => Halt(e)
    case None =>
      var win := RamWindow(c, x, y, w, h);
      Calls(WindowEvents(c.dataEntryMode, win))
  }

  /** Whether some byte of `s` is non-zero (`iter().any(|b| *b != 0)`). */
  function AnyNonZero(s: seq<byte>): (b: bool)
    ensures b <==> exists i :: 0 <= i < |s| && s[i] != 0
  {
    if |s| == 0 then false
    else if s[0] != 0 then true
    else
      var rest := AnyNonZero(s[1..]);
      assert forall i :: 1 <= i < |s| ==> s[i] == s[1..][i - 1];
      rest
  }

  /** The caller supplied a red plane: non-empty with some byte set. */
  function ExplicitRed(red: seq<byte>): (b: bool)
    ensures b <==> exists i :: 0 <= i < |red| && red[i] != 0
  {
    |red| != 0 && AnyNonZero(red)
  }

  /** The built-in LUT an update loads first: none for Full or when disabled. */
  function BuiltinLutPlan(mode: RefreshMode, useBuiltinLut: bool, lutPartial: seq<byte>, lutFast: seq<byte>): (p: Plan)
    ensures p.WellFormed() && p.switch.None?
  {
    if !useBuiltinLut then Skip()
    else match mode
      case Full => Skip()
      case Partial => LoadLutPlan(lutPartial)
      case Fast => LoadLutPlan(lutFast)
  }

  /**
   * Both update operations after their size checks: LUT, window, BW plane,
   * red plane before the refresh (the caller's red plane, or a copy of the
   * BW plane outside Fast mode), refresh, and for single-buffer Fast the
   * window again and the BW plane copied into red RAM afterwards.
   */
  function UploadPlan(c: Config, wasOn: bool, lutPartial: seq<byte>, lutFast: seq<byte>,
                      area: Region, black: seq<byte>, red: seq<byte>, mode: RefreshMode,
                      useBuiltinLut: bool, expected: nat): (p: Plan)
    requires ValidDimensions(c.dimensions) && expected <= |black|
    requires ExplicitRed(red) ==> expected <= |red|
    ensures p.WellFormed()
  {
    PlanesPlan(c, lutPartial, lutFast, area, black, red, mode, useBuiltinLut, expected)
      .Then(RefreshPlan(c, wasOn, mode, false, RefreshUsesRed(red, mode)))
      .Then(ResyncPlan(c, area, black, red, mode, expected))
  }

  /** The part of an update before the refresh: LUT, window, BW plane, red RAM. */
  function PlanesPlan(c: Config, lutPartial: seq<byte>, lutFast: seq<byte>,
                      area: Region, black: seq<byte>, red: seq<byte>, mode: RefreshMode,
                      useBuiltinLut: bool, expected: nat): (p: Plan)
    requires ValidDimensions(c.dimensions) && expected <= |black|
    requires ExplicitRed(red) ==> expected <= |red|
    ensures p.WellFormed() && p.switch.None?
  {
    var lut := BuiltinLutPlan(mode, useBuiltinLut, lutPartial, lutFast);
    var window := SetRamAreaPlan(c, area.x, area.y, area.w, area.h);
    var bw := Calls([Cmd(WRITE_RAM_BW), Data(black[..expected])]);
    RunThenShape(lut, window);
    RunThenShape(lut.Then(window), bw);
    RunThenShape(lut.Then(window).Then(bw), RedBeforePlan(black, red, mode, expected));
    lut.Then(window).Then(bw).Then(RedBeforePlan(black, red, mode, expected))
  }

  /**
   * `use_red_for_refresh`: the refresh reads red RAM for an explicit red
   * plane, and for single-buffer Fast, where red RAM holds the previous frame.
   */
  function RefreshUsesRed(red: seq<byte>, mode: RefreshMode): bool
  {
    ExplicitRed(red) || (mode == Fast && !ExplicitRed(red))
  }

  /**
   * Red RAM before the refresh: the caller's red plane; or, for Full and
   * Partial without one, a copy of the BW plane; or, for Fast without one,
   * nothing.
   */
  function RedBeforePlan(black: seq<byte>, red: seq<byte>, mode: RefreshMode, expected: nat): (p: Plan)
    requires expected <= |black| && (ExplicitRed(red) ==> expected <= |red|)
    ensures p.WellFormed() && p.switch.None? && p.stop == Done
  {
    if ExplicitRed(red) then Calls([Cmd(WRITE_RAM_RED), Data(red[..expected])])
    else if mode != Fast then Calls([Cmd(WRITE_RAM_RED), Data(black[..expected])])
    else Skip()
  }

  /**
   * After a single-buffer Fast refresh, the window again and the BW plane
   * copied into red RAM, the reference for the next differential refresh.
   */
  function ResyncPlan(c: Config, area: Region, black: seq<byte>, red: seq<byte>, mode: RefreshMode,
                      expected: nat): (p: Plan)
    requires ValidDimensions(c.dimensions) && expected <= |black|
    ensures p.WellFormed() && p.switch.None?
  {
    var window := SetRamAreaPlan(c, area.x, area.y, area.w, area.h);
    RunThenShape(window, Calls([Cmd(WRITE_RAM_RED), Data(black[..expected])]));
    if mode == Fast && !ExplicitRed(red) then window.Then(Calls([Cmd(WRITE_RAM_RED), Data(black[..expected])]))
    else Skip()
  }

  /** Composition keeps plans well formed. */
  lemma RunThenShape(p: Plan, q: Plan)
    requires p.WellFormed() && q.WellFormed()
    ensures p.Then(q).WellFormed()
    ensures p.switch.None? && q.switch.None? ==> p.Then(q).switch.None?
  {
  }

  /** The buffer-size check shared by both update operations. */
  function SizeError(black: seq<byte>, red: seq<byte>, expected: nat): (r: Option<Error>)
    ensures r.None? <==> expected <= |black| && (ExplicitRed(red) ==> expected <= |red|)
    ensures |black| < expected ==> r == Some(BufferTooSmall(expected, |black|))
    ensures expected <= |black| && r.Some? ==> r == Some(BufferTooSmall(expected, |red|))
  {
    if |black| < expected then Some(BufferTooSmall(expected, |black|))
    else if ExplicitRed(red) && |red| < expected then Some(BufferTooSmall(expected, |red|))
    else None
  }

  /** `update_with_mode_internal`: the whole frame, sized by the panel. */
  function UpdatePlan(c: Config, wasOn: bool, lutPartial: seq<byte>, lutFast: seq<byte>,
                      black: seq<byte>, red: seq<byte>, mode: RefreshMode, useBuiltinLut: bool): (p: Plan)
    requires ValidDimensions(c.dimensions)
    ensures p.WellFormed()
  {
    var expected := BufferSize(c.dimensions);
    match SizeError(black, red, expected)
    case Some(e) => Halt(e)
    case None =>
      UploadPlan(c, wasOn, lutPartial, lutFast, Region(0, 0, c.dimensions.cols, c.dimensions.rows),
                 black, red, mode, useBuiltinLut, expected)
  }

  /** `update_region_internal`: one rectangle, sized by the rectangle. */
  function UpdateRegionPlan(c: Config, wasOn: bool, lutPartial: seq<byte>, lutFast: seq<byte>,
                            u: UpdateRegion, useBuiltinLut: bool): (p: Plan)
    requires ValidDimensions(c.dimensions)
    ensures p.WellFormed()
  {
    var expected := RegionBufferSize(u.region);
    match SizeError(u.blackBuffer, u.redBuffer, expected)
    case Some(e) => Halt(e)
    case None =>
      UploadPlan(c, wasOn, lutPartial, lutFast, u.region, u.blackBuffer, u.redBuffer, u.mode,
                 useBuiltinLut, expected)
  }

  /**
   * The driver: its interface, its configuration, the two built-in LUTs it
   * loads for Partial and Fast updates, and whether the panel is powered.
   */
  class Display {
    const bus: Bus
    const config: Config
    const lutPartial: seq<byte>
    const lutFast: seq<byte>
    var isDisplayOn: bool

    ghost predicate Valid()
    {
      ValidDimensions(config.dimensions) && |lutPartial| == LUT_SIZE && |lutFast| == LUT_SIZE
    }

    /** Everything an operation can change: the bus log and budget, and the flag. */
    function Now(): Snap
      reads this, bus
    {
      Snap(bus.log, bus.budget, isDisplayOn)
    }

    /** `Display::new`: the panel starts powered off. */
    constructor (bus: Bus, config: Config, lutPartial: seq<byte>, lutFast: seq<byte>)
      requires ValidDimensions(config.dimensions)
      requires |lutPartial| == LUT_SIZE && |lutFast| == LUT_SIZE
      ensures Valid() && !isDisplayOn
      ensures this.bus == bus && this.config == config
      ensures this.lutPartial == lutPartial && this.lutFast == lutFast
    {
      this.bus := bus;
      this.config := config;
      this.lutPartial := lutPartial;
      this.lutFast := lutFast;
      isDisplayOn := false;
    }

    /** `send_command`, with the interface error mapped. */
    method SendCommand(op: byte) returns (r: Outcome)
      modifies bus
      ensures r == if old(bus.budget) > 0 then Done else Failed(Interface)
      ensures bus.log == if r.Done? then old(bus.log) + [Cmd(op)] else old(bus.log)
      ensures bus.budget == if r.Done? then old(bus.budget) - 1 else 0
    {
      var ok := bus.SendCommand(op);
      r := if ok then Done else Failed(Interface);
    }

    /** `send_data`, with the interface error mapped. */
    method SendData(bytes: seq<byte>) returns (r: Outcome)
      modifies bus
      ensures r == if old(bus.budget) > 0 then Done else Failed(Interface)
      ensures bus.log == if r.Done? then old(bus.log) + [Data(bytes)] else old(bus.log)
      ensures bus.budget == if r.Done? then old(bus.budget) - 1 else 0
    {
      var ok := bus.SendData(bytes);
      r := if ok then Done else Failed(Interface);
    }

    /** `busy_wait`, with the interface error mapped. */
    method BusyWaitCall() returns (r: Outcome)
      modifies bus
      ensures r == if old(bus.budget) > 0 then Done else Failed(Interface)
      ensures bus.log == if r.Done? then old(bus.log) + [BusyWait] else old(bus.log)
      ensures bus.budget == if r.Done? then old(bus.budget) - 1 else 0
    {
      var ok := bus.WaitBusy();
      r := if ok then Done else Failed(Interface);
    }

    /** A command followed by its data block, as every register write is sent. */
    method SendBlock(op: byte, bytes: seq<byte>) returns (r: Outcome)
      modifies bus
      ensures (Now(), r) == Run(Calls([Cmd(op), Data(bytes)]), old(Now()))
    {
      ghost var s0, es := Now(), [Cmd(op), Data(bytes)];
      r := SendCommand(op);
      if r.Failed? {
        assert Now() == Run(Calls(es), s0).0;
        return;
      }
      r := SendData(bytes);
      assert es[..1] == [Cmd(op)] && es[..2] == es;
      assert Now() == Run(Calls(es), s0).0;
    }

    /** Master activation followed by the wait for the controller to finish. */
    method Activate() returns (r: Outcome)
      modifies bus
      ensures (Now(), r) == Run(Calls([Cmd(MASTER_ACTIVATION), BusyWait]), old(Now()))
    {
      ghost var s0, es := Now(), [Cmd(MASTER_ACTIVATION), BusyWait];
      r := SendCommand(MASTER_ACTIVATION);
      if r.Failed? {
        assert Now() == Run(Calls(es), s0).0;
        return;
      }
      r := BusyWaitCall();
      assert es[..1] == [Cmd(MASTER_ACTIVATION)] && es[..2] == es;
      assert Now() == Run(Calls(es), s0).0;
    }

    /**
     * `refresh_with_mode`. Each step runs only while the previous ones
     * succeeded, which is what the source's `?` does.
     */
    method RefreshWithMode(mode: RefreshMode, turnOff: bool, useRed: bool) returns (r: Outcome)
      requires Valid()
      modifies this, bus
      ensures (Now(), r) == Run(RefreshPlan(config, old(isDisplayOn), mode, turnOff, useRed), old(Now()))
    {
      ghost var s0 := Now();
      var ctrl1 := if useRed then CTRL1_NORMAL else CTRL1_BYPASS_RED;
      r := SendBlock(DISPLAY_UPDATE_CTRL1, [ctrl1]);
      ghost var p := Calls([Cmd(DISPLAY_UPDATE_CTRL1), Data([ctrl1])]);
      assert (Now(), r) == Run(p, s0);

      var displayMode := Ctrl2(ModeCtrl2(config, mode), config.powerOn, config.powerOff, isDisplayOn, turnOff);
      if r.Done? {
        isDisplayOn := !turnOff;
      }
      RunNoCalls(Run(p, s0).0, !turnOff, Interface);
      RunThen(p, Assign(!turnOff), s0);
      p := p.Then(Assign(!turnOff));
      assert (Now(), r) == Run(p, s0);

      if r.Done? {
        r := SendBlock(DISPLAY_UPDATE_CTRL2, [displayMode]);
      }
      RunThen(p, Calls([Cmd(DISPLAY_UPDATE_CTRL2), Data([displayMode])]), s0);
      p := p.Then(Calls([Cmd(DISPLAY_UPDATE_CTRL2), Data([displayMode])]));
      assert (Now(), r) == Run(p, s0);

      if r.Done? {
        r := Activate();
      }
      RunThen(p, Calls([Cmd(MASTER_ACTIVATION), BusyWait]), s0);
      p := p.Then(Calls([Cmd(MASTER_ACTIVATION), BusyWait]));
      assert (Now(), r) == Run(p, s0);
      assert p == RefreshPlan(config, s0.on, mode, turnOff, useRed);
    }

    /** `full_refresh`: a Full refresh that bypasses red RAM and leaves the panel on. */
    method FullRefresh() returns (r: Outcome)
      requires Valid()
      modifies this, bus
      ensures (Now(), r) == Run(RefreshPlan(config, old(isDisplayOn), Full, false, false), old(Now()))
    {
      r := RefreshWithMode(Full, false, false);
    }

    /** `fast_refresh`: the same with the Fast mode's CTRL2 byte. */
    method FastRefresh() returns (r: Outcome)
      requires Valid()
      modifies this, bus
      ensures (Now(), r) == Run(RefreshPlan(config, old(isDisplayOn), Fast, false, false), old(Now()))
    {
      r := RefreshWithMode(Fast, false, false);
    }

    /** `deep_sleep`: power down first if the panel is on, then enter sleep. */
    method DeepSleep(mode: DeepSleepMode) returns (r: Outcome)
      modifies this, bus
      ensures (Now(), r) == Run(DeepSleepPlan(old(isDisplayOn), mode), old(Now()))
    {
      ghost var s0 := Now();
      ghost var p := Skip();
      RunNoCalls(s0, false, Interface);
      r := Done;
      if isDisplayOn {
        r := PowerDown();
        p := PowerDownPlan();
      }
      ghost var m, o := Now(), r;
      if r.Done? {
        r := SendBlock(DEEP_SLEEP, [SleepByte(mode)]);
      }
      ThenStep(p, Calls([Cmd(DEEP_SLEEP), Data([SleepByte(mode)])]), s0, m, o, Now(), r);
    }

    /** The power-down refresh that `deep_sleep` runs while the panel is on. */
    method PowerDown() returns (r: Outcome)
      modifies this, bus
      ensures (Now(), r) == Run(PowerDownPlan(), old(Now()))
    {
      ghost var s0 := Now();
      r := SendBlock(DISPLAY_UPDATE_CTRL1, [CTRL1_BYPASS_RED]);
      ghost var p := Calls([Cmd(DISPLAY_UPDATE_CTRL1), Data([CTRL1_BYPASS_RED])]);

      ghost var m, o := Now(), r;
      if r.Done? {
        r := SendBlock(DISPLAY_UPDATE_CTRL2, [0x03]);
      }
      ThenStep(p, Calls([Cmd(DISPLAY_UPDATE_CTRL2), Data([0x03])]), s0, m, o, Now(), r);
      p := p.Then(Calls([Cmd(DISPLAY_UPDATE_CTRL2), Data([0x03])]));

      m, o := Now(), r;
      if r.Done? {
        r := Activate();
      }
      ThenStep(p, Calls([Cmd(MASTER_ACTIVATION), BusyWait]), s0, m, o, Now(), r);
      p := p.Then(Calls([Cmd(MASTER_ACTIVATION), BusyWait]));

      m, o := Now(), r;
      if r.Done? {
        isDisplayOn := false;
      }
      RunNoCalls(m, false, Interface);
      ThenStep(p, Assign(false), s0, m, o, Now(), r);
    }

    /** `load_lut`: rejects any length but 112 before sending anything. */
    method LoadLut(lut: seq<byte>) returns (r: Outcome)
      modifies bus
      ensures (Now(), r) == Run(LoadLutPlan(lut), old(Now()))
    {
      if |lut| != LUT_SIZE {
        RunNoCalls(Now(), false, InvalidLutLength(LUT_SIZE, |lut|));
        return Failed(InvalidLutLength(LUT_SIZE, |lut|));
      }
      r := SendBlock(WRITE_LUT, lut);
    }

    /** `set_gate_voltage`. */
    method SetGateVoltage(voltage: byte) returns (r: Outcome)
      modifies bus
      ensures (Now(), r) == Run(Calls([Cmd(GATE_VOLTAGE), Data([voltage])]), old(Now()))
    {
      r := SendBlock(GATE_VOLTAGE, [voltage]);
    }

    /** `set_source_voltage`: VSH1, VSH2 and VSL in one block. */
    method SetSourceVoltage(voltages: seq<byte>) returns (r: Outcome)
      requires |voltages| == 3
      modifies bus
      ensures (Now(), r) == Run(Calls([Cmd(SOURCE_VOLTAGE), Data(voltages)]), old(Now()))
    {
      r := SendBlock(SOURCE_VOLTAGE, voltages);
    }

    /** `set_vcom`. */
    method SetVcom(vcom: byte) returns (r: Outcome)
      modifies bus
      ensures (Now(), r) == Run(Calls([Cmd(WRITE_VCOM), Data([vcom])]), old(Now()))
    {
      r := SendBlock(WRITE_VCOM, [vcom]);
    }

    /** `load_lut_with_voltages`: a 105-byte LUT, then the three voltage registers. */
    method LoadLutWithVoltages(lut: seq<byte>, gate: byte, source: seq<byte>, vcom: byte) returns (r: Outcome)
      requires |source| == 3
      modifies bus
      ensures (Now(), r) == Run(LoadLutWithVoltagesPlan(lut, gate, source, vcom), old(Now()))
    {
      ghost var s0 := Now();
      if |lut| != LUT_SHORT_SIZE {
        RunNoCalls(s0, false, InvalidLutShortLength(LUT_SHORT_SIZE, |lut|));
        return Failed(InvalidLutShortLength(LUT_SHORT_SIZE, |lut|));
      }
      ghost var a, b, c, d := [Cmd(WRITE_LUT), Data(lut)], [Cmd(GATE_VOLTAGE), Data([gate])],
                              [Cmd(SOURCE_VOLTAGE), Data(source)], [Cmd(WRITE_VCOM), Data([vcom])];
      r := SendBlock(WRITE_LUT, lut);
      ghost var m, o := Now(), r;
      if r.Done? {
        r := SetGateVoltage(gate);
      }
      ThenStep(Calls(a), Calls(b), s0, m, o, Now(), r);
      CallsThen(a, b);
      m, o := Now(), r;
      if r.Done? {
        r := SetSourceVoltage(source);
      }
      ThenStep(Calls(a + b), Calls(c), s0, m, o, Now(), r);
      CallsThen(a + b, c);
      m, o := Now(), r;
      if r.Done? {
        r := SetVcom(vcom);
      }
      ThenStep(Calls(a + b + c), Calls(d), s0, m, o, Now(), r);
      CallsThen(a + b + c, d);
      assert a + b + c + d == LoadLutWithVoltagesPlan(lut, gate, source, vcom).events;
    }

    /**
     * `set_ram_area`: the three validation checks, then the window's five
     * register writes. Nothing is sent for a rejected rectangle.
     */
    method SetRamArea(x: u16, y: u16, w: u16, h: u16) returns (r: Outcome)
      requires Valid()
      modifies bus
      ensures (Now(), r) == Run(SetRamAreaPlan(config, x, y, w, h), old(Now()))
    {
      ghost var s0 := Now();
      var dims := config.dimensions;
      if w == 0 || h == 0 {
        RunNoCalls(s0, false, InvalidRamArea(x, y, w, h));
        return Failed(InvalidRamArea(x, y, w, h));
      }
      if SatAdd16(x, w) > dims.cols || SatAdd16(y, h) > dims.rows {
        RunNoCalls(s0, false, InvalidRamArea(x, y, w, h));
        return Failed(InvalidRamArea(x, y, w, h));
      }
      if x % 8 != 0 || w % 8 != 0 {
        RunNoCalls(s0, false, InvalidRamArea(x, y, w, h));
        return Failed(InvalidRamArea(x, y, w, h));
      }
      r := WriteWindow(config.dataEntryMode, RamWindow(config, x, y, w, h));
    }

    /**
     * The five register writes that program window `win`: data entry mode,
     * X range, Y range, X counter, Y counter.
     */
    method WriteWindow(dem: byte, win: Window) returns (r: Outcome)
      requires Fits16(win)
      modifies bus
      ensures (Now(), r) == Run(Calls(WindowEvents(dem, win)), old(Now()))
    {
      ghost var s0 := Now();
      var xRange := [Lo(win.xStart), Hi(win.xStart), Lo(win.xEnd), Hi(win.xEnd)];
      var yRange := [Lo(win.yStart), Hi(win.yStart), Lo(win.yEnd), Hi(win.yEnd)];
      var xCounter := [Lo(win.xStart), Hi(win.xStart)];
      var yCounter := [Lo(win.yStart), Hi(win.yStart)];
      r := SendBlock(DATA_ENTRY_MODE, [dem]);
      ghost var p := Calls([Cmd(DATA_ENTRY_MODE), Data([dem])]);

      if r.Done? {
        r := SendBlock(SET_RAM_X_RANGE, xRange);
      }
      RunThen(p, Calls([Cmd(SET_RAM_X_RANGE), Data(xRange)]), s0);
      p := p.Then(Calls([Cmd(SET_RAM_X_RANGE), Data(xRange)]));
      assert (Now(), r) == Run(p, s0);

      if r.Done? {
        r := SendBlock(SET_RAM_Y_RANGE, yRange);
      }
      RunThen(p, Calls([Cmd(SET_RAM_Y_RANGE), Data(yRange)]), s0);
      p := p.Then(Calls([Cmd(SET_RAM_Y_RANGE), Data(yRange)]));
      assert (Now(), r) == Run(p, s0);

      if r.Done? {
        r := SendBlock(SET_RAM_X_COUNTER, xCounter);
      }
      RunThen(p, Calls([Cmd(SET_RAM_X_COUNTER), Data(xCounter)]), s0);
      p := p.Then(Calls([Cmd(SET_RAM_X_COUNTER), Data(xCounter)]));
      assert (Now(), r) == Run(p, s0);

      if r.Done? {
        r := SendBlock(SET_RAM_Y_COUNTER, yCounter);
      }
      RunThen(p, Calls([Cmd(SET_RAM_Y_COUNTER), Data(yCounter)]), s0);
      p := p.Then(Calls([Cmd(SET_RAM_Y_COUNTER), Data(yCounter)]));
      assert (Now(), r) == Run(p, s0);
      WindowBlocks(dem, win);
    }

    /** The built-in LUT an update loads for its mode, if it loads one. */
    method LoadBuiltinLut(mode: RefreshMode, useBuiltinLut: bool) returns (r: Outcome)
      modifies bus
      ensures (Now(), r) == Run(BuiltinLutPlan(mode, useBuiltinLut, lutPartial, lutFast), old(Now()))
    {
      RunNoCalls(Now(), false, Interface);
      r := Done;
      if useBuiltinLut {
        match mode
        case Full =>
        case Partial => r := LoadLut(lutPartial);
        case Fast => r := LoadLut(lutFast);
      }
    }

    /** The red plane written before the refresh, under the three-way policy. */
    method WriteRedBefore(black: seq<byte>, red: seq<byte>, mode: RefreshMode, expected: nat) returns (r: Outcome)
      requires expected <= |black| && (ExplicitRed(red) ==> expected <= |red|)
      modifies bus
      ensures (Now(), r) == Run(RedBeforePlan(black, red, mode, expected), old(Now()))
    {
      var explicitRed := !(|red| == 0) && AnyNonZero(red);
      var syncRedBeforeRefresh := mode != Fast && !explicitRed;
      RunNoCalls(Now(), false, Interface);
      r := Done;
      if explicitRed {
        r := SendBlock(WRITE_RAM_RED, red[..expected]);
      } else if syncRedBeforeRefresh {
        r := SendBlock(WRITE_RAM_RED, black[..expected]);
      }
    }

    /** The red re-sync after a single-buffer Fast refresh. */
    method Resync(area: Region, black: seq<byte>, red: seq<byte>, mode: RefreshMode, expected: nat)
      returns (r: Outcome)
      requires Valid() && expected <= |black|
      modifies bus
      ensures (Now(), r) == Run(ResyncPlan(config, area, black, red, mode, expected), old(Now()))
    {
      ghost var s0 := Now();
      var explicitRed := !(|red| == 0) && AnyNonZero(red);
      var singleBufferFast := mode == Fast && !explicitRed;
      RunNoCalls(s0, false, Interface);
      r := Done;
      if singleBufferFast {
        r := SetRamArea(area.x, area.y, area.w, area.h);
        if r.Done? {
          r := SendBlock(WRITE_RAM_RED, black[..expected]);
        }
        RunThen(SetRamAreaPlan(config, area.x, area.y, area.w, area.h),
                Calls([Cmd(WRITE_RAM_RED), Data(black[..expected])]), s0);
      }
    }

    /** The part of an update before the refresh: LUT, window, BW plane, red RAM. */
    method WritePlanes(area: Region, black: seq<byte>, red: seq<byte>, mode: RefreshMode,
                       useBuiltinLut: bool, expected: nat) returns (r: Outcome)
      requires Valid() && expected <= |black|
      requires ExplicitRed(red) ==> expected <= |red|
      modifies bus
      ensures (Now(), r) == Run(PlanesPlan(config, lutPartial, lutFast, area, black, red,
                                           mode, useBuiltinLut, expected), old(Now()))
    {
      ghost var s0 := Now();
      r := LoadBuiltinLut(mode, useBuiltinLut);
      ghost var p := BuiltinLutPlan(mode, useBuiltinLut, lutPartial, lutFast);

      ghost var window := SetRamAreaPlan(config, area.x, area.y, area.w, area.h);
      if r.Done? {
        r := SetRamArea(area.x, area.y, area.w, area.h);
      }
      RunThen(p, window, s0);
      p := p.Then(window);
      assert (Now(), r) == Run(p, s0);

      if r.Done? {
        r := SendBlock(WRITE_RAM_BW, black[..expected]);
      }
      RunThen(p, Calls([Cmd(WRITE_RAM_BW), Data(black[..expected])]), s0);
      p := p.Then(Calls([Cmd(WRITE_RAM_BW), Data(black[..expected])]));
      assert (Now(), r) == Run(p, s0);

      if r.Done? {
        r := WriteRedBefore(black, red, mode, expected);
      }
      RunThen(p, RedBeforePlan(black, red, mode, expected), s0);
      p := p.Then(RedBeforePlan(black, red, mode, expected));
      assert (Now(), r) == Run(p, s0);
    }

    /**
     * What both update operations do once the buffers are sized: the
     * planes, the refresh, and the red re-sync.
     */
    method Upload(area: Region, black: seq<byte>, red: seq<byte>, mode: RefreshMode,
                  useBuiltinLut: bool, expected: nat) returns (r: Outcome)
      requires Valid() && expected <= |black|
      requires ExplicitRed(red) ==> expected <= |red|
      modifies this, bus
      ensures (Now(), r) == Run(UploadPlan(config, old(isDisplayOn), lutPartial, lutFast, area, black, red,
                                           mode, useBuiltinLut, expected), old(Now()))
    {
      ghost var s0 := Now();
      var explicitRed := !(|red| == 0) && AnyNonZero(red);
      var singleBufferFast := mode == Fast && !explicitRed;
      var useRedForRefresh := explicitRed || singleBufferFast;

      r := WritePlanes(area, black, red, mode, useBuiltinLut, expected);
      ghost var p := PlanesPlan(config, lutPartial, lutFast, area, black, red, mode, useBuiltinLut, expected);
      ghost var refresh := RefreshPlan(config, s0.on, mode, false, useRedForRefresh);
      ghost var resync := ResyncPlan(config, area, black, red, mode, expected);
      assert isDisplayOn == s0.on;
      assert (Now(), r) == Run(p, s0);

      if r.Done? {
        r := RefreshAndResync(area, black, red, mode, expected, useRedForRefresh);
      }
      RunThen(p, refresh.Then(resync), s0);
      ThenAssoc(p, refresh, resync);
    }

    /** The refresh of an update and the red re-sync after it. */
    method RefreshAndResync(area: Region, black: seq<byte>, red: seq<byte>, mode: RefreshMode,
                            expected: nat, useRed: bool) returns (r: Outcome)
      requires Valid() && expected <= |black|
      modifies this, bus
      ensures (Now(), r) == Run(RefreshPlan(config, old(isDisplayOn), mode, false, useRed)
                                  .Then(ResyncPlan(config, area, black, red, mode, expected)), old(Now()))
    {
      ghost var s0 := Now();
      ghost var refresh := RefreshPlan(config, s0.on, mode, false, useRed);
      r := RefreshWithMode(mode, false, useRed);
      assert (Now(), r) == Run(refresh, s0);
      if r.Done? {
        r := Resync(area, black, red, mode, expected);
      }
      RunThen(refresh, ResyncPlan(config, area, black, red, mode, expected), s0);
    }

    /**
     * `update_with_mode_internal`: the whole frame. The black plane must
     * hold a frame; the red plane only when it is explicit.
     */
    method UpdateWithModeInternal(black: seq<byte>, red: seq<byte>, mode: RefreshMode, useBuiltinLut: bool)
      returns (r: Outcome)
      requires Valid()
      modifies this, bus
      ensures (Now(), r) == Run(UpdatePlan(config, old(isDisplayOn), lutPartial, lutFast, black, red,
                                           mode, useBuiltinLut), old(Now()))
    {
      var explicitRed := !(|red| == 0) && AnyNonZero(red);
      var expected := BufferSize(config.dimensions);
      if |black| < expected {
        RunNoCalls(Now(), false, BufferTooSmall(expected, |black|));
        return Failed(BufferTooSmall(expected, |black|));
      }
      if explicitRed && |red| < expected {
        RunNoCalls(Now(), false, BufferTooSmall(expected, |red|));
        return Failed(BufferTooSmall(expected, |red|));
      }
      r := Upload(Region(0, 0, config.dimensions.cols, config.dimensions.rows), black, red, mode,
                  useBuiltinLut, expected);
    }

    /** `update_region_internal`: one rectangle, sized `(w / 8) * h`. */
    method UpdateRegionInternal(u: UpdateRegion, useBuiltinLut: bool) returns (r: Outcome)
      requires Valid()
      modifies this, bus
      ensures (Now(), r) == Run(UpdateRegionPlan(config, old(isDisplayOn), lutPartial, lutFast, u,
                                                 useBuiltinLut), old(Now()))
    {
      var explicitRed := !(|u.redBuffer| == 0) && AnyNonZero(u.redBuffer);
      var expected := RegionBufferSize(u.region);
      if |u.blackBuffer| < expected {
        RunNoCalls(Now(), false, BufferTooSmall(expected, |u.blackBuffer|));
        return Failed(BufferTooSmall(expected, |u.blackBuffer|));
      }
      if explicitRed && |u.redBuffer| < expected {
        RunNoCalls(Now(), false, BufferTooSmall(expected, |u.redBuffer|));
        return Failed(BufferTooSmall(expected, |u.redBuffer|));
      }
      r := Upload(u.region, u.blackBuffer, u.redBuffer, u.mode, useBuiltinLut, expected);
    }

    /** `update`: a Full update with the built-in LUTs. */
    method Update(black: seq<byte>, red: seq<byte>) returns (r: Outcome)
      requires Valid()
      modifies this, bus
      ensures (Now(), r) == Run(UpdatePlan(config, old(isDisplayOn), lutPartial, lutFast, black, red,
                                           Full, true), old(Now()))
    {
      r := UpdateWithMode(black, red, Full);
    }

    /** `update_with_mode`: the built-in LUT for the mode is loaded first. */
    method UpdateWithMode(black: seq<byte>, red: seq<byte>, mode: RefreshMode) returns (r: Outcome)
      requires Valid()
      modifies this, bus
      ensures (Now(), r) == Run(UpdatePlan(config, old(isDisplayOn), lutPartial, lutFast, black, red,
                                           mode, true), old(Now()))
    {
      r := UpdateWithModeInternal(black, red, mode, true);
    }

    /** `update_with_mode_no_lut`: the LUT in the controller is left as it is. */
    method UpdateWithModeNoLut(black: seq<byte>, red: seq<byte>, mode: RefreshMode) returns (r: Outcome)
      requires Valid()
      modifies this, bus
      ensures (Now(), r) == Run(UpdatePlan(config, old(isDisplayOn), lutPartial, lutFast, black, red,
                                           mode, false), old(Now()))
    {
      r := UpdateWithModeInternal(black, red, mode, false);
    }

    /** `update_with_custom_lut`: the caller's LUT, then an update without the built-in ones. */
    method UpdateWithCustomLut(black: seq<byte>, red: seq<byte>, mode: RefreshMode, lut: seq<byte>)
      returns (r: Outcome)
      requires Valid()
      modifies this, bus
      ensures (Now(), r) == Run(LoadLutPlan(lut).Then(UpdatePlan(config, old(isDisplayOn), lutPartial, lutFast,
                                                                 black, red, mode, false)), old(Now()))
    {
      ghost var s0 := Now();
      r := LoadLut(lut);
      if r.Done? {
        r := UpdateWithModeInternal(black, red, mode, false);
      }
      RunThen(LoadLutPlan(lut), UpdatePlan(config, s0.on, lutPartial, lutFast, black, red, mode, false), s0);
    }

    /** `update_region`: a region update with the built-in LUTs. */
    method UpdateRegionCall(u: UpdateRegion) returns (r: Outcome)
      requires Valid()
      modifies this, bus
      ensures (Now(), r) == Run(UpdateRegionPlan(config, old(isDisplayOn), lutPartial, lutFast, u, true), old(Now()))
    {
      r := UpdateRegionInternal(u, true);
    }

    /** `update_region_no_lut`. */
    method UpdateRegionNoLut(u: UpdateRegion) returns (r: Outcome)
      requires Valid()
      modifies this, bus
      ensures (Now(), r) == Run(UpdateRegionPlan(config, old(isDisplayOn), lutPartial, lutFast, u, false), old(Now()))
    {
      r := UpdateRegionInternal(u, false);
    }

    /** `update_region_with_custom_lut`: the caller's LUT, then a region update without the built-in ones. */
    method UpdateRegionWithCustomLut(u: UpdateRegion, lut: seq<byte>) returns (r: Outcome)
      requires Valid()
      modifies this, bus
      ensures (Now(), r) == Run(LoadLutPlan(lut).Then(UpdateRegionPlan(config, old(isDisplayOn), lutPartial, lutFast,
                                                                       u, false)), old(Now()))
    {
      ghost var s0 := Now();
      r := LoadLut(lut);
      if r.Done? {
        r := UpdateRegionInternal(u, false);
      }
      RunThen(LoadLutPlan(lut), UpdateRegionPlan(config, s0.on, lutPartial, lutFast, u, false), s0);
    }
  }

  /** The five register writes of a window, block by block. */
  lemma WindowBlocks(dem: byte, win: Window)
    requires Fits16(win)
    ensures
      Calls([Cmd(DATA_ENTRY_MODE), Data([dem])])
        .Then(Calls([Cmd(SET_RAM_X_RANGE), Data([Lo(win.xStart), Hi(win.xStart), Lo(win.xEnd), Hi(win.xEnd)])]))
        .Then(Calls([Cmd(SET_RAM_Y_RANGE), Data([Lo(win.yStart), Hi(win.yStart), Lo(win.yEnd), Hi(win.yEnd)])]))
        .Then(Calls([Cmd(SET_RAM_X_COUNTER), Data([Lo(win.xStart), Hi(win.xStart)])]))
        .Then(Calls([Cmd(SET_RAM_Y_COUNTER), Data([Lo(win.yStart), Hi(win.yStart)])]))
      == Calls(WindowEvents(dem, win))
  {
  }

  /** The driver's two conditional `|=` steps compute `Ctrl2`. */
  lemma Ctrl2Steps(m: byte, on: byte, off: byte, wasOn: bool, turnOff: bool)
    ensures var m' := if !wasOn then m | on else m;
      (if turnOff then m' | off else m') == Ctrl2(m, on, off, wasOn, turnOff)
  {
    var a := if wasOn then 0 else on;
    var d := if turnOff then off else 0;
    assert (m | a) | d == m | (a | d);
    assert m | 0 == m;
  }
}
