// A reference model of the controller side of the link: which register
// writes change which of its RAM planes, and what a master activation
// shows. Replaying an update's calls through it states the red-plane
// policy of `update_with_mode_internal` and `update_region_internal`
// (src/display.rs) as what the panel ends up holding.
module Controller {
  import opened Command
  import opened Errors
  import opened Config
  import opened Interface
  import opened Trace
  import opened RamArea
  import opened Display

  /** One refresh: the two planes it reads and the CTRL1 byte it runs with. */
  datatype Frame = Frame(bw: seq<byte>, red: seq<byte>, ctrl1: byte)

  /**
   * The controller: the last command (which data bytes belong to), the
   * data last written to each RAM window, the current CTRL1 byte, and the
   * frames shown so far.
   */
  datatype Panel = Panel(last: Option<byte>, bwRam: seq<byte>, redRam: seq<byte>, ctrl1: byte, frames: seq<Frame>)

  /** The opcodes whose data or whose arrival changes what the panel shows. */
  predicate Effect(op: byte)
  {
    op == WRITE_RAM_BW || op == WRITE_RAM_RED || op == DISPLAY_UPDATE_CTRL1 || op == MASTER_ACTIVATION
  }

  /** One call as the controller takes it. */
  function Step(p: Panel, e: Event): Panel
  {
    match e
    case Cmd(op) =>
      if op == MASTER_ACTIVATION then p.(last := Some(op), frames := p.frames + [Frame(p.bwRam, p.redRam, p.ctrl1)])
      else p.(last := Some(op))
    case Data(bytes) =>
      if p.last == Some(WRITE_RAM_BW) then p.(bwRam := bytes)
      else if p.last == Some(WRITE_RAM_RED) then p.(redRam := bytes)
      else if p.last == Some(DISPLAY_UPDATE_CTRL1) && |bytes| > 0 then p.(ctrl1 := bytes[0])
      else p
    case BusyWait => p
  }

  /** A run of calls, in order. Frames once shown stay shown. */
  function Replay(p: Panel, es: seq<Event>): (q: Panel)
    ensures p.frames <= q.frames
    decreases |es|
  {
    if |es| == 0 then p
    else
      var q := Replay(Step(p, es[0]), es[1..]);
      assert p.frames <= Step(p, es[0]).frames;
      q
  }

  lemma ReplayAppend(p: Panel, a: seq<Event>, b: seq<Event>)
    ensures Replay(p, a + b) == Replay(Replay(p, a), b)
    decreases |a|
  {
    if |a| != 0 {
      assert (a + b)[0] == a[0];
      assert (a + b)[1..] == a[1..] + b;
      ReplayAppend(Step(p, a[0]), a[1..], b);
    } else {
      assert a + b == b;
    }
  }

  /** Nothing that shows has changed between `p` and `q`. */
  predicate Unchanged(p: Panel, q: Panel)
  {
    q.bwRam == p.bwRam && q.redRam == p.redRam && q.ctrl1 == p.ctrl1 && q.frames == p.frames
  }

  /** Data sent now would change nothing that shows. */
  predicate QuietLast(p: Panel)
  {
    p.last.None? || !Effect(p.last.value)
  }

  predicate QuietCalls(es: seq<Event>)
  {
    forall i :: 0 <= i < |es| ==> (es[i].Cmd? ==> !Effect(es[i].op))
  }

  /** Calls that name no effect opcode leave the panel's picture as it was. */
  lemma {:induction false} QuietReplay(p: Panel, es: seq<Event>)
    requires QuietLast(p) && QuietCalls(es)
    ensures Unchanged(p, Replay(p, es)) && QuietLast(Replay(p, es))
    decreases |es|
  {
    if |es| != 0 {
      assert QuietCalls(es[1..]) by {
        forall i | 0 <= i < |es[1..]| ensures es[1..][i].Cmd? ==> !Effect(es[1..][i].op) {
          assert es[1..][i] == es[i + 1];
        }
      }
      assert es[0].Cmd? ==> !Effect(es[0].op);
      QuietReplay(Step(p, es[0]), es[1..]);
    }
  }

  /** So does a block opening with such a command, whatever came before. */
  lemma QuietBlock(p: Panel, es: seq<Event>)
    requires |es| != 0 && es[0].Cmd? && QuietCalls(es)
    ensures Unchanged(p, Replay(p, es)) && QuietLast(Replay(p, es))
  {
    assert !Effect(es[0].op);
    assert QuietCalls(es[1..]) by {
      forall i | 0 <= i < |es[1..]| ensures es[1..][i].Cmd? ==> !Effect(es[1..][i].op) {
        assert es[1..][i] == es[i + 1];
      }
    }
    QuietReplay(Step(p, es[0]), es[1..]);
  }

  /** A command and its data block. */
  lemma ReplayPair(p: Panel, a: Event, b: Event)
    ensures Replay(p, [a, b]) == Step(Step(p, a), b)
  {
    assert [a, b][1..] == [b];
    assert [b][1..] == [];
    assert Replay(Step(Step(p, a), b), []) == Step(Step(p, a), b);
    assert Replay(Step(p, a), [b]) == Replay(Step(Step(p, a), b), []);
  }

  /**
   * The frame an update shows, as the red-plane policy describes it: the
   * caller's red plane with red RAM read; for Full and Partial without one,
   * red RAM bypassed; for Fast without one, red RAM read but left holding
   * the previous frame, so the refresh is a differential one.
   */
  function PolicyFrame(previousRed: seq<byte>, black: seq<byte>, red: seq<byte>, mode: RefreshMode, expected: nat): Frame
    requires expected <= |black| && (ExplicitRed(red) ==> expected <= |red|)
  {
    if ExplicitRed(red) then Frame(black[..expected], red[..expected], CTRL1_NORMAL)
    else if mode != Fast then Frame(black[..expected], black[..expected], CTRL1_BYPASS_RED)
    else Frame(black[..expected], previousRed, CTRL1_NORMAL)
  }

  /** The window's register writes name no effect opcode. */
  lemma WindowQuiet(dem: byte, win: Window)
    requires Fits16(win)
    ensures var es := WindowEvents(dem, win); es[0].Cmd? && QuietCalls(es)
  {
  }

  /** The calls of a successful update, in the controller's terms. */
  function UploadCalls(lutE: seq<Event>, win: seq<Event>, black: seq<byte>, red: seq<byte>, mode: RefreshMode,
                       expected: nat, c1: byte, c2: byte): seq<Event>
    requires expected <= |black| && (ExplicitRed(red) ==> expected <= |red|)
  {
    lutE + win + [Cmd(WRITE_RAM_BW), Data(black[..expected])]
    + RedBeforePlan(black, red, mode, expected).events
    + [Cmd(DISPLAY_UPDATE_CTRL1), Data([c1]), Cmd(DISPLAY_UPDATE_CTRL2), Data([c2]), Cmd(MASTER_ACTIVATION), BusyWait]
    + (if mode == Fast && !ExplicitRed(red) then win + [Cmd(WRITE_RAM_RED), Data(black[..expected])] else [])
  }

  /** The calls of an update whose every check passes, part by part. */
  lemma UploadEvents(c: Config, wasOn: bool, lutPartial: seq<byte>, lutFast: seq<byte>,
                     area: Region, black: seq<byte>, red: seq<byte>, mode: RefreshMode,
                     useBuiltinLut: bool, expected: nat)
    requires ValidDimensions(c.dimensions) && expected <= |black|
    requires ExplicitRed(red) ==> expected <= |red|
    requires |lutPartial| == LUT_SIZE && |lutFast| == LUT_SIZE
    requires AreaError(c.dimensions, area.x, area.y, area.w, area.h).None?
    ensures var plan := UploadPlan(c, wasOn, lutPartial, lutFast, area, black, red, mode, useBuiltinLut, expected);
      && plan.stop == Done
      && plan.events == UploadCalls(BuiltinLutPlan(mode, useBuiltinLut, lutPartial, lutFast).events,
                                    WindowEvents(c.dataEntryMode, RamWindow(c, area.x, area.y, area.w, area.h)),
                                    black, red, mode, expected, Ctrl1(RefreshUsesRed(red, mode)),
                                    Ctrl2(ModeCtrl2(c, mode), c.powerOn, c.powerOff, wasOn, false))
  {
    var lutE := BuiltinLutPlan(mode, useBuiltinLut, lutPartial, lutFast).events;
    var win := WindowEvents(c.dataEntryMode, RamWindow(c, area.x, area.y, area.w, area.h));
    var c1, c2 := Ctrl1(RefreshUsesRed(red, mode)), Ctrl2(ModeCtrl2(c, mode), c.powerOn, c.powerOff, wasOn, false);
    var planes := PlanesPlan(c, lutPartial, lutFast, area, black, red, mode, useBuiltinLut, expected);
    var refresh := RefreshPlan(c, wasOn, mode, false, RefreshUsesRed(red, mode));
    var resync := ResyncPlan(c, area, black, red, mode, expected);
    PlanesEvents(c, lutPartial, lutFast, area, black, red, mode, useBuiltinLut, expected);
    RefreshEvents(c, wasOn, mode, RefreshUsesRed(red, mode));
    ResyncEvents(c, area, black, red, mode, expected);
    assert planes.Then(refresh).events == planes.events + refresh.events;
    assert planes.Then(refresh).Then(resync).events == planes.events + refresh.events + resync.events;
  }

  /** The calls before the refresh: LUT, window, BW plane, red RAM. */
  lemma PlanesEvents(c: Config, lutPartial: seq<byte>, lutFast: seq<byte>,
                     area: Region, black: seq<byte>, red: seq<byte>, mode: RefreshMode,
                     useBuiltinLut: bool, expected: nat)
    requires ValidDimensions(c.dimensions) && expected <= |black|
    requires ExplicitRed(red) ==> expected <= |red|
    requires |lutPartial| == LUT_SIZE && |lutFast| == LUT_SIZE
    requires AreaError(c.dimensions, area.x, area.y, area.w, area.h).None?
    ensures var p := PlanesPlan(c, lutPartial, lutFast, area, black, red, mode, useBuiltinLut, expected);
      && p.stop == Done
      && p.events == BuiltinLutPlan(mode, useBuiltinLut, lutPartial, lutFast).events
                     + WindowEvents(c.dataEntryMode, RamWindow(c, area.x, area.y, area.w, area.h))
                     + [Cmd(WRITE_RAM_BW), Data(black[..expected])]
                     + RedBeforePlan(black, red, mode, expected).events
  {
    var lut := BuiltinLutPlan(mode, useBuiltinLut, lutPartial, lutFast);
    var window := SetRamAreaPlan(c, area.x, area.y, area.w, area.h);
    assert lut.stop == Done;
    assert window.stop == Done;
  }

  /** The refresh calls: CTRL1, CTRL2, activation, busy wait. */
  lemma RefreshEvents(c: Config, wasOn: bool, mode: RefreshMode, useRed: bool)
    ensures RefreshPlan(c, wasOn, mode, false, useRed).events
            == [Cmd(DISPLAY_UPDATE_CTRL1), Data([Ctrl1(useRed)]),
                Cmd(DISPLAY_UPDATE_CTRL2), Data([Ctrl2(ModeCtrl2(c, mode), c.powerOn, c.powerOff, wasOn, false)]),
                Cmd(MASTER_ACTIVATION), BusyWait]
  {
  }

  /** The re-sync calls: for single-buffer Fast the window and the BW plane into red RAM, else none. */
  lemma ResyncEvents(c: Config, area: Region, black: seq<byte>, red: seq<byte>, mode: RefreshMode, expected: nat)
    requires ValidDimensions(c.dimensions) && expected <= |black|
    requires AreaError(c.dimensions, area.x, area.y, area.w, area.h).None?
    ensures var p := ResyncPlan(c, area, black, red, mode, expected);
      && p.stop == Done
      && p.events == (if mode == Fast && !ExplicitRed(red)
                      then WindowEvents(c.dataEntryMode, RamWindow(c, area.x, area.y, area.w, area.h))
                           + [Cmd(WRITE_RAM_RED), Data(black[..expected])]
                      else [])
  {
  }

  /** LUT, window, BW plane and red RAM before the refresh, replayed. */
  lemma ReplayPlanes(p0: Panel, lutE: seq<Event>, win: seq<Event>, black: seq<byte>, red: seq<byte>,
                     mode: RefreshMode, expected: nat)
    requires (|lutE| != 0 ==> lutE[0].Cmd?) && QuietCalls(lutE)
    requires |win| != 0 && win[0].Cmd? && QuietCalls(win)
    requires expected <= |black| && (ExplicitRed(red) ==> expected <= |red|)
    ensures var p4 := Replay(p0, lutE + win + [Cmd(WRITE_RAM_BW), Data(black[..expected])]
                                 + RedBeforePlan(black, red, mode, expected).events);
      && p4.bwRam == black[..expected] && p4.frames == p0.frames
      && p4.redRam == (if ExplicitRed(red) then red[..expected] else if mode != Fast then black[..expected] else p0.redRam)
  {
    var bwE := [Cmd(WRITE_RAM_BW), Data(black[..expected])];
    var beforeE := RedBeforePlan(black, red, mode, expected).events;
    var p1 := Replay(p0, lutE);
    if |lutE| != 0 {
      QuietBlock(p0, lutE);
    }
    var p2 := Replay(p1, win);
    QuietBlock(p1, win);
    ReplayAppend(p0, lutE, win);
    var p3 := Replay(p2, bwE);
    ReplayPair(p2, bwE[0], bwE[1]);
    ReplayAppend(p0, lutE + win, bwE);
    if |beforeE| != 0 {
      ReplayPair(p3, beforeE[0], beforeE[1]);
    }
    ReplayAppend(p0, lutE + win + bwE, beforeE);
  }

  /** A refresh shows the two RAM planes under the CTRL1 byte it sends. */
  lemma ReplayRefresh(p: Panel, c1: byte, c2: byte)
    ensures var q := Replay(p, [Cmd(DISPLAY_UPDATE_CTRL1), Data([c1]), Cmd(DISPLAY_UPDATE_CTRL2), Data([c2]),
                                Cmd(MASTER_ACTIVATION), BusyWait]);
      && q.frames == p.frames + [Frame(p.bwRam, p.redRam, c1)]
      && q.bwRam == p.bwRam && q.redRam == p.redRam && q.ctrl1 == c1
  {
    var a, b, d := [Cmd(DISPLAY_UPDATE_CTRL1), Data([c1])], [Cmd(DISPLAY_UPDATE_CTRL2), Data([c2])],
                   [Cmd(MASTER_ACTIVATION), BusyWait];
    ReplayPair(p, a[0], a[1]);
    var r1 := Replay(p, a);
    ReplayPair(r1, b[0], b[1]);
    var r2 := Replay(r1, b);
    ReplayPair(r2, d[0], d[1]);
    ReplayAppend(p, a, b);
    ReplayAppend(p, a + b, d);
    assert a + b + d == [Cmd(DISPLAY_UPDATE_CTRL1), Data([c1]), Cmd(DISPLAY_UPDATE_CTRL2), Data([c2]),
                         Cmd(MASTER_ACTIVATION), BusyWait];
  }

  /** The re-sync leaves the black plane in red RAM and shows nothing. */
  lemma ReplayResync(p: Panel, win: seq<Event>, plane: seq<byte>)
    requires |win| != 0 && win[0].Cmd? && QuietCalls(win)
    ensures var q := Replay(p, win + [Cmd(WRITE_RAM_RED), Data(plane)]);
      q.bwRam == p.bwRam && q.redRam == plane && q.frames == p.frames
  {
    QuietBlock(p, win);
    ReplayPair(Replay(p, win), Cmd(WRITE_RAM_RED), Data(plane));
    ReplayAppend(p, win, [Cmd(WRITE_RAM_RED), Data(plane)]);
  }

  lemma ReplayUpload(p0: Panel, lutE: seq<Event>, win: seq<Event>, black: seq<byte>, red: seq<byte>,
                     mode: RefreshMode, expected: nat, c1: byte, c2: byte)
    requires (|lutE| != 0 ==> lutE[0].Cmd?) && QuietCalls(lutE)
    requires |win| != 0 && win[0].Cmd? && QuietCalls(win)
    requires expected <= |black| && (ExplicitRed(red) ==> expected <= |red|)
    ensures var q := Replay(p0, UploadCalls(lutE, win, black, red, mode, expected, c1, c2));
      var shown := if ExplicitRed(red) then red[..expected] else if mode != Fast then black[..expected] else p0.redRam;
      && q.frames == p0.frames + [Frame(black[..expected], shown, c1)]
      && q.bwRam == black[..expected]
      && q.redRam == (if ExplicitRed(red) then red[..expected] else black[..expected])
  {
    var planesE := lutE + win + [Cmd(WRITE_RAM_BW), Data(black[..expected])]
                   + RedBeforePlan(black, red, mode, expected).events;
    var refreshE := [Cmd(DISPLAY_UPDATE_CTRL1), Data([c1]), Cmd(DISPLAY_UPDATE_CTRL2), Data([c2]),
                     Cmd(MASTER_ACTIVATION), BusyWait];
    var resyncE := if mode == Fast && !ExplicitRed(red) then win + [Cmd(WRITE_RAM_RED), Data(black[..expected])] else [];
    ReplayPlanes(p0, lutE, win, black, red, mode, expected);
    var p4 := Replay(p0, planesE);
    ReplayRefresh(p4, c1, c2);
    ReplayAppend(p0, planesE, refreshE);
    var p5 := Replay(p4, refreshE);
    if mode == Fast && !ExplicitRed(red) {
      ReplayResync(p5, win, black[..expected]);
    }
    ReplayAppend(p0, planesE + refreshE, resyncE);
  }

  /**
   * The red-plane policy. Replayed through the controller, a successful
   * update shows exactly one new frame, the policy's frame; afterwards BW
   * RAM holds the black plane, and red RAM the caller's red plane if there
   * is one and the black plane otherwise (in Fast mode only after the
   * refresh).
   */
  lemma RedPolicy(c: Config, wasOn: bool, lutPartial: seq<byte>, lutFast: seq<byte>,
                  area: Region, black: seq<byte>, red: seq<byte>, mode: RefreshMode,
                  useBuiltinLut: bool, expected: nat, p0: Panel)
    requires ValidDimensions(c.dimensions) && expected <= |black|
    requires ExplicitRed(red) ==> expected <= |red|
    requires |lutPartial| == LUT_SIZE && |lutFast| == LUT_SIZE
    requires AreaError(c.dimensions, area.x, area.y, area.w, area.h).None?
    ensures var plan := UploadPlan(c, wasOn, lutPartial, lutFast, area, black, red, mode, useBuiltinLut, expected);
      var q := Replay(p0, plan.events);
      && plan.stop == Done
      && q.frames == p0.frames + [PolicyFrame(p0.redRam, black, red, mode, expected)]
      && q.bwRam == black[..expected]
      && q.redRam == (if ExplicitRed(red) then red[..expected] else black[..expected])
  {
    var lutE := BuiltinLutPlan(mode, useBuiltinLut, lutPartial, lutFast).events;
    var win := WindowEvents(c.dataEntryMode, RamWindow(c, area.x, area.y, area.w, area.h));
    var c1 := Ctrl1(RefreshUsesRed(red, mode));
    UploadEvents(c, wasOn, lutPartial, lutFast, area, black, red, mode, useBuiltinLut, expected);
    WindowQuiet(c.dataEntryMode, RamWindow(c, area.x, area.y, area.w, area.h));
    LutQuiet(mode, useBuiltinLut, lutPartial, lutFast);
    ReplayUpload(p0, lutE, win, black, red, mode, expected, c1,
                 Ctrl2(ModeCtrl2(c, mode), c.powerOn, c.powerOff, wasOn, false));
    PolicyFrameShown(p0.redRam, black, red, mode, expected);
  }

  /** The built-in LUT calls name no effect opcode. */
  lemma LutQuiet(mode: RefreshMode, useBuiltinLut: bool, lutPartial: seq<byte>, lutFast: seq<byte>)
    ensures var lutE := BuiltinLutPlan(mode, useBuiltinLut, lutPartial, lutFast).events;
      (|lutE| != 0 ==> lutE[0].Cmd?) && QuietCalls(lutE)
  {
  }

  /** The policy frame is the two planes shown under the CTRL1 byte of `use_red_for_refresh`. */
  lemma PolicyFrameShown(previousRed: seq<byte>, black: seq<byte>, red: seq<byte>, mode: RefreshMode, expected: nat)
    requires expected <= |black| && (ExplicitRed(red) ==> expected <= |red|)
    ensures PolicyFrame(previousRed, black, red, mode, expected)
            == Frame(black[..expected],
                     if ExplicitRed(red) then red[..expected] else if mode != Fast then black[..expected] else previousRed,
                     Ctrl1(RefreshUsesRed(red, mode)))
  {
  }

  /** The policy for `update_with_mode_internal`, whose window is the whole panel. */
  lemma UpdateRedPolicy(c: Config, wasOn: bool, lutPartial: seq<byte>, lutFast: seq<byte>,
                        black: seq<byte>, red: seq<byte>, mode: RefreshMode, useBuiltinLut: bool, p0: Panel)
    requires ValidDimensions(c.dimensions) && |lutPartial| == LUT_SIZE && |lutFast| == LUT_SIZE
    requires SizeError(black, red, BufferSize(c.dimensions)).None?
    ensures var plan := UpdatePlan(c, wasOn, lutPartial, lutFast, black, red, mode, useBuiltinLut);
      var n := BufferSize(c.dimensions);
      var q := Replay(p0, plan.events);
      && plan.stop == Done
      && q.frames == p0.frames + [PolicyFrame(p0.redRam, black, red, mode, n)]
      && q.bwRam == black[..n]
      && q.redRam == (if ExplicitRed(red) then red[..n] else black[..n])
  {
    var d := c.dimensions;
    assert AreaError(d, 0, 0, d.cols, d.rows).None?;
    RedPolicy(c, wasOn, lutPartial, lutFast, Region(0, 0, d.cols, d.rows), black, red, mode, useBuiltinLut,
              BufferSize(d), p0);
  }

  /** The policy for `update_region_internal`, for a rectangle the panel accepts. */
  lemma RegionRedPolicy(c: Config, wasOn: bool, lutPartial: seq<byte>, lutFast: seq<byte>,
                        u: UpdateRegion, useBuiltinLut: bool, p0: Panel)
    requires ValidDimensions(c.dimensions) && |lutPartial| == LUT_SIZE && |lutFast| == LUT_SIZE
    requires SizeError(u.blackBuffer, u.redBuffer, RegionBufferSize(u.region)).None?
    requires AreaError(c.dimensions, u.region.x, u.region.y, u.region.w, u.region.h).None?
    ensures var plan := UpdateRegionPlan(c, wasOn, lutPartial, lutFast, u, useBuiltinLut);
      var n := RegionBufferSize(u.region);
      var q := Replay(p0, plan.events);
      && plan.stop == Done
      && q.frames == p0.frames + [PolicyFrame(p0.redRam, u.blackBuffer, u.redBuffer, u.mode, n)]
      && q.bwRam == u.blackBuffer[..n]
      && q.redRam == (if ExplicitRed(u.redBuffer) then u.redBuffer[..n] else u.blackBuffer[..n])
  {
    RedPolicy(c, wasOn, lutPartial, lutFast, u.region, u.blackBuffer, u.redBuffer, u.mode, useBuiltinLut,
              RegionBufferSize(u.region), p0);
  }
}
