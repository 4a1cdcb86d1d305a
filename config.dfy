// Panel dimensions, rotation, configuration and its builder (src/config.rs).
module Config {
  import opened Command
  import opened Errors

  /** Panel size: rows are gate outputs (height), columns source outputs (width). */
  datatype Dimensions = Dimensions(rows: u16, cols: u16)

  /** What `Dimensions::new` admits. */
  predicate ValidDimensions(d: Dimensions)
  {
    0 < d.rows <= MAX_GATE_OUTPUTS && 0 < d.cols <= MAX_SOURCE_OUTPUTS && d.cols % 8 == 0
  }

  /** `Dimensions::new`: validated construction. */
  function NewDimensions(rows: u16, cols: u16): (r: Result<Dimensions, BuilderError>)
    ensures r.Ok? <==> ValidDimensions(Dimensions(rows, cols))
    ensures r.Ok? ==> r.value.rows == rows && r.value.cols == cols
    ensures r.Err? ==> r.error == BuilderInvalidDimensions(rows, cols)
  {
    if rows == 0 || rows > MAX_GATE_OUTPUTS then Err(BuilderInvalidDimensions(rows, cols))
    else if cols == 0 || cols > MAX_SOURCE_OUTPUTS || cols % 8 != 0 then Err(BuilderInvalidDimensions(rows, cols))
    else Ok(Dimensions(rows, cols))
  }

  /**
   * Bytes of one packed 1-bit-per-pixel frame. For valid dimensions every row
   * is a whole number of bytes, so the frame is rows times the bytes per row.
   */
  function BufferSize(d: Dimensions): (n: nat)
    ensures 8 * n <= d.rows * d.cols < 8 * n + 8
    ensures d.cols % 8 == 0 ==> n == d.rows * (d.cols / 8)
    ensures ValidDimensions(d) ==> 0 < n <= MAX_GATE_OUTPUTS * MAX_SOURCE_OUTPUTS / 8
  {
    BufferSizeFacts(d);
    (d.rows * d.cols) / 8
  }

  lemma BufferSizeFacts(d: Dimensions)
    ensures d.cols % 8 == 0 ==> (d.rows * d.cols) / 8 == d.rows * (d.cols / 8)
    ensures ValidDimensions(d) ==> 0 < (d.rows * d.cols) / 8 <= MAX_GATE_OUTPUTS * MAX_SOURCE_OUTPUTS / 8
  {
    if d.cols % 8 == 0 {
      assert d.rows * d.cols == 8 * (d.rows * (d.cols / 8));
    }
    if ValidDimensions(d) {
      MulMono(d.rows, MAX_GATE_OUTPUTS, d.cols / 8, MAX_SOURCE_OUTPUTS / 8);
    }
  }

  lemma MulMono(a: nat, b: nat, c: nat, d: nat)
    requires a <= b && c <= d
    ensures a * c <= b * d
  {
  }

  datatype Rotation = Rotate0 | Rotate90 | Rotate180 | Rotate270

  datatype RamXAddressing = Pixels | Bytes

  /** A complete driver configuration, as `Builder::build` produces it. */
  datatype Config = Config(
    dimensions: Dimensions,
    rotation: Rotation,
    boosterSoftStart: seq<byte>,
    gateScanning: byte,
    borderWaveform: byte,
    vcom: byte,
    dataEntryMode: byte,
    ramXAddressing: RamXAddressing,
    ramYInverted: bool,
    ctrl2Full: byte,
    ctrl2Partial: byte,
    ctrl2Fast: byte,
    powerOn: byte,
    powerOff: byte,
    clearBwValue: byte,
    clearRedValue: byte,
    tempSensorControl: byte)

  /**
   * Logical dimensions as seen by drawing code: the panel's own for 0 and 180
   * degrees, rows and columns exchanged for 90 and 270 degrees.
   */
  function RotatedDimensions(c: Config): (r: Dimensions)
    ensures c.rotation in {Rotate0, Rotate180} ==> r == c.dimensions
    ensures c.rotation in {Rotate90, Rotate270} ==>
      r.rows == c.dimensions.cols && r.cols == c.dimensions.rows
    ensures r.rows * r.cols == c.dimensions.rows * c.dimensions.cols
    ensures BufferSize(r) == BufferSize(c.dimensions)
  {
    match c.rotation
    case Rotate0 => c.dimensions
    case Rotate180 => c.dimensions
    case Rotate90 => Dimensions(c.dimensions.cols, c.dimensions.rows)
    case Rotate270 => Dimensions(c.dimensions.cols, c.dimensions.rows)
  }

  /** The builder: the same settings as `Config`, with dimensions still optional. */
  datatype Builder = Builder(
    dimensions: Option<Dimensions>,
    rotation: Rotation,
    boosterSoftStart: seq<byte>,
    gateScanning: byte,
    borderWaveform: byte,
    vcom: byte,
    dataEntryMode: byte,
    ramXAddressing: RamXAddressing,
    ramYInverted: bool,
    ctrl2Full: byte,
    ctrl2Partial: byte,
    ctrl2Fast: byte,
    powerOn: byte,
    powerOff: byte,
    clearBwValue: byte,
    clearRedValue: byte,
    tempSensorControl: byte)
  {
    function WithDimensions(d: Dimensions): Builder { this.(dimensions := Some(d)) }
    function WithRotation(r: Rotation): Builder { this.(rotation := r) }
    function WithBoosterSoftStart(v: seq<byte>): Builder
      requires |v| == 5
    {
      this.(boosterSoftStart := v)
    }
    function WithGateScanning(v: byte): Builder { this.(gateScanning := v) }
    function WithBorderWaveform(v: byte): Builder { this.(borderWaveform := v) }
    function WithVcom(v: byte): Builder { this.(vcom := v) }
    function WithDataEntryMode(v: byte): Builder { this.(dataEntryMode := v) }
    function WithRamXAddressing(v: RamXAddressing): Builder { this.(ramXAddressing := v) }
    function WithRamYInverted(v: bool): Builder { this.(ramYInverted := v) }
    function WithCtrl2Full(v: byte): Builder { this.(ctrl2Full := v) }
    function WithCtrl2Partial(v: byte): Builder { this.(ctrl2Partial := v) }
    function WithCtrl2Fast(v: byte): Builder { this.(ctrl2Fast := v) }
    function WithPowerOn(v: byte): Builder { this.(powerOn := v) }
    function WithPowerOff(v: byte): Builder { this.(powerOff := v) }
    function WithClearBwValue(v: byte): Builder { this.(clearBwValue := v) }
    function WithClearRedValue(v: byte): Builder { this.(clearRedValue := v) }
    function WithTempSensorControl(v: byte): Builder { this.(tempSensorControl := v) }
  }

  /** `Builder::new` / `Builder::default`. */
  function NewBuilder(): Builder
  {
    Builder(
      dimensions := None,
      rotation := Rotate0,
      boosterSoftStart := [0xAE, 0xC7, 0xC3, 0xC0, 0x40],
      gateScanning := 0x02,
      borderWaveform := 0x01,
      vcom := 0x3C,
      dataEntryMode := 0x01,
      ramXAddressing := Pixels,
      ramYInverted := false,
      ctrl2Full := 0xF7,
      ctrl2Partial := 0xC7,
      ctrl2Fast := 0xC7,
      powerOn := 0xC0,
      powerOff := 0x03,
      clearBwValue := 0xFF,
      clearRedValue := 0x00,
      tempSensorControl := 0x80)
  }

  /** Every setting of `c` except the dimensions is the one `b` holds. */
  predicate SameSettings(c: Config, b: Builder)
  {
    && c.rotation == b.rotation
    && c.boosterSoftStart == b.boosterSoftStart
    && c.gateScanning == b.gateScanning
    && c.borderWaveform == b.borderWaveform
    && c.vcom == b.vcom
    && c.dataEntryMode == b.dataEntryMode
    && c.ramXAddressing == b.ramXAddressing
    && c.ramYInverted == b.ramYInverted
    && c.ctrl2Full == b.ctrl2Full
    && c.ctrl2Partial == b.ctrl2Partial
    && c.ctrl2Fast == b.ctrl2Fast
    && c.powerOn == b.powerOn
    && c.powerOff == b.powerOff
    && c.clearBwValue == b.clearBwValue
    && c.clearRedValue == b.clearRedValue
    && c.tempSensorControl == b.tempSensorControl
  }

  /** `Builder::build`: fails exactly when no dimensions were given. */
  function Build(b: Builder): (r: Result<Config, BuilderError>)
    ensures r.Err? <==> b.dimensions.None?
    ensures r.Err? ==> r.error == MissingDimensions
    ensures r.Ok? ==> Some(r.value.dimensions) == b.dimensions && SameSettings(r.value, b)
  {
    match b.dimensions
    case None => Err(MissingDimensions)
    case Some(d) =>
      Ok(Config(d, b.rotation, b.boosterSoftStart, b.gateScanning, b.borderWaveform, b.vcom,
                b.dataEntryMode, b.ramXAddressing, b.ramYInverted, b.ctrl2Full, b.ctrl2Partial,
                b.ctrl2Fast, b.powerOn, b.powerOff, b.clearBwValue, b.clearRedValue,
                b.tempSensorControl))
  }

  /** Building `b` with dimensions `d` succeeds, with `d` and every other setting `s` holds. */
  predicate BuildsAs(b: Builder, d: Dimensions, s: Builder)
  {
    var c := Build(b.WithDimensions(d));
    c.Ok? && c.value.dimensions == d && SameSettings(c.value, s)
  }

  /** `build` after `dimensions` keeps every other setting. */
  lemma BuildKeeps(b: Builder, d: Dimensions)
    ensures BuildsAs(b, d, b)
  {
  }

  /**
   * Each setter changes its own setting and no other: after it, `build`
   * stores the value set and every other setting as the builder held it.
   * Dimensions set twice keep the later value.
   */
  lemma SetterThenBuild(b: Builder, d: Dimensions, d0: Dimensions,
                        rot: Rotation, bss: seq<byte>, gs: byte, bw: byte, vc: byte, dem: byte, rx: RamXAddressing, ry: bool, cf: byte, cp: byte, cs: byte, pon: byte, poff: byte, cbw: byte, cred: byte, tsc: byte)
    requires |bss| == 5
    ensures BuildsAs(b, d, b)
    ensures Build(b.WithDimensions(d0).WithDimensions(d)).value.dimensions == d
    ensures BuildsAs(b.WithRotation(rot), d, b.(rotation := rot)) && Build(b.WithRotation(rot).WithDimensions(d)).value.rotation == rot
    ensures BuildsAs(b.WithBoosterSoftStart(bss), d, b.(boosterSoftStart := bss)) && Build(b.WithBoosterSoftStart(bss).WithDimensions(d)).value.boosterSoftStart == bss
    ensures BuildsAs(b.WithGateScanning(gs), d, b.(gateScanning := gs)) && Build(b.WithGateScanning(gs).WithDimensions(d)).value.gateScanning == gs
    ensures BuildsAs(b.WithBorderWaveform(bw), d, b.(borderWaveform := bw)) && Build(b.WithBorderWaveform(bw).WithDimensions(d)).value.borderWaveform == bw
    ensures BuildsAs(b.WithVcom(vc), d, b.(vcom := vc)) && Build(b.WithVcom(vc).WithDimensions(d)).value.vcom == vc
    ensures BuildsAs(b.WithDataEntryMode(dem), d, b.(dataEntryMode := dem)) && Build(b.WithDataEntryMode(dem).WithDimensions(d)).value.dataEntryMode == dem
    ensures BuildsAs(b.WithRamXAddressing(rx), d, b.(ramXAddressing := rx)) && Build(b.WithRamXAddressing(rx).WithDimensions(d)).value.ramXAddressing == rx
    ensures BuildsAs(b.WithRamYInverted(ry), d, b.(ramYInverted := ry)) && Build(b.WithRamYInverted(ry).WithDimensions(d)).value.ramYInverted == ry
    ensures BuildsAs(b.WithCtrl2Full(cf), d, b.(ctrl2Full := cf)) && Build(b.WithCtrl2Full(cf).WithDimensions(d)).value.ctrl2Full == cf
    ensures BuildsAs(b.WithCtrl2Partial(cp), d, b.(ctrl2Partial := cp)) && Build(b.WithCtrl2Partial(cp).WithDimensions(d)).value.ctrl2Partial == cp
    ensures BuildsAs(b.WithCtrl2Fast(cs), d, b.(ctrl2Fast := cs)) && Build(b.WithCtrl2Fast(cs).WithDimensions(d)).value.ctrl2Fast == cs
    ensures BuildsAs(b.WithPowerOn(pon), d, b.(powerOn := pon)) && Build(b.WithPowerOn(pon).WithDimensions(d)).value.powerOn == pon
    ensures BuildsAs(b.WithPowerOff(poff), d, b.(powerOff := poff)) && Build(b.WithPowerOff(poff).WithDimensions(d)).value.powerOff == poff
    ensures BuildsAs(b.WithClearBwValue(cbw), d, b.(clearBwValue := cbw)) && Build(b.WithClearBwValue(cbw).WithDimensions(d)).value.clearBwValue == cbw
    ensures BuildsAs(b.WithClearRedValue(cred), d, b.(clearRedValue := cred)) && Build(b.WithClearRedValue(cred).WithDimensions(d)).value.clearRedValue == cred
    ensures BuildsAs(b.WithTempSensorControl(tsc), d, b.(tempSensorControl := tsc)) && Build(b.WithTempSensorControl(tsc).WithDimensions(d)).value.tempSensorControl == tsc
  {
    BuildKeeps(b, d);
    BuildKeeps(b.WithRotation(rot), d);
    BuildKeeps(b.WithBoosterSoftStart(bss), d);
    BuildKeeps(b.WithGateScanning(gs), d);
    BuildKeeps(b.WithBorderWaveform(bw), d);
    BuildKeeps(b.WithVcom(vc), d);
    BuildKeeps(b.WithDataEntryMode(dem), d);
    BuildKeeps(b.WithRamXAddressing(rx), d);
    BuildKeeps(b.WithRamYInverted(ry), d);
    BuildKeeps(b.WithCtrl2Full(cf), d);
    BuildKeeps(b.WithCtrl2Partial(cp), d);
    BuildKeeps(b.WithCtrl2Fast(cs), d);
    BuildKeeps(b.WithPowerOn(pon), d);
    BuildKeeps(b.WithPowerOff(poff), d);
    BuildKeeps(b.WithClearBwValue(cbw), d);
    BuildKeeps(b.WithClearRedValue(cred), d);
    BuildKeeps(b.WithTempSensorControl(tsc), d);
  }

  /** The documented defaults: dimensions unset, and the panel register values. */
  lemma BuilderDefaults()
    ensures Build(NewBuilder()) == Err(MissingDimensions)
    ensures NewBuilder().dataEntryMode == 0x01 && NewBuilder().ramXAddressing == Pixels
    ensures !NewBuilder().ramYInverted && NewBuilder().rotation == Rotate0
    ensures NewBuilder().ctrl2Full == 0xF7 && NewBuilder().ctrl2Partial == 0xC7
    ensures NewBuilder().ctrl2Fast == 0xC7
    ensures NewBuilder().powerOn == 0xC0 && NewBuilder().powerOff == 0x03
    ensures NewBuilder().clearBwValue == 0xFF && NewBuilder().clearRedValue == 0x00
  {
  }

  /** The 480 x 480 panel the driver's own tests use. */
  lemma Panel480()
    ensures NewDimensions(480, 480) == Ok(Dimensions(480, 480))
    ensures BufferSize(Dimensions(480, 480)) == 28800
    ensures NewDimensions(1000, 500).Err? && NewDimensions(480, 481).Err?
  {
  }
}
