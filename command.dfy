// SSD1677 command opcodes and control values (src/command.rs), and the
// fixed-width integer types the driver works with.
module Command {
  /** One byte on the wire. Bit-vector so that the driver's `&`, `|` and `!` apply. */
  type byte = bv8

  /** Rust's `u16`: register coordinates and panel dimensions. */
  type u16 = x: int | 0 <= x < 0x1_0000

  /** Rust's `u32`: the coordinate type of the graphics layer. */
  type u32 = x: int | 0 <= x < 0x1_0000_0000

  const SOFT_RESET: byte := 0x12
  const BOOSTER_SOFT_START: byte := 0x0C
  const DRIVER_OUTPUT_CONTROL: byte := 0x01
  const BORDER_WAVEFORM: byte := 0x3C
  const TEMP_SENSOR_CONTROL: byte := 0x18
  const DATA_ENTRY_MODE: byte := 0x11
  const SET_RAM_X_RANGE: byte := 0x44
  const SET_RAM_Y_RANGE: byte := 0x45
  const SET_RAM_X_COUNTER: byte := 0x4E
  const SET_RAM_Y_COUNTER: byte := 0x4F
  const WRITE_RAM_BW: byte := 0x24
  const WRITE_RAM_RED: byte := 0x26
  const AUTO_WRITE_BW_RAM: byte := 0x46
  const AUTO_WRITE_RED_RAM: byte := 0x47
  const DISPLAY_UPDATE_CTRL1: byte := 0x21
  const DISPLAY_UPDATE_CTRL2: byte := 0x22
  const MASTER_ACTIVATION: byte := 0x20
  const WRITE_LUT: byte := 0x32
  const GATE_VOLTAGE: byte := 0x03
  const SOURCE_VOLTAGE: byte := 0x04
  const WRITE_VCOM: byte := 0x2C
  const WRITE_TEMP: byte := 0x1A
  const DEEP_SLEEP: byte := 0x10

  /** CTRL1 value that makes the refresh use the RED RAM. */
  const CTRL1_NORMAL: byte := 0x00
  /** CTRL1 value that makes the refresh ignore the RED RAM. */
  const CTRL1_BYPASS_RED: byte := 0x40
}
