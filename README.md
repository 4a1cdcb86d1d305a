# ssd1677 e-paper driver: a Dafny model

This project models the core of `ssd1677`, a Rust driver for the SSD1677
e-paper controller, and proves properties of that model. The core has four
parts:

- **The update and refresh engine** (`src/display.rs`). It covers full-frame
  and region updates, the red-plane policy, refresh, deep sleep, LUT loading
  and voltage registers.
- **The RAM-window calculator** (`set_ram_area`). It validates a rectangle and
  turns it into the controller's address window.
- **The rotation mapping** (`src/rotation.rs`). It maps a logical pixel to a
  byte index and bit mask in the packed frame.
- **The frame-buffer layer** (`src/graphics.rs`). It holds two caller-owned
  plane buffers that drawing updates in place.

The supporting value types are modelled as well: dimensions, configuration,
builder, colours and errors.

## How the model is built

- **Bytes.** A byte is `bv8`, so the bit operations of the source
  (`&`, `|`, `!`, shifts) are native. `u16` and `u32` are subset types of
  `int`. The `u32` arithmetic of `apply_rotation` is written out modulo 2^32,
  matching a release build.
- **The interface** (`Interface.Bus`) is an abstract collaborator. Each
  `send_command`, `send_data` or `busy_wait` call appends one event
  (`Cmd`, `Data`, `BusyWait`) to a log. A `budget` counts how many more calls
  will succeed. The first call beyond it fails with the interface error,
  appends nothing, and the link stays failed. This covers every point at
  which a transport error can cut an operation short.
- **Plans.** Each driver operation is specified by a *plan*: the calls the
  code makes, in order.
  - A plan records where the power flag is assigned and how the operation ends
    (`Done` or a validation error).
  - `Trace.Run` plays a plan against the bus state. The error propagation of
    Rust's `?` falls out of this: the calls within the budget are logged, and
    the rest are not.
  - Each method of `Display.Display` changes the bus and the power flag in
    place, and is proved to do exactly what `Run` of its plan says.
  - Properties of the operations are proved as lemmas on the plan functions.
- **The controller reference** (`Controller`). A small interpreter replays a
  call log and keeps three things:
  - the data last written into BW RAM and red RAM;
  - the CTRL1 byte;
  - the frames shown, each being both planes plus the CTRL1 byte at activation.

  It is an independent definition of what an update shows, and the red-plane
  policy is proved against it.
- **Graphics.** `Graphics.GraphicDisplay` keeps the two plane buffers as
  `array<byte>`, which `clear`, `set_pixel` and `draw_iter` update in place.
  Each method is proved equal to a function on the buffer contents. The
  properties are lemmas about those functions:
  - a pixel reads back as its colour;
  - other pixels are untouched;
  - writes are idempotent and commute;
  - drawing batches compose.

  `set_pixel` is modelled with its guard corrected; the code's own guard is
  kept beside it, as described under Findings.

Points where the order of the code matters, each modelled as the code has it:

- **Order of checks in an update** (`src/display.rs:558-584`). Buffer sizes are
  checked *before* the built-in LUT is loaded, so a short buffer fails with no
  call made.
- **Fast refresh with no red plane** (`src/display.rs:586-608`). Nothing is
  written to red RAM before the refresh. The black plane goes into red RAM
  only *after* it (the re-sync).
- **Region updates** (`src/display.rs:638-652`). The rectangle is validated
  inside `set_ram_area`, after the built-in LUT has already been sent. So an
  invalid region fails after the LUT calls.
- **The power flag** (`src/display.rs:318-326`). `refresh_with_mode` sets it
  before CTRL2 is sent. A transport failure in CTRL2, activation or the busy
  wait leaves the flag already updated.
- **Deep sleep** (`src/display.rs:349-359`). The power-down step sends the
  literal CTRL2 byte `0x03`, not the configured power-off bits.

## Model

| member | source | states |
|---|---|---|
| Colors.BwByte | src/color.rs:69-75 | The black/white plane byte is 0x00 or 0xFF, and it is 0x00 exactly for Black. |
| Colors.RedByte | src/color.rs:93-99 | The red plane byte is 0x00 or 0xFF, and it is 0xFF exactly for Red. |
| Colors.ColorOf | src/color.rs:38-99 | Inverse of the two byte tables: a decoded colour encodes to the given pair, and `None` means no colour encodes to that pair. |
| Colors.ColorRoundTrip | src/color.rs:69-99 | Decoding a colour's plane bytes gives back the colour. |
| Colors.RedImpliesBw | src/color.rs:69-99 | A set red byte comes with a set black/white byte; the pair (0x00, 0xFF) never occurs. |
| Colors.PairsDistinct | src/color.rs:69-99 | Different colours have different byte pairs. |
| Config.NewDimensions | src/config.rs:23-31 | Succeeds exactly when rows are in 1..680, columns in 1..960 and columns are a multiple of 8; otherwise returns `InvalidDimensions` with both values. |
| Config.BufferSize | src/config.rs:34-36 | Number of whole bytes in a 1-bit-per-pixel frame. For byte-aligned columns it is rows times columns/8. For valid dimensions it is positive and at most 680*960/8. |
| Config.RotatedDimensions | src/config.rs:107-115 | Unchanged at 0 and 180 degrees, rows and columns swapped at 90 and 270. Pixel count and buffer size are preserved. |
| Config.Build | src/config.rs:323-343 | Fails with `MissingDimensions` exactly when no dimensions were set; otherwise carries the dimensions and every other builder setting unchanged. |
| Config.SetterThenBuild | src/config.rs:215-343 | Each of the sixteen setters, followed by `dimensions` and `build`, stores its value and leaves every other setting as the builder held it. `dimensions` alone changes no other setting, and set twice keeps the later value. |
| Config.BuilderDefaults | src/config.rs:173-210 | A fresh builder has no dimensions and the documented register defaults (data entry 0x01, CTRL2 0xF7/0xC7/0xC7, power 0xC0/0x03, clear values 0xFF/0x00). |
| Config.Panel480 | src/config.rs:23-36 | 480x480 is accepted and needs 28800 bytes; 1000 rows and 481 columns are rejected. |
| Rotations.ApplyRotation | src/rotation.rs:71-94 | The mask always has exactly one bit set, for every input, including the wrapped u32 arithmetic of out-of-range points. |
| Rotations.NativeInjective | src/rotation.rs:71-94 | On byte-aligned rows, the row-major byte index and MSB-first mask determine the physical pixel uniquely. |
| Rotations.NativeBounds | src/rotation.rs:71-94 | A physical pixel's byte index lies inside the frame of width*height/8 bytes. |
| Rotations.Rotate90Native | src/rotation.rs:78-82 | At 90 degrees, logical (x, y) is physical column width-1-y, row x, in the unrotated layout. |
| Rotations.Rotate180Native | src/rotation.rs:83-87 | At 180 degrees, the reversed byte index and LSB-first mask address physical pixel (width-1-x, height-1-y). |
| Rotations.Rotate270Native | src/rotation.rs:88-92 | At 270 degrees, logical (x, y) is physical column y, row height-1-x. |
| Rotations.RotationIsNative | src/rotation.rs:71-94 | For every rotation and in-range point, the result is the unrotated layout's address of the rotated physical pixel. |
| Rotations.RotationBounds | src/rotation.rs:71-94 | For an in-range point, the byte index is inside the frame. |
| Rotations.RotationInjective | src/rotation.rs:71-94 | Two in-range logical points with the same (index, mask) are the same point: no pixel is written for another. |
| Rotations.RotationExamples | src/rotation.rs:101-154 | The concrete cases of the rotation unit tests. |
| RamArea.SatAdd16 | src/display.rs:453-455 | `u16::saturating_add`: the sum, or 0xFFFF when it would overflow. |
| RamArea.AreaError | src/display.rs:449-460 | A rectangle is accepted exactly when w and h are non-zero, the saturated x+w and y+h fit the panel, and x and w are multiples of 8; otherwise `InvalidRamArea` with the four values. |
| RamArea.AcceptedInside | src/display.rs:449-460 | An accepted rectangle lies inside the panel with true (unsaturated) sums. |
| RamArea.ColumnSpan | src/display.rs:468-471 | Pixel addressing gives columns x..x+w-1. Byte addressing gives x/8 and a span of w/8 byte columns. Both stay inside the panel. |
| RamArea.RowSpan | src/display.rs:486-492 | Rows y..y+h-1, or their mirror image when Y is inverted, inside the panel. |
| RamArea.RamWindow | src/display.rs:465-497 | Start and end are swapped on an axis exactly when the data-entry-mode bit for that axis (ID0 for X, ID1 for Y) says the counter decrements. Every address is inside the panel. |
| RamArea.Le16RoundTrip | src/display.rs:478-483 | The low and high bytes sent for a 16-bit value reassemble to that value. |
| RamArea.WindowRoundTrip | src/display.rs:462-512 | The ten register writes decode back to exactly the data entry mode and the window they were made from. |
| Interface.Bus.SendCommand | src/interface.rs:92 | A command either appends one `Cmd` event and uses one call of the budget, or fails, appends nothing and exhausts the link. |
| Interface.Bus.SendData | src/interface.rs:108 | The same for one data block. |
| Interface.Bus.WaitBusy | src/interface.rs:137 | The same for one busy wait. |
| Trace.RunComplete | src/display.rs:518-525 | With budget for every call, a plan logs all its calls, uses that much budget, assigns the flag and ends with its own outcome. |
| Trace.RunInterrupted | src/display.rs:518-525 | With too little budget, the calls up to the budget are logged and the operation ends with the interface error. |
| Trace.RunThen | src/display.rs:518-525 | Running two plans in sequence is running the second from where the first ended, unless the first failed: `?` propagation. |
| Display.SleepByte | src/display.rs:87-95 | The deep-sleep mode byte is 0x00, 0x01 or 0x03, and 0x00 and 0x01 identify Normal and PreserveRam. |
| Display.RegionBufferSize | src/display.rs:40-42 | The region's byte count covers at most w*h pixels, and exactly w*h when w is a multiple of 8. |
| Display.Ctrl2Bits | src/display.rs:308-326 | The CTRL2 byte contains the mode bits, the power-on bits when the panel was off and the power-off bits on a power-down refresh, and no other bit. With the panel on and no power-down it is the mode byte. |
| Display.Ctrl2Steps | src/display.rs:308-323 | The code's two conditional `|=` steps compute exactly that byte. |
| Display.SizeError | src/display.rs:558-569 | The buffer check passes exactly when the black plane, and an explicit red plane, hold the expected size. The black plane is checked first, and each failure reports required versus provided. |
| Display.ExplicitRed | src/display.rs:550 | A red buffer is explicit exactly when it has a non-zero byte (so an empty buffer is not). |
| Display.WindowBlocks | src/display.rs:462-512 | The five command/data pairs of `set_ram_area` are the window's ten events. |
| Display.Display.constructor | src/display.rs:118-124 | A new display is powered off and holds its interface, configuration and the two built-in LUTs. |
| Display.Display.SendCommand | src/display.rs:518-520 | One command, or the interface error. |
| Display.Display.SendData | src/display.rs:523-525 | One data block, or the interface error. |
| Display.Display.RefreshWithMode | src/display.rs:293-333 | The bus log, budget, power flag and result are those of the refresh plan: CTRL1, CTRL2, activation, busy wait, with the flag assigned before CTRL2. |
| Display.Display.FullRefresh | src/display.rs:283-285 | A refresh in Full mode, red bypassed, staying on. |
| Display.Display.FastRefresh | src/display.rs:288-290 | A refresh in Fast mode, red bypassed, staying on. |
| Display.Display.DeepSleep | src/display.rs:344-368 | When on, the power-down refresh then the deep-sleep command; when off, only the deep-sleep command. |
| Display.Display.PowerDown | src/display.rs:349-361 | CTRL1 bypass, CTRL2 0x03, activation, busy wait, then the flag is cleared. |
| Display.Display.LoadLut | src/display.rs:380-390 | A LUT that is not 112 bytes fails with no calls; otherwise WRITE_LUT and the table. |
| Display.Display.LoadLutWithVoltages | src/display.rs:396-415 | A LUT that is not 105 bytes fails with no calls; otherwise the table, then gate, source and VCOM registers. |
| Display.Display.SetGateVoltage | src/display.rs:418-422 | GATE_VOLTAGE and its byte. |
| Display.Display.SetSourceVoltage | src/display.rs:425-429 | SOURCE_VOLTAGE and its three bytes. |
| Display.Display.SetVcom | src/display.rs:432-436 | WRITE_VCOM and its byte. |
| Display.Display.SetRamArea | src/display.rs:449-513 | A rejected rectangle fails with no calls; otherwise the ten window register writes. |
| Display.Display.Upload | src/display.rs:571-608 | LUT, window, BW plane, the pre-refresh red write, refresh, re-sync: the upload plan, which stops at the first failure. |
| Display.Display.UpdateWithModeInternal | src/display.rs:542-611 | The update plan for the whole panel. |
| Display.Display.UpdateRegionInternal | src/display.rs:613-679 | The update plan for the region, sized (w/8)*h. |
| Display.Display.Update | src/display.rs:191-198 | A Full update with the built-in LUT. |
| Display.Display.UpdateWithMode | src/display.rs:209-217 | An update in the given mode with the built-in LUT. |
| Display.Display.UpdateWithModeNoLut | src/display.rs:222-230 | An update that loads no LUT. |
| Display.Display.UpdateWithCustomLut | src/display.rs:236-246 | The caller's LUT, then an update that loads no LUT. |
| Display.Display.UpdateRegionCall | src/display.rs:249-255 | A region update with the built-in LUT. |
| Display.Display.UpdateRegionNoLut | src/display.rs:260-266 | A region update that loads no LUT. |
| Display.Display.UpdateRegionWithCustomLut | src/display.rs:272-280 | The caller's LUT, then a region update that loads no LUT. |
| DisplayFacts.RefreshTrace | src/display.rs:293-333 | The refresh's six calls, with CTRL1 chosen by `use_red` and CTRL2 from the mode. The flag becomes "not turning off" after the first two calls. |
| DisplayFacts.RefreshFlag | src/display.rs:293-333 | With fewer than 2 calls left, the flag is unchanged and the refresh fails. With 2 or more, the flag ends as "not turning off" even if a later call fails. With 6 or more, the refresh succeeds and ends with activation and busy wait. |
| DisplayFacts.Ctrl1Choice | src/display.rs:301-305 | CTRL1 is NORMAL exactly when the red plane is used, and BYPASS_RED exactly when it is not. |
| DisplayFacts.DeepSleepTrace | src/display.rs:344-368 | When on: bypass, CTRL2 0x03, activation, wait, the flag cleared after those six, then DEEP_SLEEP with the mode byte. When off: only the last pair. |
| DisplayFacts.DeepSleepRun | src/display.rs:344-368 | With enough budget, deep sleep succeeds from either power state, ends powered off and ends with DEEP_SLEEP and the mode byte. |
| DisplayFacts.LoadLutChecks | src/display.rs:380-390 | Succeeds exactly for 112 bytes; any other length fails with `InvalidLutLength(112, len)` before any call. |
| DisplayFacts.LoadLutWithVoltagesChecks | src/display.rs:396-415 | Succeeds exactly for 105 bytes; any other length fails with `InvalidLutShortLength(105, len)` before any call. Otherwise exactly eight calls: WRITE_LUT with the table, GATE_VOLTAGE with the gate byte, SOURCE_VOLTAGE with the three source bytes, WRITE_VCOM with the VCOM byte. |
| DisplayFacts.SetRamAreaChecks | src/display.rs:449-513 | Fails exactly when the rectangle is rejected, with no calls. When it succeeds, its calls decode to the configured data entry mode and the computed window. |
| DisplayFacts.SetRamArea480 | src/display.rs:745-777 | The unit-test rectangles on a 480x480 panel: the full frame's register bytes, and the zero-width, zero-height and out-of-bounds rejections. |
| DisplayFacts.UpdateChecks | src/display.rs:550-569 | A short black plane, then a short explicit red plane, halts before any call with `BufferTooSmall`. Otherwise the update is the full-panel upload. |
| DisplayFacts.UpdateFirstCalls | src/display.rs:571-584 | After the checks pass, the first calls are the Partial or Fast LUT when the built-in LUT is used. For Full, or without the built-in LUT, they are the data entry mode write. |
| DisplayFacts.UploadPrefix | src/display.rs:571-584 | An upload's log starts with the LUT and window calls. |
| DisplayFacts.RegionChecks | src/display.rs:613-679 | The region update checks the buffers against (w/8)*h first. A rejected rectangle then fails with `InvalidRamArea` only after the built-in LUT calls. |
| DisplayFacts.ZeroRedIsNoRed | src/display.rs:550 | An all-zero red buffer gives the same update as an empty one. |
| Controller.ReplayAppend | src/display.rs:518-525 | The controller replays a concatenated log as the two parts in sequence. |
| Controller.ReplayRefresh | src/display.rs:293-333 | A refresh shows one new frame: both RAM planes under the CTRL1 byte it sends. |
| Controller.ReplayResync | src/display.rs:599-608 | The re-sync leaves the black plane in red RAM and shows nothing. |
| Controller.UploadEvents | src/display.rs:571-608 | A successful upload's calls, part by part: LUT, window, BW plane, the pre-refresh red write, refresh, re-sync. |
| Controller.ReplayUpload | src/display.rs:586-608 | Replayed, those calls show exactly one frame. BW RAM then holds the black plane. Red RAM holds the caller's red plane if explicit, else the black plane. |
| Controller.RedPolicy | src/display.rs:550-608 | The red-plane policy, from the controller's point of view. One frame is shown: the black plane with the caller's red plane under CTRL1 NORMAL when explicit; the black plane twice under BYPASS_RED for Full and Partial; for Fast with no red plane, the previous red RAM under NORMAL. |
| Controller.PolicyFrameShown | src/display.rs:550-597 | The policy frame is the two planes shown under the CTRL1 byte chosen by `use_red_for_refresh`. |
| Controller.UpdateRedPolicy | src/display.rs:542-611 | The red-plane policy for a full-panel update whose buffers pass the checks. |
| Controller.RegionRedPolicy | src/display.rs:613-679 | The red-plane policy for a region update whose buffers and rectangle pass the checks. |
| Graphics.CheckBuffers | src/graphics.rs:281-304 | Accepts exactly when both buffers hold the physical frame. The black buffer is checked first, and `BufferTooSmall` reports required versus provided. |
| Graphics.RequiredIgnoresRotation | src/graphics.rs:761-783 | The requirement is the same for the physical and the rotated dimensions. |
| Graphics.CanvasSize | src/graphics.rs:718-721 | `size()` is (cols, rows) at 0 and 180 degrees and (rows, cols) at 90 and 270, with the same pixel count. |
| Graphics.Square480Rotated | src/graphics.rs:773-817 | A 480x480 panel at 90 degrees has a 480x480 canvas, accepts 28800-byte buffers and rejects a 28799-byte black buffer. |
| Graphics.PlaneBytesBw | src/graphics.rs:661-673 | Each colour's black-plane assignment sets the masked bit to the colour's black-plane byte and keeps every other bit. |
| Graphics.PlaneBytesRed | src/graphics.rs:661-673 | The same for the red plane. |
| Graphics.ReadBack | src/graphics.rs:661-673 | Under a one-bit mask, the colour written reads back as that colour. |
| Graphics.Target | src/graphics.rs:645-659 | `set_pixel` as written keeps a point exactly when x < columns, y < rows and the rotated byte index is inside the black buffer. A kept point is written at the rotation's (index, mask), and the mask has one bit. |
| Graphics.PaintEffect | src/graphics.rs:645-675 | With the corrected guard (see Findings), a point off the logical canvas leaves both planes unchanged. A canvas point lands inside the frame and reads back as its colour, and every other byte of both planes is unchanged. |
| Graphics.PaintPixels | src/graphics.rs:645-675 | After a write, the written pixel shows its colour and every other canvas pixel shows what it showed before, including pixels sharing the byte. |
| Graphics.PaintIdempotent | src/graphics.rs:645-675 | Writing the same pixel twice is the same as writing it once. |
| Graphics.PaintCommute | src/graphics.rs:645-675 | Writes to two different points commute. |
| Graphics.DrawAppend | src/graphics.rs:687-709 | Drawing two batches one after the other is drawing their concatenation. |
| Graphics.DrawOffCanvas | src/graphics.rs:687-709 | Pixels with a negative coordinate or off the canvas change nothing. |
| Graphics.DrawLastWins | src/graphics.rs:687-709 | A canvas pixel drawn last shows its colour, whatever was drawn before. |
| Graphics.PaintAsWritten | src/graphics.rs:645-673 | `set_pixel` as written fails (the code panics) exactly when the point passes the physical guard and the black-length check but its index is past the red buffer; otherwise the lengths of both planes are kept. |
| Graphics.GuardDropsCanvasPixel | src/graphics.rs:645-652 | On an 800x480 panel turned 90 degrees, canvas pixel (0, 600) is a real frame pixel (byte 24, mask 0x01). `set_pixel` as written, and `draw_iter` as written on that one pixel, leave both planes unchanged, while the corrected write makes the pixel show its colour. |
| Graphics.PanicPastRed | src/graphics.rs:645-673 | On that panel, off-canvas point (600, 0) passes the physical guard, maps to index 60099, passes a 60100-byte black buffer and panics on a 48000-byte red buffer. |
| Graphics.GuardsAgree | src/graphics.rs:645-652 | The written guard accepts exactly the canvas at 0 and 180 degrees and on square panels. |
| Graphics.PaintAsWrittenAgrees | src/graphics.rs:645-675 | On the canvas, `set_pixel` as written never panics: it is the corrected write where the written guard passes the point, and no change where it does not. |
| Graphics.Survivors | src/graphics.rs:645-652 | The pixels of a batch that the written guard keeps: exactly those of the batch that are not canvas pixels outside the physical panel. |
| Graphics.DrawAsWritten | src/graphics.rs:645-709 | `draw_iter` as written never panics, and it equals the corrected drawing of the pixels the written guard keeps. |
| Graphics.DrawAsWrittenAgrees | src/graphics.rs:645-709 | At 0 and 180 degrees and on square panels, `draw_iter` as written equals the corrected drawing of the whole batch. |
| Graphics.GraphicDisplay.constructor | src/graphics.rs:246-265 | `new` takes the display and two buffers that hold the physical frame. |
| Graphics.GraphicDisplay.TryNew | src/graphics.rs:281-304 | Fails exactly when the buffer check fails, with that check's error; otherwise a valid graphic display over the given buffers. |
| Graphics.GraphicDisplay.Size | src/graphics.rs:718-721 | The logical canvas, width first. |
| Graphics.GraphicDisplay.Clear | src/graphics.rs:365-374 | Every byte of the black plane becomes the colour's black-plane byte, and every byte of the red plane its red-plane byte. |
| Graphics.ClearReadsBack | src/graphics.rs:365-374 | After `clear`, every pixel reads back as the colour. |
| Graphics.GraphicDisplay.SetPixel | src/graphics.rs:645-675 | The new buffer contents are `Paint` of the old: the canvas guard (corrected, see Findings), the rotation, the length check and the colour's bit changes. |
| Graphics.GraphicDisplay.WriteBit | src/graphics.rs:661-673 | The colour's compound assignments to one byte of each plane. |
| Graphics.GraphicDisplay.DrawIter | src/graphics.rs:687-709 | The new buffer contents are `DrawAll` of the old and the pixel sequence, in order. |
| Graphics.GraphicDisplay.Update | src/graphics.rs:443-446 | The display's Full update of both planes as they are now. |
| Graphics.GraphicDisplay.UpdateWithMode | src/graphics.rs:513-525 | The display's update of both planes in the given mode. |

## Left out

- SPI transfers, GPIO pins (DC, RST, BUSY), delays and the busy-wait timeout are abstracted. Each becomes one logged call that succeeds while the bus budget lasts.
- `reset`, `init` and `clear_ram` (`src/display.rs:127-189`) are not modelled. They are fixed register sequences with no branches of interest.
- The `lut` module is not part of this model. `LUT_PARTIAL` and `LUT_FAST` are constructor parameters of 112 bytes each.
- There is no rollback after a transport failure, as in the code. The model states which calls were made before the failure, not what the panel then holds.
- `Display.Display.constructor`: requires dimensions that `Dimensions::new` accepts. A struct-literal `Dimensions` that bypasses the validation is not modelled.
- `Rotations.ApplyRotation`: the properties are proved for points on the canvas only. Outside it, only the one-bit mask is stated; the wrapped index is computed but not characterised.
- Debug-build integer overflow panics are not modelled. The model uses release-build wrap-around where the code can wrap.
- The `embedded-graphics` traits (`DrawTarget`, `OriginDimensions`) and its pixel iterators are not modelled. `draw_iter` takes a sequence of pixels.
- The accessors `dimensions`, `rotation`, `config`, `display` and `display_mut` are not modelled. They are plain field reads, and the model reads those fields directly.
- `Graphics.GraphicDisplay.constructor`: `new` panics on undersized buffers. Here that is a precondition, and `TryNew` models the error path.
- Graphics buffer aliasing is not modelled. The two plane buffers are required to be distinct arrays, which Rust's borrow rules guarantee.
- Controller RAM is modelled as the data last written after a RAM-write command. Address auto-increment inside a window is not modelled.
- `Error` formatting (`Display`/`Debug` implementations) is not modelled, and neither are the `InterfaceError` details. The interface error is a single `Interface` value.

## Findings

| source | as written | input that shows it | evidently intended | confidence | as-written member | corrected member |
|---|---|---|---|---|---|---|
| src/graphics.rs:645-652 | `set_pixel` rejects a point unless x < physical columns and y < physical rows, although `draw_iter` has already limited it to the rotated canvas. | An 800-column, 480-row panel at Rotate90: canvas pixel (0, 600) maps to byte 24, mask 0x01, but is dropped. | Every canvas pixel is drawn; the guard should test the rotated canvas. | not executed | Graphics.GuardDropsCanvasPixel | Graphics.PaintEffect |

`Graphics.PaintAsWritten` is `set_pixel` as written, with its physical
guard. Its `None` result is the panic of indexing the red buffer with an
index that passed only the black buffer's length check
(`Graphics.PanicPastRed`); `Graphics.DrawAsWritten` shows that `draw_iter`
never passes such a point. `Graphics.Paint` is the corrected write, with the
guard taken against the logical canvas. `Graphics.GraphicDisplay.SetPixel`,
`DrawIter` and every drawing lemma use the corrected write.
`Graphics.DrawAllAsWritten` is `draw_iter` as written. `Graphics.DrawAsWritten`
shows it is the corrected drawing with the dropped canvas pixels removed.
`Graphics.GuardsAgree` and `Graphics.DrawAsWrittenAgrees` show that the
written guard is exactly the canvas at 0 and 180 degrees and on square
panels, the only cases the driver's tests use.
