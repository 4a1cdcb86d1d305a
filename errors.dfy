// Error types of the driver (src/error.rs).
module Errors {
  import opened Command

  /** Highest number of gate outputs (panel rows) the controller drives. */
  const MAX_GATE_OUTPUTS: u16 := 680
  /** Highest number of source outputs (panel columns) the controller drives. */
  const MAX_SOURCE_OUTPUTS: u16 := 960

  /**
   * Runtime errors of display operations. `Interface` stands for the
   * transport's own error, whose payload is not modelled.
   */
  datatype Error =
    | Interface
    | InvalidDimensions(rows: u16, cols: u16)
    | InvalidRotation
    | BufferTooSmall(required: nat, provided: nat)
    | InvalidRamArea(x: u16, y: u16, w: u16, h: u16)
    | InvalidLutLength(expected: nat, provided: nat)
    | InvalidLutShortLength(expected: nat, provided: nat)

  /** Errors while building a configuration. */
  datatype BuilderError =
    | BuilderInvalidDimensions(rows: u16, cols: u16)
    | MissingDimensions

  /** Outcome of an operation that returns `Result<(), Error>`. */
  datatype Outcome = Done | Failed(error: Error)

  datatype Result<T, E> = Ok(value: T) | Err(error: E)

  datatype Option<T> = None | Some(value: T)
}
