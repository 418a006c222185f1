/** Enumerations, machine widths and constants (crates/tetris-core/src/types.rs). */
module Types {

  datatype Option<+T> = None | Some(value: T)

  datatype Result<+T, +E> = Ok(value: T) | Err(error: E)

  // ---- machine widths --------------------------------------------------

  const TWO_TO_32: int := 0x1_0000_0000
  const TWO_TO_64: int := 0x1_0000_0000_0000_0000

  type u32 = n: int | 0 <= n < 0x1_0000_0000
  type u64 = n: int | 0 <= n < 0x1_0000_0000_0000_0000

  const U32_MAX: u32 := 0xFFFF_FFFF
  const I32_MAX: int := 0x7FFF_FFFF

  function WrappingAdd(a: u32, b: u32): u32 {
    (a + b) % TWO_TO_32
  }

  function SaturatingAdd(a: u32, b: u32): u32 {
    if a + b > U32_MAX then U32_MAX else a + b
  }

  function SaturatingSub(a: u32, b: u32): u32 {
    if a < b then 0 else a - b
  }

  function SaturatingMul(a: u32, b: u32): u32 {
    var p := a * b;
    assert p >= 0;
    if p > U32_MAX then U32_MAX else p
  }

  /** Two's complement reading of an 8-bit sum: what `i8` addition yields in a release build. */
  function WrapI8(n: int): (r: int)
    ensures -128 <= r < 128
    ensures -128 <= n < 128 ==> r == n
  {
    (n + 128) % 256 - 128
  }

  // ---- enumerations ----------------------------------------------------

  datatype PieceKind = I | O | T | S | Z | J | L

  datatype Rotation = North | East | South | West {
    function RotateCw(): Rotation {
      match this
      case North => East
      case East => South
      case South => West
      case West => North
    }

    function RotateCcw(): Rotation {
      match this
      case North => West
      case West => South
      case South => East
      case East => North
    }

    function Turn(clockwise: bool): Rotation {
      if clockwise then RotateCw() else RotateCcw()
    }
  }

  datatype GameAction =
    | MoveLeft | MoveRight | SoftDrop | HardDrop | RotateCw | RotateCcw | Hold | Pause | Restart

  datatype TSpinKind = NoSpin | Mini | Full

  /** Event left behind by the last lock. */
  datatype LockEvent = LockEvent(
    locked: bool,
    linesCleared: u32,
    lineClearScore: u32,
    tspin: Option<TSpinKind>,
    combo: int,
    backToBack: bool)

  // ---- timing constants (milliseconds) ---------------------------------

  const TICK_MS: u32 := 16
  const SOFT_DROP_MULTIPLIER: u32 := 10
  const SOFT_DROP_GRACE_MS: u32 := 150
  const LOCK_DELAY_MS: u32 := 450
  const LOCK_RESET_LIMIT: nat := 15
  const LINE_CLEAR_PAUSE_MS: u32 := 180
  const LANDING_FLASH_MS: u32 := 120
}
