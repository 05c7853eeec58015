/** The register-level protocol of the PAT9130 optical motion sensor: the register
    map, the two-byte frames exchanged over SPI, the command bytes for register
    reads and writes, and the status-register mask test. */
module Registers {
  import opened Bits

  /** An 8-bit value as it travels on the bus. */
  type byte = x: int | 0 <= x < 0x100

  // Register map
  const PRODUCT_ID_ADDR: byte := 0x00
  const PRODUCT_ID_VAL: byte := 0x31
  const STATUS_REG: byte := 0x02
  const REG_X_L: byte := 0x03
  const REG_X_H: byte := 0x11
  const REG_Y_L: byte := 0x04
  const REG_Y_H: byte := 0x12

  /** Mask of the motion-ready bit (bit 7) of the status register. */
  const MSB_MASK: nat := 0x80

  /** Time between polls, in milliseconds. */
  const POLL_INTERVAL_MS: nat := 8

  /** The default polling timeout of 600.0 seconds, in milliseconds. */
  const DEFAULT_TIMEOUT_MS: nat := 600000

  /** The default polling timeout, in poll intervals. */
  const DEFAULT_TIMEOUT: nat := DEFAULT_TIMEOUT_MS / POLL_INTERVAL_MS

  /** One full-duplex exchange: two bytes out, or the two bytes clocked back. */
  datatype Frame = Frame(b0: byte, b1: byte)

  /** The frame the peripheral clocks back during exchange `n`, given its
      scripted replies by exchange number; past the end of the script the
      line reads as all zero bytes. */
  function Reply(replies: seq<Frame>, n: nat): Frame {
    if n < |replies| then replies[n] else Frame(0, 0)
  }

  /** The driver's failures: the two `ValueError`s of the register layer and the
      `TimeoutError` of the identity handshake (carrying the last identity read). */
  datatype DriverError =
    | InvalidAddress(address: int)
    | InvalidValue(value: int)
    | HandshakeTimeout(lastId: byte)

  datatype Result<T> = Ok(value: T) | Err(error: DriverError)

  /** Register addresses are 7 bits wide. */
  predicate ValidAddress(address: int) {
    0 <= address <= 0x7F
  }

  /** Register values are 8 bits wide. */
  predicate ValidValue(value: int) {
    0 <= value <= 0xFF
  }

  /** The frame a read of register `address` puts on the bus. */
  function ReadFrame(address: byte): Frame {
    Frame(address, 0x00)
  }

  /** Validates the address of a register read and builds its frame: the command
      byte is the address masked to 7 bits (`address & 0x7F`, the low seven
      bits), the second byte a dummy 0x00. */
  function ReadCommand(address: int): (r: Result<Frame>)
    ensures r.Ok? <==> ValidAddress(address)
    ensures r.Err? ==> r.error == InvalidAddress(address)
    ensures r.Ok? ==> r.value == ReadFrame(address) && r.value.b0 < 0x80
  {
    if !ValidAddress(address) then Err(InvalidAddress(address))
    else Ok(Frame(address % 0x80, 0x00))
  }

  /** Validates address then value of a register write and builds its frame:
      the command byte is `0x80 | (address & 0x7F)`, bit 7 above the seven
      address bits, the second byte the value. */
  function WriteCommand(address: int, value: int): (r: Result<Frame>)
    ensures r.Ok? <==> ValidAddress(address) && ValidValue(value)
    ensures !ValidAddress(address) ==> r == Err(InvalidAddress(address))
    ensures ValidAddress(address) && !ValidValue(value) ==> r == Err(InvalidValue(value))
    ensures r.Ok? ==> r.value.b0 >= 0x80 && r.value.b0 - 0x80 == address && r.value.b1 == value
  {
    if !ValidAddress(address) then Err(InvalidAddress(address))
    else if !ValidValue(value) then Err(InvalidValue(value))
    else Ok(Frame(0x80 + address % 0x80, value))
  }

  /** The read command byte is the source's `address & 0x7F`. */
  lemma ReadCommandIsMasked(address: int)
    requires ValidAddress(address)
    ensures ReadCommand(address).value.b0 == And(address, 0x7F)
  {
    AndLow7(address);
  }

  /** The write command byte is the source's `0x80 | (address & 0x7F)`. */
  lemma WriteCommandIsMasked(address: int, value: int)
    requires ValidAddress(address) && ValidValue(value)
    ensures WriteCommand(address, value).value.b0 == Or(0x80, And(address, 0x7F))
  {
    WriteCommandByte(address);
  }

  /** How the peripheral reads a command byte: bit 7 selects a write, the low
      seven bits name the register. */
  function IsWriteCommand(cmd: byte): (write: bool)
    ensures write <==> cmd >= 0x80
  {
    cmd / 0x80 == 1
  }

  function CommandAddress(cmd: byte): (address: int)
    ensures ValidAddress(address)
  {
    cmd % 0x80
  }

  /** A read frame is understood by the peripheral as a read of the same register. */
  lemma ReadCommandDecodes(address: int)
    requires ValidAddress(address)
    ensures !IsWriteCommand(ReadCommand(address).value.b0)
    ensures CommandAddress(ReadCommand(address).value.b0) == address
  {
  }

  /** A write frame is understood as a write of `value` into the same register. */
  lemma WriteCommandDecodes(address: int, value: int)
    requires ValidAddress(address) && ValidValue(value)
    ensures IsWriteCommand(WriteCommand(address, value).value.b0)
    ensures CommandAddress(WriteCommand(address, value).value.b0) == address
    ensures WriteCommand(address, value).value.b1 == value
  {
  }

  /** Bit 7 of the status byte, the source's `status & MSB_MASK` as a truth
      value: the motion-ready flag. */
  function MotionReady(status: byte): (on: bool)
    ensures on <==> status >= 0x80
  {
    (status / 0x80) % 2 == 1
  }

  /** The flag test is the source's mask test. */
  lemma MotionReadyIsMasked(status: byte)
    ensures MotionReady(status) <==> And(status, MSB_MASK) != 0
  {
    AndBit7(status);
  }
}
