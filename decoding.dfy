/** Decoding of the sensor's displacement registers: two bytes are assembled into
    a 16-bit word (`high << 8 | low`) which is then read as two's complement. */
module Decoding {
  import opened Bits
  import opened Registers

  /** A 16-bit unsigned word. */
  type u16 = x: int | 0 <= x < 0x10000

  /** One displacement sample, in raw sensor counts per axis. */
  datatype Sample = Sample(x: int, y: int)

  datatype Axis = X | Y

  /** The raw count a sample carries for one axis. */
  function Raw(s: Sample, axis: Axis): int {
    match axis
    case X => s.x
    case Y => s.y
  }

  /** `(high << 8) | low`: the high byte above the low byte. The word keeps
      both bytes: the high one above bit 8, the low one below it. */
  function Assemble(high: byte, low: byte): (word: u16)
    ensures word / 0x100 == high && word % 0x100 == low
  {
    high * 0x100 + low
  }

  /** Assembly is the source's shift-and-or. */
  lemma AssembleIsShiftOr(high: byte, low: byte)
    ensures Assemble(high, low) == Or(Shl(high, 8), low)
  {
    ShlOr8(high, low);
  }

  /** Reads a 16-bit word as two's complement: bit 15 set means `raw - 65536`.
      The count lands in the 16-bit signed range, is negative exactly when
      bit 15 is set, and agrees with the word modulo 2^16. */
  function SignExtend16(raw: u16): (v: int)
    ensures -0x8000 <= v < 0x8000
    ensures v < 0 <==> raw >= 0x8000
    ensures v % 0x10000 == raw
  {
    if (raw / 0x8000) % 2 == 1 then raw - 0x10000 else raw
  }

  /** The sign test is the source's `raw & (1 << 15)`. */
  lemma SignBitIsMasked(raw: u16)
    ensures (raw / 0x8000) % 2 == 1 <==> And(raw, Shl(1, 15)) != 0
  {
    AndBit15(raw);
  }

  /** The device side: the 16-bit two's-complement word holding a signed count. */
  function Encode16(v: int): u16
    requires -0x8000 <= v < 0x8000
  {
    v % 0x10000
  }

  /** The signed count of one axis, from its low and high register bytes. It
      lies in the 16-bit signed range, and its 16-bit encoding has `high` as
      its upper byte and `low` as its lower one. */
  function DecodeAxis(low: byte, high: byte): (v: int)
    ensures -0x8000 <= v < 0x8000
    ensures Encode16(v) / 0x100 == high && Encode16(v) % 0x100 == low
  {
    SignExtend16(Assemble(high, low))
  }

  /** Sign extension undoes the device's encoding of every 16-bit signed count. */
  lemma SignExtendEncode(v: int)
    requires -0x8000 <= v < 0x8000
    ensures SignExtend16(Encode16(v)) == v
  {
  }

  /** And every 16-bit word is the encoding of its sign extension. */
  lemma EncodeSignExtend(raw: u16)
    ensures Encode16(SignExtend16(raw)) == raw
  {
  }

  /** Splitting a signed count into its low and high register bytes and decoding
      them gives the count back. */
  lemma DecodeAxisRoundTrip(v: int)
    requires -0x8000 <= v < 0x8000
    ensures DecodeAxis(Encode16(v) % 0x100, Encode16(v) / 0x100) == v
  {
    var raw := Encode16(v);
    assert Assemble(raw / 0x100, raw % 0x100) == raw;
    SignExtendEncode(v);
  }

  /** The boundary words of the 16-bit range. */
  lemma SignExtendBoundaries()
    ensures SignExtend16(0x7FFF) == 32767
    ensures SignExtend16(0x8000) == -32768
    ensures SignExtend16(0xFFFF) == -1
    ensures SignExtend16(0x0000) == 0
  {
  }
}
