# PAT9130 motion-sensor driver, modelled in Dafny

This project models the `SpiSensor` driver of `streaming_ttt/sensor.py`. The driver talks to a PixArt
PAT9130 optical motion sensor over a full-duplex serial bus. It does five things:

- **Register access.** It reads and writes 7-bit register addresses with 8-bit values, one two-byte
  exchange each.
- **Identity handshake.** It polls the product-id register until it answers 0x31, or gives up with a
  timeout error.
- **Single-sample read.** It polls the motion-ready bit of the status register, then reads the X and
  Y displacement registers and decodes them as 16-bit two's-complement counts. If the bit never comes
  up in time, it returns (0, 0) instead.
- **Calibration.** It derives a per-axis scale factor from one reading taken while the sensor is moved
  by a known distance.
- **Continuous capture.** It accumulates scaled displacement until the operator interrupts it, and
  can log every step as CSV.

The modules follow these parts:

| file | module | contents |
|---|---|---|
| `bits.dfy` | `Bits` | `&`, `|` and `<<` on non-negative integers, with the masking facts the driver relies on |
| `registers.dfy` | `Registers` | register map and constants, frames, command bytes, the driver's errors, the motion-ready mask test |
| `decoding.dfy` | `Decoding` | assembly of `high << 8 | low`, 16-bit sign extension, and the round trip with the device's encoding |
| `polling.dfy` | `Polling` | what the two polling loops observe, as functions of the peripheral's replies: poll counts, the handshake outcome, the single-sample read and the frames it sends |
| `calibration.dfy` | `Calibration` | the scale-factor expression and its zero fallback |
| `capture.dfy` | `Capture` | a capture as a run of reads numbered from 0: its frames, sleeps, running sums, records and CSV log |
| `sensor.dfy` | `Sensor` | the driver object `SpiSensor`, with one method per driver method |

**The bus.** The bus is a script of replies. `Reply(device, n)` is the frame the peripheral clocks
back during the n-th exchange. Past the end of the script the line reads as zero bytes.

**What the object holds.** A `SpiSensor` holds the script, the log `sent` of every frame it has put on
the bus, and a clock `now`. The next exchange is therefore numbered `|sent|`. The clock counts 8 ms
poll intervals, and only the driver's sleeps advance it.

**How the methods are specified.** Each method is specified against the functions of `Polling` and
`Capture`:
- what it returns;
- exactly which frames it appends to `sent`;
- how far it advances `now`.

The lemmas then state what those functions mean: stop conditions, timeouts, read order, decoding,
sums and records.

**Errors and constants.**
- The driver has no fault state. No bus failure is caught anywhere, so the model's bus cannot
  fail.
- The code raises `ValueError` for both a bad address and a bad value. These become two errors,
  `InvalidAddress` and `InvalidValue`. The `TimeoutError` of the handshake becomes
  `HandshakeTimeout`, carrying the last identity byte read.
- `DEFAULT_TIMEOUT` is 600.0 seconds in the code, though its comment says 60. The model uses the
  value: `DEFAULT_TIMEOUT_MS / POLL_INTERVAL_MS`, that is 600000 ms in poll intervals of 8 ms.

## Model

| member | source | states |
|---|---|---|
| Registers.ReadCommand | streaming_ttt/sensor.py:39-42 | a read succeeds exactly for addresses 0..0x7F; any other address is `InvalidAddress(address)`; a valid read's frame is `[address, 0x00]`, with bit 7 of the command clear |
| Registers.ReadCommandIsMasked | streaming_ttt/sensor.py:42 | the read command byte equals `address & 0x7F` |
| Registers.WriteCommand | streaming_ttt/sensor.py:46-51 | a write succeeds exactly for a 7-bit address and an 8-bit value; the address is checked first, then the value; a valid write's frame has bit 7 set, the address in the low seven bits and the value as second byte |
| Registers.WriteCommandIsMasked | streaming_ttt/sensor.py:51 | the write command byte equals `0x80 \| (address & 0x7F)` |
| Registers.ReadCommandDecodes | streaming_ttt/sensor.py:42-43 | the peripheral reads a read frame as a read of the same register |
| Registers.WriteCommandDecodes | streaming_ttt/sensor.py:51-52 | the peripheral reads a write frame as a write of the given value into the same register |
| Registers.MotionReady | streaming_ttt/sensor.py:65-67 | the motion flag is on exactly when the status byte is at least 0x80, i.e. bit 7 is set |
| Registers.MotionReadyIsMasked | streaming_ttt/sensor.py:67 | the flag test equals `status & MSB_MASK != 0` |
| Bits.And | streaming_ttt/sensor.py:42 | `a & b`, bit by bit, as at lines 42, 51, 67 and 81: the result never exceeds the mask |
| Bits.Or | streaming_ttt/sensor.py:51 | `a \| b`, bit by bit, as at lines 51 and 79-80: the result is at least each operand and at most their sum |
| Bits.Shl | streaming_ttt/sensor.py:79-82 | `a << k`: the low `k` bits of the result are clear, and dividing by `2^k` gives `a` back |
| Decoding.Assemble | streaming_ttt/sensor.py:79-80 | the word `(high << 8) \| low` keeps the high byte above bit 8 and the low byte below it; being a `u16`, it lies in 0..65535 |
| Decoding.AssembleIsShiftOr | streaming_ttt/sensor.py:79-80 | assembly equals `(high << 8) \| low` |
| Decoding.SignExtend16 | streaming_ttt/sensor.py:81-82 | the decoded count lies in -32768..32767, is negative exactly when bit 15 of the word is set, and agrees with the word modulo 2^16 |
| Decoding.SignBitIsMasked | streaming_ttt/sensor.py:81-82 | the sign test equals `raw & (1 << 15) != 0` |
| Decoding.SignExtendBoundaries | streaming_ttt/sensor.py:81-82 | 0x7FFF decodes to 32767, 0x8000 to -32768, 0xFFFF to -1 and 0x0000 to 0 |
| Decoding.SignExtendEncode | streaming_ttt/sensor.py:81-82 | sign extension undoes the device's 16-bit encoding of every signed count |
| Decoding.EncodeSignExtend | streaming_ttt/sensor.py:81-82 | every 16-bit word is the encoding of its sign extension |
| Decoding.DecodeAxis | streaming_ttt/sensor.py:75-82 | a count decoded from a low and a high register byte lies in the 16-bit signed range, and its 16-bit encoding gives back those two bytes |
| Decoding.DecodeAxisRoundTrip | streaming_ttt/sensor.py:75-82 | splitting a signed count into low and high register bytes and decoding them gives the count back |
| Polling.Polls | streaming_ttt/sensor.py:56-63 | a polling loop makes at least one poll |
| Polling.PollsEnd | streaming_ttt/sensor.py:56-63 | the last poll sees a satisfying reply or comes after the timeout; a loop that polls more than once stops at most one interval past the timeout |
| Polling.PollsSkipUnsatisfied | streaming_ttt/sensor.py:56-63 | every poll before the last saw an unsatisfying reply |
| Polling.StopAtFirstSatisfying | streaming_ttt/sensor.py:56-60 | the loop stops exactly at the first satisfying reply that comes before the deadline |
| Polling.GiveUpAfterTimeout | streaming_ttt/sensor.py:61-62 | a loop that gives up has made exactly `timeout + 2` polls, none of them satisfied |
| Polling.Handshake | streaming_ttt/sensor.py:54-63 | the handshake succeeds exactly when its last identity read is 0x31; otherwise it fails with `HandshakeTimeout` carrying that byte, after `timeout + 2` reads |
| Polling.GenuineDeviceAcceptedAtOnce | streaming_ttt/sensor.py:57-60 | a peripheral answering 0x31 is accepted on the first read |
| Polling.AbsentDeviceTimesOut | streaming_ttt/sensor.py:61-62 | a peripheral that does not answer 0x31 during the handshake's `timeout + 2` reads makes it fail after all of them, with the last id read |
| Polling.HandshakeFailsIff | streaming_ttt/sensor.py:56-62 | the handshake fails exactly when none of its `timeout + 2` identity reads returns 0x31 |
| Polling.ReadFrom | streaming_ttt/sensor.py:69-83 | definition of the read from one status poll on: a set flag is followed by the four data reads and both decodings; a clear flag past the timeout gives (0, 0); otherwise one more interval and poll. Its properties are the rows of `ReadFromPolls` and `ReadingPolls` |
| Polling.ReadingAt | streaming_ttt/sensor.py:69-83 | definition of one call of `read_sensor` from a given exchange on; its properties are the rows of `ReadingPolls`, `SoftTimeoutIff` and `ReadingDecodesDataReplies` |
| Polling.ReadFromPolls | streaming_ttt/sensor.py:69-83 | the single-sample read agrees with the generic polling loop: it sleeps one interval fewer than it polls; it is ready exactly when its last poll shows the flag; then it decodes the four replies after that poll; otherwise it returns (0, 0) |
| Polling.ReadingPolls | streaming_ttt/sensor.py:70-74 | a read stops at the first status byte with bit 7 set; a read that gives up returns (0, 0) after exactly `timeout + 1` intervals |
| Polling.SoftTimeoutIff | streaming_ttt/sensor.py:71-73 | a read falls back to (0, 0) exactly when none of its `timeout + 2` status polls shows the flag |
| Polling.ReadingDecodesDataReplies | streaming_ttt/sensor.py:75-83 | a successful read decodes X from the two replies after the last status poll, low byte first, and Y from the two after those |
| Polling.ReadingFrames | streaming_ttt/sensor.py:70-78 | a read takes one exchange per status poll, plus four if the flag came up |
| Polling.TimedOutReadsOnlyStatus | streaming_ttt/sensor.py:71-73 | a read that gave up sent only status-register reads; no data register was read |
| Polling.ReadyReadsStatusThenData | streaming_ttt/sensor.py:71-78 | a successful read polled the status register, then read X_L, X_H, Y_L and Y_H, in that order |
| Calibration.CalibrationFactor | streaming_ttt/sensor.py:118 | the factor times a nonzero raw count is the known distance; a zero count gives 1.0 |
| Calibration.CalibrationExamples | streaming_ttt/sensor.py:118 | 15000 over 1000 is 15.0; over 0 the factor falls back to 1.0; over -1000 it is -15.0 |
| Capture.Records | streaming_ttt/sensor.py:93-99 | the first `k` reads of a capture leave exactly `k` records |
| Capture.RecordsAt | streaming_ttt/sensor.py:93-99 | record `j` carries read `j`'s scaled deltas and the running sums over reads 0..j, all divided by 1000, stamped with the time after read `j`; later reads leave it unchanged |
| Capture.Delta | streaming_ttt/sensor.py:94-95 | a step's delta `raw * factor` is zero exactly when the raw count or the factor is zero |
| Capture.ScaledSum | streaming_ttt/sensor.py:94-97 | definition of the running sum after `k` reads; its property is the row of `ScaledSumIsFactorTimesRaw` |
| Capture.ScaledSumIsFactorTimesRaw | streaming_ttt/sensor.py:94-97 | each running sum is the axis factor times the sum of the raw counts |
| Capture.RunWaitsMonotone | streaming_ttt/sensor.py:98 | the capture clock never runs backwards |
| Capture.StampsNondecreasing | streaming_ttt/sensor.py:98-99 | the tick stamps of successive records never decrease |
| Capture.TimedOutReadAddsNothing | streaming_ttt/sensor.py:93-97 | a read that timed out contributes zero deltas and leaves the sums unchanged |
| Capture.ThreeSampleCapture | streaming_ttt/sensor.py:93-112 | three reads of (10, -5) at factor 1.0 sum to (30, -15), and the log has a header and three rows |
| Capture.CalibratedReadingGivesKnownDistance | streaming_ttt/sensor.py:114-121 | capturing the calibration reading at the calibrated factor gives the known distance |
| Capture.CsvFile | streaming_ttt/sensor.py:109-110 | the log has one row more than there are records |
| Capture.CsvFileLayout | streaming_ttt/sensor.py:109-110 | the log starts with the column header, then holds every record in order, one row each |
| Sensor.SpiSensor.constructor | streaming_ttt/sensor.py:32-37 | a new driver has sent nothing and its clock stands at 0 |
| Sensor.SpiSensor.Xfer2 | streaming_ttt/sensor.py:43 | one exchange appends its frame to the bus log and returns the peripheral's reply for that exchange |
| Sensor.SpiSensor.Sleep | streaming_ttt/sensor.py:63 | a sleep advances the clock by one poll interval and sends nothing |
| Sensor.SpiSensor.ReadRegister | streaming_ttt/sensor.py:39-44 | a bad address fails with nothing sent; otherwise exactly the read frame is sent and the second reply byte is returned |
| Sensor.SpiSensor.WriteRegister | streaming_ttt/sensor.py:46-52 | a bad address or value fails with nothing sent; otherwise exactly the write frame is sent |
| Sensor.SpiSensor.Initialize | streaming_ttt/sensor.py:54-63 | the handshake sends `Polls` identity reads, sleeps between them, and returns the `Handshake` outcome |
| Sensor.SpiSensor.IsMotionStatusOn | streaming_ttt/sensor.py:65-67 | one status read is sent; the result is true exactly when bit 7 of the reply is set |
| Sensor.SpiSensor.ReadSensor | streaming_ttt/sensor.py:69-83 | the read returns the `ReadingAt` sample, sends exactly that reading's frames and sleeps its intervals |
| Sensor.SpiSensor.ReadAxes | streaming_ttt/sensor.py:75-83 | X_L, X_H, Y_L and Y_H are read in that order, and the sample decodes their replies |
| Sensor.SpiSensor.CalibrateX | streaming_ttt/sensor.py:114-121 | one flush read, then one probe read; the factor is `CalibrationFactor` of the probe's X count |
| Sensor.SpiSensor.CalibrateY | streaming_ttt/sensor.py:123-130 | one flush read, then one probe read; the factor is `CalibrationFactor` of the probe's Y count |
| Sensor.SpiSensor.ReadContinuous | streaming_ttt/sensor.py:85-112 | one flush read, then the capture's reads; returns the running sums divided by 1000; the log is the header plus the capture's records when saving is asked for, and empty otherwise |
| Sensor.SpiSensor.CaptureLoop | streaming_ttt/sensor.py:91-101 | after the loop, the frames, clock, sums and records are those of the capture's first `count` reads |
| Sensor.SpiSensor.CaptureStep | streaming_ttt/sensor.py:93-99 | one pass of the loop extends frames, clock, sums and records from `i` reads to `i + 1` |

## Left out

- The bus hardware (lines 1-15, 32-36) is left out: opening the device, its clock speed and its mode.
  The bus is a script of replies, and it never fails.
- Real time is left out. The clock counts whole poll intervals, and only the sleeps advance it. The
  time the bus transfers take is not counted, so "more than `timeout` seconds elapsed" becomes "more
  than `timeout` intervals slept".
- Logging and the progress line (lines 8-9, 37, 59, 89, 100, 102, 111, 119, 128) are left out. They
  are output only.
- The calibration prompt `input()` (lines 116, 125) is left out. It only waits for the operator to
  press Enter.
- Sensor.SpiSensor.ReadContinuous: the operator's interrupt arrives between loop passes, after
  `interruptAfter` of them. Two other interrupt points are not modelled:
  - During the flush read (line 90), which comes before the `try` at line 91 and can wait up to
    `DEFAULT_TIMEOUT` for motion. There the interrupt propagates out of `read_continuous`: no
    totals are returned and no CSV is written. The model's flush read always completes.
  - Between line 96 and line 99. An interrupt there leaves a sum that already includes a delta
    with no record for it, so the returned totals disagree with the last CSV row. In the model
    every pass adds its deltas and its record together.
- Sensor.SpiSensor.ReadContinuous: the sums and factors are reals. Floating-point rounding is not
  modelled.
- Capture.Records: a record's stamp is the tick count after its read, not the formatted date and
  time string.
- Capture.StampsNondecreasing: holds of the model's tick clock only. The source stamps records
  with `datetime.now()`, local wall-clock time, which can step backwards at a daylight-saving
  change or a clock correction.
- Capture.CsvFile: the log is a header row plus one row per record. The file name, the directory
  and the text formatting of the CSV writer are not modelled.
- The demonstration script at lines 133-146 is not part of this model. The dashboard, plotting and
  report modules are not part of it either.
- Sensor.SpiSensor.ReadAxes and Sensor.SpiSensor.CaptureLoop / CaptureStep are not separate
  functions in the source. They split the bodies of `read_sensor` and `read_continuous` into
  separately verified parts, with the same order of bus operations.
