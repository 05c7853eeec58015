/** The PAT9130 driver object: register reads and writes over a full-duplex
    bus, the identity handshake, motion-ready polling with the single-sample
    read, per-axis calibration and the continuous capture.

    The bus is described by the peripheral's replies: `Reply(device, n)` is the
    frame it clocks back during the n-th exchange (all zero bytes once the
    scripted replies run out), and `sent` logs every frame the driver has put
    on the bus, so the next exchange is numbered `|sent|`. The clock `now`
    counts poll intervals of 8 ms and only the driver's sleeps advance it. */
module Sensor {
  import opened Registers
  import opened Decoding
  import opened Polling
  import opened Calibration
  import opened Capture

  class SpiSensor {
    /** The peripheral's reply to each exchange, by exchange number. */
    const device: seq<Frame>
    /** Every frame sent so far, oldest first. */
    var sent: seq<Frame>
    /** Poll intervals slept so far. */
    var now: nat

    constructor (device: seq<Frame>)
      ensures this.device == device && sent == [] && now == 0
    {
      this.device := device;
      sent := [];
      now := 0;
    }

    /** One two-byte full-duplex exchange. */
    method Xfer2(tx: Frame) returns (rx: Frame)
      modifies this
      ensures sent == old(sent) + [tx] && now == old(now)
      ensures rx == Reply(device, |old(sent)|)
    {
      rx := Reply(device, |sent|);
      sent := sent + [tx];
    }

    /** Sleep one poll interval. */
    method Sleep()
      modifies this
      ensures now == old(now) + 1 && sent == old(sent)
    {
      now := now + 1;
    }

    /** Reads one register: a bad address fails before anything is sent;
        otherwise one read frame goes out and the second reply byte is the
        register's value. */
    method ReadRegister(address: int) returns (r: Result<byte>)
      modifies this
      ensures now == old(now)
      ensures !ValidAddress(address) ==> r == Err(InvalidAddress(address)) && sent == old(sent)
      ensures ValidAddress(address) ==>
                r == Ok(Reply(device, |old(sent)|).b1) && sent == old(sent) + [ReadFrame(address)]
    {
      var cmd := ReadCommand(address);
      if cmd.Err? {
        return Err(cmd.error);
      }
      var resp := Xfer2(cmd.value);
      r := Ok(resp.b1);
    }

    /** Writes one register: a bad address, then a bad value, fails before
        anything is sent; otherwise exactly the write frame goes out. */
    method WriteRegister(address: int, value: int) returns (r: Result<()>)
      modifies this
      ensures now == old(now)
      ensures r.Ok? <==> ValidAddress(address) && ValidValue(value)
      ensures r.Err? ==> WriteCommand(address, value) == Err(r.error) && sent == old(sent)
      ensures r.Ok? ==> sent == old(sent) + [WriteCommand(address, value).value]
    {
      var cmd := WriteCommand(address, value);
      if cmd.Err? {
        return Err(cmd.error);
      }
      var _ := Xfer2(cmd.value);
      r := Ok(());
    }

    /** The identity handshake: reads the product id register until it
        answers 0x31, sleeping an interval between reads, and fails with the
        last id read once more than `timeout` intervals have passed. */
    method Initialize(timeout: nat := DEFAULT_TIMEOUT) returns (r: Result<()>)
      modifies this
      ensures var n := Polls(device, |old(sent)|, IdentityMatches, 0, timeout);
              sent == old(sent) + Repeat(ReadFrame(PRODUCT_ID_ADDR), n) && now == old(now) + n - 1
      ensures r == Handshake(device, |old(sent)|, timeout)
    {
      var start := now;
      ghost var c := |sent|;
      ghost var e: nat := 0;
      while true
        invariant start == old(now) && now == start + e && e <= timeout + 1
        invariant sent == old(sent) + Repeat(ReadFrame(PRODUCT_ID_ADDR), e) && |sent| == c + e
        invariant Polls(device, c, IdentityMatches, 0, timeout)
               == e + Polls(device, c + e, IdentityMatches, e, timeout)
        decreases timeout + 1 - e
      {
        var pid := ReadRegister(PRODUCT_ID_ADDR);
        RepeatSnoc(old(sent), ReadFrame(PRODUCT_ID_ADDR), e);
        if pid.value == PRODUCT_ID_VAL {
          PollsStop(device, c, IdentityMatches, e, timeout);
          return Ok(());
        }
        if now - start > timeout {
          PollsStop(device, c, IdentityMatches, e, timeout);
          return Err(HandshakeTimeout(pid.value));
        }
        PollsContinue(device, c, IdentityMatches, e, timeout);
        Sleep();
        e := e + 1;
      }
    }

    /** Reads the status register and tests its motion-ready bit. */
    method IsMotionStatusOn() returns (on: bool)
      modifies this
      ensures sent == old(sent) + [ReadFrame(STATUS_REG)] && now == old(now)
      ensures on <==> Reply(device, |old(sent)|).b1 >= 0x80
    {
      var ms := ReadRegister(STATUS_REG);
      on := MotionReady(ms.value);
    }

    /** The single-sample read: polls the motion flag, giving up with (0, 0)
        once more than `timeout` intervals have passed, then reads and decodes
        X low, X high, Y low and Y high. */
    method ReadSensor(timeout: nat := DEFAULT_TIMEOUT) returns (s: Sample)
      modifies this
      ensures var rd := ReadingAt(device, |old(sent)|, timeout);
              && s == rd.sample
              && sent == old(sent) + ReadingFrames(rd)
              && now == old(now) + rd.waits
    {
      var start := now;
      ghost var c := |sent|;
      ghost var e: nat := 0;
      while true
        invariant start == old(now) && now == start + e && e <= timeout + 1
        invariant sent == old(sent) + Repeat(ReadFrame(STATUS_REG), e) && |sent| == c + e
        invariant ReadingAt(device, c, timeout) == ReadFrom(device, c, c + e, timeout)
        decreases timeout + 1 - e
      {
        var on := IsMotionStatusOn();
        if on {
          break;
        }
        if now - start > timeout {
          TimedOutFrames(old(sent), ReadingAt(device, c, timeout));
          return Sample(0, 0);
        }
        RepeatSnoc(old(sent), ReadFrame(STATUS_REG), e);
        Sleep();
        e := e + 1;
      }
      s := ReadAxes();
      ReadyFrames(old(sent), ReadingAt(device, c, timeout));
    }

    /** The data reads of a single-sample read: X low, X high, Y low and
        Y high, in that order, assembled and sign-extended per axis. */
    method ReadAxes() returns (s: Sample)
      modifies this
      ensures var at := |old(sent)|;
              s == Sample(DecodeAxis(Reply(device, at).b1, Reply(device, at + 1).b1),
                          DecodeAxis(Reply(device, at + 2).b1, Reply(device, at + 3).b1))
      ensures sent == old(sent) + DataFrames() && now == old(now)
    {
      var xl := ReadRegister(REG_X_L);
      var xh := ReadRegister(REG_X_H);
      var yl := ReadRegister(REG_Y_L);
      var yh := ReadRegister(REG_Y_H);
      var rawX := Assemble(xh.value, xl.value);
      var rawY := Assemble(yh.value, yl.value);
      s := Sample(SignExtend16(rawX), SignExtend16(rawY));
    }

    /** Calibration of the X axis: one read to flush stale motion, then,
        once the sensor has been moved by the known distance, one read whose X
        count gives the factor `known / raw`, or 1.0 for a zero count. */
    method CalibrateX(knownDistanceX: real) returns (factorX: real)
      modifies this
      ensures var flush := ReadingAt(device, |old(sent)|, DEFAULT_TIMEOUT);
              var probe := ReadingAt(device, |old(sent)| + Transactions(flush), DEFAULT_TIMEOUT);
              && factorX == CalibrationFactor(knownDistanceX, probe.sample.x)
              && sent == old(sent) + ReadingFrames(flush) + ReadingFrames(probe)
              && now == old(now) + flush.waits + probe.waits
    {
      var _ := ReadSensor();
      var probe := ReadSensor();
      factorX := CalibrationFactor(knownDistanceX, probe.x);
    }

    /** Calibration of the Y axis, as for X with the Y count. */
    method CalibrateY(knownDistanceY: real) returns (factorY: real)
      modifies this
      ensures var flush := ReadingAt(device, |old(sent)|, DEFAULT_TIMEOUT);
              var probe := ReadingAt(device, |old(sent)| + Transactions(flush), DEFAULT_TIMEOUT);
              && factorY == CalibrationFactor(knownDistanceY, probe.sample.y)
              && sent == old(sent) + ReadingFrames(flush) + ReadingFrames(probe)
              && now == old(now) + flush.waits + probe.waits
    {
      var _ := ReadSensor();
      var probe := ReadSensor();
      factorY := CalibrationFactor(knownDistanceY, probe.y);
    }

    /** The continuous capture: one read to flush stale motion, then one read
        per step, each scaled by the axis factors and added to the running
        sums, with one record per step; the operator's interrupt comes after
        `interruptAfter` complete steps, never inside one. Returns the sums in
        millimetres and, when `saveCsv` is set, the CSV log written on
        interrupt. */
    method ReadContinuous(interruptAfter: nat, factorX: real := 1.0, factorY: real := 1.0, saveCsv: bool := false)
      returns (totalX: real, totalY: real, csv: seq<CsvRow>, ghost first: nat, ghost start: nat)
      modifies this
      ensures first == |old(sent)| + Transactions(ReadingAt(device, |old(sent)|, DEFAULT_TIMEOUT))
      ensures start == old(now) + ReadingAt(device, |old(sent)|, DEFAULT_TIMEOUT).waits
      ensures sent == old(sent) + ReadingFrames(ReadingAt(device, |old(sent)|, DEFAULT_TIMEOUT))
                        + RunFrames(device, first, interruptAfter)
      ensures now == start + RunWaits(device, first, interruptAfter)
      ensures totalX == ScaledSum(device, first, interruptAfter, X, factorX) / 1000.0
      ensures totalY == ScaledSum(device, first, interruptAfter, Y, factorY) / 1000.0
      ensures csv == if saveCsv then CsvFile(Records(device, first, interruptAfter, factorX, factorY, start)) else []
    {
      var _ := ReadSensor();
      first, start := |sent|, now;
      var xSum, ySum, records := CaptureLoop(first, start, interruptAfter, factorX, factorY);
      if saveCsv {
        csv := CsvFile(records);
      } else {
        csv := [];
      }
      totalX, totalY := xSum / 1000.0, ySum / 1000.0;
    }

    /** The loop of `read_continuous`, from empty sums, until the interrupt
        arrives after `count` reads: each read's scaled deltas are added to the
        sums and one record, stamped after the read, is appended. The capture
        starts at exchange `first` and time `start`. */
    method CaptureLoop(ghost first: nat, ghost start: nat, count: nat, factorX: real, factorY: real)
      returns (xSum: real, ySum: real, records: seq<Record>)
      requires first == |sent| && start == now
      modifies this
      ensures sent == old(sent) + RunFrames(device, first, count)
      ensures now == start + RunWaits(device, first, count)
      ensures xSum == ScaledSum(device, first, count, X, factorX)
      ensures ySum == ScaledSum(device, first, count, Y, factorY)
      ensures records == Records(device, first, count, factorX, factorY, start)
    {
      xSum, ySum := 0.0, 0.0;
      records := [];
      var i := 0;
      while i < count
        invariant i <= count
        invariant sent == old(sent) + RunFrames(device, first, i)
        invariant now == start + RunWaits(device, first, i)
        invariant xSum == ScaledSum(device, first, i, X, factorX) && ySum == ScaledSum(device, first, i, Y, factorY)
        invariant records == Records(device, first, i, factorX, factorY, start)
      {
        xSum, ySum, records := CaptureStep(old(sent), first, start, i, factorX, factorY, xSum, ySum, records);
        i := i + 1;
      }
    }

    /** One pass of the capture loop, as read `i` of a capture whose read 0
        began at exchange `first` and time `start`, after frames `before`: the
        read, its scaled deltas added to the sums, one record appended. */
    method CaptureStep(ghost before: seq<Frame>, ghost first: nat, ghost start: nat, ghost i: nat,
                       factorX: real, factorY: real, xSum: real, ySum: real, records: seq<Record>)
      returns (xSum': real, ySum': real, records': seq<Record>)
      requires first == |before|
      requires sent == before + RunFrames(device, first, i)
      requires now == start + RunWaits(device, first, i)
      requires xSum == ScaledSum(device, first, i, X, factorX) && ySum == ScaledSum(device, first, i, Y, factorY)
      requires records == Records(device, first, i, factorX, factorY, start)
      modifies this
      ensures sent == before + RunFrames(device, first, i + 1)
      ensures now == start + RunWaits(device, first, i + 1)
      ensures xSum' == ScaledSum(device, first, i + 1, X, factorX) && ySum' == ScaledSum(device, first, i + 1, Y, factorY)
      ensures records' == Records(device, first, i + 1, factorX, factorY, start)
    {
      assert |sent| == ReadStart(device, first, i);
      var s := ReadSensor();
      var deltaX := (s.x as real) * factorX;
      var deltaY := (s.y as real) * factorY;
      xSum' := xSum + deltaX;
      ySum' := ySum + deltaY;
      records' := records + [Record(now, deltaX / 1000.0, deltaY / 1000.0, xSum' / 1000.0, ySum' / 1000.0)];
      AppendAssoc(before, RunFrames(device, first, i), ReadingFrames(RunRead(device, first, i)));
    }
  }
}
