/** What the continuous capture accumulates: the scaled per-axis deltas of a run
    of reads, their running sums, the records kept for the CSV log and the log
    itself. Distances are in the calibrated unit (micrometres for the driver's
    15 mm calibration); records and totals are divided by 1000 into millimetres.

    A capture is a run of reads at the default timeout, each starting at the
    exchange where the previous one ended; its reads are numbered from 0. */
module Capture {
  import opened Registers
  import opened Decoding
  import opened Polling
  import opened Calibration

  /** One capture record: when it was taken (in poll intervals), the step's
      scaled deltas and the running sums, both divided by 1000. */
  datatype Record = Record(stamp: nat, deltaX: real, deltaY: real, totalX: real, totalY: real)

  /** The header and the rows of the CSV log. */
  datatype CsvRow = Header(columns: seq<string>) | Row(record: Record)

  const CsvColumns: seq<string> := ["timestamp", "delta_x", "delta_y", "acumulado_x", "acumulado_y"]

  /** The exchange at which read `j` of a capture begins, when read 0 begins at
      exchange `first`. */
  function ReadStart(replies: seq<Frame>, first: nat, j: nat): (start: nat)
    ensures start >= first
  {
    if j == 0 then first
    else
      var prev := ReadStart(replies, first, j - 1);
      prev + Transactions(ReadingAt(replies, prev, DEFAULT_TIMEOUT))
  }

  /** Read `j` of the capture. */
  function RunRead(replies: seq<Frame>, first: nat, j: nat): Reading {
    ReadingAt(replies, ReadStart(replies, first, j), DEFAULT_TIMEOUT)
  }

  /** The frames of the first `k` reads, in order. */
  function RunFrames(replies: seq<Frame>, first: nat, k: nat): (frames: seq<Frame>)
    ensures |frames| == ReadStart(replies, first, k) - first
  {
    if k == 0 then [] else RunFrames(replies, first, k - 1) + ReadingFrames(RunRead(replies, first, k - 1))
  }

  /** The poll intervals slept by the first `k` reads. */
  function RunWaits(replies: seq<Frame>, first: nat, k: nat): nat {
    if k == 0 then 0 else RunWaits(replies, first, k - 1) + RunRead(replies, first, k - 1).waits
  }

  /** A read's raw count on one axis, times the axis factor: zero exactly when
      the count or the factor is zero. */
  function Delta(r: Reading, axis: Axis, factor: real): (d: real)
    ensures d == 0.0 <==> Raw(r.sample, axis) == 0 || factor == 0.0
  {
    (Raw(r.sample, axis) as real) * factor
  }

  /** The sum of the scaled deltas of the first `k` reads. */
  function ScaledSum(replies: seq<Frame>, first: nat, k: nat, axis: Axis, factor: real): real {
    if k == 0 then 0.0
    else ScaledSum(replies, first, k - 1, axis, factor) + Delta(RunRead(replies, first, k - 1), axis, factor)
  }

  /** The sum of the raw counts of the first `k` reads. */
  function RawSum(replies: seq<Frame>, first: nat, k: nat, axis: Axis): int {
    if k == 0 then 0
    else RawSum(replies, first, k - 1, axis) + Raw(RunRead(replies, first, k - 1).sample, axis)
  }

  /** The records of the first `k` reads of a capture that started at time
      `start`: one per read, appended in order, each stamped with the time
      after its read. */
  function Records(replies: seq<Frame>, first: nat, k: nat, factorX: real, factorY: real, start: nat): (records: seq<Record>)
    ensures |records| == k
  {
    if k == 0 then []
    else
      var r := RunRead(replies, first, k - 1);
      Records(replies, first, k - 1, factorX, factorY, start)
        + [Record(start + RunWaits(replies, first, k),
                  Delta(r, X, factorX) / 1000.0, Delta(r, Y, factorY) / 1000.0,
                  ScaledSum(replies, first, k, X, factorX) / 1000.0,
                  ScaledSum(replies, first, k, Y, factorY) / 1000.0)]
  }

  /** The CSV log: the header, then one row per record in order. */
  function CsvFile(records: seq<Record>): (rows: seq<CsvRow>)
    ensures |rows| == |records| + 1
  {
    [Header(CsvColumns)] + CsvRows(records, |records|)
  }

  /** The rows of the first `n` records. */
  function CsvRows(records: seq<Record>, n: nat): (rows: seq<CsvRow>)
    requires n <= |records|
    ensures |rows| == n
  {
    if n == 0 then [] else CsvRows(records, n - 1) + [Row(records[n - 1])]
  }

  /** Row `i` of the first `n` is the row of record `i`. */
  lemma {:induction false} CsvRowsAt(records: seq<Record>, n: nat, i: nat)
    requires i < n <= |records|
    ensures CsvRows(records, n)[i] == Row(records[i])
  {
    if i < n - 1 {
      CsvRowsAt(records, n - 1, i);
    }
  }

  /** The log starts with the column header and then holds every record, in
      order, one row each. */
  lemma CsvFileLayout(records: seq<Record>)
    ensures CsvFile(records)[0] == Header(CsvColumns)
    ensures forall i :: 0 <= i < |records| ==> CsvFile(records)[i + 1] == Row(records[i])
  {
    forall i | 0 <= i < |records|
      ensures CsvFile(records)[i + 1] == Row(records[i])
    {
      CsvRowsAt(records, |records|, i);
    }
  }

  /** The running sum is the factor times the raw displacement. */
  lemma {:induction false} ScaledSumIsFactorTimesRaw(replies: seq<Frame>, first: nat, k: nat, axis: Axis, factor: real)
    ensures ScaledSum(replies, first, k, axis, factor) == factor * (RawSum(replies, first, k, axis) as real)
  {
    if k > 0 {
      ScaledSumIsFactorTimesRaw(replies, first, k - 1, axis, factor);
    }
  }

  /** Record `j` carries read `j`'s deltas and the sums over reads 0..j, stamped
      with the time after read `j`: among completed passes no read is lost,
      repeated or reordered, and later reads leave it alone. */
  lemma {:induction false} RecordsAt(replies: seq<Frame>, first: nat, k: nat, factorX: real, factorY: real, start: nat, j: nat)
    requires j < k
    ensures var r := RunRead(replies, first, j);
            Records(replies, first, k, factorX, factorY, start)[j] ==
              Record(start + RunWaits(replies, first, j + 1),
                     Delta(r, X, factorX) / 1000.0, Delta(r, Y, factorY) / 1000.0,
                     ScaledSum(replies, first, j + 1, X, factorX) / 1000.0,
                     ScaledSum(replies, first, j + 1, Y, factorY) / 1000.0)
  {
    if j < k - 1 {
      RecordsAt(replies, first, k - 1, factorX, factorY, start, j);
    }
  }

  /** Time never runs backwards along a capture. */
  lemma {:induction false} RunWaitsMonotone(replies: seq<Frame>, first: nat, i: nat, j: nat)
    requires i <= j
    ensures RunWaits(replies, first, i) <= RunWaits(replies, first, j)
    decreases j
  {
    if i < j {
      RunWaitsMonotone(replies, first, i, j - 1);
    }
  }

  /** Records are stamped in nondecreasing time order. */
  lemma StampsNondecreasing(replies: seq<Frame>, first: nat, k: nat, factorX: real, factorY: real, start: nat, i: nat, j: nat)
    requires i <= j < k
    ensures var records := Records(replies, first, k, factorX, factorY, start);
            records[i].stamp <= records[j].stamp
  {
    RecordsAt(replies, first, k, factorX, factorY, start, i);
    RecordsAt(replies, first, k, factorX, factorY, start, j);
    RunWaitsMonotone(replies, first, i + 1, j + 1);
  }

  /** A read that timed out still makes a record, with zero deltas: the soft
      timeout leaves the running sums as they were. */
  lemma TimedOutReadAddsNothing(replies: seq<Frame>, first: nat, j: nat, axis: Axis, factor: real)
    requires !RunRead(replies, first, j).ready
    ensures Delta(RunRead(replies, first, j), axis, factor) == 0.0
    ensures ScaledSum(replies, first, j + 1, axis, factor) == ScaledSum(replies, first, j, axis, factor)
  {
    ReadingPolls(replies, ReadStart(replies, first, j), DEFAULT_TIMEOUT);
  }

  /** Three reads of (10, -5) at factor 1.0 accumulate (30, -15), and the saved
      log has a header and three rows. */
  lemma ThreeSampleCapture(replies: seq<Frame>, first: nat)
    requires RunRead(replies, first, 0).sample == Sample(10, -5)
    requires RunRead(replies, first, 1).sample == Sample(10, -5)
    requires RunRead(replies, first, 2).sample == Sample(10, -5)
    ensures ScaledSum(replies, first, 3, X, 1.0) == 30.0
    ensures ScaledSum(replies, first, 3, Y, 1.0) == -15.0
    ensures |CsvFile(Records(replies, first, 3, 1.0, 1.0, 0))| == 4
  {
    assert ScaledSum(replies, first, 1, X, 1.0) == 10.0 && ScaledSum(replies, first, 1, Y, 1.0) == -5.0;
    assert ScaledSum(replies, first, 2, X, 1.0) == 20.0 && ScaledSum(replies, first, 2, Y, 1.0) == -10.0;
  }

  /** A capture at the calibrated factor whose first read repeats the
      calibration reading reports the known distance. */
  lemma CalibratedReadingGivesKnownDistance(replies: seq<Frame>, first: nat, axis: Axis, known: real)
    requires Raw(RunRead(replies, first, 0).sample, axis) != 0
    ensures var raw := Raw(RunRead(replies, first, 0).sample, axis);
            ScaledSum(replies, first, 1, axis, CalibrationFactor(known, raw)) == known
  {
  }

  lemma AppendAssoc<T>(a: seq<T>, b: seq<T>, c: seq<T>)
    ensures a + b + c == a + (b + c)
  {
  }
}
