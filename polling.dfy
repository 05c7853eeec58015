/** What the driver's two polling loops observe, as functions of the peripheral's
    replies. The peripheral is described by `replies`: `Reply(replies, n)` is the frame it
    clocks back during the n-th exchange on the bus. Time is counted in poll
    intervals; the loops sleep one interval between polls and nothing else
    advances the clock, so the poll numbered `i` (from 0) sees `i` intervals
    elapsed. */
module Polling {
  import opened Registers
  import opened Decoding

  /** What a polling loop waits for in the byte it reads. */
  datatype Condition = IdentityMatches | MotionFlagSet

  predicate Satisfied(cond: Condition, reply: byte) {
    match cond
    case IdentityMatches => reply == PRODUCT_ID_VAL
    case MotionFlagSet => MotionReady(reply)
  }

  /** The number of polls made by a loop that reads one register per poll,
      starting with exchange `c`, `elapsed` intervals after it started: it stops
      at the first satisfying reply, or at the first reply read after more than
      `timeout` intervals have elapsed. */
  function Polls(replies: seq<Frame>, c: nat, cond: Condition, elapsed: nat, timeout: nat): (n: nat)
    decreases timeout - elapsed
    ensures n >= 1
  {
    if Satisfied(cond, Reply(replies, c).b1) || elapsed > timeout then 1
    else 1 + Polls(replies, c + 1, cond, elapsed + 1, timeout)
  }

  /** The last poll sees a satisfying reply or comes after the timeout, and a
      loop that polls more than once stops at most one interval past it. */
  lemma {:induction false} PollsEnd(replies: seq<Frame>, c: nat, cond: Condition, elapsed: nat, timeout: nat)
    ensures var n := Polls(replies, c, cond, elapsed, timeout);
            && (Satisfied(cond, Reply(replies, c + n - 1).b1) || elapsed + n - 1 > timeout)
            && (n == 1 || elapsed + n - 1 <= timeout + 1)
    decreases timeout - elapsed
  {
    if !Satisfied(cond, Reply(replies, c).b1) && elapsed <= timeout {
      PollsEnd(replies, c + 1, cond, elapsed + 1, timeout);
    }
  }

  /** Every poll before the last one saw an unsatisfying reply. */
  lemma {:induction false} PollsSkipUnsatisfied(replies: seq<Frame>, c: nat, cond: Condition, elapsed: nat, timeout: nat)
    ensures var n := Polls(replies, c, cond, elapsed, timeout);
            forall j :: c <= j < c + n - 1 ==> !Satisfied(cond, Reply(replies, j).b1)
    decreases timeout - elapsed
  {
    if !Satisfied(cond, Reply(replies, c).b1) && elapsed <= timeout {
      PollsSkipUnsatisfied(replies, c + 1, cond, elapsed + 1, timeout);
    }
  }

  /** A loop that gives up does so after exactly `timeout + 1` intervals, having
      seen no satisfying reply at all: it waits past the timeout, and by no more
      than one interval. */
  lemma GiveUpAfterTimeout(replies: seq<Frame>, c: nat, cond: Condition, timeout: nat)
    requires !Satisfied(cond, Reply(replies, c + Polls(replies, c, cond, 0, timeout) - 1).b1)
    ensures Polls(replies, c, cond, 0, timeout) == timeout + 2
    ensures forall j :: c <= j < c + timeout + 2 ==> !Satisfied(cond, Reply(replies, j).b1)
  {
    PollsEnd(replies, c, cond, 0, timeout);
    PollsSkipUnsatisfied(replies, c, cond, 0, timeout);
  }

  /** The loop stops at the first satisfying reply when one comes within
      `timeout + 2` polls. */
  lemma {:induction false} StopAtFirstSatisfying(replies: seq<Frame>, c: nat, cond: Condition, elapsed: nat, timeout: nat, k: nat)
    requires elapsed + k <= timeout + 1
    requires Satisfied(cond, Reply(replies, c + k).b1)
    requires forall j :: c <= j < c + k ==> !Satisfied(cond, Reply(replies, j).b1)
    ensures Polls(replies, c, cond, elapsed, timeout) == k + 1
    decreases k
  {
    if k > 0 {
      StopAtFirstSatisfying(replies, c + 1, cond, elapsed + 1, timeout, k - 1);
    }
  }

  /** A peripheral that always answers the identity read with the product id is
      accepted on the first poll. */
  lemma GenuineDeviceAcceptedAtOnce(replies: seq<Frame>, c: nat, timeout: nat)
    requires Reply(replies, c).b1 == PRODUCT_ID_VAL
    ensures Polls(replies, c, IdentityMatches, 0, timeout) == 1
    ensures Handshake(replies, c, timeout) == Ok(())
  {
  }

  /** A peripheral that does not answer with the product id during the
      `timeout + 2` identity reads makes the handshake give up after all of
      them. */
  lemma AbsentDeviceTimesOut(replies: seq<Frame>, c: nat, timeout: nat)
    requires forall j :: c <= j < c + timeout + 2 ==> Reply(replies, j).b1 != PRODUCT_ID_VAL
    ensures Polls(replies, c, IdentityMatches, 0, timeout) == timeout + 2
    ensures Handshake(replies, c, timeout) == Err(HandshakeTimeout(Reply(replies, c + timeout + 1).b1))
  {
    PollsEnd(replies, c, IdentityMatches, 0, timeout);
  }

  /** The handshake fails exactly when none of the `timeout + 2` identity
      reads returns the product id. */
  lemma HandshakeFailsIff(replies: seq<Frame>, c: nat, timeout: nat)
    ensures Handshake(replies, c, timeout).Err? <==>
            forall j :: c <= j < c + timeout + 2 ==> Reply(replies, j).b1 != PRODUCT_ID_VAL
  {
    PollsEnd(replies, c, IdentityMatches, 0, timeout);
    PollsSkipUnsatisfied(replies, c, IdentityMatches, 0, timeout);
  }

  /** One call of the single-sample read: how many intervals it slept, whether
      the motion flag came up, and the sample it returned. */
  datatype Reading = Reading(sample: Sample, waits: nat, ready: bool)

  /** The single-sample read whose first status poll was exchange `start`,
      from its status poll at exchange `i` on, `i - start` intervals after the
      read started: a set motion flag is followed by the
      reads of X low, X high, Y low and Y high and the decoding of both axes; a
      clear flag after more than `timeout` intervals ends the read with (0, 0)
      and no data reads; otherwise the read sleeps and polls again. */
  function ReadFrom(replies: seq<Frame>, start: nat, i: nat, timeout: nat): Reading
    requires start <= i
    decreases timeout - (i - start)
  {
    if MotionReady(Reply(replies, i).b1) then
      Reading(Sample(DecodeAxis(Reply(replies, i + 1).b1, Reply(replies, i + 2).b1),
                     DecodeAxis(Reply(replies, i + 3).b1, Reply(replies, i + 4).b1)), i - start, true)
    else if i - start > timeout then
      Reading(Sample(0, 0), i - start, false)
    else
      ReadFrom(replies, start, i + 1, timeout)
  }

  /** The single-sample read whose first status poll is exchange `c`. */
  function ReadingAt(replies: seq<Frame>, c: nat, timeout: nat): Reading {
    ReadFrom(replies, c, c, timeout)
  }

  /** The read agrees with the generic polling loop: it sleeps one interval
      fewer than it polls, comes up ready exactly when its last poll shows the
      flag, and then decodes the four replies after that poll. */
  lemma {:induction false} ReadFromPolls(replies: seq<Frame>, start: nat, i: nat, timeout: nat)
    requires start <= i
    ensures var r := ReadFrom(replies, start, i, timeout);
            var n := Polls(replies, i, MotionFlagSet, i - start, timeout);
            var at := i + n;
            && r.waits == i - start + n - 1
            && (r.ready <==> MotionReady(Reply(replies, at - 1).b1))
            && (r.ready ==> r.sample == Sample(DecodeAxis(Reply(replies, at).b1, Reply(replies, at + 1).b1),
                                               DecodeAxis(Reply(replies, at + 2).b1, Reply(replies, at + 3).b1)))
            && (!r.ready ==> r.sample == Sample(0, 0))
    decreases timeout - (i - start)
  {
    if !MotionReady(Reply(replies, i).b1) && i - start <= timeout {
      ReadFromPolls(replies, start, i + 1, timeout);
    }
  }

  /** A read stops polling at the first status byte with the motion flag set,
      or gives up with (0, 0) after `timeout + 1` intervals with no flag seen. */
  lemma ReadingPolls(replies: seq<Frame>, c: nat, timeout: nat)
    ensures var r := ReadingAt(replies, c, timeout);
            && (r.ready <==> MotionReady(Reply(replies, c + r.waits).b1))
            && (!r.ready ==> r.sample == Sample(0, 0) && r.waits == timeout + 1)
            && (r.ready ==> r.waits <= timeout + 1)
            && (forall j :: c <= j < c + r.waits ==> !MotionReady(Reply(replies, j).b1))
  {
    ReadFromPolls(replies, c, c, timeout);
    PollsEnd(replies, c, MotionFlagSet, 0, timeout);
    PollsSkipUnsatisfied(replies, c, MotionFlagSet, 0, timeout);
  }

  /** A successful read decodes X from the two replies after the last status
      poll (low byte first) and Y from the two after those. */
  lemma ReadingDecodesDataReplies(replies: seq<Frame>, c: nat, timeout: nat)
    requires ReadingAt(replies, c, timeout).ready
    ensures var r := ReadingAt(replies, c, timeout);
            var at := c + r.waits + 1;
            r.sample == Sample(DecodeAxis(Reply(replies, at).b1, Reply(replies, at + 1).b1),
                               DecodeAxis(Reply(replies, at + 2).b1, Reply(replies, at + 3).b1))
  {
    ReadFromPolls(replies, c, c, timeout);
  }

  /** The read falls back to (0, 0) exactly when none of the `timeout + 2`
      status polls shows the motion flag. */
  lemma {:induction false} SoftTimeoutIff(replies: seq<Frame>, c: nat, timeout: nat)
    ensures !ReadingAt(replies, c, timeout).ready <==>
            forall j :: c <= j < c + timeout + 2 ==> !MotionReady(Reply(replies, j).b1)
  {
    var n := Polls(replies, c, MotionFlagSet, 0, timeout);
    ReadFromPolls(replies, c, c, timeout);
    PollsEnd(replies, c, MotionFlagSet, 0, timeout);
    PollsSkipUnsatisfied(replies, c, MotionFlagSet, 0, timeout);
    if forall j :: c <= j < c + timeout + 2 ==> !MotionReady(Reply(replies, j).b1) {
      assert !MotionReady(Reply(replies, c + n - 1).b1);
    }
  }

  /** A loop that stops at poll `e` has made `e + 1` polls. */
  lemma PollsStop(replies: seq<Frame>, c: nat, cond: Condition, e: nat, timeout: nat)
    requires Polls(replies, c, cond, 0, timeout) == e + Polls(replies, c + e, cond, e, timeout)
    requires Satisfied(cond, Reply(replies, c + e).b1) || e > timeout
    ensures Polls(replies, c, cond, 0, timeout) == e + 1
  {
  }

  /** The outcome of the identity handshake whose first read is exchange `c`:
      success if the last id read is the product id, otherwise the timeout
      error carrying that id. */
  function Handshake(replies: seq<Frame>, c: nat, timeout: nat): (r: Result<()>)
    ensures var last := Reply(replies, c + Polls(replies, c, IdentityMatches, 0, timeout) - 1).b1;
            && (r.Ok? <==> last == PRODUCT_ID_VAL)
            && (r.Err? ==> r.error == HandshakeTimeout(last))
    ensures r.Err? ==> Polls(replies, c, IdentityMatches, 0, timeout) == timeout + 2
  {
    PollsEnd(replies, c, IdentityMatches, 0, timeout);
    var last := Reply(replies, c + Polls(replies, c, IdentityMatches, 0, timeout) - 1).b1;
    if last == PRODUCT_ID_VAL then Ok(()) else Err(HandshakeTimeout(last))
  }

  /** A status poll that sees no flag before the timeout is followed by
      another one an interval later. */
  lemma PollsContinue(replies: seq<Frame>, c: nat, cond: Condition, e: nat, timeout: nat)
    requires !Satisfied(cond, Reply(replies, c + e).b1) && e <= timeout
    ensures Polls(replies, c + e, cond, e, timeout) == 1 + Polls(replies, c + e + 1, cond, e + 1, timeout)
  {
  }

  /** The frames a read puts on the bus. */
  function ReadingFrames(r: Reading): (frames: seq<Frame>)
    ensures |frames| == Transactions(r)
  {
    Repeat(ReadFrame(STATUS_REG), r.waits + 1) + if r.ready then DataFrames() else []
  }

  /** `n` copies of one frame: the frames of a polling loop. */
  function Repeat(f: Frame, n: nat): (frames: seq<Frame>)
    ensures |frames| == n
  {
    if n == 0 then [] else Repeat(f, n - 1) + [f]
  }

  /** Every frame of a polling loop is the same read. */
  lemma {:induction false} RepeatAt(f: Frame, n: nat, k: nat)
    requires k < n
    ensures Repeat(f, n)[k] == f
    decreases n
  {
    if k < n - 1 {
      RepeatAt(f, n - 1, k);
    }
  }

  /** A read that gave up put only status-register reads on the bus: no data
      register was read. */
  lemma TimedOutReadsOnlyStatus(r: Reading)
    requires !r.ready
    ensures forall k :: 0 <= k < |ReadingFrames(r)| ==> ReadingFrames(r)[k] == ReadFrame(STATUS_REG)
  {
    forall k | 0 <= k < |ReadingFrames(r)|
      ensures ReadingFrames(r)[k] == ReadFrame(STATUS_REG)
    {
      RepeatAt(ReadFrame(STATUS_REG), r.waits + 1, k);
    }
  }

  /** A read that saw the flag polled the status register up to then, and
      then read X low, X high, Y low and Y high, in that order. */
  lemma ReadyReadsStatusThenData(r: Reading)
    requires r.ready
    ensures forall k :: 0 <= k <= r.waits ==> ReadingFrames(r)[k] == ReadFrame(STATUS_REG)
    ensures ReadingFrames(r)[r.waits + 1..]
         == [ReadFrame(REG_X_L), ReadFrame(REG_X_H), ReadFrame(REG_Y_L), ReadFrame(REG_Y_H)]
  {
    var polls := Repeat(ReadFrame(STATUS_REG), r.waits + 1);
    assert ReadingFrames(r) == polls + DataFrames();
    forall k | 0 <= k <= r.waits
      ensures ReadingFrames(r)[k] == ReadFrame(STATUS_REG)
    {
      RepeatAt(ReadFrame(STATUS_REG), r.waits + 1, k);
    }
    assert (polls + DataFrames())[|polls|..] == DataFrames();
  }

  /** One more poll appends one more frame. */
  lemma RepeatSnoc(before: seq<Frame>, f: Frame, n: nat)
    ensures before + Repeat(f, n) + [f] == before + Repeat(f, n + 1)
  {
  }

  /** The frames of a read that gave up after its last status poll. */
  lemma TimedOutFrames(before: seq<Frame>, r: Reading)
    requires !r.ready
    ensures before + Repeat(ReadFrame(STATUS_REG), r.waits) + [ReadFrame(STATUS_REG)]
         == before + ReadingFrames(r)
  {
    RepeatSnoc(before, ReadFrame(STATUS_REG), r.waits);
  }

  /** The frames of a read that saw the flag at its last status poll and then
      read the four data registers. */
  lemma ReadyFrames(before: seq<Frame>, r: Reading)
    requires r.ready
    ensures before + Repeat(ReadFrame(STATUS_REG), r.waits) + [ReadFrame(STATUS_REG)] + DataFrames()
         == before + ReadingFrames(r)
  {
    var polls := Repeat(ReadFrame(STATUS_REG), r.waits + 1);
    assert ReadingFrames(r) == polls + DataFrames();
    RepeatSnoc(before, ReadFrame(STATUS_REG), r.waits);
  }

  function DataFrames(): (frames: seq<Frame>)
    ensures |frames| == 4
  {
    [ReadFrame(REG_X_L), ReadFrame(REG_X_H), ReadFrame(REG_Y_L), ReadFrame(REG_Y_H)]
  }

  /** How many exchanges a read takes: its status polls, then four data reads
      if the flag came up. */
  function Transactions(r: Reading): nat {
    r.waits + 1 + if r.ready then 4 else 0
  }
}
