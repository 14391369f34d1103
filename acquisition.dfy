/**
 * INACTIVE DESIGN. The element's source carries an event-driven acquisition
 * scheme only as commented-out code: a board event callback that stamps
 * frame starts and ends into two timestamp rings and counts events, a
 * normaliser that turns the board's event counter into stream time, and a
 * drain step in `create` that classifies the wake-up, counts dropped frames
 * and looks up the frame's timestamp. None of it runs in the compiled
 * element. It is modelled here as a separate sequential transition system:
 * each callback invocation and each drain is one atomic step, and the mutex
 * and condition variable that would serialise them are left out.
 */
module AcquisitionDesign {
  import opened CTypes

  /** The callback's event kinds; one invocation receives any subset of them. */
  datatype Event = FrameStart | FrameEnd | BufferReady | Timeout | FifoOverflow

  /** The events after which the callback signals the waiting `create`. */
  predicate Wakes(mask: set<Event>)
  {
    BufferReady in mask || Timeout in mask || FifoOverflow in mask
  }

  // ---------------------------------------------------------------------
  // Timestamp normaliser

  /** The board's 32-bit event counter scaled to nanoseconds on 64 bits; it never reaches the "no time" sentinel. */
  function BoardTime(eventCount: u32): (t: u64)
    ensures t % 1000 == 0 && t / 1000 == eventCount
    ensures t < CLOCK_TIME_NONE
  {
    1000 * eventCount
  }

  /**
   * One call of the normaliser from epoch `epoch`: with no epoch yet, `t`
   * becomes the epoch; the result is the 64-bit difference `t - epoch`.
   * Returns the new epoch and the stream time.
   */
  function Normalize(epoch: u64, t: u64): (r: (u64, u64))
    ensures epoch == CLOCK_TIME_NONE ==> r == (t, 0)
    ensures epoch != CLOCK_TIME_NONE ==> r.0 == epoch && (r.1 + epoch) % U64_MODULUS == t
    ensures epoch != CLOCK_TIME_NONE && epoch <= t ==> r.1 == t - epoch
  {
    var e := if epoch == CLOCK_TIME_NONE then t else epoch;
    (e, SubU64(t, e))
  }

  /** The stream times the normaliser hands out for successive event counter readings. */
  function Stamps(epoch: u64, counts: seq<u32>): seq<u64>
    decreases |counts|
  {
    if counts == [] then []
    else
      var step := Normalize(epoch, BoardTime(counts[0]));
      [step.1] + Stamps(step.0, counts[1..])
  }

  predicate NonDecreasing(s: seq<int>)
  {
    forall i, j :: 0 <= i <= j < |s| ==> s[i] <= s[j]
  }

  /** Once an epoch is latched, every reading at or after it maps to its distance from the epoch. */
  lemma {:induction false} StampsFromEpoch(epoch: u64, counts: seq<u32>)
    requires epoch != CLOCK_TIME_NONE
    requires forall i :: 0 <= i < |counts| ==> epoch <= BoardTime(counts[i])
    ensures |Stamps(epoch, counts)| == |counts|
    ensures forall i :: 0 <= i < |counts| ==> Stamps(epoch, counts)[i] == BoardTime(counts[i]) - epoch
    decreases |counts|
  {
    if counts != [] {
      StampsFromEpoch(epoch, counts[1..]);
      assert Stamps(epoch, counts) == [BoardTime(counts[0]) - epoch] + Stamps(epoch, counts[1..]);
    }
  }

  /**
   * From a fresh element, a non-decreasing run of counter readings gives
   * stream times that start at zero, never decrease, and measure the
   * distance from the first reading.
   */
  lemma StampsStartAtZero(counts: seq<u32>)
    requires counts != [] && NonDecreasing(counts)
    ensures |Stamps(CLOCK_TIME_NONE, counts)| == |counts|
    ensures Stamps(CLOCK_TIME_NONE, counts)[0] == 0
    ensures forall i :: 0 <= i < |counts| ==> Stamps(CLOCK_TIME_NONE, counts)[i] == 1000 * (counts[i] as int - counts[0] as int)
    ensures NonDecreasing(Stamps(CLOCK_TIME_NONE, counts))
  {
    var epoch := BoardTime(counts[0]);
    forall i | 0 <= i < |counts| ensures epoch <= BoardTime(counts[i]) {
      assert counts[0] <= counts[i];
    }
    StampsFromEpoch(epoch, counts);
    assert Stamps(CLOCK_TIME_NONE, counts) == [0] + Stamps(epoch, counts[1..]);
    StampsFromEpoch(epoch, counts[1..]);
    var s := Stamps(CLOCK_TIME_NONE, counts);
    forall i | 0 <= i < |counts| ensures s[i] == 1000 * (counts[i] as int - counts[0] as int) {
      if i > 0 {
        assert s[i] == Stamps(epoch, counts[1..])[i - 1];
        assert counts[1..][i - 1] == counts[i];
      }
    }
  }

  // ---------------------------------------------------------------------
  // Ring slots

  /** Residues of two numbers less than `n` apart differ. */
  lemma ModDistinct(a: nat, b: nat, n: nat)
    requires 0 < n && a < b < a + n
    ensures a % n != b % n
  {
    var q, r := a / n, a % n;
    var d := b - a;
    if r + d < n {
      ModOf(b, q, r + d, n);
    } else {
      ModOf(b, q + 1, r + d - n, n);
    }
  }

  /** Division by `n` leaves a unique remainder. */
  lemma ModOf(x: int, q: int, r: int, n: int)
    requires 0 < n && 0 <= r < n && x == q * n + r
    ensures x % n == r
  {
    var q', r' := x / n, x % n;
    assert x == q' * n + r';
    assert (q - q') * n == r' - r;
    if q' < q {
      MulAtLeast(q - q', n);
    } else if q < q' {
      MulAtLeast(q' - q, n);
    }
  }

  lemma MulAtLeast(d: int, n: int)
    requires 1 <= d && 0 < n
    ensures d * n >= n
  {
  }

  /** The slot FRAME_START writes: the start count before its increment, modulo the ring size. */
  function FrameStartSlot(frameStartCount: u32, n: u32): (k: nat)
    requires 1 <= n
    ensures k < n
    ensures frameStartCount < n ==> k == frameStartCount
  {
    ModBelow(frameStartCount, n);
    frameStartCount % n
  }

  /** A number below the modulus is its own remainder. */
  lemma ModBelow(x: nat, n: nat)
    requires 0 < n
    ensures x < n ==> x % n == x
  {
    if x < n {
      ModOf(x, 0, x, n);
    }
  }

  /**
   * The slot FRAME_END writes, as the source computes it:
   * `(frame_end_count - 1) % num_capture_buffers` on a 32-bit unsigned
   * count, so the first event wraps to `0xFFFFFFFF % N`.
   */
  function FrameEndSlotAsWritten(frameEndCount: u32, n: u32): (k: nat)
    requires 1 <= n
    ensures k < n
    ensures frameEndCount == 0 ==> k == U32_MAX % n
    ensures 1 <= frameEndCount ==> k == (frameEndCount - 1) % n
  {
    SubU32(frameEndCount, 1) % n
  }

  /** The slot FRAME_END evidently should write: the same slot as the frame's FRAME_START. */
  function FrameEndSlot(frameEndCount: u32, n: u32): (k: nat)
    requires 1 <= n
    ensures k < n
    ensures k == FrameStartSlot(frameEndCount, n)
  {
    frameEndCount % n
  }

  /**
   * The slot the drain reads after counting buffer number `processed`
   * (0-based) as taken: `(buffer_processed_count - 1) % N` evaluated on the
   * incremented 32-bit count.
   */
  function DrainSlot(processed: u32, n: u32): (k: nat)
    requires 1 <= n
    ensures k < n
    ensures k == processed % n
  {
    IncThenSubU32(processed);
    SubU32(IncU32(processed), 1) % n
  }

  /**
   * In a ring of at least two slots, the end time of frame k (k >= 1, the
   * k-th FRAME_END) lands one slot away from where its start time was
   * written; for k = 0 it lands in slot `0xFFFFFFFF % N`.
   */
  lemma FrameEndSlotLags(k: u32, n: u32)
    requires 2 <= n && 1 <= k
    ensures FrameEndSlotAsWritten(k, n) != FrameStartSlot(k, n)
    ensures FrameEndSlotAsWritten(k, n) == FrameStartSlot(k - 1, n)
  {
    ModDistinct(k - 1, k, n);
  }

  /** With two slots, the first frame's end time goes to slot 1 while its start time is in slot 0. */
  lemma FirstFrameEndSlotAsWritten()
    ensures FrameStartSlot(0, 2) == 0 && FrameEndSlotAsWritten(0, 2) == 1
    ensures DrainSlot(0, 2) == 0
  {
  }

  /**
   * With the intended end slot, frame k's start and end share a slot, and
   * that is the slot the drain of buffer k reads; frames fewer than N apart,
   * with no 32-bit wrap of the count between them, never share a slot, so a
   * frame's times survive until N more frames have started. Across the wrap
   * this fails unless N divides 2^32 (see `SlotsCollideAtWrap`).
   */
  lemma FrameSlotsAgree(k: u32, j: u32, n: u32)
    requires 1 <= n
    ensures FrameEndSlot(k, n) == FrameStartSlot(k, n) == DrainSlot(k, n)
    ensures j < k < j + n ==> FrameStartSlot(j, n) != FrameStartSlot(k, n)
  {
    if j < k < j + n {
      ModDistinct(j, k, n);
    }
  }

  /**
   * The slot counts wrap with the 32-bit counters: with three slots the frame
   * counted 0xFFFFFFFF and the next one (counted 0) both start in slot 0, the
   * slot the drain of buffer 0xFFFFFFFF reads.
   */
  lemma SlotsCollideAtWrap()
    ensures FrameStartSlot(U32_MAX, 3) == FrameStartSlot(IncU32(U32_MAX), 3) == 0
    ensures DrainSlot(U32_MAX, 3) == 0
  {
  }

  // ---------------------------------------------------------------------
  // Dropped frames

  /** The gap the drain reads: `frame_start_count - buffer_ready_count` as a `guint`. */
  function DropGap(frameStartCount: u32, bufferReadyCount: u32): (g: u32)
    ensures bufferReadyCount <= frameStartCount ==> g == frameStartCount - bufferReadyCount
    ensures (g + bufferReadyCount) % U32_MODULUS == frameStartCount
  {
    SubU32(frameStartCount, bufferReadyCount)
  }

  /**
   * The drop check as the source writes it: `new = gap - prev` as a `guint`
   * and, when `new > 0`, the latch moves to `gap`. Returns (reported, latch).
   */
  function DropUpdateAsWritten(gap: u32, prev: u32): (r: (u32, u32))
    ensures r.1 == gap
    ensures r.0 == 0 <==> gap == prev
  {
    var delta := SubU32(gap, prev);
    if delta > 0 then (delta, gap) else (delta, prev)
  }

  /**
   * The drop check as intended: only growth of the gap is reported, and the
   * latch keeps the largest gap seen. Returns (reported, latch).
   */
  function DropUpdate(gap: u32, prev: u32): (r: (u32, u32))
    ensures r.1 >= prev && r.1 >= gap && (r.1 == prev || r.1 == gap)
    ensures r.0 == r.1 - prev
    ensures r.0 > 0 <==> gap > prev
  {
    if gap > prev then (gap - prev, gap) else (0, prev)
  }

  /** The two agree while the gap does not shrink. */
  lemma DropUpdateAsWrittenAgrees(gap: u32, prev: u32)
    requires prev <= gap
    ensures DropUpdateAsWritten(gap, prev) == DropUpdate(gap, prev)
  {
  }

  /**
   * When the gap shrinks (BUFFER_READY catching up on FRAME_START), the
   * source's unsigned difference wraps: it reports `2^32 - (prev - gap)`
   * dropped frames and moves the latch down to `gap`. With `prev = 1`,
   * `frame_start_count = buffer_ready_count = 3` it reports 4294967295.
   */
  lemma DropUpdateAsWrittenWraps(gap: u32, prev: u32)
    requires gap < prev
    ensures DropUpdateAsWritten(gap, prev) == (U32_MODULUS - (prev - gap), gap)
    ensures DropUpdateAsWritten(DropGap(3, 3), 1) == (U32_MAX, 0)
    ensures DropUpdate(DropGap(3, 3), 1) == (0, 1)
  {
  }

  /** Total reported drops and final latch after draining with the observed gaps in order. */
  function DropRun(prev: u32, gaps: seq<u32>): (nat, u32)
    decreases |gaps|
  {
    if gaps == [] then (0, prev)
    else
      var step := DropUpdate(gaps[0], prev);
      var rest := DropRun(step.1, gaps[1..]);
      (step.0 + rest.0, rest.1)
  }

  /**
   * Over any run of drains the latch is the largest gap seen (or where it
   * started), and the reports add up to exactly how far it moved: no drop
   * is reported twice and none is reported negative.
   */
  lemma {:induction false} DropRunAccounts(prev: u32, gaps: seq<u32>)
    ensures DropRun(prev, gaps).1 >= prev
    ensures DropRun(prev, gaps).0 == DropRun(prev, gaps).1 - prev
    ensures forall i :: 0 <= i < |gaps| ==> gaps[i] <= DropRun(prev, gaps).1
    ensures DropRun(prev, gaps).1 == prev || DropRun(prev, gaps).1 in gaps
    decreases |gaps|
  {
    if gaps != [] {
      var step := DropUpdate(gaps[0], prev);
      DropRunAccounts(step.1, gaps[1..]);
      var latch := DropRun(prev, gaps).1;
      assert latch == DropRun(step.1, gaps[1..]).1;
      forall i | 0 <= i < |gaps| ensures gaps[i] <= latch {
        if i > 0 {
          assert gaps[1..][i - 1] == gaps[i];
        }
      }
      if latch != step.1 {
        assert latch in gaps[1..];
      }
    }
  }

  // ---------------------------------------------------------------------
  // The shared state and its two steps

  /** What one drain yields: one of the four failures, or a frame. */
  datatype DrainResult =
    | FifoOverflowFailure
    | TimeoutFailure
    | NoBufferFailure
    | SnapFailure
    | Frame(timestamp: u64, duration: u64, offset: u32, newDrops: u32)

  class SharedState {
    var numCaptureBuffers: u32
    var frameStartTimes: array<u64>
    var frameEndTimes: array<u64>
    var firstPixciTs: u64
    var bufferReady: bool
    var timeoutOccurred: bool
    var fifoOverflowOccurred: bool
    var frameStartCount: u32
    var frameEndCount: u32
    var bufferReadyCount: u32
    var bufferProcessedCount: u32
    var droppedFrameCount: u32
    /** Unbounded counts of BUFFER_READY events and of drained buffers; the 32-bit counters are their low bits. */
    ghost var readyTotal: nat
    ghost var processedTotal: nat

    /**
     * Two separate rings of the configured size, and the drain never gets
     * ahead of the board: no more buffers drained than announced, and a
     * pending ready flag means at least one announced buffer is undrained.
     */
    ghost predicate Valid()
      reads this
    {
      && 1 <= numCaptureBuffers
      && frameStartTimes.Length == numCaptureBuffers
      && frameEndTimes.Length == numCaptureBuffers
      && frameStartTimes != frameEndTimes
      && bufferReadyCount == readyTotal % U32_MODULUS
      && bufferProcessedCount == processedTotal % U32_MODULUS
      && processedTotal <= readyTotal
      && (bufferReady ==> processedTotal < readyTotal)
    }

    /** The drain gets past its three checks. */
    ghost predicate ReadyToDrain()
      reads this
    {
      !fifoOverflowOccurred && !timeoutOccurred && bufferReady
    }

    /** The bookkeeping fields as `init` leaves them, with rings of `n` slots. */
    constructor (n: u32)
      requires 1 <= n
      ensures Valid() && fresh(frameStartTimes) && fresh(frameEndTimes)
      ensures numCaptureBuffers == n && firstPixciTs == CLOCK_TIME_NONE
      ensures !bufferReady && !timeoutOccurred && !fifoOverflowOccurred
      ensures frameStartCount == 0 && frameEndCount == 0 && bufferReadyCount == 0 && bufferProcessedCount == 0
      ensures droppedFrameCount == 0 && readyTotal == 0 && processedTotal == 0
    {
      numCaptureBuffers := n;
      frameStartTimes := new u64[n];
      frameEndTimes := new u64[n];
      firstPixciTs := CLOCK_TIME_NONE;
      bufferReady, timeoutOccurred, fifoOverflowOccurred := false, false, false;
      frameStartCount, frameEndCount, bufferReadyCount, bufferProcessedCount := 0, 0, 0, 0;
      droppedFrameCount := 0;
      readyTotal, processedTotal := 0, 0;
    }

    /** `gst_pixci_get_timestamp`: read the event counter, latch the first reading as epoch, return the time since it. */
    method GetTimestamp(eventCount: u32) returns (ct: u64)
      modifies this`firstPixciTs
      ensures (firstPixciTs, ct) == Normalize(old(firstPixciTs), BoardTime(eventCount))
    {
      var timestamp := BoardTime(eventCount);
      if firstPixciTs == CLOCK_TIME_NONE {
        firstPixciTs := timestamp;
      }
      ct := SubU64(timestamp, firstPixciTs);
    }

    /** FRAME_START: stamp the slot of the frame that opened, then count it. */
    method RecordFrameStart(ct: u64)
      requires Valid()
      modifies this`frameStartCount, frameStartTimes
      ensures Valid()
      ensures frameStartTimes[..] == old(frameStartTimes[..])[FrameStartSlot(old(frameStartCount), numCaptureBuffers) := ct]
      ensures frameStartCount == IncU32(old(frameStartCount))
    {
      var n := FrameStartSlot(frameStartCount, numCaptureBuffers);
      frameStartTimes[n] := ct;
      frameStartCount := IncU32(frameStartCount);
    }

    /** FRAME_END: stamp the slot of the frame that closed (the corrected index, the same slot as its start), then count it. */
    method RecordFrameEnd(ct: u64)
      requires Valid()
      modifies this`frameEndCount, frameEndTimes
      ensures Valid()
      ensures frameEndTimes[..] == old(frameEndTimes[..])[FrameEndSlot(old(frameEndCount), numCaptureBuffers) := ct]
      ensures frameEndCount == IncU32(old(frameEndCount))
    {
      var n := FrameEndSlot(frameEndCount, numCaptureBuffers);
      frameEndTimes[n] := ct;
      frameEndCount := IncU32(frameEndCount);
    }

    /** The frame-edge half of the callback: FRAME_START and FRAME_END, each on its own, both stamped `ct`. */
    method RecordFrameEdges(mask: set<Event>, ct: u64)
      requires Valid()
      modifies this`frameStartCount, this`frameEndCount, frameStartTimes, frameEndTimes
      ensures Valid()
      ensures frameStartTimes[..] ==
                if FrameStart in mask
                then old(frameStartTimes[..])[FrameStartSlot(old(frameStartCount), numCaptureBuffers) := ct]
                else old(frameStartTimes[..])
      ensures frameEndTimes[..] ==
                if FrameEnd in mask
                then old(frameEndTimes[..])[FrameEndSlot(old(frameEndCount), numCaptureBuffers) := ct]
                else old(frameEndTimes[..])
      ensures frameStartCount == if FrameStart in mask then IncU32(old(frameStartCount)) else old(frameStartCount)
      ensures frameEndCount == if FrameEnd in mask then IncU32(old(frameEndCount)) else old(frameEndCount)
    {
      if FrameStart in mask {
        RecordFrameStart(ct);
      }
      if FrameEnd in mask {
        RecordFrameEnd(ct);
      }
    }

    /** The wake-up half of the callback: BUFFER_READY counts and flags, TIMEOUT and FIFO_OVERFLOW only flag. */
    method RecordWakeEvents(mask: set<Event>) returns (signal: bool)
      requires Valid()
      modifies this`bufferReady, this`bufferReadyCount, this`readyTotal, this`timeoutOccurred, this`fifoOverflowOccurred
      ensures Valid()
      ensures bufferReadyCount == if BufferReady in mask then IncU32(old(bufferReadyCount)) else old(bufferReadyCount)
      ensures readyTotal == if BufferReady in mask then old(readyTotal) + 1 else old(readyTotal)
      ensures bufferReady == (old(bufferReady) || BufferReady in mask)
      ensures timeoutOccurred == (old(timeoutOccurred) || Timeout in mask)
      ensures fifoOverflowOccurred == (old(fifoOverflowOccurred) || FifoOverflow in mask)
      ensures signal <==> Wakes(mask)
    {
      signal := false;
      if BufferReady in mask {
        bufferReady := true;
        IncLowBits(bufferReadyCount, readyTotal);
        bufferReadyCount := IncU32(bufferReadyCount);
        readyTotal := readyTotal + 1;
        signal := true;
      }
      if Timeout in mask {
        timeoutOccurred := true;
        signal := true;
      }
      if FifoOverflow in mask {
        fifoOverflowOccurred := true;
        signal := true;
      }
    }

    /**
     * The event callback. The timestamp is taken first, on every
     * invocation; then each event in `mask` is handled on its own, and the
     * result says whether the waiting `create` is signalled.
     */
    method OnEvents(mask: set<Event>, eventCount: u32) returns (signal: bool)
      requires Valid()
      modifies this, frameStartTimes, frameEndTimes
      ensures Valid()
      ensures numCaptureBuffers == old(numCaptureBuffers)
      ensures frameStartTimes == old(frameStartTimes) && frameEndTimes == old(frameEndTimes)
      ensures firstPixciTs == Normalize(old(firstPixciTs), BoardTime(eventCount)).0
      ensures frameStartTimes[..] ==
                if FrameStart in mask
                then old(frameStartTimes[..])[FrameStartSlot(old(frameStartCount), numCaptureBuffers) :=
                                                Normalize(old(firstPixciTs), BoardTime(eventCount)).1]
                else old(frameStartTimes[..])
      ensures frameEndTimes[..] ==
                if FrameEnd in mask
                then old(frameEndTimes[..])[FrameEndSlot(old(frameEndCount), numCaptureBuffers) :=
                                              Normalize(old(firstPixciTs), BoardTime(eventCount)).1]
                else old(frameEndTimes[..])
      ensures frameStartCount == if FrameStart in mask then IncU32(old(frameStartCount)) else old(frameStartCount)
      ensures frameEndCount == if FrameEnd in mask then IncU32(old(frameEndCount)) else old(frameEndCount)
      ensures bufferReadyCount == if BufferReady in mask then IncU32(old(bufferReadyCount)) else old(bufferReadyCount)
      ensures readyTotal == if BufferReady in mask then old(readyTotal) + 1 else old(readyTotal)
      ensures bufferReady == (old(bufferReady) || BufferReady in mask)
      ensures timeoutOccurred == (old(timeoutOccurred) || Timeout in mask)
      ensures fifoOverflowOccurred == (old(fifoOverflowOccurred) || FifoOverflow in mask)
      ensures bufferProcessedCount == old(bufferProcessedCount) && processedTotal == old(processedTotal)
      ensures droppedFrameCount == old(droppedFrameCount)
      ensures signal <==> Wakes(mask)
    {
      var ct := GetTimestamp(eventCount);
      RecordFrameEdges(mask, ct);
      signal := RecordWakeEvents(mask);
    }

    /**
     * The drain in `create`, after the wake-up. A FIFO overflow, then a
     * timeout, then a missing ready flag each fail without clearing
     * anything. Otherwise the ready flag is cleared and the gap read; a
     * failed `pxd_doSnap` (`snapResult` non-zero) ends there. A successful
     * one counts the buffer as taken, updates the dropped-frame latch and
     * yields the frame stamped from the ring slot of that buffer, with
     * duration `end - start` as a 64-bit clock value and offset the
     * buffer's 0-based number.
     */
    method Drain(snapResult: int) returns (r: DrainResult)
      requires Valid()
      modifies this
      ensures Valid()
      ensures numCaptureBuffers == old(numCaptureBuffers)
      ensures frameStartTimes == old(frameStartTimes) && frameEndTimes == old(frameEndTimes)
      ensures firstPixciTs == old(firstPixciTs)
      ensures frameStartCount == old(frameStartCount) && frameEndCount == old(frameEndCount)
      ensures bufferReadyCount == old(bufferReadyCount) && readyTotal == old(readyTotal)
      ensures timeoutOccurred == old(timeoutOccurred) && fifoOverflowOccurred == old(fifoOverflowOccurred)
      ensures old(fifoOverflowOccurred) ==> r == FifoOverflowFailure
      ensures !old(fifoOverflowOccurred) && old(timeoutOccurred) ==> r == TimeoutFailure
      ensures !old(fifoOverflowOccurred) && !old(timeoutOccurred) && !old(bufferReady) ==> r == NoBufferFailure
      ensures !old(ReadyToDrain()) ==>
                && bufferReady == old(bufferReady)
                && bufferProcessedCount == old(bufferProcessedCount) && processedTotal == old(processedTotal)
                && droppedFrameCount == old(droppedFrameCount)
      ensures old(ReadyToDrain()) ==> !bufferReady
      ensures old(ReadyToDrain()) && snapResult != 0 ==>
                && r == SnapFailure
                && bufferProcessedCount == old(bufferProcessedCount) && processedTotal == old(processedTotal)
                && droppedFrameCount == old(droppedFrameCount)
      ensures old(ReadyToDrain()) && snapResult == 0 ==>
                var slot := old(bufferProcessedCount) % numCaptureBuffers;
                var drops := DropUpdate(DropGap(frameStartCount, bufferReadyCount), old(droppedFrameCount));
                && bufferProcessedCount == IncU32(old(bufferProcessedCount))
                && processedTotal == old(processedTotal) + 1
                && droppedFrameCount == drops.1
                && r == Frame(frameStartTimes[slot], SubU64(frameEndTimes[slot], frameStartTimes[slot]),
                              old(bufferProcessedCount), drops.0)
    {
      if fifoOverflowOccurred {
        return FifoOverflowFailure;
      }
      if timeoutOccurred {
        return TimeoutFailure;
      }
      if !bufferReady {
        return NoBufferFailure;
      }
      bufferReady := false;
      var gap := DropGap(frameStartCount, bufferReadyCount);
      if snapResult != 0 {
        return SnapFailure;
      }
      IncLowBits(bufferProcessedCount, processedTotal);
      bufferProcessedCount := IncU32(bufferProcessedCount);
      processedTotal := processedTotal + 1;
      var drops := DropUpdate(gap, droppedFrameCount);
      droppedFrameCount := drops.1;
      IncThenSubU32(old(bufferProcessedCount));
      var offset := SubU32(bufferProcessedCount, 1);
      var n := offset % numCaptureBuffers;
      r := Frame(frameStartTimes[n], SubU64(frameEndTimes[n], frameStartTimes[n]), offset, drops.0);
    }
  }
}
