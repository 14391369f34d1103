# pixcisrc — a Dafny model of the EPIX PIXCI video source element

`pixcisrc` is a GStreamer push source that grabs frames from an EPIX PIXCI
frame-grabber through the XCLIB driver library. This project models the part of
`sys/pixci/gstpixcisrc.c` that makes decisions or keeps state, and proves what
that code promises.

- **ctypes.dfy** (`CTypes`): the source's `guint` and `guint64` arithmetic, with
  wrap-around written out. It also defines `GST_CLOCK_TIME_NONE` and an `Option`.
- **formats.dfy** (`PixciFormats`): two pure decisions. The first is the
  `format-name` / `format-file` check made by `start`. The second is the choice of
  GRAY8 or GRAY16 (LE/BE, tagged with `bpp`) made by `get_caps`.
- **element.dfy** (`PixciSrc`): the element as compiled.
  - The class `Element` holds the state record. Its methods model `init`,
    `set_property`, `start`, `stop`, `set_caps` and `create`.
  - `get_caps` is a function that reads the record.
  - The lifecycle is a small state machine (`Step`, `Run`) with lemmas over
    arbitrary runs. Each lifecycle method states its effect as one `Step`.
- **acquisition.dfy** (`AcquisitionDesign`): **inactive design**. In the source
  this exists only as commented-out code. It is the board event callback
  (`phx_callback`), the timestamp normaliser (`gst_pixci_get_timestamp`) and the
  drain in `create`: drop counting plus the timestamp and offset lookup. It is a
  separate sequential transition system (class `SharedState`). Each callback
  invocation and each drain is one atomic step. Its invariant is that the drain
  never takes more buffers than BUFFER_READY has announced. The board's event
  order (each BUFFER_READY after its FRAME_START) is not assumed, so the
  invariant does not include `buffer_ready_count <= frame_start_count`.

XCLIB calls (`pxd_PIXCIopen`, `pxd_doSnap`, `pxd_image*dim`) become parameters
carrying their result code or the values they return. `g_file_test` becomes the
predicate `fileExists`. The board event counter becomes the parameter
`eventCount`. Counters are taken to be 32-bit `guint`, like the locals of
`create`; their declarations are in `gstpixcisrc.h`, which is not part of this
model.

The model follows the code, and its own comments, in these places:

- Each callback handles every event in the mask on its own, with no `else`,
  as the comment at line 341 says.
- The commented drain does not clear the FIFO-overflow or timeout flag when it
  reports one. A later drain reports the same fault again.
- The compiled `create` does no event-driven wait. It latches `acq_started` and
  does one synchronous snap. The wait-and-drain scheme is modelled only as the
  inactive design.

It departs from the code in two places, both in the commented-out design and
both recorded under Findings. Each bug is modelled as written by a standalone
function and lemma. The transition system `SharedState` uses the corrected
definition:

- FRAME_END (line 355) writes slot `(frame_end_count - 1) % N`, although the
  FIXME at line 354 promises it works until frames are dropped.
  `FrameEndSlotAsWritten` models that index. The callback writes
  `frame_end_count % N` (`FrameEndSlot`) instead.
- The drop check (lines 637-644) is meant to report new drops (comment at line
  637), given that the gap is never negative (comment at line 605). On a
  `guint` it reports a wrapped difference whenever the gap shrinks.
  `DropUpdateAsWritten` models that update. The drain uses `DropUpdate`,
  which only reports growth.

## Model

| member | source | states |
|---|---|---|
| PixciFormats.CheckFormatSpec | sys/pixci/gstpixcisrc.c:395-410 | the configuration is accepted iff exactly one of format name and format file is non-empty and a given format file exists; both given, neither given and a missing file each give their own error, the missing file naming the path |
| PixciFormats.SelectPixelFormat | sys/pixci/gstpixcisrc.c:481-505 | a format exists iff there is one component of at most 16 bits; GRAY8 iff at most 8 bits; otherwise GRAY16 in the host byte order with `bpp` equal to the bit depth; every chosen format is one the pad template lists |
| PixciSrc.AcquisitionLatches | sys/pixci/gstpixcisrc.c:220-234 | once acquisition has started, no sequence of property writes, starts, creates and stops clears the latch or changes the number of capture buffers |
| PixciSrc.CreateStartsAcquisition | sys/pixci/gstpixcisrc.c:563-567 | every run containing a `create` ends with acquisition started |
| PixciSrc.RingSizeSettableBeforeAcquisition | sys/pixci/gstpixcisrc.c:225-233 | before any `create`, writing `num-capture-buffers` = n leaves the ring size n and acquisition not started |
| PixciSrc.DroppedFrameCountStaysZero | sys/pixci/gstpixcisrc.c:442-447 | in the compiled element the dropped-frame count, starting at zero, stays zero over any run |
| PixciSrc.Element.constructor | sys/pixci/gstpixcisrc.c:163-197 | `init`: empty strings, 2 capture buffers with both rings of length 2, unit map 1, driver closed, acquisition not started, no first timestamp, all flags false, all counters 0 |
| PixciSrc.Element.SetProperty | sys/pixci/gstpixcisrc.c:199-245 | `num-capture-buffers` while acquiring: warning, count and both rings unchanged; otherwise the count becomes n and both rings are fresh arrays of length n; other properties are stored; nothing else changes |
| PixciSrc.Element.SetNumCaptureBuffers | sys/pixci/gstpixcisrc.c:220-234 | while acquisition runs: a warning, and the ring size and both timestamp rings stay as they were; otherwise the ring size becomes n and both timestamp rings are replaced by fresh arrays of n entries; the lifecycle state advances by the same step |
| PixciSrc.Element.Start | sys/pixci/gstpixcisrc.c:387-433 | a rejected configuration fails with its reason before the driver is opened; a failing open fails with its code; only success marks the driver open |
| PixciSrc.Element.Stop | sys/pixci/gstpixcisrc.c:435-451 | the driver is marked closed and the dropped-frame count reset; the acquisition latch is untouched |
| PixciSrc.Element.GetCaps | sys/pixci/gstpixcisrc.c:453-524 | closed driver: the pad template; open driver: caps of the board's width and height, or none (the error) when the format is unsupported; GRAY8 iff at most 8 bits, otherwise GRAY16 in host byte order with `bpp` equal to the bit depth, exactly the format `SelectPixelFormat` chooses |
| PixciSrc.Element.SetCaps | sys/pixci/gstpixcisrc.c:526-549 | caps of a known format store the stride and height and succeed; unknown formats fail and change nothing |
| PixciSrc.Element.Create | sys/pixci/gstpixcisrc.c:551-657 | acquisition is started after every call, failed snaps included; a failed snap is a flow error, a good one a buffer of `height * gst_stride` bytes |
| AcquisitionDesign.BoardTime | sys/pixci/gstpixcisrc.c:321-322 | the scaled event counter is a multiple of 1000 that gives the counter back and never equals the no-time sentinel |
| AcquisitionDesign.Normalize | sys/pixci/gstpixcisrc.c:324-327 | without an epoch the reading becomes the epoch and the result is 0; with one the epoch stays and the result is the 64-bit distance from it |
| AcquisitionDesign.StampsFromEpoch | sys/pixci/gstpixcisrc.c:324-327 | with an epoch latched, each later reading at or after it maps to exactly its distance from the epoch |
| AcquisitionDesign.StampsStartAtZero | sys/pixci/gstpixcisrc.c:313-328 | from a fresh element, non-decreasing counter readings give stream times that start at 0, never decrease, and equal 1000 times the distance from the first reading |
| AcquisitionDesign.FrameStartSlot | sys/pixci/gstpixcisrc.c:344-350 | FRAME_START writes a slot inside the ring, the count itself while it is below the ring size |
| AcquisitionDesign.FrameEndSlotAsWritten | sys/pixci/gstpixcisrc.c:353-359 | FRAME_END writes a slot inside the ring: `(count - 1) mod N` for a positive count and `0xFFFFFFFF mod N` on the first event |
| AcquisitionDesign.FrameEndSlotLags | sys/pixci/gstpixcisrc.c:355 | with two or more slots, the k-th end time (k >= 1) lands in frame k-1's start slot and never in frame k's |
| AcquisitionDesign.FirstFrameEndSlotAsWritten | sys/pixci/gstpixcisrc.c:355 | with two slots the first frame's start is in slot 0, its end in slot 1, and the drain of buffer 0 reads slot 0 |
| AcquisitionDesign.FrameEndSlot | sys/pixci/gstpixcisrc.c:353-359 | the corrected end slot is always the slot of the same frame's start |
| AcquisitionDesign.DrainSlot | sys/pixci/gstpixcisrc.c:647-648 | the slot the drain reads after taking buffer number p is `p mod N`, the 32-bit wrap of the count included |
| AcquisitionDesign.FrameSlotsAgree | sys/pixci/gstpixcisrc.c:343-359 | with the corrected end slot, frame k's start, its end and the drain of buffer k use one slot; frames fewer than N apart with no 32-bit wrap of the count between them never share a slot |
| AcquisitionDesign.SlotsCollideAtWrap | sys/pixci/gstpixcisrc.c:346 | across the 32-bit wrap of the start count, consecutive frames can share a slot: with N = 3 the counts 0xFFFFFFFF and 0 both use slot 0, the slot the drain of buffer 0xFFFFFFFF reads |
| AcquisitionDesign.DropGap | sys/pixci/gstpixcisrc.c:605-607 | the gap is `frame_start_count - buffer_ready_count` when no wrap occurs, and in every case differs from it only by a multiple of 2^32 |
| AcquisitionDesign.DropUpdateAsWritten | sys/pixci/gstpixcisrc.c:637-644 | as written, the latch always ends at the gap, and the report is zero iff the gap equals the previous latch |
| AcquisitionDesign.DropUpdate | sys/pixci/gstpixcisrc.c:637-644 | corrected: the latch becomes the larger of gap and previous latch, the report is how far it moved, and a drop is reported iff the gap grew |
| AcquisitionDesign.DropUpdateAsWrittenAgrees | sys/pixci/gstpixcisrc.c:637-644 | as written and corrected agree whenever the gap did not shrink |
| AcquisitionDesign.DropUpdateAsWrittenWraps | sys/pixci/gstpixcisrc.c:638-640 | when the gap shrinks, the code as written reports `2^32 - (prev - gap)` drops and lowers the latch; e.g. latch 1 with both counts 3 reports 4294967295 |
| AcquisitionDesign.DropRunAccounts | sys/pixci/gstpixcisrc.c:637-644 | over any run of drains, the latch is the largest gap seen or its start, and the reports add up to exactly how far it moved |
| AcquisitionDesign.SharedState.constructor | sys/pixci/gstpixcisrc.c:176-192 | the bookkeeping as `init` leaves it: rings of the configured size, no first timestamp, flags false, counters 0 |
| AcquisitionDesign.SharedState.GetTimestamp | sys/pixci/gstpixcisrc.c:313-328 | the epoch field and the result follow `Normalize` applied to the scaled counter |
| AcquisitionDesign.SharedState.RecordFrameStart | sys/pixci/gstpixcisrc.c:344-350 | FRAME_START: the start ring changes only in the frame's start slot, which gets the timestamp; then the start count is incremented with 32-bit wrap |
| AcquisitionDesign.SharedState.RecordFrameEnd | sys/pixci/gstpixcisrc.c:353-359 | FRAME_END: the end ring changes only in the closing frame's own slot (the corrected index, the slot of its start), which gets the timestamp; then the end count is incremented with 32-bit wrap |
| AcquisitionDesign.SharedState.RecordFrameEdges | sys/pixci/gstpixcisrc.c:341-359 | FRAME_START and FRAME_END are handled each on its own, the end time going to the corrected slot; an absent event leaves its ring and count unchanged |
| AcquisitionDesign.SharedState.RecordWakeEvents | sys/pixci/gstpixcisrc.c:361-377 | BUFFER_READY sets the ready flag and counts; TIMEOUT and FIFO_OVERFLOW only set their flags; the signal is raised iff at least one of the three was present |
| AcquisitionDesign.SharedState.OnEvents | sys/pixci/gstpixcisrc.c:331-385 | one callback: the timestamp is taken, then every event in the mask is handled on its own, the end time going to the corrected slot; only the computed slots change; processed and dropped counts are untouched; the drain-never-ahead invariant holds |
| AcquisitionDesign.SharedState.Drain | sys/pixci/gstpixcisrc.c:569-654 | overflow, then timeout, then no ready buffer each fail and change nothing; otherwise the ready flag clears; after a good snap the buffer is counted, the dropped-frame count is updated by the corrected `DropUpdate`, and the frame carries slot `p mod N`'s start time, `end - start` as a 64-bit duration, and offset p = buffers taken before |

## Left out

- The XCLIB driver calls (`pxd_PIXCIopen`, `pxd_PIXCIclose`, `pxd_doSnap`, `pxd_readuchar`, `pxd_image*`, `pxd_info*`, `pxd_mesgFaultText`) are foreign code. Their results are parameters, and the diagnostic text and debug logging are not modelled.
- The pixel copy, both `pxd_readuchar` and the commented row-by-row copy, is not modelled. It moves opaque board memory through an unseen library.
- GStreamer plumbing is not modelled: class init, pad template registration, `get_property`, dispose/finalize, plugin registration, buffer allocation and mapping, logging, and `GstVideoInfo` and `GstCaps` construction.
- PixciSrc.Element.GetCaps: does not compute the pixel aspect ratio, which is floating point, and does not intersect with the filter caps.
- AcquisitionDesign.SharedState.RecordFrameEnd: writes the FRAME_END time to the corrected slot `frame_end_count % N`, not to line 355's `(frame_end_count - 1) % N`, which is `0xFFFFFFFF % N` on the first event. The as-written index is `FrameEndSlotAsWritten`, with `FrameEndSlotLags` and `FirstFrameEndSlotAsWritten` (see Findings).
- AcquisitionDesign.SharedState.RecordFrameEdges: its FRAME_END half writes the corrected slot, as `RecordFrameEnd` does, not line 355's slot.
- AcquisitionDesign.SharedState.OnEvents: the end-ring update uses the corrected slot, as `RecordFrameEnd` does, not line 355's slot.
- AcquisitionDesign.SharedState.OnEvents: accepts any event mask in any order. It does not assume the board order that the comment at line 605 relies on, where a frame's FRAME_START comes before its BUFFER_READY. So `buffer_ready_count <= frame_start_count` is neither assumed nor proved. A BUFFER_READY with no FRAME_START before it makes the drop gap `frame_start_count - buffer_ready_count` wrap: from a fresh state, `OnEvents({BufferReady}, …)` then a good `Drain` reports 4294967295 new drops, even with the corrected `DropUpdate`.
- AcquisitionDesign.SharedState.Drain: updates the dropped-frame count with the corrected `DropUpdate`. That update never lowers the count and reports 0 when the gap shrinks. Lines 638-640 would set the count to the gap and report the wrapped `guint` difference, for example 4294967295 for count 1 and both counters at 3. The as-written update is `DropUpdateAsWritten`, with `DropUpdateAsWrittenWraps` (see Findings).
- AcquisitionDesign.FrameSlotsAgree: the distinct-slot clause covers only counts with no 32-bit wrap between them. When N does not divide 2^32, two consecutive frames share a slot at the wrap (`SlotsCollideAtWrap`), so a frame's start time can be overwritten before its drain. That is how the `guint` counters at line 346 behave, and the model keeps it.
- PixciSrc.Element.Create: the buffer size `height * gst_stride` is an unbounded integer. Overflow of the C product is not modelled.
- PixciFormats.CheckFormatSpec: a property set to a NULL string is not modelled. Strings are the C string's characters up to its terminator.
- The mutex and condition variable are not modelled, neither the compiled `g_mutex_init`/`g_cond_init` nor the commented lock, wait and signal. Their point is concurrency. Each callback and each drain is one atomic step.
- A host byte order other than little- or big-endian is not modelled.
- The invalid-property-id branch of `set_property` cannot arise: properties are a datatype here.

## Findings

| source | as written | input that shows it | evidently intended | confidence | as-written member | corrected member |
|---|---|---|---|---|---|---|
| sys/pixci/gstpixcisrc.c:355 | FRAME_END writes slot `(frame_end_count - 1) % N`. That is one slot behind the frame's FRAME_START slot `frame_start_count % N`, and on the first event it wraps to `0xFFFFFFFF % N`. | N = 2, one frame (FRAME_START, then FRAME_END): the start goes to slot 0 and the end to slot 1, while the drain of buffer 0 reads both from slot 0 | `frame_end_count % N`, the same slot as the frame's start | medium, not executed (commented-out code) | AcquisitionDesign.FrameEndSlotLags | AcquisitionDesign.FrameSlotsAgree |
| sys/pixci/gstpixcisrc.c:638-640 | `new_dropped_frames` is a `guint` difference tested with `> 0`, so it is really `!= 0`. When the gap shrinks, the difference wraps. | latch 1, `frame_start_count` = `buffer_ready_count` = 3: reports 4294967295 dropped frames and lowers the latch to 0 | report only growth of the gap and never lower the latch | medium, not executed (commented-out code) | AcquisitionDesign.DropUpdateAsWrittenWraps | AcquisitionDesign.DropRunAccounts |

The transition system uses the corrected definitions. The callback
(`SharedState.RecordFrameEnd`) writes FRAME_END times to `FrameEndSlot`, which
`FrameSlotsAgree` proves to be the slot the drain reads. The drain
(`SharedState.Drain`) uses the corrected drop update, `DropUpdate`.
