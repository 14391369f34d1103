/**
 * The pixcisrc element as it is compiled: its state record, the guarded
 * update of `num-capture-buffers`, the `start` checks, `stop`, caps
 * negotiation and the acquisition latch of `create`. Calls into XCLIB
 * (`pxd_*`) are parameters carrying their result codes or the values they
 * return.
 */
module PixciSrc {
  import opened CTypes
  import opened PixciFormats

  const DEFAULT_NUM_CAPTURE_BUFFERS: u32 := 2
  const MAX_BOARD: int := 7
  const MAX_CHANNEL: int := 2

  /** A value written to one of the element's properties. */
  datatype PropertyValue =
    | FormatName(name: string)
    | FormatFile(path: string)
    | DriverParams(params: string)
    | NumCaptureBuffers(count: int)
    | Board(board: int)
    | Channel(channel: int)

  /** What the registered parameter specs let through to `set_property`. */
  predicate InRange(p: PropertyValue)
  {
    match p
    case NumCaptureBuffers(n) => 1 <= n < U32_MODULUS
    case Board(b) => 0 <= b <= MAX_BOARD
    case Channel(c) => 0 <= c <= MAX_CHANNEL
    case _ => true
  }

  /** The part of the element's state its lifecycle operations act on. */
  datatype Lifecycle = Lifecycle(numCaptureBuffers: nat, acqStarted: bool, pixciOpen: bool, droppedFrameCount: nat)

  datatype LifecycleOp =
    | WriteNumCaptureBuffers(n: nat)
    | StartOk
    | Create
    | Stop

  /** One lifecycle operation; a failed `start` changes nothing and is not an operation here. */
  function Step(s: Lifecycle, op: LifecycleOp): Lifecycle
  {
    match op
    case WriteNumCaptureBuffers(n) => if s.acqStarted then s else s.(numCaptureBuffers := n)
    case StartOk => s.(pixciOpen := true)
    case Create => s.(acqStarted := true)
    case Stop => s.(pixciOpen := false, droppedFrameCount := 0)
  }

  function Run(s: Lifecycle, ops: seq<LifecycleOp>): Lifecycle
    decreases |ops|
  {
    if ops == [] then s else Run(Step(s, ops[0]), ops[1..])
  }

  /** Once acquisition has started it stays started, and the ring size is frozen, whatever follows. */
  lemma {:induction false} AcquisitionLatches(s: Lifecycle, ops: seq<LifecycleOp>)
    requires s.acqStarted
    ensures Run(s, ops).acqStarted
    ensures Run(s, ops).numCaptureBuffers == s.numCaptureBuffers
    decreases |ops|
  {
    if ops != [] {
      AcquisitionLatches(Step(s, ops[0]), ops[1..]);
    }
  }

  /** Any run that contains a `create` ends with acquisition started. */
  lemma {:induction false} CreateStartsAcquisition(s: Lifecycle, ops: seq<LifecycleOp>)
    requires Create in ops
    ensures Run(s, ops).acqStarted
    decreases |ops|
  {
    if ops[0] == Create {
      AcquisitionLatches(Step(s, ops[0]), ops[1..]);
    } else {
      CreateStartsAcquisition(Step(s, ops[0]), ops[1..]);
    }
  }

  /** Before any `create`, the last `num-capture-buffers` written is the ring size. */
  lemma {:induction false} RingSizeSettableBeforeAcquisition(s: Lifecycle, ops: seq<LifecycleOp>, n: nat)
    requires !s.acqStarted && Create !in ops
    ensures !Run(s, ops + [WriteNumCaptureBuffers(n)]).acqStarted
    ensures Run(s, ops + [WriteNumCaptureBuffers(n)]).numCaptureBuffers == n
    decreases |ops|
  {
    if ops == [] {
      assert ops + [WriteNumCaptureBuffers(n)] == [WriteNumCaptureBuffers(n)];
    } else {
      assert (ops + [WriteNumCaptureBuffers(n)])[1..] == ops[1..] + [WriteNumCaptureBuffers(n)];
      RingSizeSettableBeforeAcquisition(Step(s, ops[0]), ops[1..], n);
    }
  }

  /**
   * The compiled element never counts dropped frames: the count starts at
   * zero, only `stop` writes it, and it writes zero.
   */
  lemma {:induction false} DroppedFrameCountStaysZero(s: Lifecycle, ops: seq<LifecycleOp>)
    requires s.droppedFrameCount == 0
    ensures Run(s, ops).droppedFrameCount == 0
    decreases |ops|
  {
    if ops != [] {
      DroppedFrameCountStaysZero(Step(s, ops[0]), ops[1..]);
    }
  }

  /** Why `start` fails. */
  datatype StartError =
    | ConfigRejected(reason: ConfigError)
    | LibraryInitFailed(code: int)

  /** What the board reports through `pxd_imageXdim`, `pxd_imageYdim`, `pxd_imageBdim` and `pxd_imageCdim`. */
  datatype BoardGeometry = BoardGeometry(width: int, height: int, bitsPerComponent: int, components: int)

  /** The caps `get_caps` offers before filtering. */
  datatype Caps =
    | TemplateCaps
    | VideoCaps(format: PixelFormat, width: int, height: int)

  /** What `gst_video_info_from_caps` reads from the caps being set. */
  datatype VideoInfo = VideoInfo(formatKnown: bool, componentStride: int, height: int)

  datatype FlowReturn = FlowOk(bufferSize: int) | FlowError

  class Element {
    var formatName: string
    var formatFile: string
    var driverParams: string
    var numCaptureBuffers: u32
    var board: int
    var channel: int
    var unitmap: int
    var pixciOpen: bool
    var acqStarted: bool
    var firstPixciTs: u64
    var frameStartTimes: array<u64>
    var frameEndTimes: array<u64>
    var bufferReady: bool
    var timeoutOccurred: bool
    var fifoOverflowOccurred: bool
    var bufferReadyCount: u32
    var bufferProcessedCount: u32
    var frameEndCount: u32
    var frameStartCount: u32
    var droppedFrameCount: u32
    var gstStride: int
    var height: int

    /** Both timestamp rings are separate arrays of the configured size. */
    ghost predicate Valid()
      reads this
    {
      && 1 <= numCaptureBuffers
      && frameStartTimes.Length == numCaptureBuffers
      && frameEndTimes.Length == numCaptureBuffers
      && frameStartTimes != frameEndTimes
      && 0 <= board <= MAX_BOARD
      && 0 <= channel <= MAX_CHANNEL
    }

    ghost function State(): Lifecycle
      reads this
    {
      Lifecycle(numCaptureBuffers, acqStarted, pixciOpen, droppedFrameCount)
    }

    /** The acquisition bookkeeping fields that no compiled operation but `init` writes. */
    ghost function Bookkeeping(): (u64, bool, bool, bool, u32, u32, u32, u32)
      reads this
    {
      (firstPixciTs, bufferReady, timeoutOccurred, fifoOverflowOccurred,
       bufferReadyCount, bufferProcessedCount, frameEndCount, frameStartCount)
    }

    /**
     * `init`: empty format strings, two capture buffers with a start-time and
     * an end-time ring of two slots each, cleared flags and counters, no
     * first timestamp. GObject zero-fills the instance, so the fields `init`
     * leaves alone (`acq_started`, `dropped_frame_count`, board, channel,
     * stride, height) start at zero.
     */
    constructor ()
      ensures Valid() && fresh(frameStartTimes) && fresh(frameEndTimes)
      ensures formatName == "" && formatFile == "" && driverParams == ""
      ensures numCaptureBuffers == DEFAULT_NUM_CAPTURE_BUFFERS
      ensures frameStartTimes.Length == 2 && frameEndTimes.Length == 2
      ensures board == 0 && channel == 0 && unitmap == 1
      ensures State() == Lifecycle(2, false, false, 0)
      ensures Bookkeeping() == (CLOCK_TIME_NONE, false, false, false, 0, 0, 0, 0)
      ensures gstStride == 0 && height == 0
    {
      formatName, formatFile, driverParams := "", "", "";
      numCaptureBuffers := DEFAULT_NUM_CAPTURE_BUFFERS;
      board, channel := 0, 0;
      unitmap := 1;
      pixciOpen := false;
      acqStarted := false;
      firstPixciTs := CLOCK_TIME_NONE;
      frameStartTimes := new u64[DEFAULT_NUM_CAPTURE_BUFFERS];
      frameEndTimes := new u64[DEFAULT_NUM_CAPTURE_BUFFERS];
      bufferReady, timeoutOccurred, fifoOverflowOccurred := false, false, false;
      bufferReadyCount, bufferProcessedCount, frameEndCount, frameStartCount := 0, 0, 0, 0;
      droppedFrameCount := 0;
      gstStride, height := 0, 0;
    }

    /**
     * `set_property`. A new `num-capture-buffers` is refused with a warning
     * once acquisition has started; otherwise both timestamp rings are
     * reallocated to the new size. Other properties are stored as given.
     */
    method SetProperty(p: PropertyValue) returns (warning: bool)
      requires Valid() && InRange(p)
      modifies this
      ensures Valid()
      ensures warning <==> p.NumCaptureBuffers? && old(acqStarted)
      ensures State() == if p.NumCaptureBuffers? then Step(old(State()), WriteNumCaptureBuffers(p.count)) else old(State())
      ensures p.NumCaptureBuffers? && !old(acqStarted) ==>
                && fresh(frameStartTimes) && fresh(frameEndTimes)
                && frameStartTimes.Length == p.count && frameEndTimes.Length == p.count
      ensures !(p.NumCaptureBuffers? && !old(acqStarted)) ==>
                frameStartTimes == old(frameStartTimes) && frameEndTimes == old(frameEndTimes)
      ensures formatName == if p.FormatName? then p.name else old(formatName)
      ensures formatFile == if p.FormatFile? then p.path else old(formatFile)
      ensures driverParams == if p.DriverParams? then p.params else old(driverParams)
      ensures board == if p.Board? then p.board else old(board)
      ensures channel == if p.Channel? then p.channel else old(channel)
      ensures Bookkeeping() == old(Bookkeeping())
      ensures unitmap == old(unitmap) && gstStride == old(gstStride) && height == old(height)
    {
      warning := false;
      match p
      case FormatName(name) =>
        formatName := name;
      case FormatFile(path) =>
        formatFile := path;
      case DriverParams(params) =>
        driverParams := params;
      case NumCaptureBuffers(n) =>
        warning := SetNumCaptureBuffers(n);
      case Board(b) =>
        board := b;
      case Channel(c) =>
        channel := c;
    }

    /**
     * The `num-capture-buffers` branch of `set_property`: refused with a
     * warning once acquisition has started, otherwise the count is stored
     * and both timestamp rings are reallocated to it.
     */
    method SetNumCaptureBuffers(n: u32) returns (warning: bool)
      requires Valid() && 1 <= n
      modifies this`numCaptureBuffers, this`frameStartTimes, this`frameEndTimes
      ensures Valid()
      ensures warning == old(acqStarted)
      ensures State() == Step(old(State()), WriteNumCaptureBuffers(n))
      ensures !warning ==> && fresh(frameStartTimes) && fresh(frameEndTimes)
                           && frameStartTimes.Length == n && frameEndTimes.Length == n
      ensures warning ==> frameStartTimes == old(frameStartTimes) && frameEndTimes == old(frameEndTimes)
    {
      if acqStarted {
        warning := true;
      } else {
        warning := false;
        numCaptureBuffers := n;
        frameStartTimes := new u64[n];
        frameEndTimes := new u64[n];
      }
    }

    /**
     * `start`: the format checks, then `pxd_PIXCIopen`, whose result code is
     * `openResult` (non-zero is failure). Only a successful open marks the
     * driver open.
     */
    method Start(fileExists: string -> bool, openResult: int) returns (r: Option<StartError>)
      requires Valid()
      modifies this`pixciOpen
      ensures Valid()
      ensures CheckFormatSpec(formatName, formatFile, fileExists).Some? ==>
                r == Some(ConfigRejected(CheckFormatSpec(formatName, formatFile, fileExists).value))
      ensures CheckFormatSpec(formatName, formatFile, fileExists) == None ==>
                r == if openResult != 0 then Some(LibraryInitFailed(openResult)) else None
      ensures State() == if r == None then Step(old(State()), StartOk) else old(State())
    {
      var check := CheckFormatSpec(formatName, formatFile, fileExists);
      if check.Some? {
        return Some(ConfigRejected(check.value));
      }
      if openResult != 0 {
        return Some(LibraryInitFailed(openResult));
      }
      pixciOpen := true;
      r := None;
    }

    /** `stop`: the driver is closed and the dropped-frame count reset; the acquisition latch stays. */
    method Stop()
      requires Valid()
      modifies this`pixciOpen, this`droppedFrameCount
      ensures Valid()
      ensures State() == Step(old(State()), LifecycleOp.Stop)
      ensures !pixciOpen && droppedFrameCount == 0 && acqStarted == old(acqStarted)
    {
      pixciOpen := false;
      droppedFrameCount := 0;
    }

    /**
     * `get_caps` before filtering: the pad template while the driver is
     * closed; once open, caps of the board's size in the format the
     * component count and bit depth select, or None (the NULL caps of the
     * unsupported-format error).
     */
    function GetCaps(geometry: BoardGeometry, host: ByteOrder): (r: Option<Caps>)
      reads this
      ensures !pixciOpen ==> r == Some(TemplateCaps)
      ensures pixciOpen ==> (r.Some? <==> geometry.components == 1 && geometry.bitsPerComponent <= 16)
      ensures pixciOpen && r.Some? ==>
                && r.value.VideoCaps?
                && r.value.width == geometry.width && r.value.height == geometry.height
                && CapsFormatName(r.value.format) in TEMPLATE_FORMATS
                && (r.value.format == Gray8 <==> geometry.bitsPerComponent <= 8)
                && (8 < geometry.bitsPerComponent ==> r.value.format == Gray16(host, geometry.bitsPerComponent))
      ensures pixciOpen && r.Some? ==>
                SelectPixelFormat(geometry.components, geometry.bitsPerComponent, host) == Some(r.value.format)
    {
      if !pixciOpen then Some(TemplateCaps)
      else
        match SelectPixelFormat(geometry.components, geometry.bitsPerComponent, host)
        case Some(f) => Some(VideoCaps(f, geometry.width, geometry.height))
        case None => None
    }

    /** `set_caps`: a known format stores the first plane's stride and the height; an unknown one is refused. */
    method SetCaps(info: VideoInfo) returns (ok: bool)
      requires Valid()
      modifies this`gstStride, this`height
      ensures Valid()
      ensures ok <==> info.formatKnown
      ensures ok ==> gstStride == info.componentStride && height == info.height
      ensures !ok ==> gstStride == old(gstStride) && height == old(height)
    {
      if info.formatKnown {
        gstStride := info.componentStride;
        height := info.height;
        ok := true;
      } else {
        ok := false;
      }
    }

    /**
     * `create` as compiled: the first call latches `acq_started`; then one
     * `pxd_doSnap`, whose result code is `snapResult`. On success the output
     * buffer holds `height * gst_stride` bytes.
     */
    method Create(snapResult: int) returns (r: FlowReturn)
      requires Valid()
      modifies this`acqStarted
      ensures Valid()
      ensures State() == Step(old(State()), LifecycleOp.Create)
      ensures acqStarted
      ensures r == if snapResult != 0 then FlowError else FlowOk(height * gstStride)
    {
      if !acqStarted {
        acqStarted := true;
      }
      if snapResult != 0 {
        return FlowError;
      }
      r := FlowOk(height * gstStride);
    }
  }
}
