/**
 The two capture entry points, `capture_image` and `record_video`.

 The wall-clock window each of them reads for (one second of warm-up, or
 `VIDEO_DURATION` seconds of recording) is replaced by the finite sequence of
 read results that fall inside it. The device is only its `isOpened()` flag and
 that window. The effects the source has on OpenCV objects (releasing the
 capture handle, `cv2.imwrite`, the frames handed to the `cv2.VideoWriter`
 and its release) are returned in a run record, so that every exit path
 states what was and was not done.
 */
module Capture {
  import opened Frames
  import opened Orientation
  import opened Overlay

  datatype Option<T> = None | Some(value: T)

  /** The module-level settings of bot.py, passed in as one value. */
  datatype Config = Config(
    deviceIndex: int,
    resolution: Dims,
    duration: int,
    rotate: RotateSetting,
    imagePath: string,
    videoPath: string)

  /** The settings as bot.py declares them (lines 30-35 and 45). */
  const SourceConfig: Config := Config(0, Dims(1280, 720), 5, NoRotation, "output.jpg", "output.mp4")

  /** A capture device: whether `cap.isOpened()` holds, and the reads that fall inside the loop's time window. */
  datatype Device = Device(isOpen: bool, window: seq<ReadResult>)

  /** The Python exceptions the two entry points can raise. */
  datatype PyError = UnboundLocalError | ZeroDivisionError

  /** How an entry point ends: it returns a boolean or raises. */
  datatype Outcome = Returned(ok: bool) | Raised(error: PyError)

  /** A still image written by `cv2.imwrite`. */
  datatype ImageFile = ImageFile(path: string, frame: Frame)

  /** The frame rate `n_frames / VIDEO_DURATION`, kept as the fraction. */
  datatype FrameRate = FrameRate(frames: int, seconds: int)

  /** A video writer: how it was opened, the frames written to it in order, and whether it was released. */
  datatype VideoFile = VideoFile(
    path: string,
    codec: string,
    rate: FrameRate,
    size: Dims,
    frames: seq<Frame>,
    released: bool)

  /** One call of `capture_image`: its outcome, the reads it made, the image written, whether the handle was released. */
  datatype StillRun = StillRun(outcome: Outcome, readCount: nat, image: Option<ImageFile>, deviceReleased: bool)

  /** One call of `record_video`: its outcome, the reads it made, the video writer created, whether the handle was released. */
  datatype VideoRun = VideoRun(outcome: Outcome, readCount: nat, video: Option<VideoFile>, deviceReleased: bool)

  /** The codec passed to `cv2.VideoWriter_fourcc`. */
  const VideoCodec: string := "mp4v"

  /**
   What happens to one frame before it is written: rotated when `ROTATE` is
   truthy, then stamped at the bottom-right of its rotated size.
   */
  function Render(f: Frame, s: RotateSetting, caption: Label): (g: Frame)
    ensures g.capture == f.capture
    ensures IsTruthy(s) ==> g.size == RotatedDims(f.size, s.rotation)
    ensures !IsTruthy(s) ==> g.size == f.size
    ensures g.edits == f.edits + (if IsTruthy(s) then [Rotated(s.rotation)] else [])
                               + [Stamped(TimestampOverlay(g.size, caption))]
  {
    var turned := if IsTruthy(s) then RotateFrame(f, s.rotation) else f;
    BurnTimestamp(turned, caption)
  }

  /** The buffered frames as they reach the writer; the k-th stamp shows the clock's k-th reading. */
  function RenderAll(frames: seq<Frame>, s: RotateSetting, clock: nat -> Label): seq<Frame> {
    seq(|frames|, k requires 0 <= k < |frames| => Render(frames[k], s, clock(k)))
  }

  /** The recording loop's result: every frame of the window, or the number of reads up to the first failure. */
  datatype Collected = Collected(frames: seq<Frame>) | Disconnected(readCount: nat)

  /**
   The recording loop as a fold over the window: it keeps every frame in
   read order, and stops at the first failed read.
   */
  function CollectFrames(window: seq<ReadResult>): (c: Collected)
    ensures c.Collected? <==> forall i :: 0 <= i < |window| ==> window[i].Ok?
    ensures c.Collected? ==> |c.frames| == |window|
    ensures c.Collected? ==> forall i :: 0 <= i < |window| ==> window[i].Ok? && c.frames[i] == window[i].frame
    ensures c.Disconnected? ==> 1 <= c.readCount <= |window| && window[c.readCount - 1].Fail?
    ensures c.Disconnected? ==> forall i :: 0 <= i < c.readCount - 1 ==> window[i].Ok?
  {
    if window == [] then Collected([])
    else
      match window[0]
      case Fail => Disconnected(1)
      case Ok(f) =>
        var rest := CollectFrames(window[1..]);
        assert forall i :: 1 <= i < |window| ==> window[i] == window[1..][i - 1];
        match rest
        case Collected(frames) => Collected([f] + frames)
        case Disconnected(n) => Disconnected(n + 1)
  }

  /** What `capture_image` does, as a function of the settings, the device and the clock's caption. */
  function CaptureImageSpec(cfg: Config, device: Device, caption: Label): StillRun {
    if !device.isOpen then StillRun(Returned(false), 0, None, false)
    else if device.window == [] then StillRun(Raised(UnboundLocalError), 0, None, false)
    else
      match device.window[|device.window| - 1]
      case Fail => StillRun(Returned(false), |device.window|, None, false)
      case Ok(f) =>
        StillRun(Returned(true), |device.window|, Some(ImageFile(cfg.imagePath, Render(f, cfg.rotate, caption))), true)
  }

  /** What `record_video` does, as a function of the settings, the device and the clock. */
  function RecordVideoSpec(cfg: Config, device: Device, clock: nat -> Label): VideoRun {
    if !device.isOpen then VideoRun(Returned(false), 0, None, false)
    else
      match CollectFrames(device.window)
      case Disconnected(n) => VideoRun(Returned(false), n, None, false)
      case Collected(frames) =>
        if cfg.duration == 0 then VideoRun(Raised(ZeroDivisionError), |frames|, None, false)
        else
          var video := VideoFile(cfg.videoPath, VideoCodec, FrameRate(|frames|, cfg.duration),
                                 OutputDimensions(cfg.resolution, cfg.rotate),
                                 RenderAll(frames, cfg.rotate, clock), true);
          VideoRun(Returned(true), |frames|, Some(video), true)
  }

  /**
   `capture_image`: reads for the warm-up window, overwriting the last read
   result each time, and decides on the last one alone.
   */
  method CaptureImage(cfg: Config, device: Device, caption: Label) returns (run: StillRun)
    ensures run == CaptureImageSpec(cfg, device, caption)
  {
    if !device.isOpen {
      return StillRun(Returned(false), 0, None, false);
    }
    // `ret, frame` of the source; None while the loop has not assigned them
    var last: Option<ReadResult> := None;
    var readsDone := 0;
    while readsDone < |device.window|
      invariant 0 <= readsDone <= |device.window|
      invariant last.None? <==> readsDone == 0
      invariant last.Some? ==> last.value == device.window[readsDone - 1]
    {
      last := Some(device.window[readsDone]);
      readsDone := readsDone + 1;
    }
    if last.None? {
      return StillRun(Raised(UnboundLocalError), 0, None, false);
    }
    match last.value
    case Ok(frame) =>
      var f := frame;
      if IsTruthy(cfg.rotate) {
        f := RotateFrame(f, cfg.rotate.rotation);
      }
      f := BurnTimestamp(f, caption);
      run := StillRun(Returned(true), readsDone, Some(ImageFile(cfg.imagePath, f)), true);
    case Fail =>
      run := StillRun(Returned(false), readsDone, None, false);
  }

  /**
   `record_video`: buffers every frame read in the window, counting them,
   and gives up at the first failed read; then opens the writer with the
   measured rate and the post-rotation size and writes each buffered frame,
   rotated and stamped, in capture order.
   */
  method RecordVideo(cfg: Config, device: Device, clock: nat -> Label) returns (run: VideoRun)
    ensures run == RecordVideoSpec(cfg, device, clock)
  {
    if !device.isOpen {
      return VideoRun(Returned(false), 0, None, false);
    }
    var framesBuffer: seq<Frame> := [];
    var nFrames := 0;
    var readsDone := 0;
    while readsDone < |device.window|
      invariant 0 <= readsDone <= |device.window|
      invariant nFrames == |framesBuffer| == readsDone
      invariant forall j :: 0 <= j < readsDone ==> device.window[j].Ok? && framesBuffer[j] == device.window[j].frame
    {
      match device.window[readsDone]
      case Ok(frame) =>
        framesBuffer := framesBuffer + [frame];
        nFrames := nFrames + 1;
        readsDone := readsDone + 1;
      case Fail =>
        assert CollectFrames(device.window).Disconnected?;
        return VideoRun(Returned(false), readsDone + 1, None, false);
    }
    assert CollectFrames(device.window).frames == framesBuffer;
    if cfg.duration == 0 {
      return VideoRun(Raised(ZeroDivisionError), nFrames, None, false);
    }
    var fps := FrameRate(nFrames, cfg.duration);
    var dimensions := OutputDimensions(cfg.resolution, cfg.rotate);
    var written: seq<Frame> := [];
    for k := 0 to |framesBuffer|
      invariant |written| == k
      invariant forall j :: 0 <= j < k ==> written[j] == Render(framesBuffer[j], cfg.rotate, clock(j))
    {
      var frame := framesBuffer[k];
      if IsTruthy(cfg.rotate) {
        frame := RotateFrame(frame, cfg.rotate.rotation);
      }
      frame := BurnTimestamp(frame, clock(k));
      written := written + [frame];
    }
    assert written == RenderAll(framesBuffer, cfg.rotate, clock);
    var video := VideoFile(cfg.videoPath, VideoCodec, fps, dimensions, written, true);
    run := VideoRun(Returned(true), nFrames, Some(video), true);
  }

  /** Both entry points give up before reading when the device did not open, and release nothing. */
  lemma NotOpenedReadsNothing(cfg: Config, device: Device, caption: Label, clock: nat -> Label)
    requires !device.isOpen
    ensures CaptureImageSpec(cfg, device, caption) == StillRun(Returned(false), 0, None, false)
    ensures RecordVideoSpec(cfg, device, clock) == VideoRun(Returned(false), 0, None, false)
  {
  }

  /**
   `capture_image` on an open device decides on the last read of the window
   alone: it writes the image and releases the handle exactly when that read
   succeeded, whatever the earlier reads were; a failed last read returns
   false and leaves the handle unreleased. Every read of the window is made.
   */
  lemma StillDecidedByLastRead(cfg: Config, device: Device, caption: Label)
    requires device.isOpen && device.window != []
    ensures var run := CaptureImageSpec(cfg, device, caption);
      var last := device.window[|device.window| - 1];
      && run.readCount == |device.window|
      && (run.outcome == Returned(true) <==> last.Ok?)
      && (run.outcome == Returned(false) <==> last.Fail?)
      && (run.image.Some? <==> last.Ok?)
      && (run.deviceReleased <==> last.Ok?)
      && (last.Ok? ==> run.image == Some(ImageFile(cfg.imagePath, Render(last.frame, cfg.rotate, caption))))
  {
  }

  /** Two open devices whose windows end in the same read give the same outcome, image and release. */
  lemma StillIgnoresEarlierReads(cfg: Config, a: Device, b: Device, caption: Label)
    requires a.isOpen && b.isOpen && a.window != [] && b.window != []
    requires a.window[|a.window| - 1] == b.window[|b.window| - 1]
    ensures CaptureImageSpec(cfg, a, caption).outcome == CaptureImageSpec(cfg, b, caption).outcome
    ensures CaptureImageSpec(cfg, a, caption).image == CaptureImageSpec(cfg, b, caption).image
    ensures CaptureImageSpec(cfg, a, caption).deviceReleased == CaptureImageSpec(cfg, b, caption).deviceReleased
  {
  }

  /**
   If the warm-up window holds no read at all, `ret` is never assigned and
   `capture_image` raises instead of returning.
   */
  lemma StillEmptyWindowRaises(cfg: Config, device: Device, caption: Label)
    requires device.isOpen && device.window == []
    ensures CaptureImageSpec(cfg, device, caption).outcome == Raised(UnboundLocalError)
    ensures CaptureImageSpec(cfg, device, caption).image.None?
  {
  }

  /** `record_video` returns true exactly when the device opened, the duration is not zero and no read failed. */
  lemma VideoSucceedsIff(cfg: Config, device: Device, clock: nat -> Label)
    ensures RecordVideoSpec(cfg, device, clock).outcome == Returned(true)
        <==> device.isOpen && cfg.duration != 0 && forall i :: 0 <= i < |device.window| ==> device.window[i].Ok?
    ensures RecordVideoSpec(cfg, device, clock).video.Some? <==> RecordVideoSpec(cfg, device, clock).outcome == Returned(true)
    ensures RecordVideoSpec(cfg, device, clock).deviceReleased <==> RecordVideoSpec(cfg, device, clock).outcome == Returned(true)
  {
  }

  /**
   With every read successful and a duration of 0, computing
   `n_frames / VIDEO_DURATION` raises: no writer is created and the handle is
   not released.
   */
  lemma VideoZeroDurationRaises(cfg: Config, device: Device, clock: nat -> Label)
    requires device.isOpen && cfg.duration == 0
    requires forall i :: 0 <= i < |device.window| ==> device.window[i].Ok?
    ensures RecordVideoSpec(cfg, device, clock) == VideoRun(Raised(ZeroDivisionError), |device.window|, None, false)
  {
  }

  /**
   A failed read aborts the recording on the spot: no later read is made, no
   writer is created (so no frame is written) and the handle is not released.
   */
  lemma VideoAbortsAtFirstFailure(cfg: Config, device: Device, clock: nat -> Label, i: nat)
    requires device.isOpen && i < |device.window| && device.window[i].Fail?
    requires forall j :: 0 <= j < i ==> device.window[j].Ok?
    ensures RecordVideoSpec(cfg, device, clock) == VideoRun(Returned(false), i + 1, None, false)
  {
    assert CollectFrames(device.window).Disconnected?;
  }

  /**
   A successful recording reads the whole window and counts every frame; the
   writer is opened with the rate (frames read) / duration and the
   post-rotation size, receives one frame per buffered frame in capture
   order, each rotated when `ROTATE` is truthy and then stamped with the
   clock's reading at that write, and both the writer and the handle are
   released.
   */
  lemma VideoOnSuccess(cfg: Config, device: Device, clock: nat -> Label)
    requires RecordVideoSpec(cfg, device, clock).outcome == Returned(true)
    ensures var run := RecordVideoSpec(cfg, device, clock);
      && run.video.Some? && run.deviceReleased && run.video.value.released
      && run.readCount == |device.window| == |run.video.value.frames|
      && run.video.value.rate == FrameRate(|device.window|, cfg.duration)
      && run.video.value.size == OutputDimensions(cfg.resolution, cfg.rotate)
      && run.video.value.path == cfg.videoPath && run.video.value.codec == VideoCodec
    ensures var frames := RecordVideoSpec(cfg, device, clock).video.value.frames;
      forall k :: 0 <= k < |frames| ==>
        device.window[k].Ok? && frames[k] == Render(device.window[k].frame, cfg.rotate, clock(k))
        && frames[k].capture == device.window[k].frame.capture
  {
  }

  /**
   As written, a window in which the device delivered nothing still counts
   as a success: the writer is opened with rate 0 / duration and receives no
   frame.
   */
  lemma VideoEmptyWindowSucceeds(cfg: Config, device: Device, clock: nat -> Label)
    requires device.isOpen && device.window == [] && cfg.duration != 0
    ensures var run := RecordVideoSpec(cfg, device, clock);
      run.outcome == Returned(true) && run.video.Some?
      && run.video.value.rate == FrameRate(0, cfg.duration) && run.video.value.frames == []
  {
  }

  /**
   With the settings bot.py declares, the writer is 1280 by 720; with either
   quarter turn set instead it is 720 by 1280.
   */
  lemma SourceConfigWriterSize()
    ensures OutputDimensions(SourceConfig.resolution, SourceConfig.rotate) == Dims(1280, 720)
    ensures OutputDimensions(SourceConfig.resolution, Rotate(Clockwise90)) == Dims(720, 1280)
    ensures OutputDimensions(SourceConfig.resolution, Rotate(CounterClockwise90)) == Dims(720, 1280)
    ensures OutputDimensions(SourceConfig.resolution, Rotate(Rotate180)) == Dims(1280, 720)
  {
  }

  /**
   As written: for a camera that delivers frames of the configured,
   non-square size, every frame reaching the writer has the writer's size
   exactly when `ROTATE` is not the clockwise quarter turn. With that
   setting the writer is opened swapped, but `if ROTATE:` sees the value 0
   and leaves the frames unrotated.
   */
  lemma RecordedFramesFitWriterIff(cfg: Config, device: Device, clock: nat -> Label)
    requires RecordVideoSpec(cfg, device, clock).outcome == Returned(true)
    requires device.window != [] && cfg.resolution.width != cfg.resolution.height
    requires forall i :: 0 <= i < |device.window| ==> device.window[i].Ok? && device.window[i].frame.size == cfg.resolution
    ensures var video := RecordVideoSpec(cfg, device, clock).video.value;
      (forall k :: 0 <= k < |video.frames| ==> video.frames[k].size == video.size)
        <==> cfg.rotate != Rotate(Clockwise90)
  {
    var video := RecordVideoSpec(cfg, device, clock).video.value;
    VideoOnSuccess(cfg, device, clock);
    if cfg.rotate == Rotate(Clockwise90) {
      assert video.frames[0].size == cfg.resolution;
      assert video.size == cfg.resolution.Swapped();
    }
  }

  /** The input that shows it: the declared settings with `ROTATE = cv2.ROTATE_90_CLOCKWISE` and one 1280 by 720 frame. */
  lemma ClockwiseVideoMismatch(caption: Label)
    ensures var cfg := SourceConfig.(rotate := Rotate(Clockwise90));
      var device := Device(true, [Ok(Frame(0, Dims(1280, 720), []))]);
      var video := RecordVideoSpec(cfg, device, _ => caption).video;
      video.Some? && video.value.size == Dims(720, 1280) && video.value.frames[0].size == Dims(1280, 720)
  {
    var cfg := SourceConfig.(rotate := Rotate(Clockwise90));
    var frame := Frame(0, Dims(1280, 720), []);
    var device := Device(true, [Ok(frame)]);
    assert !IsTruthy(cfg.rotate);
    assert CollectFrames(device.window) == Collected([frame]);
    var video := RecordVideoSpec(cfg, device, _ => caption).video.value;
    assert video.frames[0] == Render(frame, cfg.rotate, caption);
  }

  /**
   The same setting leaves the photo unrotated too: the image written is the
   1280 by 720 frame as read, stamped but not turned.
   */
  lemma ClockwiseImageUnrotated(caption: Label)
    ensures var cfg := SourceConfig.(rotate := Rotate(Clockwise90));
      var device := Device(true, [Ok(Frame(0, Dims(1280, 720), []))]);
      var image := CaptureImageSpec(cfg, device, caption).image;
      image.Some? && image.value.frame.size == Dims(1280, 720)
      && image.value.frame.edits == [Stamped(TimestampOverlay(Dims(1280, 720), caption))]
  {
  }

  /**
   What the rotation guard evidently means: rotate whenever a rotation is
   set (`if ROTATE is not None:`), so that the clockwise constant 0 is
   honoured too.
   */
  function RenderIntended(f: Frame, s: RotateSetting, caption: Label): (g: Frame)
    ensures g.capture == f.capture
    ensures s.Rotate? ==> g.size == RotatedDims(f.size, s.rotation)
    ensures s.NoRotation? ==> g.size == f.size
    ensures g.edits == f.edits + (if s.Rotate? then [Rotated(s.rotation)] else [])
                               + [Stamped(TimestampOverlay(g.size, caption))]
  {
    var turned := if s.Rotate? then RotateFrame(f, s.rotation) else f;
    BurnTimestamp(turned, caption)
  }

  /**
   With the intended guard, a frame of the configured size always reaches
   the writer at the writer's size, for every rotation setting.
   */
  lemma IntendedFramesFitWriter(resolution: Dims, f: Frame, s: RotateSetting, caption: Label)
    requires f.size == resolution
    ensures RenderIntended(f, s, caption).size == OutputDimensions(resolution, s)
  {
    OutputDimensionsMatchRotation(resolution, s);
  }
}
