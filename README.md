# Camera capture core of a Telegram photo/video bot, in Dafny

The bot (`bot.py`) lets allow-listed Telegram users ask for a photo or a
five-second clip from a local camera. This project models the part of it
that is not chat plumbing or OpenCV:

- **Allow-list check** (`Access`): `user_allowed` as a scan of the
  `ALLOWED_USERS_IDS` list.
- **Timestamp overlay placement** (`Overlay`): where `burn_timestamp` puts
  the text and its filled backing rectangle. The inputs are the frame size
  and the text size measured by the font engine.
- **Rotation policy** (`Orientation`): `ROTATE` is `None` or an OpenCV
  rotation constant (clockwise = 0, 180 = 1, counter-clockwise = 2). The
  frames are rotated under `if ROTATE:`, a truthiness test. The writer's
  size comes from `ROTATE in (clockwise, counter-clockwise)`, a membership
  test. The model keeps the two tests apart.
- **The two capture loops** (`Capture`): `capture_image` and
  `record_video` are methods with `while`/`for` loops over an abstract
  device. The device is its `isOpened()` flag plus the finite sequence of
  read results that fall inside the loop's time window. Each method is
  proved equal to a function over the same inputs
  (`CaptureImageSpec`, `RecordVideoSpec`), and lemmas state what the
  source promises about that function.

Frames are values: which camera image they show, their size, and a log of
the edits applied to them (rotations, timestamp overlays). So "rotated,
then stamped, in capture order" can be stated. Each entry point returns a
run record. The record gives the outcome (a boolean, or the Python
exception raised), the number of reads made, the image or video writer
produced (with the frames handed to it), and whether the capture handle
was released.

Behaviour of the code that the model keeps as written:

- The capture handle is released only on the success paths. The two
  "Camera disconnected!" paths return before `cap.release()`.
- `capture_image` uses the result of the last read in its one-second
  window. It does not use the last successful read: a failed final read
  returns false even after earlier good frames.
- If the warm-up window holds no read at all, `ret` is never bound and
  `capture_image` raises `UnboundLocalError`.
- A recording window with no read at all succeeds. The writer is opened
  with rate 0 / duration and gets no frame; there is no disconnect error.
- A duration of 0 makes `n_frames / VIDEO_DURATION` raise
  `ZeroDivisionError`.

## Model

| member | source | states |
|---|---|---|
| `Access.ListContains` | bot.py:62 | the list scan finds `x` exactly when some position of the list holds `x` |
| `Access.UserAllowed` | bot.py:60-62 | a user is allowed exactly when the id is on the allow-list, i.e. is 123456789 or 987654321 |
| `Overlay.TimestampOverlay` | bot.py:67-81 | the text ends 10 px left of the right edge and its baseline is 10 px above the bottom; the rectangle is the text box grown by 5 px on every side, so its bottom-right corner is (width − 5, height − 5) |
| `Overlay.BurnTimestamp` | bot.py:65-87 | stamping keeps the frame's image and size and appends one overlay, placed from the frame's current size |
| `Overlay.CornerIndependentOfText` | bot.py:75-81 | the rectangle's bottom-right corner and the text baseline are the same for any two texts |
| `Overlay.BoxWellOrdered` | bot.py:78-81 | the rectangle is 10 px wider and taller than the text, so it is well-ordered exactly when both text sizes exceed −10, and always for positive text sizes |
| `Overlay.BoxInsideFrameIff` | bot.py:75-84 | the rectangle fits in the frame exactly when the frame is at least 15 px wider and 15 px taller than the text |
| `Overlay.RestampSamePlacement` | bot.py:65-87 | stamping an already stamped frame draws the same overlay at the same place again |
| `Orientation.TruthySettings` | bot.py:105 | `if ROTATE:` holds for 180 and counter-clockwise only, not for `None` and not for clockwise (value 0) |
| `Orientation.SwappingSettings` | bot.py:145 | the membership test holds exactly for the two quarter turns |
| `Orientation.RotatedDims` | bot.py:106 | a quarter turn exchanges width and height; a half turn keeps the size |
| `Orientation.RotateFrame` | bot.py:106 | rotating keeps the image identity, maps the size by the rotation and logs the rotation |
| `Orientation.OutputDimensions` | bot.py:145-148 | the writer size is (height, width) of the resolution for either quarter turn and the resolution itself for no rotation or 180 |
| `Orientation.SwapTwice` | bot.py:146 | swapping a size twice gives it back; a swap changes nothing exactly for square sizes |
| `Orientation.RotateTwiceRestoresSize` | bot.py:155 | the same rotation applied twice, or clockwise then counter-clockwise, restores a frame's size |
| `Orientation.OutputDimensionsMatchRotation` | bot.py:145-155 | for every setting that holds a rotation, the writer size is the size `cv2.rotate` gives a frame of the configured resolution |
| `Orientation.GuardsDisagreeOnlyOnClockwise` | bot.py:145-154 | "rotate exactly when a rotation is set" fails for the frame guard on the clockwise setting and on no other; the two guards differ exactly on clockwise and 180 |
| `Capture.Render` | bot.py:153-158 | a written frame keeps its image, is rotated exactly when `ROTATE` is truthy, and then gets one overlay placed from its rotated size |
| `Capture.CollectFrames` | bot.py:128-140 | the recording loop keeps every frame of the window in read order when all reads succeed; otherwise it stops after the first failed read, and every read before it succeeded |
| `Capture.CaptureImage` | bot.py:90-115 | the warm-up loop that overwrites `ret, frame` on each read yields exactly `CaptureImageSpec`: nothing read when not open, an exception on an empty window, and otherwise a decision on the last read alone |
| `Capture.RecordVideo` | bot.py:118-165 | the buffering loop (with `n_frames == len(frames_buffer)` as its invariant) and the write loop yield exactly `RecordVideoSpec`: the run of `record_video` on every path |
| `Capture.NotOpenedReadsNothing` | bot.py:90-124 | when the device is not opened, both entry points return false, read nothing, write nothing and release nothing |
| `Capture.StillDecidedByLastRead` | bot.py:99-115 | on an open device every read of the window is made; the image is written and the handle released exactly when the last read succeeded, and the image is that frame rotated (if truthy) and stamped |
| `Capture.StillIgnoresEarlierReads` | bot.py:99-104 | two windows ending in the same read give the same outcome, image and release, whatever came before |
| `Capture.StillEmptyWindowRaises` | bot.py:99-104 | an empty warm-up window raises `UnboundLocalError` and writes no image |
| `Capture.VideoSucceedsIff` | bot.py:122-165 | recording returns true exactly when the device opened, the duration is not zero and no read failed; a writer exists and the handle is released exactly then |
| `Capture.VideoZeroDurationRaises` | bot.py:133-142 | with every read successful and a duration of 0, the rate division raises `ZeroDivisionError`; no writer is created and the handle is not released |
| `Capture.VideoAbortsAtFirstFailure` | bot.py:133-140 | the first failed read ends the recording at once: reads stop there, no writer is created, no frame is written, the handle is not released |
| `Capture.VideoOnSuccess` | bot.py:128-165 | on success the frame count equals the reads in the window and the frames written; the rate is (frames, duration); the writer has the post-rotation size; frame k written is read k rotated and stamped, in capture order |
| `Capture.VideoEmptyWindowSucceeds` | bot.py:133-150 | a window with no read still returns true, with rate 0 / duration and no frame written |
| `Capture.SourceConfigWriterSize` | bot.py:145-148 | with the declared 1280×720 resolution the writer is 1280×720 for no rotation or 180 and 720×1280 for either quarter turn |
| `Capture.RecordedFramesFitWriterIff` | bot.py:145-158 | for frames of the configured non-square size, every written frame matches the writer size exactly when `ROTATE` is not the clockwise quarter turn |
| `Capture.ClockwiseVideoMismatch` | bot.py:145-158 | with `ROTATE = cv2.ROTATE_90_CLOCKWISE` the writer is opened 720×1280 while the frame handed to it stays 1280×720 |
| `Capture.ClockwiseImageUnrotated` | bot.py:104-109 | with `ROTATE = cv2.ROTATE_90_CLOCKWISE` the photo written is the 1280×720 frame as read, stamped but not turned |
| `Capture.RenderIntended` | bot.py:154-157 | with the intended guard a frame is rotated whenever a rotation is set, then stamped |
| `Capture.IntendedFramesFitWriter` | bot.py:145-157 | with the intended guard, a frame of the configured size reaches the writer at the writer's size for every setting |

## Findings

| source | as written | input that shows it | evidently intended | confidence | as-written member | corrected member |
|---|---|---|---|---|---|---|
| bot.py:105 and bot.py:154 | `if ROTATE:` is a truthiness test, and `cv2.ROTATE_90_CLOCKWISE` is 0, so the documented clockwise setting never rotates a photo or a video frame. The video writer is still opened with swapped dimensions (bot.py:145-150). | `ROTATE = cv2.ROTATE_90_CLOCKWISE`, resolution 1280×720, camera delivering 1280×720 frames: writer 720×1280, frames 1280×720 | `if ROTATE is not None:` | high; not executed | `Capture.ClockwiseVideoMismatch` (video), `Capture.ClockwiseImageUnrotated` (photo) | `Capture.IntendedFramesFitWriter` |

The entry points `Capture.CaptureImage` and `Capture.RecordVideo` keep the
guard as written, so the model matches the program's behaviour. The
corrected guard is `Capture.RenderIntended`.
`Capture.RecordedFramesFitWriterIff` states, for all inputs, that the
clockwise setting is the only one the as-written guard gets wrong.

## Left out

- Telegram handlers (`start`, `help_command`, `get_video_command`, `get_photo_command`), `main` and the bot `Application`: asynchronous network I/O around the two entry points.
- Logging set-up and log calls: side effects with no behaviour to verify.
- `set_video_capture`: the device index, the requested resolution, MJPG and 30 fps are OpenCV configuration calls. The model sees only whether the device opened. `Config.deviceIndex` is carried but not used.
- Pixel content: `cv2.rotate`, `cv2.rectangle` and `cv2.putText` are modelled by their effect on size and by an edit log. `cv2.getTextSize` becomes the width and height of the caption parameter.
- The video writer is modelled as receiving every frame handed to it. What OpenCV does with a frame whose size differs from the writer's (it drops or mangles it) is not modelled.
- `time.time()`: each time window is the finite sequence of read results made inside it. How many reads fit in a window is not modelled.
- `datetime.now().strftime(...)`: the caption is an opaque parameter. The video's per-frame captions come from a clock function indexed by write number.
- The floating-point value of `fps`: it is kept as the pair (frame count, duration).
- In-place mutation and aliasing of frame buffers: `burn_timestamp` draws onto the array it is given, which can be the buffered frame itself. Frames are values here. The buffer is not read again after the write loop, so no observable behaviour depends on this.
- Exceptions raised inside OpenCV, and Python values of `ROTATE` other than `None` and the three rotation constants.
