/**
 The rotation policy `ROTATE` and the two different ways the code tests it.

 `ROTATE` is `None` or one of OpenCV's rotation constants, whose integer
 values are 0 (90 degrees clockwise), 1 (180 degrees) and 2 (90 degrees
 counter-clockwise). Whether a frame is rotated is decided by Python
 truthiness (`if ROTATE:`), while the writer's size is decided by membership
 (`ROTATE in (cv2.ROTATE_90_CLOCKWISE, cv2.ROTATE_90_COUNTERCLOCKWISE)`).
 The two tests disagree on the clockwise constant, whose value 0 is falsy.
 */
module Orientation {
  import opened Frames

  /** The value of `ROTATE`: `None`, or one of the rotation constants. */
  datatype RotateSetting = NoRotation | Rotate(rotation: Rotation)

  /** Python's `bool(ROTATE)`: `None` and the integer 0 are false. */
  predicate IsTruthy(s: RotateSetting) {
    s.Rotate? && s.rotation.Code() != 0
  }

  /** `ROTATE in (cv2.ROTATE_90_CLOCKWISE, cv2.ROTATE_90_COUNTERCLOCKWISE)`, compared by value. */
  predicate SwapsDimensions(s: RotateSetting) {
    s.Rotate? && (s.rotation.Code() == Clockwise90.Code() || s.rotation.Code() == CounterClockwise90.Code())
  }

  /** Which settings make the frames rotate: only 180 and counter-clockwise. */
  lemma TruthySettings(s: RotateSetting)
    ensures IsTruthy(s) <==> s == Rotate(Rotate180) || s == Rotate(CounterClockwise90)
  {
  }

  /** Which settings swap the writer's size: both quarter turns. */
  lemma SwappingSettings(s: RotateSetting)
    ensures SwapsDimensions(s) <==> s == Rotate(Clockwise90) || s == Rotate(CounterClockwise90)
  {
  }

  /** The size of a frame of size `d` after `cv2.rotate` with `r`. */
  function RotatedDims(d: Dims, r: Rotation): (e: Dims)
    ensures r == Rotate180 ==> e == d
    ensures r != Rotate180 ==> e.width == d.height && e.height == d.width
  {
    match r
    case Rotate180 => d
    case Clockwise90 => d.Swapped()
    case CounterClockwise90 => d.Swapped()
  }

  /** `cv2.rotate(frame, r)`: the same image turned, its size mapped, the turn logged. */
  function RotateFrame(f: Frame, r: Rotation): (g: Frame)
    ensures g.capture == f.capture && g.size == RotatedDims(f.size, r)
    ensures g.edits == f.edits + [Rotated(r)]
  {
    Frame(f.capture, RotatedDims(f.size, r), f.edits + [Rotated(r)])
  }

  /**
   The size the video writer is opened with (bot.py lines 145-148): the
   configured resolution, swapped for the two quarter turns.
   */
  function OutputDimensions(resolution: Dims, s: RotateSetting): (d: Dims)
    ensures (s == Rotate(Clockwise90) || s == Rotate(CounterClockwise90)) ==>
      d == Dims(resolution.height, resolution.width)
    ensures (s == NoRotation || s == Rotate(Rotate180)) ==> d == resolution
  {
    if SwapsDimensions(s) then resolution.Swapped() else resolution
  }

  /** Swapping a size twice gives it back. */
  lemma SwapTwice(d: Dims)
    ensures d.Swapped().Swapped() == d
    ensures d.Swapped() == d <==> d.width == d.height
  {
  }

  /**
   Turning a frame twice the same way brings its size back, and a clockwise
   turn followed by a counter-clockwise one does too.
   */
  lemma RotateTwiceRestoresSize(f: Frame, r: Rotation)
    ensures RotateFrame(RotateFrame(f, r), r).size == f.size
    ensures RotateFrame(RotateFrame(f, Clockwise90), CounterClockwise90).size == f.size
  {
    SwapTwice(f.size);
  }

  /**
   The dimension rule agrees with what `cv2.rotate` does to a frame of the
   configured size, for every setting in which a rotation is present.
   */
  lemma OutputDimensionsMatchRotation(resolution: Dims, s: RotateSetting)
    ensures s.NoRotation? ==> OutputDimensions(resolution, s) == resolution
    ensures s.Rotate? ==> OutputDimensions(resolution, s) == RotatedDims(resolution, s.rotation)
  {
  }

  /**
   The frame-rotation guard and the dimension rule agree on "rotate exactly
   when a rotation is set" for every setting except the clockwise quarter
   turn: its constant is 0, so `if ROTATE:` skips it.
   */
  lemma GuardsDisagreeOnlyOnClockwise(s: RotateSetting)
    ensures (IsTruthy(s) <==> s.Rotate?) <==> s != Rotate(Clockwise90)
    ensures IsTruthy(s) != SwapsDimensions(s) <==> s == Rotate(Clockwise90) || s == Rotate(Rotate180)
  {
  }
}
