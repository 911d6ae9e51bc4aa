/**
 The values the capture pipeline handles: frame sizes, points and rectangles
 in pixel coordinates, the measured timestamp caption, and frames.

 Pixel content is opaque. A frame remembers which camera image it came from
 (`capture`), its current size, and the log of edits the pipeline applied to
 it (rotations and timestamp overlays), in the order they were applied.
 */
module Frames {

  /** A frame or output size in pixels. */
  datatype Dims = Dims(width: int, height: int) {
    /** The same size with width and height exchanged. */
    function Swapped(): Dims {
      Dims(height, width)
    }
  }

  /** A pixel position; y grows downwards, as in image coordinates. */
  datatype Point = Point(x: int, y: int)

  /** An axis-aligned rectangle given by two opposite corners. */
  datatype Rect = Rect(left: int, top: int, right: int, bottom: int)

  /**
   The rendered timestamp text together with the size the font engine
   measured for it (`cv2.getTextSize`, which this model does not see).
   */
  datatype Label = Label(text: string, width: int, height: int)

  /** The three rotations OpenCV offers. */
  datatype Rotation = Clockwise90 | Rotate180 | CounterClockwise90 {
    /** The integer value of the matching `cv2.ROTATE_*` constant. */
    function Code(): int {
      match this
      case Clockwise90 => 0
      case Rotate180 => 1
      case CounterClockwise90 => 2
    }
  }

  /** A drawn timestamp: its caption, the text origin (baseline-left) and the filled backing box. */
  datatype Stamp = Stamp(caption: Label, origin: Point, box: Rect)

  /** One in-place edit of a frame. */
  datatype Edit = Rotated(rotation: Rotation) | Stamped(stamp: Stamp)

  /** A frame: which camera image it shows, its size, and what was done to it. */
  datatype Frame = Frame(capture: nat, size: Dims, edits: seq<Edit>)

  /** The result of one `cap.read()`: a frame, or a failed read. */
  datatype ReadResult = Ok(frame: Frame) | Fail
}
