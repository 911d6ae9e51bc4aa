/**
 The placement arithmetic of `burn_timestamp`: where the timestamp text and
 its filled backing rectangle go, given the frame size and the measured text
 size. Drawing itself (`cv2.rectangle`, `cv2.putText`) is recorded as an
 overlay edit on the frame.
 */
module Overlay {
  import opened Frames

  /** Distance of the text from the right edge and of its baseline from the bottom edge. */
  const TextMargin: int := 10
  /** How far the backing rectangle reaches beyond the text on every side. */
  const BoxPadding: int := 5

  /** The bounding box of `caption` drawn with its baseline-left corner at `origin`. */
  function TextBox(origin: Point, caption: Label): Rect {
    Rect(origin.x, origin.y - caption.height, origin.x + caption.width, origin.y)
  }

  /** `r` grown by `pad` pixels on every side. */
  function Grow(r: Rect, pad: int): Rect {
    Rect(r.left - pad, r.top - pad, r.right + pad, r.bottom + pad)
  }

  /** Whether `r` lies inside a frame of size `size`. */
  predicate InsideFrame(r: Rect, size: Dims) {
    0 <= r.left && r.right <= size.width && 0 <= r.top && r.bottom <= size.height
  }

  /**
   Where `burn_timestamp` puts the text and the rectangle on a frame of size
   `size`: the text ends `TextMargin` pixels left of the right edge, its
   baseline is `TextMargin` pixels above the bottom edge, and the rectangle
   is the text box grown by `BoxPadding`.
   */
  function TimestampOverlay(size: Dims, caption: Label): (o: Stamp)
    ensures o.caption == caption
    ensures o.origin.x + caption.width == size.width - TextMargin
    ensures o.origin.y == size.height - TextMargin
    ensures o.box == Grow(TextBox(o.origin, caption), BoxPadding)
    ensures o.box.right == size.width - BoxPadding && o.box.bottom == size.height - BoxPadding
  {
    var textX := size.width - caption.width - 10;
    var textY := size.height - 10;
    var rectX1 := textX - 5;
    var rectY1 := textY - caption.height - 5;
    var rectX2 := textX + caption.width + 5;
    var rectY2 := textY + 5;
    Stamp(caption, Point(textX, textY), Rect(rectX1, rectY1, rectX2, rectY2))
  }

  /**
   `burn_timestamp(frame)`: draws the rectangle and the text onto the frame
   in place. The frame keeps its image and size and gains one overlay edit,
   placed from the frame's current size.
   */
  function BurnTimestamp(f: Frame, caption: Label): (g: Frame)
    ensures g.capture == f.capture && g.size == f.size
    ensures |g.edits| == |f.edits| + 1 && g.edits[..|f.edits|] == f.edits
    ensures g.edits[|f.edits|] == Stamped(TimestampOverlay(f.size, caption))
  {
    Frame(f.capture, f.size, f.edits + [Stamped(TimestampOverlay(f.size, caption))])
  }

  /** The bottom-right corner of the rectangle and the baseline do not depend on the text. */
  lemma CornerIndependentOfText(size: Dims, a: Label, b: Label)
    ensures TimestampOverlay(size, a).box.right == TimestampOverlay(size, b).box.right == size.width - 5
    ensures TimestampOverlay(size, a).box.bottom == TimestampOverlay(size, b).box.bottom == size.height - 5
    ensures TimestampOverlay(size, a).origin.y == TimestampOverlay(size, b).origin.y == size.height - 10
  {
  }

  /**
   The rectangle is 10 pixels wider and taller than the measured text, so it
   is well-ordered (left < right, top < bottom) exactly when both measured
   sizes exceed -10; in particular for every text of positive size.
   */
  lemma BoxWellOrdered(size: Dims, caption: Label)
    ensures var o := TimestampOverlay(size, caption);
      o.box.right - o.box.left == caption.width + 10 && o.box.bottom - o.box.top == caption.height + 10
    ensures var o := TimestampOverlay(size, caption);
      (o.box.left < o.box.right && o.box.top < o.box.bottom) <==> (caption.width > -10 && caption.height > -10)
    ensures caption.width > 0 && caption.height > 0 ==>
      var o := TimestampOverlay(size, caption); o.box.left < o.box.right && o.box.top < o.box.bottom
  {
  }

  /**
   The backing rectangle fits in the frame exactly when the frame is at least
   15 pixels wider and 15 pixels taller than the text.
   */
  lemma BoxInsideFrameIff(size: Dims, caption: Label)
    ensures InsideFrame(TimestampOverlay(size, caption).box, size)
        <==> caption.width + 15 <= size.width && caption.height + 15 <= size.height
  {
  }

  /**
   Stamping an already stamped frame draws the same caption at the same place:
   burning the timestamp does not change the frame size placement depends on.
   */
  lemma RestampSamePlacement(f: Frame, caption: Label)
    ensures var once := BurnTimestamp(f, caption);
      var twice := BurnTimestamp(once, caption);
      twice.size == f.size && twice.edits == f.edits + [once.edits[|f.edits|], once.edits[|f.edits|]]
  {
  }
}
