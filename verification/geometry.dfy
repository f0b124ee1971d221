/**
  Mapping detections from model space to image space.

  Model space is the 192x192 detector input with the origin at its middle;
  image space is the camera frame in pixels, origin at the top-left corner.
  A box goes over in three steps: its centre is shifted by half the input
  size (96) to make it relative to the top-left corner, everything is scaled
  per axis by frame size / 192, and the scaled centre is turned into a
  top-left corner by subtracting half the scaled size. The source then casts
  to i32/u32; here coordinates stay real.
*/
module Geometry {

  /** Side of the square model input. */
  const ModelSize: real := 192.0
  /** Shift from centre-relative to top-left-relative model coordinates. */
  const HalfModel: real := 96.0

  datatype Point = Point(x: real, y: real)

  /** A box in model space: centre offsets from the middle of the input, and size. */
  datatype CentreBox = CentreBox(cx: real, cy: real, w: real, h: real)

  /** A box in image space: top-left corner and size. */
  datatype Rect = Rect(left: real, top: real, width: real, height: real)

  /** Scale factor from model pixels to frame pixels along an axis of `pixels` frame pixels. */
  function ScaleFor(pixels: nat): (s: real)
    ensures s * ModelSize == pixels as real
    ensures 0 < pixels ==> 0.0 < s
  {
    pixels as real / ModelSize
  }

  /** A centre-relative model coordinate, made relative to the top-left corner and scaled to frame pixels. */
  function ToFrame(v: real, scale: real): real
  {
    (v + HalfModel) * scale
  }

  /** Model-space box to image-space rectangle. */
  function ToImage(b: CentreBox, scaleX: real, scaleY: real): (r: Rect)
    ensures Centre(r) == Point(ToFrame(b.cx, scaleX), ToFrame(b.cy, scaleY))
    ensures r.width == b.w * scaleX && r.height == b.h * scaleY
  {
    var (x, y, w, h) := (ToFrame(b.cx, scaleX), ToFrame(b.cy, scaleY), b.w * scaleX, b.h * scaleY);
    Rect(x - w / 2.0, y - h / 2.0, w, h)
  }

  /** Image-space rectangle back to the model-space box it came from. */
  function ToModel(r: Rect, scaleX: real, scaleY: real): CentreBox
    requires scaleX != 0.0 && scaleY != 0.0
  {
    CentreBox((r.left + r.width / 2.0) / scaleX - HalfModel, (r.top + r.height / 2.0) / scaleY - HalfModel,
              r.width / scaleX, r.height / scaleY)
  }

  /** Centre of an image-space rectangle. */
  function Centre(r: Rect): Point
  {
    Point(r.left + r.width / 2.0, r.top + r.height / 2.0)
  }

  /**
    What the mapping means: the rectangle's centre is the box centre, shifted
    by 96 and scaled per axis, its size is the box size scaled per axis, and
    its top-left corner is that centre moved back by half that size.
  */
  lemma ToImageMeaning(b: CentreBox, scaleX: real, scaleY: real)
    ensures Centre(ToImage(b, scaleX, scaleY)) == Point((b.cx + HalfModel) * scaleX, (b.cy + HalfModel) * scaleY)
    ensures Centre(ToImage(b, scaleX, scaleY)) == Point(ToFrame(b.cx, scaleX), ToFrame(b.cy, scaleY))
    ensures ToImage(b, scaleX, scaleY).width == b.w * scaleX
    ensures ToImage(b, scaleX, scaleY).height == b.h * scaleY
    ensures ToImage(b, scaleX, scaleY).left == (b.cx + HalfModel) * scaleX - b.w * scaleX / 2.0
    ensures ToImage(b, scaleX, scaleY).top == (b.cy + HalfModel) * scaleY - b.h * scaleY / 2.0
  {
  }

  /** With non-zero scales nothing is lost: mapping back recovers the model-space box. */
  lemma ModelRoundTrip(b: CentreBox, scaleX: real, scaleY: real)
    requires scaleX != 0.0 && scaleY != 0.0
    ensures ToModel(ToImage(b, scaleX, scaleY), scaleX, scaleY) == b
  {
    var r := ToImage(b, scaleX, scaleY);
    assert r.left + r.width / 2.0 == (b.cx + HalfModel) * scaleX;
    assert r.top + r.height / 2.0 == (b.cy + HalfModel) * scaleY;
    assert (b.cx + HalfModel) * scaleX / scaleX == b.cx + HalfModel;
    assert (b.cy + HalfModel) * scaleY / scaleY == b.cy + HalfModel;
    assert b.w * scaleX / scaleX == b.w;
    assert b.h * scaleY / scaleY == b.h;
  }

  /** And every image-space rectangle is the image of the box `ToModel` gives. */
  lemma ImageRoundTrip(r: Rect, scaleX: real, scaleY: real)
    requires scaleX != 0.0 && scaleY != 0.0
    ensures ToImage(ToModel(r, scaleX, scaleY), scaleX, scaleY) == r
  {
    var b := ToModel(r, scaleX, scaleY);
    assert b.w * scaleX == r.width;
    assert b.h * scaleY == r.height;
    assert (b.cx + HalfModel) * scaleX == r.left + r.width / 2.0;
    assert (b.cy + HalfModel) * scaleY == r.top + r.height / 2.0;
  }

  /**
    A box that lies inside the model input (its edges within +-96 of the
    middle) is mapped into the frame [0, 192 * scaleX] x [0, 192 * scaleY].
  */
  lemma InsideInputMapsInsideFrame(b: CentreBox, scaleX: real, scaleY: real)
    requires 0.0 <= scaleX && 0.0 <= scaleY
    requires 0.0 <= b.w && 0.0 <= b.h
    requires -HalfModel <= b.cx - b.w / 2.0 && b.cx + b.w / 2.0 <= HalfModel
    requires -HalfModel <= b.cy - b.h / 2.0 && b.cy + b.h / 2.0 <= HalfModel
    ensures var r := ToImage(b, scaleX, scaleY);
      0.0 <= r.left && r.left + r.width <= ModelSize * scaleX &&
      0.0 <= r.top && r.top + r.height <= ModelSize * scaleY
  {
    var r := ToImage(b, scaleX, scaleY);
    assert r.left == (b.cx - b.w / 2.0 + HalfModel) * scaleX;
    assert ModelSize * scaleX - (r.left + r.width) == (HalfModel - b.cx - b.w / 2.0) * scaleX;
    assert r.top == (b.cy - b.h / 2.0 + HalfModel) * scaleY;
    assert ModelSize * scaleY - (r.top + r.height) == (HalfModel - b.cy - b.h / 2.0) * scaleY;
  }

  /**
    A landmark in image space: the rectangle's top-left corner plus the
    landmark's offset from the regressed box centre, scaled. Both components
    of the offset are scaled by `scaleX`, as in the source.
  */
  function Landmark(r: Rect, offset: Point, scaleX: real): (p: Point)
    ensures p.x - r.left == offset.x * scaleX
    ensures p.y - r.top == offset.y * scaleX
  {
    Point(r.left + offset.x * scaleX, r.top + offset.y * scaleX)
  }

  /**
    How far a vertical model-space offset `dy` lands from where it should
    when it is scaled by `scaleX` instead of `scaleY`.
  */
  function Drift(dy: real, scaleX: real, scaleY: real): real
  {
    dy * (scaleX - scaleY)
  }

  /**
    Where a landmark lands, for any two scale factors. A landmark regressed
    at `mark` and attached to the box regressed at `centre` (both relative
    to `anchor`) ends up at the frame image of its own position
    `anchor + mark`, moved up and left by half the box's frame size, and
    moved down by its vertical offset from the centre times
    `scaleX - scaleY`, since that offset is scaled horizontally.
  */
  lemma LandmarkPlacement(anchor: Point, centre: Point, size: Point, mark: Point, scaleX: real, scaleY: real)
    ensures var r := ToImage(CentreBox(anchor.x + centre.x, anchor.y + centre.y, size.x, size.y), scaleX, scaleY);
      Landmark(r, Point(mark.x - centre.x, mark.y - centre.y), scaleX) ==
        Point(ToFrame(anchor.x + mark.x, scaleX) - r.width / 2.0,
              ToFrame(anchor.y + mark.y, scaleY) - r.height / 2.0 + Drift(mark.y - centre.y, scaleX, scaleY))
  {
    var offset := Point(mark.x - centre.x, mark.y - centre.y);
    var r := ToImage(CentreBox(anchor.x + centre.x, anchor.y + centre.y, size.x, size.y), scaleX, scaleY);
    var p := Landmark(r, offset, scaleX);
    assert p.x == ToFrame(anchor.x + centre.x, scaleX) - r.width / 2.0 + offset.x * scaleX;
    assert p.y == ToFrame(anchor.y + centre.y, scaleY) - r.height / 2.0 + offset.y * scaleX;
    ToFrameShift(anchor.x + centre.x, offset.x, scaleX);
    assert anchor.x + centre.x + offset.x == anchor.x + mark.x;
    ToFrameShift(anchor.y + centre.y, offset.y, scaleY);
    assert anchor.y + centre.y + offset.y == anchor.y + mark.y;
    DriftSplit(offset.y, scaleX, scaleY);
  }

  /** Moving a model coordinate by `d` moves its frame image by `d * scale`. */
  lemma ToFrameShift(v: real, d: real, scale: real)
    ensures ToFrame(v, scale) + d * scale == ToFrame(v + d, scale)
  {
    calc {
      ToFrame(v, scale) + d * scale;
      (v + HalfModel) * scale + d * scale;
      (v + HalfModel + d) * scale;
      ToFrame(v + d, scale);
    }
  }

  /** An offset scaled by `scaleX` is the offset scaled by `scaleY` plus its drift. */
  lemma DriftSplit(dy: real, scaleX: real, scaleY: real)
    ensures dy * scaleX == dy * scaleY + Drift(dy, scaleX, scaleY)
  {
  }

  /**
    With one scale factor on both axes the vertical drift vanishes: a
    landmark ends up at the frame image of its own position `anchor + mark`,
    moved up and left by half the box's frame size.
  */
  lemma CornerLandmark(anchor: Point, centre: Point, size: Point, mark: Point, scale: real)
    ensures var r := ToImage(CentreBox(anchor.x + centre.x, anchor.y + centre.y, size.x, size.y), scale, scale);
      Landmark(r, Point(mark.x - centre.x, mark.y - centre.y), scale) ==
        Point(ToFrame(anchor.x + mark.x, scale) - r.width / 2.0, ToFrame(anchor.y + mark.y, scale) - r.height / 2.0)
  {
    LandmarkPlacement(anchor, centre, size, mark, scale, scale);
    assert Drift(mark.y - centre.y, scale, scale) == 0.0;
  }
}
