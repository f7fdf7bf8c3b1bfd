/** Value types the editor works with: points, segments, rectangles, colours,
    pixmaps, and the painting primitives of the host graphics library. */
module Graphics {

  datatype Option<T> = None | Some(value: T)

  datatype Point = Point(x: int, y: int)

  /** One stroke of a drag: a line from `from` to `to`. */
  datatype Segment = Segment(from: Point, to: Point)

  /** A rectangle given by its top-left corner, width and height.
      The default rectangle has width and height 0. */
  datatype Rect = Rect(x: int, y: int, width: int, height: int) {
    /** A rectangle is empty when it has no pixel: its right edge is left of
        its left edge, or its bottom edge above its top edge. */
    predicate IsEmpty() {
      width <= 0 || height <= 0
    }
  }

  const EmptyRect := Rect(0, 0, 0, 0)

  /** An RGBA colour, each channel in 0..255. */
  datatype Color = Color(red: int, green: int, blue: int, alpha: int)

  const Black := Color(0, 0, 0, 255)
  const LightGray := Color(192, 192, 192, 255)

  /** The canvas background, which Erase and Cut paint with (constants.h). */
  const BkgColor := LightGray

  /** A pen: stroke colour and stroke width. */
  datatype Pen = Pen(color: Color, width: int)

  /** A raster image; pixels[y][x] is the colour at column x of row y. */
  datatype Pixmap = Pixmap(width: nat, height: nat, pixels: seq<seq<Color>>)

  /** The null pixmap, which holds no image. */
  const NullPixmap := Pixmap(0, 0, [])

  /** A `width` by `height` pixmap filled with `c`. */
  function FilledPixmap(width: nat, height: nat, c: Color): (p: Pixmap)
    ensures p.width == width && p.height == height && |p.pixels| == height
    ensures forall y :: 0 <= y < height ==> |p.pixels[y]| == width
    ensures forall y, x :: 0 <= y < height && 0 <= x < width ==> p.pixels[y][x] == c
  {
    Pixmap(width, height, seq(height, _ => seq(width, _ => c)))
  }

  /** The raster effects the commands have on a buffer, taken as given:
      rasterisation itself is outside the model. `drawLine` strokes one
      segment with a pen; `fill`, `cut` and `paste` are the effects of the
      Fill, Cut and Paste commands; `copy` extracts the pixels of an area. */
  datatype Painter = Painter(
    drawLine: (Pixmap, Pen, Segment) -> Pixmap,
    fill: (Pixmap, Color, Point) -> Pixmap,
    cut: (Pixmap, Rect) -> Pixmap,
    paste: (Pixmap, Rect, Pixmap) -> Pixmap,
    copy: (Pixmap, Rect) -> Pixmap
  )
}
