/** The parts of Go's image package the server uses: points, rectangles and decoded images. */
module GoImage {

  datatype Point = Point(x: int, y: int)

  /** image.Rectangle: Min is inclusive, Max exclusive. */
  datatype Rectangle = Rectangle(min: Point, max: Point) {
    function Dx(): int { max.x - min.x }
    function Dy(): int { max.y - min.y }
    predicate WellFormed() { min.x <= max.x && min.y <= max.y }
  }

  /** The zero rectangle. */
  const ZR := Rectangle(Point(0, 0), Point(0, 0))

  /** image.Rect: the rectangle with the given corners, swapped where necessary so that Min <= Max. */
  function Rect(x0: int, y0: int, x1: int, y1: int): (r: Rectangle)
    ensures r.WellFormed()
    ensures {r.min.x, r.max.x} == {x0, x1} && {r.min.y, r.max.y} == {y0, y1}
    ensures r.Dx() >= x1 - x0 && r.Dx() >= x0 - x1
    ensures r.Dy() >= y1 - y0 && r.Dy() >= y0 - y1
  {
    var (lx, hx) := if x0 > x1 then (x1, x0) else (x0, x1);
    var (ly, hy) := if y0 > y1 then (y1, y0) else (y0, y1);
    Rectangle(Point(lx, ly), Point(hx, hy))
  }

  /** Corners already in order are kept as given. */
  lemma RectOrdered(x0: int, y0: int, x1: int, y1: int)
    requires x0 <= x1 && y0 <= y1
    ensures Rect(x0, y0, x1, y1) == Rectangle(Point(x0, y0), Point(x1, y1))
    ensures Rect(x0, y0, x1, y1).Dx() == x1 - x0 && Rect(x0, y0, x1, y1).Dy() == y1 - y0
  {
  }

  /** What image.Decode yields that the model needs: the image's bounds and the format name. */
  datatype DecodedImage = DecodedImage(bounds: Rectangle, format: string)
}
