/**
  The plane geometry the card view works in: points, sizes and rectangles over exact reals,
  with the helpers the view adds to them (`offsetBy`, `zoom(by:)`, `leftHalf`, `rightHalf`)
  and the framework's `insetBy`. Rectangles are taken with their origin at the minimum
  corner, as the card's bounds always are.
 */
module Geometry {

  datatype Point = Point(x: real, y: real)

  datatype Size = Size(width: real, height: real)

  datatype Rect = Rect(origin: Point, size: Size)

  function MinX(r: Rect): real { r.origin.x }
  function MaxX(r: Rect): real { r.origin.x + r.size.width }
  function MidX(r: Rect): real { r.origin.x + r.size.width / 2.0 }
  function MinY(r: Rect): real { r.origin.y }
  function MaxY(r: Rect): real { r.origin.y + r.size.height }
  function MidY(r: Rect): real { r.origin.y + r.size.height / 2.0 }

  /** The points of a rectangle, with the minimum edges in and the maximum edges out. */
  predicate Contains(r: Rect, p: Point) {
    MinX(r) <= p.x < MaxX(r) && MinY(r) <= p.y < MaxY(r)
  }

  /** `CGPoint.offsetBy(dx:dy:)`. */
  function OffsetBy(p: Point, dx: real, dy: real): (q: Point)
    ensures q.x - p.x == dx && q.y - p.y == dy
  {
    Point(p.x + dx, p.y + dy)
  }

  /** Offsets compose by adding them, and an offset is undone by its negation. */
  lemma OffsetByComposes(p: Point, dx1: real, dy1: real, dx2: real, dy2: real)
    ensures OffsetBy(OffsetBy(p, dx1, dy1), dx2, dy2) == OffsetBy(p, dx1 + dx2, dy1 + dy2)
    ensures OffsetBy(OffsetBy(p, dx1, dy1), -dx1, -dy1) == p
  {
  }

  /** `CGRect.insetBy(dx:dy:)`: moves every edge inwards, keeping the centre. */
  function InsetBy(r: Rect, dx: real, dy: real): (inset: Rect)
    ensures MidX(inset) == MidX(r) && MidY(inset) == MidY(r)
    ensures MinX(inset) == MinX(r) + dx && MaxX(inset) == MaxX(r) - dx
    ensures MinY(inset) == MinY(r) + dy && MaxY(inset) == MaxY(r) - dy
  {
    Rect(Point(r.origin.x + dx, r.origin.y + dy), Size(r.size.width - 2.0 * dx, r.size.height - 2.0 * dy))
  }

  /** `CGRect.zoom(by:)`: scales both sides by the factor about the rectangle's centre. */
  function Zoom(r: Rect, zoomFactor: real): (zoomed: Rect)
    ensures MidX(zoomed) == MidX(r) && MidY(zoomed) == MidY(r)
    ensures zoomed.size == Size(r.size.width * zoomFactor, r.size.height * zoomFactor)
  {
    var zoomedWidth := r.size.width * zoomFactor;
    var zoomedHeight := r.size.height * zoomFactor;
    var originX := r.origin.x + (r.size.width - zoomedWidth) / 2.0;
    var originY := r.origin.y + (r.size.height - zoomedHeight) / 2.0;
    Rect(Point(originX, originY), Size(zoomedWidth, zoomedHeight))
  }

  /** Zooming by 1 changes nothing, and zooming twice is zooming by the product. */
  lemma ZoomIdentityAndComposition(r: Rect, a: real, b: real)
    ensures Zoom(r, 1.0) == r
    ensures Zoom(Zoom(r, a), b) == Zoom(r, a * b)
  {
    var z := Zoom(Zoom(r, a), b);
    assert z.origin.x == r.origin.x + (r.size.width - r.size.width * a * b) / 2.0;
    assert z.origin.y == r.origin.y + (r.size.height - r.size.height * a * b) / 2.0;
  }

  /** `CGRect.leftHalf`. */
  function LeftHalf(r: Rect): (left: Rect)
    ensures left.size == Size(r.size.width / 2.0, r.size.height)
    ensures MinX(left) == MinX(r) && MinY(left) == MinY(r) && MaxY(left) == MaxY(r)
  {
    var width := r.size.width / 2.0;
    Rect(r.origin, Size(width, r.size.height))
  }

  /** `CGRect.rightHalf`: starts where the left half ends and ends where the rectangle does. */
  function RightHalf(r: Rect): (right: Rect)
    ensures right.size == Size(r.size.width / 2.0, r.size.height)
    ensures MinX(right) == MaxX(LeftHalf(r)) && MaxX(right) == MaxX(r)
    ensures MinY(right) == MinY(r) && MaxY(right) == MaxY(r)
  {
    var width := r.size.width / 2.0;
    Rect(Point(r.origin.x + width, r.origin.y), Size(width, r.size.height))
  }

  /** The two halves tile the rectangle: every point of it is in exactly one half. */
  lemma HalvesTile(r: Rect, p: Point)
    ensures Contains(r, p) <==> Contains(LeftHalf(r), p) || Contains(RightHalf(r), p)
    ensures !(Contains(LeftHalf(r), p) && Contains(RightHalf(r), p))
  {
  }
}
