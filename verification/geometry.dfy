/** The CoreGraphics value types the model needs, over exact reals. */
module Geometry {

  /** `CGPoint` */
  datatype Point = Point(x: real, y: real)

  /** `CGSize` */
  datatype Size = Size(width: real, height: real)

  /** `CGRect(x:y:width:height:)`: an origin and a size. */
  datatype Rect = Rect(x: real, y: real, width: real, height: real)

  /** The centre of a rectangle (`CGRect.midX`, `CGRect.midY`). */
  function Center(r: Rect): Point
  {
    Point(r.x + r.width / 2.0, r.y + r.height / 2.0)
  }

  /** The closed unit square, where Vision's normalized coordinates live. */
  predicate InUnitSquare(p: Point)
  {
    0.0 <= p.x <= 1.0 && 0.0 <= p.y <= 1.0
  }

  /** The closed box `[0, width] x [0, height]` of a view. */
  predicate InBox(p: Point, size: Size)
  {
    0.0 <= p.x <= size.width && 0.0 <= p.y <= size.height
  }
}
