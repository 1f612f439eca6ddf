/** How the display orientation of a video is recognised and how Vision's
    normalized points are mapped into a view (Models/VideoOrientation.swift). */
module Orientation {
  import opened Geometry

  /** `CGAffineTransform`: the matrix [a b; c d] and the translation (tx, ty). */
  datatype AffineTransform = AffineTransform(a: real, b: real, c: real, d: real, tx: real, ty: real)

  datatype VideoOrientation = Portrait | PortraitUpsideDown | LandscapeLeft | LandscapeRight

  /** `VideoOrientation.from(transform:)`: an exact decision table on the
      linear part of a track's preferred transform; any matrix outside the
      table is read as portrait. */
  function FromTransform(t: AffineTransform): (r: VideoOrientation)
    ensures r == PortraitUpsideDown <==> (t.a, t.b, t.c, t.d) == (0.0, 1.0, -1.0, 0.0)
    ensures r == LandscapeRight <==> (t.a, t.b, t.c, t.d) == (1.0, 0.0, 0.0, 1.0)
    ensures r == LandscapeLeft <==> (t.a, t.b, t.c, t.d) == (-1.0, 0.0, 0.0, -1.0)
    ensures r == Portrait <==>
              (t.a, t.b, t.c, t.d) !in {(0.0, 1.0, -1.0, 0.0), (1.0, 0.0, 0.0, 1.0), (-1.0, 0.0, 0.0, -1.0)}
  {
    if t.a == 0.0 && t.b == 1.0 && t.c == -1.0 && t.d == 0.0 then PortraitUpsideDown
    else if t.a == 0.0 && t.b == -1.0 && t.c == 1.0 && t.d == 0.0 then Portrait
    else if t.a == 1.0 && t.b == 0.0 && t.c == 0.0 && t.d == 1.0 then LandscapeRight
    else if t.a == -1.0 && t.b == 0.0 && t.c == 0.0 && t.d == -1.0 then LandscapeLeft
    else Portrait
  }

  /** The translation part of the transform never influences the result. */
  lemma FromTransformIgnoresTranslation(t: AffineTransform, tx: real, ty: real)
    ensures FromTransform(t.(tx := tx, ty := ty)) == FromTransform(t)
  {
  }

  /** `transformPoint(_:viewSize:)`: one of four affine maps of the unit
      square onto the view, flipping Vision's bottom-left origin to the top.
      Each is a symmetry of the unit square followed by scaling to the view. */
  function TransformPoint(o: VideoOrientation, p: Point, size: Size): (r: Point)
    ensures InUnitSquare(p) && size.width >= 0.0 && size.height >= 0.0 ==> InBox(r, size)
  {
    ScaleInto(Reorient(o, p), size)
  }

  /** The symmetry of the unit square each orientation applies:
      portrait (x, y) to (y, 1 - x), upside down (x, y) to (1 - y, x),
      landscape right (x, y) to (x, 1 - y), landscape left (x, y) to (1 - x, y). */
  function Reorient(o: VideoOrientation, p: Point): (q: Point)
    ensures InUnitSquare(p) ==> InUnitSquare(q)
  {
    match o
    case Portrait => Point(p.y, 1.0 - p.x)
    case PortraitUpsideDown => Point(1.0 - p.y, p.x)
    case LandscapeRight => Point(p.x, 1.0 - p.y)
    case LandscapeLeft => Point(1.0 - p.x, p.y)
  }

  /** Undoes `Reorient`. */
  function Restore(o: VideoOrientation, q: Point): (p: Point)
    ensures Reorient(o, p) == q
    ensures InUnitSquare(q) ==> InUnitSquare(p)
  {
    match o
    case Portrait => Point(1.0 - q.y, q.x)
    case PortraitUpsideDown => Point(q.y, 1.0 - q.x)
    case LandscapeRight => Point(q.x, 1.0 - q.y)
    case LandscapeLeft => Point(1.0 - q.x, q.y)
  }

  /** Scales a point of the unit square by the view's width and height. */
  function ScaleInto(q: Point, size: Size): (r: Point)
    ensures InUnitSquare(q) && size.width >= 0.0 && size.height >= 0.0 ==> InBox(r, size)
  {
    ScaleBounded(q.x, size.width);
    ScaleBounded(q.y, size.height);
    Point(q.x * size.width, q.y * size.height)
  }

  lemma ScaleBounded(u: real, w: real)
    ensures 0.0 <= u <= 1.0 && w >= 0.0 ==> 0.0 <= u * w <= w
  {
    if 0.0 <= u <= 1.0 && w >= 0.0 {
      assert u * w <= 1.0 * w;
    }
  }

  /** Portrait puts Vision's y along the view's width and flips x down the
      height; upside down does the opposite rotation; landscape right only
      flips the origin from bottom to top; landscape left mirrors x instead. */
  lemma TransformFormulas(p: Point, size: Size)
    ensures TransformPoint(Portrait, p, size) == Point(p.y * size.width, (1.0 - p.x) * size.height)
    ensures TransformPoint(PortraitUpsideDown, p, size) == Point((1.0 - p.y) * size.width, p.x * size.height)
    ensures TransformPoint(LandscapeRight, p, size) == Point(p.x * size.width, (1.0 - p.y) * size.height)
    ensures TransformPoint(LandscapeLeft, p, size) == Point((1.0 - p.x) * size.width, p.y * size.height)
  {
  }

  /** Vision's top-left corner (0, 1) lands on the view's top-left origin in
      landscape-right, and its bottom-left origin lands on the view's
      bottom-left corner in both portrait and landscape-right. */
  lemma TransformFlipsOrigin(size: Size)
    ensures TransformPoint(LandscapeRight, Point(0.0, 1.0), size) == Point(0.0, 0.0)
    ensures TransformPoint(LandscapeRight, Point(0.0, 0.0), size) == Point(0.0, size.height)
    ensures TransformPoint(Portrait, Point(0.0, 0.0), size) == Point(0.0, size.height)
    ensures TransformPoint(Portrait, Point(1.0, 1.0), size) == Point(size.width, 0.0)
  {
  }

  /** Maps a view point back to Vision's normalized coordinates: the inverse
      of `TransformPoint` for a view of positive size. */
  function UntransformPoint(o: VideoOrientation, q: Point, size: Size): Point
    requires size.width > 0.0 && size.height > 0.0
  {
    Restore(o, Point(q.x / size.width, q.y / size.height))
  }

  /** Mapping a point into a view of positive size loses nothing. */
  lemma TransformRoundTrip(o: VideoOrientation, p: Point, size: Size)
    requires size.width > 0.0 && size.height > 0.0
    ensures UntransformPoint(o, TransformPoint(o, p, size), size) == p
  {
    var w, h := size.width, size.height;
    var q := Reorient(o, p);
    var scaled := Point(q.x * w, q.y * h);
    assert TransformPoint(o, p, size) == scaled;
    ScaleCancels(q.x, w, scaled.x);
    ScaleCancels(q.y, h, scaled.y);
    assert Point(scaled.x / w, scaled.y / h) == q;
    assert UntransformPoint(o, scaled, size) == Restore(o, q);
    assert Restore(o, q) == p;
  }

  lemma ScaleCancels(u: real, w: real, v: real)
    requires w > 0.0 && v == u * w
    ensures v / w == u
  {
  }

  /** Hence every orientation maps distinct points to distinct view points. */
  lemma TransformInjective(o: VideoOrientation, p: Point, p': Point, size: Size)
    requires size.width > 0.0 && size.height > 0.0
    requires TransformPoint(o, p, size) == TransformPoint(o, p', size)
    ensures p == p'
  {
    TransformRoundTrip(o, p, size);
    TransformRoundTrip(o, p', size);
  }
}
