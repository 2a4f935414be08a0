/** The affine map from the image frame (view coordinates) to the image's own
    coordinates (convertButtonCentersToImagePoints, and the same arithmetic in
    getZoomedImage). */
module PixelMapping {
  import opened Geometry

  /** Normalise a view point against the frame, then scale by the image size. */
  function ToPixel(p: Point, frame: Rect, image: Size): Point
    requires PositiveSize(frame.size)
  {
    var nx := (p.x - frame.origin.x) / frame.size.width;
    var ny := (p.y - frame.origin.y) / frame.size.height;
    Point(nx * image.width, ny * image.height)
  }

  /** The inverse map, from image coordinates back into the frame. */
  function FromPixel(q: Point, frame: Rect, image: Size): Point
    requires PositiveSize(image)
  {
    Point(frame.origin.x + q.x / image.width * frame.size.width,
          frame.origin.y + q.y / image.height * frame.size.height)
  }

  /** The four corner centres in image coordinates, in the order the crop
      consumes them: top-left, top-right, bottom-right, bottom-left. */
  function PixelCorners(q: Quad, frame: Rect, image: Size): (pts: seq<Point>)
    requires PositiveSize(frame.size)
    ensures |pts| == 4
    ensures pts[0] == ToPixel(q.tl, frame, image) && pts[1] == ToPixel(q.tr, frame, image)
    ensures pts[2] == ToPixel(q.br, frame, image) && pts[3] == ToPixel(q.bl, frame, image)
  {
    var inView := [q.tl, q.tr, q.br, q.bl];
    seq(4, i requires 0 <= i < 4 => ToPixel(inView[i], frame, image))
  }

  /** Scaling one coordinate: (v - o) / w * s. */
  function Scale(v: real, o: real, w: real, s: real): real
    requires w > 0.0
  {
    (v - o) / w * s
  }

  lemma ScaleRoundTrip(v: real, o: real, w: real, s: real)
    requires w > 0.0 && s > 0.0
    ensures o + Scale(v, o, w, s) / s * w == v
    ensures Scale(o + v / s * w, o, w, s) == v
  {
    var n := (v - o) / w;
    assert n * w == v - o;
    assert n * s / s == n;
    var m := v / s;
    assert m * s == v;
    assert (o + m * w - o) / w == m;
  }

  lemma ScaleMonotone(u: real, v: real, o: real, w: real, s: real)
    requires w > 0.0 && s > 0.0
    ensures u < v <==> Scale(u, o, w, s) < Scale(v, o, w, s)
    ensures u <= v <==> Scale(u, o, w, s) <= Scale(v, o, w, s)
  {
    var a := (u - o) / w;
    var b := (v - o) / w;
    assert b - a == (v - u) / w;
    assert Scale(v, o, w, s) - Scale(u, o, w, s) == (b - a) * s;
    if u < v {
      assert (v - u) / w > 0.0;
      assert (b - a) * s > 0.0;
    } else {
      assert (u - v) / w >= 0.0;
      assert (a - b) * s >= 0.0;
    }
  }

  /** Mapping to the image and back is the identity, both ways round. */
  lemma PixelRoundTrip(p: Point, frame: Rect, image: Size)
    requires PositiveSize(frame.size) && PositiveSize(image)
    ensures FromPixel(ToPixel(p, frame, image), frame, image) == p
    ensures ToPixel(FromPixel(p, frame, image), frame, image) == p
  {
    ScaleRoundTrip(p.x, frame.origin.x, frame.size.width, image.width);
    ScaleRoundTrip(p.y, frame.origin.y, frame.size.height, image.height);
  }

  /** For a positive image size the map is strictly monotone on each axis, so
      it keeps the x and y order of any two points. */
  lemma ToPixelMonotone(p: Point, q: Point, frame: Rect, image: Size)
    requires PositiveSize(frame.size) && PositiveSize(image)
    ensures p.x < q.x <==> ToPixel(p, frame, image).x < ToPixel(q, frame, image).x
    ensures p.x <= q.x <==> ToPixel(p, frame, image).x <= ToPixel(q, frame, image).x
    ensures p.y < q.y <==> ToPixel(p, frame, image).y < ToPixel(q, frame, image).y
    ensures p.y <= q.y <==> ToPixel(p, frame, image).y <= ToPixel(q, frame, image).y
  {
    ScaleMonotone(p.x, q.x, frame.origin.x, frame.size.width, image.width);
    ScaleMonotone(p.y, q.y, frame.origin.y, frame.size.height, image.height);
  }

  /** The frame's corners go to the image's corners (0,0), (W,0), (W,H), (0,H). */
  lemma FrameCornersToPixel(frame: Rect, image: Size)
    requires PositiveSize(frame.size)
    ensures ToPixel(Point(frame.MinX(), frame.MinY()), frame, image) == Point(0.0, 0.0)
    ensures ToPixel(Point(frame.MaxX(), frame.MinY()), frame, image) == Point(image.width, 0.0)
    ensures ToPixel(Point(frame.MaxX(), frame.MaxY()), frame, image) == Point(image.width, image.height)
    ensures ToPixel(Point(frame.MinX(), frame.MaxY()), frame, image) == Point(0.0, image.height)
  {
    assert (frame.MaxX() - frame.origin.x) / frame.size.width == 1.0;
    assert (frame.MaxY() - frame.origin.y) / frame.size.height == 1.0;
  }

  /** A non-crossing quadrilateral stays non-crossing in image coordinates. */
  lemma PixelCornersKeepOrder(q: Quad, frame: Rect, image: Size)
    requires PositiveSize(frame.size) && PositiveSize(image)
    ensures var pts := PixelCorners(q, frame, image);
      q.Ordered() <==> Quad(pts[0], pts[1], pts[3], pts[2]).Ordered()
  {
    ToPixelMonotone(q.tl, q.tr, frame, image);
    ToPixelMonotone(q.tl, q.br, frame, image);
    ToPixelMonotone(q.bl, q.tr, frame, image);
    ToPixelMonotone(q.bl, q.br, frame, image);
    ToPixelMonotone(q.tl, q.bl, frame, image);
    ToPixelMonotone(q.tr, q.bl, frame, image);
    ToPixelMonotone(q.tr, q.br, frame, image);
  }

  /** A corner inside the frame lands inside the image rectangle, and only then. */
  lemma ToPixelInside(p: Point, frame: Rect, image: Size)
    requires PositiveSize(frame.size) && PositiveSize(image)
    ensures InRect(p, frame) <==> InRect(ToPixel(p, frame, image), Rect(Point(0.0, 0.0), image))
  {
    FrameCornersToPixel(frame, image);
    ToPixelMonotone(Point(frame.MinX(), frame.MinY()), p, frame, image);
    ToPixelMonotone(p, Point(frame.MaxX(), frame.MaxY()), frame, image);
  }
}
