/** Plane geometry shared by the crop editor. Coordinates are exact reals
    standing for CGFloat; the four corner handles form a Quad. */
module Geometry {

  datatype Option<T> = None | Some(value: T)

  datatype Point = Point(x: real, y: real)

  datatype Size = Size(width: real, height: real)

  /** A CGRect. Every rectangle the editor builds has a positive size, so its
      minX/maxX are the origin and origin + width (no standardisation needed). */
  datatype Rect = Rect(origin: Point, size: Size) {
    function MinX(): real { origin.x }
    function MaxX(): real { origin.x + size.width }
    function MinY(): real { origin.y }
    function MaxY(): real { origin.y + size.height }
  }

  predicate PositiveSize(s: Size) {
    s.width > 0.0 && s.height > 0.0
  }

  function Min(a: real, b: real): real { if a <= b then a else b }

  function Max(a: real, b: real): real { if a >= b then a else b }

  function Abs(a: real): real { if a < 0.0 then -a else a }

  function Mid(a: real, b: real): real { (a + b) / 2.0 }

  /** The four corner buttons. */
  datatype Corner = TopLeft | TopRight | BottomLeft | BottomRight

  /** The four side handles; each moves the two corners of its side. */
  datatype Side = Top | Bottom | Left | Right

  /** The centres of the four corner buttons. */
  datatype Quad = Quad(tl: Point, tr: Point, bl: Point, br: Point) {

    function At(c: Corner): Point {
      match c
      case TopLeft => tl
      case TopRight => tr
      case BottomLeft => bl
      case BottomRight => br
    }

    /** Non-crossing: each left corner is left of each right corner and each
        top corner is above each bottom corner. The four same-side pairs are
        the usual quadrilateral invariant; the drag clamps bound every corner
        by both opposite corners, hence the diagonal pairs too. */
    predicate Ordered() {
      && tl.x <= tr.x && tl.x <= br.x && bl.x <= tr.x && bl.x <= br.x
      && tl.y <= bl.y && tl.y <= br.y && tr.y <= bl.y && tr.y <= br.y
    }

    /** Every corner lies in the closed rectangle f. */
    predicate Within(f: Rect) {
      && InRect(tl, f) && InRect(tr, f) && InRect(bl, f) && InRect(br, f)
    }
  }

  predicate InRect(p: Point, f: Rect) {
    f.MinX() <= p.x <= f.MaxX() && f.MinY() <= p.y <= f.MaxY()
  }
}
