/** The corner and side-handle geometry of the crop quadrilateral: the default
    reset, the clamps applied by a corner drag and by a side drag, and the
    side-handle centres. These are the specifications the editor's methods
    are proved against. */
module Quadrilateral {
  import opened Geometry
  import opened PixelMapping

  /** setupDefaultCropRectangle: the corners sit exactly on the frame's corners. */
  function DefaultQuad(frame: Rect): Quad {
    var inset := 0.0;
    Quad(Point(frame.MinX() + inset, frame.MinY() + inset),
         Point(frame.MaxX() - inset, frame.MinY() + inset),
         Point(frame.MinX() + inset, frame.MaxY() - inset),
         Point(frame.MaxX() - inset, frame.MaxY() - inset))
  }

  predicate IsLeft(c: Corner) { c == TopLeft || c == BottomLeft }

  predicate IsTop(c: Corner) { c == TopLeft || c == TopRight }

  /** The bounds of the corner-drag safe area. The bottom bound is written as
      height + (minY + 1) - 1, which is maxY itself: unlike the other three
      sides it has no 1-point inset. */
  function MinXSafe(frame: Rect): real { frame.origin.x + 1.0 }
  function MaxXSafe(frame: Rect): real { frame.origin.x + frame.size.width - 1.0 }
  function MinYSafe(frame: Rect): real { frame.origin.y + 1.0 }
  function MaxYSafe(frame: Rect): (r: real)
    ensures r == frame.MaxY()
  {
    frame.size.height + MinYSafe(frame) - 1.0
  }

  /** A corner moved by the gesture's translation `t`, clamped first against
      both corners on the opposite side and then to the safe area. */
  function CornerDragged(q: Quad, frame: Rect, c: Corner, t: Point): (r: Quad)
    // only the dragged corner moves
    ensures forall d: Corner :: d != c ==> r.At(d) == q.At(d)
    // the safe-area bound is applied last, so it always holds
    ensures IsLeft(c) ==> r.At(c).x >= frame.MinX() + 1.0
    ensures !IsLeft(c) ==> r.At(c).x <= frame.MaxX() - 1.0
    ensures IsTop(c) ==> r.At(c).y >= frame.MinY() + 1.0
    ensures !IsTop(c) ==> r.At(c).y <= frame.MaxY()
  {
    var leftMaxX := Min(q.tr.x, q.br.x);
    var rightMinX := Max(q.tl.x, q.bl.x);
    var topMaxY := Min(q.br.y, q.bl.y);
    var bottomMinY := Max(q.tr.y, q.tl.y);
    match c
    case TopLeft =>
      q.(tl := Point(Max(MinXSafe(frame), Min(q.tl.x + t.x, leftMaxX)),
                     Max(MinYSafe(frame), Min(q.tl.y + t.y, topMaxY))))
    case TopRight =>
      q.(tr := Point(Min(MaxXSafe(frame), Max(q.tr.x + t.x, rightMinX)),
                     Max(MinYSafe(frame), Min(q.tr.y + t.y, topMaxY))))
    case BottomLeft =>
      q.(bl := Point(Max(MinXSafe(frame), Min(q.bl.x + t.x, leftMaxX)),
                     Min(MaxYSafe(frame), Max(q.bl.y + t.y, bottomMinY))))
    case BottomRight =>
      q.(br := Point(Min(MaxXSafe(frame), Max(q.br.x + t.x, rightMinX)),
                     Min(MaxYSafe(frame), Max(q.br.y + t.y, bottomMinY))))
  }

  /** Where a dragged corner lands on each axis, for any corners: at the
      translated position when that lies between the safe-area edge and the
      opposite-corner bound, on the safe-area edge when the target is beyond
      it, and on the opposite-corner bound when the target is past that bound
      and the bound lies inside the safe area. When the bound lies outside the
      safe area the corner lands on the safe-area edge, whatever the target.
      The four cases cover every input. */
  lemma CornerDragLands(q: Quad, frame: Rect, c: Corner, t: Point)
    ensures var x, lo, hi := q.At(c).x + t.x, MinXSafe(frame), Min(q.tr.x, q.br.x);
      IsLeft(c) ==> var rx := CornerDragged(q, frame, c, t).At(c).x;
        && (lo <= x <= hi ==> rx == x)
        && (x < lo ==> rx == lo)
        && (lo <= hi < x ==> rx == hi)
        && (hi < lo ==> rx == lo)
    ensures var x, lo, hi := q.At(c).x + t.x, Max(q.tl.x, q.bl.x), MaxXSafe(frame);
      !IsLeft(c) ==> var rx := CornerDragged(q, frame, c, t).At(c).x;
        && (lo <= x <= hi ==> rx == x)
        && (x > hi ==> rx == hi)
        && (x < lo <= hi ==> rx == lo)
        && (hi < lo ==> rx == hi)
    ensures var y, lo, hi := q.At(c).y + t.y, MinYSafe(frame), Min(q.bl.y, q.br.y);
      IsTop(c) ==> var ry := CornerDragged(q, frame, c, t).At(c).y;
        && (lo <= y <= hi ==> ry == y)
        && (y < lo ==> ry == lo)
        && (lo <= hi < y ==> ry == hi)
        && (hi < lo ==> ry == lo)
    ensures var y, lo, hi := q.At(c).y + t.y, Max(q.tl.y, q.tr.y), MaxYSafe(frame);
      !IsTop(c) ==> var ry := CornerDragged(q, frame, c, t).At(c).y;
        && (lo <= y <= hi ==> ry == y)
        && (y > hi ==> ry == hi)
        && (y < lo <= hi ==> ry == lo)
        && (hi < lo ==> ry == hi)
  {
  }

  /** On each axis separately, and with no order assumed, a dragged corner
      respects both opposite corners whenever they lie inside its safe-area
      edge: a left corner ends at or left of both right corners when
      min(TR.x, BR.x) >= minX + 1, and so on. */
  lemma CornerDragOppositeBound(q: Quad, frame: Rect, c: Corner, t: Point)
    ensures IsLeft(c) && Min(q.tr.x, q.br.x) >= MinXSafe(frame)
        ==> CornerDragged(q, frame, c, t).At(c).x <= Min(q.tr.x, q.br.x)
    ensures !IsLeft(c) && Max(q.tl.x, q.bl.x) <= MaxXSafe(frame)
        ==> CornerDragged(q, frame, c, t).At(c).x >= Max(q.tl.x, q.bl.x)
    ensures IsTop(c) && Min(q.bl.y, q.br.y) >= MinYSafe(frame)
        ==> CornerDragged(q, frame, c, t).At(c).y <= Min(q.bl.y, q.br.y)
    ensures !IsTop(c) && Max(q.tl.y, q.tr.y) <= MaxYSafe(frame)
        ==> CornerDragged(q, frame, c, t).At(c).y >= Max(q.tl.y, q.tr.y)
  {
  }

  /** The two corners of a side moved along one axis by the translation `t`,
      clamped first to the frame edge and then against both opposite corners.
      The left side is also kept at x >= 0. */
  function SideDragged(q: Quad, frame: Rect, s: Side, t: Point): (r: Quad)
    // only the side's two corners move, and only along the side's axis
    ensures s == Top ==> r.bl == q.bl && r.br == q.br && r.tl.x == q.tl.x && r.tr.x == q.tr.x
    ensures s == Bottom ==> r.tl == q.tl && r.tr == q.tr && r.bl.x == q.bl.x && r.br.x == q.br.x
    ensures s == Left ==> r.tr == q.tr && r.br == q.br && r.tl.y == q.tl.y && r.bl.y == q.bl.y
    ensures s == Right ==> r.tl == q.tl && r.bl == q.bl && r.tr.y == q.tr.y && r.br.y == q.br.y
    // the opposite-corner bound is applied last, so it always holds
    ensures s == Top ==> Max(r.tl.y, r.tr.y) <= Min(q.bl.y, q.br.y)
    ensures s == Bottom ==> Min(r.bl.y, r.br.y) >= Max(q.tl.y, q.tr.y)
    ensures s == Left ==> Max(r.tl.x, r.bl.x) <= Min(q.tr.x, q.br.x)
    ensures s == Right ==> Min(r.tr.x, r.br.x) >= Max(q.tl.x, q.bl.x)
  {
    match s
    case Top =>
      var limit := Min(q.bl.y, q.br.y);
      q.(tl := q.tl.(y := Min(limit, Max(frame.MinY(), q.tl.y + t.y))),
         tr := q.tr.(y := Min(limit, Max(frame.MinY(), q.tr.y + t.y))))
    case Bottom =>
      var limit := Max(q.tl.y, q.tr.y);
      q.(bl := q.bl.(y := Max(limit, Min(frame.MaxY(), q.bl.y + t.y))),
         br := q.br.(y := Max(limit, Min(frame.MaxY(), q.br.y + t.y))))
    case Left =>
      var limit := Min(q.tr.x, q.br.x);
      q.(tl := q.tl.(x := Min(limit, Max(0.0, Max(frame.MinX(), q.tl.x + t.x)))),
         bl := q.bl.(x := Min(limit, Max(0.0, Max(frame.MinX(), q.bl.x + t.x)))))
    case Right =>
      var limit := Max(q.tl.x, q.bl.x);
      q.(tr := q.tr.(x := Max(limit, Min(frame.MaxX(), q.tr.x + t.x))),
         br := q.br.(x := Max(limit, Min(frame.MaxX(), q.br.x + t.x))))
  }

  // ---------------------------------------------------------------------------
  // Side handles

  datatype Handles = Handles(top: Point, bottom: Point, left: Point, right: Point)

  /** updateSideHandles without the rotation angles: each handle's centre is
      built from its two corners with min and abs. */
  function HandleCentres(q: Quad): Handles {
    Handles(
      Point(q.tl.x + Abs((q.tr.x - q.tl.x) / 2.0),
            Min(q.tl.y, q.tr.y) + Abs((q.tl.y - q.tr.y) / 2.0)),
      Point(q.bl.x + Abs((q.br.x - q.bl.x) / 2.0),
            Min(q.bl.y, q.br.y) + Abs((q.bl.y - q.br.y) / 2.0)),
      Point(Min(q.bl.x, q.tl.x) + Abs((q.bl.x - q.tl.x) / 2.0),
            q.tl.y + Abs((q.bl.y - q.tl.y) / 2.0)),
      Point(Min(q.br.x, q.tr.x) + Abs((q.br.x - q.tr.x) / 2.0),
            q.tr.y + Abs((q.br.y - q.tr.y) / 2.0)))
  }

  /** The side midpoints: the reference the handle centres are compared with. */
  function Midpoints(q: Quad): Handles {
    Handles(Point(Mid(q.tl.x, q.tr.x), Mid(q.tl.y, q.tr.y)),
            Point(Mid(q.bl.x, q.br.x), Mid(q.bl.y, q.br.y)),
            Point(Mid(q.tl.x, q.bl.x), Mid(q.tl.y, q.bl.y)),
            Point(Mid(q.tr.x, q.br.x), Mid(q.tr.y, q.br.y)))
  }

  /** The handle positions setupDefaultCropRectangle writes before it calls
      updateSideHandles. */
  function ResetHandles(q: Quad): Handles {
    Handles(Point((q.tl.x + q.tr.x) / 2.0, q.tl.y),
            Point((q.bl.x + q.br.x) / 2.0, q.bl.y),
            Point(q.tl.x, (q.tl.y + q.bl.y) / 2.0),
            Point(q.tr.x, (q.tr.y + q.br.y) / 2.0))
  }

  /** One coordinate of each handle is always the midpoint ... */
  lemma HandleCentresMidAxis(q: Quad)
    ensures HandleCentres(q).top.y == Mid(q.tl.y, q.tr.y)
    ensures HandleCentres(q).bottom.y == Mid(q.bl.y, q.br.y)
    ensures HandleCentres(q).left.x == Mid(q.tl.x, q.bl.x)
    ensures HandleCentres(q).right.x == Mid(q.tr.x, q.br.x)
  {
  }

  /** ... and the other is the midpoint exactly when the side's two corners
      are in order along it; so the handles are the side midpoints exactly
      when the four same-side inequalities of the quadrilateral hold. */
  lemma HandleCentresAreMidpoints(q: Quad)
    ensures HandleCentres(q).top.x == Mid(q.tl.x, q.tr.x) <==> q.tl.x <= q.tr.x
    ensures HandleCentres(q).bottom.x == Mid(q.bl.x, q.br.x) <==> q.bl.x <= q.br.x
    ensures HandleCentres(q).left.y == Mid(q.tl.y, q.bl.y) <==> q.tl.y <= q.bl.y
    ensures HandleCentres(q).right.y == Mid(q.tr.y, q.br.y) <==> q.tr.y <= q.br.y
    ensures HandleCentres(q) == Midpoints(q)
        <==> q.tl.x <= q.tr.x && q.bl.x <= q.br.x && q.tl.y <= q.bl.y && q.tr.y <= q.br.y
  {
    HandleCentresMidAxis(q);
  }

  /** On a reset, the handle positions written first are already the side
      midpoints, so the updateSideHandles call that follows moves nothing. */
  lemma ResetHandlesAgree(frame: Rect)
    requires frame.size.width >= 0.0 && frame.size.height >= 0.0
    ensures ResetHandles(DefaultQuad(frame)) == Midpoints(DefaultQuad(frame))
    ensures HandleCentres(DefaultQuad(frame)) == Midpoints(DefaultQuad(frame))
  {
    HandleCentresAreMidpoints(DefaultQuad(frame));
  }

  // ---------------------------------------------------------------------------
  // The default quadrilateral

  /** The default quadrilateral is non-crossing and lies in the frame. */
  lemma DefaultQuadValid(frame: Rect)
    requires frame.size.width >= 0.0 && frame.size.height >= 0.0
    ensures DefaultQuad(frame).Ordered() && DefaultQuad(frame).Within(frame)
  {
  }

  /** In image coordinates the default quadrilateral is exactly the image
      rectangle (0,0)-(W,0)-(W,H)-(0,H), in crop order. */
  lemma DefaultQuadSpec(frame: Rect, image: Size)
    requires PositiveSize(frame.size)
    ensures PixelCorners(DefaultQuad(frame), frame, image)
         == [Point(0.0, 0.0), Point(image.width, 0.0),
             Point(image.width, image.height), Point(0.0, image.height)]
  {
    FrameCornersToPixel(frame, image);
  }

  // ---------------------------------------------------------------------------
  // Corner drags and the non-crossing invariant

  /** The room a corner drag needs for the opposite-corner bound to survive
      the safe-area clamp: the opposite corners must not lie within 1 point
      of the dragged corner's safe-area edges. */
  predicate Slack(q: Quad, frame: Rect, c: Corner) {
    && (IsLeft(c) ==> Min(q.tr.x, q.br.x) >= MinXSafe(frame))
    && (!IsLeft(c) ==> Max(q.tl.x, q.bl.x) <= MaxXSafe(frame))
    && (IsTop(c) ==> Min(q.bl.y, q.br.y) >= MinYSafe(frame))
    && (!IsTop(c) ==> Max(q.tl.y, q.tr.y) <= MaxYSafe(frame))
  }

  /** A corner drag keeps a non-crossing quadrilateral non-crossing exactly
      when there is slack; otherwise the safe-area clamp pushes the corner
      past an opposite corner. */
  lemma CornerDragOrdered(q: Quad, frame: Rect, c: Corner, t: Point)
    requires q.Ordered()
    ensures CornerDragged(q, frame, c, t).Ordered() <==> Slack(q, frame, c)
  {
    var r := CornerDragged(q, frame, c, t);
    match c
    case TopLeft => assert r.tr == q.tr && r.bl == q.bl && r.br == q.br;
    case TopRight => assert r.tl == q.tl && r.bl == q.bl && r.br == q.br;
    case BottomLeft => assert r.tl == q.tl && r.tr == q.tr && r.br == q.br;
    case BottomRight => assert r.tl == q.tl && r.tr == q.tr && r.bl == q.bl;
  }

  /** A corner drag keeps every corner inside a frame at least 1 point wide
      and high, whatever the order of the corners. */
  lemma CornerDragWithin(q: Quad, frame: Rect, c: Corner, t: Point)
    requires q.Within(frame)
    requires frame.size.width >= 1.0 && frame.size.height >= 1.0
    ensures CornerDragged(q, frame, c, t).Within(frame)
  {
    var r := CornerDragged(q, frame, c, t);
    match c
    case TopLeft => assert r.tr == q.tr && r.bl == q.bl && r.br == q.br;
    case TopRight => assert r.tl == q.tl && r.bl == q.bl && r.br == q.br;
    case BottomLeft => assert r.tl == q.tl && r.tr == q.tr && r.br == q.br;
    case BottomRight => assert r.tl == q.tl && r.tr == q.tr && r.bl == q.bl;
  }

  /** The slack can run out: from the default quadrilateral, dragging the
      top-right corner far left parks it on the frame's left edge, still in
      order; a top-left drag with no movement then puts the top-left corner
      1 point to the right of it. */
  lemma PinchedCornersCross(frame: Rect)
    requires frame.size.width >= 1.0 && frame.size.height >= 1.0
    ensures var q1 := CornerDragged(DefaultQuad(frame), frame, TopRight, Point(-frame.size.width, 0.0));
      && q1.Ordered() && q1.Within(frame)
      && q1.tr.x == frame.MinX()
      && CornerDragged(q1, frame, TopLeft, Point(0.0, 0.0)).tl.x == frame.MinX() + 1.0
      && !CornerDragged(q1, frame, TopLeft, Point(0.0, 0.0)).Ordered()
  {
    var q0 := DefaultQuad(frame);
    var q1 := CornerDragged(q0, frame, TopRight, Point(-frame.size.width, 0.0));
    assert q1.tr.x == frame.MinX();
    CornerDragOrdered(q1, frame, TopLeft, Point(0.0, 0.0));
  }

  /** A top-left drag of (50, 50) from the origin is clamped by a top-right
      corner at x = 300 and a bottom-left corner at y = 300; a drag of
      (500, 500) stops at (300, 300). */
  lemma CornerDragScenario()
    ensures var frame := Rect(Point(0.0, 0.0), Size(400.0, 400.0));
      var q := Quad(Point(0.0, 0.0), Point(300.0, 0.0), Point(0.0, 300.0), Point(400.0, 400.0));
      && CornerDragged(q, frame, TopLeft, Point(50.0, 50.0)).tl == Point(50.0, 50.0)
      && CornerDragged(q, frame, TopLeft, Point(500.0, 500.0)).tl == Point(300.0, 300.0)
  {
  }

  // ---------------------------------------------------------------------------
  // Side drags

  /** A side drag keeps a non-crossing quadrilateral inside the frame
      non-crossing and inside the frame, with no condition. */
  lemma SideDragValid(q: Quad, frame: Rect, s: Side, t: Point)
    requires q.Ordered() && q.Within(frame)
    ensures SideDragged(q, frame, s, t).Ordered()
    ensures SideDragged(q, frame, s, t).Within(frame)
  {
  }

  /** Each corner of the dragged side follows the translation while it stays
      between the frame edge and the opposite corners. */
  lemma SideDragFollows(q: Quad, frame: Rect, s: Side, t: Point)
    ensures s == Top && frame.MinY() <= q.tl.y + t.y <= Min(q.bl.y, q.br.y)
        ==> SideDragged(q, frame, s, t).tl.y == q.tl.y + t.y
    ensures s == Top && frame.MinY() <= q.tr.y + t.y <= Min(q.bl.y, q.br.y)
        ==> SideDragged(q, frame, s, t).tr.y == q.tr.y + t.y
    ensures s == Bottom && Max(q.tl.y, q.tr.y) <= q.bl.y + t.y <= frame.MaxY()
        ==> SideDragged(q, frame, s, t).bl.y == q.bl.y + t.y
    ensures s == Bottom && Max(q.tl.y, q.tr.y) <= q.br.y + t.y <= frame.MaxY()
        ==> SideDragged(q, frame, s, t).br.y == q.br.y + t.y
    ensures s == Left && Max(0.0, frame.MinX()) <= q.tl.x + t.x <= Min(q.tr.x, q.br.x)
        ==> SideDragged(q, frame, s, t).tl.x == q.tl.x + t.x
    ensures s == Left && Max(0.0, frame.MinX()) <= q.bl.x + t.x <= Min(q.tr.x, q.br.x)
        ==> SideDragged(q, frame, s, t).bl.x == q.bl.x + t.x
    ensures s == Right && Max(q.tl.x, q.bl.x) <= q.tr.x + t.x <= frame.MaxX()
        ==> SideDragged(q, frame, s, t).tr.x == q.tr.x + t.x
    ensures s == Right && Max(q.tl.x, q.bl.x) <= q.br.x + t.x <= frame.MaxX()
        ==> SideDragged(q, frame, s, t).br.x == q.br.x + t.x
  {
  }

  /** Where a side's corner lands when its target is clamped: a target past
      the frame edge (or, on the left, past x = 0) lands on that edge, unless
      the opposite corners are nearer; a target past the opposite corners
      lands on their bound. With SideDragFollows this covers every input. */
  lemma SideDragClamps(q: Quad, frame: Rect, s: Side, t: Point)
    ensures var r, limit := SideDragged(q, frame, s, t), Min(q.bl.y, q.br.y);
      s == Top ==>
        && (q.tl.y + t.y < frame.MinY() ==> r.tl.y == Min(limit, frame.MinY()))
        && (q.tr.y + t.y < frame.MinY() ==> r.tr.y == Min(limit, frame.MinY()))
        && (q.tl.y + t.y > limit ==> r.tl.y == limit)
        && (q.tr.y + t.y > limit ==> r.tr.y == limit)
    ensures var r, limit := SideDragged(q, frame, s, t), Max(q.tl.y, q.tr.y);
      s == Bottom ==>
        && (q.bl.y + t.y > frame.MaxY() ==> r.bl.y == Max(limit, frame.MaxY()))
        && (q.br.y + t.y > frame.MaxY() ==> r.br.y == Max(limit, frame.MaxY()))
        && (q.bl.y + t.y < limit ==> r.bl.y == limit)
        && (q.br.y + t.y < limit ==> r.br.y == limit)
    ensures var r, limit, edge := SideDragged(q, frame, s, t), Min(q.tr.x, q.br.x), Max(0.0, frame.MinX());
      s == Left ==>
        && (q.tl.x + t.x < edge ==> r.tl.x == Min(limit, edge))
        && (q.bl.x + t.x < edge ==> r.bl.x == Min(limit, edge))
        && (q.tl.x + t.x > limit ==> r.tl.x == limit)
        && (q.bl.x + t.x > limit ==> r.bl.x == limit)
    ensures var r, limit := SideDragged(q, frame, s, t), Max(q.tl.x, q.bl.x);
      s == Right ==>
        && (q.tr.x + t.x > frame.MaxX() ==> r.tr.x == Max(limit, frame.MaxX()))
        && (q.br.x + t.x > frame.MaxX() ==> r.br.x == Max(limit, frame.MaxX()))
        && (q.tr.x + t.x < limit ==> r.tr.x == limit)
        && (q.br.x + t.x < limit ==> r.br.x == limit)
  {
  }

  // ---------------------------------------------------------------------------
  // Sequences of gestures

  datatype Edit = DragCorner(corner: Corner, t: Point) | DragSide(side: Side, t: Point)

  function ApplyEdit(q: Quad, frame: Rect, e: Edit): Quad {
    match e
    case DragCorner(c, t) => CornerDragged(q, frame, c, t)
    case DragSide(s, t) => SideDragged(q, frame, s, t)
  }

  function ApplyEdits(q: Quad, frame: Rect, es: seq<Edit>): Quad
    decreases |es|
  {
    if es == [] then q else ApplyEdits(ApplyEdit(q, frame, es[0]), frame, es[1..])
  }

  /** Whatever corner and side drags follow, in whatever order and with
      whatever translations, every corner stays inside a frame at least 1
      point wide and high. */
  lemma {:induction false} EditsStayWithin(q: Quad, frame: Rect, es: seq<Edit>)
    requires q.Within(frame)
    requires frame.size.width >= 1.0 && frame.size.height >= 1.0
    ensures ApplyEdits(q, frame, es).Within(frame)
    decreases |es|
  {
    if es != [] {
      var q1 := ApplyEdit(q, frame, es[0]);
      match es[0] {
        case DragCorner(c, t) => CornerDragWithin(q, frame, c, t);
        case DragSide(s, t) => SideDragWithin(q, frame, s, t);
      }
      EditsStayWithin(q1, frame, es[1..]);
    }
  }

  /** Containment alone is kept by a side drag, without the order. */
  lemma SideDragWithin(q: Quad, frame: Rect, s: Side, t: Point)
    requires q.Within(frame)
    ensures SideDragged(q, frame, s, t).Within(frame)
  {
  }

  /** Side drags alone keep the quadrilateral non-crossing and in the frame
      for any sequence of them. */
  lemma {:induction false} SideEditsValid(q: Quad, frame: Rect, es: seq<Edit>)
    requires q.Ordered() && q.Within(frame)
    requires forall i :: 0 <= i < |es| ==> es[i].DragSide?
    ensures ApplyEdits(q, frame, es).Ordered() && ApplyEdits(q, frame, es).Within(frame)
    decreases |es|
  {
    if es != [] {
      SideDragValid(q, frame, es[0].side, es[0].t);
      SideEditsValid(ApplyEdit(q, frame, es[0]), frame, es[1..]);
    }
  }
}
