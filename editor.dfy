/** The crop editor's state and its gesture handlers (PolygonCroppingVC): four
    corner button centres, four side handle centres, the image frame and the
    active-corner lock, updated in place field by field. */
module Editor {
  import opened Geometry
  import opened Letterbox
  import opened PixelMapping
  import opened Quadrilateral
  import opened DragLock
  import opened SizeCheck

  class CropEditor {
    var tl: Point
    var tr: Point
    var bl: Point
    var br: Point

    var topHandle: Point
    var bottomHandle: Point
    var leftHandle: Point
    var rightHandle: Point

    /** The letterboxed image rectangle, None until an image has been placed. */
    var imageFrame: Option<Rect>

    /** The corner being dragged, and the corner whose pan gesture is recorded. */
    var activeButton: Option<Corner>
    var activeGesture: Option<Corner>

    /** The translation each corner's and each side handle's pan gesture
        holds that has not been applied yet: the handlers reset it to zero
        only after a move, so the movement of a dropped event is carried
        into the next applied one. */
    var cornerTranslations: map<Corner, Point>
    var sideTranslations: map<Side, Point>

    /** A known image frame always has a positive size, and every gesture has
        a translation. */
    ghost predicate Valid()
      reads this
    {
      && (imageFrame.Some? ==> PositiveSize(imageFrame.value.size))
      && (forall c: Corner :: c in cornerTranslations)
      && (forall s: Side :: s in sideTranslations)
    }

    function Corners(): Quad
      reads this
    {
      Quad(tl, tr, bl, br)
    }

    function SideHandles(): Handles
      reads this
    {
      Handles(topHandle, bottomHandle, leftHandle, rightHandle)
    }

    function LockState(): Lock
      reads this
    {
      Lock(activeButton, activeGesture)
    }

    /** A fresh editor: no frame, no active corner, every control at the
        origin and no gesture translation pending. */
    constructor ()
      ensures Valid() && imageFrame.None? && LockState() == Lock(None, None)
      ensures var o := Point(0.0, 0.0);
        && Corners() == Quad(o, o, o, o) && SideHandles() == Handles(o, o, o, o)
        && (forall c: Corner :: cornerTranslations[c] == o)
        && (forall s: Side :: sideTranslations[s] == o)
    {
      var o := Point(0.0, 0.0);
      tl, tr, bl, br := o, o, o, o;
      topHandle, bottomHandle, leftHandle, rightHandle := o, o, o, o;
      imageFrame := None;
      activeButton, activeGesture := None, None;
      var corners := map[TopLeft := o, TopRight := o, BottomLeft := o, BottomRight := o];
      var sides := map[Top := o, Bottom := o, Left := o, Right := o];
      forall c: Corner ensures c in corners && corners[c] == o {
        match c
        case TopLeft => case TopRight => case BottomLeft => case BottomRight =>
      }
      forall s: Side ensures s in sides && sides[s] == o {
        match s
        case Top => case Bottom => case Left => case Right =>
      }
      cornerTranslations, sideTranslations := corners, sides;
    }

    /** updateImageFrame: with no image the old frame is kept. */
    method UpdateImageFrame(view: Size, image: Option<Size>)
      requires Valid()
      requires image.Some? ==> PositiveSize(view) && PositiveSize(image.value)
      modifies this`imageFrame
      ensures Valid()
      ensures imageFrame == if image.Some? then Some(Placement(view, image.value)) else old(imageFrame)
    {
      if image.None? {
        return;
      }
      imageFrame := Some(Placement(view, image.value));
    }

    /** updateSideHandles, centres only. */
    method UpdateSideHandles()
      modifies this`topHandle, this`bottomHandle, this`leftHandle, this`rightHandle
      ensures SideHandles() == HandleCentres(Corners())
    {
      topHandle := Point(tl.x + Abs((tr.x - tl.x) / 2.0), Min(tl.y, tr.y) + Abs((tl.y - tr.y) / 2.0));
      bottomHandle := Point(bl.x + Abs((br.x - bl.x) / 2.0), Min(bl.y, br.y) + Abs((bl.y - br.y) / 2.0));
      leftHandle := Point(Min(bl.x, tl.x) + Abs((bl.x - tl.x) / 2.0), tl.y + Abs((bl.y - tl.y) / 2.0));
      rightHandle := Point(Min(br.x, tr.x) + Abs((br.x - tr.x) / 2.0), tr.y + Abs((br.y - tr.y) / 2.0));
    }

    /** setupDefaultCropRectangle: recompute the frame, then put the corners
        on the frame's corners and the handles on the side midpoints. */
    method Reset(view: Size, image: Option<Size>)
      requires Valid()
      requires image.Some? ==> PositiveSize(view) && PositiveSize(image.value)
      modifies this`imageFrame, this`tl, this`tr, this`bl, this`br
      modifies this`topHandle, this`bottomHandle, this`leftHandle, this`rightHandle
      ensures Valid()
      ensures imageFrame == if image.Some? then Some(Placement(view, image.value)) else old(imageFrame)
      ensures LockState() == old(LockState())
      ensures cornerTranslations == old(cornerTranslations) && sideTranslations == old(sideTranslations)
      ensures imageFrame.None? ==> Corners() == old(Corners()) && SideHandles() == old(SideHandles())
      ensures imageFrame.Some? ==> Corners() == DefaultQuad(imageFrame.value)
      ensures imageFrame.Some? ==> SideHandles() == Midpoints(Corners())
      ensures imageFrame.Some? ==> Corners().Ordered() && Corners().Within(imageFrame.value)
    {
      UpdateImageFrame(view, image);
      if imageFrame.None? {
        return;
      }
      var frame := imageFrame.value;
      var inset := 0.0;
      var topLeft := Point(frame.MinX() + inset, frame.MinY() + inset);
      var topRight := Point(frame.MaxX() - inset, frame.MinY() + inset);
      var bottomLeft := Point(frame.MinX() + inset, frame.MaxY() - inset);
      var bottomRight := Point(frame.MaxX() - inset, frame.MaxY() - inset);

      topHandle := Point((topLeft.x + topRight.x) / 2.0, topLeft.y);
      bottomHandle := Point((bottomLeft.x + bottomRight.x) / 2.0, bottomLeft.y);
      leftHandle := Point(topLeft.x, (topLeft.y + bottomLeft.y) / 2.0);
      rightHandle := Point(topRight.x, (topRight.y + bottomRight.y) / 2.0);

      tl := topLeft;
      tr := topRight;
      bl := bottomLeft;
      br := bottomRight;

      ResetHandlesAgree(frame);
      DefaultQuadValid(frame);
      UpdateSideHandles();
    }

    /** sideHandlePanGestureAction for an event of the given phase whose
        finger movement since the previous event is `delta`: move the side's
        two corners one after the other by the gesture's translation, reset
        that translation, then recompute the handles. Without a frame the
        event is dropped and its movement stays in the translation. */
    method SideDrag(side: Side, phase: Phase, delta: Point)
      requires Valid()
      modifies this`tl, this`tr, this`bl, this`br
      modifies this`topHandle, this`bottomHandle, this`leftHandle, this`rightHandle
      modifies this`sideTranslations
      ensures Valid()
      ensures var t := GestureTranslation(old(sideTranslations)[side], delta, phase);
        imageFrame.None?
        ==> && Corners() == old(Corners()) && SideHandles() == old(SideHandles())
            && sideTranslations == old(sideTranslations)[side := t]
      ensures var t := GestureTranslation(old(sideTranslations)[side], delta, phase);
        imageFrame.Some?
        ==> && Corners() == SideDragged(old(Corners()), imageFrame.value, side, t)
            && SideHandles() == HandleCentres(Corners())
            && sideTranslations == old(sideTranslations)[side := Point(0.0, 0.0)]
    {
      var t := GestureTranslation(sideTranslations[side], delta, phase);
      if imageFrame.None? {
        sideTranslations := sideTranslations[side := t];
        return;
      }
      MoveSide(side, t);
      sideTranslations := sideTranslations[side := Point(0.0, 0.0)];
      UpdateSideHandles();
    }

    /** The clamp of sideHandlePanGestureAction: the side's two corners, one
        after the other. */
    method MoveSide(side: Side, t: Point)
      requires imageFrame.Some?
      modifies this`tl, this`tr, this`bl, this`br
      ensures Corners() == SideDragged(old(Corners()), imageFrame.value, side, t)
    {
      var frame := imageFrame.value;
      match side {
        case Top =>
          tl := tl.(y := Min(Min(bl.y, br.y), Max(frame.MinY(), tl.y + t.y)));
          tr := tr.(y := Min(Min(bl.y, br.y), Max(frame.MinY(), tr.y + t.y)));
        case Bottom =>
          bl := bl.(y := Max(Max(tl.y, tr.y), Min(frame.MaxY(), bl.y + t.y)));
          br := br.(y := Max(Max(tl.y, tr.y), Min(frame.MaxY(), br.y + t.y)));
        case Left =>
          tl := tl.(x := Min(Min(tr.x, br.x), Max(0.0, Max(frame.MinX(), tl.x + t.x))));
          bl := bl.(x := Min(Min(tr.x, br.x), Max(0.0, Max(frame.MinX(), bl.x + t.x))));
        case Right =>
          tr := tr.(x := Max(Max(tl.x, bl.x), Min(frame.MaxX(), tr.x + t.x)));
          br := br.(x := Max(Max(tl.x, bl.x), Min(frame.MaxX(), br.x + t.x)));
      }
    }

    /** buttonPanGestureAction for an event of the given phase whose finger
        movement since the previous event is `delta`: update the active-corner
        lock for the phase, then, if the event is not dropped and the frame is
        known, clamp the corner moved by the gesture's translation, reset that
        translation and recompute the handles. A dropped event leaves its
        movement in the translation. Returns the corners whose gestures are
        forced to the ended state. */
    method CornerDrag(c: Corner, phase: Phase, delta: Point) returns (forcedEnd: set<Corner>)
      requires Valid()
      modifies this`tl, this`tr, this`bl, this`br
      modifies this`topHandle, this`bottomHandle, this`leftHandle, this`rightHandle
      modifies this`activeButton, this`activeGesture, this`cornerTranslations
      ensures Valid()
      ensures var s := Dispatch(old(LockState()), c, phase);
        LockState() == s.lock && forcedEnd == s.forcedEnd
      ensures var s, t := Dispatch(old(LockState()), c, phase),
                          GestureTranslation(old(cornerTranslations)[c], delta, phase);
        s.moves && imageFrame.Some?
        ==> && Corners() == CornerDragged(old(Corners()), imageFrame.value, c, t)
            && SideHandles() == HandleCentres(Corners())
            && cornerTranslations == old(cornerTranslations)[c := Point(0.0, 0.0)]
      ensures var s, t := Dispatch(old(LockState()), c, phase),
                          GestureTranslation(old(cornerTranslations)[c], delta, phase);
        !(s.moves && imageFrame.Some?)
        ==> && Corners() == old(Corners()) && SideHandles() == old(SideHandles())
            && cornerTranslations == old(cornerTranslations)[c := t]
    {
      var t := GestureTranslation(cornerTranslations[c], delta, phase);
      var moves;
      moves, forcedEnd := UpdateLock(c, phase);
      if !moves || imageFrame.None? {
        cornerTranslations := cornerTranslations[c := t];
        return;
      }
      MoveCorner(c, t);
      cornerTranslations := cornerTranslations[c := Point(0.0, 0.0)];
      UpdateSideHandles();
    }

    /** The state switch at the head of buttonPanGestureAction. */
    method UpdateLock(c: Corner, phase: Phase) returns (moves: bool, forcedEnd: set<Corner>)
      modifies this`activeButton, this`activeGesture
      ensures var s := Dispatch(old(LockState()), c, phase);
        LockState() == s.lock && moves == s.moves && forcedEnd == s.forcedEnd
    {
      forcedEnd := {};
      moves := true;
      match phase {
        case Began =>
          if activeButton.Some? && activeButton != Some(c) {
            forcedEnd := {c};
            activeButton := None;
            if activeGesture.Some? {
              forcedEnd := forcedEnd + {activeGesture.value};
            }
            moves := false;
            return;
          }
          activeButton := Some(c);
          activeGesture := Some(c);
        case Ended =>
          activeButton, activeGesture := None, None;
        case Cancelled =>
          activeButton, activeGesture := None, None;
        case Failed =>
          activeButton, activeGesture := None, None;
        case Changed =>
          moves := activeButton == Some(c);
      }
    }

    /** The safe-area and opposite-corner clamp of buttonPanGestureAction. */
    method MoveCorner(c: Corner, t: Point)
      requires Valid() && imageFrame.Some?
      modifies this`tl, this`tr, this`bl, this`br
      ensures Corners() == CornerDragged(old(Corners()), imageFrame.value, c, t)
    {
      var frame := imageFrame.value;

      var minXSafeArea := frame.origin.x + 1.0;
      var maxXSafeArea := frame.origin.x + frame.size.width - 1.0;
      var minYSafeArea := frame.origin.y + 1.0;
      var maxYSafeArea := frame.size.height + minYSafeArea - 1.0;

      var leftButtonsMaxX := Min(tr.x, br.x);
      var rightButtonsMinX := Max(tl.x, bl.x);
      var topButtonsMaxY := Min(br.y, bl.y);
      var bottomButtonsMinY := Max(tr.y, tl.y);

      match c {
        case TopLeft =>
          tl := Point(Max(minXSafeArea, Min(tl.x + t.x, leftButtonsMaxX)),
                      Max(minYSafeArea, Min(tl.y + t.y, topButtonsMaxY)));
        case TopRight =>
          tr := Point(Min(maxXSafeArea, Max(tr.x + t.x, rightButtonsMinX)),
                      Max(minYSafeArea, Min(tr.y + t.y, topButtonsMaxY)));
        case BottomLeft =>
          bl := Point(Max(minXSafeArea, Min(bl.x + t.x, leftButtonsMaxX)),
                      Min(maxYSafeArea, Max(bl.y + t.y, bottomButtonsMinY)));
        case BottomRight =>
          br := Point(Min(maxXSafeArea, Max(br.x + t.x, rightButtonsMinX)),
                      Min(maxYSafeArea, Max(br.y + t.y, bottomButtonsMinY)));
      }
    }

    /** convertButtonCentersToImagePoints behind cropBtnTapped's guard: with
        an image and a frame, the four corners in image coordinates in the
        order top-left, top-right, bottom-right, bottom-left. */
    method CropPoints(image: Option<Size>) returns (points: Option<seq<Point>>)
      requires Valid()
      ensures points.Some? <==> image.Some? && imageFrame.Some?
      ensures points.Some? ==> |points.value| == 4
      ensures points.Some? ==> points.value == PixelCorners(Corners(), imageFrame.value, image.value)
    {
      if image.None? || imageFrame.None? {
        return None;
      }
      var pts := PixelCorners(Corners(), imageFrame.value, image.value);
      return Some(pts);
    }

    /** The completion of cropBtnTapped. `cropped` is None when the user
        cancelled or the graphics context gave no image; otherwise it holds
        the PNG byte count (None when encoding failed). A finished crop is
        checked for size and the quadrilateral is then reset, whatever the
        outcome. */
    method FinishCrop(view: Size, image: Option<Size>, cropped: Option<Option<nat>>)
      returns (outcome: Option<CropOutcome>)
      requires Valid()
      requires image.Some? ==> PositiveSize(view) && PositiveSize(image.value)
      modifies this`imageFrame, this`tl, this`tr, this`bl, this`br
      modifies this`topHandle, this`bottomHandle, this`leftHandle, this`rightHandle
      ensures Valid()
      ensures outcome == if cropped.None? then None else Some(HandleCropped(cropped.value))
      ensures LockState() == old(LockState())
      ensures cornerTranslations == old(cornerTranslations) && sideTranslations == old(sideTranslations)
      ensures cropped.None? ==> imageFrame == old(imageFrame)
      ensures cropped.None? || imageFrame.None?
          ==> Corners() == old(Corners()) && SideHandles() == old(SideHandles())
      ensures cropped.Some? ==> imageFrame == if image.Some? then Some(Placement(view, image.value)) else old(imageFrame)
      ensures cropped.Some? && imageFrame.Some?
          ==> Corners() == DefaultQuad(imageFrame.value) && SideHandles() == Midpoints(Corners())
    {
      if cropped.None? {
        return None;
      }
      var result := HandleCropped(cropped.value);
      Reset(view, image);
      return Some(result);
    }
  }
}
