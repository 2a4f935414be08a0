# QuadCrop quadrilateral editor, modelled in Dafny

QuadCrop shows a photo letterboxed in an image view and lets the user pick a
quadrilateral on it with four corner buttons and four side handles. The
quadrilateral's corners are then mapped to image coordinates and the enclosed
pixels are extracted. This project models the editing geometry of
`PolygonCroppingVC`:

- the aspect-fit placement of the image in the view (`Letterbox`);
- the affine map from the image frame to image coordinates (`PixelMapping`);
- the default reset, the corner-drag and side-drag clamps and the side-handle
  centres, as functions on a four-corner value (`Quadrilateral`);
- the crop window of the magnifier preview (`Magnifier`);
- the minimum-size test on the encoded result (`SizeCheck`);
- the single-active-corner lock of the corner-drag handler (`DragLock`);
- the controller's state as a class, `Editor.CropEditor`. Its fields are:
  - the four corner centres and the four handle centres;
  - the optional image frame;
  - the active corner button (`activeButton`) and the corner whose pan
    gesture is recorded as active (`activeGesture`);
  - each pan gesture's translation that has not been applied yet.

  Its methods update these fields in place as the gesture handlers do. Each
  method is proved equal to the functions above.

Coordinates are exact reals standing for `CGFloat`. Every `min`/`max` clamp
of the source is written out with the same operands in the same order.

Where the code behaves differently from what one would expect of such an editor, the model follows the code:

- One would expect the corners never to cross. Here "in order" is the
  predicate `Quad.Ordered`. It holds eight inequalities: each left corner is
  left of both right corners, and each top corner is above both bottom
  corners. That is stronger than the four same-side inequalities, because
  the drag clamps bound every corner by both opposite corners. With only
  the four same-side inequalities, the iff below would not hold.
- In the code, a corner drag applies the 1-point safe-area bound after the
  opposite-corner bound, so the safe-area bound wins.
  `Quadrilateral.CornerDragOrdered` shows that a corner drag keeps the
  corners in order exactly when the opposite corners are at least 1 point
  inside that edge. `Quadrilateral.PinchedCornersCross`
  shows that this can fail: drag the top-right corner onto the left frame
  edge, then a zero-length top-left drag puts the top-left corner 1 point to
  its right. Side drags always keep the order (`SideDragValid`).
- Containment has two conditions. The corners must start inside the frame,
  and the frame must be at least 1 point wide and high. Then every sequence
  of edits keeps the corners inside it (`EditsStayWithin`). In a narrower
  frame, the 1-point safe-area clamp can push a dragged corner out.
- One might expect a left corner to be bounded by the corners next to it
  (top-right and bottom-left). The code bounds both left corners by the two right
  corners, and does the same on each axis.
- One might expect corners never to lie exactly on the frame boundary. The
  reset puts them on it, with zero inset. The bottom safe-area bound,
  `height + (minY + 1) - 1`, is `maxY` itself, so bottom corners can be
  dragged onto the bottom edge.
- A pan gesture's translation is reset only when the handler applies a move.
  A dropped corner event is a conflicting began, a change on an inactive
  corner, or any event before the frame is known. Its movement stays in the
  translation, and the next applied event moves the corner by the sum
  (`DragLock.DroppedMovesAccumulate`). A new gesture starts afresh
  (`DragLock.BeganStartsAfresh`). The editor keeps this pending translation
  per gesture.
- One might expect a failed save to leave the session as it was. The code
  resets the quadrilateral after every crop that produced an image, before
  the save completes (`FinishCrop`).
- One might expect a zero-size view or image to make every operation a
  no-op. The code divides by those sizes. The model requires positive sizes instead.

## Model

| member | source | states |
|---|---|---|
| Letterbox.Placement | QuadCrop/PolygonCroppingVC.swift:761-786 | the frame has positive size and lies inside the view; it keeps the image's aspect ratio; it fills the view's width exactly when the image is relatively at least as wide as the view, and its height exactly when it is at most as wide; it is centred on both axes |
| Letterbox.WideImageInTallView | QuadCrop/PolygonCroppingVC.swift:775-778 | an 800x400 image in a 400x800 view is placed at (0, 300) with size 400x200 |
| PixelMapping.ToPixel | QuadCrop/PolygonCroppingVC.swift:244-250 | maps a view point into image coordinates: normalise against the frame, then scale by the image size; its meaning is stated by the round-trip, order and containment lemmas below |
| PixelMapping.PixelCorners | QuadCrop/PolygonCroppingVC.swift:236-251 | four points, the image coordinates of the top-left, top-right, bottom-right and bottom-left corners, in that order (the order cropBtnTapped passes on) |
| PixelMapping.PixelRoundTrip | QuadCrop/PolygonCroppingVC.swift:244-250 | for a positive image size, the view-to-image map has an inverse on both sides |
| PixelMapping.ToPixelMonotone | QuadCrop/PolygonCroppingVC.swift:244-250 | for a positive image size the map is strictly increasing on each axis, so it keeps both strict and non-strict x and y order |
| PixelMapping.FrameCornersToPixel | QuadCrop/PolygonCroppingVC.swift:244-250 | the frame's corners map to (0,0), (W,0), (W,H) and (0,H) |
| PixelMapping.PixelCornersKeepOrder | QuadCrop/PolygonCroppingVC.swift:242-250 | the corners are non-crossing in view coordinates exactly when their images are non-crossing |
| PixelMapping.ToPixelInside | QuadCrop/PolygonCroppingVC.swift:244-250 | a point lies in the frame exactly when its image lies in the image rectangle |
| Quadrilateral.DefaultQuad | QuadCrop/PolygonCroppingVC.swift:676-692 | the reset corners, on the frame's four corners with zero inset; specified by DefaultQuadValid and DefaultQuadSpec |
| Quadrilateral.DefaultQuadValid | QuadCrop/PolygonCroppingVC.swift:676-692 | for any frame of non-negative size, the reset corners are non-crossing and inside the frame |
| Quadrilateral.DefaultQuadSpec | QuadCrop/PolygonCroppingVC.swift:676-716 | in image coordinates the reset corners are exactly (0,0), (W,0), (W,H), (0,H), in crop order |
| Quadrilateral.ResetHandles | QuadCrop/PolygonCroppingVC.swift:695-710 | the handle positions the reset writes before recomputing them; specified by ResetHandlesAgree |
| Quadrilateral.HandleCentres | QuadCrop/PolygonCroppingVC.swift:484-530 | each handle centre, built from its two corners with min and abs; specified against the side midpoints by HandleCentresMidAxis and HandleCentresAreMidpoints |
| Quadrilateral.ResetHandlesAgree | QuadCrop/PolygonCroppingVC.swift:694-719 | after a reset, the handle positions written explicitly and the recomputed handle centres are both the side midpoints |
| Quadrilateral.MinXSafe | QuadCrop/PolygonCroppingVC.swift:400 | the left safe-area edge, 1 point inside the frame |
| Quadrilateral.MaxXSafe | QuadCrop/PolygonCroppingVC.swift:401 | the right safe-area edge, 1 point inside the frame |
| Quadrilateral.MinYSafe | QuadCrop/PolygonCroppingVC.swift:402 | the top safe-area edge, 1 point inside the frame |
| Quadrilateral.MaxYSafe | QuadCrop/PolygonCroppingVC.swift:403 | the bottom safe-area edge is exactly the frame's maxY: no inset on that side |
| Quadrilateral.CornerDragged | QuadCrop/PolygonCroppingVC.swift:399-437 | only the dragged corner moves; left corners end at x >= minX+1, right corners at x <= maxX-1, top corners at y >= minY+1 and bottom corners at y <= maxY, whatever the other corners are |
| Quadrilateral.CornerDragLands | QuadCrop/PolygonCroppingVC.swift:405-437 | for any corners, on each axis, the landing point in all four cases: the target, when it lies between the safe-area edge and the opposite-corner bound; the safe-area edge, when the target is beyond it; the opposite-corner bound, when the target is past it and the bound is inside the safe area; the safe-area edge, whatever the target, when the bound lies outside the safe area |
| Quadrilateral.CornerDragOppositeBound | QuadCrop/PolygonCroppingVC.swift:405-437 | on each axis alone, with no order assumed, the dragged corner respects both opposite corners whenever their bound lies inside its safe-area edge (a left corner ends at or left of both right corners when min(TR.x, BR.x) >= minX + 1, and so on) |
| Quadrilateral.CornerDragOrdered | QuadCrop/PolygonCroppingVC.swift:405-437 | from non-crossing corners, a corner drag leaves them non-crossing if and only if both opposite corners lie at or inside the dragged corner's safe-area edges |
| Quadrilateral.CornerDragWithin | QuadCrop/PolygonCroppingVC.swift:399-437 | in a frame at least 1x1, a corner drag keeps every corner inside the frame, whatever the order of the corners |
| Quadrilateral.PinchedCornersCross | QuadCrop/PolygonCroppingVC.swift:426-431 | in every frame at least 1x1, from the reset state a far-left top-right drag leaves the corners ordered with the top-right corner on minX; a following zero top-left drag puts the top-left corner at minX+1, and the corners then cross |
| Quadrilateral.CornerDragScenario | QuadCrop/PolygonCroppingVC.swift:426-428 | a (50,50) top-left drag from the origin lands at (50,50); a (500,500) drag stops at the opposite corners, (300,300) |
| Quadrilateral.SideDragged | QuadCrop/PolygonCroppingVC.swift:333-346 | only the side's two corners move, only along the side's axis, and both end on the inner side of both opposite corners, unconditionally |
| Quadrilateral.SideDragValid | QuadCrop/PolygonCroppingVC.swift:333-346 | a side drag keeps non-crossing corners inside the frame non-crossing and inside the frame |
| Quadrilateral.SideDragWithin | QuadCrop/PolygonCroppingVC.swift:333-346 | a side drag keeps the corners inside the frame even when they are not in order |
| Quadrilateral.SideDragFollows | QuadCrop/PolygonCroppingVC.swift:333-346 | for any corners, each of the side's two corners follows the translation exactly while its target lies between the frame edge (and x = 0 on the left) and the opposite corners |
| Quadrilateral.SideDragClamps | QuadCrop/PolygonCroppingVC.swift:333-346 | for any corners, each of the side's two corners lands on the frame edge (on the left, also x = 0), or on the opposite bound if that is nearer, when its target is past the edge; it lands on the opposite bound when its target is past the opposite corners |
| Quadrilateral.HandleCentresMidAxis | QuadCrop/PolygonCroppingVC.swift:484-530 | the top and bottom handles' y and the left and right handles' x are always the side midpoints |
| Quadrilateral.HandleCentresAreMidpoints | QuadCrop/PolygonCroppingVC.swift:484-530 | each handle's other coordinate is the midpoint exactly when the side's corners are in order (e.g. top x when TL.x <= TR.x), so all handles are midpoints exactly when the four same-side inequalities hold |
| Quadrilateral.EditsStayWithin | QuadCrop/PolygonCroppingVC.swift:333-442 | when the corners start inside a frame at least 1x1, any sequence of corner and side drags keeps every corner inside the frame |
| Quadrilateral.SideEditsValid | QuadCrop/PolygonCroppingVC.swift:333-346 | any sequence of side drags keeps the corners non-crossing and inside the frame |
| Magnifier.CropStart | QuadCrop/PolygonCroppingVC.swift:806-807 | one axis of the crop origin: centred on the point, kept below extent minus crop, then at or above 0; specified by CropStartKeepsPoint |
| Magnifier.CropRect | QuadCrop/PolygonCroppingVC.swift:789-810 | there is a crop exactly when the frame is known; its size is the preview size over the zoom; its origin is never negative; a crop no larger than the scaled image stays inside it |
| Magnifier.CropStartKeepsPoint | QuadCrop/PolygonCroppingVC.swift:806-807 | on one axis, a fitting crop contains a point of the image, and is centred on it when the point is half a crop from both edges |
| Magnifier.CropShowsCorner | QuadCrop/PolygonCroppingVC.swift:804-808 | a fitting crop contains the dragged corner's pixel and is centred on it away from the edges |
| Magnifier.CropRectShowsCorner | QuadCrop/PolygonCroppingVC.swift:789-808 | when the crop fits in the scaled image and the dragged corner lies in the image frame, the magnifier's crop rectangle contains the corner's pixel |
| SizeCheck.HandleCropped | QuadCrop/PolygonCroppingVC.swift:254-263 | the crop is rejected as too small exactly when the PNG encoding is missing or shorter than 10240 bytes (10 whole kilobytes); otherwise it is saved |
| DragLock.Dispatch | QuadCrop/PolygonCroppingVC.swift:362-392 | only a began on a free lock takes it, never from another corner; a began while another corner is active moves nothing, frees the button and forces exactly that corner's gesture and the recorded gesture to end; any other began makes the corner active; a change moves only the active corner; ended, cancelled and failed clear the lock and still move the corner; no other event forces any gesture to end |
| DragLock.OneActiveCorner | QuadCrop/PolygonCroppingVC.swift:364-392 | while one corner is active, a began or change on another corner neither moves it nor makes it active |
| DragLock.GestureTranslation | QuadCrop/PolygonCroppingVC.swift:421-452 | the translation a handler reads after one event; a definition, specified by DroppedMovesAccumulate and BeganStartsAfresh and used by CornerDrag and SideDrag |
| DragLock.DroppedMovesAccumulate | QuadCrop/PolygonCroppingVC.swift:421-452 | after any run of events that are not applied and start no new gesture, the translation is the pending one plus the total finger movement of the run: no movement is lost |
| DragLock.BeganStartsAfresh | QuadCrop/PolygonCroppingVC.swift:421-452 | after a run that starts with a began, the translation does not depend on what an earlier gesture left pending |
| Editor.CropEditor.constructor | QuadCrop/PolygonCroppingVC.swift:26-49 | a new editor has no frame, no active corner, every control at the origin and no pending translation |
| Editor.CropEditor.UpdateImageFrame | QuadCrop/PolygonCroppingVC.swift:761-786 | with an image the frame becomes its placement in the view; without one the frame is unchanged |
| Editor.CropEditor.UpdateSideHandles | QuadCrop/PolygonCroppingVC.swift:482-546 | the handle centres become the handle centres of the current corners |
| Editor.CropEditor.Reset | QuadCrop/PolygonCroppingVC.swift:668-720 | the frame is recomputed; with no frame nothing else changes; otherwise the corners become the frame's corners, the handles the side midpoints, the corners are non-crossing and inside the frame; the lock and the pending translations are untouched |
| Editor.CropEditor.SideDrag | QuadCrop/PolygonCroppingVC.swift:303-352 | with no frame the corners and handles are unchanged and the event's movement is added to the side gesture's pending translation; otherwise the corners become the side-drag clamp of the old corners by that translation, the translation is reset to zero and the handles are recomputed |
| Editor.CropEditor.MoveSide | QuadCrop/PolygonCroppingVC.swift:333-346 | the corners become the side-drag clamp of the old corners |
| Editor.CropEditor.CornerDrag | QuadCrop/PolygonCroppingVC.swift:355-456 | the lock and the forced ends follow the lock step for the phase; when the step moves and a frame is known, the corners become the corner-drag clamp of the old corners by the gesture's translation, the translation is reset to zero and the handles are recomputed; otherwise corners and handles are unchanged and the event's movement stays in the translation |
| Editor.CropEditor.UpdateLock | QuadCrop/PolygonCroppingVC.swift:362-392 | the lock, the move decision and the forced ends are those of the lock step |
| Editor.CropEditor.MoveCorner | QuadCrop/PolygonCroppingVC.swift:399-442 | the corners become the corner-drag clamp of the old corners |
| Editor.CropEditor.CropPoints | QuadCrop/PolygonCroppingVC.swift:81-96 | points are produced exactly when there is an image and a frame; they are the four corners in image coordinates, in crop order |
| Editor.CropEditor.FinishCrop | QuadCrop/PolygonCroppingVC.swift:97-101 | a cancelled or failed extraction changes nothing; a produced image gets the size decision, and then the quadrilateral is reset whatever that decision was; the lock and pending translations are untouched |

## Left out

- Pixel extraction (cropImageInQuadrilateral, maskImageInQuadrilateral) is not modelled. The clipping and rasterisation happen inside the graphics library. Only the vertex order handed to it is modelled, by `PixelCorners`.
- The Crop / Black background / Cancel alert is not modelled. `FinishCrop` takes its result as a parameter: no image, or the PNG byte count.
- The handle rotation angles are not modelled. They use `atan2` on floating point. Only the handle centres are modelled.
- Drawing output is not modelled: the rectangle and mask paths, button images and transforms, handle visibility, crosshair lines and the magnifier's on-screen position.
- `imageView.convert` is taken as the identity.
- `stripMetadata` is taken to keep the image's size and scale.
- The `.integral` rounding of the magnifier rectangle and the bitmap crop itself are not modelled.
- Floating-point rounding, NaN and infinity are not modelled.
- `Placement`, `UpdateImageFrame`, `Reset` and `FinishCrop` require positive view and image sizes, because the source divides by them.
- `ToPixel` and the class require a positive frame size. `CropRect` requires a positive zoom; the source always passes 1.
- Saving to the photo library, the temporary file, the main-queue hops, the alerts and dismissing the screen are not modelled. Only the too-small or save decision is.
- The 0.5 s loader delay, the view lifecycle and navigation are not modelled. This covers ViewController.swift.
- UIKit's gesture-recognizer machinery is not modelled. The gestures that a conflicting began forces to end are returned to the caller. The `.ended` callbacks that follow are separate `CornerDrag` calls. The movement between two events is a parameter; the recognizer's translation is kept as editor state.
- The side-handle handler's image swaps on began and ended are not modelled. The phase only decides whether the translation starts afresh. As in the source, side drags ignore the corner lock.
- `handleView` is not modelled. It shows or hides handles and nothing calls it.
