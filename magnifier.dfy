/** The crop rectangle of the magnifier preview (getZoomedImage): a window of
    the preview's size, centred on the dragged corner's image position where
    it fits and pushed back inside the scaled image where it does not. */
module Magnifier {
  import opened Geometry
  import opened PixelMapping

  /** One axis of the crop origin: centred on `p`, then kept below
      `extent - crop`, then kept at or above 0 (applied last). */
  function CropStart(p: real, crop: real, extent: real): real {
    Max(Min(p - crop / 2.0, extent - crop), 0.0)
  }

  /** The crop rectangle, before it is rounded outwards to whole pixels.
      `centre` is the corner in view coordinates, `image` the image's size in
      points and `scale` its pixels per point; there is no rectangle when the
      image frame is not known. */
  function CropRect(centre: Point, frame: Option<Rect>, image: Size, scale: real,
                    preview: Size, zoom: real): (r: Option<Rect>)
    requires frame.Some? ==> PositiveSize(frame.value.size)
    requires zoom > 0.0
    ensures r.Some? <==> frame.Some?
    ensures r.Some? ==> r.value.size == Size(preview.width / zoom, preview.height / zoom)
    // the origin never leaves the image on the low side ...
    ensures r.Some? ==> r.value.origin.x >= 0.0 && r.value.origin.y >= 0.0
    // ... and a crop no larger than the scaled image stays inside it
    ensures r.Some? && r.value.size.width <= image.width * scale
        ==> r.value.MaxX() <= image.width * scale
    ensures r.Some? && r.value.size.height <= image.height * scale
        ==> r.value.MaxY() <= image.height * scale
  {
    if frame.None? then None
    else
      var pointInImage := ToPixel(centre, frame.value, image);
      var cropSize := Size(preview.width / zoom, preview.height / zoom);
      Some(CropAround(PointInPixels(pointInImage, scale), SizeInPixels(image, scale), cropSize))
  }

  /** A point, in image points, converted to pixels. */
  function PointInPixels(p: Point, scale: real): Point {
    Point(p.x * scale, p.y * scale)
  }

  /** A size, in image points, converted to pixels. */
  function SizeInPixels(s: Size, scale: real): Size {
    Size(s.width * scale, s.height * scale)
  }

  /** The crop rectangle of size `crop` around `pixel`, both in pixels, for an
      image of `pixelSize` pixels. */
  function CropAround(pixel: Point, pixelSize: Size, crop: Size): Rect {
    Rect(Point(CropStart(pixel.x, crop.width, pixelSize.width),
               CropStart(pixel.y, crop.height, pixelSize.height)), crop)
  }

  /** On one axis: a crop that fits holds the point, and is centred on it
      when the point is at least half a crop away from both image edges. */
  lemma CropStartKeepsPoint(p: real, crop: real, extent: real)
    requires 0.0 <= crop <= extent
    ensures 0.0 <= p <= extent ==> CropStart(p, crop, extent) <= p <= CropStart(p, crop, extent) + crop
    ensures crop / 2.0 <= p <= extent - crop / 2.0 ==> CropStart(p, crop, extent) == p - crop / 2.0
  {
  }

  /** The magnifier shows the dragged corner: when the crop fits in the image
      and the corner's pixel lies on the image, the crop contains that pixel,
      and it is centred on it when the pixel is half a crop away from the edges. */
  lemma CropShowsCorner(pixel: Point, pixelSize: Size, crop: Size)
    requires 0.0 <= crop.width <= pixelSize.width && 0.0 <= crop.height <= pixelSize.height
    ensures var r := CropAround(pixel, pixelSize, crop);
      && (InRect(pixel, Rect(Point(0.0, 0.0), pixelSize)) ==> InRect(pixel, r))
      && (crop.width / 2.0 <= pixel.x <= pixelSize.width - crop.width / 2.0
          ==> r.MinX() + crop.width / 2.0 == pixel.x)
      && (crop.height / 2.0 <= pixel.y <= pixelSize.height - crop.height / 2.0
          ==> r.MinY() + crop.height / 2.0 == pixel.y)
  {
    CropStartKeepsPoint(pixel.x, crop.width, pixelSize.width);
    CropStartKeepsPoint(pixel.y, crop.height, pixelSize.height);
  }

  /** The same, stated of the magnifier's crop rectangle: when the crop fits
      in the scaled image and the dragged corner lies in the image frame, the
      crop contains the corner's pixel. */
  lemma CropRectShowsCorner(centre: Point, frame: Rect, image: Size, scale: real,
                            preview: Size, zoom: real)
    requires PositiveSize(frame.size) && PositiveSize(image) && scale > 0.0 && zoom > 0.0
    requires 0.0 <= preview.width / zoom <= SizeInPixels(image, scale).width
    requires 0.0 <= preview.height / zoom <= SizeInPixels(image, scale).height
    ensures InRect(centre, frame)
        ==> InRect(PointInPixels(ToPixel(centre, frame, image), scale),
                   CropRect(centre, Some(frame), image, scale, preview, zoom).value)
  {
    if InRect(centre, frame) {
      var p := ToPixel(centre, frame, image);
      ToPixelInside(centre, frame, image);
      PixelsInside(p, image, scale);
      CropShowsCorner(PointInPixels(p, scale), SizeInPixels(image, scale),
                      Size(preview.width / zoom, preview.height / zoom));
    }
  }

  /** A point of the image stays on the image once both are converted to pixels. */
  lemma PixelsInside(p: Point, image: Size, scale: real)
    requires InRect(p, Rect(Point(0.0, 0.0), image)) && scale > 0.0
    ensures InRect(PointInPixels(p, scale), Rect(Point(0.0, 0.0), SizeInPixels(image, scale)))
  {
    assert (image.width - p.x) * scale >= 0.0;
    assert (image.height - p.y) * scale >= 0.0;
  }
}
