/** Aspect-fit placement of the image inside the image view (updateImageFrame). */
module Letterbox {
  import opened Geometry

  /** The image frame for an image of size `image` shown aspect-fit in a view
      of size `view`: the width is fitted when the image is relatively wider
      than the view, otherwise the height, and the image is centred on the
      axis with slack. */
  function Placement(view: Size, image: Size): (r: Rect)
    requires PositiveSize(view) && PositiveSize(image)
    ensures PositiveSize(r.size)
    // inside the view
    ensures 0.0 <= r.MinX() && r.MaxX() <= view.width
    ensures 0.0 <= r.MinY() && r.MaxY() <= view.height
    // the image's aspect ratio is kept
    ensures r.size.width * image.height == r.size.height * image.width
    // the width is filled exactly when the image is at least as wide as the view, relatively
    ensures r.size.width == view.width <==> image.width * view.height >= view.width * image.height
    ensures r.size.height == view.height <==> image.width * view.height <= view.width * image.height
    // centred on both axes (on the fitted axis there is no slack)
    ensures r.MinX() + r.size.width / 2.0 == view.width / 2.0
    ensures r.MinY() + r.size.height / 2.0 == view.height / 2.0
  {
    var viewAspect := view.width / view.height;
    var imageAspect := image.width / image.height;
    AspectCompare(image.width, image.height, view.width, view.height);
    if imageAspect > viewAspect then
      var scale := view.width / image.width;
      var h := image.height * scale;
      WidthFit(view, image);
      Rect(Point(0.0, (view.height - h) / 2.0), Size(view.width, h))
    else
      var scale := view.height / image.height;
      var w := image.width * scale;
      HeightFit(view, image);
      Rect(Point((view.width - w) / 2.0, 0.0), Size(w, view.height))
  }

  /** Comparing aspect ratios is comparing cross products. */
  lemma AspectCompare(a: real, b: real, c: real, d: real)
    requires b > 0.0 && d > 0.0
    ensures a / b > c / d <==> a * d > c * b
  {
    var k := b * d;
    assert (a / b) * k == a * d;
    assert (c / d) * k == c * b;
    if a / b > c / d {
      MulStrict(a / b, c / d, k);
    } else {
      MulWeak(a / b, c / d, k);
    }
  }

  lemma MulStrict(u: real, v: real, k: real)
    requires u > v && k > 0.0
    ensures u * k > v * k
  {
    assert (u - v) * k > 0.0;
  }

  lemma MulWeak(u: real, v: real, k: real)
    requires u <= v && k > 0.0
    ensures u * k <= v * k
  {
    assert (v - u) * k >= 0.0;
  }

  /** The width-fit branch: the scaled height, its bounds and the aspect. */
  lemma WidthFit(view: Size, image: Size)
    requires PositiveSize(view) && PositiveSize(image)
    requires image.width * view.height > view.width * image.height
    ensures var h := image.height * (view.width / image.width);
      && 0.0 < h < view.height
      && view.width * image.height == h * image.width
  {
    var s := view.width / image.width;
    var h := image.height * s;
    assert s * image.width == view.width;
    assert h * image.width == view.width * image.height;
    assert h * image.width < view.height * image.width;
    if h >= view.height {
      MulWeak(view.height, h, image.width);
    }
  }

  /** The height-fit branch: the scaled width, its bounds and the aspect. */
  lemma HeightFit(view: Size, image: Size)
    requires PositiveSize(view) && PositiveSize(image)
    requires image.width * view.height <= view.width * image.height
    ensures var w := image.width * (view.height / image.height);
      && 0.0 < w <= view.width
      && (w == view.width <==> image.width * view.height == view.width * image.height)
      && w * image.height == view.height * image.width
  {
    var s := view.height / image.height;
    var w := image.width * s;
    assert s * image.height == view.height;
    assert w * image.height == view.height * image.width;
    if w > view.width {
      MulStrict(w, view.width, image.height);
    }
    if w == view.width {
      assert view.width * image.height == view.height * image.width;
    }
    if image.width * view.height == view.width * image.height {
      assert w * image.height == view.width * image.height;
      if w != view.width {
        if w < view.width {
          MulStrict(view.width, w, image.height);
        } else {
          MulStrict(w, view.width, image.height);
        }
      }
    }
  }

  /** A wide image in a tall view: 800x400 in 400x800 sits at (0, 300), 400x200. */
  lemma WideImageInTallView()
    ensures Placement(Size(400.0, 800.0), Size(800.0, 400.0))
         == Rect(Point(0.0, 300.0), Size(400.0, 200.0))
  {
  }
}
