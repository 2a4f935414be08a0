/** The size test applied to a finished crop before it is saved (handleCroppedImage). */
module SizeCheck {
  import opened Geometry

  /** The smallest accepted PNG encoding, in kilobytes. */
  const MinimumCroppedImageSize: nat := 10

  datatype CropOutcome = TooSmall | SaveToGallery

  /** `pngByteCount` is the length of the PNG encoding, None when encoding
      failed (then an empty buffer is measured). The size is taken in whole
      kilobytes, rounding down. */
  function HandleCropped(pngByteCount: Option<nat>): (r: CropOutcome)
    ensures r == TooSmall <==> pngByteCount.None? || pngByteCount.value < 10240
  {
    var count := if pngByteCount.Some? then pngByteCount.value else 0;
    var sizeInKB := count / 1024;
    if sizeInKB < MinimumCroppedImageSize then TooSmall else SaveToGallery
  }
}
