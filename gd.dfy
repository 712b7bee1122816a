/**
 * The libGD calls the adapter makes, as values. A raster records how it was
 * produced (decoded, blank canvas, rotated, flipped, resampled) instead of its
 * pixels; a handle is either undefined or a raster together with whether it
 * has been destroyed. GD takes integer arguments, so the floats the adapter
 * passes are truncated on the way in.
 */
module Gd {
  import opened Php

  datatype Raster =
    | Decoded(width: int, height: int)
    | Canvas(width: int, height: int)
    | Rotated(source: Raster, angle: int)
    | Flipped(source: Raster)
      // imagecopyresampled into `canvas` at (0, 0): the srcW x srcH window of
      // `source` at (srcX, srcY), stretched to dstW x dstH
    | Resampled(canvas: Raster, source: Raster, srcX: int, srcY: int,
                dstW: int, dstH: int, srcW: int, srcH: int)

  /** An image variable: undefined (or false), or a GD resource that may have been destroyed. */
  datatype Handle = NoImage | Resource(raster: Raster, live: bool)

  predicate Live(h: Handle) {
    h.Resource? && h.live
  }

  /** Whether `imagerotate` by this angle exchanges the sides (quarter turns only). */
  predicate TurnsSideways(angle: int) {
    angle == 90 || angle == -90 || angle == 270 || angle == -270
  }

  /** Pixel dimensions of a raster. */
  function PixelSize(r: Raster): (int, int) {
    match r
    case Decoded(w, h) => (w, h)
    case Canvas(w, h) => (w, h)
    case Rotated(src, angle) =>
      var (w, h) := PixelSize(src);
      if TurnsSideways(angle) then (h, w) else (w, h)
    case Flipped(src) => PixelSize(src)
    case Resampled(canvas, _, _, _, _, _, _, _) => PixelSize(canvas)
  }

  /** `imagerotate`: a new image, or false when the argument is not a live image. */
  function RotateImage(h: Handle, angle: int): (r: Handle)
    ensures Live(r) <==> Live(h)
  {
    if Live(h) then Resource(Rotated(h.raster, angle), true) else NoImage
  }

  /** `imageflip(..., IMG_FLIP_HORIZONTAL)`: in place; nothing happens to a non-image. */
  function FlipImage(h: Handle): (r: Handle)
    ensures Live(r) <==> Live(h)
  {
    if Live(h) then Resource(Flipped(h.raster), true) else h
  }

  /** `imagedestroy`: the resource stays in the variable but is no longer usable. */
  function DestroyImage(h: Handle): (r: Handle)
    ensures !Live(r)
  {
    match h
    case NoImage => NoImage
    case Resource(raster, _) => Resource(raster, false)
  }

  /**
   * Whether `imagecreatetruecolor` and `imagecreate` accept the size: both take
   * integers and refuse a side below 1 pixel.
   */
  predicate CanvasSizeAllowed(width: real, height: real) {
    Trunc(width) >= 1 && Trunc(height) >= 1
  }

  /** An allowed canvas size is at least 1x1 before truncation too. */
  lemma AllowedCanvasIsAtLeastOnePixel(width: real, height: real)
    requires CanvasSizeAllowed(width, height)
    ensures width >= 1.0 && height >= 1.0
  {
  }

  /** A blank canvas of the given size, as `imagecreatetruecolor` makes it. */
  function NewCanvas(width: real, height: real): (r: Handle)
    ensures Live(r)
  {
    Resource(Canvas(Trunc(width), Trunc(height)), true)
  }

  /**
   * `imagecopyresampled(dst, src, 0, 0, srcX, srcY, dstW, dstH, srcW, srcH)`
   * (or its fallback `imagecopyresized`, which copies the same rectangle):
   * draws into dst when both are live images, otherwise dst stays as it was.
   */
  function CopyResampled(dst: Handle, src: Handle, srcX: int, srcY: int,
                         dstW: real, dstH: real, srcW: real, srcH: real): (r: Handle)
    ensures Live(r) <==> Live(dst)
    ensures !Live(src) ==> r == dst
  {
    if Live(dst) && Live(src) then
      Resource(Resampled(dst.raster, src.raster, srcX, srcY,
                         Trunc(dstW), Trunc(dstH), Trunc(srcW), Trunc(srcH)), true)
    else dst
  }
}
