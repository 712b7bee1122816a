/**
 * The two size calculations of the adapter: `boundingBox` (resize) and
 * `cropPosition` (crop). Both only read the tracked source size and return a
 * tuple; PHP floats are modelled by exact reals.
 */
module Geometry {
  import opened Outcomes
  import opened Php

  /** A (width, height) pair as `boundingBox` returns it. */
  datatype Size = Size(width: real, height: real)

  /** The source rectangle `cropPosition` returns: (cropWidth, cropHeight, offsetX, offsetY). */
  datatype CropArea = CropArea(width: real, height: real, offsetX: int, offsetY: int)

  /**
   * `boundingBox($width, $height)` against the tracked size srcW x srcH.
   * A zero side is derived from the other one and rounded; with both sides
   * given the source is scaled into the box and the result is not rounded.
   */
  function BoundingBox(srcW: real, srcH: real, boxW: nat, boxH: nat): (r: Result<Size>)
    ensures r == Fail(ZeroResize) <==> boxW == 0 && boxH == 0
  {
    if boxW == 0 && boxH == 0 then Fail(ZeroResize)
    else if boxH == 0 then
      if srcW == 0.0 then Fail(DivisionByZero)
      else Ok(Size(boxW as real, Round(boxW as real * srcH / srcW) as real))
    else if boxW == 0 then
      if srcH == 0.0 then Fail(DivisionByZero)
      else Ok(Size(Round(boxH as real * srcW / srcH) as real, boxH as real))
    else if srcW == 0.0 || srcH == 0.0 then Fail(DivisionByZero)
    else
      var scale := Min(boxW as real / srcW, boxH as real / srcH);
      Ok(Size(srcW * scale, srcH * scale))
  }

  /**
   * The crop rectangle's size for a target x : y with both sides non-zero,
   * comparing the source's ratio with the target's as the source does.
   */
  function CropSize(srcW: real, srcH: real, x: real, y: real): Size
    requires x > 0.0 && y > 0.0 && srcH != 0.0
  {
    var oldRatio := srcW / srcH;
    var newRatio := x / y;
    assert newRatio > 0.0;
    if newRatio >= 1.0 then
      if newRatio > oldRatio then Size(srcW, Trunc(srcW / newRatio) as real)
      else Size(Trunc(srcH * newRatio) as real, srcH)
    else
      if newRatio < oldRatio then Size(Trunc(srcH * newRatio) as real, srcH)
      else Size(srcW, Trunc(srcW / newRatio) as real)
  }

  /** The request after `cropPosition` has replaced a single zero side by the other one. */
  function SquaredTarget(w: nat, h: nat): (nat, nat) {
    var th := if h == 0 then w else h;
    var tw := if w == 0 then th else w;
    (tw, th)
  }

  /**
   * `cropPosition($width, $height)` against the tracked size srcW x srcH:
   * the centred source rectangle whose aspect ratio is that of the request.
   */
  function CropPosition(srcW: real, srcH: real, w: nat, h: nat): (r: Result<CropArea>)
    ensures r == Fail(ZeroCrop) <==> w == 0 && h == 0
  {
    if w == 0 && h == 0 then Fail(ZeroCrop)
    else
      var (tw, th) := SquaredTarget(w, h);
      if srcH == 0.0 then Fail(DivisionByZero)
      else
        var size := CropSize(srcW, srcH, tw as real, th as real);
        Ok(CropArea(size.width, size.height,
                    Trunc((srcW - size.width) / 2.0), Trunc((srcH - size.height) / 2.0)))
  }

  // ---------------------------------------------------------------------------
  // boundingBox

  /** Sizes stay non-negative: a successful `boundingBox` never yields a negative side. */
  lemma BoundingBoxNonNegative(srcW: real, srcH: real, boxW: nat, boxH: nat)
    requires srcW >= 0.0 && srcH >= 0.0
    ensures var r := BoundingBox(srcW, srcH, boxW, boxH);
            r.Ok? ==> r.value.width >= 0.0 && r.value.height >= 0.0
  {
    if boxW == 0 && boxH == 0 {
    } else if boxH == 0 {
      if srcW != 0.0 {
        MulNonNegative(boxW as real, srcH);
        RoundedQuotient(boxW as real * srcH, srcW);
      }
    } else if boxW == 0 {
      if srcH != 0.0 {
        MulNonNegative(boxH as real, srcW);
        RoundedQuotient(boxH as real * srcW, srcH);
      }
    } else if srcW != 0.0 && srcH != 0.0 {
      ScaledNonNegative(srcW, srcH, boxW, boxH);
    }
  }

  lemma ScaledNonNegative(srcW: real, srcH: real, boxW: nat, boxH: nat)
    requires srcW > 0.0 && srcH > 0.0 && boxW > 0 && boxH > 0
    ensures var scale := Min(boxW as real / srcW, boxH as real / srcH);
            srcW * scale >= 0.0 && srcH * scale >= 0.0
  {
    DivLess(boxW as real, srcW, 0.0);
    DivLess(boxH as real, srcH, 0.0);
    var scale := Min(boxW as real / srcW, boxH as real / srcH);
    MulNonNegative(srcW, scale);
    MulNonNegative(srcH, scale);
  }

  /**
   * Height left 0: the width is the box width and the height is the rounded
   * `boxW * srcH / srcW`, so the aspect ratio is kept within half a pixel.
   */
  lemma BoundingBoxDerivesHeight(srcW: real, srcH: real, boxW: nat)
    requires srcW > 0.0 && srcH >= 0.0 && boxW > 0
    ensures var r := BoundingBox(srcW, srcH, boxW, 0);
            r.Ok? && r.value.width == boxW as real &&
            r.value.height == Round(boxW as real * srcH / srcW) as real &&
            r.value.height >= 0.0 &&
            -srcW / 2.0 <= r.value.height * srcW - boxW as real * srcH <= srcW / 2.0
  {
    var a := boxW as real * srcH;
    assert BoundingBox(srcW, srcH, boxW, 0) == Ok(Size(boxW as real, Round(a / srcW) as real));
    RoundedQuotient(a, srcW);
  }

  /** Width left 0: the mirror image of BoundingBoxDerivesHeight. */
  lemma BoundingBoxDerivesWidth(srcW: real, srcH: real, boxH: nat)
    requires srcW >= 0.0 && srcH > 0.0 && boxH > 0
    ensures var r := BoundingBox(srcW, srcH, 0, boxH);
            r.Ok? && r.value.height == boxH as real &&
            r.value.width == Round(boxH as real * srcW / srcH) as real &&
            r.value.width >= 0.0 &&
            -srcH / 2.0 <= r.value.width * srcH - boxH as real * srcW <= srcH / 2.0
  {
    var a := boxH as real * srcW;
    assert BoundingBox(srcW, srcH, 0, boxH) == Ok(Size(Round(a / srcH) as real, boxH as real));
    RoundedQuotient(a, srcH);
  }

  /**
   * Both sides given: the result fits the box, touches it on at least one
   * side, and has exactly the source's aspect ratio (it is not rounded).
   */
  lemma BoundingBoxFits(srcW: real, srcH: real, boxW: nat, boxH: nat)
    requires srcW > 0.0 && srcH > 0.0 && boxW > 0 && boxH > 0
    ensures var r := BoundingBox(srcW, srcH, boxW, boxH);
            r.Ok? &&
            0.0 < r.value.width <= boxW as real && 0.0 < r.value.height <= boxH as real &&
            (r.value.width == boxW as real || r.value.height == boxH as real) &&
            r.value.width * srcH == r.value.height * srcW
  {
    var sx, sy := boxW as real / srcW, boxH as real / srcH;
    assert sx * srcW == boxW as real;
    assert sy * srcH == boxH as real;
    DivLess(boxW as real, srcW, 0.0);
    DivLess(boxH as real, srcH, 0.0);
    var scale := Min(sx, sy);
    MulLessEq(scale, sx, srcW);
    MulLessEq(scale, sy, srcH);
    MulLess(0.0, scale, srcW);
    MulLess(0.0, scale, srcH);
  }

  /** 4000x3000 resized to (100, 0) becomes 100x75. */
  lemma BoundingBoxLandscapeExample()
    ensures BoundingBox(4000.0, 3000.0, 100, 0) == Ok(Size(100.0, 75.0))
  {
    assert 100.0 * 3000.0 / 4000.0 == 75.0;
    assert Round(75.0) == 75;
  }

  /** The two-sided branch does not round: 3x2 fitted into 2x2 is 2 x 4/3. */
  lemma BoundingBoxUnroundedExample()
    ensures BoundingBox(3.0, 2.0, 2, 2) == Ok(Size(2.0, 4.0 / 3.0))
    ensures !IsIntegral(4.0 / 3.0)
  {
    assert Min(2.0 / 3.0, 2.0 / 2.0) == 2.0 / 3.0;
    assert Trunc(4.0 / 3.0) == 1;
  }

  // ---------------------------------------------------------------------------
  // cropPosition

  /** The ratio comparisons of CropSize, stated without division. */
  lemma RatioFacts(srcW: real, srcH: real, x: real, y: real)
    requires srcH > 0.0 && x > 0.0 && y > 0.0
    ensures srcW / srcH <= x / y <==> srcW * y <= srcH * x
    ensures srcW / srcH < x / y <==> srcW * y < srcH * x
    ensures x / y >= 1.0 <==> x >= y
    ensures x / y > 0.0
    ensures srcW / (x / y) == srcW * y / x
    ensures srcH * (x / y) == srcH * x / y
  {
    DivLess(x, y, 0.0);
    DivLess(x, y, 1.0);
    RatioCompare(srcW, srcH, x, y);
  }

  lemma RatioCompare(srcW: real, srcH: real, x: real, y: real)
    requires srcH > 0.0 && x > 0.0 && y > 0.0
    ensures srcW / srcH <= x / y <==> srcW * y <= srcH * x
    ensures srcW / srcH < x / y <==> srcW * y < srcH * x
  {
    var nr := x / y;
    assert nr * srcH == srcH * x / y;
    DivLess(srcW, srcH, nr);
    DivLess(srcH * x, y, srcW);
  }

  /**
   * Whether `cropPosition` keeps the full source width: the requested ratio
   * x : y is wider than the source's. On equal ratios a landscape or square
   * request keeps the full height and a portrait request the full width.
   */
  predicate WidthLimited(srcW: real, srcH: real, x: real, y: real) {
    (x >= y && srcW * y < srcH * x) || (x < y && srcW * y <= srcH * x)
  }

  /** CropSize's four branches, with the ratio comparisons cross-multiplied. */
  lemma CropSizeCases(srcW: real, srcH: real, x: real, y: real)
    requires srcH > 0.0 && x > 0.0 && y > 0.0
    ensures CropSize(srcW, srcH, x, y) ==
              if WidthLimited(srcW, srcH, x, y)
              then Size(srcW, Trunc(srcW * y / x) as real)
              else Size(Trunc(srcH * x / y) as real, srcH)
  {
    RatioFacts(srcW, srcH, x, y);
  }

  /** `(int)(a / b)` for a >= 0 and b > 0, stated by multiplication. */
  lemma TruncQuotient(a: real, b: real)
    requires a >= 0.0 && b > 0.0
    ensures var c := Trunc(a / b) as real;
            0.0 <= c && c * b <= a < (c + 1.0) * b && IsIntegral(c)
  {
    var q := a / b;
    DivLess(a, b, 0.0);
    var n := Trunc(q);
    assert 0 <= n && n as real <= q < n as real + 1.0;
    IntegralIsTrunc(n);
    var c := n as real;
    DivLess(a, b, c);
    DivLess(a, b, c + 1.0);
  }

  /** The side `W * y / x` a crop of full side W derives, truncated, fits in H when W * y <= H * x. */
  lemma DerivedSideFits(W: real, H: real, x: real, y: real)
    requires W >= 0.0 && H > 0.0 && x > 0.0 && y > 0.0 && W * y <= H * x
    ensures var c := Trunc(W * y / x) as real;
            IsIntegral(c) && 0.0 <= c <= H && c * x <= W * y < (c + 1.0) * x
  {
    assert W * y >= 0.0 by { MulLessEq(0.0, W, y); }
    TruncQuotient(W * y, x);
    var c := Trunc(W * y / x) as real;
    if c > H { MulLess(H, c, x); }
  }

  /**
   * A cw x ch crop of a srcW x srcH source has the ratio x : y up to the
   * truncation of one side, and keeps whole the side that limits: when the
   * request is wider than the source, the full width (a full-height rectangle
   * at ratio x : y would not fit), otherwise the full height.
   */
  predicate KeepsRatio(srcW: real, srcH: real, x: real, y: real, cw: real, ch: real) {
    if WidthLimited(srcW, srcH, x, y)
    then cw == srcW && srcW * y <= srcH * x && IsIntegral(ch) &&
         0.0 <= ch <= srcH && ch * x <= srcW * y < (ch + 1.0) * x
    else ch == srcH && srcH * x <= srcW * y && IsIntegral(cw) &&
         0.0 <= cw <= srcW && cw * y <= srcH * x < (cw + 1.0) * y
  }

  /** CropSize keeps the requested ratio in the sense of KeepsRatio. */
  lemma CropSizeMatchesRatio(srcW: real, srcH: real, x: real, y: real)
    requires srcW >= 0.0 && srcH > 0.0 && x > 0.0 && y > 0.0
    ensures var s := CropSize(srcW, srcH, x, y);
            KeepsRatio(srcW, srcH, x, y, s.width, s.height)
  {
    CropSizeCases(srcW, srcH, x, y);
    if WidthLimited(srcW, srcH, x, y) {
      CropWidthLimited(srcW, srcH, x, y);
    } else {
      CropHeightLimited(srcW, srcH, x, y);
    }
  }

  /** When the request is relatively wider, the full source width and the truncated derived height keep the ratio. */
  lemma CropWidthLimited(srcW: real, srcH: real, x: real, y: real)
    requires srcW >= 0.0 && srcH > 0.0 && x > 0.0 && y > 0.0
    requires WidthLimited(srcW, srcH, x, y)
    ensures KeepsRatio(srcW, srcH, x, y, srcW, Trunc(srcW * y / x) as real)
  {
    assert srcW * y <= srcH * x;
    DerivedSideFits(srcW, srcH, x, y);
  }

  /** Otherwise the full source height and the truncated derived width keep the ratio. */
  lemma CropHeightLimited(srcW: real, srcH: real, x: real, y: real)
    requires srcW >= 0.0 && srcH > 0.0 && x > 0.0 && y > 0.0
    requires !WidthLimited(srcW, srcH, x, y)
    ensures KeepsRatio(srcW, srcH, x, y, Trunc(srcH * x / y) as real, srcH)
  {
    NotWidthLimited(srcW, srcH, x, y);
    DerivedSideFits(srcH, srcW, y, x);
  }

  lemma NotWidthLimited(srcW: real, srcH: real, x: real, y: real)
    requires !WidthLimited(srcW, srcH, x, y)
    ensures srcH * x <= srcW * y
  {
  }

  /**
   * `cropPosition` always describes a rectangle inside the source, and it
   * spans the source fully in at least one direction.
   */
  lemma CropInsideSource(srcW: real, srcH: real, w: nat, h: nat)
    requires srcW >= 0.0 && srcH > 0.0 && (w > 0 || h > 0)
    ensures var r := CropPosition(srcW, srcH, w, h);
            r.Ok? &&
            0.0 <= r.value.width <= srcW && 0.0 <= r.value.height <= srcH &&
            0 <= r.value.offsetX && r.value.offsetX as real + r.value.width <= srcW &&
            0 <= r.value.offsetY && r.value.offsetY as real + r.value.height <= srcH &&
            (r.value.width == srcW || r.value.height == srcH)
  {
    var (tw, th) := SquaredTarget(w, h);
    CropSizeMatchesRatio(srcW, srcH, tw as real, th as real);
    var s := CropSize(srcW, srcH, tw as real, th as real);
    HalfMargin(srcW - s.width, false);
    HalfMargin(srcH - s.height, false);
  }

  /**
   * The rectangle is centred: the margin left of it is the margin right of it
   * or one less (less than two apart when the source width is fractional),
   * and the same vertically.
   */
  lemma CropCentred(srcW: real, srcH: real, w: nat, h: nat)
    requires srcW >= 0.0 && srcH > 0.0 && (w > 0 || h > 0)
    ensures var r := CropPosition(srcW, srcH, w, h);
            r.Ok? &&
            var left, right := r.value.offsetX as real, srcW - r.value.width - r.value.offsetX as real;
            var top, bottom := r.value.offsetY as real, srcH - r.value.height - r.value.offsetY as real;
            left <= right < left + 2.0 && top <= bottom < top + 2.0 &&
            (IsIntegral(srcW) ==> right <= left + 1.0) &&
            (IsIntegral(srcH) ==> bottom <= top + 1.0)
  {
    var (tw, th) := SquaredTarget(w, h);
    CropSizeMatchesRatio(srcW, srcH, tw as real, th as real);
    var s := CropSize(srcW, srcH, tw as real, th as real);
    if IsIntegral(srcW) { IntegralDifference(srcW, s.width); }
    if IsIntegral(srcH) { IntegralDifference(srcH, s.height); }
    HalfMargin(srcW - s.width, IsIntegral(srcW));
    HalfMargin(srcH - s.height, IsIntegral(srcH));
  }

  lemma IntegralDifference(a: real, b: real)
    requires IsIntegral(a) && (b == a || IsIntegral(b))
    ensures IsIntegral(a - b)
  {
    if b != a {
      var m, n := Trunc(a), Trunc(b);
      assert a - b == (m - n) as real;
      IntegralIsTrunc(m - n);
    }
  }

  lemma IntegralIsTrunc(n: int)
    ensures Trunc(n as real) == n
  {
  }

  /** Splitting a margin d in two with `(int)(d / 2)`. */
  lemma HalfMargin(d: real, integral: bool)
    requires d >= 0.0
    requires integral ==> IsIntegral(d)
    ensures var left := Trunc(d / 2.0) as real;
            0.0 <= left <= d - left < left + 2.0 && (integral ==> d - left <= left + 1.0)
  {
    if integral {
      var n := Trunc(d);
      var left := Trunc(d / 2.0);
      assert n as real == d;
      assert left == n / 2;
    }
  }

  /**
   * Both sides requested: the rectangle has the requested aspect ratio w : h
   * up to the truncation of its derived side, and keeps whole the side that
   * limits (KeepsRatio).
   */
  lemma CropKeepsRequestedRatio(srcW: real, srcH: real, w: nat, h: nat)
    requires srcW >= 0.0 && srcH > 0.0 && w > 0 && h > 0
    ensures var r := CropPosition(srcW, srcH, w, h);
            r.Ok? && KeepsRatio(srcW, srcH, w as real, h as real, r.value.width, r.value.height)
  {
    CropSizeMatchesRatio(srcW, srcH, w as real, h as real);
  }

  /** A single zero side is replaced by the other: the target is a square. */
  lemma CropSquaresSingleZero(srcW: real, srcH: real, side: nat)
    ensures CropPosition(srcW, srcH, side, 0) == CropPosition(srcW, srcH, side, side)
    ensures CropPosition(srcW, srcH, 0, side) == CropPosition(srcW, srcH, side, side)
  {
  }

  /** A square crop of 4000x3000 takes the centred 3000x3000 at offset (500, 0). */
  lemma CropLandscapeExample()
    ensures CropPosition(4000.0, 3000.0, 100, 100) == Ok(CropArea(3000.0, 3000.0, 500, 0))
  {
    assert 100.0 / 100.0 == 1.0;
    assert Trunc(3000.0 * 1.0) == 3000;
    assert Trunc((4000.0 - 3000.0) / 2.0) == 500;
  }

  // ---------------------------------------------------------------------------
  // Arithmetic steps the solver does not find on its own

  lemma DivLess(a: real, b: real, c: real)
    requires b > 0.0
    ensures a / b < c <==> a < c * b
    ensures a / b <= c <==> a <= c * b
    ensures c <= a / b <==> c * b <= a
    ensures c < a / b <==> c * b < a
  {
    var q := a / b;
    assert q * b == a;
    if q < c { MulLess(q, c, b); } else { MulLessEq(c, q, b); }
    if q <= c { MulLessEq(q, c, b); } else { MulLess(c, q, b); }
  }

  /** `round(a / b)` for a >= 0 and b > 0: non-negative, and within b / 2 of a once multiplied back by b. */
  lemma RoundedQuotient(a: real, b: real)
    requires a >= 0.0 && b > 0.0
    ensures var h := Round(a / b) as real;
            h >= 0.0 && -b / 2.0 <= h * b - a <= b / 2.0
  {
    var x := a / b;
    DivLess(a, b, 0.0);
    var n := Round(x);
    assert x - 0.5 <= n as real <= x + 0.5;
    RoundingMargin(a, b, x, n as real);
  }

  /** h within 1/2 of the quotient a / b is within b / 2 of a once multiplied back. */
  lemma RoundingMargin(a: real, b: real, x: real, h: real)
    requires b > 0.0 && x == a / b && x - 0.5 <= h <= x + 0.5
    ensures -b / 2.0 <= h * b - a <= b / 2.0
  {
    assert x * b == a;
    MulLessEq(x - 0.5, h, b);
    MulLessEq(h, x + 0.5, b);
    assert (x - 0.5) * b == a - b / 2.0;
    assert (x + 0.5) * b == a + b / 2.0;
  }

  lemma MulNonNegative(a: real, b: real)
    requires a >= 0.0 && b >= 0.0
    ensures a * b >= 0.0
  {
    if b > 0.0 { MulLessEq(0.0, a, b); }
  }

  lemma MulLess(x: real, y: real, b: real)
    requires b > 0.0 && x < y
    ensures x * b < y * b
  {
    assert y * b - x * b == (y - x) * b;
  }

  lemma MulLessEq(x: real, y: real, b: real)
    requires b > 0.0 && x <= y
    ensures x * b <= y * b
  {
    assert y * b - x * b == (y - x) * b;
  }
}
