/**
 * Crop geometry and canvas arithmetic of services/imageUtils.ts.
 *
 * Numbers are exact reals here; JavaScript numbers are doubles, so these
 * definitions agree with the source up to floating-point rounding.
 */
module ImageUtils {
  import opened Wrappers

  /** A crop rectangle in source-pixel space (types.ts `PixelCrop`). */
  datatype PixelCrop = PixelCrop(x: real, y: real, width: real, height: real)

  /** A width/height pair, as `rotateSize` returns it. */
  datatype Size = Size(width: real, height: real)

  /** The double value of `Math.PI`, written as a decimal. */
  const Pi: real := 3.141592653589793

  function Abs(x: real): real { if x < 0.0 then -x else x }

  /** `getRadianAngle`: degrees to radians. */
  function RadianAngle(degrees: real): (r: real)
    ensures r == 0.0 <==> degrees == 0.0
    ensures degrees == 180.0 ==> r == Pi
  {
    degrees * Pi / 180.0
  }

  /**
   * `rotateSize`: the axis-aligned bounding box of a `width` x `height`
   * rectangle rotated about its centre. The cosine and sine of the angle are
   * inputs: trigonometry is not modelled.
   */
  function RotateSize(width: real, height: real, cosR: real, sinR: real): (r: Size)
    requires width >= 0.0 && height >= 0.0
    ensures r.width >= 0.0 && r.height >= 0.0
  {
    Size(Abs(cosR * width) + Abs(sinR * height), Abs(sinR * width) + Abs(cosR * height))
  }

  /**
   * The bounding box is symmetric: swapping the sides swaps the box, a further half turn
   * (cosine and sine negated) keeps it, and a further quarter turn (cosine -> -sine,
   * sine -> cosine) swaps its sides.
   */
  lemma RotateSizeSymmetry(width: real, height: real, cosR: real, sinR: real)
    requires width >= 0.0 && height >= 0.0
    ensures var r := RotateSize(width, height, cosR, sinR);
      && RotateSize(height, width, cosR, sinR) == Size(r.height, r.width)
      && RotateSize(width, height, -cosR, -sinR) == r
      && RotateSize(width, height, -sinR, cosR) == Size(r.height, r.width)
  {
    assert (-cosR) * width == -(cosR * width) && (-cosR) * height == -(cosR * height);
    assert (-sinR) * width == -(sinR * width) && (-sinR) * height == -(sinR * height);
  }

  /** At a quarter turn (cos = 0, sin = 1) the bounding box is the image on its side. */
  lemma RotateSizeQuarterTurn(width: real, height: real)
    requires width >= 0.0 && height >= 0.0
    ensures RadianAngle(90.0) * 2.0 == Pi
    ensures RotateSize(width, height, 0.0, 1.0) == Size(height, width)
  {
  }

  /** At rotation 0 (cos 0 = 1, sin 0 = 0) the bounding box is the image itself. */
  lemma RotateSizeAtZero(width: real, height: real)
    requires width >= 0.0 && height >= 0.0
    ensures RadianAngle(0.0) == 0.0
    ensures RotateSize(width, height, 1.0, 0.0) == Size(width, height)
  {
  }

  /**
   * `getCenterCropPixels`: the centred crop of the largest size with
   * `width / height == aspect`. It spans the full height when the medium is
   * wider than `aspect`, the full width otherwise.
   */
  function CenterCropPixels(mediaWidth: real, mediaHeight: real, aspect: real): (c: PixelCrop)
    requires mediaHeight != 0.0 && aspect != 0.0
    ensures c.width == c.height * aspect
    ensures 2.0 * c.x + c.width == mediaWidth
    ensures 2.0 * c.y + c.height == mediaHeight
    ensures c.width == mediaWidth || c.height == mediaHeight
  {
    var mediaAspect := mediaWidth / mediaHeight;
    if mediaAspect > aspect then
      var width := mediaHeight * aspect;
      PixelCrop((mediaWidth - width) / 2.0, 0.0, width, mediaHeight)
    else
      var height := mediaWidth / aspect;
      PixelCrop(0.0, (mediaHeight - height) / 2.0, mediaWidth, height)
  }

  /** For positive sizes, `mediaWidth / mediaHeight > aspect` is `mediaWidth > mediaHeight * aspect`. */
  lemma WiderThanAspect(mediaWidth: real, mediaHeight: real, aspect: real)
    requires mediaWidth > 0.0 && mediaHeight > 0.0 && aspect > 0.0
    ensures mediaWidth / mediaHeight > aspect <==> mediaWidth > mediaHeight * aspect
  {
    assert mediaWidth == (mediaWidth / mediaHeight) * mediaHeight;
    if mediaWidth / mediaHeight > aspect {
      assert (mediaWidth / mediaHeight) * mediaHeight > aspect * mediaHeight;
    } else {
      assert (mediaWidth / mediaHeight) * mediaHeight <= aspect * mediaHeight;
    }
  }

  /**
   * Which side the crop spans: a medium wider than `aspect` gives the full
   * height, horizontally centred; any other gives the full width at x = 0,
   * vertically centred.
   */
  lemma CenterCropOrientation(mediaWidth: real, mediaHeight: real, aspect: real)
    requires mediaWidth > 0.0 && mediaHeight > 0.0 && aspect > 0.0
    ensures var c := CenterCropPixels(mediaWidth, mediaHeight, aspect);
      if mediaWidth / mediaHeight > aspect then
        c.height == mediaHeight && c.y == 0.0 && c.width == mediaHeight * aspect && c.width < mediaWidth
      else
        c.width == mediaWidth && c.x == 0.0 && c.height == mediaWidth / aspect && c.height <= mediaHeight
  {
    WiderThanAspect(mediaWidth, mediaHeight, aspect);
    var c := CenterCropPixels(mediaWidth, mediaHeight, aspect);
    if !(mediaWidth / mediaHeight > aspect) {
      assert c.height * aspect == mediaWidth <= mediaHeight * aspect;
    }
  }

  /** For positive sizes the crop is non-empty and lies inside the medium. */
  lemma CenterCropInside(mediaWidth: real, mediaHeight: real, aspect: real)
    requires mediaWidth > 0.0 && mediaHeight > 0.0 && aspect > 0.0
    ensures var c := CenterCropPixels(mediaWidth, mediaHeight, aspect);
      && c.width > 0.0 && c.height > 0.0
      && c.x >= 0.0 && c.y >= 0.0
      && c.x + c.width <= mediaWidth && c.y + c.height <= mediaHeight
  {
    CenterCropOrientation(mediaWidth, mediaHeight, aspect);
  }

  /**
   * The crop is the largest one: every rectangle of aspect `aspect` that fits
   * inside the medium is at most as wide and as high as the crop.
   */
  lemma CenterCropIsLargest(mediaWidth: real, mediaHeight: real, aspect: real, w: real, h: real)
    requires mediaWidth > 0.0 && mediaHeight > 0.0 && aspect > 0.0
    requires 0.0 < w <= mediaWidth && 0.0 < h <= mediaHeight && w == h * aspect
    ensures var c := CenterCropPixels(mediaWidth, mediaHeight, aspect);
      w <= c.width && h <= c.height
  {
    CenterCropOrientation(mediaWidth, mediaHeight, aspect);
    var c := CenterCropPixels(mediaWidth, mediaHeight, aspect);
    if mediaWidth / mediaHeight > aspect {
      assert h * aspect <= mediaHeight * aspect;
    } else {
      assert h * aspect <= c.height * aspect;
    }
  }

  /** The two worked examples: an exact 3:2 medium and a 2:1 medium cropped to 3:2. */
  lemma CenterCropExamples()
    ensures CenterCropPixels(3000.0, 2000.0, 1.5) == PixelCrop(0.0, 0.0, 3000.0, 2000.0)
    ensures CenterCropPixels(4000.0, 2000.0, 1.5) == PixelCrop(500.0, 0.0, 3000.0, 2000.0)
  {
  }

  /** `Math.max(1, Math.floor(length * scale))`: an output canvas side. */
  function TargetDimension(length: real, scale: real): (r: int)
    ensures r >= 1
    ensures length * scale >= 1.0 ==> r as real <= length * scale < r as real + 1.0
    ensures length * scale < 1.0 ==> r == 1
  {
    var f := (length * scale).Floor;
    if f < 1 then 1 else f
  }

  /** A smaller scale never gives a larger output side. */
  lemma TargetDimensionMonotone(length: real, s1: real, s2: real)
    requires length >= 0.0 && s1 <= s2
    ensures TargetDimension(length, s1) <= TargetDimension(length, s2)
  {
    assert length * (s2 - s1) == length * s2 - length * s1;
    assert (length * s1).Floor <= (length * s2).Floor;
  }

  /** At scale 1.0 a whole-pixel side of at least one pixel is kept as is. */
  lemma TargetDimensionUnitScale(length: int)
    requires length >= 1
    ensures TargetDimension(length as real, 1.0) == length
  {
  }

  const WatermarkText: string := "©Gokarnastays.com"
  const WatermarkMargin: int := 20
  const MinFontSize: int := 12

  /** `Math.max(12, Math.floor(targetHeight * 0.035))`: the watermark font size in pixels. */
  function FontSize(targetHeight: int): (r: int)
    ensures r >= MinFontSize
  {
    var f := (targetHeight as real * 0.035).Floor;
    if f < MinFontSize then MinFontSize else f
  }

  /**
   * The font size is the minimum 12 exactly for outputs up to 371 pixels high;
   * above that it is 3.5% of the height, rounded down.
   */
  lemma FontSizeRegions(targetHeight: int)
    ensures targetHeight <= 371 ==> FontSize(targetHeight) == MinFontSize
    ensures targetHeight >= 372 ==>
      FontSize(targetHeight) > MinFontSize &&
      FontSize(targetHeight) * 1000 <= targetHeight * 35 < (FontSize(targetHeight) + 1) * 1000
  {
    var f := (targetHeight as real * 0.035).Floor;
    assert f as real <= targetHeight as real * 0.035 < f as real + 1.0;
    if targetHeight <= 371 {
      assert targetHeight as real * 0.035 < 13.0;
    } else {
      assert targetHeight as real * 0.035 >= 13.02;
    }
  }

  /** The watermark stamp: text, font size and the bottom-left anchor of `fillText`. */
  datatype Watermark = Watermark(text: string, fontSize: int, x: int, y: int)

  /**
   * The final canvas `getCroppedImg` draws before encoding: its size, whether
   * the crop is resampled (any scale other than 1.0) or copied pixel for pixel,
   * and the watermark, if any.
   */
  datatype Canvas = Canvas(width: int, height: int, resampled: bool, watermark: Option<Watermark>)

  function FinalCanvas(crop: PixelCrop, scale: real, addWatermark: bool): (c: Canvas)
    ensures c.width >= 1 && c.height >= 1
    ensures c.resampled <==> scale != 1.0
    ensures c.watermark.Some? <==> addWatermark
    ensures c.watermark.Some? ==>
      c.watermark.value.fontSize >= MinFontSize && c.watermark.value.y == c.height - WatermarkMargin
  {
    var width := TargetDimension(crop.width, scale);
    var height := TargetDimension(crop.height, scale);
    var mark := if addWatermark
      then Some(Watermark(WatermarkText, FontSize(height), WatermarkMargin, height - WatermarkMargin))
      else None;
    Canvas(width, height, scale != 1.0, mark)
  }

  /** At scale 1.0 a whole-pixel crop is copied unresampled into a canvas of its own size. */
  lemma UnitScaleCopiesCrop(crop: PixelCrop, addWatermark: bool)
    requires crop.width >= 1.0 && crop.height >= 1.0
    requires crop.width == crop.width.Floor as real && crop.height == crop.height.Floor as real
    ensures var c := FinalCanvas(crop, 1.0, addWatermark);
      !c.resampled && c.width as real == crop.width && c.height as real == crop.height
  {
    TargetDimensionUnitScale(crop.width.Floor);
    TargetDimensionUnitScale(crop.height.Floor);
  }
}
