/** `resize_with_aspect_ratio` and `validate_image` of utils/image_utils.py.
    The fit is computed in exact rational arithmetic, as the Python expressions
    read; the letterbox is a white canvas into which the resized block is pasted
    in place. */
module ImageUtils {
  import opened Base
  import opened Imaging

  const DivisionByZero := "division by zero"

  /** The size the image is resized to and where it is pasted. */
  datatype Fit = Fit(newWidth: int, newHeight: int, pasteX: int, pasteY: int)

  /** Lines 59-73 and 80-81: pick the side that matches the target box from the
      two aspect ratios, derive the other side with `int(...)`, then centre with
      floor division. A zero height, of the image or of the target, fails at the
      division. */
  function FitSize(width: nat, height: nat, targetWidth: nat, targetHeight: nat): (r: Result<Fit>)
    ensures r.Err? <==> height == 0 || targetHeight == 0
    ensures r.Err? ==> r.msg == DivisionByZero
  {
    if height == 0 || targetHeight == 0 then Err(DivisionByZero)
    else
      var (newWidth, newHeight) :=
        if WiderThanTarget(width, height, targetWidth, targetHeight) then
          (targetWidth, HeightForWidth(targetWidth, width, height))
        else
          (WidthForHeight(targetHeight, width, height), targetHeight);
      Ok(Fit(newWidth, newHeight, (targetWidth - newWidth) / 2, (targetHeight - newHeight) / 2))
  }

  /** Line 66: `width / height > target_width / target_height`. */
  predicate WiderThanTarget(width: nat, height: nat, targetWidth: nat, targetHeight: nat)
    requires height > 0 && targetHeight > 0
  {
    width as real / height as real > targetWidth as real / targetHeight as real
  }

  /** Line 69: `int(target_width / aspect_ratio)`, for a positive aspect ratio. */
  function HeightForWidth(targetWidth: nat, width: nat, height: nat): int
    requires width > 0 && height > 0
  {
    (targetWidth as real / (width as real / height as real)).Floor
  }

  /** Line 73: `int(target_height * aspect_ratio)`. */
  function WidthForHeight(targetHeight: nat, width: nat, height: nat): int
    requires height > 0
  {
    (targetHeight as real * (width as real / height as real)).Floor
  }

  /** The same fit in integer arithmetic: the branch test cross-multiplied and
      the derived side as a floor quotient. */
  function IntegerFit(width: nat, height: nat, targetWidth: nat, targetHeight: nat): Fit
    requires height > 0 && targetHeight > 0
  {
    var (newWidth, newHeight) :=
      if width * targetHeight > targetWidth * height then
        (targetWidth, targetWidth * height / width)
      else
        (targetHeight * width / height, targetHeight);
    Fit(newWidth, newHeight, (targetWidth - newWidth) / 2, (targetHeight - newHeight) / 2)
  }

  lemma FloorOfQuotient(a: nat, b: nat)
    requires b > 0
    ensures ((a as real) / (b as real)).Floor == a / b
  {
    var q, m := a / b, a % b;
    var x := (a as real) / (b as real);
    assert (q as real) * (b as real) + (m as real) == a as real;
    assert x == (q as real) + (m as real) / (b as real);
    assert (m as real) / (b as real) < 1.0;
  }

  lemma CompareRatios(width: nat, height: nat, targetWidth: nat, targetHeight: nat)
    requires height > 0 && targetHeight > 0
    ensures WiderThanTarget(width, height, targetWidth, targetHeight)
        <==> width * targetHeight > targetWidth * height
  {
    var a := width as real / height as real;
    var t := targetWidth as real / targetHeight as real;
    var k := height as real * targetHeight as real;
    assert k > 0.0;
    assert a * k == (width * targetHeight) as real;
    assert t * k == (targetWidth * height) as real;
  }

  lemma HeightForWidthIsQuotient(targetWidth: nat, width: nat, height: nat)
    requires width > 0 && height > 0
    ensures HeightForWidth(targetWidth, width, height) == targetWidth * height / width
  {
    assert targetWidth as real / (width as real / height as real) == (targetWidth * height) as real / width as real;
    FloorOfQuotient(targetWidth * height, width);
  }

  lemma WidthForHeightIsQuotient(targetHeight: nat, width: nat, height: nat)
    requires height > 0
    ensures WidthForHeight(targetHeight, width, height) == targetHeight * width / height
  {
    assert targetHeight as real * (width as real / height as real) == (targetHeight * width) as real / height as real;
    FloorOfQuotient(targetHeight * width, height);
  }

  /** The rational fit and the integer fit agree on every input where the
      source does not divide by zero. */
  lemma FitSizeIsIntegerFit(width: nat, height: nat, targetWidth: nat, targetHeight: nat)
    requires height > 0 && targetHeight > 0
    ensures FitSize(width, height, targetWidth, targetHeight) == Ok(IntegerFit(width, height, targetWidth, targetHeight))
  {
    CompareRatios(width, height, targetWidth, targetHeight);
    if width * targetHeight > targetWidth * height {
      HeightForWidthIsQuotient(targetWidth, width, height);
    } else {
      WidthForHeightIsQuotient(targetHeight, width, height);
    }
  }

  /** Lines 66-73: a relatively wider image gets the target width and a height
      that is at most the target height; otherwise, equal aspect ratios
      included, it gets the target height and a width at most the target width. */
  lemma FitMatchesOneSide(width: nat, height: nat, targetWidth: nat, targetHeight: nat)
    requires height > 0 && targetHeight > 0
    ensures FitSize(width, height, targetWidth, targetHeight).Ok?
    ensures var fit := FitSize(width, height, targetWidth, targetHeight).value;
      if width * targetHeight > targetWidth * height then
        fit.newWidth == targetWidth && fit.newHeight == targetWidth * height / width
        && 0 <= fit.newHeight <= targetHeight
      else
        fit.newHeight == targetHeight && fit.newWidth == targetHeight * width / height
        && 0 <= fit.newWidth <= targetWidth
  {
    FitSizeIsIntegerFit(width, height, targetWidth, targetHeight);
    if width * targetHeight > targetWidth * height {
      QuotientBelow(targetWidth * height, width, targetHeight);
    } else {
      QuotientAtMost(targetHeight * width, height, targetWidth);
    }
  }

  lemma QuotientBelow(a: nat, b: nat, c: nat)
    requires b > 0 && a < b * c
    ensures a / b <= c
  {
    assert (a / b) * b <= a;
  }

  lemma QuotientAtMost(a: nat, b: nat, c: nat)
    requires b > 0 && a <= c * b
    ensures a / b <= c
  {
    assert (a / b) * b <= a;
  }

  /** Lines 80-82: the offsets are non-negative, the pasted block lies inside
      the canvas, and in each axis the far margin equals the near margin or
      exceeds it by exactly one pixel. */
  lemma FitIsCentred(width: nat, height: nat, targetWidth: nat, targetHeight: nat)
    requires height > 0 && targetHeight > 0
    ensures FitSize(width, height, targetWidth, targetHeight).Ok?
    ensures var fit := FitSize(width, height, targetWidth, targetHeight).value;
      && 0 <= fit.pasteX && fit.pasteX + fit.newWidth <= targetWidth
      && 0 <= fit.pasteY && fit.pasteY + fit.newHeight <= targetHeight
      && 0 <= fit.newWidth && 0 <= fit.newHeight
      && (targetWidth - fit.newWidth - fit.pasteX) - fit.pasteX in {0, 1}
      && (targetHeight - fit.newHeight - fit.pasteY) - fit.pasteY in {0, 1}
  {
    FitMatchesOneSide(width, height, targetWidth, targetHeight);
  }

  datatype Rgb = Rgb(red: int, green: int, blue: int)

  const White := Rgb(255, 255, 255)

  /** A block of pixel rows, all of the same length. */
  function GridWidth(grid: seq<seq<Rgb>>): nat
  {
    if |grid| == 0 then 0 else |grid[0]|
  }

  predicate IsRectangular(grid: seq<seq<Rgb>>)
  {
    forall row :: 0 <= row < |grid| ==> |grid[row]| == GridWidth(grid)
  }

  predicate IsGrid(grid: seq<seq<Rgb>>, width: int, height: int)
  {
    IsRectangular(grid) && |grid| == height && (height > 0 ==> GridWidth(grid) == width)
  }

  /** Whether canvas pixel (x, y) falls in a block of the given size pasted at
      (left, top). */
  predicate Covers(left: int, top: int, blockWidth: int, blockHeight: int, x: int, y: int)
  {
    left <= x < left + blockWidth && top <= y < top + blockHeight
  }

  /** The LANCZOS resize of an image to a requested size, left opaque; PIL
      rejects some sizes. */
  type Resampler = (Image, int, int) -> Result<seq<seq<Rgb>>>

  ghost predicate KeepsRequestedSize(resample: Resampler)
  {
    forall image, w, h :: resample(image, w, h).Ok? ==> IsGrid(resample(image, w, h).value, w, h)
  }

  /** A PIL image whose pixels are changed in place. */
  class Canvas {
    const width: nat
    const height: nat
    const mode: string
    const pixels: array2<Rgb>

    ghost predicate Valid()
    {
      pixels.Length0 == height && pixels.Length1 == width
    }

    /** `Image.new(mode, (width, height), color)`. */
    constructor New(mode: string, width: nat, height: nat, color: Rgb)
      ensures Valid() && fresh(pixels)
      ensures this.mode == mode && this.width == width && this.height == height
      ensures forall y, x :: 0 <= y < height && 0 <= x < width ==> pixels[y, x] == color
    {
      this.mode, this.width, this.height := mode, width, height;
      pixels := new Rgb[height, width]((y, x) => color);
    }

    /** `canvas.paste(block, (left, top))`: the pixels the block covers take the
        block's values, clipped to the canvas; every other pixel is unchanged. */
    method Paste(block: seq<seq<Rgb>>, left: int, top: int)
      requires Valid() && IsRectangular(block)
      modifies pixels
      ensures forall y, x :: 0 <= y < height && 0 <= x < width ==>
        pixels[y, x] == if Covers(left, top, GridWidth(block), |block|, x, y)
                        then block[y - top][x - left] else old(pixels[y, x])
    {
      var blockWidth := GridWidth(block);
      for row := 0 to |block|
        invariant forall y, x :: 0 <= y < height && 0 <= x < width ==>
          pixels[y, x] == if Covers(left, top, blockWidth, row, x, y)
                          then block[y - top][x - left] else old(pixels[y, x])
      {
        for col := 0 to blockWidth
          invariant forall y, x :: 0 <= y < height && 0 <= x < width ==>
            pixels[y, x] == if Covers(left, top, blockWidth, row, x, y) || (y == top + row && Covers(left, top, col, row + 1, x, y))
                            then block[y - top][x - left] else old(pixels[y, x])
        {
          if 0 <= top + row < height && 0 <= left + col < width {
            pixels[top + row, left + col] := block[row][col];
          }
        }
      }
    }
  }

  /** The canvas is white except where the block was pasted at the fit's offsets. */
  ghost predicate Letterboxed(canvas: Canvas, fit: Fit, block: seq<seq<Rgb>>)
    requires canvas.Valid() && IsRectangular(block)
    reads canvas.pixels
  {
    forall y, x :: 0 <= y < canvas.height && 0 <= x < canvas.width ==>
      canvas.pixels[y, x] ==
        if Covers(fit.pasteX, fit.pasteY, GridWidth(block), |block|, x, y)
        then block[y - fit.pasteY][x - fit.pasteX] else White
  }

  /** `resize_with_aspect_ratio`: the result is an RGB canvas of exactly the
      target size, white outside the pasted block, holding every pixel of the
      resized block at the centring offsets. A zero height fails at the division
      before any canvas is made, and a size PIL refuses fails at the resize. */
  method ResizeWithAspectRatio(image: Image, targetWidth: nat, targetHeight: nat, resample: Resampler)
    returns (r: Result<Canvas>)
    requires KeepsRequestedSize(resample)
    ensures match FitSize(image.width, image.height, targetWidth, targetHeight)
      case Err(e) => r == Err(e)
      case Ok(fit) =>
        match resample(image, fit.newWidth, fit.newHeight)
        case Err(e) => r == Err(e)
        case Ok(block) =>
          && r.Ok? && fresh(r.value) && fresh(r.value.pixels) && r.value.Valid()
          && r.value.width == targetWidth && r.value.height == targetHeight && r.value.mode == "RGB"
          && IsGrid(block, fit.newWidth, fit.newHeight)
          && 0 <= fit.pasteX && fit.pasteX + fit.newWidth <= targetWidth
          && 0 <= fit.pasteY && fit.pasteY + fit.newHeight <= targetHeight
          && Letterboxed(r.value, fit, block)
          && forall row, col :: 0 <= row < fit.newHeight && 0 <= col < fit.newWidth ==>
               r.value.pixels[fit.pasteY + row, fit.pasteX + col] == block[row][col]
  {
    var fitted := FitSize(image.width, image.height, targetWidth, targetHeight);
    if fitted.Err? {
      return Err(fitted.msg);
    }
    var fit := fitted.value;
    FitIsCentred(image.width, image.height, targetWidth, targetHeight);
    var resized := resample(image, fit.newWidth, fit.newHeight);
    if resized.Err? {
      return Err(resized.msg);
    }
    var block := resized.value;
    assert IsGrid(block, fit.newWidth, fit.newHeight);
    var canvas := new Canvas.New("RGB", targetWidth, targetHeight, White);
    canvas.Paste(block, fit.pasteX, fit.pasteY);
    assert Letterboxed(canvas, fit, block);
    forall row, col | 0 <= row < fit.newHeight && 0 <= col < fit.newWidth
      ensures canvas.pixels[fit.pasteY + row, fit.pasteX + col] == block[row][col]
    {
      assert Covers(fit.pasteX, fit.pasteY, GridWidth(block), |block|, fit.pasteX + col, fit.pasteY + row);
    }
    r := Ok(canvas);
  }

  const DefaultMinSize: (int, int) := (256, 256)
  const DefaultMaxSize: (int, int) := (2048, 2048)

  /** Python's rendering of a pair, as in "(256, 256)". */
  function PairText(size: (int, int)): string
  {
    "(" + IntToString(size.0) + ", " + IntToString(size.1) + ")"
  }

  /** Lines 102-115: the too-small check on either side comes first, then the
      too-large check, then the mode; the bounds themselves are accepted, and
      the image is valid exactly when every check passes. */
  function ValidateImage(image: Image, minSize: (int, int), maxSize: (int, int)): (r: Result<bool>)
    ensures r.Ok? ==> r.value
    ensures r.Ok? <==>
      && minSize.0 <= image.width <= maxSize.0
      && minSize.1 <= image.height <= maxSize.1
      && (image.mode == "RGB" || image.mode == "RGBA")
    ensures image.width < minSize.0 || image.height < minSize.1 ==>
      r == Err("Image too small. Minimum size: " + PairText(minSize))
    ensures image.width >= minSize.0 && image.height >= minSize.1 && (image.width > maxSize.0 || image.height > maxSize.1) ==>
      r == Err("Image too large. Maximum size: " + PairText(maxSize))
    ensures r.Err? && minSize.0 <= image.width <= maxSize.0 && minSize.1 <= image.height <= maxSize.1 ==>
      r == Err("Image must be in RGB or RGBA format")
  {
    if image.width < minSize.0 || image.height < minSize.1 then
      Err("Image too small. Minimum size: " + PairText(minSize))
    else if image.width > maxSize.0 || image.height > maxSize.1 then
      Err("Image too large. Maximum size: " + PairText(maxSize))
    else if image.mode !in ["RGB", "RGBA"] then
      Err("Image must be in RGB or RGBA format")
    else
      Ok(true)
  }

  /** The default bounds 256 and 2048 are inclusive on both sides, and an
      image below them is refused with the text naming the default minimum. */
  lemma DefaultBoundsAreInclusive(mode: string)
    requires mode == "RGB" || mode == "RGBA"
    ensures ValidateImage(Image(256, 256, mode), DefaultMinSize, DefaultMaxSize) == Ok(true)
    ensures ValidateImage(Image(2048, 2048, mode), DefaultMinSize, DefaultMaxSize) == Ok(true)
    ensures ValidateImage(Image(255, 2048, mode), DefaultMinSize, DefaultMaxSize)
      == Err("Image too small. Minimum size: (256, 256)")
    ensures ValidateImage(Image(2048, 2049, mode), DefaultMinSize, DefaultMaxSize)
      == Err("Image too large. Maximum size: (2048, 2048)")
  {
    DefaultSizeTexts();
  }

  lemma DefaultSizeTexts()
    ensures PairText(DefaultMinSize) == "(256, 256)"
    ensures PairText(DefaultMaxSize) == "(2048, 2048)"
  {
    Text256();
    Text2048();
  }

  lemma Text256()
    ensures NatToString(256) == "256"
  {
    assert NatToString(2) == "2";
    assert NatToString(25) == "25";
  }

  lemma Text2048()
    ensures NatToString(2048) == "2048"
  {
    assert NatToString(2) == "2";
    assert NatToString(20) == "20";
    assert NatToString(204) == "204";
  }
}
