/**
 * The draw_me gallery helpers of the orchestrator (orchestrator/renderer/modules/gallery.js):
 * picking an image, listing the ids, and sizing a draw_me window from the image's
 * columns and lines. Numbers follow JavaScript's rules for division by zero, `Math.min`,
 * `Math.max`, `Math.floor` and `Math.ceil`, with exact reals in place of doubles.
 */
module Gallery {
  import opened Wrappers
  import Stats

  const DefaultFontSize: real := 10.0
  const MinFontSize: real := 4.0
  const CharWidthRatio: real := 0.6

  // ---------------------------------------------------------------------------
  // JavaScript numbers
  // ---------------------------------------------------------------------------

  /** A JavaScript number: finite, an infinity, or NaN. */
  datatype Num = Fin(v: real) | PosInf | NegInf | NaN

  /** `a / b`: division by zero gives an infinity of the sign of `a`, or NaN for 0 / 0. */
  function Div(a: real, b: real): (q: Num)
    ensures b != 0.0 ==> q == Fin(a / b)
    ensures b == 0.0 ==> (q == NaN <==> a == 0.0) && (q == PosInf <==> a > 0.0) && (q == NegInf <==> a < 0.0)
  {
    if b != 0.0 then Fin(a / b)
    else if a > 0.0 then PosInf
    else if a < 0.0 then NegInf
    else NaN
  }

  predicate Below(a: Num, b: Num)
    requires a != NaN && b != NaN
  {
    match (a, b)
    case (NegInf, _) => true
    case (_, PosInf) => true
    case (Fin(x), Fin(y)) => x <= y
    case _ => false
  }

  /** `Math.min`: NaN when either is NaN, else the smaller. */
  function MinNum(a: Num, b: Num): (m: Num)
    ensures m == NaN <==> a == NaN || b == NaN
    ensures m != NaN ==> (m == a || m == b) && Below(m, a) && Below(m, b)
  {
    if a == NaN || b == NaN then NaN else if Below(a, b) then a else b
  }

  /** `Math.max`: NaN when either is NaN, else the larger. */
  function MaxNum(a: Num, b: Num): (m: Num)
    ensures m == NaN <==> a == NaN || b == NaN
    ensures m != NaN ==> (m == a || m == b) && Below(a, m) && Below(b, m)
  {
    if a == NaN || b == NaN then NaN else if Below(a, b) then b else a
  }

  /** `Math.floor`: the largest integer not above a finite number; others unchanged. */
  function FloorNum(a: Num): (f: Num)
    ensures a.Fin? <==> f.Fin?
    ensures a.Fin? ==> f.v == a.v.Floor as real && f.v <= a.v < f.v + 1.0
    ensures !a.Fin? ==> f == a
  {
    if a.Fin? then Fin(a.v.Floor as real) else a
  }

  /** `Math.ceil` of a finite number. */
  function Ceil(x: real): (c: int)
    ensures c as real - 1.0 < x <= c as real
  {
    -((-x).Floor)
  }

  /** `x / d < y` is `x < d * y` for a positive divisor. */
  lemma QuotientBelow(x: real, d: real, y: real)
    requires d > 0.0
    ensures x / d < y <==> x < d * y
    ensures y <= x / d <==> d * y <= x
  {
    assert x == d * (x / d);
    if x / d < y {
      assert d * (x / d) < d * y;
    }
    if y <= x / d {
      assert d * y <= d * (x / d);
    }
  }

  // ---------------------------------------------------------------------------
  // Font size
  // ---------------------------------------------------------------------------

  /** `calculateFontSize`: the largest whole size, between 4 and 10, that fits both ways. */
  function FontSize(columns: int, numLines: nat, maxWidth: real, maxHeight: real): Num
  {
    var byWidth := Div(maxWidth, columns as real * CharWidthRatio);
    var byHeight := Div(maxHeight, numLines as real);
    MaxNum(Fin(MinFontSize), MinNum(Fin(DefaultFontSize), FloorNum(MinNum(byWidth, byHeight))))
  }

  /** The width of `columns` characters at size `fs`, before rounding. */
  function TextWidth(columns: int, fs: real): real
  {
    columns as real * CharWidthRatio * fs
  }

  /** Whether `columns` by `numLines` characters at size `fs` fit the box. */
  predicate Fits(columns: int, numLines: nat, maxWidth: real, maxHeight: real, fs: real)
  {
    TextWidth(columns, fs) <= maxWidth && numLines as real * fs <= maxHeight
  }

  /**
   * The size is a whole number from 4 to 10, except that a 0 / 0 quotient (no columns
   * and no width, or no lines and no height) makes it NaN.
   */
  lemma FontSizeRange(columns: int, numLines: nat, maxWidth: real, maxHeight: real)
    ensures var fs := FontSize(columns, numLines, maxWidth, maxHeight);
      && (fs == NaN <==> (columns == 0 && maxWidth == 0.0) || (numLines == 0 && maxHeight == 0.0))
      && (fs != NaN ==> fs.Fin? && MinFontSize <= fs.v <= DefaultFontSize && fs.v == fs.v.Floor as real)
  {
  }

  /** Unless it was raised to the minimum, the size fits the box. */
  lemma FontSizeFits(columns: int, numLines: nat, maxWidth: real, maxHeight: real)
    requires columns >= 0
    ensures var fs := FontSize(columns, numLines, maxWidth, maxHeight);
      fs.Fin? && fs.v > MinFontSize ==> Fits(columns, numLines, maxWidth, maxHeight, fs.v)
  {
    var fs := FontSize(columns, numLines, maxWidth, maxHeight);
    if fs.Fin? && fs.v > MinFontSize {
      var d := columns as real * CharWidthRatio;
      if columns > 0 {
        QuotientBelow(maxWidth, d, fs.v);
      }
      if numLines > 0 {
        QuotientBelow(maxHeight, numLines as real, fs.v);
      }
    }
  }

  /** Below the maximum, the next whole size up would not fit. */
  lemma FontSizeLargest(columns: int, numLines: nat, maxWidth: real, maxHeight: real)
    requires columns >= 0
    ensures var fs := FontSize(columns, numLines, maxWidth, maxHeight);
      fs.Fin? && fs.v < DefaultFontSize ==> !Fits(columns, numLines, maxWidth, maxHeight, fs.v + 1.0)
  {
    var fs := FontSize(columns, numLines, maxWidth, maxHeight);
    if fs.Fin? && fs.v < DefaultFontSize {
      var d := columns as real * CharWidthRatio;
      if columns > 0 {
        QuotientBelow(maxWidth, d, fs.v + 1.0);
      }
      if numLines > 0 {
        QuotientBelow(maxHeight, numLines as real, fs.v + 1.0);
      }
    }
  }

  // ---------------------------------------------------------------------------
  // Images
  // ---------------------------------------------------------------------------

  /** A gallery entry; `frames` is present for animated images. */
  datatype Image = Image(id: string, columns: int, lines: seq<string>, frames: Option<seq<seq<string>>>)

  /** The first image with `id`, or -1 (`find`). */
  function FindImage(images: seq<Image>, id: string): (i: int)
    ensures -1 <= i < |images|
    ensures i >= 0 ==> images[i].id == id && forall k :: 0 <= k < i ==> images[k].id != id
    ensures i == -1 ==> forall k :: 0 <= k < |images| ==> images[k].id != id
  {
    if |images| == 0 then -1
    else if images[0].id == id then 0
    else
      var i := FindImage(images[1..], id);
      if i == -1 then -1 else i + 1
  }

  /** Whether `imageId` asks for one image: truthy and not 'random' (`None` is the default). */
  predicate Requests(imageId: Option<string>)
  {
    imageId.Some? && imageId.value != "" && imageId.value != "random"
  }

  /**
   * `getGalleryImage`: `gallery` is `None` until the gallery is loaded (or when it has no
   * `images`); `pick` stands for the draw of `Math.random()`.
   */
  function GetGalleryImage(gallery: Option<seq<Image>>, imageId: Option<string>, pick: real): Option<Image>
    requires 0.0 <= pick < 1.0
  {
    if gallery.None? || |gallery.value| == 0 then None
    else
      var images := gallery.value;
      var found := if Requests(imageId) then FindImage(images, imageId.value) else -1;
      if found >= 0 then Some(images[found])
      else Some(images[Stats.PickIndex(pick, |images|)])
  }

  /**
   * No image exactly when the gallery is unloaded or empty; a requested id that exists
   * gives its first entry; anything else gives some entry of the gallery.
   */
  lemma GetGalleryImageSpec(gallery: Option<seq<Image>>, imageId: Option<string>, pick: real)
    requires 0.0 <= pick < 1.0
    ensures var r := GetGalleryImage(gallery, imageId, pick);
      && (r.None? <==> gallery.None? || |gallery.value| == 0)
      && (r.Some? ==> r.value in gallery.value)
      && (r.Some? && Requests(imageId) && (exists k :: 0 <= k < |gallery.value| && gallery.value[k].id == imageId.value) ==>
            r.value == gallery.value[FindImage(gallery.value, imageId.value)] && r.value.id == imageId.value)
  {
  }

  /** `getGalleryImageIds`: the ids in gallery order, or none while unloaded. */
  function GetGalleryImageIds(gallery: Option<seq<Image>>): (ids: seq<string>)
    ensures gallery.None? ==> ids == []
    ensures gallery.Some? ==> |ids| == |gallery.value| && forall k :: 0 <= k < |ids| ==> ids[k] == gallery.value[k].id
  {
    if gallery.None? then [] else seq(|gallery.value|, k requires 0 <= k < |gallery.value| => gallery.value[k].id)
  }

  // ---------------------------------------------------------------------------
  // Window dimensions
  // ---------------------------------------------------------------------------

  predicate IsAnimated(image: Image)
  {
    image.frames.Some? && |image.frames.value| > 0
  }

  /** The lines of the image's first frame: frame 0 when animated, else `lines`. */
  function FirstFrame(image: Image): seq<string>
  {
    if IsAnimated(image) then image.frames.value[0] else image.lines
  }

  datatype Dimensions = Dimensions(width: Num, height: Num, imageId: string, columns: int,
                                   numLines: nat, fontSize: Num, imageData: Image)

  /** `numLines * fontSize`. */
  function Scale(n: nat, fs: Num): Num
  {
    match fs
    case Fin(v) => Fin(n as real * v)
    case NaN => NaN
    case _ => if n == 0 then NaN else fs
  }

  /** `Math.ceil(columns * 0.6 * fontSize)`. */
  function CeilWidth(columns: int, fs: Num): Num
  {
    match fs
    case Fin(v) => Fin(Ceil(TextWidth(columns, v)) as real)
    case NaN => NaN
    case PosInf => if columns > 0 then PosInf else if columns < 0 then NegInf else NaN
    case NegInf => if columns > 0 then NegInf else if columns < 0 then PosInf else NaN
  }

  /** Lines 78-101 of `calculateDrawMeDimensions`: the dimensions of one image. */
  function Measure(image: Image, maxWidth: real, maxHeight: real): Dimensions
  {
    var numLines := |FirstFrame(image)|;
    var fs := FontSize(image.columns, numLines, maxWidth, maxHeight);
    Dimensions(CeilWidth(image.columns, fs), Scale(numLines, fs), image.id, image.columns, numLines, fs, image)
  }

  /**
   * `calculateDrawMeDimensions`: null exactly while the gallery is unloaded or empty;
   * otherwise the measurements of one gallery image, the requested one when it exists,
   * at a font size that is a whole number from 4 to 10 unless a 0 / 0 quotient makes it NaN.
   */
  function DrawMeDimensions(gallery: Option<seq<Image>>, imageId: Option<string>, pick: real,
                            maxWidth: real, maxHeight: real): (d: Option<Dimensions>)
    requires 0.0 <= pick < 1.0
    ensures d.None? <==> gallery.None? || |gallery.value| == 0
    ensures d.Some? ==> d.value.imageData in gallery.value && d.value.imageId == d.value.imageData.id
    ensures d.Some? && Requests(imageId) && (exists k :: 0 <= k < |gallery.value| && gallery.value[k].id == imageId.value) ==>
      d.value.imageData == gallery.value[FindImage(gallery.value, imageId.value)] && d.value.imageId == imageId.value
    ensures d.Some? ==>
      var image := d.value.imageData;
      && d.value.columns == image.columns
      && d.value.numLines == (if IsAnimated(image) then |image.frames.value[0]| else |image.lines|)
      && (d.value.fontSize == NaN <==>
            (image.columns == 0 && maxWidth == 0.0) || (d.value.numLines == 0 && maxHeight == 0.0))
      && (d.value.fontSize != NaN ==>
            d.value.fontSize.Fin? && MinFontSize <= d.value.fontSize.v <= DefaultFontSize
            && d.value.fontSize.v == d.value.fontSize.v.Floor as real)
  {
    GetGalleryImageSpec(gallery, imageId, pick);
    match GetGalleryImage(gallery, imageId, pick)
    case None => None
    case Some(image) =>
      MeasureSpec(image, maxWidth, maxHeight);
      FontSizeRange(image.columns, |FirstFrame(image)|, maxWidth, maxHeight);
      Some(Measure(image, maxWidth, maxHeight))
  }

  /**
   * The line count is that of the first frame of an animated image, else of its lines;
   * the height is lines times size, and the width the smallest whole number of pixels
   * that holds the columns at that size.
   */
  lemma MeasureSpec(image: Image, maxWidth: real, maxHeight: real)
    ensures var d := Measure(image, maxWidth, maxHeight);
      && d.imageData == image && d.imageId == image.id && d.columns == image.columns
      && d.numLines == (if IsAnimated(image) then |image.frames.value[0]| else |image.lines|)
      && d.fontSize == FontSize(image.columns, d.numLines, maxWidth, maxHeight)
      && (d.fontSize.Fin? ==>
            && d.height == Fin(d.numLines as real * d.fontSize.v)
            && d.width.Fin?
            && d.width.v - 1.0 < TextWidth(image.columns, d.fontSize.v) <= d.width.v)
  {
  }

  /**
   * Unless the size was raised to the minimum, the window stays inside the box: the
   * height within the height, the width within the width's ceiling.
   */
  lemma MeasureFits(image: Image, maxWidth: real, maxHeight: real)
    requires image.columns >= 0
    ensures var d := Measure(image, maxWidth, maxHeight);
      d.fontSize.Fin? && d.fontSize.v > MinFontSize ==>
        d.height.v <= maxHeight && d.width.v <= Ceil(maxWidth) as real
  {
    var n := |FirstFrame(image)|;
    var fs := FontSize(image.columns, n, maxWidth, maxHeight);
    if fs.Fin? && fs.v > MinFontSize {
      FontSizeFits(image.columns, n, maxWidth, maxHeight);
      ScaledFits(image.columns, n, maxWidth, maxHeight, fs.v);
    }
  }

  /** At a size that fits, the scaled height and the rounded-up width stay inside the box. */
  lemma ScaledFits(columns: int, numLines: nat, maxWidth: real, maxHeight: real, fs: real)
    requires Fits(columns, numLines, maxWidth, maxHeight, fs)
    ensures Scale(numLines, Fin(fs)).v <= maxHeight
    ensures CeilWidth(columns, Fin(fs)).v <= Ceil(maxWidth) as real
  {
    CeilMonotone(TextWidth(columns, fs), maxWidth);
  }

  lemma CeilMonotone(x: real, y: real)
    requires x <= y
    ensures Ceil(x) <= Ceil(y)
  {
  }
}
