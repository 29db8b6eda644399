// Quality image views, the face region in pixels, and the two pixel scans over it.
module ImageStatistics {
  import opened Wrappers
  import opened Cancellation
  import opened Arithmetic

  datatype QualityError =
    | Cancelled
    | InvalidConfig
    | InvalidGeometry
    | FaceBoxOutsideImage
    | InvalidYuyvDimensions(width: nat)
    | InvalidImageDimensions(width: nat, height: nat)
    | AbsoluteImageLimitExceeded(actual: nat, maximum: nat)
    | ConfiguredImageLimitExceeded(actual: nat, maximum: nat)
    | ImageLengthMismatch(expected: nat, actual: nat)
    | FaceRegionTooSmall(width: nat, height: nat)

  const ABSOLUTE_MAX_IMAGE_PIXELS := 16_777_216
  const ABSOLUTE_MAX_IMAGE_DIMENSION := 8_192
  const LUMA_LEVELS := 256
  const CANCEL_CHECK_PIXELS := 4_096

  datatype Encoding = Gray | Rgb | Yuyv

  datatype ImageView = ImageView(encoding: Encoding, width: u32, height: u32, pixels: seq<u8>)

  function Channels(encoding: Encoding): (n: nat) {
    match encoding
    case Gray => 1
    case Rgb => 3
    case Yuyv => 2
  }

  predicate Packed(view: ImageView) {
    && 1 <= view.width <= ABSOLUTE_MAX_IMAGE_DIMENSION
    && 1 <= view.height <= ABSOLUTE_MAX_IMAGE_DIMENSION
    && Area(view.width, view.height) <= ABSOLUTE_MAX_IMAGE_PIXELS
    && |view.pixels| == Area(view.width, view.height) * Channels(view.encoding)
    && (view.encoding.Yuyv? ==> view.width % 2 == 0)
  }

  function ValidateImageLayout(width: u32, height: u32, actual: nat, channels: nat): (r: Result<Unit, QualityError>) {
    if width == 0 || height == 0 || width > ABSOLUTE_MAX_IMAGE_DIMENSION || height > ABSOLUTE_MAX_IMAGE_DIMENSION
    then Failure(InvalidImageDimensions(width, height))
    else if Area(width, height) > ABSOLUTE_MAX_IMAGE_PIXELS
    then Failure(AbsoluteImageLimitExceeded(Area(width, height), ABSOLUTE_MAX_IMAGE_PIXELS))
    else if actual != Area(width, height) * channels
    then Failure(ImageLengthMismatch(Area(width, height) * channels, actual))
    else Success(Unit)
  }

  function NewView(encoding: Encoding, width: u32, height: u32, pixels: seq<u8>): (r: Result<ImageView, QualityError>)
    ensures r.Success? <==> Packed(ImageView(encoding, width, height, pixels))
    ensures r.Success? ==> r.value == ImageView(encoding, width, height, pixels)
    // A refusal names the measurement that is off.
    ensures r.Failure? ==>
              match r.error
              case InvalidYuyvDimensions(odd) => encoding.Yuyv? && odd == width && width % 2 == 1
              case InvalidImageDimensions(w, h) =>
                w == width && h == height && !(1 <= width <= 8_192 && 1 <= height <= 8_192)
              case AbsoluteImageLimitExceeded(actual, maximum) =>
                actual == Area(width, height) && maximum == 4_096 * 4_096 && actual > maximum
              case ImageLengthMismatch(expected, actual) =>
                expected == Area(width, height) * Channels(encoding) && actual == |pixels| && expected != actual
              case _ => false
  {
    if encoding.Yuyv? && width % 2 != 0 then Failure(InvalidYuyvDimensions(width))
    else
      match ValidateImageLayout(width, height, |pixels|, Channels(encoding))
      case Failure(e) => Failure(e)
      case Success(_) => Success(ImageView(encoding, width, height, pixels))
  }

  lemma ScaledBelow(i: nat, n: nat, channels: nat)
    requires i < n && 0 < channels
    ensures i * channels + (channels - 1) < n * channels
  {
    assert (i + 1) * channels <= n * channels;
  }

  lemma BytesInRange(x: nat, y: nat, width: nat, height: nat, channels: nat)
    requires x < width && y < height && 0 < channels
    ensures Flat(x, y, width) < Area(width, height)
    ensures Flat(x, y, width) * channels + (channels - 1) < Area(width, height) * channels
  {
    FlatInRange(x, y, width, height);
    hide Flat;
    hide Area;
    ScaledBelow(Flat(x, y, width), Area(width, height), channels);
  }

  // The luma of one pixel; RGB through integer weights that add up to 256.
  function Luma(view: ImageView, x: nat, y: nat): (l: u8)
    requires Packed(view) && x < view.width && y < view.height
  {
    BytesInRange(x, y, view.width, view.height, Channels(view.encoding));
    var index := Flat(x, y, view.width) * Channels(view.encoding);
    match view.encoding
    case Gray => view.pixels[index]
    case Yuyv => view.pixels[index]
    case Rgb =>
      var red: int, green: int, blue: int := view.pixels[index], view.pixels[index + 1], view.pixels[index + 2];
      (77 * red + 150 * green + 29 * blue + 128) / 256
  }

  // The luma of an RGB pixel lies between its darkest and its brightest channel.
  lemma RgbLumaIsAMean(view: ImageView, x: nat, y: nat, low: u8, high: u8)
    requires Packed(view) && view.encoding.Rgb? && x < view.width && y < view.height
    ensures
      var i := Flat(x, y, view.width) * 3;
      && i + 2 < |view.pixels|
      && ((forall c :: i <= c <= i + 2 ==> low <= view.pixels[c] <= high) ==> low <= Luma(view, x, y) <= high)
  {
    BytesInRange(x, y, view.width, view.height, 3);
  }

  // And it is within one level of the luma ITU-R BT.601 defines.
  lemma RgbLumaIsBt601(view: ImageView, x: nat, y: nat)
    requires Packed(view) && view.encoding.Rgb? && x < view.width && y < view.height
    ensures
      var i := Flat(x, y, view.width) * 3;
      && i + 2 < |view.pixels|
      && -1.0 <= Luma(view, x, y) as real
                 - (0.299 * view.pixels[i] as real + 0.587 * view.pixels[i + 1] as real
                    + 0.114 * view.pixels[i + 2] as real) <= 1.0
  {
    BytesInRange(x, y, view.width, view.height, 3);
    var i := Flat(x, y, view.width) * 3;
    RoundedLuma(view.pixels[i], view.pixels[i + 1], view.pixels[i + 2]);
  }

  lemma RoundedLuma(red: u8, green: u8, blue: u8)
    ensures -1.0 <= ((77 * red + 150 * green + 29 * blue + 128) / 256) as real
                    - (0.299 * red as real + 0.587 * green as real + 0.114 * blue as real) <= 1.0
  {
    var v: int := 77 * red + 150 * green + 29 * blue + 128;
    assert 256 * (v / 256) <= v < 256 * (v / 256) + 256;
  }

  // Every other luma is the pixel's own byte: the only one of a gray pixel, the first of a YUYV pixel.
  lemma LumaIsTheFirstByte(view: ImageView, x: nat, y: nat)
    requires Packed(view) && !view.encoding.Rgb? && x < view.width && y < view.height
    ensures var i := (y * view.width + x) * (if view.encoding.Yuyv? then 2 else 1);
            i < |view.pixels| && Luma(view, x, y) == view.pixels[i]
  {
    BytesInRange(x, y, view.width, view.height, Channels(view.encoding));
  }

  // ---------------------------------------------------------------- regions

  datatype Region = Region(left: nat, right: nat, top: nat, bottom: nat) {
    function Width(): (w: nat) { if left <= right then right - left else 0 }

    function Height(): (h: nat) { if top <= bottom then bottom - top else 0 }

    predicate Inside(view: ImageView) {
      left < right <= view.width && top < bottom <= view.height
    }
  }

  lemma AreaIsMonotone(width: nat, height: nat, width': nat, height': nat)
    requires width <= width' && height <= height'
    ensures Area(width, height) <= Area(width', height')
  {
    assert width * height <= width' * height <= width' * height';
  }

  lemma RegionIsBounded(view: ImageView, region: Region)
    requires Packed(view) && region.Inside(view)
    ensures Area(region.Width(), region.Height()) <= ABSOLUTE_MAX_IMAGE_PIXELS
  {
    hide Area;
    AreaIsMonotone(region.Width(), region.Height(), view.width, view.height);
  }

  datatype FaceGeometry = FaceGeometry(
    centerX: real, centerY: real, width: real, height: real, yaw: real, pitch: real, roll: real,
    landmarkConfidence: real, visibleFraction: real)

  predicate Unit01(x: real) { 0.0 <= x <= 1.0 }

  // Admits a box of positive size that lies in the unit square, under angles and scores in range.
  function ValidateGeometry(g: FaceGeometry): (r: Result<Unit, QualityError>)
    ensures r.Success? <==>
              && 0.0 < g.width && g.width <= 2.0 * g.centerX && 2.0 * g.centerX + g.width <= 2.0
              && 0.0 < g.height && g.height <= 2.0 * g.centerY && 2.0 * g.centerY + g.height <= 2.0
              && Unit01(g.landmarkConfidence) && Unit01(g.visibleFraction)
              && -g.yaw <= 90.0 && g.yaw <= 90.0 && -g.pitch <= 90.0 && g.pitch <= 90.0
              && -g.roll <= 180.0 && g.roll <= 180.0
    ensures r == Failure(FaceBoxOutsideImage) ==>
              Unit01(g.centerX) && Unit01(g.centerY) && g.width > 0.0 && g.height > 0.0
  {
    if !(Unit01(g.centerX) && Unit01(g.centerY) && Unit01(g.width) && Unit01(g.height) && g.width != 0.0
         && g.height != 0.0
         && Unit01(g.landmarkConfidence) && Unit01(g.visibleFraction)
         && -90.0 <= g.yaw <= 90.0 && -90.0 <= g.pitch <= 90.0 && -180.0 <= g.roll <= 180.0)
    then Failure(InvalidGeometry)
    else if g.centerX < g.width / 2.0 || g.centerX + g.width / 2.0 > 1.0
         || g.centerY < g.height / 2.0 || g.centerY + g.height / 2.0 > 1.0
    then Failure(FaceBoxOutsideImage)
    else Success(Unit)
  }

  function Ceiling(x: real): (c: int)
    ensures x <= c as real < x + 1.0
  {
    -(-x).Floor
  }

  // The pixel span that covers [low, high], two fractions of an extent.
  function Span(low: real, high: real, extent: nat): (r: Result<(nat, nat), QualityError>) {
    var start, end := Product(low, extent as real).Floor, Ceiling(Product(high, extent as real));
    if start < 0 || start > extent || end < 0 || end > extent then Failure(InvalidGeometry)
    else Success((start, end))
  }

  function RegionFromGeometry(width: nat, height: nat, g: FaceGeometry): (r: Result<Region, QualityError>) {
    var x := Span(g.centerX - g.width / 2.0, g.centerX + g.width / 2.0, width);
    var y := Span(g.centerY - g.height / 2.0, g.centerY + g.height / 2.0, height);
    if x.Failure? || y.Failure? then Failure(InvalidGeometry)
    else if x.value.0 >= x.value.1 || y.value.0 >= y.value.1 then Failure(InvalidGeometry)
    else Success(Region(x.value.0, x.value.1, y.value.0, y.value.1))
  }

  lemma ScaledFraction(f: real, extent: nat)
    requires 0.0 <= f <= 1.0
    ensures 0.0 <= Product(f, extent as real) <= extent as real
  {
    ProductIsNotNegative(f, extent as real);
    ProductIsNotNegative(1.0 - f, extent as real);
    assert Product(1.0 - f, extent as real) == extent as real - Product(f, extent as real);
  }

  lemma ScaledOrder(f: real, g: real, extent: nat)
    requires f < g && 0 < extent
    ensures Product(f, extent as real) < Product(g, extent as real)
  {
  }

  lemma SpanCovers(low: real, high: real, extent: nat)
    requires 0.0 <= low < high <= 1.0 && 0 < extent
    ensures Span(low, high, extent).Success?
    ensures var (start, end) := Span(low, high, extent).value;
            && start < end <= extent
            && start as real <= Product(low, extent as real) < start as real + 1.0
            && end as real - 1.0 < Product(high, extent as real) <= end as real
  {
    ScaledFraction(low, extent);
    ScaledFraction(high, extent);
    ScaledOrder(low, high, extent);
    hide Product;
  }

  // A validated face box always names a region inside the image, the smallest that covers it.
  lemma ValidGeometryHasARegion(view: ImageView, g: FaceGeometry)
    requires Packed(view) && ValidateGeometry(g).Success?
    ensures RegionFromGeometry(view.width, view.height, g).Success?
    ensures RegionFromGeometry(view.width, view.height, g).value.Inside(view)
    ensures var r := RegionFromGeometry(view.width, view.height, g).value;
            && r.left as real <= Product(g.centerX - g.width / 2.0, view.width as real) < (r.left + 1) as real
            && (r.right - 1) as real < Product(g.centerX + g.width / 2.0, view.width as real) <= r.right as real
            && r.top as real <= Product(g.centerY - g.height / 2.0, view.height as real) < (r.top + 1) as real
            && (r.bottom - 1) as real < Product(g.centerY + g.height / 2.0, view.height as real) <= r.bottom as real
  {
    SpanCovers(g.centerX - g.width / 2.0, g.centerX + g.width / 2.0, view.width);
    SpanCovers(g.centerY - g.height / 2.0, g.centerY + g.height / 2.0, view.height);
  }

  // ---------------------------------------------------------------- the pixels of a region, in scan order

  ghost function Row(view: ImageView, y: nat, left: nat, right: nat): (s: seq<u8>)
    requires Packed(view) && left <= right <= view.width && y < view.height
    ensures |s| == right - left
  {
    seq<u8>(right - left, i requires 0 <= i < right - left => Luma(view, left + i, y))
  }

  ghost function Rows(view: ImageView, left: nat, right: nat, top: nat, bottom: nat): (s: seq<u8>)
    requires Packed(view) && left <= right <= view.width && top <= bottom <= view.height
    ensures |s| == Area(right - left, bottom - top)
    decreases bottom
  {
    if top == bottom then []
    else
      assert Area(right - left, bottom - top) == Area(right - left, bottom - 1 - top) + (right - left);
      Rows(view, left, right, top, bottom - 1) + Row(view, bottom - 1, left, right)
  }

  ghost function Lumas(view: ImageView, region: Region): (s: seq<u8>)
    requires Packed(view) && region.Inside(view)
  {
    Rows(view, region.left, region.right, region.top, region.bottom)
  }

  function Sum(s: seq<u8>): (n: nat) {
    if s == [] then 0 else Sum(s[..|s| - 1]) + s[|s| - 1]
  }

  lemma {:induction false} SumAppend(s: seq<u8>, l: u8)
    ensures Sum(s + [l]) == Sum(s) + l
  {
    assert (s + [l])[..|s|] == s;
  }

  lemma {:induction false} SumIsBounded(s: seq<u8>)
    ensures Sum(s) <= 255 * |s|
    decreases |s|
  {
    if s != [] { SumIsBounded(s[..|s| - 1]); }
  }

  // ---------------------------------------------------------------- the luma scan

  datatype LumaStatistics = LumaStatistics(histogram: seq<u32>, lumaSum: u32, pixelCount: u32)

  // The statistics of exactly these pixels.
  ghost predicate Describes(statistics: LumaStatistics, s: seq<u8>) {
    && |statistics.histogram| == LUMA_LEVELS
    && (forall v: u8 :: statistics.histogram[v] == multiset(s)[v])
    && statistics.lumaSum == Sum(s)
    && statistics.pixelCount == |s|
  }

  ghost predicate Tallied(histogram: seq<u32>, s: seq<u8>) {
    |histogram| == LUMA_LEVELS && forall v: u8 :: histogram[v] == multiset(s)[v]
  }

  lemma TallyAppend(histogram: seq<u32>, s: seq<u8>, l: u8)
    requires Tallied(histogram, s) && |s| < ABSOLUTE_MAX_IMAGE_PIXELS
    ensures histogram[l] < MAX_U32
    ensures Tallied(histogram[l := histogram[l] + 1], s + [l])
  {
    assert multiset(s)[l] <= |multiset(s)|;
    assert multiset(s + [l]) == multiset(s) + multiset{l};
  }

  method CheckCancelled(probe: CancelProbe, ghost start: nat) returns (r: Result<Unit, QualityError>)
    requires start <= probe.polls && Quiet(probe, start)
    modifies probe
    ensures probe.polls == old(probe.polls) + 1
    ensures r == if Quiet(probe, start) then Success(Unit) else Failure(Cancelled)
  {
    var stop := probe.ShouldCancel();
    r := if stop then Failure(Cancelled) else Success(Unit);
    assert stop ==> probe.fires(probe.polls - 1);
  }

  // One poll for every 4096 pixels, the first before the first pixel.
  predicate Paced(untilCheck: nat, scanned: nat, polls: int) {
    untilCheck + scanned == CANCEL_CHECK_PIXELS * polls && untilCheck < CANCEL_CHECK_PIXELS
  }

  // The cancellation poll before one pixel.
  method PollPixel(probe: CancelProbe, ghost start: nat, ghost base: nat, ghost scanned: nat, untilCheck: nat)
    returns (r: Result<nat, QualityError>)
    requires start <= probe.polls && Quiet(probe, start) && Paced(untilCheck, scanned, probe.polls - base)
    modifies probe
    ensures old(probe.polls) <= probe.polls
    ensures r == Failure(Cancelled)
            || (r.Success? && Quiet(probe, start) && Paced(r.value, scanned + 1, probe.polls - base))
    ensures r.Failure? ==> !Quiet(probe, start)
  {
    if untilCheck != 0 { return Success(untilCheck - 1); }
    var check := CheckCancelled(probe, start);
    r := if check.Failure? then Failure(check.error) else Success(CANCEL_CHECK_PIXELS - 1);
  }

  method AddPixel(histogram: array<u32>, lumaSum: u32, pixelCount: u32, luma: u8, ghost s: seq<u8>)
    returns (newSum: u32, newCount: u32)
    requires Describes(LumaStatistics(histogram[..], lumaSum, pixelCount), s) && |s| < ABSOLUTE_MAX_IMAGE_PIXELS
    modifies histogram
    ensures Describes(LumaStatistics(histogram[..], newSum, newCount), s + [luma])
  {
    TallyAppend(histogram[..], s, luma);
    SumAppend(s, luma);
    SumIsBounded(s + [luma]);
    histogram[luma] := histogram[luma] + 1;
    newSum, newCount := lumaSum + luma, pixelCount + 1;
  }

  lemma NoPixelsYet(histogram: seq<u32>)
    requires |histogram| == LUMA_LEVELS && forall v :: 0 <= v < LUMA_LEVELS ==> histogram[v] == 0
    ensures Describes(LumaStatistics(histogram, 0, 0), [])
  {
  }

  lemma PartialArea(width: nat, height: nat, rows: nat)
    requires rows < height
    ensures Area(width, rows) + width <= Area(width, height)
  {
    assert width * (rows + 1) <= width * height;
  }

  lemma RowsGrow(view: ImageView, region: Region, y: nat, x: nat)
    requires Packed(view) && region.Inside(view) && region.top <= y < region.bottom && region.left <= x < region.right
    ensures
      var s := Rows(view, region.left, region.right, region.top, y) + Row(view, y, region.left, x);
      && |s| < ABSOLUTE_MAX_IMAGE_PIXELS
      && s + [Luma(view, x, y)] ==
         Rows(view, region.left, region.right, region.top, y) + Row(view, y, region.left, x + 1)
  {
    RegionIsBounded(view, region);
    PartialArea(region.Width(), region.Height(), y - region.top);
    hide Area;
    hide Packed;
    hide Luma;
    hide Rows;
    assert Row(view, y, region.left, x + 1) == Row(view, y, region.left, x) + [Luma(view, x, y)];
  }

  lemma RowsAreEmpty(view: ImageView, region: Region)
    requires Packed(view) && region.Inside(view)
    ensures Rows(view, region.left, region.right, region.top, region.top) == []
  {
  }

  // A row starts with the rows above it and ends as one of them.
  lemma RowStarts(view: ImageView, region: Region, y: nat)
    requires Packed(view) && region.Inside(view) && region.top <= y < region.bottom
    ensures
      var above := Rows(view, region.left, region.right, region.top, y);
      && above + Row(view, y, region.left, region.left) == above
      && above + Row(view, y, region.left, region.right) == Rows(view, region.left, region.right, region.top, y + 1)
  {
    hide Packed;
    assert Row(view, y, region.left, region.left) == [];
  }

  method ScanLumaRow(view: ImageView, region: Region, y: nat, histogram: array<u32>, sumBefore: u32, countBefore: u32,
                     pauseBefore: nat, probe: CancelProbe, ghost start: nat, ghost base: nat)
    returns (r: Result<nat, QualityError>, lumaSum: u32, pixelCount: u32)
    requires Packed(view) && region.Inside(view) && region.top <= y < region.bottom
    requires start <= probe.polls && Quiet(probe, start)
    requires Describes(LumaStatistics(histogram[..], sumBefore, countBefore),
                       Rows(view, region.left, region.right, region.top, y))
    requires Paced(pauseBefore, |Rows(view, region.left, region.right, region.top, y)|, probe.polls - base)
    modifies probe, histogram
    ensures old(probe.polls) <= probe.polls
    ensures r.Success? <==> Quiet(probe, start)
    ensures r.Failure? ==> r.error == Cancelled
    ensures r.Success? ==>
              var s := Rows(view, region.left, region.right, region.top, y + 1);
              && Describes(LumaStatistics(histogram[..], lumaSum, pixelCount), s)
              && Paced(r.value, |s|, probe.polls - base)
  {
    hide Packed;
    hide Luma;
    hide Row;
    hide Rows;
    hide Quiet;
    hide Describes;
    hide Paced;
    hide Area;
    lumaSum, pixelCount := sumBefore, countBefore;
    var untilCheck := pauseBefore;
    ghost var above := Rows(view, region.left, region.right, region.top, y);
    RowStarts(view, region, y);
    for x := region.left to region.right
      invariant old(probe.polls) <= probe.polls && Quiet(probe, start)
      invariant Describes(LumaStatistics(histogram[..], lumaSum, pixelCount), above + Row(view, y, region.left, x))
      invariant Paced(untilCheck, |above + Row(view, y, region.left, x)|, probe.polls - base)
    {
      ghost var scanned := above + Row(view, y, region.left, x);
      RowsGrow(view, region, y, x);
      var poll := PollPixel(probe, start, base, |scanned|, untilCheck);
      if poll.Failure? { return Failure(poll.error), lumaSum, pixelCount; }
      untilCheck := poll.value;
      lumaSum, pixelCount := AddPixel(histogram, lumaSum, pixelCount, Luma(view, x, y), scanned);
    }
    r := Success(untilCheck);
  }

  lemma PollsByPixels(untilCheck: nat, scanned: nat, polls: int)
    requires Paced(untilCheck, scanned, polls)
    ensures polls == (scanned + CANCEL_CHECK_PIXELS - 1) / CANCEL_CHECK_PIXELS
  {
  }

  // The statistics of exactly the region's pixels, unless cancelled; one poll for every 4096 pixels.
  method ScanLuma(view: ImageView, region: Region, probe: CancelProbe, ghost start: nat)
    returns (r: Result<LumaStatistics, QualityError>)
    requires Packed(view) && region.Inside(view)
    requires start <= probe.polls && Quiet(probe, start)
    modifies probe
    ensures old(probe.polls) <= probe.polls
    ensures r.Success? <==> Quiet(probe, start)
    ensures r.Failure? ==> r.error == Cancelled
    ensures r.Success? ==> Describes(r.value, Lumas(view, region))
    ensures r.Success? ==>
              probe.polls - old(probe.polls) == (|Lumas(view, region)| + CANCEL_CHECK_PIXELS - 1) / CANCEL_CHECK_PIXELS
  {
    hide Packed;
    hide Rows;
    hide Quiet;
    hide Describes;
    hide Area;
    var histogram := new u32[LUMA_LEVELS](_ => 0);
    var lumaSum: u32, pixelCount: u32, untilCheck: nat := 0, 0, 0;
    ghost var base := probe.polls;
    NoPixelsYet(histogram[..]);
    RowsAreEmpty(view, region);
    assert Paced(0, 0, 0);
    hide Paced;
    for y := region.top to region.bottom
      invariant start <= probe.polls && base <= probe.polls && Quiet(probe, start)
      invariant Describes(LumaStatistics(histogram[..], lumaSum, pixelCount),
                          Rows(view, region.left, region.right, region.top, y))
      invariant Paced(untilCheck, |Rows(view, region.left, region.right, region.top, y)|, probe.polls - base)
    {
      var pause;
      pause, lumaSum, pixelCount :=
        ScanLumaRow(view, region, y, histogram, lumaSum, pixelCount, untilCheck, probe, start, base);
      if pause.Failure? { return Failure(pause.error); }
      untilCheck := pause.value;
    }
    PollsByPixels(untilCheck, |Lumas(view, region)|, probe.polls - base);
    r := Success(LumaStatistics(histogram[..], lumaSum, pixelCount));
  }
}
