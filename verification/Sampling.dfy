// Source pixels, interpolation axes and bilinear sampling, over exact integers and reals.
module Sampling {
  import opened Wrappers
  import opened Arithmetic

  datatype ImageFormat = Gray8 | Rgb8 | Bgr8 | Yuyv

  datatype ColorSpace = Grayscale | Rgb | Bgr

  datatype InferenceError =
    | InputTensorInvalid | SourceImageInvalid | Cancelled | FaceRegionInvalid
    | AlignmentInvalid | AlignmentIncompatible | AlignmentResidualExceeded | AlignmentOutsideImage

  datatype ImageView = ImageView(width: u32, height: u32, format: ImageFormat, bytes: seq<u8>)

  const MAX_SOURCE_DIMENSION := 4096

  function BytesPerPixel(format: ImageFormat): (n: nat) {
    match format
    case Gray8 => 1
    case Yuyv => 2
    case Rgb8 => 3
    case Bgr8 => 3
  }

  // A tightly packed, bounded source image whose pixel kind fits the model's colour space.
  predicate Packed(image: ImageView, color: ColorSpace) {
    && 1 <= image.width <= MAX_SOURCE_DIMENSION
    && 1 <= image.height <= MAX_SOURCE_DIMENSION
    && (image.format.Yuyv? ==> image.width % 2 == 0)
    && |image.bytes| == image.width * image.height * BytesPerPixel(image.format)
    && (color.Grayscale? <==> image.format.Gray8?)
  }

  function ChannelCount(color: ColorSpace): (n: nat) {
    if color.Grayscale? then 1 else 3
  }

  // ---------------------------------------------------------------- pixels

  function ByteAt(image: ImageView, index: nat): (r: Result<u8, InferenceError>) {
    if index < |image.bytes| then Success(image.bytes[index]) else Failure(SourceImageInvalid)
  }

  function ClampByte(value: int): (b: u8)
    ensures 0 <= value <= 255 ==> b == value
  {
    if value < 0 then 0 else if value > 255 then 255 else value
  }

  // BT.601 limited-range conversion to red, green and blue.
  function Converted(luma: u8, blue: u8, red: u8): (rgb: seq<u8>)
    ensures |rgb| == 3
  {
    var scaled := Max(luma - 16, 0);
    var blueDelta := blue - 128;
    var redDelta := red - 128;
    [ClampByte((298 * scaled + 409 * redDelta + 128) / 256),
     ClampByte((298 * scaled - 100 * blueDelta - 208 * redDelta + 128) / 256),
     ClampByte((298 * scaled + 516 * blueDelta + 128) / 256)]
  }

  // One pixel of a YUYV pair.
  function YuyvRgb(image: ImageView, column: nat, row: nat): (r: Result<seq<u8>, InferenceError>)
    ensures r.Success? ==> |r.value| == 3
  {
    var base := (row * (image.width / 2) + column / 2) * 4;
    var luma := ByteAt(image, if column % 2 == 0 then base else base + 2);
    var blue := ByteAt(image, base + 1);
    var red := ByteAt(image, base + 3);
    if luma.Failure? || blue.Failure? || red.Failure? then Failure(SourceImageInvalid)
    else Success(Converted(luma.value, blue.value, red.value))
  }

  function SourceRgb(image: ImageView, x: nat, y: nat): (r: Result<seq<u8>, InferenceError>)
    requires !image.format.Gray8?
    ensures r.Success? ==> |r.value| == 3
  {
    if image.format.Yuyv? then YuyvRgb(image, x, y)
    else
      var base := (y * image.width + x) * 3;
      var first, second, third := ByteAt(image, base), ByteAt(image, base + 1), ByteAt(image, base + 2);
      if first.Failure? || second.Failure? || third.Failure? then Failure(SourceImageInvalid)
      else if image.format.Rgb8? then Success([first.value, second.value, third.value])
      else Success([third.value, second.value, first.value])
  }

  function SourceChannel(image: ImageView, x: nat, y: nat, channel: nat, color: ColorSpace)
    : (r: Result<u8, InferenceError>)
  {
    if image.format.Gray8? then ByteAt(image, y * image.width + x)
    else
      var rgb := SourceRgb(image, x, y);
      if rgb.Failure? || color.Grayscale? || channel >= 3 then Failure(SourceImageInvalid)
      else Success(if color.Rgb? then rgb.value[channel] else rgb.value[2 - channel])
  }

  // The bytes of one YUYV pixel pair sit where tight packing puts them: each pixel's luma at twice
  // its row-major index, both chroma bytes between and after, shared by the pair.
  lemma YuyvIsTightlyPacked(image: ImageView, column: nat, row: nat)
    requires image.width % 2 == 0
    ensures
      var base := (row * (image.width / 2) + column / 2) * 4;
      && (if column % 2 == 0 then base else base + 2) == 2 * (row * image.width + column)
      && base == 2 * (row * image.width + (column - column % 2))
  {
    assert image.width == 2 * (image.width / 2);
    assert row * image.width == 2 * (row * (image.width / 2));
  }

  lemma YuyvBytesInRange(image: ImageView, column: nat, row: nat)
    requires Packed(image, Rgb) && image.format.Yuyv? && column < image.width && row < image.height
    ensures (row * (image.width / 2) + column / 2) * 4 + 3 < |image.bytes|
  {
    YuyvIsTightlyPacked(image, column, row);
    FlatInRange(column - column % 2 + 1, row, image.width, image.height);
  }

  lemma PackedBytesInRange(image: ImageView, x: nat, y: nat, n: nat)
    requires x < image.width && y < image.height && n == BytesPerPixel(image.format)
    requires |image.bytes| == image.width * image.height * n
    ensures (y * image.width + x) * n + (n - 1) < |image.bytes|
  {
    FlatInRange(x, y, image.width, image.height);
    var index, pixels := y * image.width + x, image.width * image.height;
    assert (index + 1) * n <= pixels * n;
  }

  // No byte outside the buffer is ever asked for.
  lemma SourceChannelIsInRange(image: ImageView, x: nat, y: nat, channel: nat, color: ColorSpace)
    requires Packed(image, color) && x < image.width && y < image.height && channel < ChannelCount(color)
    ensures SourceChannel(image, x, y, channel, color).Success?
  {
    if image.format.Yuyv? {
      YuyvBytesInRange(image, x, y);
    } else {
      PackedBytesInRange(image, x, y, BytesPerPixel(image.format));
    }
  }

  // Channels come out in the order the model asks for, whichever order the image stores them in.
  lemma ChannelOrder(image: ImageView, x: nat, y: nat, channel: nat)
    requires Packed(image, Rgb) && x < image.width && y < image.height && channel < 3
    ensures SourceChannel(image, x, y, channel, Bgr) == SourceChannel(image, x, y, 2 - channel, Rgb)
    ensures !image.format.Yuyv? ==>
              var base := (y * image.width + x) * 3;
              && base + 2 < |image.bytes|
              && SourceChannel(image, x, y, channel, Rgb) ==
                 Success(image.bytes[if image.format.Rgb8? then base + channel else base + 2 - channel])
  {
    if !image.format.Yuyv? { PackedBytesInRange(image, x, y, 3); }
  }

  // Without chroma a pixel is gray: black exactly up to luma 16, white exactly from luma 235, and
  // never darker for more luma.
  lemma NeutralChromaIsGray(luma: u8, brighter: u8)
    requires luma <= brighter
    ensures
      var gray := Converted(luma, 128, 128);
      && gray[0] == gray[1] == gray[2] <= Converted(brighter, 128, 128)[0]
      && (gray[0] == 0 <==> luma <= 16) && (gray[0] == 255 <==> luma >= 235)
  {
  }

  // The three bytes a YUYV pixel is made of, by its row-major position: its own luma, and the chroma it
  // shares with the other pixel of its pair.
  predicate YuyvPixel(image: ImageView, x: nat, y: nat) {
    Packed(image, Rgb) && image.format.Yuyv? && x < image.width && y < image.height
  }

  function PairStart(image: ImageView, x: nat, y: nat): (i: nat) { 2 * Flat(x - x % 2, y, image.width) }

  lemma YuyvBytesExist(image: ImageView, x: nat, y: nat)
    requires YuyvPixel(image, x, y)
    ensures 2 * Flat(x, y, image.width) < |image.bytes| && PairStart(image, x, y) + 3 < |image.bytes|
    ensures PairStart(image, x, y) == (y * (image.width / 2) + x / 2) * 4
    ensures 2 * Flat(x, y, image.width) == PairStart(image, x, y) + 2 * (x % 2)
  {
    YuyvIsTightlyPacked(image, x, y);
    YuyvBytesInRange(image, x, y);
  }

  function LumaByte(image: ImageView, x: nat, y: nat): (b: u8)
    requires YuyvPixel(image, x, y)
  {
    YuyvBytesExist(image, x, y);
    image.bytes[2 * Flat(x, y, image.width)]
  }

  function BlueByte(image: ImageView, x: nat, y: nat): (b: u8)
    requires YuyvPixel(image, x, y)
  {
    YuyvBytesExist(image, x, y);
    image.bytes[PairStart(image, x, y) + 1]
  }

  function RedByte(image: ImageView, x: nat, y: nat): (b: u8)
    requires YuyvPixel(image, x, y)
  {
    YuyvBytesExist(image, x, y);
    image.bytes[PairStart(image, x, y) + 3]
  }

  function Clamp(c: real, maximum: real): (r: real)
    requires 0.0 <= maximum
    ensures 0.0 <= r <= maximum
  {
    if c < 0.0 then 0.0 else if c > maximum then maximum else c
  }

  // The real matrix of ITU-R BT.601 for limited-range luma, red, green and blue.
  function Bt601(luma: real, blue: real, red: real, channel: nat): (v: real) {
    var scaled := 1.164 * Larger(luma - 16.0, 0.0);
    match channel
    case 0 => scaled + 1.596 * (red - 128.0)
    case 1 => scaled - 0.392 * (blue - 128.0) - 0.813 * (red - 128.0)
    case _ => scaled + 2.017 * (blue - 128.0)
  }

  lemma RoundedIsClose(value: int, exact: real)
    requires -120.0 <= value as real - 256.0 * exact <= 120.0
    ensures -1.0 <= ClampByte((value + 128) / 256) as real - Clamp(exact, 255.0) <= 1.0
  {
    var q := (value + 128) / 256;
    assert 256 * q <= value + 128 < 256 * q + 256;
  }

  lemma ConvertedIsClose(luma: u8, blue: u8, red: u8, channel: nat)
    requires channel < 3
    ensures -1.0 <= Converted(luma, blue, red)[channel] as real
                    - Clamp(Bt601(luma as real, blue as real, red as real, channel), 255.0) <= 1.0
  {
    var scaled, b, r := Max(luma - 16, 0), blue - 128, red - 128;
    var exact := Bt601(luma as real, blue as real, red as real, channel);
    if channel == 0 { RoundedIsClose(298 * scaled + 409 * r, exact); }
    else if channel == 1 { RoundedIsClose(298 * scaled - 100 * b - 208 * r, exact); }
    else { RoundedIsClose(298 * scaled + 516 * b, exact); }
  }

  lemma YuyvReads(image: ImageView, x: nat, y: nat, channel: nat)
    requires YuyvPixel(image, x, y) && channel < 3
    ensures SourceChannel(image, x, y, channel, Rgb) ==
            Success(Converted(LumaByte(image, x, y), BlueByte(image, x, y), RedByte(image, x, y))[channel])
  {
    YuyvBytesExist(image, x, y);
    hide Converted;
    hide Flat;
  }

  // Every channel of a YUYV pixel is within one level of the standard's real matrix.
  lemma YuyvIsBt601(image: ImageView, x: nat, y: nat, channel: nat)
    requires YuyvPixel(image, x, y) && channel < 3
    ensures var value := SourceChannel(image, x, y, channel, Rgb);
            var exact := Bt601(LumaByte(image, x, y) as real, BlueByte(image, x, y) as real,
                               RedByte(image, x, y) as real, channel);
            value.Success? && -1.0 <= value.value as real - Clamp(exact, 255.0) <= 1.0
  {
    YuyvReads(image, x, y, channel);
    ConvertedIsClose(LumaByte(image, x, y), BlueByte(image, x, y), RedByte(image, x, y), channel);
    hide Converted;
    hide Bt601;
    hide SourceChannel;
  }

  lemma SourceChannelsAreInRange(image: ImageView, x: nat, y: nat)
    requires YuyvPixel(image, x, y)
    ensures forall channel: nat :: channel < 3 ==> SourceChannel(image, x, y, channel, Rgb).Success?
  {
    forall channel: nat | channel < 3 ensures SourceChannel(image, x, y, channel, Rgb).Success? {
      SourceChannelIsInRange(image, x, y, channel, Rgb);
    }
  }

  // Red depends on luma and red chroma alone, and blue on luma and blue chroma; neither ever falls with
  // them. Green never falls with luma and never rises with either chroma.
  lemma YuyvChannelsAreMonotone(a: ImageView, b: ImageView, x: nat, y: nat, x': nat, y': nat)
    requires YuyvPixel(a, x, y) && YuyvPixel(b, x', y') && LumaByte(a, x, y) <= LumaByte(b, x', y')
    ensures forall channel: nat :: channel < 3 ==>
              SourceChannel(a, x, y, channel, Rgb).Success? && SourceChannel(b, x', y', channel, Rgb).Success?
    ensures RedByte(a, x, y) <= RedByte(b, x', y') ==>
              SourceChannel(a, x, y, 0, Rgb).value <= SourceChannel(b, x', y', 0, Rgb).value
    ensures BlueByte(a, x, y) <= BlueByte(b, x', y') ==>
              SourceChannel(a, x, y, 2, Rgb).value <= SourceChannel(b, x', y', 2, Rgb).value
    ensures BlueByte(a, x, y) >= BlueByte(b, x', y') && RedByte(a, x, y) >= RedByte(b, x', y') ==>
              SourceChannel(a, x, y, 1, Rgb).value <= SourceChannel(b, x', y', 1, Rgb).value
  {
    SourceChannelsAreInRange(a, x, y);
    SourceChannelsAreInRange(b, x', y');
    var (la, ba, ra) := (LumaByte(a, x, y), BlueByte(a, x, y), RedByte(a, x, y));
    var (lb, bb, rb) := (LumaByte(b, x', y'), BlueByte(b, x', y'), RedByte(b, x', y'));
    hide *;
    YuyvReads(a, x, y, 0);
    YuyvReads(b, x', y', 0);
    YuyvReads(a, x, y, 1);
    YuyvReads(b, x', y', 1);
    YuyvReads(a, x, y, 2);
    YuyvReads(b, x', y', 2);
    ConvertedIsMonotone(la, ba, ra, lb, bb, rb);
  }

  lemma ConvertedIsMonotone(luma: u8, blue: u8, red: u8, luma': u8, blue': u8, red': u8)
    requires luma <= luma'
    ensures red <= red' ==> Converted(luma, blue, red)[0] <= Converted(luma', blue', red')[0]
    ensures blue <= blue' ==> Converted(luma, blue, red)[2] <= Converted(luma', blue', red')[2]
    ensures blue >= blue' && red >= red' ==> Converted(luma, blue, red)[1] <= Converted(luma', blue', red')[1]
  {
  }

  // The saturated primaries of the standard.
  lemma YuyvPrimaries()
    ensures Converted(81, 90, 240) == [255, 0, 0]
    ensures Converted(145, 54, 34) == [0, 255, 1]
    ensures Converted(41, 240, 110) == [0, 0, 255]
    ensures Converted(235, 128, 128) == [255, 255, 255] && Converted(16, 128, 128) == [0, 0, 0]
  {
  }

  // The channel the model asks for, once the image is known to be packed.
  function Pixel(image: ImageView, x: nat, y: nat, channel: nat, color: ColorSpace): (v: real)
    requires Packed(image, color) && x < image.width && y < image.height && channel < ChannelCount(color)
    ensures 0.0 <= v <= 255.0
  {
    SourceChannelIsInRange(image, x, y, channel, color);
    SourceChannel(image, x, y, channel, color).value as real
  }

  // ---------------------------------------------------------------- interpolation axes

  // The two source coordinates to blend and the weight of the second one.
  datatype Axis = Axis(lower: nat, upper: nat, weight: real)

  // The integer half-pixel axis, with its narrowing fallbacks.
  function InterpolationAxis(target: nat, targetExtent: nat, sourceExtent: nat): (a: Axis)
    requires 0 < targetExtent && 0 < sourceExtent
  {
    var denominator := targetExtent * 2;
    var numerator := (target * 2 + 1) * sourceExtent - targetExtent;
    var rawLower := numerator / denominator;
    if rawLower < 0 then Axis(0, 0, 0.0)
    else
      var lower := Min(if rawLower > MAX_U32 then sourceExtent - 1 else rawLower, sourceExtent - 1);
      if lower == sourceExtent - 1 then Axis(lower, lower, 0.0)
      else
        var remainder := if numerator % denominator > MAX_U16 then 0 else numerator % denominator;
        var divisor := if denominator > MAX_U16 then 1 else denominator;
        Axis(lower, lower + 1, remainder as real / divisor as real)
  }

  // The floating axis for an arbitrary source coordinate.
  function FloatingAxis(coordinate: real, extent: nat): (a: Axis)
    requires 0 < extent
  {
    var clamped := Clamp(coordinate, (extent - 1) as real);
    var lower: nat := clamped.Floor;
    Axis(lower, Min(lower + 1, extent - 1), clamped - lower as real)
  }

  // The centre of a target cell, as a fraction of the target extent.
  function CellCenter(target: nat, targetExtent: nat): (c: real)
    requires 0 < targetExtent
  {
    (target as real + 0.5) / targetExtent as real
  }

  // The same centre as a source pixel coordinate.
  function SourceCoordinate(normalized: real, extent: nat): (c: real) {
    normalized * extent as real - 0.5
  }

  // An axis stands for the real source coordinate `c`.
  ghost predicate Denotes(a: Axis, c: real, extent: nat) {
    && a.lower as real + a.weight == c
    && 0.0 <= a.weight < 1.0
    && a.lower <= a.upper < extent
    && (a.weight > 0.0 ==> a.upper == a.lower + 1)
  }

  lemma FloatingAxisDenotes(coordinate: real, extent: nat)
    requires 0 < extent
    ensures Denotes(FloatingAxis(coordinate, extent), Clamp(coordinate, (extent - 1) as real), extent)
  {
    var clamped := Clamp(coordinate, (extent - 1) as real);
    assert clamped.Floor as real <= clamped < clamped.Floor as real + 1.0;
    assert clamped.Floor <= extent - 1;
  }

  lemma QuotientAndRemainder(n: int, d: int)
    requires d > 0
    ensures (n / d) as real + (n % d) as real / d as real == n as real / d as real
    ensures 0.0 <= (n % d) as real / d as real < 1.0
  {
    var q, r, e := (n / d) as real, (n % d) as real, d as real;
    assert n == n / d * d + n % d;
    assert n as real == q * e + r;
    assert (q * e + r) / e == q + r / e;
    assert r < e && r / e * e == r;
  }

  // The exact half-pixel coordinate, as the fraction the integer axis divides.
  lemma HalfPixelFraction(target: nat, targetExtent: nat, sourceExtent: nat)
    requires 0 < targetExtent
    ensures SourceCoordinate(CellCenter(target, targetExtent), sourceExtent) ==
            ((target * 2 + 1) * sourceExtent - targetExtent) as real / (targetExtent * 2) as real
  {
    var t, e, s := target as real, targetExtent as real, sourceExtent as real;
    assert ((target * 2 + 1) * sourceExtent - targetExtent) as real == (t * 2.0 + 1.0) * s - e;
    assert (targetExtent * 2) as real == e * 2.0;
    var c := (t + 0.5) / e;
    assert c * e == t + 0.5;
    assert (c * s - 0.5) * (e * 2.0) == (c * e) * s * 2.0 - e == (t * 2.0 + 1.0) * s - e;
  }

  lemma ProductBounds(x: nat, y: nat, mx: nat, my: nat)
    requires x <= mx && y <= my
    ensures 0 <= x * y <= mx * my
  {
    assert x * y <= mx * y <= mx * my;
  }

  lemma NumeratorBounds(target: nat, targetExtent: nat, sourceExtent: nat)
    requires 0 < targetExtent <= 4096 && 0 < sourceExtent <= MAX_SOURCE_DIMENSION && target < targetExtent
    ensures -4096 <= (target * 2 + 1) * sourceExtent - targetExtent < 8192 * 4096
  {
    ProductBounds(target * 2 + 1, sourceExtent, 8191, 4096);
  }

  lemma DivisionIdentity(n: int, d: nat)
    requires 0 < d
    ensures n / d * d + n % d == n && 0 <= n % d < d
  {
  }

  lemma QuotientAtMost(q: int, r: int, d: nat, n: int, bound: nat)
    requires 0 < d && q * d + r == n && 0 <= r && n <= bound
    ensures q <= bound
  {
    assert q >= 0 ==> q * d >= q;
  }

  lemma QuotientBounds(n: int, d: nat)
    requires 0 < d && n < 8192 * 4096
    ensures n / d <= 8192 * 4096 && 0 <= n % d < d
  {
    DivisionIdentity(n, d);
    QuotientAtMost(n / d, n % d, d, n, 8192 * 4096);
  }

  // An axis built from a quotient, its remainder and the last source index denotes the clamped value.
  lemma QuotientAxisDenotes(q: int, w: real, c: real, extent: nat, a: Axis)
    requires 0 < extent && c == q as real + w && 0.0 <= w < 1.0
    requires a == if q < 0 then Axis(0, 0, 0.0)
                  else if q >= extent - 1 then Axis(extent - 1, extent - 1, 0.0)
                  else Axis(q, q + 1, w)
    ensures Denotes(a, Clamp(c, (extent - 1) as real), extent)
  {
    if q < 0 { assert q as real <= -1.0; }
  }

  // Integer interpolation is exact: it denotes the clamped half-pixel coordinate, and for every
  // admitted tensor width no narrowing conversion falls back.
  lemma InterpolationAxisIsExact(target: nat, targetExtent: nat, sourceExtent: nat)
    requires 0 < targetExtent <= 4096 && 0 < sourceExtent <= MAX_SOURCE_DIMENSION && target < targetExtent
    ensures Denotes(InterpolationAxis(target, targetExtent, sourceExtent),
                    Clamp(SourceCoordinate(CellCenter(target, targetExtent), sourceExtent), (sourceExtent - 1) as real),
                    sourceExtent)
  {
    var d := targetExtent * 2;
    var n := (target * 2 + 1) * sourceExtent - targetExtent;
    NumeratorBounds(target, targetExtent, sourceExtent);
    QuotientBounds(n, d);
    HalfPixelFraction(target, targetExtent, sourceExtent);
    QuotientAndRemainder(n, d);
    var w := (n % d) as real / d as real;
    var c := SourceCoordinate(CellCenter(target, targetExtent), sourceExtent);
    hide SourceCoordinate;
    hide Clamp;
    hide Denotes;
    QuotientAxisDenotes(n / d, w, c, sourceExtent, InterpolationAxis(target, targetExtent, sourceExtent));
  }

  // A coordinate determines its lower neighbour and weight.
  lemma DenotationIsUnique(a: Axis, b: Axis, c: real, extent: nat)
    requires Denotes(a, c, extent) && Denotes(b, c, extent)
    ensures a.lower == b.lower && a.weight == b.weight
    ensures a.weight > 0.0 ==> a == b
  {
  }

  // ---------------------------------------------------------------- bilinear sampling

  function Mix(first: real, second: real, weight: real): (m: real) {
    first * (1.0 - weight) + second * weight
  }

  function Bilinear(image: ImageView, h: Axis, v: Axis, channel: nat, color: ColorSpace): (p: real)
    requires Packed(image, color) && channel < ChannelCount(color)
    requires h.lower < image.width && h.upper < image.width && v.lower < image.height && v.upper < image.height
  {
    Mix(Mix(Pixel(image, h.lower, v.lower, channel, color), Pixel(image, h.upper, v.lower, channel, color), h.weight),
        Mix(Pixel(image, h.lower, v.upper, channel, color), Pixel(image, h.upper, v.upper, channel, color), h.weight),
        v.weight)
  }

  lemma MixShares(first: real, second: real, weight: real, base: real)
    ensures Mix(first, second, weight) - base == Product(first - base, 1.0 - weight) + Product(second - base, weight)
    ensures base - Mix(first, second, weight) == Product(base - first, 1.0 - weight) + Product(base - second, weight)
  {
  }

  lemma MixIsBetween(first: real, second: real, weight: real, low: real, high: real)
    requires 0.0 <= weight <= 1.0 && low <= first <= high && low <= second <= high
    ensures low <= Mix(first, second, weight) <= high
  {
    hide Mix;
    hide Product;
    MixShares(first, second, weight, low);
    MixShares(first, second, weight, high);
    ProductIsNotNegative(first - low, 1.0 - weight);
    ProductIsNotNegative(second - low, weight);
    ProductIsNotNegative(high - first, 1.0 - weight);
    ProductIsNotNegative(high - second, weight);
  }

  lemma MixWithoutWeight(first: real, second: real, other: real)
    ensures Mix(first, second, 0.0) == first == Mix(first, other, 0.0)
  {
  }

  // Every sampled value is a convex combination of its four source samples, hence within 0..=255.
  lemma BilinearIsConvex(image: ImageView, h: Axis, v: Axis, channel: nat, color: ColorSpace, low: real, high: real)
    requires Packed(image, color) && channel < ChannelCount(color)
    requires h.lower < image.width && h.upper < image.width && v.lower < image.height && v.upper < image.height
    requires 0.0 <= h.weight <= 1.0 && 0.0 <= v.weight <= 1.0
    requires low <= Pixel(image, h.lower, v.lower, channel, color) <= high
    requires low <= Pixel(image, h.upper, v.lower, channel, color) <= high
    requires low <= Pixel(image, h.lower, v.upper, channel, color) <= high
    requires low <= Pixel(image, h.upper, v.upper, channel, color) <= high
    ensures low <= Bilinear(image, h, v, channel, color) <= high
  {
    hide Pixel;
    hide Mix;
    MixIsBetween(Pixel(image, h.lower, v.lower, channel, color), Pixel(image, h.upper, v.lower, channel, color),
                 h.weight, low, high);
    MixIsBetween(Pixel(image, h.lower, v.upper, channel, color), Pixel(image, h.upper, v.upper, channel, color),
                 h.weight, low, high);
    MixIsBetween(
      Mix(Pixel(image, h.lower, v.lower, channel, color), Pixel(image, h.upper, v.lower, channel, color), h.weight),
      Mix(Pixel(image, h.lower, v.upper, channel, color), Pixel(image, h.upper, v.upper, channel, color), h.weight),
      v.weight, low, high);
  }

  // Axes that denote the same coordinates give the same sample, whichever code computed them.
  lemma BilinearDependsOnCoordinates(image: ImageView, h: Axis, h': Axis, v: Axis, v': Axis, x: real, y: real,
                                     channel: nat, color: ColorSpace)
    requires Packed(image, color) && channel < ChannelCount(color)
    requires Denotes(h, x, image.width) && Denotes(h', x, image.width)
    requires Denotes(v, y, image.height) && Denotes(v', y, image.height)
    ensures Bilinear(image, h, v, channel, color) == Bilinear(image, h', v', channel, color)
  {
    DenotationIsUnique(h, h', x, image.width);
    DenotationIsUnique(v, v', y, image.height);
    hide Pixel;
    hide Mix;
    if h.weight == 0.0 {
      MixWithoutWeight(Pixel(image, h.lower, v.lower, channel, color), Pixel(image, h.upper, v.lower, channel, color),
                       Pixel(image, h'.upper, v.lower, channel, color));
      MixWithoutWeight(Pixel(image, h.lower, v.upper, channel, color), Pixel(image, h.upper, v.upper, channel, color),
                       Pixel(image, h'.upper, v.upper, channel, color));
    }
    assert Bilinear(image, h, v, channel, color) == Bilinear(image, h', v, channel, color);
    if v.weight == 0.0 {
      var top := Mix(Pixel(image, h'.lower, v.lower, channel, color), Pixel(image, h'.upper, v.lower, channel, color),
                     h'.weight);
      MixWithoutWeight(
        top,
        Mix(Pixel(image, h'.lower, v.upper, channel, color), Pixel(image, h'.upper, v.upper, channel, color),
            h'.weight),
        Mix(Pixel(image, h'.lower, v'.upper, channel, color), Pixel(image, h'.upper, v'.upper, channel, color),
            h'.weight));
    }
  }
}
