// Whole-image, region and aligned preprocessing into one fixed tensor.
module Preprocess {
  import opened Wrappers
  import opened Cancellation
  import opened Arithmetic
  import opened Similarity
  import opened Sampling
  import opened TensorLayouts

  // ---------------------------------------------------------------- what a tensor must hold

  // Which part of the source image a tensor cell looks at.
  datatype Placement =
    | Whole
    | Region(left: real, top: real, width: real, height: real)
    | Aligned(transform: SimilarityTransform)

  predicate PlacementOk(p: Placement) {
    p.Aligned? ==> p.transform.Determinant() != 0.0
  }

  function Affine(c: real, extent: real, start: real): (p: real) { c * extent + start }

  // The normalized source position of a tensor cell's centre.
  function SourcePosition(contract: InputContract, p: Placement, x: nat, y: nat): (q: Point)
    requires ValidContract(contract) && PlacementOk(p)
  {
    var center := Point(CellCenter(x, contract.width), CellCenter(y, contract.height));
    match p
    case Whole => center
    case Region(left, top, width, height) => Point(Affine(center.x, width, left), Affine(center.y, height, top))
    case Aligned(transform) => transform.Inverse(center)
  }

  // The bilinear image value at a normalized position: half-pixel centres, clamped at the border.
  function ImageValue(image: ImageView, color: ColorSpace, q: Point, channel: nat): (v: real)
    requires Packed(image, color) && channel < ChannelCount(color)
  {
    Bilinear(image, FloatingAxis(SourceCoordinate(q.x, image.width), image.width),
             FloatingAxis(SourceCoordinate(q.y, image.height), image.height), channel, color)
  }

  function Normalized(contract: InputContract, pixel: real, channel: nat): (v: real)
    requires ValidContract(contract) && channel < contract.channels
  {
    pixel * contract.scale[channel] + contract.bias[channel]
  }

  function CellValue(contract: InputContract, image: ImageView, p: Placement, x: nat, y: nat, channel: nat): (v: real)
    requires ValidContract(contract) && PlacementOk(p) && Packed(image, contract.colorSpace)
             && channel < contract.channels
  {
    Normalized(contract, ImageValue(image, contract.colorSpace, SourcePosition(contract, p, x, y), channel), channel)
  }

  ghost predicate IsTensor(contract: InputContract, image: ImageView, p: Placement, values: seq<real>)
    requires ValidContract(contract) && PlacementOk(p) && Packed(image, contract.colorSpace)
  {
    && |values| == ElementCount(contract)
    && forall x: nat, y: nat, channel: nat :: IsCell(contract, x, y, channel) ==>
         (TensorIndexInRange(contract, x, y, channel);
          values[TensorIndex(contract, x, y, channel)]) == CellValue(contract, image, p, x, y, channel)
  }

  // The pixel value a tensor value stands for.
  function Pixel(contract: InputContract, value: real, channel: nat): (pixel: real)
    requires ValidContract(contract) && channel < contract.channels
  {
    (value - contract.bias[channel]) / contract.scale[channel]
  }

  lemma NormalizationIsInverted(contract: InputContract, pixel: real, channel: nat)
    requires ValidContract(contract) && channel < contract.channels
    ensures Pixel(contract, Normalized(contract, pixel, channel), channel) == pixel
  {
    var scale, bias := contract.scale[channel], contract.bias[channel];
    assert scale != 0.0;
    hide ValidContract;
    QuotientOfProduct(pixel, scale, bias);
  }

  lemma CellHolds(contract: InputContract, image: ImageView, p: Placement, values: seq<real>,
                  x: nat, y: nat, channel: nat)
    requires ValidContract(contract) && PlacementOk(p) && Packed(image, contract.colorSpace)
    requires IsTensor(contract, image, p, values) && IsCell(contract, x, y, channel)
    ensures TensorIndex(contract, x, y, channel) < |values|
    ensures values[TensorIndex(contract, x, y, channel)] == CellValue(contract, image, p, x, y, channel)
  {
    TensorIndexInRange(contract, x, y, channel);
    hide TensorIndex;
    hide CellValue;
  }

  // Normalization loses nothing: the image value is read back from its cell of the tensor.
  lemma PixelsCanBeReadBack(contract: InputContract, image: ImageView, p: Placement, values: seq<real>,
                            x: nat, y: nat, channel: nat)
    requires ValidContract(contract) && PlacementOk(p) && Packed(image, contract.colorSpace)
    requires IsTensor(contract, image, p, values) && IsCell(contract, x, y, channel)
    ensures TensorIndex(contract, x, y, channel) < |values|
    ensures Pixel(contract, values[TensorIndex(contract, x, y, channel)], channel)
            == ImageValue(image, contract.colorSpace, SourcePosition(contract, p, x, y), channel)
  {
    CellHolds(contract, image, p, values, x, y, channel);
    var pixel := ImageValue(image, contract.colorSpace, SourcePosition(contract, p, x, y), channel);
    NormalizationIsInverted(contract, pixel, channel);
    assert CellValue(contract, image, p, x, y, channel) == Normalized(contract, pixel, channel);
    hide *;
  }

  lemma QuotientOfProduct(pixel: real, scale: real, bias: real)
    requires scale != 0.0
    ensures (pixel * scale + bias - bias) / scale == pixel
  {
  }

  // The cells of a region divide its box evenly, each centred half a cell in, and lie inside it.
  lemma RegionCellsDivideTheBox(contract: InputContract, p: Placement, x: nat, y: nat)
    requires ValidContract(contract) && p.Region? && 0.0 < p.width && 0.0 < p.height
    requires x < contract.width && y < contract.height
    ensures var q := SourcePosition(contract, p, x, y);
            && (q.x - p.left) * (2 * contract.width) as real == (2 * x + 1) as real * p.width
            && (q.y - p.top) * (2 * contract.height) as real == (2 * y + 1) as real * p.height
            && p.left < q.x < p.left + p.width && p.top < q.y < p.top + p.height
  {
    var q := SourcePosition(contract, p, x, y);
    CenterDivides(x, contract.width, p.width, q.x - p.left);
    CenterDivides(y, contract.height, p.height, q.y - p.top);
  }

  lemma CenterDivides(i: nat, n: nat, extent: real, offset: real)
    requires i < n && 0.0 < extent && offset == CellCenter(i, n) * extent
    ensures offset * (2 * n) as real == (2 * i + 1) as real * extent
    ensures 0.0 < offset < extent
  {
    CenterIsInside(i, n);
    hide CellCenter;
    FractionOfExtent(CellCenter(i, n), (2 * n) as real, (2 * i + 1) as real, extent, offset);
  }

  lemma CenterIsInside(i: nat, n: nat)
    requires i < n
    ensures 0.0 < CellCenter(i, n) < 1.0
    ensures Product(CellCenter(i, n), (2 * n) as real) == (2 * i + 1) as real
  {
    var numerator, denominator := i as real + 0.5, n as real;
    QuotientTimes(numerator, denominator);
    assert (2 * n) as real == 2.0 * denominator;
    DoubledFactor(numerator / denominator, denominator);
  }

  lemma QuotientTimes(numerator: real, denominator: real)
    requires 0.0 < numerator < denominator
    ensures 0.0 < numerator / denominator < 1.0
    ensures Product(numerator / denominator, denominator) == numerator
  {
    var c := numerator / denominator;
    assert Product(c, denominator) == numerator;
    if c <= 0.0 { ProductIsNotNegative(-c, denominator); }
    if c >= 1.0 { ProductIsNotNegative(c - 1.0, denominator); }
  }

  lemma DoubledFactor(c: real, n: real)
    ensures Product(c, 2.0 * n) == 2.0 * Product(c, n)
  {
  }

  lemma FractionOfExtent(c: real, m: real, k: real, extent: real, offset: real)
    requires 0.0 < c < 1.0 && 0.0 < extent && Product(c, m) == k && offset == c * extent
    ensures offset * m == k * extent
    ensures 0.0 < offset < extent
  {
    assert offset * m == c * m * extent;
    ProductIsPositive(c, extent);
    ProductIsPositive(1.0 - c, extent);
    assert Product(1.0 - c, extent) == extent - offset;
  }

  // A box given inside another box, as a box of the whole image.
  function WithinBox(outer: Placement, inner: Placement): (p: Placement)
    requires outer.Region? && inner.Region?
  {
    Region(outer.left + inner.left * outer.width, outer.top + inner.top * outer.height,
           inner.width * outer.width, inner.height * outer.height)
  }

  // Cropping a crop is cropping once: a cell of the inner box lies where the outer box takes the point
  // that the inner box alone would give it.
  lemma CropsCompose(contract: InputContract, outer: Placement, inner: Placement, x: nat, y: nat)
    requires ValidContract(contract) && outer.Region? && inner.Region?
    ensures var once := SourcePosition(contract, WithinBox(outer, inner), x, y);
            var q := SourcePosition(contract, inner, x, y);
            once == Point(outer.left + q.x * outer.width, outer.top + q.y * outer.height)
  {
    var a, b := CellCenter(x, contract.width), CellCenter(y, contract.height);
    assert a * (inner.width * outer.width) == a * inner.width * outer.width;
    assert b * (inner.height * outer.height) == b * inner.height * outer.height;
  }

  // The contents of a tensor are determined: equal placements of the cells give equal tensors.
  lemma TensorIsDetermined(contract: InputContract, image: ImageView, p: Placement, q: Placement,
                           values: seq<real>, values': seq<real>)
    requires ValidContract(contract) && PlacementOk(p) && PlacementOk(q) && Packed(image, contract.colorSpace)
    requires IsTensor(contract, image, p, values) && IsTensor(contract, image, q, values')
    requires forall x: nat, y: nat :: x < contract.width && y < contract.height ==>
               SourcePosition(contract, p, x, y) == SourcePosition(contract, q, x, y)
    ensures values == values'
  {
    hide SourcePosition;
    hide ImageValue;
    hide Normalized;
    hide ElementCount;
    hide TensorIndex;
    forall i | 0 <= i < |values| ensures values[i] == values'[i] {
      var x, y, channel := TensorIndexSurjective(contract, i);
      assert CellValue(contract, image, p, x, y, channel) == CellValue(contract, image, q, x, y, channel);
    }
  }

  lemma SamePositions(contract: InputContract, other: InputContract, p: Placement, x: nat, y: nat)
    requires ValidContract(contract) && ValidContract(other) && PlacementOk(p)
    requires contract.width == other.width && contract.height == other.height
    ensures SourcePosition(contract, p, x, y) == SourcePosition(other, p, x, y)
  {
  }

  // A cell's value does not depend on the layout of the tensor it is stored in.
  lemma ValueIgnoresLayout(contract: InputContract, layout: TensorLayout, image: ImageView, p: Placement,
                           x: nat, y: nat, channel: nat)
    requires ValidContract(contract) && PlacementOk(p) && Packed(image, contract.colorSpace)
             && channel < contract.channels
    ensures ValidContract(contract.(layout := layout))
    ensures CellValue(contract.(layout := layout), image, p, x, y, channel) ==
            CellValue(contract, image, p, x, y, channel)
  {
    hide ImageValue;
    hide CellCenter;
    hide Area;
    hide Packed;
    SamePositions(contract, contract.(layout := layout), p, x, y);
    hide SourcePosition;
  }

  lemma CellOfTensor(contract: InputContract, image: ImageView, p: Placement, values: seq<real>, x: nat, y: nat,
                     channel: nat)
    requires ValidContract(contract) && PlacementOk(p) && Packed(image, contract.colorSpace)
    requires IsTensor(contract, image, p, values) && IsCell(contract, x, y, channel)
    ensures TensorIndex(contract, x, y, channel) < |values|
    ensures values[TensorIndex(contract, x, y, channel)] == CellValue(contract, image, p, x, y, channel)
  {
    hide CellValue;
    hide TensorIndex;
    TensorIndexInRange(contract, x, y, channel);
  }

  // The planar and the interleaved tensor are transposes of each other.
  lemma LayoutsAreTransposes(contract: InputContract, image: ImageView, p: Placement,
                             planar: seq<real>, interleaved: seq<real>, x: nat, y: nat, channel: nat)
    requires ValidContract(contract) && PlacementOk(p) && Packed(image, contract.colorSpace)
    requires ValidContract(contract.(layout := Nchw)) && ValidContract(contract.(layout := Nhwc))
    requires IsTensor(contract.(layout := Nchw), image, p, planar)
    requires IsTensor(contract.(layout := Nhwc), image, p, interleaved)
    requires IsCell(contract, x, y, channel)
    ensures
      var pixel := Flat(x, y, contract.width);
      var i, j := Flat(pixel, channel, Area(contract.width, contract.height)), Flat(channel, pixel, contract.channels);
      i < |planar| && j < |interleaved| && planar[i] == interleaved[j]
  {
    hide Flat;
    hide Area;
    hide CellValue;
    CellOfTensor(contract.(layout := Nchw), image, p, planar, x, y, channel);
    CellOfTensor(contract.(layout := Nhwc), image, p, interleaved, x, y, channel);
    ValueIgnoresLayout(contract, Nchw, image, p, x, y, channel);
    ValueIgnoresLayout(contract, Nhwc, image, p, x, y, channel);
  }

  // Before normalization every tensor value lies within the pixel range.
  lemma ImageValueInRange(image: ImageView, color: ColorSpace, q: Point, channel: nat)
    requires Packed(image, color) && channel < ChannelCount(color)
    ensures 0.0 <= ImageValue(image, color, q, channel) <= 255.0
  {
    var h := FloatingAxis(SourceCoordinate(q.x, image.width), image.width);
    var v := FloatingAxis(SourceCoordinate(q.y, image.height), image.height);
    FloatingAxisDenotes(SourceCoordinate(q.x, image.width), image.width);
    FloatingAxisDenotes(SourceCoordinate(q.y, image.height), image.height);
    hide FloatingAxis;
    BilinearIsConvex(image, h, v, channel, color, 0.0, 255.0);
  }

  // ---------------------------------------------------------------- filling the buffer

  ghost predicate Before(x: nat, y: nat, channel: nat, x': nat, y': nat, channel': nat) {
    y < y' || (y == y' && (x < x' || (x == x' && channel < channel')))
  }

  // Every cell the loops visit before (x, y, channel) holds its value.
  ghost predicate Filled(contract: InputContract, image: ImageView, p: Placement, values: seq<real>, x: nat, y: nat,
                         channel: nat)
    requires ValidContract(contract) && PlacementOk(p) && Packed(image, contract.colorSpace)
  {
    && |values| == ElementCount(contract)
    && forall x': nat, y': nat, channel': nat ::
         IsCell(contract, x', y', channel') && Before(x', y', channel', x, y, channel) ==>
         (TensorIndexInRange(contract, x', y', channel');
          values[TensorIndex(contract, x', y', channel')]) == CellValue(contract, image, p, x', y', channel')
  }

  lemma NothingFilled(contract: InputContract, image: ImageView, p: Placement, values: seq<real>)
    requires ValidContract(contract) && PlacementOk(p) && Packed(image, contract.colorSpace)
             && |values| == ElementCount(contract)
    ensures Filled(contract, image, p, values, 0, 0, 0)
  {
  }

  lemma FilledStep(contract: InputContract, image: ImageView, p: Placement, values: seq<real>, x: nat, y: nat,
                   channel: nat,
                   written: seq<real>)
    requires ValidContract(contract) && PlacementOk(p) && Packed(image, contract.colorSpace)
    requires Filled(contract, image, p, values, x, y, channel) && IsCell(contract, x, y, channel)
    requires TensorIndex(contract, x, y, channel) < |values|
    requires written == values[TensorIndex(contract, x, y, channel) := CellValue(contract, image, p, x, y, channel)]
    ensures Filled(contract, image, p, written, x, y, channel + 1)
  {
    hide TensorIndex;
    hide CellValue;
    hide ElementCount;
    forall x': nat, y': nat, channel': nat
      | IsCell(contract, x', y', channel') && Before(x', y', channel', x, y, channel + 1)
      ensures TensorIndex(contract, x', y', channel') < |written|
      ensures written[TensorIndex(contract, x', y', channel')] == CellValue(contract, image, p, x', y', channel')
    {
      TensorIndexInRange(contract, x', y', channel');
      if TensorIndex(contract, x', y', channel') == TensorIndex(contract, x, y, channel) {
        TensorIndexInjective(contract, x, y, channel, x', y', channel');
      }
    }
  }

  // The end of a loop over channels or columns is the start of the next column or row.
  lemma FilledCarries(contract: InputContract, image: ImageView, p: Placement, values: seq<real>, x: nat, y: nat)
    requires ValidContract(contract) && PlacementOk(p) && Packed(image, contract.colorSpace)
    ensures Filled(contract, image, p, values, x, y, contract.channels) ==>
              Filled(contract, image, p, values, x + 1, y, 0)
    ensures Filled(contract, image, p, values, contract.width, y, 0) ==> Filled(contract, image, p, values, 0, y + 1, 0)
    ensures Filled(contract, image, p, values, 0, contract.height, 0) ==> IsTensor(contract, image, p, values)
  {
    hide TensorIndex;
    hide CellValue;
    hide ElementCount;
  }

  method WriteTensorValue(contract: InputContract, values: array<real>, x: nat, y: nat, channel: nat, pixel: real)
    requires ValidContract(contract) && IsCell(contract, x, y, channel) && values.Length == ElementCount(contract)
    modifies values
    ensures TensorIndex(contract, x, y, channel) < |old(values[..])|
    ensures values[..] == old(values[..])[TensorIndex(contract, x, y, channel) := Normalized(contract, pixel, channel)]
  {
    TensorIndexInRange(contract, x, y, channel);
    hide TensorIndex;
    hide Normalized;
    hide ElementCount;
    values[TensorIndex(contract, x, y, channel)] := Normalized(contract, pixel, channel);
  }

  // ---------------------------------------------------------------- input validation

  function ValidateInputs(contract: InputContract, image: ImageView): (r: Result<nat, InferenceError>) {
    if contract.width == 0 || contract.height == 0 || |contract.scale| != contract.channels
        || |contract.bias| != contract.channels
    then Failure(InputTensorInvalid)
    else if image.width == 0 || image.height == 0 || image.width > MAX_SOURCE_DIMENSION
        || image.height > MAX_SOURCE_DIMENSION
    then Failure(SourceImageInvalid)
    else
      var pixels := image.width * image.height;
      if image.format.Yuyv? && image.width % 2 != 0 then Failure(SourceImageInvalid)
      else
        var expected := match image.format
          case Gray8 => pixels
          case Rgb8 => pixels * 3
          case Bgr8 => pixels * 3
          case Yuyv => pixels * 2;
        if |image.bytes| != expected || contract.colorSpace.Grayscale? != image.format.Gray8?
        then Failure(SourceImageInvalid)
        else Success(contract.channels)
  }

  // Validation admits exactly the packed images.
  lemma ValidationAdmitsPackedImages(contract: InputContract, image: ImageView)
    requires ValidContract(contract)
    ensures ValidateInputs(contract, image) ==
            if Packed(image, contract.colorSpace) then Success(contract.channels) else Failure(SourceImageInvalid)
  {
  }

  // ---------------------------------------------------------------- the three loops

  // The integer axes of a whole-image cell sample the same value the floating axes do.
  lemma WholeCellSample(contract: InputContract, image: ImageView, x: nat, y: nat, channel: nat, h: Axis, v: Axis)
    requires ValidContract(contract) && Packed(image, contract.colorSpace) && IsCell(contract, x, y, channel)
    requires h == InterpolationAxis(x, contract.width, image.width)
    requires v == InterpolationAxis(y, contract.height, image.height)
    ensures h.lower < image.width && h.upper < image.width && v.lower < image.height && v.upper < image.height
    ensures Bilinear(image, h, v, channel, contract.colorSpace) ==
            ImageValue(image, contract.colorSpace, SourcePosition(contract, Whole, x, y), channel)
  {
    var q := SourcePosition(contract, Whole, x, y);
    var cx, cy := SourceCoordinate(q.x, image.width), SourceCoordinate(q.y, image.height);
    InterpolationAxisIsExact(x, contract.width, image.width);
    InterpolationAxisIsExact(y, contract.height, image.height);
    FloatingAxisDenotes(cx, image.width);
    FloatingAxisDenotes(cy, image.height);
    hide InterpolationAxis;
    hide FloatingAxis;
    hide SourceCoordinate;
    hide Clamp;
    hide Bilinear;
    hide Packed;
    BilinearDependsOnCoordinates(image, h, FloatingAxis(cx, image.width), v, FloatingAxis(cy, image.height),
                                 Clamp(cx, (image.width - 1) as real), Clamp(cy, (image.height - 1) as real),
                                 channel, contract.colorSpace);
  }

  method CheckCancelled(probe: CancelProbe, ghost start: nat) returns (r: Result<Unit, InferenceError>)
    requires start <= probe.polls && Quiet(probe, start)
    modifies probe
    ensures probe.polls == old(probe.polls) + 1
    ensures r == if Quiet(probe, start) then Success(Unit) else Failure(Cancelled)
  {
    var stop := probe.ShouldCancel();
    r := if stop then Failure(Cancelled) else Success(Unit);
    assert stop ==> probe.fires(probe.polls - 1);
  }

  method FillWholeRow(contract: InputContract, image: ImageView, values: array<real>, y: nat)
    requires ValidContract(contract) && Packed(image, contract.colorSpace) && y < contract.height
    requires Filled(contract, image, Whole, values[..], 0, y, 0)
    modifies values
    ensures Filled(contract, image, Whole, values[..], 0, y + 1, 0)
  {
    assert 0 < image.width && 0 < image.height && contract.channels == ChannelCount(contract.colorSpace);
    hide TensorIndex;
    hide ImageValue;
    hide SourcePosition;
    hide Normalized;
    hide InterpolationAxis;
    hide Bilinear;
    hide ElementCount;
    hide ValidContract;
    hide Packed;
    var v := InterpolationAxis(y, contract.height, image.height);
    for x: nat := 0 to contract.width
      invariant Filled(contract, image, Whole, values[..], x, y, 0)
    {
      var h := InterpolationAxis(x, contract.width, image.width);
      for channel: nat := 0 to contract.channels
        invariant Filled(contract, image, Whole, values[..], x, y, channel)
      {
        WholeCellSample(contract, image, x, y, channel, h, v);
        var pixel := Bilinear(image, h, v, channel, contract.colorSpace);
        ghost var before := values[..];
        WriteTensorValue(contract, values, x, y, channel, pixel);
        FilledStep(contract, image, Whole, before, x, y, channel, values[..]);
      }
      FilledCarries(contract, image, Whole, values[..], x, y);
    }
    FilledCarries(contract, image, Whole, values[..], 0, y);
  }

  method PreprocessImage(contract: InputContract, image: ImageView, probe: CancelProbe)
    returns (r: Result<InputTensor, InferenceError>)
    requires ValidContract(contract)
    modifies probe
    ensures !Packed(image, contract.colorSpace) ==> r == Failure(SourceImageInvalid) && probe.polls == old(probe.polls)
    ensures Packed(image, contract.colorSpace) && Quiet(probe, old(probe.polls)) ==>
              && probe.polls == old(probe.polls) + 1 + contract.height
              && r.Success? && r.value.dimensions == Dimensions(contract)
              && IsTensor(contract, image, Whole, r.value.values)
    ensures Packed(image, contract.colorSpace) && !Quiet(probe, old(probe.polls)) ==> r == Failure(Cancelled)
  {
    ghost var start := probe.polls;
    ValidationAdmitsPackedImages(contract, image);
    var inputs := ValidateInputs(contract, image);
    if inputs.Failure? { return Failure(inputs.error); }
    assert Quiet(probe, start);
    hide *;
    var check := CheckCancelled(probe, start);
    if check.Failure? { return Failure(check.error); }
    var values := new real[ElementCount(contract)];
    NothingFilled(contract, image, Whole, values[..]);
    for y: nat := 0 to contract.height
      invariant probe.polls == start + 1 + y && Quiet(probe, start)
      invariant Filled(contract, image, Whole, values[..], 0, y, 0)
    {
      check := CheckCancelled(probe, start);
      if check.Failure? { return Failure(check.error); }
      FillWholeRow(contract, image, values, y);
    }
    FilledCarries(contract, image, Whole, values[..], 0, 0);
    r := Success(InputTensor(Dimensions(contract), values[..]));
  }

  // ---------------------------------------------------------------- a region of the image

  datatype Box = Box(left: real, top: real, right: real, bottom: real)

  predicate InsideUnitSquare(q: Point) {
    0.0 <= q.x <= 1.0 && 0.0 <= q.y <= 1.0
  }

  // A region worth sampling: not empty, and wholly inside the image.
  predicate ProperRegion(box: Box) {
    box.left < box.right && box.top < box.bottom
    && InsideUnitSquare(Point(box.left, box.top)) && InsideUnitSquare(Point(box.right, box.bottom))
  }

  function RegionOf(box: Box): (p: Placement) {
    Region(box.left, box.top, box.right - box.left, box.bottom - box.top)
  }

  method FillRegionRow(contract: InputContract, image: ImageView, p: Placement, values: array<real>, y: nat)
    requires ValidContract(contract) && Packed(image, contract.colorSpace) && y < contract.height && p.Region?
    requires Filled(contract, image, p, values[..], 0, y, 0)
    modifies values
    ensures Filled(contract, image, p, values[..], 0, y + 1, 0)
  {
    assert 0 < contract.width && 0 < contract.height && contract.channels == ChannelCount(contract.colorSpace);
    hide TensorIndex;
    hide ImageValue;
    hide Normalized;
    hide CellCenter;
    hide ElementCount;
    hide ValidContract;
    hide Packed;
    hide Affine;
    var sourceY := Affine(CellCenter(y, contract.height), p.height, p.top);
    for x: nat := 0 to contract.width
      invariant Filled(contract, image, p, values[..], x, y, 0)
    {
      var q := Point(Affine(CellCenter(x, contract.width), p.width, p.left), sourceY);
      for channel: nat := 0 to contract.channels
        invariant Filled(contract, image, p, values[..], x, y, channel)
      {
        ghost var before := values[..];
        WriteTensorValue(contract, values, x, y, channel, ImageValue(image, contract.colorSpace, q, channel));
        FilledStep(contract, image, p, before, x, y, channel, values[..]);
      }
      FilledCarries(contract, image, p, values[..], x, y);
    }
    FilledCarries(contract, image, p, values[..], 0, y);
  }

  method PreprocessRegion(contract: InputContract, image: ImageView, box: Box, probe: CancelProbe)
    returns (r: Result<InputTensor, InferenceError>)
    requires ValidContract(contract)
    modifies probe
    ensures !Packed(image, contract.colorSpace) ==> r == Failure(SourceImageInvalid)
    ensures Packed(image, contract.colorSpace) && !ProperRegion(box) ==> r == Failure(FaceRegionInvalid)
    ensures Packed(image, contract.colorSpace) && ProperRegion(box) && Quiet(probe, old(probe.polls)) ==>
              && probe.polls == old(probe.polls) + 1 + contract.height
              && r.Success? && r.value.dimensions == Dimensions(contract)
              && IsTensor(contract, image, RegionOf(box), r.value.values)
    ensures !Quiet(probe, old(probe.polls)) ==> r == Failure(Cancelled)
  {
    ghost var start := probe.polls;
    ValidationAdmitsPackedImages(contract, image);
    var inputs := ValidateInputs(contract, image);
    if inputs.Failure? { return Failure(inputs.error); }
    var p := RegionOf(box);
    if p.left < 0.0 || p.top < 0.0 || p.width <= 0.0 || p.height <= 0.0 || p.left + p.width > 1.0
        || p.top + p.height > 1.0 {
      return Failure(FaceRegionInvalid);
    }
    assert Quiet(probe, start) && p.Region? && PlacementOk(p) && ProperRegion(box);
    hide *;
    var check := CheckCancelled(probe, start);
    if check.Failure? { return Failure(check.error); }
    var values := new real[ElementCount(contract)];
    NothingFilled(contract, image, p, values[..]);
    for y: nat := 0 to contract.height
      invariant probe.polls == start + 1 + y && Quiet(probe, start)
      invariant Filled(contract, image, p, values[..], 0, y, 0)
    {
      check := CheckCancelled(probe, start);
      if check.Failure? { return Failure(check.error); }
      FillRegionRow(contract, image, p, values, y);
    }
    FilledCarries(contract, image, p, values[..], 0, 0);
    r := Success(InputTensor(Dimensions(contract), values[..]));
  }

  // ---------------------------------------------------------------- an aligned face

  datatype AlignmentContract = AlignmentContract(
    digest: string, indices: seq<u16>, references: seq<Point>, maximumResidual: real)

  datatype Landmarks = Landmarks(digest: string, points: seq<Point>)

  // The manifest's validated alignment: five reference points that are not bunched together.
  predicate ValidAlignment(alignment: AlignmentContract) {
    && |alignment.indices| == FACE_ALIGNMENT_LANDMARKS == |alignment.references|
    && 0.001 <= alignment.maximumResidual <= 0.25
    && (forall i :: 0 <= i < |alignment.references| ==> InsideUnitSquare(alignment.references[i]))
    && Bunching(alignment.references) > 0.000001
  }

  function Bunching(points: seq<Point>): (s: real)
    requires |points| == FACE_ALIGNMENT_LANDMARKS
  {
    CentredMoments(points, points, Center(points), Center(points)).spread
  }

  predicate Available(points: seq<Point>, indices: seq<u16>) {
    forall i :: 0 <= i < |indices| ==> indices[i] < |points|
  }

  ghost predicate Selects(selected: seq<Point>, points: seq<Point>, indices: seq<u16>) {
    && |selected| == |indices|
    && forall i :: 0 <= i < |indices| ==> indices[i] < |points| && selected[i] == points[indices[i]]
  }

  method SelectLandmarks(points: seq<Point>, indices: seq<u16>) returns (r: Result<seq<Point>, InferenceError>)
    ensures r.Success? ==> Selects(r.value, points, indices)
    ensures r.Failure? ==> r.error == AlignmentInvalid && !Available(points, indices)
  {
    var selected := [];
    for i := 0 to |indices|
      invariant Selects(selected, points, indices[..i])
    {
      if indices[i] >= |points| { return Failure(AlignmentInvalid); }
      selected := selected + [points[indices[i]]];
    }
    r := Success(selected);
  }

  function FromAlignmentError(error: AlignmentError): (e: InferenceError) {
    match error
    case FaceAlignmentInvalid => AlignmentInvalid
    case FaceAlignmentResidualExceeded => AlignmentResidualExceeded
  }

  // What fitting the landmarks to the reference points comes to.
  ghost predicate FitsTo(alignment: AlignmentContract, landmarks: Landmarks,
                         fit: Result<SimilarityTransform, InferenceError>)
    requires ValidAlignment(alignment)
  {
    if landmarks.digest != alignment.digest then fit == Failure(AlignmentIncompatible)
    else if !Available(landmarks.points, alignment.indices) then fit == Failure(AlignmentInvalid)
    else exists selected ::
        && Selects(selected, landmarks.points, alignment.indices)
        && match Fit(selected, alignment.references, alignment.maximumResidual)
           case Success(t) => fit == Success(t)
           case Failure(e) => fit == Failure(FromAlignmentError(e))
  }

  method FitLandmarks(alignment: AlignmentContract, landmarks: Landmarks)
    returns (r: Result<SimilarityTransform, InferenceError>)
    requires ValidAlignment(alignment)
    ensures FitsTo(alignment, landmarks, r)
    ensures r.Success? ==> r.value.Determinant() > DEGENERATE
  {
    hide Bunching;
    hide CentredMoments;
    hide Center;
    if landmarks.digest != alignment.digest { return Failure(AlignmentIncompatible); }
    var selected := SelectLandmarks(landmarks.points, alignment.indices);
    if selected.Failure? { return Failure(selected.error); }
    var fit := Fit(selected.value, alignment.references, alignment.maximumResidual);
    assert Selects(selected.value, landmarks.points, alignment.indices);
    r := if fit.Success? then Success(fit.value) else Failure(FromAlignmentError(fit.error));
  }

  lemma SelectionIsUnique(a: seq<Point>, b: seq<Point>, points: seq<Point>, indices: seq<u16>)
    requires Selects(a, points, indices) && Selects(b, points, indices)
    ensures a == b
  {
  }

  // Unless the landmarks or the best fit are degenerate, the face is fitted exactly when some similarity
  // transform carries its selected landmarks within the residual limit of the references.
  lemma FittingIsExplained(alignment: AlignmentContract, landmarks: Landmarks, selected: seq<Point>,
                           fit: Result<SimilarityTransform, InferenceError>)
    requires ValidAlignment(alignment) && FitsTo(alignment, landmarks, fit) && landmarks.digest == alignment.digest
    requires Selects(selected, landmarks.points, alignment.indices)
    ensures fit != Failure(AlignmentInvalid) ==>
              (fit.Success? <==> exists t :: !ResidualExceeds(SquaredError(t, selected, alignment.references),
                                                              alignment.maximumResidual))
    ensures fit.Failure? ==> fit.error == AlignmentInvalid || fit.error == AlignmentResidualExceeded
  {
    assert Available(landmarks.points, alignment.indices);
    hide Fit;
    hide SquaredError;
    hide ResidualExceeds;
    hide Bunching;
    var chosen :| Selects(chosen, landmarks.points, alignment.indices)
                  && match Fit(chosen, alignment.references, alignment.maximumResidual)
                     case Success(t) => fit == Success(t)
                     case Failure(e) => fit == Failure(FromAlignmentError(e));
    SelectionIsUnique(chosen, selected, landmarks.points, alignment.indices);
    FitSucceedsIffSomeTransformFits(selected, alignment.references, alignment.maximumResidual);
  }

  // Every cell of the row up to column `x` looks inside the image.
  ghost predicate RowInside(contract: InputContract, p: Placement, x: nat, y: nat)
    requires ValidContract(contract) && PlacementOk(p)
  {
    forall x': nat :: x' < x ==> InsideUnitSquare(SourcePosition(contract, p, x', y))
  }

  ghost predicate AllInside(contract: InputContract, p: Placement, height: nat)
    requires ValidContract(contract) && PlacementOk(p)
  {
    forall y: nat :: y < height ==> RowInside(contract, p, contract.width, y)
  }

  method FillAlignedRow(contract: InputContract, image: ImageView, p: Placement, values: array<real>, y: nat)
    returns (inside: bool)
    requires ValidContract(contract) && Packed(image, contract.colorSpace) && y < contract.height
    requires p.Aligned? && PlacementOk(p)
    requires Filled(contract, image, p, values[..], 0, y, 0)
    modifies values
    ensures inside <==> RowInside(contract, p, contract.width, y)
    ensures inside ==> Filled(contract, image, p, values[..], 0, y + 1, 0)
  {
    assert 0 < contract.width && 0 < contract.height && contract.channels == ChannelCount(contract.colorSpace);
    hide TensorIndex;
    hide ImageValue;
    hide Normalized;
    hide CellCenter;
    hide ElementCount;
    hide ValidContract;
    hide Packed;
    for x: nat := 0 to contract.width
      invariant Filled(contract, image, p, values[..], x, y, 0)
      invariant RowInside(contract, p, x, y)
    {
      var q := p.transform.Inverse(Point(CellCenter(x, contract.width), CellCenter(y, contract.height)));
      assert q == SourcePosition(contract, p, x, y);
      if !InsideUnitSquare(q) { return false; }
      for channel: nat := 0 to contract.channels
        invariant Filled(contract, image, p, values[..], x, y, channel)
      {
        ghost var before := values[..];
        WriteTensorValue(contract, values, x, y, channel, ImageValue(image, contract.colorSpace, q, channel));
        FilledStep(contract, image, p, before, x, y, channel, values[..]);
      }
      FilledCarries(contract, image, p, values[..], x, y);
    }
    FilledCarries(contract, image, p, values[..], 0, y);
    inside := true;
  }

  method PreprocessAligned(contract: InputContract, alignment: AlignmentContract, image: ImageView,
                           landmarks: Landmarks,
                           probe: CancelProbe)
    returns (r: Result<InputTensor, InferenceError>, ghost fit: Result<SimilarityTransform, InferenceError>)
    requires ValidContract(contract) && ValidAlignment(alignment)
    modifies probe
    ensures !Packed(image, contract.colorSpace) ==> r == Failure(SourceImageInvalid)
    ensures FitsTo(alignment, landmarks, fit) && (fit.Success? ==> PlacementOk(Aligned(fit.value)))
    ensures Packed(image, contract.colorSpace) && fit.Failure? ==> r == Failure(fit.error)
    ensures !Quiet(probe, old(probe.polls)) ==> r == Failure(Cancelled)
    ensures Packed(image, contract.colorSpace) && fit.Success? && Quiet(probe, old(probe.polls)) ==>
              if !AllInside(contract, Aligned(fit.value), contract.height) then r == Failure(AlignmentOutsideImage)
              else
                && probe.polls == old(probe.polls) + 1 + contract.height
                && r.Success? && r.value.dimensions == Dimensions(contract)
                && IsTensor(contract, image, Aligned(fit.value), r.value.values)
  {
    ghost var start := probe.polls;
    assert Quiet(probe, start);
    var transform := FitLandmarks(alignment, landmarks);
    fit := transform;
    ValidationAdmitsPackedImages(contract, image);
    var inputs := ValidateInputs(contract, image);
    assert transform.Success? ==> PlacementOk(Aligned(transform.value));
    hide *;
    if inputs.Failure? { return Failure(inputs.error), fit; }
    if transform.Failure? { return Failure(transform.error), fit; }
    var p := Aligned(transform.value);
    var check := CheckCancelled(probe, start);
    if check.Failure? { return Failure(check.error), fit; }
    var values := new real[ElementCount(contract)];
    NothingFilled(contract, image, p, values[..]);
    NoRowsInside(contract, p);
    for y: nat := 0 to contract.height
      invariant probe.polls == start + 1 + y && Quiet(probe, start)
      invariant Filled(contract, image, p, values[..], 0, y, 0)
      invariant AllInside(contract, p, y)
    {
      check := CheckCancelled(probe, start);
      if check.Failure? { return Failure(check.error), fit; }
      var inside := FillAlignedRow(contract, image, p, values, y);
      RowsInside(contract, p, y);
      if !inside { return Failure(AlignmentOutsideImage), fit; }
    }
    FilledCarries(contract, image, p, values[..], 0, 0);
    r := Success(InputTensor(Dimensions(contract), values[..]));
  }

  lemma NoRowsInside(contract: InputContract, p: Placement)
    requires ValidContract(contract) && PlacementOk(p)
    ensures AllInside(contract, p, 0)
  {
  }

  lemma RowsInside(contract: InputContract, p: Placement, y: nat)
    requires ValidContract(contract) && PlacementOk(p)
    ensures AllInside(contract, p, y) && RowInside(contract, p, contract.width, y) ==> AllInside(contract, p, y + 1)
    ensures y < contract.height && !RowInside(contract, p, contract.width, y) ==>
              !AllInside(contract, p, contract.height)
  {
  }

  // ---------------------------------------------------------------- the three agree

  lemma ProperFraction(t: real, e: real)
    requires 0.0 < t < e
    ensures 0.0 < t / e < 1.0
  {
    var f := t / e;
    assert f * e == t;
    FactorOrder(f, 0.0, e);
    FactorOrder(1.0, f, e);
  }

  lemma CellCenterInside(target: nat, extent: nat)
    requires target < extent
    ensures 0.0 < CellCenter(target, extent) < 1.0
  {
    ProperFraction(target as real + 0.5, extent as real);
  }

  lemma IdentityIsNoTransform(q: Point)
    ensures IDENTITY.Forward(q) == q && IDENTITY.Determinant() == 1.0 && IDENTITY.Inverse(q) == q
  {
  }

  // Landmarks that already sit on the reference points are fitted by the identity.
  lemma ReferencesFitThemselves(alignment: AlignmentContract, landmarks: Landmarks,
                                fit: Result<SimilarityTransform, InferenceError>)
    requires ValidAlignment(alignment) && landmarks.digest == alignment.digest
    requires Selects(alignment.references, landmarks.points, alignment.indices)
    requires FitsTo(alignment, landmarks, fit)
    ensures fit == Success(IDENTITY)
  {
    forall i | 0 <= i < |alignment.references|
      ensures alignment.references[i] == IDENTITY.Forward(alignment.references[i])
    {
      IdentityIsNoTransform(alignment.references[i]);
    }
    FitRecoversTheTransform(IDENTITY, alignment.references, alignment.references, alignment.maximumResidual);
    hide Fit;
    var selected: seq<Point> :| Selects(selected, landmarks.points, alignment.indices)
      && match Fit(selected, alignment.references, alignment.maximumResidual)
         case Success(t) => fit == Success(t)
         case Failure(e) => fit == Failure(FromAlignmentError(e));
    assert selected == alignment.references;
  }

  lemma PlacementsAgree(contract: InputContract, x: nat, y: nat)
    requires ValidContract(contract) && x < contract.width && y < contract.height
    ensures PlacementOk(Aligned(IDENTITY))
    ensures SourcePosition(contract, Whole, x, y) == SourcePosition(contract, RegionOf(Box(0.0, 0.0, 1.0, 1.0)), x, y)
    ensures SourcePosition(contract, Whole, x, y) == SourcePosition(contract, Aligned(IDENTITY), x, y)
    ensures InsideUnitSquare(SourcePosition(contract, Whole, x, y))
  {
    CellCenterInside(x, contract.width);
    CellCenterInside(y, contract.height);
    IdentityIsNoTransform(Point(CellCenter(x, contract.width), CellCenter(y, contract.height)));
    hide CellCenter;
  }

  // Whole-image preprocessing and region preprocessing of the full box leave the same tensor.
  lemma FullRegionIsWhole(contract: InputContract, image: ImageView, whole: seq<real>, region: seq<real>)
    requires ValidContract(contract) && Packed(image, contract.colorSpace)
    requires IsTensor(contract, image, Whole, whole)
    requires IsTensor(contract, image, RegionOf(Box(0.0, 0.0, 1.0, 1.0)), region)
    ensures whole == region
  {
    forall x: nat, y: nat | x < contract.width && y < contract.height
      ensures SourcePosition(contract, Whole, x, y) == SourcePosition(contract, RegionOf(Box(0.0, 0.0, 1.0, 1.0)), x, y)
    {
      PlacementsAgree(contract, x, y);
    }
    hide *;
    TensorIsDetermined(contract, image, Whole, RegionOf(Box(0.0, 0.0, 1.0, 1.0)), whole, region);
  }

  lemma IdentityAlignmentIsWhole(contract: InputContract, image: ImageView, whole: seq<real>, aligned: seq<real>)
    requires ValidContract(contract) && Packed(image, contract.colorSpace) && PlacementOk(Aligned(IDENTITY))
    requires IsTensor(contract, image, Whole, whole) && IsTensor(contract, image, Aligned(IDENTITY), aligned)
    ensures whole == aligned
  {
    forall x: nat, y: nat | x < contract.width && y < contract.height
      ensures SourcePosition(contract, Whole, x, y) == SourcePosition(contract, Aligned(IDENTITY), x, y)
    {
      PlacementsAgree(contract, x, y);
    }
    hide *;
    TensorIsDetermined(contract, image, Whole, Aligned(IDENTITY), whole, aligned);
  }

  lemma InsideEverywhere(contract: InputContract, p: Placement)
    requires ValidContract(contract) && PlacementOk(p)
    requires forall x: nat, y: nat :: x < contract.width && y < contract.height ==>
               InsideUnitSquare(SourcePosition(contract, p, x, y))
    ensures AllInside(contract, p, contract.height)
  {
    hide SourcePosition;
    hide ValidContract;
  }

  lemma IdentityStaysInside(contract: InputContract, p: Placement)
    requires ValidContract(contract) && PlacementOk(p) && p == Aligned(IDENTITY)
    ensures AllInside(contract, p, contract.height)
  {
    hide *;
    forall x: nat, y: nat | x < contract.width && y < contract.height
      ensures InsideUnitSquare(SourcePosition(contract, p, x, y))
    {
      PlacementsAgree(contract, x, y);
    }
    InsideEverywhere(contract, p);
  }

  // Aligned preprocessing of landmarks that sit on the reference points stays inside the image and
  // leaves the tensor whole-image preprocessing does.
  lemma UnmovedLandmarksAreWhole(contract: InputContract, image: ImageView, alignment: AlignmentContract,
                                 landmarks: Landmarks,
                                 fit: Result<SimilarityTransform, InferenceError>, p: Placement,
                                 whole: seq<real>, aligned: seq<real>)
    requires ValidContract(contract) && Packed(image, contract.colorSpace) && PlacementOk(p)
    requires ValidAlignment(alignment) && landmarks.digest == alignment.digest
    requires Selects(alignment.references, landmarks.points, alignment.indices)
    requires FitsTo(alignment, landmarks, fit) && (fit.Success? ==> p == Aligned(fit.value))
    requires IsTensor(contract, image, Whole, whole)
    ensures fit.Success? && AllInside(contract, p, contract.height)
    ensures IsTensor(contract, image, p, aligned) ==> aligned == whole
  {
    hide *;
    ReferencesFitThemselves(alignment, landmarks, fit);
    IdentityStaysInside(contract, p);
    if IsTensor(contract, image, p, aligned) {
      IdentityAlignmentIsWhole(contract, image, whole, aligned);
    }
  }
}
