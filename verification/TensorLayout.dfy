// The input contract of a model and the numbering of its tensor cells.
module TensorLayouts {
  import opened Wrappers
  import opened Arithmetic
  import opened Sampling

  datatype TensorLayout = Nchw | Nhwc

  datatype InputContract = InputContract(
    width: u32, height: u32, channels: u8, layout: TensorLayout, colorSpace: ColorSpace,
    scale: seq<real>, bias: seq<real>)

  const MAX_INPUT_DIMENSION := 4096
  const MAX_TENSOR_ELEMENTS := 64 * 1024 * 1024

  // What a manifest's input contract is validated to be before any image reaches it.
  predicate ValidContract(contract: InputContract) {
    && 1 <= contract.width <= MAX_INPUT_DIMENSION
    && 1 <= contract.height <= MAX_INPUT_DIMENSION
    && contract.channels == ChannelCount(contract.colorSpace)
    && |contract.scale| == contract.channels == |contract.bias|
    && (forall c :: 0 <= c < |contract.scale| ==> contract.scale[c] != 0.0)
    && ElementCount(contract) <= MAX_TENSOR_ELEMENTS
  }

  function ElementCount(contract: InputContract): (n: nat) {
    Area(Area(contract.width, contract.height), contract.channels)
  }

  datatype InputTensor = InputTensor(dimensions: seq<nat>, values: seq<real>)

  function Dimensions(contract: InputContract): (d: seq<nat>) {
    if contract.layout.Nchw? then [1, contract.channels, contract.height, contract.width]
    else [1, contract.height, contract.width, contract.channels]
  }

  // ---------------------------------------------------------------- tensor layout

  function TensorIndex(contract: InputContract, x: nat, y: nat, channel: nat): (i: nat) {
    var pixel := Flat(x, y, contract.width);
    match contract.layout
    case Nchw => Flat(pixel, channel, Area(contract.width, contract.height))
    case Nhwc => Flat(channel, pixel, contract.channels)
  }

  predicate IsCell(contract: InputContract, x: nat, y: nat, channel: nat) {
    x < contract.width && y < contract.height && channel < contract.channels
  }

  lemma RowsAreApart(x: nat, y: nat, x': nat, y': nat, width: nat)
    requires x < width && y < y'
    ensures Flat(x, y, width) < Flat(x', y', width)
  {
    assert Flat(0, y + 1, width) == y * width + width;
    assert y' * width >= (y + 1) * width;
  }

  lemma FlatInjective(x: nat, y: nat, x': nat, y': nat, width: nat)
    requires x < width && x' < width && Flat(x, y, width) == Flat(x', y', width)
    ensures x == x' && y == y'
  {
    if y < y' { RowsAreApart(x, y, x', y', width); }
    if y' < y { RowsAreApart(x', y', x, y, width); }
  }

  lemma AreaIsEmpty(width: nat, height: nat)
    ensures width == 0 ==> Area(width, height) == 0
  {
  }

  // Everything from row `height` on lies at or past the grid's end.
  lemma RowsEndAt(x: nat, y: nat, width: nat, height: nat)
    ensures height <= y ==> Flat(x, y, width) >= Area(width, height)
  {
    assert height <= y ==> y * width >= height * width;
  }

  lemma FlatSurjective(i: nat, width: nat, height: nat) returns (x: nat, y: nat)
    requires i < Area(width, height)
    ensures x < width && y < height && Flat(x, y, width) == i
  {
    AreaIsEmpty(width, height);
    DivisionIdentity(i, width);
    x, y := i % width, i / width;
    RowsEndAt(x, y, width, height);
  }

  lemma AreaCommutes(a: nat, b: nat)
    ensures Area(a, b) == Area(b, a)
  {
  }

  // Indices stay inside the buffer, and inside 32 bits all the way.
  lemma TensorIndexInRange(contract: InputContract, x: nat, y: nat, channel: nat)
    requires ValidContract(contract) && IsCell(contract, x, y, channel)
    ensures TensorIndex(contract, x, y, channel) < ElementCount(contract)
    ensures Flat(x, y, contract.width) < Area(contract.width, contract.height) <= MAX_U32
  {
    ProductBounds(contract.width, contract.height, MAX_INPUT_DIMENSION, MAX_INPUT_DIMENSION);
    assert Area(contract.width, contract.height) <= MAX_U32;
    var plane, pixel := Area(contract.width, contract.height), Flat(x, y, contract.width);
    FlatInRange(x, y, contract.width, contract.height);
    hide Flat;
    hide Area;
    AreaCommutes(contract.channels, plane);
    if contract.layout.Nchw? {
      FlatInRange(pixel, channel, plane, contract.channels);
    } else {
      FlatInRange(channel, pixel, contract.channels, plane);
    }
  }

  // No two cells share a slot.
  lemma TensorIndexInjective(contract: InputContract, x: nat, y: nat, channel: nat, x': nat, y': nat, channel': nat)
    requires IsCell(contract, x, y, channel) && IsCell(contract, x', y', channel')
    requires TensorIndex(contract, x, y, channel) == TensorIndex(contract, x', y', channel')
    ensures x == x' && y == y' && channel == channel'
  {
    hide Flat;
    hide Area;
    FlatInRange(x, y, contract.width, contract.height);
    FlatInRange(x', y', contract.width, contract.height);
    var pixel, pixel' := Flat(x, y, contract.width), Flat(x', y', contract.width);
    if contract.layout.Nchw? {
      FlatInjective(pixel, channel, pixel', channel', Area(contract.width, contract.height));
    } else {
      FlatInjective(channel, pixel, channel', pixel', contract.channels);
    }
    FlatInjective(x, y, x', y', contract.width);
  }

  // Every slot belongs to a cell.
  lemma TensorIndexSurjective(contract: InputContract, i: nat) returns (x: nat, y: nat, channel: nat)
    requires i < ElementCount(contract)
    ensures IsCell(contract, x, y, channel) && TensorIndex(contract, x, y, channel) == i
  {
    hide Flat;
    hide Area;
    var plane := Area(contract.width, contract.height);
    var pixel;
    if contract.layout.Nchw? {
      pixel, channel := FlatSurjective(i, plane, contract.channels);
    } else {
      AreaCommutes(contract.channels, plane);
      channel, pixel := FlatSurjective(i, contract.channels, plane);
    }
    x, y := FlatSurjective(pixel, contract.width, contract.height);
  }

  // The place of the element `at` of a tensor stored with its last index running fastest.
  function RowMajor(dimensions: seq<nat>, at: seq<nat>): (i: nat)
    requires |dimensions| == |at|
  {
    if at == [] then 0
    else
      var n := |at| - 1;
      RowMajor(dimensions[..n], at[..n]) * dimensions[n] + at[n]
  }

  lemma RowMajorOfFour(d: seq<nat>, at: seq<nat>)
    requires |d| == 4 && |at| == 4 && at[0] == 0
    ensures RowMajor(d, at) == (at[1] * d[2] + at[2]) * d[3] + at[3]
  {
    assert RowMajor(d[..3], at[..3]) == RowMajor(d[..3][..2], at[..3][..2]) * d[2] + at[2];
    assert RowMajor(d[..3][..2], at[..3][..2])
           == RowMajor(d[..3][..2][..1], at[..3][..2][..1]) * d[1] + at[1];
    assert RowMajor(d[..3][..2][..1], at[..3][..2][..1])
           == RowMajor(d[..3][..2][..1][..0], at[..3][..2][..1][..0]) * d[0] + at[0];
  }

  // A cell of the tensor's one image: batch, channel, row, column in planar tensors, and batch, row,
  // column, channel in interleaved ones.
  function CellAt(contract: InputContract, x: nat, y: nat, channel: nat): (at: seq<nat>)
    ensures |at| == 4
  {
    if contract.layout.Nchw? then [0, channel, y, x] else [0, y, x, channel]
  }

  // The slot of a cell is where the tensor's dimensions put it, and they bound exactly its cells.
  lemma TensorIndexIsRowMajor(contract: InputContract, x: nat, y: nat, channel: nat)
    ensures |Dimensions(contract)| == 4
    ensures TensorIndex(contract, x, y, channel) ==
            RowMajor(Dimensions(contract), CellAt(contract, x, y, channel))
    ensures IsCell(contract, x, y, channel) <==>
              forall i :: 0 <= i < 4 ==> CellAt(contract, x, y, channel)[i] < Dimensions(contract)[i]
  {
    var d := Dimensions(contract);
    var at := CellAt(contract, x, y, channel);
    assert at[0] < d[0] && (IsCell(contract, x, y, channel) <==> at[1] < d[1] && at[2] < d[2] && at[3] < d[3]);
    if contract.layout.Nchw? {
      RowMajorOfFour(d, [0, channel, y, x]);
      PlanesOfRows(channel, y, x, contract.width, contract.height);
    } else {
      RowMajorOfFour(d, [0, y, x, channel]);
    }
  }

  lemma PlanesOfRows(channel: nat, y: nat, x: nat, width: nat, height: nat)
    ensures (channel * height + y) * width + x == Flat(Flat(x, y, width), channel, Area(width, height))
  {
    assert (channel * height) * width == channel * (width * height);
    assert (channel * height + y) * width == (channel * height) * width + y * width;
  }
}
