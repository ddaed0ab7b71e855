/** Packing one strided video frame into a planar (CHW) or interleaved (HWC) input tensor. */
module Packing {
  import opened Common
  import opened ModelInfo

  datatype PixelFormat = Rgb | Bgr | Rgba | Bgra
  {
    function BytesPerPixel(): nat { if Rgb? || Bgr? then 3 else 4 }

    /** Where the red (0), green (1) or blue (2) byte of a pixel is. */
    function Offset(channel: nat): nat
      requires channel < 3
    {
      if Rgb? || Rgba? then channel else 2 - channel
    }
  }

  datatype ChannelOrder = RgbOrder | BgrOrder
  {
    function DestinationChannel(channel: nat): (d: nat)
      requires channel < 3
      ensures d < 3
    {
      if RgbOrder? then channel else 2 - channel
    }
  }

  /** What fixes the place of a value in the tensor. */
  datatype Target = Target(channelsFirst: bool, order: ChannelOrder, width: nat, height: nat)

  /** What fixes the place of a component in the frame. */
  datatype Frame = Frame(bytes: Bytes, stride: nat, format: PixelFormat)

  datatype Component = Component(row: nat, column: nat, channel: nat)

  predicate InImage(c: Component, t: Target) { c.row < t.height && c.column < t.width && c.channel < 3 }

  function Area(t: Target): nat { t.width * t.height }

  function PixelIndex(c: Component, t: Target): nat { c.row * t.width + c.column }

  function Destination(c: Component, t: Target): nat
    requires c.channel < 3
  {
    var channel := t.order.DestinationChannel(c.channel);
    if t.channelsFirst then channel * Area(t) + PixelIndex(c, t) else PixelIndex(c, t) * 3 + channel
  }

  function SourceIndex(c: Component, f: Frame): nat
    requires c.channel < 3
  {
    c.row * f.stride + c.column * f.format.BytesPerPixel() + f.format.Offset(c.channel)
  }

  /** The frame is long enough for its stride and the stride for a row of pixels. */
  predicate Covers(f: Frame, t: Target) {
    t.width * f.format.BytesPerPixel() <= f.stride && f.stride * t.height <= |f.bytes|
  }

  // ---------------------------------------------------------------- placement is a bijection

  lemma InGrid(x: nat, y: nat, width: nat, height: nat)
    requires x < width && y < height
    ensures y * width + x < height * width == width * height
  {
    Scaled(y + 1, height, width);
  }

  lemma GridInjective(x: nat, y: nat, u: nat, v: nat, width: nat)
    requires x < width && u < width && y * width + x == v * width + u
    ensures x == u && y == v
  {
    if y < v {
      Scaled(y + 1, v, width);
    } else if v < y {
      Scaled(v + 1, y, width);
    }
  }

  /** Every component lands inside the tensor. */
  lemma DestinationInside(c: Component, t: Target)
    requires InImage(c, t)
    ensures PixelIndex(c, t) < Area(t)
    ensures Destination(c, t) < 3 * Area(t)
  {
    InGrid(c.column, c.row, t.width, t.height);
    var channel := t.order.DestinationChannel(c.channel);
    Scaled(channel, 2, Area(t));
  }

  /** No two components land on one cell. */
  lemma DestinationInjective(a: Component, b: Component, t: Target)
    requires InImage(a, t) && InImage(b, t) && Destination(a, t) == Destination(b, t)
    ensures a == b
  {
    DestinationInside(a, t);
    DestinationInside(b, t);
    if t.channelsFirst {
      GridInjective(PixelIndex(a, t), t.order.DestinationChannel(a.channel),
                    PixelIndex(b, t), t.order.DestinationChannel(b.channel), Area(t));
    }
    assert PixelIndex(a, t) == PixelIndex(b, t);
    GridInjective(a.column, a.row, b.column, b.row, t.width);
  }

  /** The plane and the pixel of a cell. */
  function PlaneAndPixel(d: nat, area: nat, channelsFirst: bool): (at: (nat, nat))
    requires d < 3 * area
    ensures at.0 < 3 && at.1 < area
    ensures d == if channelsFirst then at.0 * area + at.1 else at.1 * 3 + at.0
  {
    if !channelsFirst then (d % 3, d / 3)
    else if d < area then (0, d)
    else if d < 2 * area then (1, d - area)
    else (2, d - 2 * area)
  }

  /** The component that lands on a cell. */
  function Origin(d: nat, t: Target): Component
    requires d < 3 * Area(t)
  {
    var (plane, pixel) := PlaneAndPixel(d, Area(t), t.channelsFirst);
    AreaPositive(t.width, t.height);
    Component(pixel / t.width, pixel % t.width, t.order.DestinationChannel(plane))
  }

  lemma AreaPositive(width: nat, height: nat)
    requires width * height > 0
    ensures width > 0 && height > 0
  {
  }

  lemma SplitIndex(index: nat, width: nat, height: nat)
    requires index < width * height && width > 0
    ensures index % width < width && index / width < height && (index / width) * width + index % width == index
  {
    if index / width >= height {
      Scaled(height, index / width, width);
    }
  }

  /** Every cell is the destination of a component. */
  lemma DestinationOnto(d: nat, t: Target)
    requires d < 3 * Area(t)
    ensures InImage(Origin(d, t), t) && Destination(Origin(d, t), t) == d
  {
    var (plane, pixel) := PlaneAndPixel(d, Area(t), t.channelsFirst);
    AreaPositive(t.width, t.height);
    SplitIndex(pixel, t.width, t.height);
    var c := Origin(d, t);
    assert PixelIndex(c, t) == pixel && t.order.DestinationChannel(c.channel) == plane;
  }

  /** A component is read from the visible part of its row, within the frame, and never from an alpha byte. */
  lemma SourceInside(c: Component, f: Frame, t: Target)
    requires InImage(c, t) && Covers(f, t)
    ensures SourceIndex(c, f) < |f.bytes|
    ensures c.row * f.stride <= SourceIndex(c, f) < c.row * f.stride + t.width * f.format.BytesPerPixel()
    ensures f.format.Offset(c.channel) < 3
  {
    Scaled(c.column + 1, t.width, f.format.BytesPerPixel());
    Scaled(c.row + 1, t.height, f.stride);
    assert (c.row + 1) * f.stride == c.row * f.stride + f.stride;
    assert t.height * f.stride == f.stride * t.height;
  }

  // ---------------------------------------------------------------- packed tensors

  function ReadComponent(f: Frame, t: Target, c: Component): byte
    requires InImage(c, t) && Covers(f, t)
  {
    SourceInside(c, f, t);
    f.bytes[SourceIndex(c, f)]
  }

  /** The cell of a component holds its converted value. */
  ghost predicate CellPacked<V>(out: seq<V>, f: Frame, t: Target, convert: (nat, byte) -> Option<V>, c: Component)
    requires InImage(c, t) && Covers(f, t)
  {
    && Destination(c, t) < |out|
    && convert(c.channel, ReadComponent(f, t, c)) == Some(out[Destination(c, t)])
  }

  ghost predicate Packed<V(!new)>(out: seq<V>, f: Frame, t: Target, convert: (nat, byte) -> Option<V>)
    requires Covers(f, t)
  {
    && |out| == 3 * Area(t)
    && forall c :: InImage(c, t) ==> CellPacked(out, f, t, convert, c)
  }

  /** Which byte of the frame decides which cell of the tensor. Red, green and blue (0, 1 and 2) are the first three
      bytes of an RGB or RGBA pixel, in this order, and the last to the first of them for BGR and BGRA; the tensor has
      its planes, or the components of each pixel, in the order it asks for, and pixels row by row. */
  lemma PackedPixel<V(!new)>(out: seq<V>, f: Frame, t: Target, convert: (nat, byte) -> Option<V>, row: nat,
                             column: nat, color: nat)
    requires Covers(f, t) && Packed(out, f, t, convert) && row < t.height && column < t.width && color < 3
    ensures var size := match f.format { case Rgb | Bgr => 3 case Rgba | Bgra => 4 };
            var offset := match f.format { case Rgb | Rgba => color case Bgr | Bgra => 2 - color };
            var plane := match t.order { case RgbOrder => color case BgrOrder => 2 - color };
            var from := row * f.stride + column * size + offset;
            var pixel := row * t.width + column;
            var to := if t.channelsFirst then plane * (t.width * t.height) + pixel else pixel * 3 + plane;
            && 0 <= from < |f.bytes| && 0 <= to < |out|
            && convert(color, f.bytes[from]) == Some(out[to])
  {
    var c := Component(row, column, color);
    assert CellPacked(out, f, t, convert, c);
    SourceInside(c, f, t);
    DestinationInside(c, t);
  }

  /** A packed tensor holds nothing but the visible colour components: two frames that agree on those, whatever
      their strides, padding, alpha and component orders, pack into the same tensor. */
  lemma PackingSeesOnlyComponents<V(!new)>(a: seq<V>, b: seq<V>, f: Frame, g: Frame, t: Target,
                                     convert: (nat, byte) -> Option<V>)
    requires Covers(f, t) && Covers(g, t)
    requires forall c :: InImage(c, t) ==> ReadComponent(f, t, c) == ReadComponent(g, t, c)
    requires Packed(a, f, t, convert) && Packed(b, g, t, convert)
    ensures a == b
  {
    forall d | 0 <= d < |a| ensures a[d] == b[d] {
      DestinationOnto(d, t);
      var c := Origin(d, t);
      assert CellPacked(a, f, t, convert, c) && CellPacked(b, g, t, convert, c);
    }
  }

  /** The planar tensor is the transpose of the interleaved one, under either channel order. */
  lemma PlanarIsTransposed<V(!new)>(planar: seq<V>, interleaved: seq<V>, f: Frame, t: Target,
                                    convert: (nat, byte) -> Option<V>, index: nat, channel: nat)
    requires Covers(f, t) && index < Area(t) && channel < 3
    requires Packed(planar, f, t.(channelsFirst := true), convert)
    requires Packed(interleaved, f, t.(channelsFirst := false), convert)
    ensures channel * Area(t) + index < |planar| && index * 3 + channel < |interleaved|
    ensures planar[channel * Area(t) + index] == interleaved[index * 3 + channel]
  {
    AreaPositive(t.width, t.height);
    SplitIndex(index, t.width, t.height);
    var c := Component(index / t.width, index % t.width, t.order.DestinationChannel(channel));
    assert PixelIndex(c, t) == index;
    assert CellPacked(planar, f, t.(channelsFirst := true), convert, c);
    assert CellPacked(interleaved, f, t.(channelsFirst := false), convert, c);
  }

  /** Swapping the channel order reverses the planes; the conversion still follows the colour. */
  lemma OrderReversesPlanes<V(!new)>(rgb: seq<V>, bgr: seq<V>, f: Frame, t: Target,
                                     convert: (nat, byte) -> Option<V>, index: nat, channel: nat)
    requires Covers(f, t) && index < Area(t) && channel < 3
    requires Packed(rgb, f, t.(order := RgbOrder, channelsFirst := true), convert)
    requires Packed(bgr, f, t.(order := BgrOrder, channelsFirst := true), convert)
    ensures channel * Area(t) + index < |rgb| && (2 - channel) * Area(t) + index < |bgr|
    ensures rgb[channel * Area(t) + index] == bgr[(2 - channel) * Area(t) + index]
  {
    AreaPositive(t.width, t.height);
    SplitIndex(index, t.width, t.height);
    var c := Component(index / t.width, index % t.width, channel);
    assert PixelIndex(c, t) == index;
    assert CellPacked(rgb, f, t.(order := RgbOrder, channelsFirst := true), convert, c);
    assert CellPacked(bgr, f, t.(order := BgrOrder, channelsFirst := true), convert, c);
  }

  // ---------------------------------------------------------------- the copying loops

  datatype PreprocessError =
    | RowOverflow | ShortStride | FrameOverflow | ShortFrame | LayoutMismatch | TensorOverflow
    | MissingRange | OutputIndex | UnsupportedType

  function Line(f: Frame, row: nat): (line: Bytes)
    requires (row + 1) * f.stride <= |f.bytes|
    ensures |line| == f.stride
  {
    assert (row + 1) * f.stride == row * f.stride + f.stride;
    f.bytes[row * f.stride..row * f.stride + f.stride]
  }

  function Pixel(line: Bytes, format: PixelFormat, column: nat): (pixel: Bytes)
    requires (column + 1) * format.BytesPerPixel() <= |line|
    ensures |pixel| == format.BytesPerPixel()
  {
    var start := column * format.BytesPerPixel();
    line[start..start + format.BytesPerPixel()]
  }

  /** The red, green and blue bytes of a pixel. */
  function Components(pixel: Bytes, format: PixelFormat): (rgb: Bytes)
    requires |pixel| >= 3
    ensures |rgb| == 3
  {
    if format.Rgb? || format.Rgba? then [pixel[0], pixel[1], pixel[2]] else [pixel[2], pixel[1], pixel[0]]
  }

  lemma LineInside(f: Frame, t: Target, row: nat)
    requires Covers(f, t) && row < t.height
    ensures (row + 1) * f.stride <= |f.bytes|
  {
    Scaled(row + 1, t.height, f.stride);
  }

  lemma PixelInside(f: Frame, t: Target, column: nat)
    requires Covers(f, t) && column < t.width
    ensures (column + 1) * f.format.BytesPerPixel() <= f.stride
  {
    Scaled(column + 1, t.width, f.format.BytesPerPixel());
  }

  lemma ComponentIsRead(f: Frame, t: Target, c: Component)
    requires Covers(f, t) && InImage(c, t)
    requires (c.row + 1) * f.stride <= |f.bytes| && (c.column + 1) * f.format.BytesPerPixel() <= f.stride
    ensures Components(Pixel(Line(f, c.row), f.format, c.column), f.format)[c.channel] == ReadComponent(f, t, c)
  {
    SourceInside(c, f, t);
    var at := c.column * f.format.BytesPerPixel();
    var line := Line(f, c.row);
    var pixel := Pixel(line, f.format, c.column);
    ComponentByte(pixel, f.format, c.channel);
    var offset := f.format.Offset(c.channel);
    assert pixel[offset] == line[at + offset];
    LineByte(f, c.row, at + offset);
  }

  lemma ComponentByte(pixel: Bytes, format: PixelFormat, channel: nat)
    requires |pixel| >= 3 && channel < 3
    ensures Components(pixel, format)[channel] == pixel[format.Offset(channel)]
  {
  }

  lemma LineByte(f: Frame, row: nat, j: nat)
    requires (row + 1) * f.stride <= |f.bytes| && j < f.stride
    ensures row * f.stride + j < |f.bytes| && Line(f, row)[j] == f.bytes[row * f.stride + j]
  {
    assert (row + 1) * f.stride == row * f.stride + f.stride;
  }

  predicate Earlier(a: Component, b: Component) {
    || a.row < b.row
    || (a.row == b.row && (a.column < b.column || (a.column == b.column && a.channel < b.channel)))
  }

  /** Every component before this one has been written. */
  ghost predicate Done<V(!new)>(out: seq<V>, f: Frame, t: Target, convert: (nat, byte) -> Option<V>, at: Component)
    requires Covers(f, t)
  {
    forall c :: InImage(c, t) && Earlier(c, at) ==> CellPacked(out, f, t, convert, c)
  }

  lemma WriteKeepsDone<V(!new)>(out: seq<V>, f: Frame, t: Target, convert: (nat, byte) -> Option<V>, at: Component,
                                v: V)
    requires Covers(f, t) && InImage(at, t) && Destination(at, t) < |out| && Done(out, f, t, convert, at)
    requires convert(at.channel, ReadComponent(f, t, at)) == Some(v)
    ensures Done(out[Destination(at, t) := v], f, t, convert, at.(channel := at.channel + 1))
  {
    var next := out[Destination(at, t) := v];
    forall c | InImage(c, t) && Earlier(c, at.(channel := at.channel + 1)) ensures CellPacked(next, f, t, convert, c) {
      if c != at {
        assert CellPacked(out, f, t, convert, c);
        if Destination(c, t) == Destination(at, t) {
          DestinationInjective(c, at, t);
        }
      }
    }
  }

  method CopyPixels<V(!new)>(f: Frame, t: Target, convert: (nat, byte) -> Option<V>, packed: array<V>)
    returns (failure: Option<PreprocessError>)
    requires Covers(f, t) && packed.Length == 3 * Area(t)
    modifies packed
    ensures failure.None? ==> Packed(packed[..], f, t, convert)
    ensures failure.Some? ==>
              && failure.value == MissingRange
              && exists c :: InImage(c, t) && convert(c.channel, ReadComponent(f, t, c)).None?
  {
    for row := 0 to t.height
      invariant Done(packed[..], f, t, convert, Component(row, 0, 0))
    {
      LineInside(f, t, row);
      var line := Line(f, row);
      for column := 0 to t.width
        invariant Done(packed[..], f, t, convert, Component(row, column, 0))
      {
        PixelInside(f, t, column);
        var rgb := Components(Pixel(line, f.format, column), f.format);
        for channel := 0 to 3
          invariant Done(packed[..], f, t, convert, Component(row, column, channel))
        {
          var c := Component(row, column, channel);
          ComponentIsRead(f, t, c);
          var value := convert(channel, rgb[channel]);
          if value.None? {
            return Some(MissingRange);
          }
          var destination := Destination(c, t);
          DestinationInside(c, t);
          if destination >= packed.Length {
            return Some(OutputIndex);
          }
          WriteKeepsDone(packed[..], f, t, convert, c, value.value);
          packed[destination] := value.value;
        }
      }
    }
    failure := None;
  }

  // ---------------------------------------------------------------- preprocessing

  datatype InputTensor = Uint8Tensor(bytes: seq<byte>) | Float32Tensor(values: seq<real>)

  function KeepByte(channel: nat, value: byte): Option<byte> { Some(value) }

  function Stretch(range: (real, real), value: byte): real {
    range.0 + value as int as real * (range.1 - range.0) / 255.0
  }

  /** One range serves all channels; otherwise each colour has its own. */
  function Scaling(ranges: seq<(real, real)>): (nat, byte) -> Option<real> {
    (channel: nat, value: byte) =>
      var at: nat := if |ranges| == 1 then 0 else channel;
      if at < |ranges| then Some(Stretch(ranges[at], value)) else None
  }

  /** The range of a colour is stretched in equal steps from its first bound at 0 to its second at 255; a colour without
      a range has no value. */
  lemma ScalingIsLinear(ranges: seq<(real, real)>, color: nat, value: byte)
    ensures Scaling(ranges)(color, value).Some? <==> |ranges| == 1 || color < |ranges|
    ensures |ranges| == 1 || color < |ranges| ==>
              var range := ranges[if |ranges| == 1 then 0 else color];
              var scaled := (v: byte) => Scaling(ranges)(color, v);
              && scaled(0) == Some(range.0) && scaled(255) == Some(range.1)
              && (value < 255 ==> scaled(value + 1).value - scaled(value).value == (range.1 - range.0) / 255.0)
  {
    if |ranges| == 1 || color < |ranges| {
      StretchEnds(ranges[if |ranges| == 1 then 0 else color]);
      if value < 255 {
        StretchSteps(ranges[if |ranges| == 1 then 0 else color], value);
      }
    }
  }

  lemma StretchSteps(range: (real, real), value: byte)
    requires value < 255
    ensures Stretch(range, value + 1) - Stretch(range, value) == (range.1 - range.0) / 255.0
  {
    var (width, v) := (range.1 - range.0, value as int as real);
    assert (value + 1) as int as real == v + 1.0;
    assert (v + 1.0) * width == v * width + width;
  }

  lemma StretchEnds(range: (real, real))
    ensures Stretch(range, 0) == range.0 && Stretch(range, 255) == range.1
  {
    var width := range.1 - range.0;
    assert 0.0 * width / 255.0 == 0.0 && 255.0 * width / 255.0 == width;
  }

  function RowBytes(f: Frame, width: nat): nat { width * f.format.BytesPerPixel() }

  /** The first check a frame fails. */
  function Refusal(f: Frame, t: Target, input: TensorDescription): Option<PreprocessError> {
    if RowBytes(f, t.width) > USIZE_MAX then Some(RowOverflow)
    else if f.stride < RowBytes(f, t.width) then Some(ShortStride)
    else if f.stride * t.height > USIZE_MAX then Some(FrameOverflow)
    else if |f.bytes| < f.stride * t.height then Some(ShortFrame)
    else if LayoutOf(input.dims) != Some(ImageLayout(t.channelsFirst, t.height, t.width)) then Some(LayoutMismatch)
    else if !input.dataType.Uint8? && !input.dataType.Float32? then Some(UnsupportedType)
    else if input.dataType.Float32? && Area(t) > 0 && |input.ranges| != 1 && |input.ranges| < 3 then Some(MissingRange)
    else None
  }

  /** When a frame is refused, and that the reason given is true of it. */
  lemma RefusalIff(f: Frame, t: Target, input: TensorDescription)
    ensures var rowBytes := t.width * (match f.format { case Rgb | Bgr => 3 case Rgba | Bgra => 4 });
            var fits := rowBytes <= USIZE_MAX && f.stride * t.height <= USIZE_MAX;
            var layout := LayoutOf(input.dims) == Some(ImageLayout(t.channelsFirst, t.height, t.width));
            var ranges := |input.ranges| == 1 || |input.ranges| >= 3 || t.width == 0 || t.height == 0;
            var r := Refusal(f, t, input);
            && (r.None? <==>
                  && fits && f.stride >= rowBytes && |f.bytes| >= f.stride * t.height && layout
                  && (input.dataType.Uint8? || (input.dataType.Float32? && ranges)))
            && (r == Some(RowOverflow) || r == Some(FrameOverflow) ==> !fits)
            && (r == Some(ShortStride) ==> f.stride < rowBytes)
            && (r == Some(ShortFrame) ==> |f.bytes| < f.stride * t.height)
            && (r == Some(LayoutMismatch) ==> !layout)
            && (r == Some(MissingRange) ==> input.dataType.Float32? && !ranges)
            && (r == Some(UnsupportedType) ==> !input.dataType.Uint8? && !input.dataType.Float32?)
            && r != Some(TensorOverflow) && r != Some(OutputIndex)
  {
    assert Area(t) > 0 <==> t.width > 0 && t.height > 0;
  }

  /** Fill a tensor of zeroes from the frame. The size and index checks of the loops never fail. */
  method Preprocess(f: Frame, width: nat, height: nat, order: ChannelOrder, input: TensorDescription)
    returns (r: Result<InputTensor, PreprocessError>)
    requires f.stride > 0 || width > 0  // with neither, splitting the frame into lines has no meaning
    ensures var layout := LayoutOf(input.dims);
            var t := Target(layout.Some? && layout.value.channelsFirst, order, width, height);
            && (r.Err? <==> Refusal(f, t, input).Some?)
            && (r.Err? ==> r.error == Refusal(f, t, input).value)
            && (r.Ok? ==>
                  && Covers(f, t)
                  && (r.value.Uint8Tensor? <==> input.dataType.Uint8?)
                  && (r.value.Uint8Tensor? ==> Packed(r.value.bytes, f, t, KeepByte))
                  && (r.value.Uint8Tensor? ==>
                        forall c :: InImage(c, t) ==>
                          Destination(c, t) < |r.value.bytes|
                          && r.value.bytes[Destination(c, t)] == ReadComponent(f, t, c))
                  && (r.value.Float32Tensor? ==> Packed(r.value.values, f, t, Scaling(input.ranges))))
  {
    var layout := LayoutOf(input.dims);
    var t := Target(layout.Some? && layout.value.channelsFirst, order, width, height);
    if RowBytes(f, width) > USIZE_MAX {
      return Err(RowOverflow);
    }
    if f.stride < RowBytes(f, width) {
      return Err(ShortStride);
    }
    if f.stride * height > USIZE_MAX {
      return Err(FrameOverflow);
    }
    if |f.bytes| < f.stride * height {
      return Err(ShortFrame);
    }
    if layout.None? || layout.value.width != width || layout.value.height != height {
      return Err(LayoutMismatch);
    }
    TensorFits(f, t);
    if width * height > USIZE_MAX || width * height * 3 > USIZE_MAX {
      return Err(TensorOverflow);
    }
    if input.dataType.Uint8? {
      var packed := new byte[3 * Area(t)](_ => 0);
      var failure := CopyPixels(f, t, KeepByte, packed);
      assert failure.None?;  // every byte is kept as it is
      forall c | InImage(c, t)
        ensures Destination(c, t) < packed.Length && packed[..][Destination(c, t)] == ReadComponent(f, t, c)
      {
        assert CellPacked(packed[..], f, t, KeepByte, c);
      }
      return Ok(Uint8Tensor(packed[..]));
    }
    if input.dataType.Float32? {
      var packed := new real[3 * Area(t)](_ => 0.0);
      var failure := CopyPixels(f, t, Scaling(input.ranges), packed);
      if failure.Some? {
        EmptyHasNoComponent(t);
        return Err(failure.value);
      }
      RangesSuffice(packed[..], f, t, input.ranges);
      return Ok(Float32Tensor(packed[..]));
    }
    r := Err(UnsupportedType);
  }

  lemma TensorFits(f: Frame, t: Target)
    requires Covers(f, t) && f.stride * t.height <= USIZE_MAX
    ensures t.width * t.height * 3 <= USIZE_MAX
  {
    Scaled(t.width * 3, f.stride, t.height);
    assert t.width * 3 * t.height == t.width * t.height * 3;
  }

  lemma EmptyHasNoComponent(t: Target)
    ensures (exists c :: InImage(c, t)) ==> Area(t) > 0
  {
    forall c | InImage(c, t) ensures Area(t) > 0 {
      InGrid(c.column, c.row, t.width, t.height);
    }
  }

  lemma RangesSuffice(out: seq<real>, f: Frame, t: Target, ranges: seq<(real, real)>)
    requires Covers(f, t) && Packed(out, f, t, Scaling(ranges))
    ensures Area(t) > 0 ==> |ranges| == 1 || |ranges| >= 3
  {
    if Area(t) > 0 {
      AreaPositive(t.width, t.height);
      assert CellPacked(out, f, t, Scaling(ranges), Component(0, 0, 2));
    }
  }
}
