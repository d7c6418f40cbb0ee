/** Nearest-neighbour scaling. */
module PngResize {
  import opened Common
  import opened PngFilters
  import opened PngCodec

  // ---------------------------------------------------------------- geometry

  /** h * targetWidth / w, rounded half up, and at least one row. */
  function TargetHeight(width: nat, height: nat, targetWidth: nat): (target: nat)
    requires 0 < width
    ensures target >= 1
  {
    var rounded := RoundedHeight(width, height, targetWidth);
    if rounded < 1 then 1 else rounded
  }

  function RoundedHeight(width: nat, height: nat, targetWidth: nat): nat
    requires 0 < width
  {
    (2 * (height * targetWidth) + width) / (2 * width)
  }

  lemma DivideWithin(n: nat, d: nat)
    requires 0 < d
    ensures n / d * d <= n < n / d * d + d
  {
  }

  /** Rounding moves the height by at most half a row. */
  lemma HeightWithinHalfARow(width: nat, height: nat, targetWidth: nat)
    requires 0 < width
    ensures var exact, rounded := height * targetWidth, RoundedHeight(width, height, targetWidth) * width;
      -(width as int) <= 2 * (rounded - exact) <= width
  {
    var exact := height * targetWidth;
    var rounded := RoundedHeight(width, height, targetWidth);
    DivideWithin(2 * exact + width, 2 * width);
    assert rounded * (2 * width) == 2 * (rounded * width);
  }

  lemma SameWidthSameHeight(width: nat, height: nat)
    requires 0 < width && 0 < height
    ensures TargetHeight(width, height, width) == height
  {
    HeightWithinHalfARow(width, height, width);
    var rounded := RoundedHeight(width, height, width);
    assert rounded * width - height * width == (rounded - height) * width;
    SmallFactor(rounded - height, width);
  }

  lemma SmallFactor(d: int, width: nat)
    requires 0 < width && -(width as int) <= 2 * (d * width) <= width
    ensures d == 0
  {
    if d >= 1 {
      AtLeastOnce(d, width);
    } else if d <= -1 {
      AtLeastOnce(-d, width);
    }
  }

  /** The source row or column that target row or column `i` samples. */
  function SourceIndex(i: nat, sourceSize: nat, targetSize: nat): (s: nat)
    requires i < targetSize && 0 < sourceSize
    ensures s < sourceSize
  {
    var s := i * sourceSize / targetSize;
    if s > sourceSize - 1 then sourceSize - 1 else s
  }

  /** Sampling never needs its clamp: it is exactly the floor of i * sourceSize / targetSize. */
  lemma SampleIsFloor(i: nat, sourceSize: nat, targetSize: nat)
    requires i < targetSize && 0 < sourceSize
    ensures var s := SourceIndex(i, sourceSize, targetSize);
      s * targetSize <= i * sourceSize < s * targetSize + targetSize
  {
    var s := i * sourceSize / targetSize;
    DivideWithin(i * sourceSize, targetSize);
    assert i * sourceSize <= (targetSize - 1) * sourceSize;
    if s >= sourceSize {
      assert s * targetSize >= sourceSize * targetSize;
    }
  }

  lemma SampleMonotone(i: nat, j: nat, sourceSize: nat, targetSize: nat)
    requires i <= j < targetSize && 0 < sourceSize
    ensures SourceIndex(i, sourceSize, targetSize) <= SourceIndex(j, sourceSize, targetSize)
  {
    hide SourceIndex;
    var s, t := SourceIndex(i, sourceSize, targetSize), SourceIndex(j, sourceSize, targetSize);
    SampleIsFloor(i, sourceSize, targetSize);
    SampleIsFloor(j, sourceSize, targetSize);
    ScaleMonotone(i, j, sourceSize);
    FloorMonotone(s, t, targetSize, i * sourceSize, j * sourceSize);
  }

  lemma ScaleMonotone(i: nat, j: nat, size: nat)
    requires i <= j
    ensures i * size <= j * size
  {
  }

  lemma FloorMonotone(s: nat, t: nat, size: nat, a: nat, b: nat)
    requires s * size <= a <= b < t * size + size
    ensures s <= t
  {
    if t < s {
      ScaleMonotone(t + 1, s, size);
    }
  }

  lemma SampleIdentity(i: nat, size: nat)
    requires i < size
    ensures SourceIndex(i, size, size) == i
  {
    SampleIsFloor(i, size, size);
    var s := SourceIndex(i, size, size);
    assert (i - s) * size == i * size - s * size;
    FloorUnique(i - s, size);
  }

  lemma FloorUnique(d: int, size: nat)
    requires 0 < size && 0 <= d * size < size
    ensures d == 0
  {
    if d >= 1 {
      AtLeastOnce(d, size);
    } else if d <= -1 {
      AtLeastOnce(-d, size);
    }
  }

  // ---------------------------------------------------------------- sampling

  lemma StrideOffset(h: Header)
    ensures Offset(h.width, h.channels) == Stride(h)
  {
    OffsetIsProduct(h.width, h.channels);
  }

  /** Byte `channel` of the pixel in row `y`, column `x`. */
  function Place(h: Header, y: nat, x: nat, channel: nat): (k: nat)
    requires y < h.height && x < h.width && channel < h.channels
    ensures k < Offset(h.height, Stride(h))
  {
    StrideOffset(h);
    OffsetGrows(x, h.width, h.channels);
    OffsetGrows(y, h.height, Stride(h));
    Offset(y, Stride(h)) + Offset(x, h.channels) + channel
  }

  function RowAt(h: Header, k: nat): nat {
    RowIn(k, Stride(h))
  }

  function ColumnAt(h: Header, k: nat): nat {
    RowIn(ColumnIn(k, Stride(h)), h.channels)
  }

  function ChannelAt(h: Header, k: nat): nat {
    ColumnIn(ColumnIn(k, Stride(h)), h.channels)
  }

  /** Every pixel byte has a row, a column and a channel. */
  lemma Placed(h: Header, k: nat)
    requires k < Offset(h.height, Stride(h))
    ensures RowAt(h, k) < h.height && ColumnAt(h, k) < h.width && ChannelAt(h, k) < h.channels
    ensures k == Place(h, RowAt(h, k), ColumnAt(h, k), ChannelAt(h, k))
  {
    var column := ColumnIn(k, Stride(h));
    RowBound(k, Stride(h), h.height);
    Locate(k, Stride(h));
    StrideOffset(h);
    RowBound(column, h.channels, h.width);
    Locate(column, h.channels);
  }

  lemma PlaceUnique(h: Header, y: nat, x: nat, channel: nat)
    requires y < h.height && x < h.width && channel < h.channels
    ensures var k := Place(h, y, x, channel);
      RowAt(h, k) == y && ColumnAt(h, k) == x && ChannelAt(h, k) == channel
  {
    StrideOffset(h);
    OffsetGrows(x, h.width, h.channels);
    RowOf(y, Offset(x, h.channels) + channel, Stride(h));
    RowOf(x, channel, h.channels);
  }

  /** The header of the scaled image; only the pixel limit can refuse it. */
  function TargetHeader(h: Header, targetWidth: nat): Result<Header>
    requires 1 <= targetWidth <= MAXIMUM_WIDTH
  {
    var targetHeight := TargetHeight(h.width, h.height, targetWidth);
    if Area(targetWidth, targetHeight) > MAXIMUM_DECODED_PIXELS then Err("image-derivative-output-pixel-limit")
    else Ok(Header(targetWidth, targetHeight, h.channels))
  }

  /** The byte that target row `y`, column `x` takes: always from one pixel of the source. */
  function Sample(image: Image, target: Header, y: nat, x: nat, channel: nat): Byte
    requires Complete(image) && target.channels == image.header.channels
    requires y < target.height && x < target.width && channel < target.channels
  {
    var h := image.header;
    image.pixels[Place(h, SourceIndex(y, h.height, target.height), SourceIndex(x, h.width, target.width), channel)]
  }

  /** `scaled` samples `image`: every byte of every target pixel is the sampled source byte. */
  ghost predicate Samples(image: Image, scaled: Image)
    requires Complete(image)
  {
    var target := scaled.header;
    && Complete(scaled) && target.channels == image.header.channels
    && forall y, x, channel :: 0 <= y < target.height && 0 <= x < target.width && 0 <= channel < target.channels ==>
      scaled.pixels[Place(target, y, x, channel)] == Sample(image, target, y, x, channel)
  }

  function SampleAt(image: Image, target: Header, k: nat): Byte
    requires Complete(image) && target.channels == image.header.channels && k < Offset(target.height, Stride(target))
  {
    Placed(target, k);
    Sample(image, target, RowAt(target, k), ColumnAt(target, k), ChannelAt(target, k))
  }

  function Scaled(image: Image, target: Header): (scaled: Image)
    requires Complete(image) && target.channels == image.header.channels
    ensures scaled.header == target && Complete(scaled)
  {
    Image(target, seq(Offset(target.height, Stride(target)),
      k requires 0 <= k < Offset(target.height, Stride(target)) => SampleAt(image, target, k)))
  }

  function Resize(image: Image, targetWidth: nat): Result<Image>
    requires Complete(image) && 1 <= targetWidth <= MAXIMUM_WIDTH
  {
    match TargetHeader(image.header, targetWidth)
    case Err(code) => Err(code)
    case Ok(target) => Ok(Scaled(image, target))
  }

  lemma ScaledAt(image: Image, target: Header, y: nat, x: nat, channel: nat)
    requires Complete(image) && target.channels == image.header.channels
    requires y < target.height && x < target.width && channel < target.channels
    ensures Scaled(image, target).pixels[Place(target, y, x, channel)] == Sample(image, target, y, x, channel)
  {
    PlaceUnique(target, y, x, channel);
  }

  /** Sampling fixes every byte of the scaled image. */
  lemma ScaledSamples(image: Image, scaled: Image)
    requires Complete(image) && scaled.header.channels == image.header.channels
    ensures Samples(image, scaled) <==> scaled == Scaled(image, scaled.header)
  {
    var target := scaled.header;
    if Samples(image, scaled) {
      forall k | 0 <= k < |scaled.pixels|
        ensures scaled.pixels[k] == Scaled(image, target).pixels[k]
      {
        Placed(target, k);
        ScaledAt(image, target, RowAt(target, k), ColumnAt(target, k), ChannelAt(target, k));
      }
    }
    forall y, x, channel | 0 <= y < target.height && 0 <= x < target.width && 0 <= channel < target.channels
      ensures Scaled(image, target).pixels[Place(target, y, x, channel)] == Sample(image, target, y, x, channel)
    {
      ScaledAt(image, target, y, x, channel);
    }
  }

  lemma SampleOwnSize(image: Image, k: nat)
    requires Complete(image) && k < |image.pixels|
    ensures SampleAt(image, image.header, k) == image.pixels[k]
  {
    var h := image.header;
    Placed(h, k);
    SampleIdentity(RowAt(h, k), h.height);
    SampleIdentity(ColumnAt(h, k), h.width);
  }

  /** Scaling to the image's own width changes nothing. */
  lemma ResizeToOwnWidth(image: Image)
    requires Complete(image)
    ensures Resize(image, image.header.width) == Ok(image)
  {
    var h := image.header;
    SameWidthSameHeight(h.width, h.height);
    var scaled := Scaled(image, h);
    forall k | 0 <= k < |image.pixels|
      ensures scaled.pixels[k] == image.pixels[k]
    {
      SampleOwnSize(image, k);
    }
    assert scaled.pixels == image.pixels;
  }

  // ---------------------------------------------------------------- the loops

  method CopyPixel(output: array<Byte>, pixels: Bytes, sourceOffset: nat, targetOffset: nat, channels: nat)
    requires sourceOffset + channels <= |pixels| && targetOffset + channels <= output.Length
    modifies output
    ensures output[..targetOffset] == old(output[..targetOffset])
    ensures output[targetOffset..targetOffset + channels] == pixels[sourceOffset..sourceOffset + channels]
  {
    var channel := 0;
    while channel < channels
      invariant 0 <= channel <= channels
      invariant output[..targetOffset] == old(output[..targetOffset])
      invariant output[targetOffset..targetOffset + channel] == pixels[sourceOffset..sourceOffset + channel]
    {
      output[targetOffset + channel] := pixels[sourceOffset + channel];
      channel := channel + 1;
    }
  }

  lemma PixelFits(h: Header, y: nat, x: nat)
    requires y < h.height && x < h.width
    ensures Offset(y, Stride(h)) + Offset(x, h.channels) + h.channels <= Offset(h.height, Stride(h))
    ensures Offset(x, h.channels) + h.channels <= Stride(h)
  {
    StrideOffset(h);
    OffsetGrows(x, h.width, h.channels);
    OffsetGrows(y, h.height, Stride(h));
  }

  // The pixel copied for row `y`, column `x` is the slice the scaled image has there.
  lemma SampledPixel(image: Image, target: Header, y: nat, x: nat, sourceOffset: nat, targetOffset: nat)
    requires Complete(image) && target.channels == image.header.channels && y < target.height && x < target.width
    requires targetOffset == Offset(y, Stride(target)) + Offset(x, target.channels)
    requires sourceOffset == Offset(SourceIndex(y, image.header.height, target.height), Stride(image.header))
      + Offset(SourceIndex(x, image.header.width, target.width), target.channels)
    ensures sourceOffset + target.channels <= |image.pixels| && targetOffset + target.channels <= |Scaled(image, target).pixels|
    ensures Scaled(image, target).pixels[targetOffset..targetOffset + target.channels]
      == image.pixels[sourceOffset..sourceOffset + target.channels]
  {
    var h := image.header;
    hide SourceIndex, Scaled, Area, Stride;
    PixelFits(target, y, x);
    PixelFits(h, SourceIndex(y, h.height, target.height), SourceIndex(x, h.width, target.width));
    var a := Scaled(image, target).pixels[targetOffset..targetOffset + target.channels];
    var b := image.pixels[sourceOffset..sourceOffset + target.channels];
    forall channel | 0 <= channel < target.channels
      ensures a[channel] == b[channel]
    {
      ScaledAt(image, target, y, x, channel);
    }
  }

  method ResizeRow(output: array<Byte>, image: Image, target: Header, y: nat, rowOffset: nat)
    requires Complete(image) && target.channels == image.header.channels && y < target.height
    requires output.Length == Offset(target.height, Stride(target)) && rowOffset == Offset(y, Stride(target))
    requires rowOffset <= output.Length && output[..rowOffset] == Scaled(image, target).pixels[..rowOffset]
    modifies output
    ensures rowOffset + Stride(target) <= output.Length
    ensures output[..rowOffset + Stride(target)] == Scaled(image, target).pixels[..rowOffset + Stride(target)]
  {
    hide Scaled, SourceIndex, Area, Stride;
    var h := image.header;
    ghost var scaled := Scaled(image, target).pixels;
    var sourceRow := Offset(SourceIndex(y, h.height, target.height), Stride(h));
    var x, targetOffset := 0, rowOffset;
    while x < target.width
      invariant 0 <= x <= target.width && targetOffset == rowOffset + Offset(x, target.channels)
      invariant targetOffset <= output.Length && output[..targetOffset] == scaled[..targetOffset]
    {
      var sourceOffset := sourceRow + Offset(SourceIndex(x, h.width, target.width), target.channels);
      SampledPixel(image, target, y, x, sourceOffset, targetOffset);
      CopyPixel(output, image.pixels, sourceOffset, targetOffset, target.channels);
      JoinAt(output[..], scaled, targetOffset, targetOffset + target.channels);
      x, targetOffset := x + 1, targetOffset + target.channels;
    }
    StrideOffset(target);
  }

  /** The scaling loop: every target pixel is copied whole from the source pixel it samples. */
  method ResizePixels(image: Image, targetWidth: nat) returns (r: Result<Image>)
    requires Complete(image) && 1 <= targetWidth <= MAXIMUM_WIDTH
    ensures r == Resize(image, targetWidth)
  {
    hide Scaled, Area, Stride, TargetHeight;
    var h := image.header;
    var targetHeight := TargetHeight(h.width, h.height, targetWidth);
    if Area(targetWidth, targetHeight) > MAXIMUM_DECODED_PIXELS {
      return Err("image-derivative-output-pixel-limit");
    }
    var target: Header := Header(targetWidth, targetHeight, h.channels);
    var total := Offset(targetHeight, Stride(target));
    var output := new Byte[total];
    var y, rowOffset := 0, 0;
    while y < targetHeight
      invariant 0 <= y <= targetHeight && rowOffset == Offset(y, Stride(target)) <= total
      invariant output[..rowOffset] == Scaled(image, target).pixels[..rowOffset]
    {
      ResizeRow(output, image, target, y, rowOffset);
      y, rowOffset := y + 1, rowOffset + Stride(target);
    }
    assert output[..] == output[..total];
    ScaledShape(image, target, output[..]);
    return Ok(Image(target, output[..]));
  }

  lemma ScaledShape(image: Image, target: Header, pixels: Bytes)
    requires Complete(image) && target.channels == image.header.channels
    requires |pixels| == Offset(target.height, Stride(target)) && pixels == Scaled(image, target).pixels[..|pixels|]
    ensures Image(target, pixels) == Scaled(image, target)
  {
  }
}
