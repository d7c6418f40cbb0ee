/** Scanline filters (section 6 of RFC 2083). */
module PngFilters {
  // Filtering is defined pixel by pixel from the original image; the decoder's in-place loop is proved to invert it,
  // for any choice of filter types 0 to 4 per row. Positions are flat: pixel byte `k` lies in row `RowIn(k, stride)`,
  // and its scanline byte at `k + row + 1`, because every row is preceded by one filter-type byte.
  // Products and quotients are spelled out as repeated addition and subtraction, which keeps every proof linear;
  // OffsetIsProduct and RowIsQuotient relate the two.

  import opened Common

  function Abs(x: int): nat {
    if x < 0 then -x else x
  }

  /** The neighbour nearest to left + above - upperLeft; ties go to left, then above (section 6.6). */
  function Paeth(left: Byte, above: Byte, upperLeft: Byte): (nearest: Byte)
    ensures nearest in [left, above, upperLeft]
    ensures forall other :: other in [left, above, upperLeft] ==>
      Abs(left + above - upperLeft - nearest) <= Abs(left + above - upperLeft - other)
    ensures nearest != left ==> Abs(left + above - upperLeft - nearest) < Abs(left + above - upperLeft - left)
    ensures nearest != left && nearest != above ==>
      Abs(left + above - upperLeft - nearest) < Abs(left + above - upperLeft - above)
  {
    var estimate := left + above - upperLeft;
    var leftDistance := Abs(estimate - left);
    var aboveDistance := Abs(estimate - above);
    var upperLeftDistance := Abs(estimate - upperLeft);
    if leftDistance <= aboveDistance && leftDistance <= upperLeftDistance then left
    else if aboveDistance <= upperLeftDistance then above
    else upperLeft
  }

  function Predict(filter: Byte, left: Byte, above: Byte, upperLeft: Byte): Byte {
    match filter
    case 1 => left
    case 2 => above
    case 3 => (left + above) / 2
    case 4 => Paeth(left, above, upperLeft)
    case _ => 0
  }

  // ---------------------------------------------------------------- rows and columns

  /** Where row `row` starts: row * stride. */
  function Offset(row: nat, stride: nat): nat {
    if row == 0 then 0 else Offset(row - 1, stride) + stride
  }

  lemma {:induction false} OffsetIsProduct(row: nat, stride: nat)
    ensures Offset(row, stride) == row * stride
  {
    if row > 0 {
      OffsetIsProduct(row - 1, stride);
    }
  }

  lemma {:induction false} OffsetGrows(row: nat, height: nat, stride: nat)
    requires row < height
    ensures Offset(row, stride) + stride <= Offset(height, stride)
    decreases height
  {
    if row < height - 1 {
      OffsetGrows(row, height - 1, stride);
    }
  }

  /** One filter-type byte per row. */
  lemma {:induction false} OffsetWithType(row: nat, stride: nat)
    ensures Offset(row, stride + 1) == Offset(row, stride) + row
  {
    if row > 0 {
      OffsetWithType(row - 1, stride);
    }
  }

  /** The row of pixel byte `k`: k / stride. */
  function RowIn(k: nat, stride: nat): (row: nat)
    requires 0 < stride
  {
    if k < stride then 0 else RowIn(k - stride, stride) + 1
  }

  /** The place of pixel byte `k` in its row: k % stride. */
  function ColumnIn(k: nat, stride: nat): (column: nat)
    requires 0 < stride
    ensures column < stride && column <= k && (k >= stride ==> column <= k - stride)
  {
    if k < stride then k else ColumnIn(k - stride, stride)
  }

  lemma {:induction false} RowIsQuotient(k: nat, stride: nat)
    requires 0 < stride
    ensures RowIn(k, stride) == k / stride && ColumnIn(k, stride) == k % stride
  {
    var row, column := RowIn(k, stride), ColumnIn(k, stride);
    Locate(k, stride);
    OffsetIsProduct(row, stride);
    assert k == row * stride + column;
    QuotientUnique(k, row, column, stride);
  }

  lemma AtLeastOnce(d: int, size: nat)
    requires d >= 1
    ensures d * size >= size
  {
  }

  lemma QuotientUnique(k: nat, row: nat, column: nat, stride: nat)
    requires column < stride && k == row * stride + column
    ensures row == k / stride && column == k % stride
  {
    var d, e := k / stride - row, column - k % stride;
    assert d * stride == e;
    if d >= 1 {
      AtLeastOnce(d, stride);
    } else if d <= -1 {
      AtLeastOnce(-d, stride);
    }
  }

  lemma {:induction false} Locate(k: nat, stride: nat)
    requires 0 < stride
    ensures k == Offset(RowIn(k, stride), stride) + ColumnIn(k, stride)
    decreases k
  {
    if k >= stride {
      Locate(k - stride, stride);
    }
  }

  lemma {:induction false} RowOf(row: nat, index: nat, stride: nat)
    requires index < stride
    ensures RowIn(Offset(row, stride) + index, stride) == row && ColumnIn(Offset(row, stride) + index, stride) == index
  {
    if row > 0 {
      RowOf(row - 1, index, stride);
    }
  }

  lemma {:induction false} OffsetOrder(row: nat, height: nat, stride: nat)
    requires Offset(row, stride) < Offset(height, stride)
    ensures row < height
  {
    if height <= row {
      if height < row {
        OffsetGrows(height, row, stride);
      }
    }
  }

  /** The row of a pixel byte lies in the image, and so does its scanline byte. */
  lemma RowBound(k: nat, stride: nat, height: nat)
    requires 0 < stride && k < Offset(height, stride)
    ensures RowIn(k, stride) < height
    ensures k + RowIn(k, stride) + 1 < Offset(height, stride + 1)
  {
    Locate(k, stride);
    OffsetOrder(RowIn(k, stride), height, stride);
    OffsetWithType(height, stride);
  }

  // ---------------------------------------------------------------- neighbours

  /** The byte of the pixel to the left, or 0 at the start of a row. */
  function Left(pixels: Bytes, stride: nat, bpp: nat, k: nat): Byte
    requires 0 < stride && 0 < bpp && k <= |pixels|
  {
    if ColumnIn(k, stride) >= bpp then pixels[k - bpp] else 0
  }

  function Above(pixels: Bytes, stride: nat, k: nat): Byte
    requires 0 < stride && k <= |pixels|
  {
    if k >= stride then pixels[k - stride] else 0
  }

  function UpperLeft(pixels: Bytes, stride: nat, bpp: nat, k: nat): Byte
    requires 0 < stride && 0 < bpp && k <= |pixels|
  {
    if k >= stride && ColumnIn(k, stride) >= bpp then pixels[k - stride - bpp] else 0
  }

  function Prediction(filter: Byte, pixels: Bytes, stride: nat, bpp: nat, k: nat): Byte
    requires 0 < stride && 0 < bpp && k <= |pixels|
  {
    Predict(filter, Left(pixels, stride, bpp, k), Above(pixels, stride, k), UpperLeft(pixels, stride, bpp, k))
  }

  // ---------------------------------------------------------------- filtering, as the standard defines it

  function FilteredByte(pixels: Bytes, filter: Byte, stride: nat, bpp: nat, k: nat): Byte
    requires 0 < stride && 0 < bpp && k < |pixels|
  {
    (pixels[k] - Prediction(filter, pixels, stride, bpp, k)) % 256
  }

  predicate Scanlines(scanlines: Bytes, stride: nat, bpp: nat, height: nat) {
    0 < stride && 0 < bpp && |scanlines| == Offset(height, stride + 1)
  }

  function FilterType(scanlines: Bytes, stride: nat, bpp: nat, height: nat, row: nat): Byte
    requires Scanlines(scanlines, stride, bpp, height) && row < height
  {
    OffsetGrows(row, height, stride + 1);
    scanlines[Offset(row, stride + 1)]
  }

  /** The filter type that applies to pixel byte `k`. */
  function FilterAt(scanlines: Bytes, stride: nat, bpp: nat, height: nat, k: nat): Byte
    requires Scanlines(scanlines, stride, bpp, height) && k < Offset(height, stride)
  {
    RowBound(k, stride, height);
    FilterType(scanlines, stride, bpp, height, RowIn(k, stride))
  }

  function RawByte(scanlines: Bytes, stride: nat, bpp: nat, height: nat, k: nat): Byte
    requires Scanlines(scanlines, stride, bpp, height) && k < Offset(height, stride)
  {
    RowBound(k, stride, height);
    scanlines[k + RowIn(k, stride) + 1]
  }

  /** `scanlines` holds the image `pixels`, each row filtered with the type that precedes it. */
  ghost predicate Filtered(pixels: Bytes, scanlines: Bytes, stride: nat, bpp: nat, height: nat) {
    && Scanlines(scanlines, stride, bpp, height)
    && |pixels| == Offset(height, stride)
    && forall k :: 0 <= k < |pixels| ==>
      RawByte(scanlines, stride, bpp, height, k)
        == FilteredByte(pixels, FilterAt(scanlines, stride, bpp, height, k), stride, bpp, k)
  }

  /** The byte at place `column` of scanline `row`: the filter type, then the filtered pixel bytes. */
  function ScanlineByte(pixels: Bytes, filters: Bytes, stride: nat, bpp: nat, row: nat, column: nat): Byte
    requires 0 < stride && 0 < bpp && |pixels| == Offset(|filters|, stride)
    requires row < |filters| && column <= stride
  {
    OffsetGrows(row, |filters|, stride);
    if column == 0 then filters[row]
    else FilteredByte(pixels, filters[row], stride, bpp, Offset(row, stride) + column - 1)
  }

  /** The whole filtered stream for a choice of one filter type per row. */
  function FilterAll(pixels: Bytes, filters: Bytes, stride: nat, bpp: nat): (scanlines: Bytes)
    requires 0 < stride && 0 < bpp && |pixels| == Offset(|filters|, stride)
    ensures |scanlines| == Offset(|filters|, stride + 1)
  {
    seq(Offset(|filters|, stride + 1), j requires 0 <= j < Offset(|filters|, stride + 1) =>
      RowBound(j, stride + 1, |filters|);
      ScanlineByte(pixels, filters, stride, bpp, RowIn(j, stride + 1), ColumnIn(j, stride + 1)))
  }

  lemma FilterAllAt(pixels: Bytes, filters: Bytes, stride: nat, bpp: nat, row: nat, column: nat)
    requires 0 < stride && 0 < bpp && |pixels| == Offset(|filters|, stride)
    requires row < |filters| && column <= stride
    ensures Offset(row, stride + 1) + column < Offset(|filters|, stride + 1)
    ensures FilterAll(pixels, filters, stride, bpp)[Offset(row, stride + 1) + column]
      == ScanlineByte(pixels, filters, stride, bpp, row, column)
  {
    OffsetGrows(row, |filters|, stride + 1);
    RowOf(row, column, stride + 1);
  }

  lemma FilterAllType(pixels: Bytes, filters: Bytes, stride: nat, bpp: nat, row: nat)
    requires 0 < stride && 0 < bpp && |pixels| == Offset(|filters|, stride) && row < |filters|
    ensures FilterType(FilterAll(pixels, filters, stride, bpp), stride, bpp, |filters|, row) == filters[row]
  {
    FilterAllAt(pixels, filters, stride, bpp, row, 0);
  }

  /** Pixel byte `k` stands right of its row's filter type. */
  lemma ScanlinePlace(k: nat, stride: nat, height: nat) returns (row: nat, column: nat)
    requires 0 < stride && k < Offset(height, stride)
    ensures row == RowIn(k, stride) < height && column < stride
    ensures k == Offset(row, stride) + column && k + row + 1 == Offset(row, stride + 1) + column + 1
  {
    row, column := RowIn(k, stride), ColumnIn(k, stride);
    RowBound(k, stride, height);
    Locate(k, stride);
    OffsetWithType(row, stride);
  }

  lemma FilterAllPlace(pixels: Bytes, filters: Bytes, stride: nat, bpp: nat, row: nat, column: nat, k: nat, j: nat)
    requires 0 < stride && 0 < bpp && |pixels| == Offset(|filters|, stride)
    requires row < |filters| && column < stride && k == Offset(row, stride) + column < |pixels|
    requires j == Offset(row, stride + 1) + (column + 1) < Offset(|filters|, stride + 1)
    ensures FilterAll(pixels, filters, stride, bpp)[j] == FilteredByte(pixels, filters[row], stride, bpp, k)
  {
    FilterAllAt(pixels, filters, stride, bpp, row, column + 1);
  }

  lemma FilterAllRaw(pixels: Bytes, filters: Bytes, stride: nat, bpp: nat, k: nat)
    requires 0 < stride && 0 < bpp && |pixels| == Offset(|filters|, stride) && k < |pixels|
    ensures RowIn(k, stride) < |filters|
    ensures RawByte(FilterAll(pixels, filters, stride, bpp), stride, bpp, |filters|, k)
      == FilteredByte(pixels, filters[RowIn(k, stride)], stride, bpp, k)
  {
    var row, column := ScanlinePlace(k, stride, |filters|);
    RowBound(k, stride, |filters|);
    FilterAllPlace(pixels, filters, stride, bpp, row, column, k, k + row + 1);
  }

  lemma FilterAllByte(pixels: Bytes, filters: Bytes, stride: nat, bpp: nat, scanlines: Bytes, k: nat)
    requires 0 < stride && 0 < bpp && |pixels| == Offset(|filters|, stride) && k < |pixels|
    requires scanlines == FilterAll(pixels, filters, stride, bpp)
    ensures RawByte(scanlines, stride, bpp, |filters|, k)
      == FilteredByte(pixels, FilterAt(scanlines, stride, bpp, |filters|, k), stride, bpp, k)
  {
    FilterAllRaw(pixels, filters, stride, bpp, k);
    FilterAllType(pixels, filters, stride, bpp, RowIn(k, stride));
  }

  /** Every image has a filtered stream for every choice of filter types. */
  lemma FilterAllFilters(pixels: Bytes, filters: Bytes, stride: nat, bpp: nat)
    requires 0 < stride && 0 < bpp && |pixels| == Offset(|filters|, stride)
    ensures var scanlines := FilterAll(pixels, filters, stride, bpp);
      && Filtered(pixels, scanlines, stride, bpp, |filters|)
      && forall row :: 0 <= row < |filters| ==> FilterType(scanlines, stride, bpp, |filters|, row) == filters[row]
  {
    var scanlines := FilterAll(pixels, filters, stride, bpp);
    forall k | 0 <= k < |pixels|
      ensures RawByte(scanlines, stride, bpp, |filters|, k)
        == FilteredByte(pixels, FilterAt(scanlines, stride, bpp, |filters|, k), stride, bpp, k)
    {
      FilterAllByte(pixels, filters, stride, bpp, scanlines, k);
    }
    forall row | 0 <= row < |filters|
      ensures FilterType(scanlines, stride, bpp, |filters|, row) == filters[row]
    {
      FilterAllType(pixels, filters, stride, bpp, row);
    }
  }

  // ---------------------------------------------------------------- unfiltering

  /** The first `k` pixel bytes the decoder rebuilds, each from the bytes rebuilt before it. */
  function Rebuilt(scanlines: Bytes, stride: nat, bpp: nat, height: nat, k: nat): (pixels: Bytes)
    requires Scanlines(scanlines, stride, bpp, height) && k <= Offset(height, stride)
    ensures |pixels| == k
  {
    if k == 0 then []
    else
      var before := Rebuilt(scanlines, stride, bpp, height, k - 1);
      before + [RebuiltByte(scanlines, before, stride, bpp, height, k - 1)]
  }

  function RebuiltByte(scanlines: Bytes, before: Bytes, stride: nat, bpp: nat, height: nat, k: nat): Byte
    requires Scanlines(scanlines, stride, bpp, height) && k < Offset(height, stride) && k <= |before|
  {
    var filter := FilterAt(scanlines, stride, bpp, height, k);
    (RawByte(scanlines, stride, bpp, height, k) + Prediction(filter, before, stride, bpp, k)) % 256
  }

  // Every neighbour precedes the byte being rebuilt.
  lemma PredictionLooksBack(filter: Byte, a: Bytes, b: Bytes, stride: nat, bpp: nat, k: nat)
    requires 0 < stride && 0 < bpp && k <= |a| && k <= |b| && a[..k] == b[..k]
    ensures Prediction(filter, a, stride, bpp, k) == Prediction(filter, b, stride, bpp, k)
  {
    assert forall j :: 0 <= j < k ==> a[j] == a[..k][j] && b[j] == b[..k][j];
  }

  lemma AddUndoesSubtract(pixel: Byte, prediction: Byte)
    ensures ((pixel - prediction) % 256 + prediction) % 256 == pixel
    ensures ((pixel + prediction) % 256 - prediction) % 256 == pixel
  {
  }

  lemma RebuiltByteIsPixel(pixels: Bytes, scanlines: Bytes, stride: nat, bpp: nat, height: nat, k: nat)
    requires Filtered(pixels, scanlines, stride, bpp, height) && k < |pixels|
    ensures RebuiltByte(scanlines, pixels[..k], stride, bpp, height, k) == pixels[k]
  {
    var filter := FilterAt(scanlines, stride, bpp, height, k);
    PredictionLooksBack(filter, pixels, pixels[..k], stride, bpp, k);
    AddUndoesSubtract(pixels[k], Prediction(filter, pixels, stride, bpp, k));
  }

  lemma {:induction false} RebuiltIsPrefix(pixels: Bytes, scanlines: Bytes, stride: nat, bpp: nat, height: nat, k: nat)
    requires Filtered(pixels, scanlines, stride, bpp, height) && k <= |pixels|
    ensures Rebuilt(scanlines, stride, bpp, height, k) == pixels[..k]
    decreases k
  {
    if k > 0 {
      RebuiltIsPrefix(pixels, scanlines, stride, bpp, height, k - 1);
      RebuiltByteIsPixel(pixels, scanlines, stride, bpp, height, k - 1);
    }
  }

  /** Unfiltering undoes filtering, whatever filter type each row uses. */
  lemma UnfilterUndoesFilter(pixels: Bytes, scanlines: Bytes, stride: nat, bpp: nat, height: nat)
    requires Filtered(pixels, scanlines, stride, bpp, height)
    ensures Rebuilt(scanlines, stride, bpp, height, Offset(height, stride)) == pixels
  {
    RebuiltIsPrefix(pixels, scanlines, stride, bpp, height, |pixels|);
  }

  lemma {:induction false} RebuiltGrows(scanlines: Bytes, stride: nat, bpp: nat, height: nat, k: nat, total: nat)
    requires Scanlines(scanlines, stride, bpp, height) && k <= total <= Offset(height, stride)
    ensures Rebuilt(scanlines, stride, bpp, height, total)[..k] == Rebuilt(scanlines, stride, bpp, height, k)
    decreases total
  {
    if k < total {
      RebuiltGrows(scanlines, stride, bpp, height, k, total - 1);
    }
  }

  lemma RebuiltByteRefilters(scanlines: Bytes, pixels: Bytes, stride: nat, bpp: nat, height: nat, k: nat)
    requires Scanlines(scanlines, stride, bpp, height) && k < Offset(height, stride)
    requires pixels == Rebuilt(scanlines, stride, bpp, height, Offset(height, stride))
    ensures FilteredByte(pixels, FilterAt(scanlines, stride, bpp, height, k), stride, bpp, k)
      == RawByte(scanlines, stride, bpp, height, k)
  {
    hide Prediction, FilterAt, RawByte;
    var filter := FilterAt(scanlines, stride, bpp, height, k);
    RebuiltGrows(scanlines, stride, bpp, height, k, Offset(height, stride));
    RebuiltGrows(scanlines, stride, bpp, height, k + 1, Offset(height, stride));
    assert pixels[k] == pixels[..k + 1][k];
    PredictionLooksBack(filter, pixels, Rebuilt(scanlines, stride, bpp, height, k), stride, bpp, k);
    AddUndoesSubtract(RawByte(scanlines, stride, bpp, height, k), Prediction(filter, pixels, stride, bpp, k));
  }

  /** Every stream is the filtered form of exactly the image rebuilt from it. */
  lemma FilterUndoesUnfilter(scanlines: Bytes, pixels: Bytes, stride: nat, bpp: nat, height: nat)
    requires Scanlines(scanlines, stride, bpp, height)
    ensures Filtered(pixels, scanlines, stride, bpp, height)
      <==> pixels == Rebuilt(scanlines, stride, bpp, height, Offset(height, stride))
  {
    if Filtered(pixels, scanlines, stride, bpp, height) {
      UnfilterUndoesFilter(pixels, scanlines, stride, bpp, height);
    }
    if pixels == Rebuilt(scanlines, stride, bpp, height, Offset(height, stride)) {
      forall k | 0 <= k < |pixels|
        ensures RawByte(scanlines, stride, bpp, height, k)
          == FilteredByte(pixels, FilterAt(scanlines, stride, bpp, height, k), stride, bpp, k)
      {
        RebuiltByteRefilters(scanlines, pixels, stride, bpp, height, k);
      }
    }
  }

  // ---------------------------------------------------------------- the decoder's loops

  ghost predicate KnownFilters(scanlines: Bytes, stride: nat, bpp: nat, height: nat)
    requires Scanlines(scanlines, stride, bpp, height)
  {
    forall row :: 0 <= row < height ==> FilterType(scanlines, stride, bpp, height, row) <= 4
  }

  /** What the decoder answers for an inflated stream. */
  ghost function Unfiltered(scanlines: Bytes, stride: nat, bpp: nat, height: nat): Result<Bytes>
    requires Scanlines(scanlines, stride, bpp, height)
  {
    if KnownFilters(scanlines, stride, bpp, height)
    then Ok(Rebuilt(scanlines, stride, bpp, height, Offset(height, stride)))
    else Err("image-derivative-png-filter-unsupported")
  }

  /** Decoding any filtered form of an image gives the image back, for every choice of types 0 to 4. */
  lemma UnfilteredFilterAll(pixels: Bytes, filters: Bytes, stride: nat, bpp: nat)
    requires 0 < stride && 0 < bpp && |pixels| == Offset(|filters|, stride)
    ensures Unfiltered(FilterAll(pixels, filters, stride, bpp), stride, bpp, |filters|)
      == if forall row :: 0 <= row < |filters| ==> filters[row] <= 4 then Ok(pixels)
         else Err("image-derivative-png-filter-unsupported")
  {
    var scanlines := FilterAll(pixels, filters, stride, bpp);
    FilterAllFilters(pixels, filters, stride, bpp);
    UnfilterUndoesFilter(pixels, scanlines, stride, bpp, |filters|);
    if forall row :: 0 <= row < |filters| ==> filters[row] <= 4 {
      assert KnownFilters(scanlines, stride, bpp, |filters|);
    } else {
      var row :| 0 <= row < |filters| && filters[row] > 4;
      assert FilterType(scanlines, stride, bpp, |filters|, row) > 4;
    }
  }

  lemma NeighboursAt(pixels: Bytes, stride: nat, bpp: nat, row: nat, index: nat, k: nat)
    requires 0 < bpp && index < stride && k == Offset(row, stride) + index && k <= |pixels|
    ensures row > 0 <==> k >= stride
    ensures index >= bpp ==> bpp <= k && (row > 0 ==> stride + bpp <= k)
    ensures Left(pixels, stride, bpp, k) == (if index >= bpp then pixels[k - bpp] else 0)
    ensures Above(pixels, stride, k) == (if row > 0 then pixels[k - stride] else 0)
    ensures UpperLeft(pixels, stride, bpp, k) == (if row > 0 && index >= bpp then pixels[k - stride - bpp] else 0)
  {
    RowOf(row, index, stride);
  }

  lemma ScanlineAt(scanlines: Bytes, stride: nat, bpp: nat, height: nat, row: nat, index: nat, k: nat)
    requires Scanlines(scanlines, stride, bpp, height)
    requires row < height && index < stride && k == Offset(row, stride) + index
    ensures k < Offset(height, stride) && k + row + 1 < |scanlines|
    ensures FilterAt(scanlines, stride, bpp, height, k) == FilterType(scanlines, stride, bpp, height, row)
    ensures RawByte(scanlines, stride, bpp, height, k) == scanlines[k + row + 1]
  {
    OffsetGrows(row, height, stride);
    RowOf(row, index, stride);
    RowBound(k, stride, height);
  }

  lemma RebuiltNext(scanlines: Bytes, pixels: Bytes, stride: nat, bpp: nat, height: nat, k: nat)
    requires Scanlines(scanlines, stride, bpp, height)
    requires k < Offset(height, stride) == |pixels| && pixels[..k] == Rebuilt(scanlines, stride, bpp, height, k)
    ensures pixels[..k] + [RebuiltByte(scanlines, pixels, stride, bpp, height, k)] == Rebuilt(scanlines, stride, bpp, height, k + 1)
  {
    PredictionLooksBack(FilterAt(scanlines, stride, bpp, height, k), pixels, pixels[..k], stride, bpp, k);
  }

  /** One turn of the inner loop: the next byte of row `row`. */
  method UnfilterByte(pixels: array<Byte>, scanlines: Bytes, filterType: Byte, stride: nat, bpp: nat, height: nat,
      row: nat, index: nat, k: nat)
    requires Scanlines(scanlines, stride, bpp, height) && pixels.Length == Offset(height, stride)
    requires row < height && index < stride && k == Offset(row, stride) + index && k < pixels.Length
    requires filterType == FilterType(scanlines, stride, bpp, height, row)
    requires pixels[..k] == Rebuilt(scanlines, stride, bpp, height, k)
    modifies pixels
    ensures pixels[..k + 1] == Rebuilt(scanlines, stride, bpp, height, k + 1)
  {
    NeighboursAt(pixels[..], stride, bpp, row, index, k);
    ScanlineAt(scanlines, stride, bpp, height, row, index, k);
    RebuiltNext(scanlines, pixels[..], stride, bpp, height, k);
    var raw := scanlines[k + row + 1];
    var left := if index >= bpp then pixels[k - bpp] else 0;
    var above := if row > 0 then pixels[k - stride] else 0;
    var upperLeft := if row > 0 && index >= bpp then pixels[k - stride - bpp] else 0;
    var value := raw + Predict(filterType, left, above, upperLeft);
    ghost var before := pixels[..k];
    pixels[k] := value % 256;
    assert pixels[..k + 1] == before + [value % 256];
  }

  method UnfilterRow(pixels: array<Byte>, scanlines: Bytes, filterType: Byte, stride: nat, bpp: nat, height: nat,
      row: nat, targetOffset: nat)
    requires Scanlines(scanlines, stride, bpp, height) && pixels.Length == Offset(height, stride)
    requires row < height && targetOffset == Offset(row, stride) <= targetOffset + stride <= pixels.Length
    requires filterType == FilterType(scanlines, stride, bpp, height, row)
    requires pixels[..targetOffset] == Rebuilt(scanlines, stride, bpp, height, targetOffset)
    modifies pixels
    ensures pixels[..targetOffset + stride] == Rebuilt(scanlines, stride, bpp, height, targetOffset + stride)
  {
    hide Rebuilt, FilterType;
    var index, k := 0, targetOffset;
    while index < stride
      invariant 0 <= index <= stride && k == targetOffset + index
      invariant pixels[..k] == Rebuilt(scanlines, stride, bpp, height, k)
    {
      UnfilterByte(pixels, scanlines, filterType, stride, bpp, height, row, index, k);
      index, k := index + 1, k + 1;
    }
  }

  /** The in-place scanline loop of the decoder. */
  method Unfilter(scanlines: Bytes, stride: nat, bpp: nat, height: nat) returns (r: Result<Bytes>)
    requires Scanlines(scanlines, stride, bpp, height)
    ensures r == Unfiltered(scanlines, stride, bpp, height)
  {
    hide RebuiltByte, FilterType;
    var total := Offset(height, stride);
    var pixels := new Byte[total];
    var row, targetOffset := 0, 0;
    while row < height
      invariant 0 <= row <= height && targetOffset == Offset(row, stride) && targetOffset <= total
      invariant forall above :: 0 <= above < row ==> FilterType(scanlines, stride, bpp, height, above) <= 4
      invariant pixels[..targetOffset] == Rebuilt(scanlines, stride, bpp, height, targetOffset)
    {
      var filterType := FilterType(scanlines, stride, bpp, height, row);
      if filterType > 4 {
        return Err("image-derivative-png-filter-unsupported");
      }
      OffsetGrows(row, height, stride);
      UnfilterRow(pixels, scanlines, filterType, stride, bpp, height, row, targetOffset);
      row, targetOffset := row + 1, targetOffset + stride;
    }
    assert pixels[..] == pixels[..total];
    return Ok(pixels[..]);
  }

  // ---------------------------------------------------------------- the encoder's loop

  function NoFilters(height: nat): (filters: Bytes)
    ensures |filters| == height
  {
    seq(height, _ => 0)
  }

  /** What the encoder feeds to the compressor: every row unfiltered. */
  function PlainScanlines(pixels: Bytes, stride: nat, bpp: nat, height: nat): (scanlines: Bytes)
    requires 0 < stride && 0 < bpp && |pixels| == Offset(height, stride)
    ensures |scanlines| == Offset(height, stride + 1)
  {
    FilterAll(pixels, NoFilters(height), stride, bpp)
  }

  lemma PlainByte(pixels: Bytes, stride: nat, bpp: nat, height: nat, row: nat, column: nat)
    requires 0 < stride && 0 < bpp && |pixels| == Offset(height, stride) && row < height && column <= stride
    ensures Offset(row, stride) + stride <= |pixels|
    ensures Offset(row, stride + 1) + column < Offset(height, stride + 1)
    ensures PlainScanlines(pixels, stride, bpp, height)[Offset(row, stride + 1) + column]
      == if column == 0 then 0 else pixels[Offset(row, stride) + column - 1]
  {
    OffsetGrows(row, height, stride);
    FilterAllAt(pixels, NoFilters(height), stride, bpp, row, column);
  }

  lemma RowAfterType(line: Bytes, row: Bytes)
    requires |line| == |row| + 1 && line[0] == 0
    requires forall j :: 1 <= j < |line| ==> line[j] == row[j - 1]
    ensures line == [0] + row
  {
  }

  /** One scanline of the plain stream: a zero filter type, then the pixel row. */
  lemma PlainRow(pixels: Bytes, stride: nat, bpp: nat, height: nat, row: nat, source: nat, target: nat)
    requires 0 < stride && 0 < bpp && |pixels| == Offset(height, stride) && row < height
    requires source == Offset(row, stride) && target == Offset(row, stride + 1)
    ensures source + stride <= |pixels| && target + stride + 1 <= Offset(height, stride + 1)
    ensures PlainScanlines(pixels, stride, bpp, height)[target..target + stride + 1]
      == [0] + pixels[source..source + stride]
  {
    OffsetGrows(row, height, stride);
    OffsetGrows(row, height, stride + 1);
    hide PlainScanlines;
    var line := PlainScanlines(pixels, stride, bpp, height)[target..target + stride + 1];
    PlainByte(pixels, stride, bpp, height, row, 0);
    forall j | 1 <= j < |line|
      ensures line[j] == pixels[source..source + stride][j - 1]
    {
      PlainByte(pixels, stride, bpp, height, row, j);
    }
    RowAfterType(line, pixels[source..source + stride]);
  }

  /** A zero filter type, then a copy of the pixel row. */
  method WriteRow(scanlines: array<Byte>, pixels: Bytes, source: nat, target: nat, stride: nat)
    requires source + stride <= |pixels| && target + stride + 1 <= scanlines.Length
    modifies scanlines
    ensures scanlines[..target] == old(scanlines[..target])
    ensures scanlines[target..target + stride + 1] == [0] + pixels[source..source + stride]
  {
    scanlines[target] := 0;
    var index := 0;
    while index < stride
      invariant 0 <= index <= stride
      invariant scanlines[..target] == old(scanlines[..target]) && scanlines[target] == 0
      invariant scanlines[target + 1..target + 1 + index] == pixels[source..source + index]
    {
      scanlines[target + 1 + index] := pixels[source + index];
      index := index + 1;
    }
    assert scanlines[target..target + stride + 1] == [scanlines[target]] + scanlines[target + 1..target + 1 + stride];
  }

  lemma JoinAt(a: Bytes, b: Bytes, k: nat, end: nat)
    requires k <= end <= |a| && end <= |b| && a[..k] == b[..k] && a[k..end] == b[k..end]
    ensures a[..end] == b[..end]
  {
    assert a[..end] == a[..k] + a[k..end];
    assert b[..end] == b[..k] + b[k..end];
  }

  /** The encoder's loop copies row after row behind a zero filter type. */
  method WriteScanlines(pixels: Bytes, stride: nat, bpp: nat, height: nat) returns (written: Bytes)
    requires 0 < stride && 0 < bpp && |pixels| == Offset(height, stride)
    ensures written == PlainScanlines(pixels, stride, bpp, height)
  {
    var total := Offset(height, stride + 1);
    var scanlines := new Byte[total];
    hide PlainScanlines;
    ghost var plain := PlainScanlines(pixels, stride, bpp, height);
    var row, source, target := 0, 0, 0;
    while row < height
      invariant 0 <= row <= height && source == Offset(row, stride)
      invariant target == Offset(row, stride + 1) <= total && scanlines[..target] == plain[..target]
    {
      PlainRow(pixels, stride, bpp, height, row, source, target);
      WriteRow(scanlines, pixels, source, target, stride);
      JoinAt(scanlines[..], plain, target, target + stride + 1);
      row, source, target := row + 1, source + stride, target + stride + 1;
    }
    assert scanlines[..] == scanlines[..total];
    return scanlines[..];
  }
}
