/** The encoder, and what decoding gives back. */
module PngRoundTrip {
  import opened Common
  import opened PngChunks
  import opened PngFilters
  import opened PngCodec
  import PngCrc

  // ---------------------------------------------------------------- encoding

  function HeaderBytes(h: Header): (bytes: Bytes)
    requires h.height < 0x1_0000_0000
    ensures |bytes| == 13
  {
    WriteU32(h.width) + WriteU32(h.height) + [8, if h.channels == 3 then 2 else 6, 0, 0, 0]
  }

  /** The compression level: a twelfth of the quality, rounded to nearest, between 1 and 9. */
  function Level(quality: int): (level: int)
    ensures 1 <= level <= 9
    ensures 18 <= quality < 102 ==> 12 * level - 6 <= quality < 12 * level + 6
    ensures quality < 18 ==> level == 1
    ensures quality >= 102 ==> level == 9
  {
    var rounded := (quality + 6) / 12;
    if rounded < 1 then 1 else if rounded > 9 then 9 else rounded
  }

  function AsOctets(bytes: Bytes): PngCrc.Octets {
    seq(|bytes|, i requires 0 <= i < |bytes| => bytes[i] as PngCrc.Octet)
  }

  function WordBytes(w: PngCrc.Word): (bytes: Bytes)
    ensures |bytes| == 4
  {
    WriteU32(w as int)
  }

  function ChecksumBytes(kind: Bytes, data: Bytes): (bytes: Bytes)
    ensures |bytes| == 4
  {
    WordBytes(PngCrc.Crc(AsOctets(kind + data)))
  }

  function MakeChunk(kind: Bytes, data: Bytes): Chunk
    requires |kind| == 4 && |data| < 0x1_0000_0000
  {
    Chunk(kind, data, ChecksumBytes(kind, data))
  }

  /** A header within the limits always fits the 32-bit fields of the file. */
  lemma HeightFits(h: Header)
    ensures h.height <= MAXIMUM_DECODED_PIXELS
  {
    assert h.height <= h.width * h.height == Area(h.width, h.height);
  }

  function EncodedChunks(h: Header, compressed: Bytes): (chunks: seq<Chunk>)
    requires |compressed| < 0x1_0000_0000
  {
    HeightFits(h);
    [MakeChunk(IHDR, HeaderBytes(h)), MakeChunk(IDAT, compressed), MakeChunk(IEND, [])]
  }

  /** The whole encoder; an oversized stream cannot be framed, because its length does not fit 32 bits. */
  function Encode(image: Image, quality: int, deflate: (Bytes, int) -> Bytes): Result<Bytes>
    requires Complete(image)
  {
    var h := image.header;
    var compressed := deflate(PlainScanlines(image.pixels, Stride(h), h.channels, h.height), Level(quality));
    if |compressed| >= 0x1_0000_0000 then Err("ERR_OUT_OF_RANGE")
    else
      var encoded := SIGNATURE + Frames(EncodedChunks(h, compressed));
      if |encoded| > MAXIMUM_OUTPUT_BYTES then Err("image-derivative-output-byte-limit") else Ok(encoded)
  }

  method WriteChunk(table: array<PngCrc.Word>, kind: Bytes, data: Bytes) returns (bytes: Bytes)
    requires PngCrc.IsTable(table[..]) && |kind| == 4 && |data| < 0x1_0000_0000
    ensures bytes == Frame(MakeChunk(kind, data))
  {
    hide WordBytes, PngCrc.Crc, WriteU32, AsOctets;
    var checksum := PngCrc.Crc32(table, AsOctets(kind + data));
    bytes := WriteU32(|data|) + kind + data + WordBytes(checksum);
  }

  lemma ThreeFrames(a: Chunk, b: Chunk, c: Chunk)
    ensures Frames([a, b, c]) == Frame(a) + Frame(b) + Frame(c)
  {
    assert Frames([]) == [];
    assert [a, b, c][1..] == [b, c] && [b, c][1..] == [c] && [c][1..] == [];
    assert Frames([c]) == Frame(c) + [];
    assert Frames([b, c]) == Frame(b) + Frame(c);
  }

  method EncodePng(image: Image, quality: int, deflate: (Bytes, int) -> Bytes) returns (r: Result<Bytes>)
    requires Complete(image)
    ensures r == Encode(image, quality, deflate)
  {
    var h := image.header;
    HeightFits(h);
    var scanlines := WriteScanlines(image.pixels, Stride(h), h.channels, h.height);
    var compressed := deflate(scanlines, Level(quality));
    if |compressed| >= 0x1_0000_0000 {
      return Err("ERR_OUT_OF_RANGE");
    }
    var table := PngCrc.BuildTable();
    var header := WriteChunk(table, IHDR, HeaderBytes(h));
    var data := WriteChunk(table, IDAT, compressed);
    var end := WriteChunk(table, IEND, []);
    ThreeFrames(MakeChunk(IHDR, HeaderBytes(h)), MakeChunk(IDAT, compressed), MakeChunk(IEND, []));
    var encoded := SIGNATURE + (header + data + end);
    if |encoded| > MAXIMUM_OUTPUT_BYTES {
      return Err("image-derivative-output-byte-limit");
    }
    return Ok(encoded);
  }

  // ---------------------------------------------------------------- the header

  lemma ParseHeaderBytes(h: Header)
    requires h.height < 0x1_0000_0000
    ensures ParseHeader(HeaderBytes(h)) == Ok(h)
  {
    var bytes := HeaderBytes(h);
    assert bytes[0..4] == WriteU32(h.width) && bytes[4..8] == WriteU32(h.height);
    ReadWritten(h.width, bytes, 0);
    ReadWritten(h.height, bytes, 4);
  }

  lemma KindsAreAscii()
    ensures Ascii(IHDR) == IHDR && Ascii(IDAT) == IDAT && Ascii(IEND) == IEND
    ensures IHDR != IDAT && IHDR != IEND && IDAT != IEND
  {
    assert IHDR[1] == 72 && IDAT[1] == 68 && IEND[1] == 69;
  }

  // ---------------------------------------------------------------- any file that carries an image

  /** Chunks that may stand between IHDR and IEND: image data and anything the decoder skips. */
  predicate Between(chunks: seq<Chunk>) {
    forall c :: c in chunks ==>
      |c.data| <= MAXIMUM_SOURCE_BYTES && Ascii(c.kind) != IHDR && Ascii(c.kind) != IEND
  }

  /** The image data among `chunks`, in order. */
  function DataParts(chunks: seq<Chunk>): seq<Bytes> {
    if chunks == [] then []
    else (if Ascii(chunks[0].kind) == IDAT then [chunks[0].data] else []) + DataParts(chunks[1..])
  }

  predicate MidFile(p: Progress, more: nat) {
    p.header.Some? && !p.sawEnd && p.count + more <= MAXIMUM_CHUNKS
  }

  /** The progress after `chunks`. */
  function Passed(p: Progress, chunks: seq<Chunk>): Progress {
    p.(count := p.count + |chunks|, parts := p.parts + DataParts(chunks))
  }

  lemma DataPartsOfOne(c: Chunk)
    ensures DataParts([c]) == if Ascii(c.kind) == IDAT then [c.data] else []
  {
  }

  lemma TakeBetween(c: Chunk, p: Progress)
    requires Between([c]) && MidFile(p, 1)
    ensures TakeNext(p, c) == Ok(Passed(p, [c]))
  {
    assert c in [c];
    DataPartsOfOne(c);
    assert p.parts + [] == p.parts;
  }

  lemma PassedInTurn(p: Progress, chunks: seq<Chunk>)
    requires chunks != []
    ensures Passed(Passed(p, [chunks[0]]), chunks[1..]) == Passed(p, chunks)
  {
    var one, rest := DataParts([chunks[0]]), DataParts(chunks[1..]);
    DataPartsOfOne(chunks[0]);
    assert DataParts(chunks) == one + rest;
    hide *;
    assert p.parts + one + rest == p.parts + (one + rest);
    assert p.parts + DataParts([chunks[0]]) + DataParts(chunks[1..]) == p.parts + DataParts(chunks);
  }

  lemma TakeAllOne(c: Chunk, rest: seq<Chunk>, p: Progress, taken: Progress)
    requires TakeNext(p, c) == Ok(taken)
    ensures TakeAll([c] + rest, p) == if taken.sawEnd then Ok(taken) else TakeAll(rest, taken)
  {
    assert ([c] + rest)[1..] == rest;
  }

  lemma {:induction false} TakeAllBetween(chunks: seq<Chunk>, rest: seq<Chunk>, p: Progress)
    requires Between(chunks) && MidFile(p, |chunks|)
    ensures TakeAll(chunks + rest, p) == TakeAll(rest, Passed(p, chunks))
    decreases |chunks|
  {
    if chunks == [] {
      assert chunks + rest == rest && p.parts + [] == p.parts;
    } else {
      var c := chunks[0];
      assert chunks + rest == [c] + (chunks[1..] + rest);
      TakeBetween(c, p);
      TakeAllOne(c, chunks[1..] + rest, p, Passed(p, [c]));
      TakeAllBetween(chunks[1..], rest, Passed(p, [c]));
      PassedInTurn(p, chunks);
    }
  }

  /** A whole file: header, anything allowed in between, end, and whatever follows the end. */
  function WholeFile(h: Header, between: seq<Chunk>, trailer: seq<Chunk>): seq<Chunk> {
    HeightFits(h);
    [MakeChunk(IHDR, HeaderBytes(h))] + (between + ([MakeChunk(IEND, [])] + trailer))
  }

  lemma TakeHeader(h: Header)
    ensures h.height < 0x1_0000_0000
    ensures TakeNext(NOTHING_SEEN, MakeChunk(IHDR, HeaderBytes(h))) == Ok(Progress(1, Some(h), [], false))
  {
    HeightFits(h);
    KindsAreAscii();
    ParseHeaderBytes(h);
  }

  lemma TakeEnd(p: Progress)
    requires p.count < MAXIMUM_CHUNKS
    ensures TakeNext(p, MakeChunk(IEND, [])) == Ok(p.(count := p.count + 1, sawEnd := true))
  {
    KindsAreAscii();
  }

  lemma TakeWholeFile(h: Header, between: seq<Chunk>, trailer: seq<Chunk>)
    requires Between(between) && |between| + 2 <= MAXIMUM_CHUNKS
    ensures TakeAll(WholeFile(h, between, trailer), NOTHING_SEEN)
      == Ok(Progress(|between| + 2, Some(h), DataParts(between), true))
  {
    hide TakeNext, TakeAll, Between;
    var started := Progress(1, Some(h), [], false);
    var ended := Passed(started, between);
    var end := MakeChunk(IEND, []);
    TakeHeader(h);
    TakeAllOne(MakeChunk(IHDR, HeaderBytes(h)), between + ([end] + trailer), NOTHING_SEEN, started);
    TakeAllBetween(between, [end] + trailer, started);
    TakeEnd(ended);
    TakeAllOne(end, trailer, ended, ended.(count := ended.count + 1, sawEnd := true));
    assert [] + DataParts(between) == DataParts(between);
  }

  /**
   * Whatever filter each row uses, however the stream is cut into IDAT chunks, and whatever else stands in the file:
   * the decoder gives back exactly the pixels.
   */
  lemma DecodeGivesThePixels(image: Image, filters: Bytes, between: seq<Chunk>, trailer: seq<Chunk>, inflate: Bytes -> Option<Bytes>)
    requires Complete(image) && |filters| == image.header.height && forall row :: 0 <= row < |filters| ==> filters[row] <= 4
    requires Between(between) && |between| + 2 <= MAXIMUM_CHUNKS && DataParts(between) != []
    requires inflate(Concat(DataParts(between)))
      == Some(FilterAll(image.pixels, filters, Stride(image.header), image.header.channels))
    ensures Decode(SIGNATURE + Frames(WholeFile(image.header, between, trailer)), inflate) == Ok(image)
  {
    var h := image.header;
    var file := WholeFile(h, between, trailer);
    hide Scan, WholeFile, Frames, Between, FilterAll;
    WholeFileLength(h, between, trailer);
    ScanWholeFile(h, between, trailer);
    DecodeWholeFile(h, SIGNATURE + Frames(file), DataParts(between), |between| + 2, inflate);
    UnfilteredFilterAll(image.pixels, filters, Stride(h), h.channels);
  }

  lemma WholeFileLength(h: Header, between: seq<Chunk>, trailer: seq<Chunk>)
    ensures |Frames(WholeFile(h, between, trailer))| >= 25
  {
    HeightFits(h);
    var file := WholeFile(h, between, trailer);
    assert Frames(file) == Frame(file[0]) + Frames(file[1..]);
  }

  lemma ScanWholeFile(h: Header, between: seq<Chunk>, trailer: seq<Chunk>)
    requires Between(between) && |between| + 2 <= MAXIMUM_CHUNKS
    ensures Scan(SIGNATURE + Frames(WholeFile(h, between, trailer)), 8, NOTHING_SEEN)
      == Ok(Progress(|between| + 2, Some(h), DataParts(between), true))
  {
    var file := WholeFile(h, between, trailer);
    ScanFrames(SIGNATURE, file, SIGNATURE + Frames(file), NOTHING_SEEN);
    TakeWholeFile(h, between, trailer);
  }

  lemma DecodeWholeFile(h: Header, input: Bytes, parts: seq<Bytes>, count: nat, inflate: Bytes -> Option<Bytes>)
    requires |input| >= 33 && input[..8] == SIGNATURE && parts != []
    requires Scan(input, 8, NOTHING_SEEN) == Ok(Progress(count, Some(h), parts, true))
    ensures Decode(input, inflate) == DecodePixels(h, inflate(Concat(parts)))
  {
  }

  // ---------------------------------------------------------------- the encoder's own output

  /** The only fact assumed about compression. */
  ghost predicate Lossless(inflate: Bytes -> Option<Bytes>, deflate: (Bytes, int) -> Bytes) {
    forall data: Bytes, level: int :: 1 <= level <= 9 ==> inflate(deflate(data, level)) == Some(data)
  }

  lemma EncodedIsWholeFile(h: Header, compressed: Bytes)
    requires |compressed| <= MAXIMUM_SOURCE_BYTES
    ensures var between := [MakeChunk(IDAT, compressed)];
      && EncodedChunks(h, compressed) == WholeFile(h, between, [])
      && Between(between) && DataParts(between) == [compressed] && Concat([compressed]) == compressed
  {
    KindsAreAscii();
    var c := MakeChunk(IDAT, compressed);
    assert [c][1..] == [] && DataParts([]) == [];
    assert [compressed][1..] == [] && Concat([]) == [];
  }

  /** Whenever encoding succeeds, decoding gives the image back, at every quality. */
  lemma DecodeUndoesEncode(image: Image, quality: int, inflate: Bytes -> Option<Bytes>, deflate: (Bytes, int) -> Bytes)
    requires Complete(image) && Lossless(inflate, deflate)
    ensures var encoded := Encode(image, quality, deflate);
      encoded.Ok? ==> |encoded.value| <= MAXIMUM_OUTPUT_BYTES && Decode(encoded.value, inflate) == Ok(image)
  {
    var h := image.header;
    var filters := NoFilters(h.height);
    var compressed := deflate(PlainScanlines(image.pixels, Stride(h), h.channels, h.height), Level(quality));
    if Encode(image, quality, deflate).Ok? {
      EncodedLength(h, compressed);
      EncodedIsWholeFile(h, compressed);
      DecodeGivesThePixels(image, filters, [MakeChunk(IDAT, compressed)], [], inflate);
    }
  }

  lemma EncodedLength(h: Header, compressed: Bytes)
    requires |compressed| < 0x1_0000_0000
    ensures |SIGNATURE + Frames(EncodedChunks(h, compressed))| == |compressed| + 57
  {
    HeightFits(h);
    ThreeFrames(MakeChunk(IHDR, HeaderBytes(h)), MakeChunk(IDAT, compressed), MakeChunk(IEND, []));
  }
}
