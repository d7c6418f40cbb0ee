/** The upload check for PNG files: chunk structure and dimensions, without decompressing anything. */
module PngVerification {
  import opened Common
  import opened PngChunks
  import PngCodec
  import PngFilters
  import PngRoundTrip

  const MAXIMUM_CHUNKS: nat := 4096

  datatype Dimensions = Dimensions(width: nat, height: nat)

  predicate Letter(b: Byte) {
    65 <= b <= 90 || 97 <= b <= 122
  }

  predicate Letters(kind: Bytes) {
    forall b :: b in kind ==> Letter(b)
  }

  /** The first chunk must be a 13-byte header with a positive, bounded size. */
  function FirstChunk(c: Chunk, maximumPixels: nat): Result<Dimensions> {
    if c.kind != IHDR || |c.data| != 13 then Err("png-malformed")
    else
      var width, height := ReadU32(c.data, 0), ReadU32(c.data, 4);
      if width == 0 || height == 0 then Err("png-dimensions-invalid")
      else if width * height > maximumPixels then Err("png-pixel-limit-exceeded")
      else Ok(Dimensions(width, height))
  }

  /** What one chunk says about the file: the first gives the size, no other may be a header. */
  function Judge(c: Chunk, first: bool, found: Dimensions, maximumPixels: nat): Result<Dimensions> {
    if !Letters(c.kind) then Err("png-malformed")
    else if first then FirstChunk(c, maximumPixels)
    else if c.kind == IHDR then Err("png-malformed")
    else Ok(found)
  }

  predicate Whole(bytes: Bytes, offset: nat) {
    offset + 12 <= |bytes| && offset + 12 + ReadU32(bytes, offset) <= |bytes|
  }

  /** The walk over the chunks, up to an empty IEND exactly at the end of the file. */
  function Walk(bytes: Bytes, offset: nat, chunks: nat, found: Dimensions, maximumPixels: nat): Result<Dimensions>
    requires offset <= |bytes|
    decreases |bytes| - offset
  {
    if offset == |bytes| || chunks + 1 > MAXIMUM_CHUNKS || !Whole(bytes, offset) then Err("png-malformed")
    else
      var c := ChunkAt(bytes, offset);
      var next := offset + 12 + |c.data|;
      match Judge(c, chunks == 0, found, maximumPixels)
      case Err(code) => Err(code)
      case Ok(judged) =>
        if c.kind != IEND then Walk(bytes, next, chunks + 1, judged, maximumPixels)
        else if |c.data| != 0 || next != |bytes| then Err("png-malformed")
        else Ok(judged)
  }

  const NOT_FOUND := Dimensions(0, 0)

  function Verify(bytes: Bytes, maximumPixels: nat): Result<Dimensions> {
    if |bytes| < 8 || bytes[..8] != SIGNATURE then Err("png-malformed")
    else Walk(bytes, 8, 0, NOT_FOUND, maximumPixels)
  }

  // ---------------------------------------------------------------- the loop

  method VerifyPng(bytes: Bytes, maximumPixels: nat) returns (r: Result<Dimensions>)
    ensures r == Verify(bytes, maximumPixels)
  {
    hide Judge, ReadU32, ChunkAt;
    if |bytes| < 8 || bytes[..8] != SIGNATURE {
      return Err("png-malformed");
    }
    var offset, chunks, found := 8, 0, NOT_FOUND;
    while offset < |bytes|
      invariant 8 <= offset <= |bytes|
      invariant Walk(bytes, 8, 0, NOT_FOUND, maximumPixels) == Walk(bytes, offset, chunks, found, maximumPixels)
    {
      if chunks + 1 > MAXIMUM_CHUNKS || offset + 12 > |bytes| {
        return Err("png-malformed");
      }
      var length := ReadU32(bytes, offset);
      var next := offset + 12 + length;
      if next > |bytes| {
        return Err("png-malformed");
      }
      var c := ChunkAt(bytes, offset);
      var judged := Judge(c, chunks == 0, found, maximumPixels);
      if judged.Err? {
        return judged;
      }
      found := judged.value;
      if c.kind == IEND {
        if length != 0 || next != |bytes| {
          return Err("png-malformed");
        }
        return Ok(found);
      }
      offset, chunks := next, chunks + 1;
    }
    return Err("png-malformed");
  }

  // ---------------------------------------------------------------- what is accepted

  /** Letters in every type, no header, and an empty IEND exactly at the end. */
  predicate Rest(chunks: seq<Chunk>) {
    && chunks != []
    && Letters(chunks[0].kind) && chunks[0].kind != IHDR
    && if chunks[0].kind == IEND then |chunks| == 1 && chunks[0].data == [] else Rest(chunks[1..])
  }

  predicate Laid(chunks: seq<Chunk>) {
    2 <= |chunks| <= MAXIMUM_CHUNKS && Rest(chunks[1..])
  }

  lemma WalkStep(bytes: Bytes, offset: nat, c: Chunk, count: nat, found: Dimensions, maximumPixels: nat)
    requires Whole(bytes, offset) && count < MAXIMUM_CHUNKS && c == ChunkAt(bytes, offset) && c.kind != IEND
    ensures var judged := Judge(c, count == 0, found, maximumPixels);
      Walk(bytes, offset, count, found, maximumPixels)
        == if judged.Err? then judged else Walk(bytes, offset + 12 + |c.data|, count + 1, judged.value, maximumPixels)
  {
    hide Judge;
  }

  /** One turn of the walk on a chunk that stands whole in the file. */
  lemma WalkPast(before: Bytes, c: Chunk, after: Bytes, bytes: Bytes, count: nat, found: Dimensions, maximumPixels: nat)
    requires bytes == before + Frame(c) + after && count < MAXIMUM_CHUNKS
    requires c.kind != IEND
    ensures var judged := Judge(c, count == 0, found, maximumPixels);
      Walk(bytes, |before|, count, found, maximumPixels)
        == if judged.Err? then judged else Walk(bytes, |before + Frame(c)|, count + 1, judged.value, maximumPixels)
  {
    hide Judge, Walk;
    ReadFrame(before, c, after, bytes);
    WalkStep(bytes, |before|, c, count, found, maximumPixels);
  }

  lemma WalkEnd(before: Bytes, c: Chunk, bytes: Bytes, count: nat, found: Dimensions, maximumPixels: nat)
    requires bytes == before + Frame(c) && 1 <= count < MAXIMUM_CHUNKS
    requires c.kind == IEND && c.data == []
    ensures Walk(bytes, |before|, count, found, maximumPixels) == Ok(found)
  {
    assert bytes == before + Frame(c) + [];
    ReadFrame(before, c, [], bytes);
    IendIsLetters();
  }

  lemma WalkBadStart(c: Chunk, after: Bytes, bytes: Bytes, maximumPixels: nat)
    requires bytes == SIGNATURE + Frame(c) + after && c.kind == IEND
    ensures Judge(c, true, NOT_FOUND, maximumPixels).Err?
    ensures Walk(bytes, 8, 0, NOT_FOUND, maximumPixels) == Judge(c, true, NOT_FOUND, maximumPixels)
  {
    IendIsLetters();
    ReadFrame(SIGNATURE, c, after, bytes);
  }

  lemma IendIsLetters()
    ensures Letters(IEND) && IEND != IHDR && IDAT != IHDR && IDAT != IEND && Letters(IDAT) && Letters(IHDR)
  {
    assert IHDR[1] == 72 && IDAT[1] == 68 && IEND[1] == 69;
  }

  lemma {:induction false} WalkRest(before: Bytes, chunks: seq<Chunk>, bytes: Bytes, count: nat, found: Dimensions, maximumPixels: nat)
    requires Rest(chunks) && bytes == before + Frames(chunks) && 1 <= count <= MAXIMUM_CHUNKS - |chunks|
    ensures Walk(bytes, |before|, count, found, maximumPixels) == Ok(found)
    decreases |chunks|
  {
    hide Walk, Letters;
    var c, rest := chunks[0], chunks[1..];
    if c.kind == IEND {
      assert rest == [] && Frames(rest) == [];
      assert bytes == before + Frame(c);
      WalkEnd(before, c, bytes, count, found, maximumPixels);
    } else {
      assert bytes == before + Frame(c) + Frames(rest);
      WalkPast(before, c, Frames(rest), bytes, count, found, maximumPixels);
      WalkRest(before + Frame(c), rest, bytes, count + 1, found, maximumPixels);
    }
  }

  /** A file laid out as a list of chunks is judged by its first chunk alone. */
  lemma LaidFileIsJudgedByItsHeader(chunks: seq<Chunk>, maximumPixels: nat)
    requires Laid(chunks)
    ensures Verify(SIGNATURE + Frames(chunks), maximumPixels) == Judge(chunks[0], true, NOT_FOUND, maximumPixels)
  {
    hide Walk, Letters, FirstChunk;
    var c, rest := chunks[0], chunks[1..];
    var bytes := SIGNATURE + Frames(chunks);
    assert bytes == SIGNATURE + Frame(c) + Frames(rest) && bytes[..8] == SIGNATURE;
    var judged := Judge(c, true, NOT_FOUND, maximumPixels);
    if c.kind == IEND {
      WalkBadStart(c, Frames(rest), bytes, maximumPixels);
    } else {
      WalkPast(SIGNATURE, c, Frames(rest), bytes, 0, NOT_FOUND, maximumPixels);
      if judged.Ok? {
        WalkRest(SIGNATURE + Frame(c), rest, bytes, 1, judged.value, maximumPixels);
      }
    }
  }

  lemma {:induction false} RestOfWalk(bytes: Bytes, offset: nat, count: nat, found: Dimensions, maximumPixels: nat)
    returns (chunks: seq<Chunk>)
    requires 1 <= count && offset <= |bytes| && Walk(bytes, offset, count, found, maximumPixels).Ok?
    ensures Rest(chunks) && bytes[offset..] == Frames(chunks) && count + |chunks| <= MAXIMUM_CHUNKS
    ensures Walk(bytes, offset, count, found, maximumPixels) == Ok(found)
    decreases |bytes| - offset
  {
    hide Letters, FirstChunk;
    var c, next := ChunkAt(bytes, offset), offset + 12 + ReadU32(bytes, offset);
    FrameOfChunkAt(bytes, offset);
    assert bytes[offset..] == Frame(c) + bytes[next..];
    if c.kind == IEND {
      chunks := [c];
      assert Frames(chunks[1..]) == [];
    } else {
      var rest := RestOfWalk(bytes, next, count + 1, found, maximumPixels);
      chunks := [c] + rest;
      assert chunks[1..] == rest;
    }
  }

  /** `chunks` lays `bytes` out, and its header allows the size `found`. */
  ghost predicate LaysOut(bytes: Bytes, chunks: seq<Chunk>, maximumPixels: nat, found: Dimensions) {
    && Laid(chunks) && bytes == SIGNATURE + Frames(chunks)
    && Judge(chunks[0], true, NOT_FOUND, maximumPixels) == Ok(found)
  }

  lemma HeaderIsNotTheEnd(c: Chunk, maximumPixels: nat)
    requires Judge(c, true, NOT_FOUND, maximumPixels).Ok?
    ensures c.kind != IEND
  {
    IendIsLetters();
  }

  lemma SplitAfterSignature(bytes: Bytes, c: Chunk, next: nat, rest: seq<Chunk>)
    requires 8 <= next <= |bytes| && bytes[..8] == SIGNATURE && bytes[8..next] == Frame(c) && bytes[next..] == Frames(rest)
    ensures bytes == SIGNATURE + Frames([c] + rest)
  {
    assert ([c] + rest)[1..] == rest;
    assert bytes == bytes[..8] + (bytes[8..next] + bytes[next..]);
  }

  lemma LayoutOfAccepted(bytes: Bytes, maximumPixels: nat, found: Dimensions) returns (chunks: seq<Chunk>)
    requires Verify(bytes, maximumPixels) == Ok(found)
    ensures LaysOut(bytes, chunks, maximumPixels, found)
  {
    var c, next := ChunkAt(bytes, 8), 20 + ReadU32(bytes, 8);
    var judged := Judge(c, true, NOT_FOUND, maximumPixels);
    HeaderIsNotTheEnd(c, maximumPixels);
    var rest := RestOfWalk(bytes, next, 1, judged.value, maximumPixels);
    FrameOfChunkAt(bytes, 8);
    SplitAfterSignature(bytes, c, next, rest);
    chunks := [c] + rest;
    assert chunks[1..] == rest;
  }

  /** Exactly the files laid out as chunks, with a header the limits allow, are accepted, with the size in the header. */
  lemma AcceptsExactlyLaidFiles(bytes: Bytes, maximumPixels: nat, found: Dimensions)
    ensures Verify(bytes, maximumPixels) == Ok(found) <==> exists chunks :: LaysOut(bytes, chunks, maximumPixels, found)
  {
    if Verify(bytes, maximumPixels) == Ok(found) {
      var chunks := LayoutOfAccepted(bytes, maximumPixels, found);
    }
    forall chunks | LaysOut(bytes, chunks, maximumPixels, found)
      ensures Verify(bytes, maximumPixels) == Ok(found)
    {
      LaidFileIsJudgedByItsHeader(chunks, maximumPixels);
    }
  }

  // ---------------------------------------------------------------- the encoder's output

  lemma EncoderLaysOutItsChunks(h: PngCodec.Header, compressed: Bytes)
    requires |compressed| < 0x1_0000_0000
    ensures Laid(PngRoundTrip.EncodedChunks(h, compressed))
  {
    var chunks := PngRoundTrip.EncodedChunks(h, compressed);
    IendIsLetters();
    assert chunks[1..] == [chunks[1], chunks[2]] && chunks[1..][1..] == [chunks[2]];
  }

  /** The answer for an image of the encoder: its own size, unless it has too many pixels. */
  function Judged(h: PngCodec.Header, maximumPixels: nat): Result<Dimensions> {
    if PngCodec.Area(h.width, h.height) > maximumPixels then Err("png-pixel-limit-exceeded") else Ok(Dimensions(h.width, h.height))
  }

  lemma EncodedHeader(h: PngCodec.Header, maximumPixels: nat)
    ensures h.height < 0x1_0000_0000
    ensures Judge(PngRoundTrip.MakeChunk(IHDR, PngRoundTrip.HeaderBytes(h)), true, NOT_FOUND, maximumPixels)
      == Judged(h, maximumPixels)
  {
    PngRoundTrip.HeightFits(h);
    var bytes := PngRoundTrip.HeaderBytes(h);
    assert bytes[0..4] == WriteU32(h.width) && bytes[4..8] == WriteU32(h.height);
    ReadWritten(h.width, bytes, 0);
    ReadWritten(h.height, bytes, 4);
  }

  /** The upload check accepts every file the encoder produces, with the image's own size, up to its own pixel limit. */
  lemma VerifyAcceptsEncoded(image: PngCodec.Image, quality: int, deflate: (Bytes, int) -> Bytes, maximumPixels: nat)
    requires PngCodec.Complete(image)
    ensures var encoded := PngRoundTrip.Encode(image, quality, deflate);
      encoded.Ok? ==> Verify(encoded.value, maximumPixels) == Judged(image.header, maximumPixels)
  {
    var h := image.header;
    var compressed := deflate(PngFilters.PlainScanlines(image.pixels, PngCodec.Stride(h), h.channels, h.height),
      PngRoundTrip.Level(quality));
    if PngRoundTrip.Encode(image, quality, deflate).Ok? {
      EncoderLaysOutItsChunks(h, compressed);
      LaidFileIsJudgedByItsHeader(PngRoundTrip.EncodedChunks(h, compressed), maximumPixels);
      EncodedHeader(h, maximumPixels);
    }
  }
}
