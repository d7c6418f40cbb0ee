/** The PNG decoder and encoder of the derivative processor. */
module PngCodec {
  // Compression is a parameter: `inflate` answers None when the stream is broken, `deflate` takes a level.

  import opened Common
  import opened PngChunks
  import opened PngFilters

  const MAXIMUM_CHUNKS: nat := 4096
  const MAXIMUM_SOURCE_BYTES: nat := 0x200_0000
  const MAXIMUM_DECODED_PIXELS: nat := 0x400_0000
  const MAXIMUM_WIDTH: nat := 16384
  const MAXIMUM_OUTPUT_BYTES: nat := 0x100_0000

  datatype HeaderFields = Header(width: nat, height: nat, channels: nat)

  function Area(width: nat, height: nat): nat {
    width * height
  }

  predicate ValidHeader(h: HeaderFields) {
    && (h.channels == 3 || h.channels == 4)
    && 1 <= h.width <= MAXIMUM_WIDTH && 1 <= h.height
    && Area(h.width, h.height) <= MAXIMUM_DECODED_PIXELS
  }

  /** A supported image shape: three or four channels of eight bits, within the size limits. */
  type Header = h: HeaderFields | ValidHeader(h) witness Header(1, 1, 3)

  /** Bytes in a row: width * channels. */
  function Stride(h: Header): (stride: nat)
    ensures stride > 0
  {
    if h.channels == 3 then 3 * h.width else 4 * h.width
  }

  datatype Image = Image(header: Header, pixels: Bytes)

  /** What the decoder's loop has seen so far. */
  datatype Progress = Progress(count: nat, header: Option<Header>, parts: seq<Bytes>, sawEnd: bool)


  predicate Complete(image: Image) {
    |image.pixels| == Offset(image.header.height, Stride(image.header))
  }

  // ---------------------------------------------------------------- decoding

  // The type is compared as 7-bit text, which drops the high bit of every byte.
  function Ascii(kind: Bytes): (text: Bytes)
    ensures |text| == |kind| && forall i :: 0 <= i < |text| ==> text[i] == kind[i] % 128
  {
    seq(|kind|, i requires 0 <= i < |kind| => kind[i] % 128)
  }

  function ParseHeader(data: Bytes): Result<Header>
    requires |data| == 13
  {
    var width, height := ReadU32(data, 0), ReadU32(data, 4);
    if data[8] != 8 || (data[9] != 2 && data[9] != 6) || data[10] != 0 || data[11] != 0 || data[12] != 0 then
      Err("image-derivative-png-mode-unsupported")
    else if width < 1 || height < 1 || width > MAXIMUM_WIDTH || Area(width, height) > MAXIMUM_DECODED_PIXELS then
      Err("image-derivative-pixel-limit")
    else Ok(Header(width, height, if data[9] == 2 then 3 else 4))
  }

  /** The loop body once the chunk is known to be whole. */
  function Take(p: Progress, kind: Bytes, data: Bytes): Result<Progress> {
    var text := Ascii(kind);
    if text == IHDR then
      if p.header.Some? || |data| != 13 then Err("image-derivative-png-header-invalid")
      else
        match ParseHeader(data)
        case Err(code) => Err(code)
        case Ok(h) => Ok(p.(header := Some(h)))
    else if text == IDAT then
      if p.header.None? then Err("image-derivative-png-order-invalid")
      else Ok(p.(parts := p.parts + [data]))
    else if text == IEND then Ok(p.(sawEnd := true))
    else Ok(p)
  }

  /** The decoder's walk over the file, from `offset` on. */
  function Scan(input: Bytes, offset: nat, p: Progress): Result<Progress>
    requires offset <= |input|
    decreases |input| - offset
  {
    if offset + 12 > |input| then Ok(p)
    else if p.count + 1 > MAXIMUM_CHUNKS then Err("image-derivative-png-chunk-limit")
    else
      var length := ReadU32(input, offset);
      var next := offset + 12 + length;
      if length > MAXIMUM_SOURCE_BYTES || next > |input| then Err("image-derivative-png-truncated")
      else
        var c := ChunkAt(input, offset);
        match Take(p.(count := p.count + 1), c.kind, c.data)
        case Err(code) => Err(code)
        case Ok(taken) => if taken.sawEnd then Ok(taken) else Scan(input, next, taken)
  }

  function Concat(parts: seq<Bytes>): Bytes {
    if parts == [] then [] else parts[0] + Concat(parts[1..])
  }

  const NOTHING_SEEN := Progress(0, None, [], false)

  /** The whole decoder. */
  ghost function Decode(input: Bytes, inflate: Bytes -> Option<Bytes>): Result<Image> {
    if |input| < 33 || input[..8] != SIGNATURE then Err("image-derivative-signature-mismatch")
    else
      match Scan(input, 8, NOTHING_SEEN)
      case Err(code) => Err(code)
      case Ok(p) =>
        if p.header.None? || !p.sawEnd || p.parts == [] then Err("image-derivative-png-truncated")
        else DecodePixels(p.header.value, inflate(Concat(p.parts)))
  }

  // `inflate` is told the size it may produce at most, and fails when there is more.
  ghost function DecodePixels(h: Header, inflated: Option<Bytes>): Result<Image> {
    var stride := Stride(h);
    var expected := Offset(h.height, stride + 1);
    if inflated.None? || |inflated.value| > expected then Err("image-derivative-png-inflate-failed")
    else if |inflated.value| != expected then Err("image-derivative-png-decoded-size-mismatch")
    else
      match Unfiltered(inflated.value, stride, h.channels, h.height)
      case Err(code) => Err(code)
      case Ok(pixels) => Ok(Image(h, pixels))
  }

  // ---------------------------------------------------------------- the decoder's loop

  method CollectParts(parts: seq<Bytes>) returns (joined: Bytes)
    ensures joined == Concat(parts)
  {
    joined := [];
    var i := |parts|;
    while i > 0
      invariant 0 <= i <= |parts| && joined == Concat(parts[i..])
    {
      i := i - 1;
      assert parts[i..][1..] == parts[i + 1..];
      joined := parts[i] + joined;
    }
    assert parts[0..] == parts;
  }

  /** The chunk loop: every turn moves past one whole chunk, until IEND or the end of the file. */
  method ReadChunks(input: Bytes) returns (r: Result<Progress>)
    requires 8 <= |input|
    ensures r == Scan(input, 8, NOTHING_SEEN)
  {
    hide Take;
    var offset, p := 8, NOTHING_SEEN;
    while offset + 12 <= |input|
      invariant 8 <= offset <= |input| && !p.sawEnd
      invariant Scan(input, 8, NOTHING_SEEN) == Scan(input, offset, p)
    {
      if p.count + 1 > MAXIMUM_CHUNKS {
        return Err("image-derivative-png-chunk-limit");
      }
      var length := ReadU32(input, offset);
      var dataEnd := offset + 8 + length;
      var next := dataEnd + 4;
      if length > MAXIMUM_SOURCE_BYTES || next > |input| {
        return Err("image-derivative-png-truncated");
      }
      var kind, data := input[offset + 4..offset + 8], input[offset + 8..dataEnd];
      match Take(p.(count := p.count + 1), kind, data) {
        case Err(code) => return Err(code);
        case Ok(taken) =>
          p := taken;
          if p.sawEnd {
            return Ok(p);
          }
      }
      offset := next;
    }
    return Ok(p);
  }

  method DecodePng(input: Bytes, inflate: Bytes -> Option<Bytes>) returns (r: Result<Image>)
    ensures r == Decode(input, inflate)
  {
    if |input| < 33 || input[..8] != SIGNATURE {
      return Err("image-derivative-signature-mismatch");
    }
    var read := ReadChunks(input);
    if read.Err? {
      return Err(read.code);
    }
    var p := read.value;
    if p.header.None? || !p.sawEnd || p.parts == [] {
      return Err("image-derivative-png-truncated");
    }
    var h := p.header.value;
    var stride := Stride(h);
    var expected := Offset(h.height, stride + 1);
    var compressed := CollectParts(p.parts);
    var inflated := inflate(compressed);
    if inflated.None? || |inflated.value| > expected {
      return Err("image-derivative-png-inflate-failed");
    }
    if |inflated.value| != expected {
      return Err("image-derivative-png-decoded-size-mismatch");
    }
    var unfiltered := Unfilter(inflated.value, stride, h.channels, h.height);
    match unfiltered {
      case Err(code) => return Err(code);
      case Ok(pixels) => return Ok(Image(h, pixels));
    }
  }

  // ---------------------------------------------------------------- what the walk sees

  /** One turn of the walk on a chunk that stands whole in the file. */
  function TakeNext(p: Progress, c: Chunk): Result<Progress> {
    if p.count + 1 > MAXIMUM_CHUNKS then Err("image-derivative-png-chunk-limit")
    else if |c.data| > MAXIMUM_SOURCE_BYTES then Err("image-derivative-png-truncated")
    else Take(p.(count := p.count + 1), c.kind, c.data)
  }

  /** The decoder's walk over a list of chunks instead of bytes. */
  function TakeAll(chunks: seq<Chunk>, p: Progress): Result<Progress> {
    if chunks == [] then Ok(p)
    else
      match TakeNext(p, chunks[0])
      case Err(code) => Err(code)
      case Ok(taken) => if taken.sawEnd then Ok(taken) else TakeAll(chunks[1..], taken)
  }

  lemma ScanFirst(before: Bytes, c: Chunk, after: Bytes, input: Bytes, p: Progress, r: Result<Progress>)
    requires input == before + Frame(c) + after && r == TakeNext(p, c)
    ensures r.Err? ==> Scan(input, |before|, p) == Err(r.code)
    ensures r.Ok? && r.value.sawEnd ==> Scan(input, |before|, p) == Ok(r.value)
    ensures r.Ok? && !r.value.sawEnd ==> Scan(input, |before|, p) == Scan(input, |before + Frame(c)|, r.value)
  {
    ReadFrame(before, c, after, input);
  }

  /** Reading a file of framed chunks is reading the chunks. */
  lemma {:induction false} ScanFrames(before: Bytes, chunks: seq<Chunk>, input: Bytes, p: Progress)
    requires input == before + Frames(chunks)
    ensures Scan(input, |before|, p) == TakeAll(chunks, p)
    decreases |chunks|
  {
    if chunks != [] {
      var c, rest, r := chunks[0], chunks[1..], TakeNext(p, chunks[0]);
      assert input == before + Frame(c) + Frames(rest);
      ScanFirst(before, c, Frames(rest), input, p, r);
      if r.Ok? && !r.value.sawEnd {
        ScanFrames(before + Frame(c), rest, input, r.value);
      }
    }
  }
}
