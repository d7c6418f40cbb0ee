/** The derivative processor between its two checks. */
module PngProcessor {
  import opened Common
  import opened PngChunks
  import opened PngFilters
  import opened PngCodec
  import opened PngRoundTrip
  import opened PngResize

  const MINIMUM_WIDTH: nat := 16
  const MAXIMUM_QUALITY: nat := 100

  datatype Job = Job(requestedWidth: int, outputFormat: string, quality: int)

  datatype Source = Source(mediaType: string, byteLength: int, checksum: string, body: Bytes)

  datatype Processed = Processed(mediaType: string, width: nat, height: nat, byteLength: nat, checksum: string, body: Bytes)

  /** The three operations the model takes as given. */
  datatype Primitives = Primitives(hash: Bytes -> string, inflate: Bytes -> Option<Bytes>, deflate: (Bytes, int) -> Bytes)

  /** Sixty-four lower-case hexadecimal digits. */
  predicate Sha256Text(text: string) {
    |text| == 64 && forall c :: c in text ==> 'a' <= c <= 'f' || '0' <= c <= '9'
  }

  ghost predicate HashesAreText(p: Primitives) {
    forall bytes: Bytes :: Sha256Text(p.hash(bytes))
  }

  function AssertSource(job: Job, source: Source): Result<()> {
    if source.mediaType != "image/png" then Err("image-derivative-input-mime-unsupported")
    else if source.byteLength <= 0 || source.byteLength > MAXIMUM_SOURCE_BYTES then Err("image-derivative-source-byte-limit")
    else if !Sha256Text(source.checksum) then Err("image-derivative-source-checksum-invalid")
    else if job.requestedWidth < MINIMUM_WIDTH || job.requestedWidth > MAXIMUM_WIDTH then Err("image-derivative-width-invalid")
    else if job.quality < 1 || job.quality > MAXIMUM_QUALITY then Err("image-derivative-quality-invalid")
    else Ok(())
  }

  function AssertProcessed(output: Processed, hash: Bytes -> string): Result<()> {
    if || output.mediaType != "image/png"
       || output.width < MINIMUM_WIDTH || output.width > MAXIMUM_WIDTH || output.height < 1
       || Area(output.width, output.height) > MAXIMUM_DECODED_PIXELS
       || output.byteLength != |output.body| || output.byteLength <= 0 || output.byteLength > MAXIMUM_OUTPUT_BYTES
       || !Sha256Text(output.checksum) || hash(output.body) != output.checksum
    then Err("image-derivative-processor-output-invalid")
    else Ok(())
  }

  /** Checks on the bytes actually read. */
  function ReadAll(job: Job, source: Source, hash: Bytes -> string): Result<Bytes> {
    if source.mediaType != "image/png" then Err("image-derivative-input-mime-unsupported")
    else if job.outputFormat != "png" then Err("image-derivative-output-format-unsupported")
    else if |source.body| > MAXIMUM_SOURCE_BYTES then Err("image-derivative-source-byte-limit")
    else if |source.body| != source.byteLength then Err("image-derivative-source-length-mismatch")
    else if hash(source.body) != source.checksum then Err("image-derivative-source-checksum-mismatch")
    else Ok(source.body)
  }

  /** An image that a decoder hands on is complete. */
  lemma DecodedIsComplete(input: Bytes, inflate: Bytes -> Option<Bytes>)
    ensures var decoded := Decode(input, inflate); decoded.Ok? ==> Complete(decoded.value)
  {
    hide Scan, Area;
  }

  ghost function Render(job: Job, bytes: Bytes, p: Primitives): Result<(Image, Bytes)>
    requires 1 <= job.requestedWidth <= MAXIMUM_WIDTH
  {
    DecodedIsComplete(bytes, p.inflate);
    match Decode(bytes, p.inflate)
    case Err(code) => Err(code)
    case Ok(image) =>
      match Resize(image, job.requestedWidth)
      case Err(code) => Err(code)
      case Ok(resized) =>
        match Encode(resized, job.quality, p.deflate)
        case Err(code) => Err(code)
        case Ok(encoded) => Ok((resized, encoded))
  }

  /** The whole processor; `processNext` calls it only after `AssertSource`. */
  ghost function Process(job: Job, source: Source, p: Primitives): Result<Processed>
    requires AssertSource(job, source).Ok?
  {
    match ReadAll(job, source, p.hash)
    case Err(code) => Err(code)
    case Ok(bytes) =>
      match Render(job, bytes, p)
      case Err(code) => Err(code)
      case Ok((image, encoded)) =>
        Ok(Processed("image/png", image.header.width, image.header.height, |encoded|, p.hash(encoded), encoded))
  }

  method ProcessImage(job: Job, source: Source, p: Primitives) returns (r: Result<Processed>)
    requires AssertSource(job, source).Ok?
    ensures r == Process(job, source, p)
  {
    hide Decode, Resize, Encode;
    var read := ReadAll(job, source, p.hash);
    if read.Err? {
      return Err(read.code);
    }
    var decoded := DecodePng(read.value, p.inflate);
    DecodedIsComplete(read.value, p.inflate);
    if decoded.Err? {
      return Err(decoded.code);
    }
    var resized := ResizePixels(decoded.value, job.requestedWidth);
    if resized.Err? {
      return Err(resized.code);
    }
    ResizedIsComplete(decoded.value, job.requestedWidth);
    var encoded := EncodePng(resized.value, job.quality, p.deflate);
    if encoded.Err? {
      return Err(encoded.code);
    }
    var h := resized.value.header;
    return Ok(Processed("image/png", h.width, h.height, |encoded.value|, p.hash(encoded.value), encoded.value));
  }

  lemma ResizedIsComplete(image: Image, targetWidth: nat)
    requires Complete(image) && 1 <= targetWidth <= MAXIMUM_WIDTH
    ensures var resized := Resize(image, targetWidth);
      resized.Ok? ==> Complete(resized.value) && resized.value.header.width == targetWidth
  {
    hide Scaled, Area;
  }

  /** Output of the processor always passes the check that follows it. */
  lemma ProcessedPassesItsCheck(job: Job, source: Source, p: Primitives)
    requires AssertSource(job, source).Ok? && HashesAreText(p)
    ensures var r := Process(job, source, p); r.Ok? ==>
      AssertProcessed(r.value, p.hash).Ok? && r.value.width == job.requestedWidth
  {
    hide Decode, Scaled, Frames;
    var r := Process(job, source, p);
    if r.Ok? {
      DecodedIsComplete(source.body, p.inflate);
      var image := Decode(source.body, p.inflate).value;
      ResizedIsComplete(image, job.requestedWidth);
      EncodedSize(Resize(image, job.requestedWidth).value, job.quality, p.deflate);
    }
  }

  lemma EncodedSize(image: Image, quality: int, deflate: (Bytes, int) -> Bytes)
    requires Complete(image)
    ensures var encoded := Encode(image, quality, deflate);
      encoded.Ok? ==> 0 < |encoded.value| <= MAXIMUM_OUTPUT_BYTES
  {
    hide Frames;
  }

  /** A derivative decodes to the image scaled to the requested width, whatever its quality. */
  lemma DerivativeShowsTheScaledImage(job: Job, source: Source, p: Primitives, image: Image)
    requires AssertSource(job, source).Ok? && Lossless(p.inflate, p.deflate)
    requires Decode(source.body, p.inflate) == Ok(image)
    ensures Complete(image)
    ensures var r := Process(job, source, p); r.Ok? ==>
      Decode(r.value.body, p.inflate) == Resize(image, job.requestedWidth)
  {
    hide Decode, Resize, Encode;
    DecodedIsComplete(source.body, p.inflate);
    if Process(job, source, p).Ok? {
      ResizedIsComplete(image, job.requestedWidth);
      DecodeUndoesEncode(Resize(image, job.requestedWidth).value, job.quality, p.inflate, p.deflate);
    }
  }

  /** At the source's own width the derivative shows exactly the source's pixels. */
  lemma DerivativeAtOwnWidthIsLossless(job: Job, source: Source, p: Primitives, image: Image)
    requires AssertSource(job, source).Ok? && Lossless(p.inflate, p.deflate)
    requires Decode(source.body, p.inflate) == Ok(image) && job.requestedWidth == image.header.width
    ensures var r := Process(job, source, p); r.Ok? ==> Decode(r.value.body, p.inflate) == Ok(image)
  {
    hide Decode, Resize, Encode;
    DerivativeShowsTheScaledImage(job, source, p, image);
    ResizeToOwnWidth(image);
  }

  // ---------------------------------------------------------------- what is refused

  /** What was read is what the source record describes, and a PNG is asked for. */
  predicate Genuine(job: Job, source: Source, hash: Bytes -> string) {
    job.outputFormat == "png" && |source.body| == source.byteLength && hash(source.body) == source.checksum
  }

  /** The compressed scanlines of an image, as the encoder puts them into its one data chunk. */
  function Compressed(image: Image, quality: int, deflate: (Bytes, int) -> Bytes): Bytes
    requires Complete(image)
  {
    deflate(PlainScanlines(image.pixels, Stride(image.header), image.header.channels, image.header.height), Level(quality))
  }

  /** An encoding is refused exactly when it would be too long: beside its data a file has 57 bytes. */
  lemma EncodesExactly(image: Image, quality: int, deflate: (Bytes, int) -> Bytes)
    requires Complete(image)
    ensures var encoded := Encode(image, quality, deflate); var length := |Compressed(image, quality, deflate)| + 57;
      && (encoded.Ok? <==> length <= 16 * 1024 * 1024)
      && (encoded.Ok? ==> |encoded.value| == length)
  {
    var compressed := Compressed(image, quality, deflate);
    if |compressed| < 0x1_0000_0000 {
      EncodedLength(image.header, compressed);
    }
    hide Frames, PlainScanlines, Level;
  }

  /** A scaling is refused exactly when it would have more than 64 Mi pixels. */
  lemma ResizesExactly(image: Image, targetWidth: nat)
    requires Complete(image) && 1 <= targetWidth <= MAXIMUM_WIDTH
    ensures Resize(image, targetWidth).Ok?
      <==> Area(targetWidth, TargetHeight(image.header.width, image.header.height, targetWidth)) <= 64 * 1024 * 1024
  {
    hide Scaled, TargetHeight, Area;
  }

  /** The scaled image keeps the pixel limit, and its encoding the length limit. */
  ghost predicate ScaledFits(job: Job, image: Image, p: Primitives)
    requires 1 <= job.requestedWidth <= MAXIMUM_WIDTH
  {
    && Complete(image)
    && Area(job.requestedWidth, TargetHeight(image.header.width, image.header.height, job.requestedWidth)) <= 64 * 1024 * 1024
    && var scaled := Resize(image, job.requestedWidth);
       && scaled.Ok? && Complete(scaled.value)
       && |Compressed(scaled.value, job.quality, p.deflate)| + 57 <= 16 * 1024 * 1024
  }

  /**
   An admitted job yields output exactly when its source is genuine and a PNG that can be decoded, and the scaled image
   keeps the pixel limit and its encoding the length limit. A body of another length or hash never yields any.
   */
  lemma ProcessesExactly(job: Job, source: Source, p: Primitives)
    requires AssertSource(job, source).Ok?
    ensures !Genuine(job, source, p.hash) ==> Process(job, source, p).Err?
    ensures Process(job, source, p).Ok? <==>
      && Genuine(job, source, p.hash)
      && Decode(source.body, p.inflate).Ok?
      && ScaledFits(job, Decode(source.body, p.inflate).value, p)
  {
    hide Decode, Resize, Encode, Area, TargetHeight, Compressed;
    DecodedIsComplete(source.body, p.inflate);
    var decoded := Decode(source.body, p.inflate);
    if decoded.Ok? {
      ResizesExactly(decoded.value, job.requestedWidth);
      var resized := Resize(decoded.value, job.requestedWidth);
      if resized.Ok? {
        ResizedIsComplete(decoded.value, job.requestedWidth);
        EncodesExactly(resized.value, job.quality, p.deflate);
      }
    }
  }
}
