/** The MP4 upload check: recursive traversal under a box and a depth limit, and what it reads on the way. */
module Mp4Verification {
  import opened Common
  import opened PngChunks
  import opened Mp4Boxes

  const FTYP: Bytes := [102, 116, 121, 112]
  const MOOV: Bytes := [109, 111, 111, 118]
  const MVHD: Bytes := [109, 118, 104, 100]
  const TRAK: Bytes := [116, 114, 97, 107]
  const TKHD: Bytes := [116, 107, 104, 100]
  const MDIA: Bytes := [109, 100, 105, 97]
  const HDLR: Bytes := [104, 100, 108, 114]
  const MINF: Bytes := [109, 105, 110, 102]
  const STBL: Bytes := [115, 116, 98, 108]
  const STSD: Bytes := [115, 116, 115, 100]
  const VIDE: Bytes := [118, 105, 100, 101]

  /** isom, iso2, mp41, mp42, avc1 and M4V with a trailing space. */
  predicate SupportedBrand(brand: Bytes) {
    brand == [105, 115, 111, 109] || brand == [105, 115, 111, 50] || brand == [109, 112, 52, 49]
    || brand == [109, 112, 52, 50] || brand == [97, 118, 99, 49] || brand == [77, 52, 86, 32]
  }

  datatype Limits = Limits(maximumBoxes: nat, maximumDepth: nat)

  /** A result together with the number of boxes read so far. */
  datatype Counted<T> = Counted(value: T, count: nat)

  datatype Sample = Sample(codec: Option<Bytes>, width: Option<nat>, height: Option<nat>)

  const NO_SAMPLE := Sample(None, None, None)

  // ---------------------------------------------------------------- leaf boxes

  function U32At(bytes: Bytes, offset: int): Result<nat> {
    if offset < 0 || offset + 4 > |bytes| then Err("mp4-malformed") else Ok(ReadU32(bytes, offset))
  }

  function U64At(bytes: Bytes, offset: nat): Result<nat> {
    if offset + 8 > |bytes| then Err("mp4-malformed") else Ok(ReadU64(bytes, offset))
  }

  datatype Timing = Timing(timescale: nat, duration: nat)

  function ReadTiming(bytes: Bytes, box: Box): Result<Timing> {
    if box.payloadStart >= |bytes| then Err("mp4-malformed")
    else
      var version := bytes[box.payloadStart];
      if version != 0 && version != 1 then Err("mp4-malformed")
      else
        var timescale := U32At(bytes, box.payloadStart + if version == 0 then 12 else 20);
        var duration := if version == 0 then U32At(bytes, box.payloadStart + 16) else U64At(bytes, box.payloadStart + 24);
        if timescale.Err? then Err(timescale.code)
        else if duration.Err? then Err(duration.code)
        else Ok(Timing(timescale.value, duration.value))
  }

  /** Half of an odd timescale is no integer, and turning it into one throws. */
  function Milliseconds(t: Timing): Result<nat> {
    if t.timescale == 0 || t.duration == 0 then Err("mp4-duration-invalid")
    else if t.timescale % 2 != 0 then Err("RangeError")
    else
      var milliseconds := (t.duration * 1000 + t.timescale / 2) / t.timescale;
      if milliseconds == 0 || milliseconds > MAX_SAFE_INTEGER then Err("mp4-duration-invalid") else Ok(milliseconds)
  }

  function MovieHeader(bytes: Bytes, box: Box): Result<nat> {
    match ReadTiming(bytes, box)
    case Err(code) => Err(code)
    case Ok(timing) => Milliseconds(timing)
  }

  datatype TrackSize = TrackSize(width: Option<nat>, height: Option<nat>)

  function TrackHeader(bytes: Bytes, box: Box): Result<TrackSize>
    requires box.payloadStart <= box.end <= |bytes|
  {
    if box.end - box.payloadStart < 12 then Err("mp4-malformed")
    else
      var width, height := ReadU32(bytes, box.end - 8) / 0x1_0000, ReadU32(bytes, box.end - 4) / 0x1_0000;
      if width == 0 || height == 0 then Ok(TrackSize(None, None)) else Ok(TrackSize(Some(width), Some(height)))
  }

  function TrimStart(text: Bytes): Bytes {
    if text != [] && text[0] == 32 then TrimStart(text[1..]) else text
  }

  function TrimEnd(text: Bytes): Bytes {
    if text != [] && text[|text| - 1] == 32 then TrimEnd(text[..|text| - 1]) else text
  }

  predicate AlphaNumeric(b: Byte) {
    48 <= b <= 57 || 65 <= b <= 90 || 97 <= b <= 122
  }

  predicate SafeToken(text: Bytes) {
    1 <= |text| <= 32 && AlphaNumeric(text[0])
    && forall b :: b in text[1..] ==> AlphaNumeric(b) || b == 46 || b == 95 || b == 45
  }

  function ReadU16(bytes: Bytes, offset: nat): nat
    requires offset + 2 <= |bytes|
  {
    var high: int, low: int := bytes[offset], bytes[offset + 1];
    high * 0x100 + low
  }

  function SampleDescription(bytes: Bytes, box: Box): Result<Sample>
    requires box.payloadStart <= box.end <= |bytes|
  {
    if box.payloadStart + 8 > box.end then Err("mp4-malformed")
    else if ReadU32(bytes, box.payloadStart + 4) < 1 then Ok(NO_SAMPLE)
    else
      var entryStart := box.payloadStart + 8;
      match U32At(bytes, entryStart)
      case Err(code) => Err(code)
      case Ok(entrySize) =>
        if entrySize < 8 || entryStart + entrySize > box.end then Err("mp4-malformed")
        else
          match ReadFourCc(bytes, entryStart + 4)
          case Err(code) => Err(code)
          case Ok(codec) =>
            var trimmed := TrimEnd(TrimStart(codec));
            if !SafeToken(trimmed) then Err("mp4-malformed")
            else if entrySize >= 36 && ReadU16(bytes, entryStart + 32) > 0 && ReadU16(bytes, entryStart + 34) > 0 then
              Ok(Sample(Some(trimmed), Some(ReadU16(bytes, entryStart + 32)), Some(ReadU16(bytes, entryStart + 34))))
            else Ok(Sample(Some(trimmed), None, None))
  }

  function HandlerIsVideo(bytes: Bytes, box: Box): Result<bool> {
    if box.payloadStart + 12 > box.end then Err("mp4-malformed")
    else
      match ReadFourCc(bytes, box.payloadStart + 8)
      case Err(code) => Err(code)
      case Ok(handler) => Ok(handler == VIDE)
  }

  /** The brands at `offset`, `offset + 4` and so on. */
  function Brands(bytes: Bytes, offset: nat, end: nat): Result<seq<Bytes>>
    requires end <= |bytes|
    decreases end - offset
  {
    if offset + 4 > end then Ok([])
    else
      match ReadFourCc(bytes, offset)
      case Err(code) => Err(code)
      case Ok(brand) =>
        match Brands(bytes, offset + 4, end)
        case Err(code) => Err(code)
        case Ok(rest) => Ok([brand] + rest)
  }

  /** The major brand and the compatible ones; the minor version lies between them. */
  function FileType(bytes: Bytes, box: Box): Result<()>
    requires box.end <= |bytes|
  {
    if box.payloadStart + 8 > box.end then Err("mp4-malformed")
    else
      match ReadFourCc(bytes, box.payloadStart)
      case Err(code) => Err(code)
      case Ok(major) =>
        match Brands(bytes, box.payloadStart + 8, box.end)
        case Err(code) => Err(code)
        case Ok(rest) => if exists b :: b in [major] + rest && SupportedBrand(b) then Ok(()) else Err("mp4-container-unsupported")
  }

  // ---------------------------------------------------------------- the traversal

  predicate HoldsDescriptions(kind: Bytes) {
    kind == MDIA || kind == MINF || kind == STBL
  }

  /** Searches the boxes from `offset` to `end`, and their children, for a sample description. */
  function FindFrom(bytes: Bytes, offset: nat, end: nat, depth: nat, count: nat, limits: Limits): Result<Counted<Sample>>
    requires offset <= end <= |bytes|
    decreases end - offset, 0
  {
    if offset == end then Ok(Counted(NO_SAMPLE, count))
    else
      match NextBox(bytes, offset, end, count, limits.maximumBoxes)
      case Err(code) => Err(code)
      case Ok(box) =>
        if box.kind == STSD then
          match SampleDescription(bytes, box)
          case Err(code) => Err(code)
          case Ok(sample) => Ok(Counted(sample, count + 1))
        else if HoldsDescriptions(box.kind) then
          match FindSample(bytes, box.payloadStart, box.end, depth + 1, count + 1, limits)
          case Err(code) => Err(code)
          case Ok(nested) =>
            if nested.value.codec.Some? then Ok(nested) else FindFrom(bytes, box.end, end, depth, nested.count, limits)
        else FindFrom(bytes, box.end, end, depth, count + 1, limits)
  }

  function FindSample(bytes: Bytes, start: nat, end: nat, depth: nat, count: nat, limits: Limits): Result<Counted<Sample>>
    requires start <= end <= |bytes|
    decreases end - start, 1
  {
    if depth > limits.maximumDepth then Err("mp4-traversal-limit-exceeded")
    else FindFrom(bytes, start, end, depth, count, limits)
  }

  datatype Track = Track(video: bool, size: TrackSize, sample: Sample)

  function MediaStep(bytes: Bytes, child: Box, depth: nat, count: nat, track: Track, limits: Limits): Result<Counted<Track>>
    requires child.payloadStart <= child.end <= |bytes|
  {
    var handler := if child.kind == HDLR then HandlerIsVideo(bytes, child) else Ok(track.video);
    if handler.Err? then Err(handler.code)
    else if child.kind == MINF then
      match FindSample(bytes, child.payloadStart, child.end, depth + 2, count, limits)
      case Err(code) => Err(code)
      case Ok(found) => Ok(Counted(Track(handler.value, track.size, found.value), found.count))
    else Ok(Counted(track.(video := handler.value), count))
  }

  function MediaFrom(bytes: Bytes, offset: nat, end: nat, depth: nat, count: nat, track: Track, limits: Limits): Result<Counted<Track>>
    requires offset <= end <= |bytes|
    decreases end - offset
  {
    if offset == end then Ok(Counted(track, count))
    else
      match NextBox(bytes, offset, end, count, limits.maximumBoxes)
      case Err(code) => Err(code)
      case Ok(child) =>
        match MediaStep(bytes, child, depth, count + 1, track, limits)
        case Err(code) => Err(code)
        case Ok(next) => MediaFrom(bytes, child.end, end, depth, next.count, next.value, limits)
  }

  function TrackStep(bytes: Bytes, child: Box, depth: nat, count: nat, track: Track, limits: Limits): Result<Counted<Track>>
    requires child.payloadStart <= child.end <= |bytes|
  {
    var size := if child.kind == TKHD then TrackHeader(bytes, child) else Ok(track.size);
    if size.Err? then Err(size.code)
    else if child.kind == MDIA then
      MediaFrom(bytes, child.payloadStart, child.end, depth, count, track.(size := size.value), limits)
    else Ok(Counted(track.(size := size.value), count))
  }

  function TrackFrom(bytes: Bytes, offset: nat, end: nat, depth: nat, count: nat, track: Track, limits: Limits): Result<Counted<Track>>
    requires offset <= end <= |bytes|
    decreases end - offset
  {
    if offset == end then Ok(Counted(track, count))
    else
      match NextBox(bytes, offset, end, count, limits.maximumBoxes)
      case Err(code) => Err(code)
      case Ok(child) =>
        match TrackStep(bytes, child, depth, count + 1, track, limits)
        case Err(code) => Err(code)
        case Ok(next) => TrackFrom(bytes, child.end, end, depth, next.count, next.value, limits)
  }

  const NO_TRACK := Track(false, TrackSize(None, None), NO_SAMPLE)

  function Or(a: Option<nat>, b: Option<nat>): Option<nat> {
    if a.Some? then a else b
  }

  /** A video track reports the sample's size, or else the header's. */
  function ParseTrack(bytes: Bytes, box: Box, depth: nat, count: nat, limits: Limits): Result<Counted<Option<Sample>>>
    requires box.payloadStart <= box.end <= |bytes|
  {
    if depth > limits.maximumDepth then Err("mp4-traversal-limit-exceeded")
    else
      match TrackFrom(bytes, box.payloadStart, box.end, depth, count, NO_TRACK, limits)
      case Err(code) => Err(code)
      case Ok(c) =>
        var t := c.value;
        Ok(Counted(
          if t.video then Some(Sample(t.sample.codec, Or(t.sample.width, t.size.width), Or(t.sample.height, t.size.height))) else None,
          c.count))
  }

  datatype Movie = Movie(durationMs: Option<nat>, video: Sample)

  function MovieStep(bytes: Bytes, child: Box, count: nat, movie: Movie, limits: Limits): Result<Counted<Movie>>
    requires child.payloadStart <= child.end <= |bytes|
  {
    if child.kind == MVHD then
      match MovieHeader(bytes, child)
      case Err(code) => Err(code)
      case Ok(ms) => Ok(Counted(movie.(durationMs := Some(ms)), count))
    else if child.kind == TRAK then
      match ParseTrack(bytes, child, 1, count, limits)
      case Err(code) => Err(code)
      case Ok(track) =>
        Ok(Counted(if track.value.Some? then movie.(video := track.value.value) else movie, track.count))
    else Ok(Counted(movie, count))
  }

  function MovieFrom(bytes: Bytes, offset: nat, end: nat, count: nat, movie: Movie, limits: Limits): Result<Counted<Movie>>
    requires offset <= end <= |bytes|
    decreases end - offset
  {
    if offset == end then Ok(Counted(movie, count))
    else
      match NextBox(bytes, offset, end, count, limits.maximumBoxes)
      case Err(code) => Err(code)
      case Ok(child) =>
        match MovieStep(bytes, child, count + 1, movie, limits)
        case Err(code) => Err(code)
        case Ok(next) => MovieFrom(bytes, child.end, end, next.count, next.value, limits)
  }

  datatype File = File(sawFtyp: bool, movie: Movie)

  function FileStep(bytes: Bytes, box: Box, count: nat, file: File, limits: Limits): Result<Counted<File>>
    requires box.payloadStart <= box.end <= |bytes|
  {
    if box.start == 0 && box.kind != FTYP then Err("mp4-container-unsupported")
    else if box.kind == FTYP then
      if file.sawFtyp then Err("mp4-malformed")
      else
        match FileType(bytes, box)
        case Err(code) => Err(code)
        case Ok(_) => Ok(Counted(file.(sawFtyp := true), count))
    else if box.kind == MOOV then
      match MovieFrom(bytes, box.payloadStart, box.end, count, file.movie, limits)
      case Err(code) => Err(code)
      case Ok(next) => Ok(Counted(file.(movie := next.value), next.count))
    else Ok(Counted(file, count))
  }

  function FileFrom(bytes: Bytes, offset: nat, count: nat, file: File, limits: Limits): Result<Counted<File>>
    requires offset <= |bytes|
    decreases |bytes| - offset
  {
    if offset == |bytes| then Ok(Counted(file, count))
    else
      match NextBox(bytes, offset, |bytes|, count, limits.maximumBoxes)
      case Err(code) => Err(code)
      case Ok(box) =>
        match FileStep(bytes, box, count + 1, file, limits)
        case Err(code) => Err(code)
        case Ok(next) => FileFrom(bytes, box.end, next.count, next.value, limits)
  }

  datatype Video = Video(durationMs: nat, picture: Sample)

  const NEW_FILE := File(false, Movie(None, NO_SAMPLE))

  function Verify(bytes: Bytes, limits: Limits): Result<Video> {
    match FileFrom(bytes, 0, 0, NEW_FILE, limits)
    case Err(code) => Err(code)
    case Ok(c) =>
      if !c.value.sawFtyp then Err("mp4-container-unsupported")
      else if c.value.movie.durationMs.None? then Err("mp4-timing-missing")
      else Ok(Video(c.value.movie.durationMs.value, c.value.movie.video))
  }
}
