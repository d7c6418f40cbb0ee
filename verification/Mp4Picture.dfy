/** The picture an upload is reported with: codec and size from the written tracks. */
module Mp4Picture {
  import opened Common
  import opened PngChunks
  import opened Mp4Boxes
  import opened Mp4Verification
  import opened Mp4Duration

  const FIELD: nat := 0x1_0000
  const WORD: nat := 0x1_0000_0000

  // ---------------------------------------------------------------- a track to write

  /** What stands behind size and codec in a sample entry; a size follows its first 24 bytes, if there is room for one. */
  datatype Entry = Plain(body: Bytes) | Sized(before: Bytes, width: nat, height: nat, after: Bytes)

  /** The codec's token in its four bytes, with blanks around it. */
  datatype Codec = Codec(blanksBefore: nat, token: Bytes, blanksAfter: nat)

  /**
   A track with one sample entry. Everything that is not named here is an arbitrary byte: before the size in the track
   header, around the handler, and around the entry. The track header gives its size in 16.16 fixed-point numbers.
   */
  datatype TrackText = TrackText(
    headerBefore: Bytes, headerWidth: nat, widthFraction: nat, headerHeight: nat, heightFraction: nat,
    handlerBefore: Bytes, handler: Bytes, handlerAfter: Bytes,
    samplesBefore: Bytes, entries: nat, codec: Codec, entry: Entry, samplesAfter: Bytes)

  predicate EntryFits(e: Entry) {
    match e
    case Plain(body) => |body| < 28
    case Sized(before, width, height, _) => |before| == 24 && width < FIELD && height < FIELD
  }

  predicate CodecFits(c: Codec) {
    SafeToken(c.token) && c.blanksBefore + |c.token| + c.blanksAfter == 4
  }

  /** Every field fits its place, and the handler and the codec are printable. */
  predicate FieldsFit(t: TrackText) {
    && |t.headerBefore| >= 4
    && t.headerWidth < FIELD && t.widthFraction < FIELD && t.headerHeight < FIELD && t.heightFraction < FIELD
    && |t.handlerBefore| == 8 && |t.handler| == 4 && Printable(t.handler)
    && |t.samplesBefore| == 4 && 1 <= t.entries < WORD && CodecFits(t.codec) && EntryFits(t.entry)
  }

  function WriteU16(n: nat): (bytes: Bytes)
    requires n < FIELD
    ensures |bytes| == 2
  {
    [n / 0x100, n % 0x100]
  }

  function Blanks(n: nat): (bytes: Bytes)
    ensures |bytes| == n
  {
    if n == 0 then [] else [32] + Blanks(n - 1)
  }

  function WriteCodec(c: Codec): (bytes: Bytes)
    requires CodecFits(c)
    ensures |bytes| == 4
  {
    Blanks(c.blanksBefore) + c.token + Blanks(c.blanksAfter)
  }

  function WriteEntry(e: Entry): Bytes
    requires EntryFits(e)
  {
    match e
    case Plain(body) => body
    case Sized(before, width, height, after) => before + WriteU16(width) + WriteU16(height) + after
  }

  /** A box in its short form. */
  function Wrap(kind: Bytes, payload: Bytes): (bytes: Bytes)
    requires |kind| == 4 && 8 + |payload| < WORD
    ensures |bytes| == 8 + |payload|
  {
    WriteU32(8 + |payload|) + kind + payload
  }

  function TrackHeaderPayload(t: TrackText): Bytes
    requires FieldsFit(t)
  {
    t.headerBefore + WriteU32(t.headerWidth * FIELD + t.widthFraction) + WriteU32(t.headerHeight * FIELD + t.heightFraction)
  }

  function HandlerPayload(t: TrackText): Bytes {
    t.handlerBefore + t.handler + t.handlerAfter
  }

  function SamplesPayload(t: TrackText): Bytes
    requires FieldsFit(t) && 8 + |WriteEntry(t.entry)| < WORD
  {
    var entry := WriteEntry(t.entry);
    t.samplesBefore + WriteU32(t.entries) + WriteU32(8 + |entry|) + WriteCodec(t.codec) + entry + t.samplesAfter
  }

  /** The whole track fits a box in its short form. */
  predicate Fits(t: TrackText) {
    && FieldsFit(t)
    && 64 + |TrackHeaderPayload(t)| + |HandlerPayload(t)| + |t.samplesAfter| + 16 + |WriteEntry(t.entry)| < WORD
  }

  function SampleBoxes(t: TrackText): Bytes
    requires Fits(t)
  {
    Wrap(STBL, Wrap(STSD, SamplesPayload(t)))
  }

  function MediaBoxes(t: TrackText): Bytes
    requires Fits(t)
  {
    Wrap(HDLR, HandlerPayload(t)) + Wrap(MINF, SampleBoxes(t))
  }

  function TrackBoxes(t: TrackText): Bytes
    requires Fits(t)
  {
    Wrap(TKHD, TrackHeaderPayload(t)) + Wrap(MDIA, MediaBoxes(t))
  }

  function Tracks(tracks: seq<TrackText>): Bytes
    requires forall t :: t in tracks ==> Fits(t)
  {
    if tracks == [] then [] else Wrap(TRAK, TrackBoxes(tracks[0])) + Tracks(tracks[1..])
  }

  // ---------------------------------------------------------------- the picture it stands for

  predicate IsVideo(t: TrackText) {
    t.handler == VIDE
  }

  /** The sample's size when both its numbers are positive, or else the header's when both of those are. */
  function Picture(t: TrackText): Sample {
    if t.entry.Sized? && t.entry.width > 0 && t.entry.height > 0 then
      Sample(Some(t.codec.token), Some(t.entry.width), Some(t.entry.height))
    else if t.headerWidth > 0 && t.headerHeight > 0 then
      Sample(Some(t.codec.token), Some(t.headerWidth), Some(t.headerHeight))
    else Sample(Some(t.codec.token), None, None)
  }

  /** The picture of the last video track; tracks with another handler do not count. */
  function LastPicture(tracks: seq<TrackText>, otherwise: Sample): Sample {
    if tracks == [] then otherwise
    else if IsVideo(tracks[|tracks| - 1]) then Picture(tracks[|tracks| - 1])
    else LastPicture(tracks[..|tracks| - 1], otherwise)
  }

  lemma {:induction false} FirstThenRest(tracks: seq<TrackText>, otherwise: Sample)
    requires tracks != []
    ensures LastPicture(tracks, otherwise)
      == LastPicture(tracks[1..], if IsVideo(tracks[0]) then Picture(tracks[0]) else otherwise)
  {
    hide Picture, IsVideo;
    if |tracks| > 1 {
      var front := tracks[..|tracks| - 1];
      assert tracks[1..][..|tracks| - 2] == front[1..];
      FirstThenRest(front, otherwise);
    }
  }

  // ---------------------------------------------------------------- written bytes in a file

  ghost predicate At(bytes: Bytes, offset: nat, part: Bytes) {
    offset + |part| <= |bytes| && bytes[offset..offset + |part|] == part
  }

  lemma AtSplits(bytes: Bytes, offset: nat, a: Bytes, b: Bytes)
    requires At(bytes, offset, a + b)
    ensures At(bytes, offset, a) && At(bytes, offset + |a|, b)
  {
    assert bytes[offset..offset + |a|] == bytes[offset..offset + |a + b|][..|a|];
    assert bytes[offset + |a|..offset + |a| + |b|] == bytes[offset..offset + |a + b|][|a|..];
    assert (a + b)[..|a|] == a && (a + b)[|a|..] == b;
  }

  lemma AtWithin(bytes: Bytes, offset: nat, part: Bytes)
    requires At(bytes, offset, part)
    ensures offset + |part| <= |bytes|
  {
  }

  lemma WrapIsABox(kind: Bytes, payload: Bytes, last: bool)
    requires |kind| == 4 && Printable(kind) && 8 + |payload| < WORD
    ensures var b := BoxText(kind, Short, payload); Writable(b, last) && Header(b, last) + payload == Wrap(kind, payload)
  {
  }

  lemma AtBetween(bytes: Bytes, offset: nat, part: Bytes)
    requires At(bytes, offset, part)
    ensures bytes == bytes[..offset] + part + bytes[offset + |part|..]
  {
  }

  lemma BoxBetween(before: Bytes, kind: Bytes, payload: Bytes, after: Bytes, bytes: Bytes, end: nat, count: nat, maximumBoxes: nat)
    requires |kind| == 4 && Printable(kind) && 8 + |payload| < WORD && bytes == before + Wrap(kind, payload) + after
    requires |before| + 8 + |payload| <= end <= |bytes| <= MAX_SAFE_INTEGER && count < maximumBoxes
    ensures NextBox(bytes, |before|, end, count, maximumBoxes) == Ok(Box(kind, |before|, |before| + 8, |before| + 8 + |payload|))
  {
    hide NextBox, Header, Wrap, Printable;
    WrapIsABox(kind, payload, false);
    ReadWrittenBox(before, BoxText(kind, Short, payload), false, after, bytes, end, count, maximumBoxes);
  }

  lemma PayloadHere(bytes: Bytes, offset: nat, kind: Bytes, payload: Bytes)
    requires |kind| == 4 && 8 + |payload| < WORD && At(bytes, offset, Wrap(kind, payload))
    ensures At(bytes, offset + 8, payload)
  {
    hide At, WriteU32;
    AtSplits(bytes, offset, WriteU32(8 + |payload|) + kind, payload);
  }

  /** A written box is found where it was written, with its payload inside. */
  lemma BoxHere(bytes: Bytes, offset: nat, kind: Bytes, payload: Bytes, end: nat, count: nat, maximumBoxes: nat)
    requires |kind| == 4 && Printable(kind) && 8 + |payload| < WORD && At(bytes, offset, Wrap(kind, payload))
    requires offset + 8 + |payload| <= end <= |bytes| <= MAX_SAFE_INTEGER && count < maximumBoxes
    ensures NextBox(bytes, offset, end, count, maximumBoxes) == Ok(Box(kind, offset, offset + 8, offset + 8 + |payload|))
    ensures At(bytes, offset + 8, payload)
  {
    hide *;
    AtBetween(bytes, offset, Wrap(kind, payload));
    BoxBetween(bytes[..offset], kind, payload, bytes[offset + |Wrap(kind, payload)|..], bytes, end, count, maximumBoxes);
    PayloadHere(bytes, offset, kind, payload);
  }

  lemma NumberHere(bytes: Bytes, offset: nat, n: nat)
    requires n < WORD && At(bytes, offset, WriteU32(n))
    ensures offset + 4 <= |bytes| && ReadU32(bytes, offset) == n
  {
    ReadWritten(n, bytes, offset);
  }

  lemma FieldHere(bytes: Bytes, offset: nat, n: nat)
    requires n < FIELD && At(bytes, offset, WriteU16(n))
    ensures ReadU16(bytes, offset) == n
  {
    var part := bytes[offset..offset + 2];
    assert bytes[offset] == part[0] && bytes[offset + 1] == part[1];
  }

  // ---------------------------------------------------------------- the leaves

  lemma {:induction false} BlanksTrimmedBefore(n: nat, text: Bytes)
    requires text == [] || text[0] != 32
    ensures TrimStart(Blanks(n) + text) == text
  {
    if n == 0 {
      assert Blanks(n) + text == text;
    } else {
      assert (Blanks(n) + text)[1..] == Blanks(n - 1) + text;
      BlanksTrimmedBefore(n - 1, text);
    }
  }

  lemma {:induction false} BlanksEnd(n: nat)
    ensures n > 0 ==> Blanks(n) == Blanks(n - 1) + [32]
  {
    if n > 1 {
      BlanksEnd(n - 1);
    }
  }

  lemma BlankTrimmedAfter(text: Bytes)
    ensures TrimEnd(text + [32]) == TrimEnd(text)
  {
    var all := text + [32];
    assert all[..|all| - 1] == text;
  }

  lemma {:induction false} BlanksTrimmedAfter(text: Bytes, n: nat)
    requires text != [] && text[|text| - 1] != 32
    ensures TrimEnd(text + Blanks(n)) == text
  {
    if n == 0 {
      assert text + Blanks(n) == text;
    } else {
      BlanksEnd(n);
      BlanksTrimmedAfter(text, n - 1);
      BlankTrimmedAfter(text + Blanks(n - 1));
      hide TrimEnd, Blanks;
      assert text + Blanks(n) == (text + Blanks(n - 1)) + [32];
    }
  }

  lemma TokenEnds(token: Bytes)
    requires SafeToken(token)
    ensures token[0] != 32 && token[|token| - 1] != 32 && Printable(token)
  {
    forall b | b in token ensures 0x21 <= b <= 0x7e {
      assert b == token[0] || b in token[1..];
    }
    assert token[0] in token && token[|token| - 1] in token;
  }

  lemma PrintableJoined(a: Bytes, b: Bytes)
    requires Printable(a) && Printable(b)
    ensures Printable(a + b)
  {
  }

  lemma CodecIsTrimmed(c: Codec)
    requires CodecFits(c)
    ensures TrimEnd(TrimStart(WriteCodec(c))) == c.token && Printable(WriteCodec(c))
  {
    var before, after := Blanks(c.blanksBefore), Blanks(c.blanksAfter);
    assert WriteCodec(c) == before + (c.token + after);
    TokenEnds(c.token);
    hide TrimStart, TrimEnd, Blanks, Printable, SafeToken, WriteCodec;
    BlanksTrimmedBefore(c.blanksBefore, c.token + after);
    BlanksTrimmedAfter(c.token, c.blanksAfter);
    BlanksPrintable(c.blanksBefore);
    BlanksPrintable(c.blanksAfter);
    PrintableJoined(c.token, after);
    PrintableJoined(before, c.token + after);
  }

  lemma {:induction false} BlanksPrintable(n: nat)
    ensures Printable(Blanks(n))
  {
    if n > 0 {
      BlanksPrintable(n - 1);
    }
  }

  function SampleSize(e: Entry, token: Bytes): (s: Sample)
    ensures s.codec == Some(token)
  {
    if e.Sized? && e.width > 0 && e.height > 0 then Sample(Some(token), Some(e.width), Some(e.height))
    else Sample(Some(token), None, None)
  }

  lemma SizeHere(bytes: Bytes, offset: nat, e: Entry)
    requires EntryFits(e) && e.Sized? && At(bytes, offset, WriteEntry(e))
    ensures offset + 28 <= |bytes| && ReadU16(bytes, offset + 24) == e.width && ReadU16(bytes, offset + 26) == e.height
    ensures |WriteEntry(e)| >= 28
  {
    var width, height := WriteU16(e.width), WriteU16(e.height);
    assert e.before + width + height + e.after == e.before + (width + (height + e.after));
    AtSplits(bytes, offset, e.before, width + (height + e.after));
    AtSplits(bytes, offset + 24, width, height + e.after);
    AtSplits(bytes, offset + 26, height, e.after);
    hide WriteU16, ReadU16, At;
    FieldHere(bytes, offset + 24, e.width);
    FieldHere(bytes, offset + 26, e.height);
  }

  /** Where the parts of a sample description lie. */
  lemma SamplePartsHere(bytes: Bytes, offset: nat, t: TrackText)
    requires Fits(t) && At(bytes, offset, SamplesPayload(t))
    ensures At(bytes, offset + 4, WriteU32(t.entries)) && At(bytes, offset + 8, WriteU32(8 + |WriteEntry(t.entry)|))
    ensures At(bytes, offset + 12, WriteCodec(t.codec)) && At(bytes, offset + 16, WriteEntry(t.entry))
    ensures |SamplesPayload(t)| == 16 + |WriteEntry(t.entry)| + |t.samplesAfter|
  {
    var entries, codec, entry := WriteU32(t.entries), WriteCodec(t.codec), WriteEntry(t.entry);
    var size := WriteU32(8 + |entry|);
    assert |t.samplesBefore| == 4;
    hide At, WriteU32, WriteCodec, WriteEntry, EntryFits, CodecFits;
    assert SamplesPayload(t) == t.samplesBefore + (entries + (size + (codec + (entry + t.samplesAfter))));
    AtSplits(bytes, offset, t.samplesBefore, entries + (size + (codec + (entry + t.samplesAfter))));
    AtSplits(bytes, offset + 4, entries, size + (codec + (entry + t.samplesAfter)));
    AtSplits(bytes, offset + 8, size, codec + (entry + t.samplesAfter));
    AtSplits(bytes, offset + 12, codec, entry + t.samplesAfter);
    AtSplits(bytes, offset + 16, entry, t.samplesAfter);
  }

  lemma DescriptionIsRead(bytes: Bytes, offset: nat, end: nat, size: nat, codec: Bytes, entries: nat, token: Bytes, e: Entry)
    requires offset + 16 + size <= end <= |bytes| && size >= 8 && entries >= 1 && SafeToken(token)
    requires ReadU32(bytes, offset + 12) == entries && ReadU32(bytes, offset + 16) == size
    requires ReadFourCc(bytes, offset + 20) == Ok(codec) && TrimEnd(TrimStart(codec)) == token
    requires if e.Sized? then size >= 36 && ReadU16(bytes, offset + 48) == e.width && ReadU16(bytes, offset + 50) == e.height else size < 36
    ensures SampleDescription(bytes, Box(STSD, offset, offset + 8, end)) == Ok(SampleSize(e, token))
  {
    hide ReadU32, ReadU16, ReadFourCc, TrimStart, TrimEnd, SafeToken;
  }

  lemma CodecHere(bytes: Bytes, offset: nat, c: Codec)
    requires CodecFits(c) && At(bytes, offset, WriteCodec(c))
    ensures ReadFourCc(bytes, offset) == Ok(WriteCodec(c)) && TrimEnd(TrimStart(WriteCodec(c))) == c.token && SafeToken(c.token)
  {
    hide TrimStart, TrimEnd, SafeToken, WriteCodec, Printable;
    CodecIsTrimmed(c);
  }

  lemma DescriptionHere(bytes: Bytes, offset: nat, t: TrackText)
    requires Fits(t) && At(bytes, offset + 8, SamplesPayload(t)) && offset + 8 + |SamplesPayload(t)| <= |bytes|
    ensures SampleDescription(bytes, Box(STSD, offset, offset + 8, offset + 8 + |SamplesPayload(t)|)) == Ok(SampleSize(t.entry, t.codec.token))
  {
    hide At, WriteU32, ReadU32, ReadU16, WriteCodec, TrimStart, TrimEnd, SamplesPayload, ReadFourCc, SafeToken, Printable, CodecFits,
      SampleDescription, TrackHeaderPayload, HandlerPayload;
    SamplePartsHere(bytes, offset + 8, t);
    NumberHere(bytes, offset + 12, t.entries);
    NumberHere(bytes, offset + 16, 8 + |WriteEntry(t.entry)|);
    CodecHere(bytes, offset + 20, t.codec);
    if t.entry.Sized? {
      SizeHere(bytes, offset + 24, t.entry);
    }
    DescriptionIsRead(bytes, offset, offset + 8 + |SamplesPayload(t)|, 8 + |WriteEntry(t.entry)|, WriteCodec(t.codec), t.entries,
      t.codec.token, t.entry);
  }

  lemma HandlerPartHere(bytes: Bytes, offset: nat, t: TrackText)
    requires |t.handlerBefore| == 8 && |t.handler| == 4 && At(bytes, offset, HandlerPayload(t))
    ensures At(bytes, offset + 8, t.handler) && |HandlerPayload(t)| >= 12
  {
    hide At;
    assert HandlerPayload(t) == t.handlerBefore + (t.handler + t.handlerAfter);
    AtSplits(bytes, offset, t.handlerBefore, t.handler + t.handlerAfter);
    AtSplits(bytes, offset + 8, t.handler, t.handlerAfter);
  }

  lemma HandlerHere(bytes: Bytes, offset: nat, t: TrackText)
    requires |t.handlerBefore| == 8 && |t.handler| == 4 && Printable(t.handler)
    requires At(bytes, offset + 8, HandlerPayload(t)) && offset + 8 + |HandlerPayload(t)| <= |bytes|
    ensures HandlerIsVideo(bytes, Box(HDLR, offset, offset + 8, offset + 8 + |HandlerPayload(t)|)) == Ok(IsVideo(t))
  {
    HandlerPartHere(bytes, offset + 8, t);
    hide HandlerPayload;
    assert bytes[offset + 16..offset + 20] == t.handler;
  }

  function HeaderSize(t: TrackText): TrackSize {
    if t.headerWidth > 0 && t.headerHeight > 0 then TrackSize(Some(t.headerWidth), Some(t.headerHeight)) else TrackSize(None, None)
  }

  lemma FixedPoint(whole: nat, fraction: nat)
    requires fraction < FIELD
    ensures (whole * FIELD + fraction) / FIELD == whole
  {
  }

  lemma HeaderPartsHere(bytes: Bytes, offset: nat, t: TrackText)
    requires FieldsFit(t) && At(bytes, offset, TrackHeaderPayload(t))
    ensures |TrackHeaderPayload(t)| == |t.headerBefore| + 8
    ensures At(bytes, offset + |t.headerBefore|, WriteU32(t.headerWidth * FIELD + t.widthFraction))
    ensures At(bytes, offset + |t.headerBefore| + 4, WriteU32(t.headerHeight * FIELD + t.heightFraction))
  {
    var width, height := WriteU32(t.headerWidth * FIELD + t.widthFraction), WriteU32(t.headerHeight * FIELD + t.heightFraction);
    hide At, WriteU32, CodecFits, EntryFits;
    assert TrackHeaderPayload(t) == t.headerBefore + (width + height);
    AtSplits(bytes, offset, t.headerBefore, width + height);
    AtSplits(bytes, offset + |t.headerBefore|, width, height);
  }

  lemma SizeIsRead(bytes: Bytes, offset: nat, end: nat, width: nat, height: nat, t: TrackText)
    requires FieldsFit(t) && width == t.headerWidth * FIELD + t.widthFraction && height == t.headerHeight * FIELD + t.heightFraction
    requires offset + 20 <= end <= |bytes| && ReadU32(bytes, end - 8) == width && ReadU32(bytes, end - 4) == height
    ensures TrackHeader(bytes, Box(TKHD, offset, offset + 8, end)) == Ok(HeaderSize(t))
  {
    hide ReadU32, CodecFits, EntryFits, Printable;
    FixedPoint(t.headerWidth, t.widthFraction);
    FixedPoint(t.headerHeight, t.heightFraction);
  }

  lemma TrackHeaderHere(bytes: Bytes, offset: nat, t: TrackText)
    requires FieldsFit(t) && At(bytes, offset + 8, TrackHeaderPayload(t)) && offset + 8 + |TrackHeaderPayload(t)| <= |bytes|
    ensures TrackHeader(bytes, Box(TKHD, offset, offset + 8, offset + 8 + |TrackHeaderPayload(t)|)) == Ok(HeaderSize(t))
  {
    var width, height := t.headerWidth * FIELD + t.widthFraction, t.headerHeight * FIELD + t.heightFraction;
    assert width < WORD && height < WORD && |t.headerBefore| >= 4;
    hide *;
    HeaderPartsHere(bytes, offset + 8, t);
    var start := offset + 8 + |t.headerBefore|;
    NumberHere(bytes, start, width);
    NumberHere(bytes, start + 4, height);
    SizeIsRead(bytes, offset, start + 8, width, height, t);
  }

  // ---------------------------------------------------------------- the boxes around them

  lemma TableHolds(bytes: Bytes, offset: nat, end: nat, count: nat, sample: Sample, limits: Limits)
    requires offset + 8 <= end <= |bytes| && limits.maximumDepth >= 4
    requires NextBox(bytes, offset, end, count, limits.maximumBoxes) == Ok(Box(STSD, offset, offset + 8, end))
    requires SampleDescription(bytes, Box(STSD, offset, offset + 8, end)) == Ok(sample)
    ensures FindSample(bytes, offset, end, 4, count, limits) == Ok(Counted(sample, count + 1))
  {
    hide NextBox, SampleDescription;
  }

  lemma SampleShape(t: TrackText)
    requires Fits(t)
    ensures FieldsFit(t) && 8 + |WriteEntry(t.entry)| < WORD && |SampleBoxes(t)| == 16 + |SamplesPayload(t)|
    ensures 8 + |SamplesPayload(t)| < WORD && 8 + |Wrap(STSD, SamplesPayload(t))| < WORD
    ensures SampleBoxes(t) == Wrap(STBL, Wrap(STSD, SamplesPayload(t)))
    ensures |STBL| == |STSD| == 4 && Printable(STBL) && Printable(STSD)
  {
  }

  lemma TableIsFound(bytes: Bytes, offset: nat, t: TrackText, count: nat, limits: Limits)
    requires Fits(t) && FieldsFit(t) && |STSD| == 4 && 8 + |SamplesPayload(t)| < WORD
    requires At(bytes, offset, Wrap(STSD, SamplesPayload(t))) && |bytes| <= MAX_SAFE_INTEGER
    requires count < limits.maximumBoxes && limits.maximumDepth >= 4
    ensures offset + 8 + |SamplesPayload(t)| <= |bytes|
    ensures FindSample(bytes, offset, offset + 8 + |SamplesPayload(t)|, 4, count, limits) == Ok(Counted(SampleSize(t.entry, t.codec.token), count + 1))
  {
    hide *;
    SampleShape(t);
    AtWithin(bytes, offset, Wrap(STSD, SamplesPayload(t)));
    var end := offset + 8 + |SamplesPayload(t)|;
    BoxHere(bytes, offset, STSD, SamplesPayload(t), end, count, limits.maximumBoxes);
    DescriptionHere(bytes, offset, t);
    TableHolds(bytes, offset, end, count, SampleSize(t.entry, t.codec.token), limits);
  }

  lemma TableOfSamples(bytes: Bytes, offset: nat, end: nat, count: nat, sample: Sample, limits: Limits)
    requires offset + 8 <= end <= |bytes| && limits.maximumDepth >= 3 && sample.codec.Some?
    requires NextBox(bytes, offset, end, count, limits.maximumBoxes) == Ok(Box(STBL, offset, offset + 8, end))
    requires FindSample(bytes, offset + 8, end, 4, count + 1, limits) == Ok(Counted(sample, count + 2))
    ensures FindSample(bytes, offset, end, 3, count, limits) == Ok(Counted(sample, count + 2))
  {
    hide NextBox, SampleDescription;
  }

  lemma SampleIsFound(bytes: Bytes, offset: nat, t: TrackText, count: nat, limits: Limits)
    requires Fits(t) && At(bytes, offset, SampleBoxes(t)) && |bytes| <= MAX_SAFE_INTEGER
    requires count + 2 <= limits.maximumBoxes && limits.maximumDepth >= 4
    ensures offset + |SampleBoxes(t)| <= |bytes|
    ensures FindSample(bytes, offset, offset + |SampleBoxes(t)|, 3, count, limits) == Ok(Counted(SampleSize(t.entry, t.codec.token), count + 2))
  {
    hide *;
    SampleShape(t);
    AtWithin(bytes, offset, SampleBoxes(t));
    var end, inner := offset + |SampleBoxes(t)|, Wrap(STSD, SamplesPayload(t));
    var sample := SampleSize(t.entry, t.codec.token);
    assert At(bytes, offset, Wrap(STBL, inner)) && end == offset + 8 + |inner|;
    BoxHere(bytes, offset, STBL, inner, end, count, limits.maximumBoxes);
    TableIsFound(bytes, offset + 8, t, count + 1, limits);
    TableOfSamples(bytes, offset, end, count, sample, limits);
  }

  /** Two written boxes, the second to the end of their parent. */
  lemma TwoBoxesHere(bytes: Bytes, offset: nat, first: Bytes, one: Bytes, second: Bytes, two: Bytes, count: nat, maximumBoxes: nat)
    requires |first| == 4 && Printable(first) && 8 + |one| < WORD && |second| == 4 && Printable(second) && 8 + |two| < WORD
    requires At(bytes, offset, Wrap(first, one) + Wrap(second, two)) && |bytes| <= MAX_SAFE_INTEGER && count + 2 <= maximumBoxes
    ensures var middle, end := offset + 8 + |one|, offset + 16 + |one| + |two|;
      && end <= |bytes|
      && NextBox(bytes, offset, end, count, maximumBoxes) == Ok(Box(first, offset, offset + 8, middle))
      && NextBox(bytes, middle, end, count + 1, maximumBoxes) == Ok(Box(second, middle, middle + 8, end))
      && At(bytes, offset + 8, one) && At(bytes, middle + 8, two)
  {
    AtSplits(bytes, offset, Wrap(first, one), Wrap(second, two));
    hide NextBox, Wrap;
    BoxHere(bytes, offset, first, one, offset + 16 + |one| + |two|, count, maximumBoxes);
    BoxHere(bytes, offset + 8 + |one|, second, two, offset + 16 + |one| + |two|, count + 1, maximumBoxes);
  }

  lemma KindsArePrintable()
    ensures |MOOV| == |MVHD| == |TRAK| == |TKHD| == |MDIA| == |HDLR| == |MINF| == |FTYP| == 4
    ensures Printable(MOOV) && Printable(MVHD) && Printable(TRAK) && Printable(TKHD) && Printable(MDIA) && Printable(HDLR) && Printable(MINF)
    ensures Printable(FTYP)
  {
  }

  lemma HandlerThenSamples(bytes: Bytes, offset: nat, middle: nat, end: nat, count: nat, track: Track, video: bool, sample: Sample,
                           limits: Limits)
    requires offset + 8 <= middle && middle + 8 <= end <= |bytes|
    requires NextBox(bytes, offset, end, count, limits.maximumBoxes) == Ok(Box(HDLR, offset, offset + 8, middle))
    requires HandlerIsVideo(bytes, Box(HDLR, offset, offset + 8, middle)) == Ok(video)
    requires NextBox(bytes, middle, end, count + 1, limits.maximumBoxes) == Ok(Box(MINF, middle, middle + 8, end))
    requires FindSample(bytes, middle + 8, end, 3, count + 2, limits) == Ok(Counted(sample, count + 4))
    ensures MediaFrom(bytes, offset, end, 1, count, track, limits) == Ok(Counted(Track(video, track.size, sample), count + 4))
  {
    hide NextBox, HandlerIsVideo, FindSample;
    var next, last := track.(video := video), Track(video, track.size, sample);
    assert MediaFrom(bytes, end, end, 1, count + 4, last, limits) == Ok(Counted(last, count + 4));
    assert MediaFrom(bytes, middle, end, 1, count + 1, next, limits) == Ok(Counted(last, count + 4));
  }

  lemma MediaShape(t: TrackText)
    requires Fits(t)
    ensures 8 + |HandlerPayload(t)| < WORD && 8 + |SampleBoxes(t)| < WORD
    ensures MediaBoxes(t) == Wrap(HDLR, HandlerPayload(t)) + Wrap(MINF, SampleBoxes(t))
    ensures |t.handlerBefore| == 8 && |t.handler| == 4 && Printable(t.handler)
  {
  }

  /** The handler box, and behind it the box that holds the samples. */
  lemma MediaParts(bytes: Bytes, offset: nat, t: TrackText, count: nat, limits: Limits) returns (middle: nat)
    requires Fits(t) && At(bytes, offset, MediaBoxes(t)) && |bytes| <= MAX_SAFE_INTEGER && count + 2 <= limits.maximumBoxes
    ensures offset + 8 <= middle && middle + 8 + |SampleBoxes(t)| == offset + |MediaBoxes(t)| <= |bytes|
    ensures var end := offset + |MediaBoxes(t)|;
      && NextBox(bytes, offset, end, count, limits.maximumBoxes) == Ok(Box(HDLR, offset, offset + 8, middle))
      && HandlerIsVideo(bytes, Box(HDLR, offset, offset + 8, middle)) == Ok(IsVideo(t))
      && NextBox(bytes, middle, end, count + 1, limits.maximumBoxes) == Ok(Box(MINF, middle, middle + 8, end))
      && At(bytes, middle + 8, SampleBoxes(t))
  {
    hide *;
    MediaShape(t);
    KindsArePrintable();
    middle := offset + 8 + |HandlerPayload(t)|;
    TwoBoxesHere(bytes, offset, HDLR, HandlerPayload(t), MINF, SampleBoxes(t), count, limits.maximumBoxes);
    HandlerHere(bytes, offset, t);
  }

  lemma MediaIsRead(bytes: Bytes, offset: nat, t: TrackText, count: nat, track: Track, limits: Limits)
    requires Fits(t) && At(bytes, offset, MediaBoxes(t)) && |bytes| <= MAX_SAFE_INTEGER
    requires count + 4 <= limits.maximumBoxes && limits.maximumDepth >= 4
    ensures offset + |MediaBoxes(t)| <= |bytes|
    ensures MediaFrom(bytes, offset, offset + |MediaBoxes(t)|, 1, count, track, limits)
      == Ok(Counted(Track(IsVideo(t), track.size, SampleSize(t.entry, t.codec.token)), count + 4))
  {
    hide *;
    var middle := MediaParts(bytes, offset, t, count, limits);
    SampleIsFound(bytes, middle + 8, t, count + 2, limits);
    HandlerThenSamples(bytes, offset, middle, offset + |MediaBoxes(t)|, count, track, IsVideo(t), SampleSize(t.entry, t.codec.token), limits);
  }

  lemma HeaderThenMedia(bytes: Bytes, offset: nat, middle: nat, end: nat, count: nat, size: TrackSize, video: bool, sample: Sample,
                        limits: Limits)
    requires offset + 8 <= middle && middle + 8 <= end <= |bytes|
    requires NextBox(bytes, offset, end, count, limits.maximumBoxes) == Ok(Box(TKHD, offset, offset + 8, middle))
    requires TrackHeader(bytes, Box(TKHD, offset, offset + 8, middle)) == Ok(size)
    requires NextBox(bytes, middle, end, count + 1, limits.maximumBoxes) == Ok(Box(MDIA, middle, middle + 8, end))
    requires MediaFrom(bytes, middle + 8, end, 1, count + 2, NO_TRACK.(size := size), limits) == Ok(Counted(Track(video, size, sample), count + 6))
    ensures TrackFrom(bytes, offset, end, 1, count, NO_TRACK, limits) == Ok(Counted(Track(video, size, sample), count + 6))
  {
    hide NextBox, TrackHeader, MediaFrom;
    var next, last := NO_TRACK.(size := size), Track(video, size, sample);
    assert TrackFrom(bytes, end, end, 1, count + 6, last, limits) == Ok(Counted(last, count + 6));
    assert TrackFrom(bytes, middle, end, 1, count + 1, next, limits) == Ok(Counted(last, count + 6));
  }

  lemma TrackShape(t: TrackText)
    requires Fits(t)
    ensures FieldsFit(t) && 8 + |TrackHeaderPayload(t)| < WORD && 8 + |MediaBoxes(t)| < WORD
    ensures TrackBoxes(t) == Wrap(TKHD, TrackHeaderPayload(t)) + Wrap(MDIA, MediaBoxes(t))
  {
  }

  /** The track header, and behind it the media box. */
  lemma TrackParts(bytes: Bytes, offset: nat, t: TrackText, count: nat, limits: Limits) returns (middle: nat)
    requires Fits(t) && At(bytes, offset, TrackBoxes(t)) && |bytes| <= MAX_SAFE_INTEGER && count + 2 <= limits.maximumBoxes
    ensures offset + 8 <= middle && middle + 8 + |MediaBoxes(t)| == offset + |TrackBoxes(t)| <= |bytes|
    ensures var end := offset + |TrackBoxes(t)|;
      && NextBox(bytes, offset, end, count, limits.maximumBoxes) == Ok(Box(TKHD, offset, offset + 8, middle))
      && TrackHeader(bytes, Box(TKHD, offset, offset + 8, middle)) == Ok(HeaderSize(t))
      && NextBox(bytes, middle, end, count + 1, limits.maximumBoxes) == Ok(Box(MDIA, middle, middle + 8, end))
      && At(bytes, middle + 8, MediaBoxes(t))
  {
    hide *;
    TrackShape(t);
    KindsArePrintable();
    middle := offset + 8 + |TrackHeaderPayload(t)|;
    TwoBoxesHere(bytes, offset, TKHD, TrackHeaderPayload(t), MDIA, MediaBoxes(t), count, limits.maximumBoxes);
    TrackHeaderHere(bytes, offset, t);
  }

  lemma TrackIsRead(bytes: Bytes, offset: nat, t: TrackText, count: nat, limits: Limits)
    requires Fits(t) && At(bytes, offset, TrackBoxes(t)) && |bytes| <= MAX_SAFE_INTEGER
    requires count + 6 <= limits.maximumBoxes && limits.maximumDepth >= 4
    ensures offset + |TrackBoxes(t)| <= |bytes|
    ensures TrackFrom(bytes, offset, offset + |TrackBoxes(t)|, 1, count, NO_TRACK, limits)
      == Ok(Counted(Track(IsVideo(t), HeaderSize(t), SampleSize(t.entry, t.codec.token)), count + 6))
  {
    hide *;
    var middle := TrackParts(bytes, offset, t, count, limits);
    MediaIsRead(bytes, middle + 8, t, count + 2, NO_TRACK.(size := HeaderSize(t)), limits);
    HeaderThenMedia(bytes, offset, middle, offset + |TrackBoxes(t)|, count, HeaderSize(t), IsVideo(t), SampleSize(t.entry, t.codec.token), limits);
  }

  lemma SampleBeforeHeader(t: TrackText)
    ensures var size, sample := HeaderSize(t), SampleSize(t.entry, t.codec.token);
      Picture(t) == Sample(sample.codec, Or(sample.width, size.width), Or(sample.height, size.height))
  {
  }

  lemma PictureIsRead(bytes: Bytes, offset: nat, t: TrackText, count: nat, limits: Limits)
    requires Fits(t) && 8 + |TrackBoxes(t)| < WORD && At(bytes, offset + 8, TrackBoxes(t)) && |bytes| <= MAX_SAFE_INTEGER
    requires count + 6 <= limits.maximumBoxes && limits.maximumDepth >= 4
    ensures offset + 8 + |TrackBoxes(t)| <= |bytes|
    ensures ParseTrack(bytes, Box(TRAK, offset, offset + 8, offset + 8 + |TrackBoxes(t)|), 1, count, limits)
      == Ok(Counted(if IsVideo(t) then Some(Picture(t)) else None, count + 6))
  {
    hide TrackFrom, TrackBoxes, At, IsVideo, Fits, HeaderSize, SampleSize, Picture, Or;
    TrackIsRead(bytes, offset + 8, t, count, limits);
    SampleBeforeHeader(t);
  }

  // ---------------------------------------------------------------- whole films

  predicate AllFit(tracks: seq<TrackText>) {
    (forall t :: t in tracks ==> Fits(t)) && 36 + |Tracks(tracks)| < WORD
  }

  lemma FirstFits(tracks: seq<TrackText>)
    requires AllFit(tracks) && tracks != []
    ensures Fits(tracks[0]) && AllFit(tracks[1..]) && 8 + |TrackBoxes(tracks[0])| < WORD
    ensures Tracks(tracks) == Wrap(TRAK, TrackBoxes(tracks[0])) + Tracks(tracks[1..])
  {
    hide Fits;
    assert forall t :: t in tracks[1..] ==> t in tracks;
  }

  lemma TrackThenTracks(bytes: Bytes, offset: nat, middle: nat, end: nat, count: nat, movie: Movie, picture: Option<Sample>, limits: Limits)
    requires offset + 8 <= middle <= end <= |bytes|
    requires NextBox(bytes, offset, end, count, limits.maximumBoxes) == Ok(Box(TRAK, offset, offset + 8, middle))
    requires ParseTrack(bytes, Box(TRAK, offset, offset + 8, middle), 1, count + 1, limits) == Ok(Counted(picture, count + 7))
    ensures MovieFrom(bytes, offset, end, count, movie, limits)
      == MovieFrom(bytes, middle, end, count + 7, if picture.Some? then movie.(video := picture.value) else movie, limits)
  {
    hide NextBox, ParseTrack;
  }

  /** The first track's box, and behind it the others. */
  lemma FirstTrackHere(bytes: Bytes, offset: nat, tracks: seq<TrackText>, count: nat, limits: Limits) returns (middle: nat)
    requires AllFit(tracks) && tracks != [] && At(bytes, offset, Tracks(tracks)) && |bytes| <= MAX_SAFE_INTEGER
    requires count < limits.maximumBoxes
    ensures Fits(tracks[0]) && 8 + |TrackBoxes(tracks[0])| < WORD && middle == offset + 8 + |TrackBoxes(tracks[0])|
    ensures AllFit(tracks[1..]) && middle + |Tracks(tracks[1..])| == offset + |Tracks(tracks)| <= |bytes|
    ensures At(bytes, offset + 8, TrackBoxes(tracks[0])) && At(bytes, middle, Tracks(tracks[1..]))
    ensures NextBox(bytes, offset, offset + |Tracks(tracks)|, count, limits.maximumBoxes) == Ok(Box(TRAK, offset, offset + 8, middle))
  {
    hide NextBox, TrackBoxes, Tracks, Fits, At, Printable, Wrap;
    var t, end := tracks[0], offset + |Tracks(tracks)|;
    FirstFits(tracks);
    KindsArePrintable();
    middle := offset + 8 + |TrackBoxes(t)|;
    AtSplits(bytes, offset, Wrap(TRAK, TrackBoxes(t)), Tracks(tracks[1..]));
    AtWithin(bytes, offset, Tracks(tracks));
    BoxHere(bytes, offset, TRAK, TrackBoxes(t), end, count, limits.maximumBoxes);
  }

  lemma FirstTrackIsRead(bytes: Bytes, offset: nat, tracks: seq<TrackText>, count: nat, movie: Movie, limits: Limits) returns (middle: nat)
    requires AllFit(tracks) && tracks != [] && At(bytes, offset, Tracks(tracks)) && |bytes| <= MAX_SAFE_INTEGER
    requires count + 7 <= limits.maximumBoxes && limits.maximumDepth >= 4
    ensures AllFit(tracks[1..]) && offset <= middle && middle + |Tracks(tracks[1..])| == offset + |Tracks(tracks)| <= |bytes|
    ensures At(bytes, middle, Tracks(tracks[1..]))
    ensures MovieFrom(bytes, offset, offset + |Tracks(tracks)|, count, movie, limits)
      == MovieFrom(bytes, middle, offset + |Tracks(tracks)|, count + 7,
           if IsVideo(tracks[0]) then movie.(video := Picture(tracks[0])) else movie, limits)
  {
    hide Wrap, TrackBoxes, Tracks, NextBox, ParseTrack, MovieFrom, Picture, IsVideo, At, Fits;
    var t := tracks[0];
    middle := FirstTrackHere(bytes, offset, tracks, count, limits);
    PictureIsRead(bytes, offset, t, count + 1, limits);
    TrackThenTracks(bytes, offset, middle, offset + |Tracks(tracks)|, count, movie, if IsVideo(t) then Some(Picture(t)) else None, limits);
  }

  lemma NoTracksAreRead(bytes: Bytes, offset: nat, count: nat, movie: Movie, limits: Limits)
    requires offset <= |bytes|
    ensures Tracks([]) == [] && LastPicture([], movie.video) == movie.video
    ensures MovieFrom(bytes, offset, offset, count, movie, limits) == Ok(Counted(movie, count))
  {
  }

  lemma {:induction false} TracksAreRead(bytes: Bytes, offset: nat, tracks: seq<TrackText>, count: nat, movie: Movie, limits: Limits)
    requires AllFit(tracks) && At(bytes, offset, Tracks(tracks)) && |bytes| <= MAX_SAFE_INTEGER
    requires count + 7 * |tracks| <= limits.maximumBoxes && limits.maximumDepth >= 4
    ensures offset + |Tracks(tracks)| <= |bytes|
    ensures MovieFrom(bytes, offset, offset + |Tracks(tracks)|, count, movie, limits)
      == Ok(Counted(movie.(video := LastPicture(tracks, movie.video)), count + 7 * |tracks|))
    decreases |tracks|
  {
    hide Tracks, MovieFrom, Fits, Picture, IsVideo, LastPicture;
    if tracks == [] {
      NoTracksAreRead(bytes, offset, count, movie, limits);
    } else {
      var middle := FirstTrackIsRead(bytes, offset, tracks, count, movie, limits);
      var next := if IsVideo(tracks[0]) then movie.(video := Picture(tracks[0])) else movie;
      TracksAreRead(bytes, middle, tracks[1..], count + 7, next, limits);
      FirstThenRest(tracks, movie.video);
    }
  }

  /** A file type and a movie of a header and these tracks. */
  function PicturedFilm(t: Timing, tracks: seq<TrackText>): Bytes
    requires t.timescale < WORD && t.duration < WORD && AllFit(tracks)
  {
    Wrap(FTYP, ISOM + [0, 0, 0, 0]) + Wrap(MOOV, Wrap(MVHD, HeaderPayload(t)) + Tracks(tracks))
  }

  lemma TypeIsRead(bytes: Bytes, rest: Bytes, limits: Limits)
    requires bytes == Wrap(FTYP, ISOM + [0, 0, 0, 0]) + rest && |bytes| <= MAX_SAFE_INTEGER && limits.maximumBoxes >= 1
    ensures NextBox(bytes, 0, |bytes|, 0, limits.maximumBoxes) == Ok(Box(FTYP, 0, 8, 16))
    ensures FileType(bytes, Box(FTYP, 0, 8, 16)) == Ok(()) && At(bytes, 16, rest)
  {
    var payload := ISOM + [0, 0, 0, 0];
    KindsArePrintable();
    assert At(bytes, 0, Wrap(FTYP, payload) + rest);
    AtSplits(bytes, 0, Wrap(FTYP, payload), rest);
    BoxHere(bytes, 0, FTYP, payload, |bytes|, 0, limits.maximumBoxes);
    AtSplits(bytes, 8, ISOM, [0, 0, 0, 0]);
    hide NextBox, Wrap;
    assert bytes[8..12] == ISOM && Brands(bytes, 16, 16) == Ok([]);
    assert ISOM in [ISOM] + [] && SupportedBrand(ISOM);
  }

  lemma HeaderIsRead(bytes: Bytes, offset: nat, t: Timing)
    requires t.timescale < WORD && t.duration < WORD && At(bytes, offset + 8, HeaderPayload(t))
    ensures MovieHeader(bytes, Box(MVHD, offset, offset + 8, offset + 28)) == Milliseconds(t)
  {
    var start := offset + 8;
    var zeros: Bytes := seq(12, _ => 0);
    assert HeaderPayload(t) == zeros + (WriteU32(t.timescale) + WriteU32(t.duration));
    AtSplits(bytes, start, zeros, WriteU32(t.timescale) + WriteU32(t.duration));
    AtSplits(bytes, start + 12, WriteU32(t.timescale), WriteU32(t.duration));
    assert bytes[start] == bytes[start..start + 12][0] == zeros[0] == 0;
    assert HeaderHolds(bytes, start, t);
    ReadTimingExactly(bytes, Box(MVHD, offset, offset + 8, offset + 28), t);
    hide Milliseconds, WriteU32, ReadTiming, HeaderHolds, HeaderPayload;
  }

  /** Where the movie of a film lies, and its header and tracks in it. */
  lemma MoviePartsHere(t: Timing, tracks: seq<TrackText>, limits: Limits)
    requires t.timescale < WORD && t.duration < WORD && AllFit(tracks) && |PicturedFilm(t, tracks)| <= MAX_SAFE_INTEGER && limits.maximumBoxes >= 3
    ensures var film := PicturedFilm(t, tracks);
      && |film| == 52 + |Tracks(tracks)|
      && NextBox(film, 0, |film|, 0, limits.maximumBoxes) == Ok(Box(FTYP, 0, 8, 16)) && FileType(film, Box(FTYP, 0, 8, 16)) == Ok(())
      && NextBox(film, 16, |film|, 1, limits.maximumBoxes) == Ok(Box(MOOV, 16, 24, |film|))
      && NextBox(film, 24, |film|, 2, limits.maximumBoxes) == Ok(Box(MVHD, 24, 32, 52))
      && MovieHeader(film, Box(MVHD, 24, 32, 52)) == Milliseconds(t) && At(film, 52, Tracks(tracks))
  {
    hide Wrap, NextBox, FileType, MovieHeader, Milliseconds, At, Tracks, HeaderPayload, Printable, Fits;
    KindsArePrintable();
    var film, header := PicturedFilm(t, tracks), Wrap(MVHD, HeaderPayload(t));
    var inside := header + Tracks(tracks);
    TypeIsRead(film, Wrap(MOOV, inside), limits);
    BoxHere(film, 16, MOOV, inside, |film|, 1, limits.maximumBoxes);
    AtSplits(film, 24, header, Tracks(tracks));
    BoxHere(film, 24, MVHD, HeaderPayload(t), |film|, 2, limits.maximumBoxes);
    HeaderIsRead(film, 24, t);
  }

  lemma FilmLength(t: Timing, tracks: seq<TrackText>)
    requires t.timescale < WORD && t.duration < WORD && AllFit(tracks)
    ensures |PicturedFilm(t, tracks)| <= MAX_SAFE_INTEGER
  {
    hide Fits, Tracks;
  }

  lemma MovieIsAll(film: Bytes, t: Timing, movie: Movie, count: nat, limits: Limits)
    requires 52 <= |film|
    requires NextBox(film, 0, |film|, 0, limits.maximumBoxes) == Ok(Box(FTYP, 0, 8, 16)) && FileType(film, Box(FTYP, 0, 8, 16)) == Ok(())
    requires NextBox(film, 16, |film|, 1, limits.maximumBoxes) == Ok(Box(MOOV, 16, 24, |film|))
    requires NextBox(film, 24, |film|, 2, limits.maximumBoxes) == Ok(Box(MVHD, 24, 32, 52))
    requires MovieHeader(film, Box(MVHD, 24, 32, 52)) == Milliseconds(t)
    requires Milliseconds(t).Ok? ==> movie.durationMs == Some(Milliseconds(t).value)
    requires Milliseconds(t).Ok? ==>
      MovieFrom(film, 52, |film|, 3, Movie(Some(Milliseconds(t).value), NO_SAMPLE), limits) == Ok(Counted(movie, count))
    ensures Verify(film, limits) == if Milliseconds(t).Ok? then Ok(Video(Milliseconds(t).value, movie.video)) else Err(Milliseconds(t).code)
  {
    hide NextBox, FileType, MovieHeader, Milliseconds;
    var typed := File(true, Movie(None, NO_SAMPLE));
    assert FileFrom(film, 0, 0, NEW_FILE, limits) == FileFrom(film, 16, 1, typed, limits);
    if Milliseconds(t).Ok? {
      assert MovieFrom(film, 24, |film|, 2, typed.movie, limits) == Ok(Counted(movie, count));
      assert FileFrom(film, |film|, count, File(true, movie), limits) == Ok(Counted(File(true, movie), count));
    } else {
      assert MovieFrom(film, 24, |film|, 2, typed.movie, limits) == Err(Milliseconds(t).code);
    }
  }

  /**
   However many tracks a film has, and whatever their fields and filling: if its header has a duration, the film is
   accepted with exactly the codec and size of its last video track, within seven boxes a track and a depth of four.
   */
  lemma FilmShowsItsLastVideoTrack(t: Timing, tracks: seq<TrackText>, limits: Limits)
    requires t.timescale < WORD && t.duration < WORD && AllFit(tracks)
    requires limits.maximumBoxes >= 3 + 7 * |tracks| && limits.maximumDepth >= 4
    ensures Verify(PicturedFilm(t, tracks), limits) ==
      match Milliseconds(t)
      case Err(code) => Err(code)
      case Ok(ms) => Ok(Video(ms, LastPicture(tracks, NO_SAMPLE)))
  {
    hide *;
    FilmLength(t, tracks);
    MoviePartsHere(t, tracks, limits);
    var film, result := PicturedFilm(t, tracks), Milliseconds(t);
    var movie := Movie(Some(if result.Ok? then result.value else 0), NO_SAMPLE);
    TracksAreRead(film, 52, tracks, 3, movie, limits);
    MovieIsAll(film, t, movie.(video := LastPicture(tracks, NO_SAMPLE)), 3 + 7 * |tracks|, limits);
  }

  /** Without tracks it is the film of a bare header. */
  lemma NoTracksNoPicture(t: Timing)
    requires t.timescale < WORD && t.duration < WORD
    ensures PicturedFilm(t, []) == Film(t)
  {
    hide Wrap, Header, Printable, HeaderPayload;
    KindsArePrintable();
    WrapIsABox(FTYP, ISOM + [0, 0, 0, 0], false);
    WrapIsABox(MVHD, HeaderPayload(t), true);
    var movie := Wrap(MVHD, HeaderPayload(t));
    WrapIsABox(MOOV, movie, true);
    assert movie + [] == movie;
  }

  // ---------------------------------------------------------------- a film that is nested too deep

  const TOO_DEEP := "mp4-traversal-limit-exceeded"

  lemma TableTooDeep(bytes: Bytes, offset: nat, end: nat, count: nat, limits: Limits)
    requires offset + 8 <= end <= |bytes| && limits.maximumDepth < 4
    requires NextBox(bytes, offset, end, count, limits.maximumBoxes) == Ok(Box(STBL, offset, offset + 8, end))
    ensures FindSample(bytes, offset, end, 3, count, limits) == Err(TOO_DEEP)
  {
    hide NextBox;
    assert limits.maximumDepth == 3 ==> FindSample(bytes, offset + 8, end, 4, count + 1, limits) == Err(TOO_DEEP);
  }

  lemma SamplesTooDeep(bytes: Bytes, offset: nat, t: TrackText, count: nat, limits: Limits)
    requires Fits(t) && At(bytes, offset, SampleBoxes(t)) && |bytes| <= MAX_SAFE_INTEGER
    requires count < limits.maximumBoxes && limits.maximumDepth < 4
    ensures offset + |SampleBoxes(t)| <= |bytes|
    ensures FindSample(bytes, offset, offset + |SampleBoxes(t)|, 3, count, limits) == Err(TOO_DEEP)
  {
    hide *;
    SampleShape(t);
    AtWithin(bytes, offset, SampleBoxes(t));
    var end, inner := offset + |SampleBoxes(t)|, Wrap(STSD, SamplesPayload(t));
    assert At(bytes, offset, Wrap(STBL, inner)) && end == offset + 8 + |inner|;
    BoxHere(bytes, offset, STBL, inner, end, count, limits.maximumBoxes);
    TableTooDeep(bytes, offset, end, count, limits);
  }

  lemma SamplesFailMedia(bytes: Bytes, offset: nat, middle: nat, end: nat, count: nat, track: Track, video: bool, code: string, limits: Limits)
    requires offset + 8 <= middle && middle + 8 <= end <= |bytes|
    requires NextBox(bytes, offset, end, count, limits.maximumBoxes) == Ok(Box(HDLR, offset, offset + 8, middle))
    requires HandlerIsVideo(bytes, Box(HDLR, offset, offset + 8, middle)) == Ok(video)
    requires NextBox(bytes, middle, end, count + 1, limits.maximumBoxes) == Ok(Box(MINF, middle, middle + 8, end))
    requires FindSample(bytes, middle + 8, end, 3, count + 2, limits) == Err(code)
    ensures MediaFrom(bytes, offset, end, 1, count, track, limits) == Err(code)
  {
    hide NextBox, HandlerIsVideo, FindSample;
    assert MediaFrom(bytes, middle, end, 1, count + 1, track.(video := video), limits) == Err(code);
  }

  lemma MediaTooDeep(bytes: Bytes, offset: nat, t: TrackText, count: nat, track: Track, limits: Limits)
    requires Fits(t) && At(bytes, offset, MediaBoxes(t)) && |bytes| <= MAX_SAFE_INTEGER
    requires count + 3 <= limits.maximumBoxes && limits.maximumDepth < 4
    ensures offset + |MediaBoxes(t)| <= |bytes| && MediaFrom(bytes, offset, offset + |MediaBoxes(t)|, 1, count, track, limits) == Err(TOO_DEEP)
  {
    hide *;
    var middle := MediaParts(bytes, offset, t, count, limits);
    SamplesTooDeep(bytes, middle + 8, t, count + 2, limits);
    SamplesFailMedia(bytes, offset, middle, offset + |MediaBoxes(t)|, count, track, IsVideo(t), TOO_DEEP, limits);
  }

  lemma MediaFailsTrack(bytes: Bytes, offset: nat, middle: nat, end: nat, count: nat, size: TrackSize, code: string, limits: Limits)
    requires offset + 8 <= middle && middle + 8 <= end <= |bytes|
    requires NextBox(bytes, offset, end, count, limits.maximumBoxes) == Ok(Box(TKHD, offset, offset + 8, middle))
    requires TrackHeader(bytes, Box(TKHD, offset, offset + 8, middle)) == Ok(size)
    requires NextBox(bytes, middle, end, count + 1, limits.maximumBoxes) == Ok(Box(MDIA, middle, middle + 8, end))
    requires MediaFrom(bytes, middle + 8, end, 1, count + 2, NO_TRACK.(size := size), limits) == Err(code)
    ensures TrackFrom(bytes, offset, end, 1, count, NO_TRACK, limits) == Err(code)
  {
    hide NextBox, TrackHeader, MediaFrom;
    assert TrackFrom(bytes, middle, end, 1, count + 1, NO_TRACK.(size := size), limits) == Err(code);
  }

  lemma TrackTooDeep(bytes: Bytes, offset: nat, t: TrackText, count: nat, limits: Limits)
    requires Fits(t) && At(bytes, offset, TrackBoxes(t)) && |bytes| <= MAX_SAFE_INTEGER
    requires count + 5 <= limits.maximumBoxes && limits.maximumDepth < 4
    ensures offset + |TrackBoxes(t)| <= |bytes| && TrackFrom(bytes, offset, offset + |TrackBoxes(t)|, 1, count, NO_TRACK, limits) == Err(TOO_DEEP)
  {
    hide *;
    var middle := TrackParts(bytes, offset, t, count, limits);
    MediaTooDeep(bytes, middle + 8, t, count + 2, NO_TRACK.(size := HeaderSize(t)), limits);
    MediaFailsTrack(bytes, offset, middle, offset + |TrackBoxes(t)|, count, HeaderSize(t), TOO_DEEP, limits);
  }

  lemma FirstTrackTooDeep(bytes: Bytes, offset: nat, tracks: seq<TrackText>, count: nat, movie: Movie, limits: Limits)
    requires AllFit(tracks) && tracks != [] && At(bytes, offset, Tracks(tracks)) && |bytes| <= MAX_SAFE_INTEGER
    requires count + 6 <= limits.maximumBoxes && limits.maximumDepth < 4
    ensures offset + |Tracks(tracks)| <= |bytes| && MovieFrom(bytes, offset, offset + |Tracks(tracks)|, count, movie, limits) == Err(TOO_DEEP)
  {
    hide Wrap, TrackBoxes, Tracks, NextBox, TrackFrom, Fits, At;
    var middle := FirstTrackHere(bytes, offset, tracks, count, limits);
    TrackTooDeep(bytes, offset + 8, tracks[0], count + 1, limits);
  }

  lemma MovieFails(film: Bytes, ms: nat, code: string, limits: Limits)
    requires 52 <= |film|
    requires NextBox(film, 0, |film|, 0, limits.maximumBoxes) == Ok(Box(FTYP, 0, 8, 16)) && FileType(film, Box(FTYP, 0, 8, 16)) == Ok(())
    requires NextBox(film, 16, |film|, 1, limits.maximumBoxes) == Ok(Box(MOOV, 16, 24, |film|))
    requires NextBox(film, 24, |film|, 2, limits.maximumBoxes) == Ok(Box(MVHD, 24, 32, 52))
    requires MovieHeader(film, Box(MVHD, 24, 32, 52)) == Ok(ms)
    requires MovieFrom(film, 52, |film|, 3, Movie(Some(ms), NO_SAMPLE), limits) == Err(code)
    ensures Verify(film, limits) == Err(code)
  {
    hide NextBox, FileType, MovieHeader;
    var typed := File(true, Movie(None, NO_SAMPLE));
    assert FileFrom(film, 0, 0, NEW_FILE, limits) == FileFrom(film, 16, 1, typed, limits);
    assert MovieFrom(film, 24, |film|, 2, typed.movie, limits) == Err(code);
  }

  /** Such a film needs the whole depth of four: with any less its first track ends the traversal. */
  lemma ShallowLimitEndsTheTraversal(t: Timing, tracks: seq<TrackText>, limits: Limits)
    requires t.timescale < WORD && t.duration < WORD && AllFit(tracks) && tracks != [] && Milliseconds(t).Ok?
    requires limits.maximumBoxes >= 9 && limits.maximumDepth < 4
    ensures Verify(PicturedFilm(t, tracks), limits) == Err(TOO_DEEP)
  {
    hide *;
    FilmLength(t, tracks);
    MoviePartsHere(t, tracks, limits);
    var film, ms := PicturedFilm(t, tracks), Milliseconds(t).value;
    FirstTrackTooDeep(film, 52, tracks, 3, Movie(Some(ms), NO_SAMPLE), limits);
    MovieFails(film, ms, TOO_DEEP, limits);
  }
}
