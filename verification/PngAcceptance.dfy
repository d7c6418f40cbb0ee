/** Which files the decoder takes, and for which image: both directions, for every file. */
module PngAcceptance {
  import opened Common
  import opened PngChunks
  import opened PngFilters
  import opened PngCodec
  import opened PngRoundTrip

  // ---------------------------------------------------------------- the layout of a file

  predicate Is(c: Chunk, kind: Bytes) {
    Ascii(c.kind) == kind
  }

  /** One header, at place `i`, with these fields; no image data before it. */
  ghost predicate HeaderAt(chunks: seq<Chunk>, i: nat, h: Header) {
    && i < |chunks| && h.height < 0x1_0000_0000 && chunks[i].data == HeaderBytes(h)
    && forall j :: 0 <= j < |chunks| ==> (Is(chunks[j], IHDR) <==> j == i) && (Is(chunks[j], IDAT) ==> i < j)
  }

  /** The end comes last, and only there. */
  ghost predicate EndsOnce(chunks: seq<Chunk>) {
    chunks != [] && forall j :: 0 <= j < |chunks| ==> (Is(chunks[j], IEND) <==> j == |chunks| - 1)
  }

  ghost predicate ShortEnough(chunks: seq<Chunk>) {
    |chunks| <= 4096 && forall c :: c in chunks ==> |c.data| <= 32 * 1024 * 1024
  }

  ghost predicate WellLaid(chunks: seq<Chunk>, h: Header) {
    ShortEnough(chunks) && EndsOnce(chunks) && exists i :: HeaderAt(chunks, i, h)
  }

  /** The image data inflates to filtered rows of known types that stand for these pixels. */
  ghost predicate Carries(chunks: seq<Chunk>, image: Image, inflate: Bytes -> Option<Bytes>) {
    var (h, stream) := (image.header, inflate(Concat(DataParts(chunks))));
    && DataParts(chunks) != [] && stream.Some?
    && Scanlines(stream.value, Stride(h), h.channels, h.height)
    && KnownFilters(stream.value, Stride(h), h.channels, h.height)
    && Filtered(image.pixels, stream.value, Stride(h), h.channels, h.height)
  }

  /** A signature, a list of chunks that is well laid and carries the image, and anything behind its end. */
  ghost predicate Depicts(input: Bytes, chunks: seq<Chunk>, tail: Bytes, image: Image, inflate: Bytes -> Option<Bytes>) {
    && input == SIGNATURE + Frames(chunks) + tail
    && WellLaid(chunks, image.header) && Carries(chunks, image, inflate)
  }

  // ---------------------------------------------------------------- runs of the walk

  /** The walk goes through all of `chunks`, stops at the last, and ends with `q`. */
  ghost predicate Walks(p: Progress, chunks: seq<Chunk>, q: Progress)
    decreases |chunks|
  {
    && chunks != [] && TakeNext(p, chunks[0]).Ok?
    && var taken := TakeNext(p, chunks[0]).value;
       if taken.sawEnd then |chunks| == 1 && q == taken else Walks(taken, chunks[1..], q)
  }

  lemma {:induction false} ScanWalks(before: Bytes, chunks: seq<Chunk>, tail: Bytes, input: Bytes, p: Progress, q: Progress)
    requires input == before + Frames(chunks) + tail && Walks(p, chunks, q)
    ensures Scan(input, |before|, p) == Ok(q)
    decreases |chunks|
  {
    hide Scan, TakeNext, Frame;
    var c, rest, r := chunks[0], chunks[1..], TakeNext(p, chunks[0]);
    assert input == before + Frame(c) + (Frames(rest) + tail);
    ScanFirst(before, c, Frames(rest) + tail, input, p, r);
    if !r.value.sawEnd {
      assert input == (before + Frame(c)) + Frames(rest) + tail;
      ScanWalks(before + Frame(c), rest, tail, input, r.value, q);
    }
  }

  lemma ScanTurn(input: Bytes, offset: nat, p: Progress, q: Progress)
    requires offset <= |input| && Scan(input, offset, p) == Ok(q) && q.sawEnd && !p.sawEnd
    ensures offset + 12 <= |input| && offset + 12 + ReadU32(input, offset) <= |input|
    ensures var r := TakeNext(p, ChunkAt(input, offset));
      r.Ok? && if r.value.sawEnd then q == r.value else Scan(input, offset + 12 + ReadU32(input, offset), r.value) == Ok(q)
  {
    hide Take, ChunkAt;
  }

  lemma {:induction false} WalkOfScan(input: Bytes, offset: nat, p: Progress, q: Progress) returns (chunks: seq<Chunk>, tail: Bytes)
    requires offset <= |input| && Scan(input, offset, p) == Ok(q) && q.sawEnd && !p.sawEnd
    ensures input[offset..] == Frames(chunks) + tail && Walks(p, chunks, q)
    decreases |input| - offset
  {
    hide Scan, TakeNext, Frame, ChunkAt;
    ScanTurn(input, offset, p, q);
    var c, next := ChunkAt(input, offset), offset + 12 + ReadU32(input, offset);
    var r := TakeNext(p, c);
    FrameOfChunkAt(input, offset);
    assert input[offset..] == Frame(c) + input[next..];
    if r.value.sawEnd {
      chunks, tail := [c], input[next..];
      assert Frames(chunks[1..]) == [];
    } else {
      var rest, behind := WalkOfScan(input, next, r.value, q);
      chunks, tail := [c] + rest, behind;
      assert chunks[1..] == rest;
      assert Frame(c) + (Frames(rest) + tail) == Frames(chunks) + tail;
    }
  }

  // ---------------------------------------------------------------- walks and layouts

  /** From the header on: no second one, one end, and all data is collected. */
  ghost predicate LaidBehind(chunks: seq<Chunk>, count: nat) {
    && count + |chunks| <= 4096 && (forall c :: c in chunks ==> |c.data| <= 32 * 1024 * 1024) && EndsOnce(chunks)
    && forall j :: 0 <= j < |chunks| ==> !Is(chunks[j], IHDR)
  }

  lemma TakeBehind(p: Progress, c: Chunk)
    requires p.header.Some? && !p.sawEnd
    ensures TakeNext(p, c).Ok? <==> p.count < 4096 && |c.data| <= 32 * 1024 * 1024 && !Is(c, IHDR)
    ensures TakeNext(p, c).Ok? ==>
      TakeNext(p, c).value == Progress(p.count + 1, p.header, p.parts + (if Is(c, IDAT) then [c.data] else []), Is(c, IEND))
  {
    KindsAreAscii();
    assert p.parts + [] == p.parts;
  }

  lemma EndsFirst(chunks: seq<Chunk>)
    requires chunks != []
    ensures EndsOnce(chunks) <==> if Is(chunks[0], IEND) then |chunks| == 1 else EndsOnce(chunks[1..])
  {
    hide Is;
    if !Is(chunks[0], IEND) && EndsOnce(chunks[1..]) {
      forall j | 0 <= j < |chunks| ensures Is(chunks[j], IEND) <==> j == |chunks| - 1 {
        if j > 0 {
          assert chunks[1..][j - 1] == chunks[j];
        }
      }
    }
  }

  lemma LaidFirst(chunks: seq<Chunk>, count: nat)
    requires chunks != []
    ensures LaidBehind(chunks, count) <==>
      && count < 4096 && |chunks[0].data| <= 32 * 1024 * 1024 && !Is(chunks[0], IHDR)
      && if Is(chunks[0], IEND) then |chunks| == 1 else LaidBehind(chunks[1..], count + 1)
  {
    EndsFirst(chunks);
    hide Is, EndsOnce;
    assert chunks == [chunks[0]] + chunks[1..];
    assert forall j :: 1 <= j < |chunks| ==> chunks[j] == chunks[1..][j - 1];
    assert forall j :: 0 <= j < |chunks[1..]| ==> chunks[1..][j] == chunks[j + 1];
  }

  lemma {:induction false} WalksBehind(p: Progress, chunks: seq<Chunk>, q: Progress)
    requires p.header.Some? && !p.sawEnd
    ensures Walks(p, chunks, q) <==>
      LaidBehind(chunks, p.count) && q == Progress(p.count + |chunks|, p.header, p.parts + DataParts(chunks), true)
    decreases |chunks|
  {
    hide TakeNext, LaidBehind, Is;
    if chunks == [] {
      assert !LaidBehind(chunks, p.count) by { NothingEnds(p.count); }
    } else {
      var c, rest := chunks[0], chunks[1..];
      TakeBehind(p, c);
      LaidFirst(chunks, p.count);
      PartsFirst(chunks);
      KindsAreAscii();
      assert Is(c, IEND) ==> !Is(c, IDAT) by { EndIsNoData(c); }
      if TakeNext(p, c).Ok? && !Is(c, IEND) {
        WalksBehind(TakeNext(p, c).value, rest, q);
        assert p.parts + ((if Is(c, IDAT) then [c.data] else []) + DataParts(rest))
          == p.parts + (if Is(c, IDAT) then [c.data] else []) + DataParts(rest);
      }
      assert |chunks| == 1 ==> DataParts(rest) == [];
      assert p.parts + [] == p.parts;
    }
  }

  lemma NothingEnds(count: nat)
    ensures !LaidBehind([], count)
  {
  }

  lemma EndIsNoData(c: Chunk)
    ensures Is(c, IEND) ==> !Is(c, IDAT) && !Is(c, IHDR)
    ensures Is(c, IDAT) ==> !Is(c, IHDR)
  {
    KindsAreAscii();
  }

  lemma PartsFirst(chunks: seq<Chunk>)
    requires chunks != []
    ensures DataParts(chunks) == (if Is(chunks[0], IDAT) then [chunks[0].data] else []) + DataParts(chunks[1..])
  {
  }

  // ---------------------------------------------------------------- up to the header

  lemma HeaderExactly(data: Bytes, h: Header)
    requires |data| == 13
    ensures ParseHeader(data) == Ok(h) <==> h.height < 0x1_0000_0000 && data == HeaderBytes(h)
  {
    if h.height < 0x1_0000_0000 && data == HeaderBytes(h) {
      ParseHeaderBytes(h);
    }
    if ParseHeader(data) == Ok(h) {
      WriteRead(data, 0);
      WriteRead(data, 4);
      var kind: Byte := if h.channels == 3 then 2 else 6;
      assert data[8..] == [8, kind, 0, 0, 0];
      assert data == data[0..4] + data[4..8] + data[8..];
    }
  }

  lemma TakeBefore(p: Progress, c: Chunk, h: Header)
    requires p.header.None? && !p.sawEnd && p.parts == []
    ensures TakeNext(p, c).Ok? ==> p.count < 4096 && |c.data| <= 32 * 1024 * 1024 && !Is(c, IDAT)
    ensures p.count < 4096 && |c.data| <= 32 * 1024 * 1024 && !Is(c, IDAT) && !Is(c, IHDR) ==>
      TakeNext(p, c) == Ok(Progress(p.count + 1, None, [], Is(c, IEND)))
    ensures Is(c, IHDR) ==>
      (TakeNext(p, c) == Ok(Progress(p.count + 1, Some(h), [], false)) <==>
        p.count < 4096 && h.height < 0x1_0000_0000 && c.data == HeaderBytes(h))
    ensures Is(c, IHDR) && TakeNext(p, c).Ok? ==>
      TakeNext(p, c).value.header.Some? && TakeNext(p, c).value == Progress(p.count + 1, TakeNext(p, c).value.header, [], false)
  {
    KindsAreAscii();
    if |c.data| == 13 {
      HeaderExactly(c.data, h);
    }
    hide HeaderBytes, ParseHeader;
  }

  /** The same with the header still to come. */
  ghost predicate LaidBefore(chunks: seq<Chunk>, count: nat, h: Header) {
    && count + |chunks| <= 4096 && (forall c :: c in chunks ==> |c.data| <= 32 * 1024 * 1024) && EndsOnce(chunks)
    && exists i :: HeaderAt(chunks, i, h)
  }

  lemma HeaderFirst(chunks: seq<Chunk>, h: Header)
    requires chunks != [] && Is(chunks[0], IHDR)
    ensures (exists i :: HeaderAt(chunks, i, h)) <==>
      h.height < 0x1_0000_0000 && chunks[0].data == HeaderBytes(h) && forall j :: 0 <= j < |chunks[1..]| ==> !Is(chunks[1..][j], IHDR)
  {
    hide Is, HeaderBytes;
    EndIsNoData(chunks[0]);
    assert forall j :: 1 <= j < |chunks| ==> chunks[j] == chunks[1..][j - 1];
    assert forall j :: 0 <= j < |chunks[1..]| ==> chunks[1..][j] == chunks[j + 1];
    if i: nat :| HeaderAt(chunks, i, h) {
      assert i == 0;
    }
    if h.height < 0x1_0000_0000 && chunks[0].data == HeaderBytes(h) && forall j :: 0 <= j < |chunks[1..]| ==> !Is(chunks[1..][j], IHDR) {
      assert HeaderAt(chunks, 0, h);
    }
  }

  lemma HeaderLater(chunks: seq<Chunk>, h: Header)
    requires chunks != [] && !Is(chunks[0], IHDR)
    ensures (exists i :: HeaderAt(chunks, i, h)) <==> !Is(chunks[0], IDAT) && exists i :: HeaderAt(chunks[1..], i, h)
  {
    hide Is, HeaderBytes;
    var rest := chunks[1..];
    assert forall j :: 1 <= j < |chunks| ==> chunks[j] == rest[j - 1];
    if i: nat :| HeaderAt(chunks, i, h) {
      assert i > 0 && chunks[0] == chunks[0];
      assert forall j :: 0 <= j < |rest| ==> rest[j] == chunks[j + 1];
      assert HeaderAt(rest, i - 1, h);
    }
    if !Is(chunks[0], IDAT) {
      if i: nat :| HeaderAt(rest, i, h) {
        assert HeaderAt(chunks, i + 1, h);
      }
    }
  }

  lemma BeforeFirst(chunks: seq<Chunk>, count: nat, h: Header)
    requires chunks != []
    ensures Is(chunks[0], IHDR) ==> (LaidBefore(chunks, count, h) <==>
      count < 4096 && h.height < 0x1_0000_0000 && chunks[0].data == HeaderBytes(h) && LaidBehind(chunks[1..], count + 1))
    ensures !Is(chunks[0], IHDR) ==> (LaidBefore(chunks, count, h) <==>
      count < 4096 && |chunks[0].data| <= 32 * 1024 * 1024 && !Is(chunks[0], IDAT) && !Is(chunks[0], IEND)
      && LaidBefore(chunks[1..], count + 1, h))
  {
    hide Is, EndsOnce, HeaderBytes, HeaderAt;
    EndsFirst(chunks);
    EndIsNoData(chunks[0]);
    assert chunks == [chunks[0]] + chunks[1..];
    if Is(chunks[0], IHDR) {
      HeaderFirst(chunks, h);
    } else {
      HeaderLater(chunks, h);
      if |chunks| == 1 {
        NoHeaderInNothing(h);
      }
    }
  }

  lemma NoHeaderInNothing(h: Header)
    ensures !exists i :: HeaderAt([], i, h)
  {
  }

  lemma {:induction false} WalksBefore(p: Progress, chunks: seq<Chunk>, q: Progress, h: Header)
    requires p.header.None? && !p.sawEnd && p.parts == []
    ensures Walks(p, chunks, q) && q.header == Some(h) <==>
      LaidBefore(chunks, p.count, h) && q == Progress(p.count + |chunks|, Some(h), DataParts(chunks), true)
    decreases |chunks|
  {
    hide TakeNext, LaidBefore, LaidBehind, Is, HeaderBytes;
    if chunks == [] {
      NothingBegins(p.count, h);
    } else {
      var c, rest := chunks[0], chunks[1..];
      TakeBefore(p, c, h);
      BeforeFirst(chunks, p.count, h);
      PartsFirst(chunks);
      EndIsNoData(c);
      assert [] + DataParts(rest) == DataParts(rest);
      if TakeNext(p, c).Ok? && !Is(c, IEND) {
        if Is(c, IHDR) {
          WalksBehind(TakeNext(p, c).value, rest, q);
        } else {
          WalksBefore(TakeNext(p, c).value, rest, q, h);
        }
      }
    }
  }

  lemma NothingBegins(count: nat, h: Header)
    ensures !LaidBefore([], count, h)
  {
  }

  // ---------------------------------------------------------------- the theorem

  lemma WalkIsLayout(chunks: seq<Chunk>, q: Progress, h: Header)
    ensures Walks(NOTHING_SEEN, chunks, q) && q.header == Some(h) <==>
      WellLaid(chunks, h) && q == Progress(|chunks|, Some(h), DataParts(chunks), true)
  {
    hide Walks, EndsOnce, HeaderAt;
    WalksBefore(NOTHING_SEEN, chunks, q, h);
  }

  /** The pixel part of the decoder succeeds exactly on filtered rows that stand for the pixels. */
  lemma PixelsExactly(image: Image, inflated: Option<Bytes>)
    ensures DecodePixels(image.header, inflated) == Ok(image) <==>
      && inflated.Some?
      && Scanlines(inflated.value, Stride(image.header), image.header.channels, image.header.height)
      && KnownFilters(inflated.value, Stride(image.header), image.header.channels, image.header.height)
      && Filtered(image.pixels, inflated.value, Stride(image.header), image.header.channels, image.header.height)
  {
    var h := image.header;
    hide KnownFilters, Filtered, Rebuilt, Stride, Offset;
    if inflated.Some? && Scanlines(inflated.value, Stride(h), h.channels, h.height) {
      FilterUndoesUnfilter(inflated.value, image.pixels, Stride(h), h.channels, h.height);
    }
  }

  lemma LayoutIsLong(chunks: seq<Chunk>, h: Header)
    requires WellLaid(chunks, h)
    ensures |Frames(chunks)| >= 25
  {
    hide Is;
    var i :| HeaderAt(chunks, i, h);
    HasFrame(chunks, i);
  }

  lemma {:induction false} HasFrame(chunks: seq<Chunk>, i: nat)
    requires i < |chunks|
    ensures |Frames(chunks)| >= 12 + |chunks[i].data|
    decreases i
  {
    if i > 0 {
      HasFrame(chunks[1..], i - 1);
    }
  }

  lemma DecodedFileDepicts(input: Bytes, image: Image, inflate: Bytes -> Option<Bytes>) returns (chunks: seq<Chunk>, tail: Bytes)
    requires Decode(input, inflate) == Ok(image)
    ensures Depicts(input, chunks, tail, image, inflate)
  {
    hide Scan, Frames, Walks, WellLaid, DecodePixels, Scanlines, KnownFilters, Filtered;
    var q := Scan(input, 8, NOTHING_SEEN).value;
    chunks, tail := WalkOfScan(input, 8, NOTHING_SEEN, q);
    assert input == input[..8] + input[8..];
    var h := q.header.value;
    WalkIsLayout(chunks, q, h);
    assert DecodePixels(h, inflate(Concat(q.parts))) == Ok(image) && image.header == h by {
      KeepsHeader(h, inflate(Concat(q.parts)));
    }
    PixelsExactly(image, inflate(Concat(q.parts)));
  }

  lemma KeepsHeader(h: Header, inflated: Option<Bytes>)
    ensures DecodePixels(h, inflated).Ok? ==> DecodePixels(h, inflated).value.header == h
  {
  }

  lemma DepictedImageIsDecoded(input: Bytes, chunks: seq<Chunk>, tail: Bytes, image: Image, inflate: Bytes -> Option<Bytes>)
    requires Depicts(input, chunks, tail, image, inflate)
    ensures Decode(input, inflate) == Ok(image)
  {
    hide Scan, Frames, Walks, WellLaid, DecodePixels, Scanlines, KnownFilters, Filtered;
    var h := image.header;
    var q := Progress(|chunks|, Some(h), DataParts(chunks), true);
    LayoutIsLong(chunks, h);
    WalkIsLayout(chunks, q, h);
    ScanWalks(SIGNATURE, chunks, tail, input, NOTHING_SEEN, q);
    assert input[..8] == SIGNATURE;
    PixelsExactly(image, inflate(Concat(q.parts)));
  }

  /**
   A file decodes to an image exactly when it is a signature and a list of chunks with one header of that size, image data
   only behind it and an end that is the list's last, where the data inflates to filtered rows of the image's pixels.
   */
  lemma DecodesExactly(input: Bytes, image: Image, inflate: Bytes -> Option<Bytes>)
    ensures Decode(input, inflate) == Ok(image) <==> exists chunks, tail :: Depicts(input, chunks, tail, image, inflate)
  {
    hide Decode, Depicts;
    if Decode(input, inflate) == Ok(image) {
      var chunks, tail := DecodedFileDepicts(input, image, inflate);
    }
    forall chunks, tail | Depicts(input, chunks, tail, image, inflate) ensures Decode(input, inflate) == Ok(image) {
      DepictedImageIsDecoded(input, chunks, tail, image, inflate);
    }
  }
}
