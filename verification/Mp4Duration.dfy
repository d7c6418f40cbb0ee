/** Which movie headers have which duration. */
module Mp4Duration {
  import opened Common
  import opened PngChunks
  import opened Mp4Boxes
  import opened Mp4Verification

  // ---------------------------------------------------------------- timings

  /** `ms` is the whole number of milliseconds nearest to the duration; a half is rounded up. */
  predicate Nearest(t: Timing, ms: int) {
    2 * ms * t.timescale <= 2 * t.duration * 1000 + t.timescale < 2 * (ms + 1) * t.timescale
  }

  predicate InRange(ms: int) {
    1 <= ms <= MAX_SAFE_INTEGER
  }

  lemma NearestIsUnique(t: Timing, a: int, b: int)
    requires Nearest(t, a) && Nearest(t, b)
    ensures a == b
  {
    ProductOrder(a + 1, b, 2 * t.timescale);
    ProductOrder(b + 1, a, 2 * t.timescale);
  }

  lemma ProductOrder(a: int, b: int, c: nat)
    ensures a <= b ==> a * c <= b * c
  {
  }

  /** With an even timescale the division computes the nearest number of milliseconds. */
  lemma DivisionIsNearest(t: Timing)
    requires t.timescale > 0 && t.timescale % 2 == 0
    ensures Nearest(t, (t.duration * 1000 + t.timescale / 2) / t.timescale)
  {
    var half := t.timescale / 2;
    var n := t.duration * 1000 + half;
    assert n == n / t.timescale * t.timescale + n % t.timescale;
  }

  /**
   A timing has a duration exactly when its timescale is even and positive and the nearest number of milliseconds is
   positive and safe, and then that is its duration. An odd timescale with a positive duration throws; all else is invalid.
   */
  lemma DurationIsRounded(t: Timing, ms: int)
    ensures (ms >= 0 && Milliseconds(t) == Ok(ms)) <==> t.timescale > 0 && t.timescale % 2 == 0 && Nearest(t, ms) && InRange(ms)
    ensures Milliseconds(t) == Err("RangeError") <==> t.timescale % 2 == 1 && t.duration > 0
    ensures Milliseconds(t).Err? ==> Milliseconds(t).code in ["RangeError", "mp4-duration-invalid"]
  {
    if t.timescale > 0 && t.timescale % 2 == 0 {
      DivisionIsNearest(t);
      var rounded := (t.duration * 1000 + t.timescale / 2) / t.timescale;
      if Nearest(t, ms) {
        NearestIsUnique(t, ms, rounded);
      }
      if t.duration == 0 {
        SmallQuotient(t.timescale / 2, t.timescale);
        assert rounded == 0;
      }
    }
  }

  lemma SmallQuotient(n: nat, d: nat)
    requires n < d
    ensures n / d == 0
  {
  }

  // ---------------------------------------------------------------- header bytes

  /** The fields of a movie header, short or long, as they stand from `start` on. */
  ghost predicate HeaderHolds(bytes: Bytes, start: nat, t: Timing) {
    && start < |bytes| && t.timescale < 0x1_0000_0000
    && if bytes[start] == 0 then
         && start + 20 <= |bytes| && t.duration < 0x1_0000_0000
         && bytes[start + 12..start + 16] == WriteU32(t.timescale) && bytes[start + 16..start + 20] == WriteU32(t.duration)
       else
         && bytes[start] == 1 && start + 32 <= |bytes| && t.duration < 0x1_0000_0000_0000_0000
         && bytes[start + 20..start + 24] == WriteU32(t.timescale) && bytes[start + 24..start + 32] == WriteU64(t.duration)
  }

  lemma WriteReadU64(bytes: Bytes, offset: nat)
    requires offset + 8 <= |bytes|
    ensures ReadU64(bytes, offset) < 0x1_0000_0000_0000_0000 && WriteU64(ReadU64(bytes, offset)) == bytes[offset..offset + 8]
  {
    WriteRead(bytes, offset);
    WriteRead(bytes, offset + 4);
    var high, low := ReadU32(bytes, offset), ReadU32(bytes, offset + 4);
    var n := ReadU64(bytes, offset);
    assert n == high * 0x1_0000_0000 + low;
    assert n / 0x1_0000_0000 == high && n % 0x1_0000_0000 == low;
    assert bytes[offset..offset + 8] == bytes[offset..offset + 4] + bytes[offset + 4..offset + 8];
  }

  /** A timing is read exactly when the bytes hold it. */
  lemma ReadTimingExactly(bytes: Bytes, box: Box, t: Timing)
    ensures ReadTiming(bytes, box) == Ok(t) <==> HeaderHolds(bytes, box.payloadStart, t)
  {
    hide WriteU32, WriteU64, ReadU32, ReadU64;
    var start := box.payloadStart;
    if start < |bytes| && bytes[start] == 0 && start + 20 <= |bytes| {
      WriteRead(bytes, start + 12);
      WriteRead(bytes, start + 16);
      if HeaderHolds(bytes, start, t) {
        ReadWritten(t.timescale, bytes, start + 12);
        ReadWritten(t.duration, bytes, start + 16);
      }
    } else if start < |bytes| && bytes[start] == 1 && start + 32 <= |bytes| {
      WriteRead(bytes, start + 20);
      WriteReadU64(bytes, start + 24);
      if HeaderHolds(bytes, start, t) {
        ReadWritten(t.timescale, bytes, start + 20);
        ReadWrittenU64(t.duration, bytes, start + 24);
      }
    }
  }

  /** Exactly the header bytes that hold a timing with a duration have that duration. */
  lemma HeaderDurationExactly(bytes: Bytes, box: Box, ms: int)
    ensures (ms >= 0 && MovieHeader(bytes, box) == Ok(ms)) <==>
      exists t :: HeaderHolds(bytes, box.payloadStart, t) && t.timescale > 0 && t.timescale % 2 == 0 && Nearest(t, ms) && InRange(ms)
    ensures MovieHeader(bytes, box) == Err("RangeError") <==>
      exists t :: HeaderHolds(bytes, box.payloadStart, t) && t.timescale % 2 == 1 && t.duration > 0
  {
    hide HeaderHolds, Nearest, Milliseconds;
    forall t ensures HeaderHolds(bytes, box.payloadStart, t) <==> ReadTiming(bytes, box) == Ok(t) {
      ReadTimingExactly(bytes, box, t);
    }
    match ReadTiming(bytes, box) {
      case Ok(t) => DurationIsRounded(t, ms);
      case Err(code) =>
    }
  }

  // ---------------------------------------------------------------- whole files

  const ISOM: Bytes := [105, 115, 111, 109]

  /** A short movie header with this timing and zeros in its other fields. */
  function HeaderPayload(t: Timing): (bytes: Bytes)
    requires t.timescale < 0x1_0000_0000 && t.duration < 0x1_0000_0000
    ensures |bytes| == 20
  {
    seq(12, _ => 0) + WriteU32(t.timescale) + WriteU32(t.duration)
  }

  function HeaderBox(t: Timing): BoxText
    requires t.timescale < 0x1_0000_0000 && t.duration < 0x1_0000_0000
  {
    BoxText(MVHD, Short, HeaderPayload(t))
  }

  function MovieBox(t: Timing): BoxText
    requires t.timescale < 0x1_0000_0000 && t.duration < 0x1_0000_0000
  {
    BoxText(MOOV, Short, Header(HeaderBox(t), true) + HeaderPayload(t))
  }

  function TypeBox(): BoxText {
    BoxText(FTYP, Short, ISOM + [0, 0, 0, 0])
  }

  /** A file type and a movie that holds nothing but its header. */
  function Film(t: Timing): Bytes
    requires t.timescale < 0x1_0000_0000 && t.duration < 0x1_0000_0000
  {
    Header(TypeBox(), false) + TypeBox().payload + (Header(MovieBox(t), true) + MovieBox(t).payload)
  }

  lemma FilmTypes(t: Timing, limits: Limits)
    requires t.timescale < 0x1_0000_0000 && t.duration < 0x1_0000_0000 && limits.maximumBoxes >= 1
    ensures |Film(t)| == 52
    ensures NextBox(Film(t), 0, 52, 0, limits.maximumBoxes) == Ok(Box(FTYP, 0, 8, 16))
    ensures FileType(Film(t), Box(FTYP, 0, 8, 16)) == Ok(())
  {
    var film := Film(t);
    var rest := Header(MovieBox(t), true) + MovieBox(t).payload;
    ReadWrittenBox([], TypeBox(), false, rest, film, 52, 0, limits.maximumBoxes);
    assert film == [] + (Header(TypeBox(), false) + TypeBox().payload) + rest;
    assert film[8..12] == ISOM && Brands(film, 16, 16) == Ok([]);
    hide Film, NextBox;
    var brands := [ISOM] + [];
    assert ISOM in brands && SupportedBrand(ISOM);
  }

  lemma FilmMovie(t: Timing, limits: Limits)
    requires t.timescale < 0x1_0000_0000 && t.duration < 0x1_0000_0000 && limits.maximumBoxes >= 3
    ensures |Film(t)| == 52
    ensures NextBox(Film(t), 16, 52, 1, limits.maximumBoxes) == Ok(Box(MOOV, 16, 24, 52))
    ensures NextBox(Film(t), 24, 52, 2, limits.maximumBoxes) == Ok(Box(MVHD, 24, 32, 52))
    ensures HeaderHolds(Film(t), 32, t)
  {
    var film, before := Film(t), Header(TypeBox(), false) + TypeBox().payload;
    assert film == before + (Header(MovieBox(t), true) + MovieBox(t).payload) + [];
    ReadWrittenBox(before, MovieBox(t), true, [], film, 52, 1, limits.maximumBoxes);
    var inner := before + Header(MovieBox(t), true);
    assert film == inner + (Header(HeaderBox(t), true) + HeaderPayload(t)) + [];
    ReadWrittenBox(inner, HeaderBox(t), true, [], film, 52, 2, limits.maximumBoxes);
    var payload := film[32..52];
    assert payload == HeaderPayload(t);
    assert film[32] == payload[0];
    assert film[44..48] == payload[12..16] == WriteU32(t.timescale);
    assert film[48..52] == payload[16..20] == WriteU32(t.duration);
  }

  /** Such a file is judged by its timing alone: accepted with its duration, or refused for it, whatever the other limits. */
  lemma FilmIsJudgedByItsTiming(t: Timing, limits: Limits)
    requires t.timescale < 0x1_0000_0000 && t.duration < 0x1_0000_0000 && limits.maximumBoxes >= 3
    ensures Verify(Film(t), limits) ==
      match Milliseconds(t)
      case Err(code) => Err(code)
      case Ok(ms) => Ok(Video(ms, NO_SAMPLE))
  {
    hide Film, NextBox, FileType, HeaderHolds, ReadTiming, Milliseconds;
    var film := Film(t);
    FilmTypes(t, limits);
    FilmMovie(t, limits);
    var header := Box(MVHD, 24, 32, 52);
    ReadTimingExactly(film, header, t);
    assert MovieFrom(film, 24, 52, 2, Movie(None, NO_SAMPLE), limits)
      == match Milliseconds(t)
         case Err(code) => Err(code)
         case Ok(ms) => Ok(Counted(Movie(Some(ms), NO_SAMPLE), 3));
    assert FileFrom(film, 0, 0, NEW_FILE, limits) == FileFrom(film, 16, 1, File(true, Movie(None, NO_SAMPLE)), limits);
  }

  /**
   A second at an odd timescale throws where one at an even timescale is accepted; and an even timescale alone is not
   enough, for a quarter of a millisecond is no duration.
   */
  lemma OddTimescaleThrows(limits: Limits)
    requires limits.maximumBoxes >= 3
    ensures Verify(Film(Timing(1001, 1001)), limits) == Err("RangeError")
    ensures Verify(Film(Timing(1000, 1001)), limits) == Ok(Video(1001, NO_SAMPLE))
    ensures Verify(Film(Timing(4000, 1)), limits) == Err("mp4-duration-invalid")
  {
    hide Film, Verify;
    FilmIsJudgedByItsTiming(Timing(1001, 1001), limits);
    FilmIsJudgedByItsTiming(Timing(1000, 1001), limits);
    FilmIsJudgedByItsTiming(Timing(4000, 1), limits);
  }
}
