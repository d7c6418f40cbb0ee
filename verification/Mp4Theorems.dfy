/** What an accepted MP4 file looks like. */
module Mp4Theorems {
  import opened Common
  import opened Mp4Boxes
  import opened Mp4Verification

  // ---------------------------------------------------------------- the boxes of a range, whatever the limit

  /** All boxes of a range; no range holds more boxes than the file has bytes. */
  function BoxesOf(bytes: Bytes, start: nat, end: nat): Result<seq<Box>>
    requires start <= end <= |bytes|
  {
    Siblings(bytes, start, end, 0, |bytes|)
  }

  ghost predicate Tiled(bytes: Bytes, start: nat, end: nat)
    requires start <= end <= |bytes|
  {
    BoxesOf(bytes, start, end).Ok?
  }

  /** Walking on after the first box gives the rest, if the limits leave room for it. */
  lemma {:induction false} SiblingsShift(bytes: Bytes, offset: nat, end: nat, count: nat, room: nat, other: nat, otherRoom: nat)
    requires offset <= end <= |bytes| && Siblings(bytes, offset, end, count, room).Ok?
    requires otherRoom >= other + (end - offset)
    ensures Siblings(bytes, offset, end, other, otherRoom) == Siblings(bytes, offset, end, count, room)
    decreases end - offset
  {
    hide ReadSize, ReadFourCc;
    if offset < end {
      var box := NextBox(bytes, offset, end, count, room).value;
      SiblingsShift(bytes, box.end, end, count + 1, room, other + 1, otherRoom);
    }
  }

  /** A range whose first box and remainder are boxes is tiled by them. */
  lemma TiledStep(bytes: Bytes, offset: nat, end: nat, count: nat, room: nat)
    requires offset < end <= |bytes| && NextBox(bytes, offset, end, count, room).Ok?
    requires Tiled(bytes, NextBox(bytes, offset, end, count, room).value.end, end)
    ensures var box := NextBox(bytes, offset, end, count, room).value;
      Tiled(bytes, offset, end) && BoxesOf(bytes, offset, end).value == [box] + BoxesOf(bytes, box.end, end).value
  {
    hide ReadSize, ReadFourCc;
    var box := NextBox(bytes, offset, end, count, room).value;
    SiblingsShift(bytes, box.end, end, 0, |bytes|, 1, |bytes|);
  }

  // ---------------------------------------------------------------- what each level has covered

  ghost predicate TrackCovered(bytes: Bytes, start: nat, end: nat)
    requires start <= end <= |bytes|
  {
    Tiled(bytes, start, end)
    && forall b :: b in BoxesOf(bytes, start, end).value && b.kind == MDIA ==>
         b.payloadStart <= b.end <= end && Tiled(bytes, b.payloadStart, b.end)
  }

  ghost predicate MovieCovered(bytes: Bytes, start: nat, end: nat)
    requires start <= end <= |bytes|
  {
    Tiled(bytes, start, end)
    && forall b :: b in BoxesOf(bytes, start, end).value && b.kind == TRAK ==>
         b.payloadStart <= b.end <= end && TrackCovered(bytes, b.payloadStart, b.end)
  }

  ghost predicate FileCovered(bytes: Bytes, start: nat)
    requires start <= |bytes|
  {
    Tiled(bytes, start, |bytes|)
    && forall b :: b in BoxesOf(bytes, start, |bytes|).value && b.kind == MOOV ==>
         b.payloadStart <= b.end <= |bytes| && MovieCovered(bytes, b.payloadStart, b.end)
  }

  predicate Within(before: nat, after: nat, limits: Limits) {
    before <= after && (after > before ==> after <= limits.maximumBoxes)
  }

  lemma {:induction false} FindStaysWithin(bytes: Bytes, offset: nat, end: nat, depth: nat, count: nat, limits: Limits)
    requires offset <= end <= |bytes|
    ensures var r := FindFrom(bytes, offset, end, depth, count, limits); r.Ok? ==> Within(count, r.value.count, limits)
    decreases end - offset
  {
    hide SampleDescription, ReadSize, ReadFourCc;
    if offset < end {
      var next := NextBox(bytes, offset, end, count, limits.maximumBoxes);
      if next.Ok? {
        var box := next.value;
        if HoldsDescriptions(box.kind) && box.kind != STSD {
          FindStaysWithin(bytes, box.payloadStart, box.end, depth + 1, count + 1, limits);
          var nested := FindSample(bytes, box.payloadStart, box.end, depth + 1, count + 1, limits);
          if nested.Ok? {
            FindStaysWithin(bytes, box.end, end, depth, nested.value.count, limits);
          }
        } else {
          FindStaysWithin(bytes, box.end, end, depth, count + 1, limits);
        }
      }
    }
  }

  lemma MediaStepWithin(bytes: Bytes, child: Box, depth: nat, count: nat, track: Track, limits: Limits)
    requires child.payloadStart <= child.end <= |bytes|
    ensures var r := MediaStep(bytes, child, depth, count, track, limits); r.Ok? ==> Within(count, r.value.count, limits)
  {
    hide FindFrom, HandlerIsVideo;
    if child.kind == MINF {
      FindStaysWithin(bytes, child.payloadStart, child.end, depth + 2, count, limits);
    }
  }

  lemma {:induction false} MediaCovers(bytes: Bytes, offset: nat, end: nat, depth: nat, count: nat, track: Track, limits: Limits)
    requires offset <= end <= |bytes|
    ensures var r := MediaFrom(bytes, offset, end, depth, count, track, limits); r.Ok? ==>
      Tiled(bytes, offset, end) && Within(count, r.value.count, limits)
      && count + |BoxesOf(bytes, offset, end).value| <= r.value.count
    decreases end - offset
  {
    hide MediaStep, NextBox;
    if offset < end {
      var next := NextBox(bytes, offset, end, count, limits.maximumBoxes);
      if next.Ok? {
        var child := next.value;
        var step := MediaStep(bytes, child, depth, count + 1, track, limits);
        MediaStepWithin(bytes, child, depth, count + 1, track, limits);
        if step.Ok? && MediaFrom(bytes, child.end, end, depth, step.value.count, step.value.value, limits).Ok? {
          MediaCovers(bytes, child.end, end, depth, step.value.count, step.value.value, limits);
          TiledStep(bytes, offset, end, count, limits.maximumBoxes);
        }
      }
    }
  }

  lemma TrackStepCovers(bytes: Bytes, child: Box, depth: nat, count: nat, track: Track, limits: Limits)
    requires child.payloadStart <= child.end <= |bytes|
    ensures var r := TrackStep(bytes, child, depth, count, track, limits); r.Ok? ==>
      Within(count, r.value.count, limits) && (child.kind == MDIA ==> Tiled(bytes, child.payloadStart, child.end))
  {
    hide MediaFrom, TrackHeader;
    assert TKHD[0] != MDIA[0];
    if child.kind == MDIA {
      MediaCovers(bytes, child.payloadStart, child.end, depth, count, track, limits);
      assert track.(size := track.size) == track;
    }
  }

  lemma {:induction false} TrackCovers(bytes: Bytes, offset: nat, end: nat, depth: nat, count: nat, track: Track, limits: Limits)
    requires offset <= end <= |bytes|
    ensures var r := TrackFrom(bytes, offset, end, depth, count, track, limits); r.Ok? ==>
      TrackCovered(bytes, offset, end) && Within(count, r.value.count, limits)
      && count + |BoxesOf(bytes, offset, end).value| <= r.value.count
    decreases end - offset
  {
    hide TrackStep, NextBox;
    if offset < end {
      var next := NextBox(bytes, offset, end, count, limits.maximumBoxes);
      if next.Ok? {
        var child := next.value;
        var step := TrackStep(bytes, child, depth, count + 1, track, limits);
        TrackStepCovers(bytes, child, depth, count + 1, track, limits);
        if step.Ok? && TrackFrom(bytes, child.end, end, depth, step.value.count, step.value.value, limits).Ok? {
          TrackCovers(bytes, child.end, end, depth, step.value.count, step.value.value, limits);
          TiledStep(bytes, offset, end, count, limits.maximumBoxes);
        }
      }
    }
  }

  lemma MovieStepCovers(bytes: Bytes, child: Box, count: nat, movie: Movie, limits: Limits)
    requires child.payloadStart <= child.end <= |bytes|
    ensures var r := MovieStep(bytes, child, count, movie, limits); r.Ok? ==>
      && Within(count, r.value.count, limits)
      && (child.kind == TRAK ==> TrackCovered(bytes, child.payloadStart, child.end))
      && r.value.value.durationMs == if child.kind == MVHD then Some(MovieHeader(bytes, child).value) else movie.durationMs
  {
    hide TrackFrom, MovieHeader, TrackCovered;
    if child.kind == TRAK {
      TrackCovers(bytes, child.payloadStart, child.end, 1, count, NO_TRACK, limits);
      assert TRAK[0] != MVHD[0];
    }
  }

  /** The duration found after `boxes`: that of the last movie header among them. */
  function LastDuration(bytes: Bytes, boxes: seq<Box>, before: Option<nat>): Option<nat> {
    if boxes == [] then before
    else
      var header := MovieHeader(bytes, boxes[0]);
      LastDuration(bytes, boxes[1..], if boxes[0].kind == MVHD && header.Ok? then Some(header.value) else before)
  }

  lemma {:induction false} MovieCovers(bytes: Bytes, offset: nat, end: nat, count: nat, movie: Movie, limits: Limits)
    requires offset <= end <= |bytes|
    ensures var r := MovieFrom(bytes, offset, end, count, movie, limits); r.Ok? ==>
      && MovieCovered(bytes, offset, end) && Within(count, r.value.count, limits)
      && count + |BoxesOf(bytes, offset, end).value| <= r.value.count
      && r.value.value.durationMs == LastDuration(bytes, BoxesOf(bytes, offset, end).value, movie.durationMs)
    decreases end - offset
  {
    hide NextBox, MovieHeader;
    if offset < end {
      var next := NextBox(bytes, offset, end, count, limits.maximumBoxes);
      if next.Ok? {
        var child := next.value;
        var step := MovieStep(bytes, child, count + 1, movie, limits);
        MovieStepCovers(bytes, child, count + 1, movie, limits);
        MovieHeaderMustParse(bytes, child, count + 1, movie, limits);
        hide MovieStep;
        if step.Ok? && MovieFrom(bytes, child.end, end, step.value.count, step.value.value, limits).Ok? {
          MovieCovers(bytes, child.end, end, step.value.count, step.value.value, limits);
          TiledStep(bytes, offset, end, count, limits.maximumBoxes);
        }
      }
    }
  }

  lemma MovieHeaderMustParse(bytes: Bytes, child: Box, count: nat, movie: Movie, limits: Limits)
    requires child.payloadStart <= child.end <= |bytes|
    ensures MovieStep(bytes, child, count, movie, limits).Ok? && child.kind == MVHD ==> MovieHeader(bytes, child).Ok?
  {
    hide MovieHeader;
  }

  /** The duration found after a movie box, if its children are boxes. */
  function MovieDuration(bytes: Bytes, box: Box, before: Option<nat>): Option<nat> {
    if box.payloadStart <= box.end <= |bytes| && BoxesOf(bytes, box.payloadStart, box.end).Ok?
    then LastDuration(bytes, BoxesOf(bytes, box.payloadStart, box.end).value, before)
    else before
  }

  /** The duration found after all of `boxes`: that of the last movie header in any of their movies. */
  function FileDuration(bytes: Bytes, boxes: seq<Box>, before: Option<nat>): Option<nat> {
    if boxes == [] then before
    else FileDuration(bytes, boxes[1..], if boxes[0].kind == MOOV then MovieDuration(bytes, boxes[0], before) else before)
  }

  lemma FileStepCovers(bytes: Bytes, box: Box, count: nat, file: File, limits: Limits)
    requires box.payloadStart <= box.end <= |bytes|
    ensures var r := FileStep(bytes, box, count, file, limits); r.Ok? ==>
      && Within(count, r.value.count, limits)
      && (box.kind == MOOV ==> MovieCovered(bytes, box.payloadStart, box.end))
      && r.value.value.sawFtyp == (file.sawFtyp || box.kind == FTYP)
      && r.value.value.movie.durationMs
           == (if box.kind == MOOV then MovieDuration(bytes, box, file.movie.durationMs) else file.movie.durationMs)
      && !(file.sawFtyp && box.kind == FTYP) && (box.start == 0 ==> box.kind == FTYP)
  {
    hide MovieFrom, FileType, LastDuration;
    assert FTYP[0] != MOOV[0];
    if box.kind == MOOV {
      MovieCovers(bytes, box.payloadStart, box.end, count, file.movie, limits);
    }
  }

  function FileTypes(boxes: seq<Box>): nat {
    if boxes == [] then 0 else (if boxes[0].kind == FTYP then 1 else 0) + FileTypes(boxes[1..])
  }

  lemma {:induction false} FileCovers(bytes: Bytes, offset: nat, count: nat, file: File, limits: Limits)
    requires offset <= |bytes|
    ensures var r := FileFrom(bytes, offset, count, file, limits); r.Ok? ==>
      && FileCovered(bytes, offset) && Within(count, r.value.count, limits)
      && count + |BoxesOf(bytes, offset, |bytes|).value| <= r.value.count
      && (if file.sawFtyp then 1 else 0) + FileTypes(BoxesOf(bytes, offset, |bytes|).value)
           == (if r.value.value.sawFtyp then 1 else 0)
      && r.value.value.movie.durationMs == FileDuration(bytes, BoxesOf(bytes, offset, |bytes|).value, file.movie.durationMs)
    decreases |bytes| - offset
  {
    hide FileStep, NextBox, MovieCovered, MovieDuration;
    if offset < |bytes| {
      var next := NextBox(bytes, offset, |bytes|, count, limits.maximumBoxes);
      if next.Ok? {
        var box := next.value;
        var step := FileStep(bytes, box, count + 1, file, limits);
        FileStepCovers(bytes, box, count + 1, file, limits);
        if step.Ok? && FileFrom(bytes, box.end, step.value.count, step.value.value, limits).Ok? {
          FileCovers(bytes, box.end, step.value.count, step.value.value, limits);
          TiledStep(bytes, offset, |bytes|, count, limits.maximumBoxes);
        }
      }
    }
  }

  /**
   * An accepted file is tiled by its boxes, its movies by theirs, their tracks and media by theirs; it starts with its
   * only file type box; its duration is that of the last movie header; and no more boxes were visited than the limit allows.
   */
  lemma AcceptedFileIsCovered(bytes: Bytes, limits: Limits)
    requires Verify(bytes, limits).Ok?
    ensures FileCovered(bytes, 0)
    ensures var boxes := BoxesOf(bytes, 0, |bytes|).value;
      boxes != [] && boxes[0].kind == FTYP && FileTypes(boxes) == 1 && Tiles(boxes, 0, |bytes|)
    ensures Some(Verify(bytes, limits).value.durationMs) == FileDuration(bytes, BoxesOf(bytes, 0, |bytes|).value, None)
    ensures |BoxesOf(bytes, 0, |bytes|).value| <= FileFrom(bytes, 0, 0, NEW_FILE, limits).value.count <= limits.maximumBoxes
  {
    hide NextBox, FileStep, FileCovered, MovieDuration;
    FileCovers(bytes, 0, 0, NEW_FILE, limits);
    CoveredIsTiled(bytes, 0);
    SiblingsTile(bytes, 0, |bytes|, 0, |bytes|);
    FirstIsFileType(bytes, limits);
  }

  lemma CoveredIsTiled(bytes: Bytes, start: nat)
    requires start <= |bytes| && FileCovered(bytes, start)
    ensures Tiled(bytes, start, |bytes|)
  {
  }

  lemma FirstIsFileType(bytes: Bytes, limits: Limits)
    requires Verify(bytes, limits).Ok? && Tiled(bytes, 0, |bytes|)
    ensures BoxesOf(bytes, 0, |bytes|).value != [] && BoxesOf(bytes, 0, |bytes|).value[0].kind == FTYP
  {
    hide ReadSize, ReadFourCc, FileType, MovieFrom;
    var next := NextBox(bytes, 0, |bytes|, 0, limits.maximumBoxes);
    if bytes != [] {
      FileStepCovers(bytes, next.value, 1, NEW_FILE, limits);
    }
  }
}
