/** The parser's loops over one shared box counter. */
module Mp4Traversal {
  import opened Common
  import opened Mp4Boxes
  import opened Mp4Verification

  /** The state every loop of one verification shares. */
  class Traversal {
    var count: nat
    const limits: Limits

    constructor (limits: Limits)
      ensures count == 0 && this.limits == limits
    {
      this.limits := limits;
      count := 0;
    }

    /** Counts the box before looking at it. */
    method Next(bytes: Bytes, offset: nat, end: nat) returns (r: Result<Box>)
      requires offset <= end <= |bytes|
      modifies this
      ensures count == old(count) + 1
      ensures r == NextBox(bytes, offset, end, old(count), limits.maximumBoxes)
    {
      count := count + 1;
      r := NextBox(bytes, offset, end, count - 1, limits.maximumBoxes);
    }

    method FindSampleDescription(bytes: Bytes, start: nat, end: nat, depth: nat) returns (r: Result<Sample>)
      requires start <= end <= |bytes|
      modifies this
      ensures match FindSample(bytes, start, end, depth, old(count), limits)
        case Err(code) => r == Err(code)
        case Ok(found) => r == Ok(found.value) && count == found.count
      decreases end - start
    {
      if depth > limits.maximumDepth {
        return Err("mp4-traversal-limit-exceeded");
      }
      var offset := start;
      while offset < end
        invariant start <= offset <= end
        invariant FindFrom(bytes, start, end, depth, old(count), limits) == FindFrom(bytes, offset, end, depth, count, limits)
      {
        var next := Next(bytes, offset, end);
        if next.Err? {
          return Err(next.code);
        }
        var box := next.value;
        if box.kind == STSD {
          r := SampleDescription(bytes, box);
          return;
        }
        if HoldsDescriptions(box.kind) {
          var nested := FindSampleDescription(bytes, box.payloadStart, box.end, depth + 1);
          if nested.Err? || nested.value.codec.Some? {
            return nested;
          }
        }
        offset := box.end;
      }
      return Ok(NO_SAMPLE);
    }

    method ParseMedia(bytes: Bytes, box: Box, depth: nat, track: Track) returns (r: Result<Track>)
      requires box.payloadStart <= box.end <= |bytes|
      modifies this
      ensures match MediaFrom(bytes, box.payloadStart, box.end, depth, old(count), track, limits)
        case Err(code) => r == Err(code)
        case Ok(found) => r == Ok(found.value) && count == found.count
    {
      var offset, t := box.payloadStart, track;
      while offset < box.end
        invariant box.payloadStart <= offset <= box.end
        invariant MediaFrom(bytes, box.payloadStart, box.end, depth, old(count), track, limits)
          == MediaFrom(bytes, offset, box.end, depth, count, t, limits)
      {
        var next := Next(bytes, offset, box.end);
        if next.Err? {
          return Err(next.code);
        }
        var child := next.value;
        if child.kind == HDLR {
          var handler := HandlerIsVideo(bytes, child);
          if handler.Err? {
            return Err(handler.code);
          }
          t := t.(video := handler.value);
        }
        if child.kind == MINF {
          var found := FindSampleDescription(bytes, child.payloadStart, child.end, depth + 2);
          if found.Err? {
            return Err(found.code);
          }
          t := t.(sample := found.value);
        }
        offset := child.end;
      }
      return Ok(t);
    }

    method ParseTrackBox(bytes: Bytes, box: Box, depth: nat) returns (r: Result<Option<Sample>>)
      requires box.payloadStart <= box.end <= |bytes|
      modifies this
      ensures match ParseTrack(bytes, box, depth, old(count), limits)
        case Err(code) => r == Err(code)
        case Ok(found) => r == Ok(found.value) && count == found.count
    {
      if depth > limits.maximumDepth {
        return Err("mp4-traversal-limit-exceeded");
      }
      var offset, t := box.payloadStart, NO_TRACK;
      while offset < box.end
        invariant box.payloadStart <= offset <= box.end
        invariant TrackFrom(bytes, box.payloadStart, box.end, depth, old(count), NO_TRACK, limits)
          == TrackFrom(bytes, offset, box.end, depth, count, t, limits)
      {
        var next := Next(bytes, offset, box.end);
        if next.Err? {
          return Err(next.code);
        }
        var child := next.value;
        if child.kind == TKHD {
          var size := TrackHeader(bytes, child);
          if size.Err? {
            return Err(size.code);
          }
          t := t.(size := size.value);
        }
        if child.kind == MDIA {
          var media := ParseMedia(bytes, child, depth, t);
          if media.Err? {
            return Err(media.code);
          }
          t := media.value;
        }
        offset := child.end;
      }
      if !t.video {
        return Ok(None);
      }
      return Ok(Some(Sample(t.sample.codec, Or(t.sample.width, t.size.width), Or(t.sample.height, t.size.height))));
    }

    method ParseMovie(bytes: Bytes, box: Box, movie: Movie) returns (r: Result<Movie>)
      requires box.payloadStart <= box.end <= |bytes|
      modifies this
      ensures match MovieFrom(bytes, box.payloadStart, box.end, old(count), movie, limits)
        case Err(code) => r == Err(code)
        case Ok(found) => r == Ok(found.value) && count == found.count
    {
      var offset, m := box.payloadStart, movie;
      while offset < box.end
        invariant box.payloadStart <= offset <= box.end
        invariant MovieFrom(bytes, box.payloadStart, box.end, old(count), movie, limits)
          == MovieFrom(bytes, offset, box.end, count, m, limits)
      {
        var next := Next(bytes, offset, box.end);
        if next.Err? {
          return Err(next.code);
        }
        var child := next.value;
        if child.kind == MVHD {
          var duration := MovieHeader(bytes, child);
          if duration.Err? {
            return Err(duration.code);
          }
          m := m.(durationMs := Some(duration.value));
        }
        if child.kind == TRAK {
          var track := ParseTrackBox(bytes, child, 1);
          if track.Err? {
            return Err(track.code);
          }
          if track.value.Some? {
            m := m.(video := track.value.value);
          }
        }
        offset := child.end;
      }
      return Ok(m);
    }
  }

  method VerifyMp4(bytes: Bytes, limits: Limits) returns (r: Result<Video>)
    ensures r == Verify(bytes, limits)
  {
    var state := new Traversal(limits);
    var offset, f := 0, NEW_FILE;
    while offset < |bytes|
      invariant 0 <= offset <= |bytes| && state.limits == limits && fresh(state)
      invariant FileFrom(bytes, 0, 0, NEW_FILE, limits) == FileFrom(bytes, offset, state.count, f, limits)
    {
      var next := state.Next(bytes, offset, |bytes|);
      if next.Err? {
        return Err(next.code);
      }
      var box := next.value;
      if offset == 0 && box.kind != FTYP {
        return Err("mp4-container-unsupported");
      }
      if box.kind == FTYP {
        if f.sawFtyp {
          return Err("mp4-malformed");
        }
        var fileType := FileType(bytes, box);
        if fileType.Err? {
          return Err(fileType.code);
        }
        f := f.(sawFtyp := true);
      }
      if box.kind == MOOV {
        var movie := state.ParseMovie(bytes, box, f.movie);
        if movie.Err? {
          return Err(movie.code);
        }
        f := f.(movie := movie.value);
      }
      offset := box.end;
    }
    if !f.sawFtyp {
      return Err("mp4-container-unsupported");
    }
    if f.movie.durationMs.None? {
      return Err("mp4-timing-missing");
    }
    return Ok(Video(f.movie.durationMs.value, f.movie.video));
  }
}
