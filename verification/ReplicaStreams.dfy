/** Chunked provider streams and their answers. */
module ReplicaStreams {
  import opened Common
  import opened ReplicaTables
  import opened ReplicaProtocol

  /** What opening a provider object gives; a stream may break off with an error after its chunks. */
  datatype Opening =
    | Refused
    | Missing
    | Stream(declared: nat, chunks: seq<Bytes>, failure: Option<bool>)

  function Flat(chunks: seq<Bytes>): Bytes {
    if chunks == [] then [] else Flat(chunks[..|chunks| - 1]) + chunks[|chunks| - 1]
  }

  lemma FlatGrows(chunks: seq<Bytes>, i: nat)
    requires i < |chunks|
    ensures Flat(chunks[..i + 1]) == Flat(chunks[..i]) + chunks[i]
  {
    assert chunks[..i + 1][..i] == chunks[..i];
  }

  // A prefix of the chunks yields a prefix of the bytes.
  lemma {:induction false} FlatOfPrefix(chunks: seq<Bytes>, i: nat)
    requires i <= |chunks|
    ensures Flat(chunks[..i]) <= Flat(chunks)
    decreases |chunks| - i
  {
    if i < |chunks| {
      FlatGrows(chunks, i);
      FlatOfPrefix(chunks, i + 1);
    } else {
      assert chunks[..i] == chunks;
    }
  }

  /** The stream yields as many bytes as the provider declared. */
  predicate Candid(opening: Opening) {
    opening.Stream? ==> opening.declared == |Flat(opening.chunks)|
  }

  /** The protocol's view of an opening. */
  function AsRead(opening: Opening): Read {
    match opening
    case Refused => Unavailable
    case Missing => NotFound
    case Stream(_, chunks, None) => Opened(Flat(chunks))
    case Stream(_, _, Some(retryable)) => Broken(retryable)
  }

  /** How reading ends: with a verdict, or with an error that may be worth a retry. */
  datatype Verdict = Judged(verification: Verification) | Raises(retryable: bool)

  /** Counts the bytes of a stream as they come and stops as soon as there are too many. */
  method VerifyProviderObject(sha: Hash, opening: Opening, d: Digest) returns (v: Verdict)
    ensures opening.Refused? ==> v == Raises(true)
    ensures opening.Missing? ==> v == Judged(Absent)
    ensures v == Judged(Verified) <==>
      opening.Stream? && opening.failure.None? && opening.declared == d.length && Matches(sha, Flat(opening.chunks), d)
    ensures opening.Stream? ==>
      (v.Raises? <==> opening.failure.Some? && opening.declared == d.length && |Flat(opening.chunks)| <= d.length)
    ensures opening.Stream? && v.Raises? ==> opening.failure == Some(v.retryable)
    ensures Candid(opening) && !AsRead(opening).Broken? && !opening.Refused? ==> v == Judged(Verify(sha, AsRead(opening), d))
  {
    if opening.Refused? { return Raises(true); }
    if opening.Missing? { return Judged(Absent); }
    if opening.declared != d.length { return Judged(Mismatch); }
    var chunks := opening.chunks;
    assert chunks[..|chunks|] == chunks;
    var hashed, observedLength, i := [], 0, 0;
    while i < |chunks|
      invariant 0 <= i <= |chunks|
      invariant hashed == Flat(chunks[..i]) && observedLength == |hashed| <= d.length
    {
      FlatGrows(chunks, i);
      observedLength := observedLength + |chunks[i]|;
      if observedLength > d.length {
        FlatOfPrefix(chunks, i + 1);
        return Judged(Mismatch);
      }
      hashed := hashed + chunks[i];
      i := i + 1;
    }
    if opening.failure.Some? { return Raises(opening.failure.value); }
    v := Judged(if observedLength == d.length && sha(hashed) == d.checksum then Verified else Mismatch);
  }

  /** The writer's view of the source: chunks pass through while they are hashed and counted. */
  class SourceMirror {
    const chunks: seq<Bytes>
    const broken: bool
    const limit: nat
    var next: nat
    var byteLength: nat
    var hashed: Bytes
    var ended: bool
    var completed: bool

    ghost predicate Valid()
      reads this
    {
      && next <= |chunks|
      && hashed <= Flat(chunks) && |hashed| <= limit
      && (!ended ==> hashed == Flat(chunks[..next]) && byteLength == |hashed|)
      && (completed ==> ended && !broken && hashed == Flat(chunks) && byteLength == |hashed|)
    }

    function Result(): Mirror
      reads this
    {
      Mirror(hashed, completed)
    }

    constructor (chunks: seq<Bytes>, broken: bool, limit: nat)
      ensures Valid() && !ended && next == 0
      ensures this.chunks == chunks && this.broken == broken && this.limit == limit
    {
      this.chunks, this.broken, this.limit := chunks, broken, limit;
      next, byteLength, hashed, ended, completed := 0, 0, [], false, false;
    }

    /** One pull of the writer: a chunk, the end of the stream, or an error; nothing follows an end or an error. */
    method Pull() returns (chunk: Option<Bytes>, raised: bool)
      requires Valid()
      modifies this
      ensures Valid()
      ensures !old(ended) && chunk.Some? ==>
        && old(next) < |chunks| && chunk.value == chunks[old(next)] && next == old(next) + 1 && !ended
        && hashed == old(hashed) + chunk.value
      ensures !old(ended) && chunk.None? ==> ended && hashed == old(hashed) && (completed <==> !raised)
      ensures old(ended) ==> chunk.None? && !raised && hashed == old(hashed) && completed == old(completed) && ended
      ensures completed && !old(completed) ==> old(next) == |chunks|
    {
      chunk, raised := None, false;
      if ended { return; }
      if next == |chunks| {
        assert chunks[..next] == chunks;
        ended := true;
        completed := !broken;
        raised := broken;
        return;
      }
      FlatGrows(chunks, next);
      FlatOfPrefix(chunks, next + 1);
      var bytes := chunks[next];
      byteLength := byteLength + |bytes|;
      if byteLength > limit {
        ended := true;
        raised := true;
        return;
      }
      hashed := hashed + bytes;
      next := next + 1;
      chunk := Some(bytes);
    }

    /** However often it was pulled, the mirror is one the protocol allows for. */
    lemma ResultIsMirror(d: Digest)
      requires Valid() && limit == d.length
      ensures MirrorOf(Result(), Flat(chunks), d)
    {
    }

    /** The check after a write: all of the source was seen, with the expected length and checksum. */
    method Intact(sha: Hash, d: Digest) returns (ok: bool)
      requires Valid() && limit == d.length
      ensures ok <==> AfterMirror(sha, d, Result()) == VerifyWritten
      ensures ok <==> completed && Matches(sha, Flat(chunks), d)
    {
      ok := completed && byteLength == d.length && sha(hashed) == d.checksum;
    }
  }
}
