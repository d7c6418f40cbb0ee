/** Chunk framing (section 3.2 of RFC 2083). */
module PngChunks {
  import opened Common

  const SIGNATURE: Bytes := [137, 80, 78, 71, 13, 10, 26, 10]

  const IHDR: Bytes := [73, 72, 68, 82]
  const IDAT: Bytes := [73, 68, 65, 84]
  const IEND: Bytes := [73, 69, 78, 68]

  // ---------------------------------------------------------------- 32-bit integers

  function ReadU32(bytes: Bytes, offset: nat): (n: nat)
    requires offset + 4 <= |bytes|
    ensures n < 0x1_0000_0000
  {
    var a: int, b: int, c: int, d: int := bytes[offset], bytes[offset + 1], bytes[offset + 2], bytes[offset + 3];
    a * 0x100_0000 + b * 0x1_0000 + c * 0x100 + d
  }

  function WriteU32(n: nat): (bytes: Bytes)
    requires n < 0x1_0000_0000
    ensures |bytes| == 4
  {
    [n / 0x100_0000, n / 0x1_0000 % 0x100, n / 0x100 % 0x100, n % 0x100]
  }

  lemma SplitU32(n: nat)
    requires n < 0x1_0000_0000
    ensures n / 0x100_0000 * 0x100_0000 + n / 0x1_0000 % 0x100 * 0x1_0000 + n / 0x100 % 0x100 * 0x100 + n % 0x100 == n
  {
    assert n / 0x100 / 0x100 == n / 0x1_0000;
    assert n / 0x1_0000 / 0x100 == n / 0x100_0000;
  }

  lemma ReadWritten(n: nat, bytes: Bytes, offset: nat)
    requires n < 0x1_0000_0000 && offset + 4 <= |bytes| && bytes[offset..offset + 4] == WriteU32(n)
    ensures ReadU32(bytes, offset) == n
  {
    var four := bytes[offset..offset + 4];
    assert bytes[offset] == four[0] && bytes[offset + 1] == four[1];
    assert bytes[offset + 2] == four[2] && bytes[offset + 3] == four[3];
    SplitU32(n);
  }

  lemma WriteRead(bytes: Bytes, offset: nat)
    requires offset + 4 <= |bytes|
    ensures WriteU32(ReadU32(bytes, offset)) == bytes[offset..offset + 4]
  {
    var n: int := ReadU32(bytes, offset);
    DigitsUnique(bytes[offset], bytes[offset + 1], bytes[offset + 2], bytes[offset + 3], n);
  }

  lemma DigitsUnique(a: int, b: int, c: int, d: int, n: nat)
    requires 0 <= a < 0x100 && 0 <= b < 0x100 && 0 <= c < 0x100 && 0 <= d < 0x100
    requires n == a * 0x100_0000 + b * 0x1_0000 + c * 0x100 + d
    ensures n / 0x100_0000 == a && n / 0x1_0000 % 0x100 == b && n / 0x100 % 0x100 == c && n % 0x100 == d
  {
    assert n / 0x100 == a * 0x1_0000 + b * 0x100 + c;
    assert n / 0x1_0000 == a * 0x100 + b;
  }

  // ---------------------------------------------------------------- frames

  /** A chunk as it stands in a file: its type, its data and its four checksum bytes. */
  datatype ChunkFields = Chunk(kind: Bytes, data: Bytes, checksum: Bytes)

  type Chunk = c: ChunkFields | |c.kind| == 4 && |c.data| < 0x1_0000_0000 && |c.checksum| == 4
    witness Chunk([0, 0, 0, 0], [], [0, 0, 0, 0])

  function Frame(c: Chunk): (bytes: Bytes)
    ensures |bytes| == 12 + |c.data|
  {
    WriteU32(|c.data|) + c.kind + c.data + c.checksum
  }

  function Frames(chunks: seq<Chunk>): (bytes: Bytes)
    ensures |bytes| >= 12 * |chunks|
  {
    if chunks == [] then [] else Frame(chunks[0]) + Frames(chunks[1..])
  }

  /** The chunk that starts at `offset`; both readers look only at these parts. */
  function ChunkAt(bytes: Bytes, offset: nat): (c: Chunk)
    requires offset + 12 <= |bytes| && offset + 12 + ReadU32(bytes, offset) <= |bytes|
    ensures |c.data| == ReadU32(bytes, offset)
  {
    var dataEnd := offset + 8 + ReadU32(bytes, offset);
    Chunk(bytes[offset + 4..offset + 8], bytes[offset + 8..dataEnd], bytes[dataEnd..dataEnd + 4])
  }

  lemma ReadFrame(before: Bytes, c: Chunk, after: Bytes, bytes: Bytes)
    requires bytes == before + Frame(c) + after
    ensures ReadU32(bytes, |before|) == |c.data|
    ensures |before| + 12 + |c.data| <= |bytes| && ChunkAt(bytes, |before|) == c
  {
    var offset, frame := |before|, Frame(c);
    assert bytes[offset..offset + |frame|] == frame;
    assert bytes[offset..offset + 4] == frame[..4] == WriteU32(|c.data|);
    ReadWritten(|c.data|, bytes, offset);
    ReadFrameParts(before, c, after, bytes);
  }

  lemma ReadFrameParts(before: Bytes, c: Chunk, after: Bytes, bytes: Bytes)
    requires bytes == before + Frame(c) + after
    ensures var offset, n := |before|, |c.data|;
      && bytes[offset + 4..offset + 8] == c.kind
      && bytes[offset + 8..offset + 8 + n] == c.data
      && bytes[offset + 8 + n..offset + 12 + n] == c.checksum
  {
  }

  lemma FrameOfChunkAt(bytes: Bytes, offset: nat)
    requires offset + 12 <= |bytes| && offset + 12 + ReadU32(bytes, offset) <= |bytes|
    ensures Frame(ChunkAt(bytes, offset)) == bytes[offset..offset + 12 + ReadU32(bytes, offset)]
  {
    WriteRead(bytes, offset);
  }
}
