/** ISO base media boxes (section 4.2 of ISO/IEC 14496-12). */
module Mp4Boxes {
  import opened Common
  import opened PngChunks

  const MAX_SAFE_INTEGER: nat := 0x1f_ffff_ffff_ffff

  /** A box's type and where it, its payload and its end lie in the file. */
  datatype Box = Box(kind: Bytes, start: nat, payloadStart: nat, end: nat)

  // ---------------------------------------------------------------- 64-bit sizes

  function ReadU64(bytes: Bytes, offset: nat): nat
    requires offset + 8 <= |bytes|
  {
    ReadU32(bytes, offset) * 0x1_0000_0000 + ReadU32(bytes, offset + 4)
  }

  /** The first `n` bytes from `offset`, read one by one. */
  function ReadBytes(bytes: Bytes, offset: nat, n: nat): nat
    requires offset + n <= |bytes|
  {
    if n == 0 then 0 else ReadBytes(bytes, offset, n - 1) * 0x100 + bytes[offset + n - 1]
  }

  lemma ReadFour(bytes: Bytes, offset: nat)
    requires offset + 4 <= |bytes|
    ensures ReadBytes(bytes, offset, 4) == ReadU32(bytes, offset)
  {
    assert ReadBytes(bytes, offset, 1) == bytes[offset] as int;
    assert ReadBytes(bytes, offset, 2) == ReadBytes(bytes, offset, 1) * 0x100 + bytes[offset + 1];
    assert ReadBytes(bytes, offset, 3) == ReadBytes(bytes, offset, 2) * 0x100 + bytes[offset + 2];
    assert ReadBytes(bytes, offset, 4) == ReadBytes(bytes, offset, 3) * 0x100 + bytes[offset + 3];
  }

  lemma ReadEight(bytes: Bytes, offset: nat)
    requires offset + 8 <= |bytes|
    ensures ReadBytes(bytes, offset, 8) == ReadU64(bytes, offset)
  {
    ReadFour(bytes, offset);
    ReadFour(bytes, offset + 4);
    ReadTail(bytes, offset, 4);
  }

  /** Reading on from four bytes is reading four more behind them. */
  lemma ReadTail(bytes: Bytes, offset: nat, n: nat)
    requires offset + 4 + n <= |bytes| && n <= 4
    ensures ReadBytes(bytes, offset, 4 + n) == ReadBytes(bytes, offset, 4) * Power(n) + ReadBytes(bytes, offset + 4, n)
  {
    if n > 0 {
      ReadTail(bytes, offset, n - 1);
      assert offset + (4 + n) - 1 == offset + 4 + n - 1;
    }
  }

  function Power(n: nat): nat
    requires n <= 4
  {
    match n case 0 => 1 case 1 => 0x100 case 2 => 0x1_0000 case 3 => 0x100_0000 case _ => 0x1_0000_0000
  }

  /** The loop that shifts eight bytes together. */
  method ReadU64Loop(bytes: Bytes, offset: nat) returns (value: nat)
    requires offset + 8 <= |bytes|
    ensures value == ReadU64(bytes, offset)
  {
    value := 0;
    var index := 0;
    while index < 8
      invariant 0 <= index <= 8 && value == ReadBytes(bytes, offset, index)
    {
      value := value * 0x100 + bytes[offset + index];
      index := index + 1;
    }
    ReadEight(bytes, offset);
  }

  function WriteU64(n: nat): (bytes: Bytes)
    requires n < 0x1_0000_0000_0000_0000
    ensures |bytes| == 8
  {
    WriteU32(n / 0x1_0000_0000) + WriteU32(n % 0x1_0000_0000)
  }

  lemma ReadWrittenU64(n: nat, bytes: Bytes, offset: nat)
    requires n < 0x1_0000_0000_0000_0000 && offset + 8 <= |bytes| && bytes[offset..offset + 8] == WriteU64(n)
    ensures ReadU64(bytes, offset) == n
  {
    assert bytes[offset..offset + 4] == bytes[offset..offset + 8][..4] == WriteU32(n / 0x1_0000_0000);
    assert bytes[offset + 4..offset + 8] == bytes[offset..offset + 8][4..] == WriteU32(n % 0x1_0000_0000);
    ReadWritten(n / 0x1_0000_0000, bytes, offset);
    ReadWritten(n % 0x1_0000_0000, bytes, offset + 4);
  }

  // ---------------------------------------------------------------- one box

  predicate Printable(kind: Bytes) {
    forall b :: b in kind ==> 0x20 <= b <= 0x7e
  }

  /** Four printable bytes, or a malformed file. */
  function ReadFourCc(bytes: Bytes, offset: nat): (r: Result<Bytes>)
    ensures r.Ok? <==> offset + 4 <= |bytes| && Printable(bytes[offset..offset + 4])
    ensures r.Ok? ==> r.value == bytes[offset..offset + 4]
    ensures r.Err? ==> r.code == "mp4-malformed"
  {
    if offset + 4 > |bytes| || !Printable(bytes[offset..offset + 4]) then Err("mp4-malformed")
    else Ok(bytes[offset..offset + 4])
  }

  datatype Size = Size(headerLength: nat, size: nat)

  /** Size 1 announces a 64-bit size, size 0 a box that reaches to the end of its parent. */
  function ReadSize(bytes: Bytes, offset: nat, end: nat): Result<Size>
    requires offset + 8 <= end <= |bytes|
  {
    var size32 := ReadU32(bytes, offset);
    if size32 == 1 then
      if offset + 16 > |bytes| || ReadU64(bytes, offset + 8) > MAX_SAFE_INTEGER then Err("mp4-malformed")
      else Ok(Size(16, ReadU64(bytes, offset + 8)))
    else if size32 == 0 then Ok(Size(8, end - offset))
    else Ok(Size(8, size32))
  }

  /** The box at `offset` in a parent that ends at `end`; `count` boxes were read before it. */
  function NextBox(bytes: Bytes, offset: nat, end: nat, count: nat, maximumBoxes: nat): (r: Result<Box>)
    requires offset <= end <= |bytes|
    ensures r.Ok? ==>
      && r.value.start == offset < r.value.payloadStart <= r.value.end <= end
      && r.value.end >= offset + 8 && count < maximumBoxes && |r.value.kind| == 4
  {
    if count + 1 > maximumBoxes then Err("mp4-traversal-limit-exceeded")
    else if offset + 8 > end then Err("mp4-malformed")
    else
      match ReadFourCc(bytes, offset + 4)
      case Err(code) => Err(code)
      case Ok(kind) =>
        match ReadSize(bytes, offset, end)
        case Err(code) => Err(code)
        case Ok(s) =>
          if s.size < s.headerLength || offset + s.size > end || offset + s.size > MAX_SAFE_INTEGER then Err("mp4-malformed")
          else Ok(Box(kind, offset, offset + s.headerLength, offset + s.size))
  }

  // ---------------------------------------------------------------- siblings

  /** All boxes from `offset` to `end`. */
  function Siblings(bytes: Bytes, offset: nat, end: nat, count: nat, maximumBoxes: nat): Result<seq<Box>>
    requires offset <= end <= |bytes|
    decreases end - offset
  {
    if offset == end then Ok([])
    else
      match NextBox(bytes, offset, end, count, maximumBoxes)
      case Err(code) => Err(code)
      case Ok(box) =>
        match Siblings(bytes, box.end, end, count + 1, maximumBoxes)
        case Err(code) => Err(code)
        case Ok(rest) => Ok([box] + rest)
  }

  /** The boxes lie end to end from `offset` to `end`, each with room for its header. */
  predicate Tiles(boxes: seq<Box>, offset: nat, end: nat) {
    if boxes == [] then offset == end
    else boxes[0].start == offset < boxes[0].payloadStart <= boxes[0].end && Tiles(boxes[1..], boxes[0].end, end)
  }

  /** A walk that succeeds has covered its parent without gap or overlap, within the box limit. */
  lemma {:induction false} SiblingsTile(bytes: Bytes, offset: nat, end: nat, count: nat, maximumBoxes: nat)
    requires offset <= end <= |bytes|
    ensures var r := Siblings(bytes, offset, end, count, maximumBoxes);
      r.Ok? ==> Tiles(r.value, offset, end) && (r.value != [] ==> count + |r.value| <= maximumBoxes)
    decreases end - offset
  {
    if offset < end {
      var next := NextBox(bytes, offset, end, count, maximumBoxes);
      if next.Ok? {
        SiblingsTile(bytes, next.value.end, end, count + 1, maximumBoxes);
      }
    }
  }

  // ---------------------------------------------------------------- writing boxes

  datatype SizeForm = Short | Large | ToEnd

  /** A box to write: its type, how its size is given, and its payload. */
  datatype BoxText = BoxText(kind: Bytes, form: SizeForm, payload: Bytes)

  predicate Writable(b: BoxText, last: bool) {
    && |b.kind| == 4 && Printable(b.kind)
    && match b.form
       case Short => 8 + |b.payload| < 0x1_0000_0000
       case Large => 16 + |b.payload| <= MAX_SAFE_INTEGER
       case ToEnd => last
  }

  /** Only the last box may leave its size open. */
  predicate WritableAll(list: seq<BoxText>) {
    list == [] || (Writable(list[0], |list| == 1) && WritableAll(list[1..]))
  }

  function HeaderLength(b: BoxText): nat {
    if b.form == Large then 16 else 8
  }

  function Header(b: BoxText, last: bool): (bytes: Bytes)
    requires Writable(b, last)
    ensures |bytes| == HeaderLength(b)
  {
    match b.form
    case Short => WriteU32(8 + |b.payload|) + b.kind
    case Large => WriteU32(1) + b.kind + WriteU64(16 + |b.payload|)
    case ToEnd => WriteU32(0) + b.kind
  }

  function Serialize(list: seq<BoxText>): Bytes
    requires WritableAll(list)
  {
    if list == [] then [] else Header(list[0], |list| == 1) + list[0].payload + Serialize(list[1..])
  }

  function BoxAt(b: BoxText, offset: nat): Box {
    Box(b.kind, offset, offset + HeaderLength(b), offset + HeaderLength(b) + |b.payload|)
  }

  function BoxesAt(list: seq<BoxText>, offset: nat): seq<Box> {
    if list == [] then [] else [BoxAt(list[0], offset)] + BoxesAt(list[1..], BoxAt(list[0], offset).end)
  }

  lemma ReadHeader(before: Bytes, b: BoxText, last: bool, after: Bytes, bytes: Bytes, end: nat)
    requires Writable(b, last) && bytes == before + (Header(b, last) + b.payload) + after
    requires |before| + HeaderLength(b) + |b.payload| <= end <= |bytes|
    requires b.form == ToEnd ==> |before| + HeaderLength(b) + |b.payload| == end
    ensures ReadSize(bytes, |before|, end) == Ok(Size(HeaderLength(b), HeaderLength(b) + |b.payload|))
    ensures bytes[|before| + 4..|before| + 8] == b.kind
  {
    var offset, header := |before|, Header(b, last);
    assert bytes[offset..offset + |header|] == header;
    assert bytes[offset..offset + 4] == header[..4];
    assert bytes[offset + 4..offset + 8] == header[4..8] == b.kind;
    match b.form {
      case Short => ReadWritten(8 + |b.payload|, bytes, offset);
      case Large =>
        ReadWritten(1, bytes, offset);
        assert bytes[offset + 8..offset + 16] == header[8..16];
        ReadWrittenU64(16 + |b.payload|, bytes, offset + 8);
      case ToEnd => ReadWritten(0, bytes, offset);
    }
  }

  lemma ReadWrittenBox(before: Bytes, b: BoxText, last: bool, after: Bytes, bytes: Bytes, end: nat, count: nat, maximumBoxes: nat)
    requires Writable(b, last) && bytes == before + (Header(b, last) + b.payload) + after
    requires |before| + HeaderLength(b) + |b.payload| <= end <= |bytes| <= MAX_SAFE_INTEGER && count < maximumBoxes
    requires b.form == ToEnd ==> |before| + HeaderLength(b) + |b.payload| == end
    ensures NextBox(bytes, |before|, end, count, maximumBoxes) == Ok(BoxAt(b, |before|))
  {
    hide Header, ReadSize;
    ReadHeader(before, b, last, after, bytes, end);
  }

  lemma {:induction false} SerializedLength(list: seq<BoxText>, offset: nat)
    requires WritableAll(list) && list != []
    ensures BoxAt(list[0], offset).end <= offset + |Serialize(list)|
    ensures |list| == 1 ==> BoxAt(list[0], offset).end == offset + |Serialize(list)|
  {
    hide Header;
  }

  /** Walking written boxes gives the boxes back, whichever way their sizes are given, unless there are too many. */
  lemma {:induction false} WalkUndoesSerialize(before: Bytes, list: seq<BoxText>, after: Bytes, bytes: Bytes, count: nat, maximumBoxes: nat)
    requires WritableAll(list) && bytes == before + Serialize(list) + after && |bytes| <= MAX_SAFE_INTEGER
    ensures Siblings(bytes, |before|, |before| + |Serialize(list)|, count, maximumBoxes)
      == if list == [] || count + |list| <= maximumBoxes then Ok(BoxesAt(list, |before|))
         else Err("mp4-traversal-limit-exceeded")
    decreases |list|
  {
    hide Header, NextBox;
    if list != [] {
      var b, rest, end := list[0], list[1..], |before| + |Serialize(list)|;
      var head := Header(b, |list| == 1) + b.payload;
      SerializedLength(list, |before|);
      assert bytes == before + head + (Serialize(rest) + after);
      if count < maximumBoxes {
        ReadWrittenBox(before, b, |list| == 1, Serialize(rest) + after, bytes, end, count, maximumBoxes);
        assert bytes == (before + head) + Serialize(rest) + after;
        WalkUndoesSerialize(before + head, rest, after, bytes, count + 1, maximumBoxes);
      } else {
        FullWalk(bytes, |before|, end, count, maximumBoxes);
      }
    }
  }

  lemma FullWalk(bytes: Bytes, offset: nat, end: nat, count: nat, maximumBoxes: nat)
    requires offset <= end <= |bytes| && count >= maximumBoxes
    ensures NextBox(bytes, offset, end, count, maximumBoxes) == Err("mp4-traversal-limit-exceeded")
  {
  }
}
