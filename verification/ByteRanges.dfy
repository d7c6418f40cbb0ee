/** Byte ranges (section 14.1.2 of RFC 9110). */
module ByteRanges {
  import opened Common
  import opened JsonText

  const MAX_SAFE_INTEGER: nat := 0x1f_ffff_ffff_ffff
  const DASH: Unit := 45
  const PREFIX: Text := [98, 121, 116, 101, 115, 61]

  // ---------------------------------------------------------------- numbers

  predicate Digit(u: Unit) {
    48 <= u <= 57
  }

  predicate Digits(text: Text) {
    forall u :: u in text ==> Digit(u)
  }

  function ValueOf(text: Text): nat
    requires Digits(text)
  {
    if text == [] then 0
    else
      assert text[|text| - 1] in text && forall u :: u in text[..|text| - 1] ==> u in text;
      10 * ValueOf(text[..|text| - 1]) + (text[|text| - 1] - 48)
  }

  function Decimal(n: nat): (text: Text)
    ensures text != [] && Digits(text)
  {
    if n < 10 then [48 + n] else Decimal(n / 10) + [48 + n % 10]
  }

  lemma {:induction false} ReadsDecimal(n: nat)
    ensures ValueOf(Decimal(n)) == n
  {
    var text := Decimal(n);
    if n >= 10 {
      ReadsDecimal(n / 10);
      assert text[..|text| - 1] == Decimal(n / 10);
    } else {
      assert text[..|text| - 1] == [];
    }
  }

  function Power(digits: nat): nat {
    if digits == 0 then 1 else 10 * Power(digits - 1)
  }

  lemma {:induction false} DecimalLength(n: nat, digits: nat)
    requires digits >= 1 && n < Power(digits)
    ensures |Decimal(n)| <= digits
    decreases digits
  {
    if n >= 10 {
      assert digits >= 2;
      DecimalLength(n / 10, digits - 1);
    }
  }

  lemma SafeIntegersAreShort(n: nat)
    requires n <= MAX_SAFE_INTEGER
    ensures |Decimal(n)| <= 16
  {
    assert Power(4) == 10000;
    assert Power(8) == 10000 * Power(4);
    assert Power(12) == 10000 * Power(8);
    assert Power(16) == 10000 * Power(12);
    DecimalLength(n, 16);
  }

  // ---------------------------------------------------------------- parsing

  /** The white space that trimming removes. */
  predicate Space(u: Unit) {
    9 <= u <= 13 || u == 32 || u == 160 || u == 0x1680 || 0x2000 <= u <= 0x200a
    || u == 0x2028 || u == 0x2029 || u == 0x202f || u == 0x205f || u == 0x3000 || u == 0xfeff
  }

  function TrimStart(text: Text): Text {
    if text != [] && Space(text[0]) then TrimStart(text[1..]) else text
  }

  function TrimEnd(text: Text): Text {
    if text != [] && Space(text[|text| - 1]) then TrimEnd(text[..|text| - 1]) else text
  }

  /** How many digits a text begins with. */
  function DigitSpan(text: Text): (n: nat)
    ensures n <= |text| && Digits(text[..n]) && (n < |text| ==> !Digit(text[n]))
  {
    if text == [] || !Digit(text[0]) then 0
    else
      var n := 1 + DigitSpan(text[1..]);
      assert text[..n] == [text[0]] + text[1..][..n - 1];
      n
  }

  datatype Parts = Parts(left: Text, right: Text)

  /** The digits on both sides of the dash, when the whole text has the form bytes=digits-digits. */
  function Match(text: Text): (parts: Option<Parts>)
    ensures parts.Some? ==> Digits(parts.value.left) && Digits(parts.value.right)
    ensures parts.Some? ==> text == PREFIX + parts.value.left + [DASH] + parts.value.right
  {
    if |text| < 6 || text[..6] != PREFIX then None
    else
      var rest := text[6..];
      var n := DigitSpan(rest);
      if n == |rest| || rest[n] != DASH || DigitSpan(rest[n + 1..]) != |rest| - n - 1 then None
      else
        assert rest[n + 1..][..|rest| - n - 1] == rest[n + 1..];
        assert text == text[..6] + (rest[..n] + [rest[n]] + rest[n + 1..]);
        Some(Parts(rest[..n], rest[n + 1..]))
  }

  datatype Range = Range(start: nat, end: nat)

  function Smaller(a: nat, b: nat): nat {
    if a < b then a else b
  }

  function Parse(value: Text, total: nat): (r: Result<Range>)
    requires 0 < total <= MAX_SAFE_INTEGER
    ensures r.Ok? ==> r.value.start <= r.value.end < total
  {
    if COMMA in value then Err("multiple-ranges-not-supported")
    else if |value| > 128 then Err("invalid-range")
    else
      match Match(TrimEnd(TrimStart(value)))
      case None => Err("invalid-range")
      case Some(Parts(left, right)) =>
        if left == [] && right == [] then Err("invalid-range")
        else if left == [] then
          var suffix := ValueOf(right);
          if suffix > MAX_SAFE_INTEGER || suffix == 0 then Err("invalid-range")
          else Ok(Range(if total < suffix then 0 else total - suffix, total - 1))
        else
          var start := ValueOf(left);
          if start > MAX_SAFE_INTEGER || start >= total then Err("range-not-satisfiable")
          else if right == [] then Ok(Range(start, total - 1))
          else
            var end := ValueOf(right);
            if end > MAX_SAFE_INTEGER || end < start then Err("invalid-range")
            else Ok(Range(start, Smaller(end, total - 1)))
  }

  /** The range as it is passed on to the provider. */
  function ProviderRange(r: Range): Text {
    PREFIX + Decimal(r.start) + [DASH] + Decimal(r.end)
  }

  // ---------------------------------------------------------------- meaning

  /** The three forms of a range, by the positions they name. */
  datatype Spec = FromTo(first: nat, last: nat) | From(first: nat) | Suffix(length: nat)

  /** The positions a range selects of a representation of `total` bytes. */
  predicate Selects(spec: Spec, total: nat, i: nat) {
    i < total
    && match spec
       case FromTo(first, last) => first <= i <= last
       case From(first) => first <= i
       case Suffix(length) => i + length >= total
  }

  /** A form that is valid and selects at least one byte. */
  predicate Satisfiable(spec: Spec, total: nat) {
    match spec
    case FromTo(first, last) => first <= last && first < total
    case From(first) => first < total
    case Suffix(length) => length > 0
  }

  predicate Safe(spec: Spec) {
    match spec
    case FromTo(first, last) => first <= MAX_SAFE_INTEGER && last <= MAX_SAFE_INTEGER
    case From(first) => first <= MAX_SAFE_INTEGER
    case Suffix(length) => length <= MAX_SAFE_INTEGER
  }

  function SpecOf(parts: Parts): Option<Spec>
    requires Digits(parts.left) && Digits(parts.right)
  {
    if parts.left == [] && parts.right == [] then None
    else if parts.left == [] then Some(Suffix(ValueOf(parts.right)))
    else if parts.right == [] then Some(From(ValueOf(parts.left)))
    else Some(FromTo(ValueOf(parts.left), ValueOf(parts.right)))
  }

  /** What a header value asks for, if it asks for one range at all. */
  function Requested(value: Text): Option<Spec> {
    if COMMA in value || |value| > 128 then None
    else
      match Match(TrimEnd(TrimStart(value)))
      case None => None
      case Some(parts) => SpecOf(parts)
  }

  /** A request is answered exactly when it is one satisfiable range of safe positions, and then with the bytes it selects. */
  lemma ParseSelectsTheRequestedBytes(value: Text, total: nat)
    requires 0 < total <= MAX_SAFE_INTEGER
    ensures var r, spec := Parse(value, total), Requested(value);
      && (r.Ok? <==> spec.Some? && Safe(spec.value) && Satisfiable(spec.value, total))
      && (r.Ok? ==> forall i: nat :: r.value.start <= i <= r.value.end <==> Selects(spec.value, total, i))
  {
    hide Match, TrimStart, TrimEnd, ValueOf;
  }

  // ---------------------------------------------------------------- round trips

  function WriteSpec(spec: Spec): Text {
    match spec
    case FromTo(first, last) => PREFIX + Decimal(first) + [DASH] + Decimal(last)
    case From(first) => PREFIX + Decimal(first) + [DASH]
    case Suffix(length) => PREFIX + [DASH] + Decimal(length)
  }

  lemma {:induction false} DigitSpanOf(digits: Text, rest: Text)
    requires Digits(digits) && (rest != [] ==> !Digit(rest[0]))
    ensures DigitSpan(digits + rest) == |digits|
    decreases |digits|
  {
    if digits == [] {
      assert digits + rest == rest;
    } else {
      assert digits[0] in digits && (digits + rest)[1..] == digits[1..] + rest;
      DigitSpanOf(digits[1..], rest);
    }
  }

  lemma MatchWritten(left: Text, right: Text)
    requires Digits(left) && Digits(right)
    ensures Match(PREFIX + left + [DASH] + right) == Some(Parts(left, right))
  {
    var text := PREFIX + left + [DASH] + right;
    var rest := text[6..];
    assert text[..6] == PREFIX;
    assert rest == left + ([DASH] + right);
    DigitSpanOf(left, [DASH] + right);
    assert rest[..|left|] == left && rest[|left|] == DASH && rest[|left| + 1..] == right;
    assert right + [] == right;
    DigitSpanOf(right, []);
  }

  /** A written range has no comma and nothing to trim. */
  lemma NothingToTrim(left: Text, right: Text)
    requires Digits(left) && Digits(right) && |left| + |right| <= 100
    ensures var text := PREFIX + left + [DASH] + right;
      COMMA !in text && |text| <= 128 && TrimEnd(TrimStart(text)) == text
  {
    var text := PREFIX + left + [DASH] + right;
    assert text[0] == 98;
    if right != [] {
      assert right[|right| - 1] in right && text[|text| - 1] == right[|right| - 1];
    } else {
      assert text[|text| - 1] == DASH;
    }
  }

  lemma RequestedParts(left: Option<nat>, right: Option<nat>)
    requires (left.Some? ==> left.value <= MAX_SAFE_INTEGER) && (right.Some? ==> right.value <= MAX_SAFE_INTEGER)
    ensures Requested(PREFIX + DecimalOf(left) + [DASH] + DecimalOf(right)) == SpecOf(Parts(DecimalOf(left), DecimalOf(right)))
  {
    hide Match, TrimStart, TrimEnd, DecimalOf, SpecOf;
    WrittenParts(left, right);
  }

  /** Reading a written range gives back the range. */
  lemma RequestedUndoesWrite(spec: Spec)
    requires Safe(spec)
    ensures Requested(WriteSpec(spec)) == Some(spec)
  {
    hide Requested, Decimal, ValueOf;
    match spec {
      case FromTo(first, last) =>
        RequestedParts(Some(first), Some(last));
        ReadsDecimal(first);
        ReadsDecimal(last);
      case From(first) =>
        RequestedParts(Some(first), None);
        ReadsDecimal(first);
        assert PREFIX + Decimal(first) + [DASH] + [] == WriteSpec(spec);
      case Suffix(length) =>
        RequestedParts(None, Some(length));
        ReadsDecimal(length);
        assert PREFIX + [] + [DASH] + Decimal(length) == WriteSpec(spec);
    }
  }

  function DecimalOf(n: Option<nat>): (text: Text)
    ensures Digits(text)
  {
    if n.Some? then Decimal(n.value) else []
  }

  lemma WrittenParts(left: Option<nat>, right: Option<nat>)
    requires (left.Some? ==> left.value <= MAX_SAFE_INTEGER) && (right.Some? ==> right.value <= MAX_SAFE_INTEGER)
    ensures var text := PREFIX + DecimalOf(left) + [DASH] + DecimalOf(right);
      && COMMA !in text && |text| <= 128
      && Match(TrimEnd(TrimStart(text))) == Some(Parts(DecimalOf(left), DecimalOf(right)))
    ensures left.Some? ==> ValueOf(DecimalOf(left)) == left.value
    ensures right.Some? ==> ValueOf(DecimalOf(right)) == right.value
  {
    hide Match, TrimStart, TrimEnd, Decimal, ValueOf;
    if left.Some? {
      SafeIntegersAreShort(left.value);
      ReadsDecimal(left.value);
    }
    if right.Some? {
      SafeIntegersAreShort(right.value);
      ReadsDecimal(right.value);
    }
    NothingToTrim(DecimalOf(left), DecimalOf(right));
    MatchWritten(DecimalOf(left), DecimalOf(right));
  }

  lemma RangeReadsBack(r: Range, total: nat)
    requires r.start <= r.end < total <= MAX_SAFE_INTEGER
    ensures Parse(ProviderRange(r), total) == Ok(r)
  {
    hide Match, TrimStart, TrimEnd, Decimal, ValueOf;
    WrittenParts(Some(r.start), Some(r.end));
  }

  /** The range passed to the provider reads back as the same range. */
  lemma ProviderRangeReadsBack(value: Text, total: nat)
    requires 0 < total <= MAX_SAFE_INTEGER && Parse(value, total).Ok?
    ensures Parse(ProviderRange(Parse(value, total).value), total) == Parse(value, total)
  {
    hide *;
    RangeReadsBack(Parse(value, total).value, total);
  }

  // ---------------------------------------------------------------- padding

  predicate Spaces(text: Text) {
    forall u :: u in text ==> Space(u)
  }

  lemma {:induction false} SpacesTrimmedBefore(spaces: Text, text: Text)
    requires Spaces(spaces) && (text == [] || !Space(text[0]))
    ensures TrimStart(spaces + text) == text
  {
    hide Space;
    if spaces == [] {
      assert spaces + text == text;
    } else {
      assert spaces[0] in spaces && (spaces + text)[1..] == spaces[1..] + text;
      SpacesTrimmedBefore(spaces[1..], text);
    }
  }

  lemma {:induction false} SpacesTrimmedAfter(text: Text, spaces: Text)
    requires Spaces(spaces) && text != [] && !Space(text[|text| - 1])
    ensures TrimEnd(text + spaces) == text
  {
    hide Space;
    if spaces == [] {
      assert text + spaces == text;
    } else {
      var last, front := spaces[|spaces| - 1], spaces[..|spaces| - 1];
      assert last in spaces && (text + spaces)[..|text + spaces| - 1] == text + front;
      SpacesTrimmedAfter(text, front);
    }
  }

  /** White space around a range is no part of it, as long as the whole value is not too long. */
  lemma PaddingIsIgnored(before: Text, text: Text, after: Text)
    requires Spaces(before) && Spaces(after) && text != [] && !Space(text[0]) && !Space(text[|text| - 1])
    requires |before + text + after| <= 128
    ensures Requested(before + text + after) == Requested(text)
  {
    hide Space, Match, SpecOf;
    assert before + text + after == before + (text + after);
    SpacesTrimmedBefore(before, text + after);
    SpacesTrimmedAfter(text, after);
    assert [] + text == text && text + [] == text;
    SpacesTrimmedBefore([], text);
    SpacesTrimmedAfter(text, []);
    CommaIsNoSpace(before);
    CommaIsNoSpace(after);
  }

  lemma CommaIsNoSpace(spaces: Text)
    requires Spaces(spaces)
    ensures COMMA !in spaces
  {
  }
}
