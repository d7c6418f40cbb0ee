/** Quoted strings as JSON.stringify writes them. */
module JsonText {

  type Unit = x: int | 0 <= x < 0x1_0000

  type Text = seq<Unit>

  const QUOTE: Unit := 34
  const COMMA: Unit := 44
  const COLON: Unit := 58
  const BACKSLASH: Unit := 92

  predicate HighSurrogate(u: Unit) {
    0xd800 <= u < 0xdc00
  }

  predicate LowSurrogate(u: Unit) {
    0xdc00 <= u < 0xe000
  }

  function HexDigit(n: int): Unit
    requires 0 <= n < 16
  {
    if n < 10 then 48 + n else 87 + n
  }

  /** A backslash, `u` and four lower-case digits. */
  function HexEscape(u: Unit): (text: Text)
    ensures |text| == 6 && text[0] == BACKSLASH && text[1] == 117
  {
    [BACKSLASH, 117, HexDigit(u / 0x1000), HexDigit(u / 0x100 % 16), HexDigit(u / 16 % 16), HexDigit(u % 16)]
  }

  /** The letter of a two-unit escape, or 0. */
  function ShortEscape(u: Unit): (letter: Unit)
    ensures letter != 117
  {
    match u
    case 34 => 34
    case 92 => 92
    case 8 => 98
    case 12 => 102
    case 10 => 110
    case 13 => 114
    case 9 => 116
    case _ => 0
  }

  function EscapeUnit(u: Unit): (text: Text)
    ensures text != []
  {
    if ShortEscape(u) != 0 then [BACKSLASH, ShortEscape(u)]
    else if u < 32 || HighSurrogate(u) || LowSurrogate(u) then HexEscape(u)
    else [u]
  }

  /** How many units the next token covers: two for a surrogate pair, else one. */
  function Span(units: Text): (n: nat)
    requires units != []
    ensures 1 <= n <= |units|
  {
    if |units| >= 2 && HighSurrogate(units[0]) && LowSurrogate(units[1]) then 2 else 1
  }

  /** The text of the next token: a surrogate pair stands as it is, a lone surrogate is escaped. */
  function Token(units: Text): (text: Text)
    requires units != []
    ensures text != []
  {
    if Span(units) == 2 then units[..2] else EscapeUnit(units[0])
  }

  function Escape(units: Text): Text {
    if units == [] then [] else Token(units) + Escape(units[Span(units)..])
  }

  function Quote(units: Text): Text {
    [QUOTE] + Escape(units) + [QUOTE]
  }

  // ---------------------------------------------------------------- tokens can be told apart

  /** The length of a token shows in its first two units. */
  function TokenLength(text: Text): nat
    requires text != []
  {
    if text[0] == BACKSLASH then (if |text| >= 2 && text[1] == 117 then 6 else 2)
    else if HighSurrogate(text[0]) then 2 else 1
  }

  lemma TokenShowsItsLength(units: Text, rest: Text)
    requires units != []
    ensures TokenLength(Token(units) + rest) == |Token(units)|
    ensures Token(units)[0] != QUOTE
  {
  }

  lemma HexDigitInjective(a: int, b: int)
    requires 0 <= a < 16 && 0 <= b < 16 && HexDigit(a) == HexDigit(b)
    ensures a == b
  {
  }

  lemma HexEscapeInjective(u: Unit, v: Unit)
    requires HexEscape(u) == HexEscape(v)
    ensures u == v
  {
    var a, b := HexEscape(u), HexEscape(v);
    assert a[2] == b[2] && a[3] == b[3] && a[4] == b[4] && a[5] == b[5];
    HexDigitInjective(u / 0x1000, v / 0x1000);
    HexDigitInjective(u / 0x100 % 16, v / 0x100 % 16);
    HexDigitInjective(u / 16 % 16, v / 16 % 16);
    HexDigitInjective(u % 16, v % 16);
    SplitUnit(u);
    SplitUnit(v);
  }

  lemma SplitUnit(u: Unit)
    ensures u == u / 0x1000 * 0x1000 + u / 0x100 % 16 * 0x100 + u / 16 % 16 * 16 + u % 16
  {
    assert u / 16 / 16 == u / 0x100;
    assert u / 0x100 / 16 == u / 0x1000;
  }

  lemma ShortEscapeInjective(u: Unit, v: Unit)
    requires ShortEscape(u) == ShortEscape(v) != 0
    ensures u == v
  {
  }

  /** A token shows the units it covers. */
  lemma TokenInjective(a: Text, b: Text)
    requires a != [] && b != [] && Token(a) == Token(b)
    ensures Span(a) == Span(b) && a[..Span(a)] == b[..Span(b)]
  {
    hide HexEscape, ShortEscape;
    var s, t := Token(a), Token(b);
    assert s[0] == t[0];
    if s[0] == BACKSLASH {
      TokenOfEscape(a);
      TokenOfEscape(b);
      if |s| == 2 {
        assert s[1] == t[1];
        ShortEscapeInjective(a[0], b[0]);
      } else {
        HexEscapeInjective(a[0], b[0]);
      }
    } else {
      TokenOfRaw(a);
      TokenOfRaw(b);
    }
  }

  lemma TokenOfEscape(a: Text)
    requires a != [] && Token(a)[0] == BACKSLASH
    ensures Span(a) == 1
    ensures if ShortEscape(a[0]) != 0 then Token(a) == [BACKSLASH, ShortEscape(a[0])] else Token(a) == HexEscape(a[0])
  {
  }

  lemma TokenOfRaw(a: Text)
    requires a != [] && Token(a)[0] != BACKSLASH
    ensures |Token(a)| == Span(a) && Token(a) == a[..Span(a)]
  {
  }

  /** Reading an escaped string up to its closing quote gives back the string and what follows. */
  lemma {:induction false} EscapeReadsBack(a: Text, b: Text, r: Text, s: Text)
    requires Escape(a) + ([QUOTE] + r) == Escape(b) + ([QUOTE] + s)
    ensures a == b && r == s
    decreases |a| + |b|
  {
    hide Token, Span, TokenLength;
    if a == [] || b == [] {
      EmptyReadsBack(a, b, r, s);
    } else {
      var x, y := Escape(a[Span(a)..]) + ([QUOTE] + r), Escape(b[Span(b)..]) + ([QUOTE] + s);
      assert Escape(a) + ([QUOTE] + r) == Token(a) + x;
      assert Escape(b) + ([QUOTE] + s) == Token(b) + y;
      TokenShowsItsLength(a, x);
      TokenShowsItsLength(b, y);
      PrefixesEqual(Token(a), x, Token(b), y);
      TokenInjective(a, b);
      EscapeReadsBack(a[Span(a)..], b[Span(b)..], r, s);
      assert a == a[..Span(a)] + a[Span(a)..];
      assert b == b[..Span(b)] + b[Span(b)..];
    }
  }

  lemma QuoteEndsTheString(a: Text, r: Text)
    ensures (Escape(a) + ([QUOTE] + r))[0] == QUOTE <==> a == []
  {
    hide Token;
    if a != [] {
      TokenShowsItsLength(a, []);
    }
  }

  lemma EmptyReadsBack(a: Text, b: Text, r: Text, s: Text)
    requires a == [] || b == []
    requires Escape(a) + ([QUOTE] + r) == Escape(b) + ([QUOTE] + s)
    ensures a == b && r == s
  {
    QuoteEndsTheString(a, r);
    QuoteEndsTheString(b, s);
    assert Escape(a) + ([QUOTE] + r) == [QUOTE] + r && Escape(b) + ([QUOTE] + s) == [QUOTE] + s;
    PrefixesEqual([QUOTE], r, [QUOTE], s);
  }

  lemma PrefixesEqual(a: Text, x: Text, b: Text, y: Text)
    requires a + x == b + y && |a| == |b|
    ensures a == b && x == y
  {
    assert a == (a + x)[..|a|] && b == (b + y)[..|b|];
    assert x == (a + x)[|a|..] && y == (b + y)[|b|..];
  }

  /** Two quoted strings that start the same text are the same string. */
  lemma QuoteReadsBack(a: Text, b: Text, r: Text, s: Text)
    requires Quote(a) + r == Quote(b) + s
    ensures a == b && r == s
  {
    var x, y := Escape(a) + ([QUOTE] + r), Escape(b) + ([QUOTE] + s);
    assert Quote(a) + r == [QUOTE] + x && Quote(b) + s == [QUOTE] + y;
    PrefixesEqual([QUOTE], x, [QUOTE], y);
    EscapeReadsBack(a, b, r, s);
  }
}
