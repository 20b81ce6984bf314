/**
 JSON text as UTF-16 code units: string literals and what they decode to (RFC 8259 section 7).
 */
module JsonText {
  type Unit = u: int | 0 <= u < 0x10000
  type Text = seq<Unit>

  const QUOTE: Unit := 0x22
  const COMMA: Unit := 0x2C
  const COLON: Unit := 0x3A
  const OPEN_BRACKET: Unit := 0x5B
  const BACKSLASH: Unit := 0x5C
  const CLOSE_BRACKET: Unit := 0x5D
  const OPEN_BRACE: Unit := 0x7B
  const CLOSE_BRACE: Unit := 0x7D
  const SMALL_U: Unit := 0x75

  predicate Structural(u: Unit) {
    u == OPEN_BRACE || u == CLOSE_BRACE || u == OPEN_BRACKET || u == CLOSE_BRACKET || u == COMMA || u == QUOTE
  }

  /** The two-character escapes: the letter after the backslash, and the unit it stands for. */
  function ShortEscape(letter: Unit): int {
    if letter == QUOTE || letter == BACKSLASH || letter == 0x2F then letter
    else if letter == 0x62 then 0x08
    else if letter == 0x66 then 0x0C
    else if letter == 0x6E then 0x0A
    else if letter == 0x72 then 0x0D
    else if letter == 0x74 then 0x09
    else -1
  }

  function HexValue(u: Unit): int {
    if 0x30 <= u <= 0x39 then u - 0x30
    else if 0x61 <= u <= 0x66 then u - 0x61 + 10
    else if 0x41 <= u <= 0x46 then u - 0x41 + 10
    else -1
  }

  predicate FourHex(h: Text) { |h| == 4 && forall d | d in h :: HexValue(d) >= 0 }

  function HexUnit(h: Text): Unit
    requires FourHex(h)
  {
    assert HexValue(h[0]) <= 15 && HexValue(h[1]) <= 15 && HexValue(h[2]) <= 15 && HexValue(h[3]) <= 15;
    assert h[0] in h && h[1] in h && h[2] in h && h[3] in h;
    ((HexValue(h[0]) * 16 + HexValue(h[1])) * 16 + HexValue(h[2])) * 16 + HexValue(h[3])
  }

  /** One character of a string literal, as the grammar derives it. */
  datatype Char = Plain(unit: Unit) | Escaped(letter: Unit) | Hex(digits: Text)

  predicate CharOk(c: Char) {
    match c
    case Plain(u) => u >= 0x20 && u != QUOTE && u != BACKSLASH
    case Escaped(letter) => ShortEscape(letter) >= 0
    case Hex(h) => FourHex(h)
  }

  predicate CharsOk(cs: seq<Char>) { forall c | c in cs :: CharOk(c) }

  function CharText(c: Char): Text {
    match c
    case Plain(u) => [u]
    case Escaped(letter) => [BACKSLASH, letter]
    case Hex(h) => [BACKSLASH, SMALL_U] + h
  }

  function CharUnit(c: Char): Unit
    requires CharOk(c)
  {
    match c
    case Plain(u) => u
    case Escaped(letter) => ShortEscape(letter)
    case Hex(h) => HexUnit(h)
  }

  function Body(cs: seq<Char>): Text {
    if cs == [] then [] else CharText(cs[0]) + Body(cs[1..])
  }

  function Literal(cs: seq<Char>): Text { [QUOTE] + Body(cs) + [QUOTE] }

  /** The string a literal names. */
  function Decoded(cs: seq<Char>): Text
    requires CharsOk(cs)
  {
    if cs == [] then [] else [CharUnit(cs[0])] + Decoded(cs[1..])
  }

  /** Decoding a literal's body from its text alone. */
  function DecodeBody(body: Text): Text {
    if body == [] then []
    else if body[0] != BACKSLASH then [body[0]] + DecodeBody(body[1..])
    else if |body| >= 6 && body[1] == SMALL_U && FourHex(body[2..6]) then [HexUnit(body[2..6])] + DecodeBody(body[6..])
    else if |body| >= 2 && ShortEscape(body[1]) >= 0 then [ShortEscape(body[1]) as Unit] + DecodeBody(body[2..])
    else []
  }

  lemma DecodeChar(c: Char, tail: Text)
    requires CharOk(c)
    ensures DecodeBody(CharText(c) + tail) == [CharUnit(c)] + DecodeBody(tail)
  {
    var text := CharText(c) + tail;
    match c
    case Plain(u) =>
      assert text[1..] == tail;
    case Escaped(letter) =>
      assert text[2..] == tail;
    case Hex(h) =>
      assert text[2..6] == h && text[6..] == tail;
  }

  lemma {:induction false} DecodeBodyDecodes(cs: seq<Char>)
    requires CharsOk(cs)
    ensures DecodeBody(Body(cs)) == Decoded(cs)
  {
    if cs != [] {
      assert CharOk(cs[0]);
      DecodeBodyDecodes(cs[1..]);
      DecodeChar(cs[0], Body(cs[1..]));
    }
  }

  /** How far it is to the closing quote of a literal, skipping escaped units; past the end, after a last backslash. */
  function BodyLength(text: Text): nat {
    if text == [] || text[0] == QUOTE then 0
    else if text[0] == BACKSLASH then if |text| == 1 then 2 else 2 + BodyLength(text[2..])
    else 1 + BodyLength(text[1..])
  }

  /** The skip ends exactly at the closing quote. */
  lemma {:induction false} BodyEndsAtQuote(cs: seq<Char>, rest: Text)
    requires CharsOk(cs)
    ensures BodyLength(Body(cs) + [QUOTE] + rest) == |Body(cs)|
  {
    if cs != [] {
      var c := cs[0];
      assert c in cs && CharOk(c);
      BodyEndsAtQuote(cs[1..], rest);
      var tail := Body(cs[1..]) + [QUOTE] + rest;
      assert Body(cs) + [QUOTE] + rest == CharText(cs[0]) + tail;
      SkipChar(c, tail);
    }
  }

  lemma SkipChar(c: Char, tail: Text)
    requires CharOk(c)
    ensures BodyLength(CharText(c) + tail) == |CharText(c)| + BodyLength(tail)
  {
    var text := CharText(c) + tail;
    match c
    case Plain(u) =>
      assert text[1..] == tail;
    case Escaped(letter) =>
      assert text[2..] == tail;
    case Hex(h) =>
      assert text[2..] == h + tail;
      SkipPlain(h, tail);
  }

  lemma {:induction false} SkipPlain(h: Text, tail: Text)
    requires forall d | d in h :: d != QUOTE && d != BACKSLASH
    ensures BodyLength(h + tail) == |h| + BodyLength(tail)
  {
    if h == [] {
      assert h + tail == tail;
    } else {
      assert forall d | d in h[1..] :: d in h;
      SkipPlain(h[1..], tail);
      assert (h + tail)[1..] == h[1..] + tail;
      assert h[0] in h;
    }
  }
}
