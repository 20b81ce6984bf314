/**
 The letters of JSON (RFC 8259 sections 2 to 7), against text one can read, and a text whose repeated key does not look
 repeated.
 */
module JsonLetters {
  import opened JsonText
  import opened JsonKeys

  /** The code units of a text of ASCII characters. */
  function Codes(s: string): Text {
    seq(|s|, i requires 0 <= i < |s| => if s[i] as int < 0x80 then s[i] as int else 0)
  }

  lemma PunctuationIsReadable()
    ensures [QUOTE, COMMA, COLON, OPEN_BRACKET, BACKSLASH, CLOSE_BRACKET, OPEN_BRACE, CLOSE_BRACE, SMALL_U]
      == Codes("\",:[\\]{}u")
  {
  }

  lemma WordsAreReadable()
    ensures TextOf(NullValue) == Codes("null") && TextOf(TrueValue) == Codes("true")
    ensures TextOf(FalseValue) == Codes("false")
    ensures NumberText(Number(true, [0x34, 0x32], [0x35], Exponent(0x65, Plus, [0x33]))) == Codes("-42.5e+3")
    ensures NumberText(Number(false, [0x30], [], Exponent(0x45, Minus, [0x37]))) == Codes("0E-7")
  {
  }

  /** The letters after a backslash, and what they stand for: quote, backslash, slash, and the five controls. */
  lemma EscapesAreTheGrammars(u: Unit)
    ensures ShortEscape(u) >= 0 <==> u in Codes("\"\\/bfnrt")
    ensures [ShortEscape(0x62), ShortEscape(0x66), ShortEscape(0x6E), ShortEscape(0x72), ShortEscape(0x74)]
      == [0x08, 0x0C, '\n' as int, '\r' as int, '\t' as int]
    ensures u in Codes("\"\\/") ==> ShortEscape(u) == u
  {
    var c := Codes("\"\\/bfnrt");
    assert c == [0x22, 0x5C, 0x2F, 0x62, 0x66, 0x6E, 0x72, 0x74];
  }

  /** The digits of an escape, in either case, and what borders them. */
  lemma HexDigitsAreTheGrammars()
    ensures [HexValue(0x30), HexValue(0x39), HexValue(0x41), HexValue(0x46), HexValue(0x61), HexValue(0x66)]
      == [0, 9, 10, 15, 10, 15]
    ensures forall u: Unit | u in [0x2F, 0x3A, 0x40, 0x47, 0x60, 0x67] :: HexValue(u) < 0
  {
  }

  /** What may stand unescaped, what is blank and what is a digit, at the edges of each. */
  lemma EdgesAreTheGrammars(u: Unit)
    ensures CharOk(Plain(u)) <==> 0x20 <= u && u !in Codes("\"\\")
    ensures Blank([u]) <==> u in [0x20, 0x09, 0x0A, 0x0D]
    ensures Digits([u]) <==> 0x30 <= u <= 0x39
  {
    assert Codes("\"\\") == [0x22, 0x5C];
    assert forall v | v in [u] :: v == u;
    assert u in [u];
  }

  const SPELLED: seq<Char> := [Plain(0x61)]
  const ESCAPED: seq<Char> := [Hex([0x30, 0x30, 0x36, 0x31])]
  const FIRST := Member([], SPELLED, [], [], NullValue, [])
  const SECOND := Member([], ESCAPED, [], [], TrueValue, [])
  const TWICE := ObjectValue([FIRST, SECOND], [])

  lemma KeysDecodeAlike()
    ensures CharsOk(SPELLED) && CharsOk(ESCAPED) && Decoded(SPELLED) == Decoded(ESCAPED) == [0x61]
  {
    assert FourHex(ESCAPED[0].digits) && HexUnit(ESCAPED[0].digits) == 0x61;
    assert SPELLED[1..] == [] && ESCAPED[1..] == [];
  }

  lemma FirstText()
    ensures MemberText(FIRST) == Codes("\"a\":null")
  {
    assert SPELLED[1..] == [];
    assert Body(SPELLED) == [0x61];
  }

  lemma SecondText()
    ensures MemberText(SECOND) == Codes("\"\\u0061\":true")
  {
    assert ESCAPED[1..] == [];
    assert Body(ESCAPED) == [BACKSLASH, SMALL_U, 0x30, 0x30, 0x36, 0x31];
  }

  lemma TwiceText()
    ensures TextOf(TWICE) == [OPEN_BRACE] + (MemberText(FIRST) + ([COMMA] + MemberText(SECOND))) + [CLOSE_BRACE]
  {
    hide MemberText;
    var members := [FIRST, SECOND];
    assert members[1..] == [SECOND];
    assert MembersText([SECOND]) == MemberText(SECOND);
  }

  /** A key and its escaped spelling are one key: an object that holds both is a duplicate, though no text repeats. */
  lemma EscapedKeyRepeats()
    ensures Ok(TWICE) && HasDuplicate(TWICE)
    ensures TextOf(TWICE) == Codes("{") + (Codes("\"a\":null") + (Codes(",") + Codes("\"\\u0061\":true"))) + Codes("}")
  {
    KeysDecodeAlike();
    TwiceText();
    FirstText();
    SecondText();
    hide TextOf, CharsOk, Decoded, MemberText;
    assert TWICE.members[0] == FIRST && TWICE.members[1] == SECOND;
    assert Codes("{") == [OPEN_BRACE] && Codes(",") == [COMMA] && Codes("}") == [CLOSE_BRACE];
  }
}
