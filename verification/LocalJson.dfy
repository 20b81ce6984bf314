/**
 The local record encoding (src/data-os/local-json.ts) that every digest of the repository is taken over:
 plain, finite values at most twenty levels deep, object keys in code unit order.
 */
module LocalJson {
  import opened JsonText
  import opened Ordering
  import BigInts
  import JsonKeys

  /* ---- Values ---- */

  /** A double, as an odd significand times a power of two; zero has one form. */
  datatype Double = Double(significand: int, exponent: int)

  /** At most 53 bits of significand, nothing below the least subnormal, and less than 2 to the power 1024. */
  predicate Finite(d: Double) {
    && (d.significand % 2 == 1 || d == Double(0, 0))
    && -1074 <= d.exponent < 1024
    && Absolute(d.significand) < BigInts.Pow2(53) && Absolute(d.significand) < BigInts.Pow2(1024 - d.exponent)
  }

  function Absolute(n: int): nat { if n < 0 then -n else n }

  /** What the encoder may be handed. Foreign stands for everything it refuses: undefined, a function, NaN, a Date. */
  datatype Json =
    | Null
    | Bool(b: bool)
    | Num(number: Double)
    | Str(text: Text)
    | Arr(items: seq<Json>)
    | Obj(fields: seq<Field>)
    | Foreign
  datatype Field = Field(name: Text, value: Json)

  /** A value of the language: finite numbers, and no object holding two fields under one name. */
  ghost predicate WellFormed(v: Json) {
    match v
    case Num(d) => Finite(d)
    case Arr(items) => forall i | i in items :: WellFormed(i)
    case Obj(fields) => DistinctNames(fields) && forall f | f in fields :: WellFormed(f.value)
    case _ => true
  }

  ghost predicate DistinctNames(fields: seq<Field>) {
    forall i, j :: 0 <= i < j < |fields| ==> fields[i].name != fields[j].name
  }

  /** What a value means: an object is an unordered map from names to values. */
  datatype Meaning =
    | NullMeaning
    | Truth(b: bool)
    | Quantity(number: Double)
    | Words(text: Text)
    | List(items: seq<Meaning>)
    | Record(fields: map<Text, Meaning>)
    | NoMeaning

  function MeaningOf(v: Json): Meaning {
    match v
    case Null => NullMeaning
    case Bool(b) => Truth(b)
    case Num(d) => Quantity(d)
    case Str(t) => Words(t)
    case Arr(items) => List(ItemsMeaning(items))
    case Obj(fields) => Record(FieldsMeaning(fields))
    case Foreign => NoMeaning
  }

  function ItemsMeaning(items: seq<Json>): seq<Meaning>
    decreases items
  {
    if items == [] then [] else [MeaningOf(items[0])] + ItemsMeaning(items[1..])
  }

  function FieldsMeaning(fields: seq<Field>): map<Text, Meaning>
    decreases fields
  {
    if fields == [] then map[] else map[fields[0].name := MeaningOf(fields[0].value)] + FieldsMeaning(fields[1..])
  }

  /* ---- The encoder ---- */

  const MAX_DEPTH := 20
  const NULL: Text := [0x6E, 0x75, 0x6C, 0x6C]
  const TRUE: Text := [0x74, 0x72, 0x75, 0x65]
  const FALSE: Text := [0x66, 0x61, 0x6C, 0x73, 0x65]

  datatype Refusal = TooDeep | NotPlain
  datatype Encoding = Encoded(text: Text) | Refused(why: Refusal)

  function CompareUnit(a: Unit, b: Unit): int { a - b }

  function ByName(a: Field, b: Field): int { Lex(CompareUnit, a.name, b.name) }

  predicate Leading(u: Unit) { 0xD800 <= u <= 0xDBFF }

  predicate Trailing(u: Unit) { 0xDC00 <= u <= 0xDFFF }

  function HexDigit(n: int): Unit
    requires 0 <= n < 16
  {
    if n < 10 then 0x30 + n else 0x61 + n - 10
  }

  function HexDigits(u: Unit): Text {
    [HexDigit(u / 0x1000), HexDigit(u / 0x100 % 16), HexDigit(u / 16 % 16), HexDigit(u % 16)]
  }

  /** How JSON.stringify writes one unit that is not part of a surrogate pair. */
  function QuoteUnit(u: Unit): Char {
    if u == QUOTE || u == BACKSLASH then Escaped(u)
    else if u == 0x08 then Escaped(0x62)
    else if u == 0x0C then Escaped(0x66)
    else if u == 0x0A then Escaped(0x6E)
    else if u == 0x0D then Escaped(0x72)
    else if u == 0x09 then Escaped(0x74)
    else if u < 0x20 || Leading(u) || Trailing(u) then Hex(HexDigits(u))
    else Plain(u)
  }

  function Quoted(s: Text): seq<Char> {
    if s == [] then []
    else if |s| >= 2 && Leading(s[0]) && Trailing(s[1]) then [Plain(s[0]), Plain(s[1])] + Quoted(s[2..])
    else [QuoteUnit(s[0])] + Quoted(s[1..])
  }

  /** How numbers are printed: any derivation of the number grammar that keeps finite numbers apart. */
  type Printer = Double -> JsonKeys.Number

  function Shown(show: Printer, d: Double): Text { JsonKeys.NumberText(show(d)) }

  ghost predicate Faithful(show: Printer) {
    && (forall d | Finite(d) :: JsonKeys.NumberOk(show(d)))
    && (forall d, e | Finite(d) && Finite(e) && Shown(show, d) == Shown(show, e) :: d == e)
  }

  function Encode(show: Printer, v: Json, depth: nat): Encoding
    decreases if depth > MAX_DEPTH then 0 else MAX_DEPTH + 1 - depth, 0
  {
    if depth > MAX_DEPTH then Refused(TooDeep)
    else
      match v
      case Null => Encoded(NULL)
      case Bool(b) => Encoded(if b then TRUE else FALSE)
      case Num(d) => Encoded(Shown(show, d))
      case Str(s) => Encoded(Literal(Quoted(s)))
      case Arr(items) =>
        (match EncodeItems(show, items, depth + 1)
         case Encoded(t) => Encoded([OPEN_BRACKET] + t + [CLOSE_BRACKET])
         case Refused(why) => Refused(why))
      case Obj(fields) =>
        (match EncodeFields(show, Sort(ByName, fields), depth + 1)
         case Encoded(t) => Encoded([OPEN_BRACE] + t + [CLOSE_BRACE])
         case Refused(why) => Refused(why))
      case Foreign => Refused(NotPlain)
  }

  function EncodeItems(show: Printer, items: seq<Json>, depth: nat): Encoding
    decreases if depth > MAX_DEPTH then 0 else MAX_DEPTH + 1 - depth, 1 + |items|
  {
    if items == [] then Encoded([])
    else
      var first := Encode(show, items[0], depth);
      if first.Refused? then first
      else
        var others := EncodeItems(show, items[1..], depth);
        if others.Refused? then others
        else Encoded(first.text + (if |items| == 1 then [] else [COMMA] + others.text))
  }

  function EncodeFields(show: Printer, fields: seq<Field>, depth: nat): Encoding
    decreases if depth > MAX_DEPTH then 0 else MAX_DEPTH + 1 - depth, 1 + |fields|
  {
    if fields == [] then Encoded([])
    else
      var first := Encode(show, fields[0].value, depth);
      if first.Refused? then first
      else
        var others := EncodeFields(show, fields[1..], depth);
        if others.Refused? then others
        else
          Encoded(Literal(Quoted(fields[0].name)) + [COLON] + first.text
                  + (if |fields| == 1 then [] else [COMMA] + others.text))
  }

  /* ---- What is refused ---- */

  ghost predicate AllPlain(v: Json) {
    match v
    case Arr(items) => forall i | i in items :: AllPlain(i)
    case Obj(fields) => forall f | f in fields :: AllPlain(f.value)
    case Foreign => false
    case _ => true
  }

  /** Whether no value lies more than n levels inside this one. */
  ghost predicate Within(v: Json, n: int) {
    n >= 0
    && match v
       case Arr(items) => forall i | i in items :: Within(i, n - 1)
       case Obj(fields) => forall f | f in fields :: Within(f.value, n - 1)
       case _ => true
  }

  lemma SortKeepsFields(fields: seq<Field>)
    ensures |Sort(ByName, fields)| == |fields|
    ensures forall f :: f in Sort(ByName, fields) <==> f in fields
  {
    SameElements(Sort(ByName, fields), fields);
  }

  /** Exactly the plain values at most twenty levels deep are encoded, and the refusal says which rule failed. */
  lemma {:induction false} RefusedExactly(show: Printer, v: Json, depth: nat)
    ensures Encode(show, v, depth).Encoded? <==> AllPlain(v) && Within(v, 20 - depth)
    ensures Encode(show, v, depth) == Refused(TooDeep) ==> !Within(v, 20 - depth)
    ensures Encode(show, v, depth) == Refused(NotPlain) ==> !AllPlain(v)
    decreases if depth > MAX_DEPTH then 0 else MAX_DEPTH + 1 - depth, 0
  {
    hide Sort, Quoted, Literal, JsonKeys.NumberText;
    if depth <= MAX_DEPTH {
      match v
      case Arr(items) =>
        ItemsRefusedExactly(show, items, depth + 1);
      case Obj(fields) =>
        SortKeepsFields(fields);
        FieldsRefusedExactly(show, Sort(ByName, fields), depth + 1);
      case _ =>
    }
  }

  lemma {:induction false} ItemsRefusedExactly(show: Printer, items: seq<Json>, depth: nat)
    ensures EncodeItems(show, items, depth).Encoded? <==>
      forall i | i in items :: AllPlain(i) && Within(i, MAX_DEPTH - depth)
    ensures EncodeItems(show, items, depth) == Refused(TooDeep)
      ==> exists i | i in items :: !Within(i, MAX_DEPTH - depth)
    ensures EncodeItems(show, items, depth) == Refused(NotPlain) ==> exists i | i in items :: !AllPlain(i)
    decreases if depth > MAX_DEPTH then 0 else MAX_DEPTH + 1 - depth, 1 + |items|
  {
    hide Encode, AllPlain, Within;
    if items != [] {
      assert items == [items[0]] + items[1..];
      assert items[0] in items && forall i | i in items[1..] :: i in items;
      RefusedExactly(show, items[0], depth);
      ItemsRefusedExactly(show, items[1..], depth);
    }
  }

  lemma {:induction false} FieldsRefusedExactly(show: Printer, fields: seq<Field>, depth: nat)
    ensures EncodeFields(show, fields, depth).Encoded? <==>
      forall f | f in fields :: AllPlain(f.value) && Within(f.value, MAX_DEPTH - depth)
    ensures EncodeFields(show, fields, depth) == Refused(TooDeep) ==>
      exists f | f in fields :: !Within(f.value, MAX_DEPTH - depth)
    ensures EncodeFields(show, fields, depth) == Refused(NotPlain) ==> exists f | f in fields :: !AllPlain(f.value)
    decreases if depth > MAX_DEPTH then 0 else MAX_DEPTH + 1 - depth, 1 + |fields|
  {
    hide Encode, AllPlain, Within, Quoted, Literal;
    if fields != [] {
      assert fields == [fields[0]] + fields[1..];
      assert fields[0] in fields && forall f | f in fields[1..] :: f in fields;
      RefusedExactly(show, fields[0].value, depth);
      FieldsRefusedExactly(show, fields[1..], depth);
    }
  }

  /* ---- Strings ---- */

  lemma HexDigitsDecode(u: Unit)
    ensures FourHex(HexDigits(u)) && HexUnit(HexDigits(u)) == u
  {
    NibblesJoin(u);
    DigitsJoin(u / 0x1000, u / 0x100 % 16, u / 16 % 16, u % 16);
  }

  lemma NibblesJoin(u: Unit)
    ensures ((u / 0x1000 * 16 + u / 0x100 % 16) * 16 + u / 16 % 16) * 16 + u % 16 == u
  {
    var q := u / 16;
    var r := q / 16;
    assert u == 16 * q + u % 16 && q == 16 * r + q % 16 && r == 16 * (u / 0x1000) + u / 0x100 % 16;
  }

  lemma DigitsJoin(a: int, b: int, c: int, d: int)
    requires 0 <= a < 16 && 0 <= b < 16 && 0 <= c < 16 && 0 <= d < 16
    ensures var h := [HexDigit(a), HexDigit(b), HexDigit(c), HexDigit(d)];
      FourHex(h) && HexUnit(h) == ((a * 16 + b) * 16 + c) * 16 + d
  {
    hide HexValue, HexDigit;
    HexDigitValue(a);
    HexDigitValue(b);
    HexDigitValue(c);
    HexDigitValue(d);
  }

  lemma HexDigitValue(n: int)
    requires 0 <= n < 16
    ensures HexValue(HexDigit(n)) == n
  {
  }

  lemma QuoteUnitDecodes(u: Unit)
    ensures CharOk(QuoteUnit(u)) && CharUnit(QuoteUnit(u)) == u
  {
    hide HexDigits, FourHex, HexUnit;
    HexDigitsDecode(u);
  }

  /** Escaping loses nothing: the literal of a string names that string. */
  lemma {:induction false} QuotedDecodes(s: Text)
    ensures CharsOk(Quoted(s)) && Decoded(Quoted(s)) == s
  {
    hide CharOk, CharUnit, QuoteUnit, CharsOk, Decoded;
    if s == [] {
      NothingDecodes();
    } else if |s| >= 2 && Leading(s[0]) && Trailing(s[1]) {
      QuotedDecodes(s[2..]);
      PairDecodes(s[0], s[1], Quoted(s[2..]));
      assert s == [s[0], s[1]] + s[2..];
    } else {
      QuotedDecodes(s[1..]);
      QuoteUnitDecodes(s[0]);
      DecodedCons(QuoteUnit(s[0]), Quoted(s[1..]));
      assert s == [s[0]] + s[1..];
    }
  }

  /** A surrogate pair is written as it is. */
  lemma PairDecodes(u: Unit, v: Unit, tail: seq<Char>)
    requires Leading(u) && Trailing(v) && CharsOk(tail)
    ensures var cs := [Plain(u), Plain(v)] + tail; CharsOk(cs) && Decoded(cs) == [u, v] + Decoded(tail)
  {
    hide CharOk, CharUnit, CharsOk, Decoded, Leading, Trailing;
    PlainSurrogate(u);
    PlainSurrogate(v);
    DecodedCons(Plain(v), tail);
    DecodedCons(Plain(u), [Plain(v)] + tail);
    assert [Plain(u), Plain(v)] + tail == [Plain(u)] + ([Plain(v)] + tail);
  }

  lemma NothingDecodes()
    ensures CharsOk([]) && Decoded([]) == []
  {
  }

  lemma PlainSurrogate(u: Unit)
    requires Leading(u) || Trailing(u)
    ensures CharOk(Plain(u)) && CharUnit(Plain(u)) == u
  {
  }

  lemma DecodedCons(c: Char, cs: seq<Char>)
    requires CharOk(c) && CharsOk(cs)
    ensures CharsOk([c] + cs) && Decoded([c] + cs) == [CharUnit(c)] + Decoded(cs)
  {
    assert ([c] + cs)[1..] == cs;
  }
}
