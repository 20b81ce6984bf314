/**
 A parser that reads the local record encoding back (src/data-os/local-json.ts).
 */
module LocalJsonDecoder {
  import JsonKeys
  import opened JsonText
  import opened Ordering
  import opened LocalJson

  /* ---- Sorting the fields of an object keeps what it means ---- */

  lemma {:induction false} InsertMeaning(x: Field, s: seq<Field>)
    requires forall f | f in s :: f.name != x.name
    ensures FieldsMeaning(Insert(ByName, x, s)) == map[x.name := MeaningOf(x.value)] + FieldsMeaning(s)
  {
    hide ByName, MeaningOf;
    if s == [] || ByName(x, s[0]) <= 0 {
      assert ([x] + s)[1..] == s;
    } else {
      assert s[0] in s;
      assert forall f | f in s[1..] :: f in s;
      InsertMeaning(x, s[1..]);
      var r := Insert(ByName, x, s);
      assert r[0] == s[0] && r[1..] == Insert(ByName, x, s[1..]);
      OtherNamesCommute(x.name, MeaningOf(x.value), s[0].name, MeaningOf(s[0].value), FieldsMeaning(s[1..]));
    }
  }

  lemma OtherNamesCommute(n: Text, x: Meaning, k: Text, y: Meaning, m: map<Text, Meaning>)
    requires n != k
    ensures map[k := y] + (map[n := x] + m) == map[n := x] + (map[k := y] + m)
  {
  }

  lemma {:induction false} SortKeepsMeaning(fields: seq<Field>)
    requires DistinctNames(fields)
    ensures FieldsMeaning(Sort(ByName, fields)) == FieldsMeaning(fields)
  {
    hide ByName, MeaningOf;
    if fields != [] {
      SortKeepsMeaning(fields[1..]);
      SortKeepsFields(fields[1..]);
      InsertMeaning(fields[0], Sort(ByName, fields[1..]));
    }
  }

  lemma {:induction false} NamesOf(fields: seq<Field>)
    ensures forall n :: n in FieldsMeaning(fields) <==> exists f | f in fields :: f.name == n
  {
    hide MeaningOf;
    if fields != [] {
      assert fields == [fields[0]] + fields[1..];
      NamesOf(fields[1..]);
    }
  }

  /* ---- The decoder: a left inverse ---- */

  datatype Parsed<T> = Failed | Parsed(value: T, rest: Text)

  predicate NumberUnit(u: Unit) { 0x30 <= u <= 0x39 || u == 0x2D || u == 0x2B || u == 0x2E || u == 0x65 || u == 0x45 }

  function RunLength(text: Text): (n: nat)
    ensures n <= |text|
  {
    if text == [] || !NumberUnit(text[0]) then 0 else 1 + RunLength(text[1..])
  }

  ghost function ReadNumber(show: Printer, token: Text): (d: Double)
    ensures (exists e :: Finite(e) && Shown(show, e) == token) ==> Finite(d) && Shown(show, d) == token
  {
    if e :| Finite(e) && Shown(show, e) == token then e else Double(0, 0)
  }

  /** Reads one value from the front of a text. */
  ghost function Parse(show: Printer, text: Text): (p: Parsed<Meaning>)
    ensures p.Parsed? ==> |p.rest| < |text|
    decreases |text|, 0
  {
    if text == [] then Failed
    else if text[0] == QUOTE then
      var s := ParseString(text);
      if s.Failed? then Failed else Parsed(Words(s.value), s.rest)
    else if text[0] == OPEN_BRACKET then
      if |text| >= 2 && text[1] == CLOSE_BRACKET then Parsed(List([]), text[2..])
      else
        var p := ParseItems(show, text[1..]);
        if p.Failed? then Failed else Parsed(List(p.value), p.rest)
    else if text[0] == OPEN_BRACE then
      if |text| >= 2 && text[1] == CLOSE_BRACE then Parsed(Record(map[]), text[2..])
      else
        var p := ParseFields(show, text[1..]);
        if p.Failed? then Failed else Parsed(Record(p.value), p.rest)
    else if NULL <= text then Parsed(NullMeaning, text[|NULL|..])
    else if TRUE <= text then Parsed(Truth(true), text[|TRUE|..])
    else if FALSE <= text then Parsed(Truth(false), text[|FALSE|..])
    else
      var n := RunLength(text);
      if n == 0 then Failed else Parsed(Quantity(ReadNumber(show, text[..n])), text[n..])
  }

  ghost function ParseString(text: Text): (p: Parsed<Text>)
    ensures p.Parsed? ==> |p.rest| < |text|
  {
    if text == [] || text[0] != QUOTE then Failed
    else
      var n := BodyLength(text[1..]);
      if n + 2 > |text| then Failed else Parsed(DecodeBody(text[1..n + 1]), text[n + 2..])
  }

  ghost function ParseItems(show: Printer, text: Text): (p: Parsed<seq<Meaning>>)
    ensures p.Parsed? ==> |p.rest| < |text|
    decreases |text|, 1
  {
    var first := Parse(show, text);
    if first.Failed? || first.rest == [] then Failed
    else if first.rest[0] == CLOSE_BRACKET then Parsed([first.value], first.rest[1..])
    else
      var others := ParseItems(show, first.rest[1..]);
      if others.Failed? then Failed else Parsed([first.value] + others.value, others.rest)
  }

  ghost function ParseFields(show: Printer, text: Text): (p: Parsed<map<Text, Meaning>>)
    ensures p.Parsed? ==> |p.rest| < |text|
    decreases |text|, 1
  {
    var name := ParseString(text);
    if name.Failed? || name.rest == [] then Failed
    else
      var first := Parse(show, name.rest[1..]);
      if first.Failed? || first.rest == [] then Failed
      else if first.rest[0] == CLOSE_BRACE then Parsed(map[name.value := first.value], first.rest[1..])
      else
        var others := ParseFields(show, first.rest[1..]);
        if others.Failed? then Failed
        else Parsed(map[name.value := first.value] + others.value, others.rest)
  }

  ghost function Decode(show: Printer, text: Text): Meaning {
    var p := Parse(show, text);
    if p.Failed? || p.rest != [] then NoMeaning else p.value
  }

  /** Nothing after a value continues a number. */
  predicate Ends(rest: Text) { rest == [] || !NumberUnit(rest[0]) }

  lemma StringParses(s: Text, rest: Text)
    ensures ParseString(Literal(Quoted(s)) + rest) == Parsed(s, rest)
  {
    hide Quoted, Decoded, CharsOk, DecodeBody, BodyLength;
    var cs := Quoted(s);
    var text := Literal(cs) + rest;
    QuotedDecodes(s);
    DecodeBodyDecodes(cs);
    assert text[1..] == Body(cs) + [QUOTE] + rest;
    BodyEndsAtQuote(cs, rest);
    assert text[1..|Body(cs)| + 1] == Body(cs);
    assert text[|Body(cs)| + 2..] == rest;
  }

  lemma {:induction false} RunOf(token: Text, rest: Text)
    requires (forall u | u in token :: NumberUnit(u)) && Ends(rest)
    ensures RunLength(token + rest) == |token|
  {
    if token == [] {
      assert token + rest == rest;
    } else {
      assert token[0] in token;
      assert forall u | u in token[1..] :: u in token;
      assert (token + rest)[1..] == token[1..] + rest;
      RunOf(token[1..], rest);
    }
  }

  lemma NumberTextUnits(n: JsonKeys.Number)
    requires JsonKeys.NumberOk(n)
    ensures JsonKeys.NumberText(n) != []
    ensures forall u | u in JsonKeys.NumberText(n) :: NumberUnit(u)
    ensures var first := JsonKeys.NumberText(n)[0]; first == 0x2D || 0x30 <= first <= 0x39
  {
    assert n.whole[0] in n.whole;
  }

  lemma NumberParses(show: Printer, d: Double, rest: Text)
    requires Faithful(show) && Finite(d) && Ends(rest)
    ensures Parse(show, Shown(show, d) + rest) == Parsed(Quantity(d), rest)
  {
    hide RunLength, Finite, JsonKeys.NumberOk, JsonKeys.NumberText;
    var token := Shown(show, d);
    assert JsonKeys.NumberOk(show(d));
    NumberTextUnits(show(d));
    RunOf(token, rest);
    var text := token + rest;
    assert text[0] == token[0];
    assert text[..|token|] == token && text[|token|..] == rest;
    assert ReadNumber(show, token) == d;
  }

  /** A value's encoding, followed by anything that ends it, reads back as the value's meaning. */
  lemma {:induction false} EncodingParses(show: Printer, v: Json, depth: nat, rest: Text)
    requires Faithful(show) && WellFormed(v) && Encode(show, v, depth).Encoded? && Ends(rest)
    ensures Parse(show, Encode(show, v, depth).text + rest) == Parsed(MeaningOf(v), rest)
    decreases if depth > MAX_DEPTH then 0 else MAX_DEPTH + 1 - depth, 1
  {
    hide Faithful, RunLength, ParseString, Ends, Sort, JsonKeys.NumberText, JsonKeys.NumberOk, Quoted, Finite;
    var text := Encode(show, v, depth).text + rest;
    match v
    case Num(d) => NumberParses(show, d, rest);
    case Str(s) =>
      StringParses(s, rest);
      assert text[0] == QUOTE;
    case Arr(items) =>
      ArrayParses(show, items, depth, rest);
    case Obj(fields) =>
      ObjectParses(show, fields, depth, rest);
    case Null =>
      assert text[..|NULL|] == NULL && text[|NULL|..] == rest;
    case Bool(b) =>
      var word := if b then TRUE else FALSE;
      assert text[..|word|] == word && text[|word|..] == rest;
      assert text[0] == word[0] && NULL[0] == 0x6E && TRUE[0] == 0x74 && FALSE[0] == 0x66;
    case Foreign =>
  }

  lemma {:induction false} ArrayParses(show: Printer, items: seq<Json>, depth: nat, rest: Text)
    requires Faithful(show) && (forall i | i in items :: WellFormed(i)) && depth <= MAX_DEPTH
    requires EncodeItems(show, items, depth + 1).Encoded?
    ensures Parse(show, [OPEN_BRACKET] + EncodeItems(show, items, depth + 1).text + [CLOSE_BRACKET] + rest)
      == Parsed(List(ItemsMeaning(items)), rest)
    decreases MAX_DEPTH + 1 - depth, 0
  {
    hide Faithful, RunLength, ParseString, Ends, WellFormed, MeaningOf, Encode;
    var inner := EncodeItems(show, items, depth + 1).text;
    var text := [OPEN_BRACKET] + inner + [CLOSE_BRACKET] + rest;
    if items == [] {
      assert text[1] == CLOSE_BRACKET && text[2..] == rest;
    } else {
      assert text[1..] == inner + ([CLOSE_BRACKET] + rest);
      ItemsParse(show, items, depth + 1, rest);
    }
  }

  lemma {:induction false} ItemsParse(show: Printer, items: seq<Json>, depth: nat, rest: Text)
    requires Faithful(show) && (forall i | i in items :: WellFormed(i)) && items != []
    requires EncodeItems(show, items, depth).Encoded?
    ensures var text := EncodeItems(show, items, depth).text + ([CLOSE_BRACKET] + rest);
      text[0] != CLOSE_BRACKET && ParseItems(show, text) == Parsed(ItemsMeaning(items), rest)
    decreases if depth > MAX_DEPTH then 0 else MAX_DEPTH + 1 - depth, 1 + |items|
  {
    hide Faithful, RunLength, ParseString, WellFormed, MeaningOf, Encode, Parse;
    var close := [CLOSE_BRACKET] + rest;
    var first := Encode(show, items[0], depth).text;
    var tail := (if |items| == 1 then [] else [COMMA] + EncodeItems(show, items[1..], depth).text) + close;
    var text := EncodeItems(show, items, depth).text + close;
    assert items[0] in items;
    assert text == first + tail && text[0] == first[0] by { FirstUnit(show, items[0], depth); }
    EncodingParses(show, items[0], depth, tail);
    FirstUnit(show, items[0], depth);
    if |items| == 1 {
      assert tail == close && tail[0] == CLOSE_BRACKET && tail[1..] == rest;
      assert items[1..] == [];
      assert ItemsMeaning(items) == [MeaningOf(items[0])];
      assert ParseItems(show, first + tail) == Parsed(ItemsMeaning(items), rest);
    } else {
      assert tail[0] == COMMA;
      assert forall i | i in items[1..] :: i in items;
      assert tail[1..] == EncodeItems(show, items[1..], depth).text + close;
      ItemsParse(show, items[1..], depth, rest);
    }
  }

  lemma FirstUnit(show: Printer, v: Json, depth: nat)
    requires Faithful(show) && WellFormed(v) && Encode(show, v, depth).Encoded?
    ensures var t := Encode(show, v, depth).text; t != [] && t[0] != CLOSE_BRACKET && t[0] != CLOSE_BRACE
  {
    hide Sort, EncodeItems, EncodeFields, Quoted, JsonKeys.NumberOk, JsonKeys.NumberText, Finite;
    if v.Num? {
      assert JsonKeys.NumberOk(show(v.number));
      NumberTextUnits(show(v.number));
    }
  }

  lemma {:induction false} ObjectParses(show: Printer, fields: seq<Field>, depth: nat, rest: Text)
    requires Faithful(show) && WellFormed(Obj(fields)) && depth <= MAX_DEPTH
    requires EncodeFields(show, Sort(ByName, fields), depth + 1).Encoded?
    ensures Parse(show, [OPEN_BRACE] + EncodeFields(show, Sort(ByName, fields), depth + 1).text + [CLOSE_BRACE] + rest)
      == Parsed(Record(FieldsMeaning(fields)), rest)
    decreases MAX_DEPTH + 1 - depth, 0
  {
    hide Faithful, RunLength, Parse, ParseString, ParseFields, ParseItems, MeaningOf, Encode, Sort, FieldsMeaning,
      ByName;
    var sorted := Sort(ByName, fields);
    SortKeepsFields(fields);
    SortKeepsMeaning(fields);
    if sorted == [] {
      NoFields();
    } else {
      FieldsParse(show, sorted, depth + 1, rest);
    }
    BracesParse(show, EncodeFields(show, sorted, depth + 1).text, rest);
  }

  /** What stands between braces is read as fields. */
  lemma BracesParse(show: Printer, inner: Text, rest: Text)
    ensures var text := [OPEN_BRACE] + inner + [CLOSE_BRACE] + rest;
      Parse(show, text) ==
        if inner == [] then Parsed(Record(map[]), rest)
        else if inner[0] == CLOSE_BRACE then Parsed(Record(map[]), inner[1..] + ([CLOSE_BRACE] + rest))
        else
          var p := ParseFields(show, inner + ([CLOSE_BRACE] + rest));
          if p.Failed? then Failed else Parsed(Record(p.value), p.rest)
  {
    hide ParseString, ParseFields, ParseItems, RunLength, ReadNumber;
    var text := [OPEN_BRACE] + inner + [CLOSE_BRACE] + rest;
    assert text[1..] == inner + ([CLOSE_BRACE] + rest);
    if inner == [] {
      assert text[2..] == rest;
    } else {
      assert text[2..] == inner[1..] + ([CLOSE_BRACE] + rest);
    }
  }

  lemma OneField(fields: seq<Field>)
    requires |fields| == 1
    ensures FieldsMeaning(fields) == map[fields[0].name := MeaningOf(fields[0].value)]
  {
    hide MeaningOf;
    assert fields[1..] == [];
  }

  lemma NoFields()
    ensures FieldsMeaning([]) == map[]
  {
  }

  lemma {:induction false} FieldsParse(show: Printer, fields: seq<Field>, depth: nat, rest: Text)
    requires Faithful(show) && (forall f | f in fields :: WellFormed(f.value)) && fields != []
    requires EncodeFields(show, fields, depth).Encoded?
    ensures var text := EncodeFields(show, fields, depth).text + ([CLOSE_BRACE] + rest);
      text[0] != CLOSE_BRACE && ParseFields(show, text) == Parsed(FieldsMeaning(fields), rest)
    decreases if depth > MAX_DEPTH then 0 else MAX_DEPTH + 1 - depth, 1 + |fields|
  {
    hide Faithful, RunLength, ParseFields, WellFormed, MeaningOf, Encode, Parse, Quoted, Literal, FieldsMeaning;
    var close := [CLOSE_BRACE] + rest;
    var name := Literal(Quoted(fields[0].name));
    var first := Encode(show, fields[0].value, depth).text;
    var tail := (if |fields| == 1 then [] else [COMMA] + EncodeFields(show, fields[1..], depth).text) + close;
    var text := EncodeFields(show, fields, depth).text + close;
    assert fields[0] in fields;
    assert text == name + ([COLON] + (first + tail)) && name[0] == QUOTE by { LiteralStarts(Quoted(fields[0].name)); }
    EncodingParses(show, fields[0].value, depth, tail);
    FieldParses(show, fields[0].name, first, MeaningOf(fields[0].value), tail);
    if |fields| == 1 {
      assert tail == close && tail[1..] == rest;
      OneField(fields);
    } else {
      assert forall f | f in fields[1..] :: f in fields;
      assert tail[1..] == EncodeFields(show, fields[1..], depth).text + close;
      FieldsParse(show, fields[1..], depth, rest);
      SeveralFields(fields);
    }
  }

  lemma LiteralStarts(cs: seq<Char>)
    ensures Literal(cs) != [] && Literal(cs)[0] == QUOTE
  {
  }

  /** One field and what follows it. */
  lemma FieldParses(show: Printer, name: Text, first: Text, value: Meaning, tail: Text)
    requires tail != [] && Parse(show, first + tail) == Parsed(value, tail)
    ensures var text := Literal(Quoted(name)) + ([COLON] + (first + tail));
      ParseFields(show, text) ==
        if tail[0] == CLOSE_BRACE then Parsed(map[name := value], tail[1..])
        else
          var others := ParseFields(show, tail[1..]);
          if others.Failed? then Failed else Parsed(map[name := value] + others.value, others.rest)
  {
    hide Parse, ParseString, Quoted, Literal;
    StringParses(name, [COLON] + (first + tail));
    assert ([COLON] + (first + tail))[1..] == first + tail;
  }

  lemma SeveralFields(fields: seq<Field>)
    requires |fields| > 1
    ensures FieldsMeaning(fields) == map[fields[0].name := MeaningOf(fields[0].value)] + FieldsMeaning(fields[1..])
  {
  }
}
