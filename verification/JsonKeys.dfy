/**
 The duplicate-key scanner (src/data-os/json-keys.ts): one pass with a stack, exact on every JSON text.
 */
module JsonKeys {
  import opened JsonText

  /* ---- The grammar, as derivation trees (RFC 8259 sections 2 to 7) ---- */

  datatype Sign = Unsigned | Plus | Minus
  datatype Exponent = NoExponent | Exponent(mark: Unit, sign: Sign, digits: Text)

  /** A number: an optional minus, an integer part, an optional fraction, an optional exponent. */
  datatype Number = Number(negative: bool, whole: Text, fraction: Text, exponent: Exponent)

  datatype Value =
    | NullValue | TrueValue | FalseValue
    | NumberValue(number: Number)
    | StringValue(chars: seq<Char>)
    | ArrayValue(items: seq<Item>, blank: Text)
    | ObjectValue(members: seq<Member>, blank: Text)
  datatype Item = Item(before: Text, value: Value, after: Text)
  datatype Member = Member(before: Text, key: seq<Char>, beforeColon: Text, afterColon: Text, value: Value, after: Text)

  predicate Digits(t: Text) { t != [] && forall u | u in t :: 0x30 <= u <= 0x39 }

  predicate Blank(t: Text) { forall u | u in t :: u == 0x20 || u == 0x09 || u == 0x0A || u == 0x0D }

  predicate NumberOk(n: Number) {
    && Digits(n.whole) && (|n.whole| > 1 ==> n.whole[0] != 0x30)
    && (n.fraction == [] || Digits(n.fraction))
    && (n.exponent.Exponent? ==> (n.exponent.mark == 0x65 || n.exponent.mark == 0x45) && Digits(n.exponent.digits))
  }

  predicate Framed(m: Member) {
    Blank(m.before) && CharsOk(m.key) && Blank(m.beforeColon) && Blank(m.afterColon) && Blank(m.after)
  }

  ghost predicate Ok(v: Value) {
    match v
    case NumberValue(n) => NumberOk(n)
    case StringValue(cs) => CharsOk(cs)
    case ArrayValue(items, blank) =>
      Blank(blank) && forall i | i in items :: Blank(i.before) && Ok(i.value) && Blank(i.after)
    case ObjectValue(members, blank) =>
      Blank(blank) && forall m | m in members :: Framed(m) && Ok(m.value)
    case _ => true
  }

  ghost predicate AllOk(members: seq<Member>)
    ensures AllOk(members) && members != [] ==>
      members[0] in members && Framed(members[0]) && Ok(members[0].value) && AllOk(members[1..])
  {
    forall m | m in members :: Framed(m) && Ok(m.value)
  }

  function SignText(s: Sign): Text { match s case Unsigned => [] case Plus => [0x2B] case Minus => [0x2D] }

  function NumberText(n: Number): Text {
    (if n.negative then [0x2D] else []) + n.whole + (if n.fraction == [] then [] else [0x2E] + n.fraction)
    + match n.exponent
      case NoExponent => []
      case Exponent(mark, sign, digits) => [mark] + SignText(sign) + digits
  }

  /** The text a derivation yields. */
  function TextOf(v: Value): Text {
    match v
    case NullValue => [0x6E, 0x75, 0x6C, 0x6C]
    case TrueValue => [0x74, 0x72, 0x75, 0x65]
    case FalseValue => [0x66, 0x61, 0x6C, 0x73, 0x65]
    case NumberValue(n) => NumberText(n)
    case StringValue(cs) => Literal(cs)
    case ArrayValue(items, blank) => [OPEN_BRACKET] + (if items == [] then blank else ItemsText(items))
      + [CLOSE_BRACKET]
    case ObjectValue(members, blank) =>
      [OPEN_BRACE] + (if members == [] then blank else MembersText(members)) + [CLOSE_BRACE]
  }

  function ItemsText(items: seq<Item>): Text
    decreases items
  {
    if items == [] then []
    else
      var i := items[0];
      i.before + TextOf(i.value) + i.after + (if |items| == 1 then [] else [COMMA] + ItemsText(items[1..]))
  }

  function MembersText(members: seq<Member>): Text
    decreases members
  {
    if members == [] then []
    else
      MemberText(members[0]) + (if |members| == 1 then [] else [COMMA] + MembersText(members[1..]))
  }

  function MemberText(m: Member): Text {
    m.before + Literal(m.key) + m.beforeColon + [COLON] + m.afterColon + TextOf(m.value) + m.after
  }

  /** A JSON text: a value with blanks around it. */
  ghost predicate IsJson(json: Text, v: Value) {
    Ok(v) && exists before, after :: Blank(before) && Blank(after) && json == before + TextOf(v) + after
  }

  /* ---- The property: some object, at some depth, has two members with one decoded name ---- */

  ghost predicate HasDuplicate(v: Value)
    requires Ok(v)
  {
    match v
    case ArrayValue(items, _) => exists i | i in items :: HasDuplicate(i.value)
    case ObjectValue(members, _) =>
      || (exists i, j :: 0 <= i < j < |members| && Decoded(members[i].key) == Decoded(members[j].key))
      || (exists m | m in members :: HasDuplicate(m.value))
    case _ => false
  }

  /** The verdict is right for whatever value the text is read as. */
  ghost predicate Exact(json: Text, duplicate: bool) {
    forall v :: IsJson(json, v) ==> (duplicate <==> HasDuplicate(v))
  }

  /* ---- The scanner ---- */

  datatype Frame = ArrayFrame | ObjectFrame(keys: set<Text>, expectingKey: bool)

  function Top(stack: seq<Frame>): Frame { if stack == [] then ArrayFrame else stack[|stack| - 1] }

  function SetTop(stack: seq<Frame>, f: Frame): seq<Frame>
    requires stack != []
  {
    stack[..|stack| - 1] + [f]
  }

  function Pop(stack: seq<Frame>): seq<Frame> { if stack == [] then [] else stack[..|stack| - 1] }

  function AfterComma(stack: seq<Frame>): seq<Frame> {
    if stack != [] && Top(stack).ObjectFrame? then SetTop(stack, Top(stack).(expectingKey := true)) else stack
  }

  function Drop(text: Text, n: nat): Text { if n <= |text| then text[n..] else [] }

  function Take(text: Text, n: nat): Text { if n <= |text| then text[..n] else text }

  /** Whether the scan of what is left of the text, with this stack, meets a duplicate. */
  function Scan(text: Text, stack: seq<Frame>): bool
    decreases |text|
  {
    if text == [] then false
    else
      var u, rest := text[0], text[1..];
      if u == OPEN_BRACE then Scan(rest, stack + [ObjectFrame({}, true)])
      else if u == OPEN_BRACKET then Scan(rest, stack + [ArrayFrame])
      else if u == CLOSE_BRACE || u == CLOSE_BRACKET then Scan(rest, Pop(stack))
      else if u == COMMA then Scan(rest, AfterComma(stack))
      else if u == QUOTE then
        var n := BodyLength(rest);
        var after := Drop(rest, n + 1);
        if stack != [] && Top(stack).ObjectFrame? && Top(stack).expectingKey then
          var key := DecodeBody(Take(rest, n));
          if key in Top(stack).keys then true
          else Scan(after, SetTop(stack, ObjectFrame(Top(stack).keys + {key}, false)))
        else Scan(after, stack)
      else Scan(rest, stack)
  }

  /** The one-pass scanner: an index, and a stack whose top frame is updated in place. */
  method RejectDuplicateJsonKeys(json: Text) returns (duplicate: bool)
    ensures Exact(json, duplicate)
    ensures duplicate <==> Scan(json, [])
  {
    ScannerIsExactOn(json);
    hide Scan, Exact, SetTop, Pop, AfterComma, Top, Drop, Take, DecodeBody, BodyLength;
    var stack: seq<Frame> := [];
    var index := 0;
    StartsAndEnds(json);
    while index < |json|
      invariant 0 <= index
      invariant Scan(Drop(json, index), stack) == Scan(json, [])
      decreases |json| - index
    {
      var u := json[index];
      StepAt(json, index, stack);
      if u == OPEN_BRACE {
        stack := stack + [ObjectFrame({}, true)];
      } else if u == OPEN_BRACKET {
        stack := stack + [ArrayFrame];
      } else if u == CLOSE_BRACE || u == CLOSE_BRACKET {
        stack := Pop(stack);
      } else if u == COMMA {
        stack := AfterComma(stack);
      } else if u == QUOTE {
        var start := index;
        index := SkipString(json, index + 1);
        if stack != [] && Top(stack).ObjectFrame? && Top(stack).expectingKey {
          var current := Top(stack);
          var key := DecodeBody(Take(json[start + 1..], index - start - 1));
          if key in current.keys { return true; }
          stack := SetTop(stack, ObjectFrame(current.keys + {key}, false));
        }
      }
      index := index + 1;
    }
    ScanEmpty(stack);
    return false;
  }

  lemma ScanStep(text: Text, stack: seq<Frame>)
    requires text != []
    ensures
      var u, rest := text[0], text[1..];
      if u == OPEN_BRACE then Scan(text, stack) == Scan(rest, stack + [ObjectFrame({}, true)])
      else if u == OPEN_BRACKET then Scan(text, stack) == Scan(rest, stack + [ArrayFrame])
      else if u == CLOSE_BRACE || u == CLOSE_BRACKET then Scan(text, stack) == Scan(rest, Pop(stack))
      else if u == COMMA then Scan(text, stack) == Scan(rest, AfterComma(stack))
      else if u == QUOTE then
        var n := BodyLength(rest);
        var key := DecodeBody(Take(rest, n));
        if stack != [] && Top(stack).ObjectFrame? && Top(stack).expectingKey then
          Scan(text, stack) ==
            (key in Top(stack).keys
             || Scan(Drop(rest, n + 1), SetTop(stack, ObjectFrame(Top(stack).keys + {key}, false))))
        else Scan(text, stack) == Scan(Drop(rest, n + 1), stack)
      else Scan(text, stack) == Scan(rest, stack)
  {
  }

  /** The scan starts with the whole text, and past its end there is nothing left. */
  lemma StartsAndEnds(json: Text)
    ensures Drop(json, 0) == json && forall n: nat | n >= |json| :: Drop(json, n) == []
  {
  }

  /** One step of the scan, from a place in the text. */
  lemma StepAt(json: Text, index: nat, stack: seq<Frame>)
    requires index < |json|
    ensures
      var u, rest := json[index], json[index + 1..];
      var here, next := Scan(Drop(json, index), stack), Drop(json, index + 1);
      if u == OPEN_BRACE then here == Scan(next, stack + [ObjectFrame({}, true)])
      else if u == OPEN_BRACKET then here == Scan(next, stack + [ArrayFrame])
      else if u == CLOSE_BRACE || u == CLOSE_BRACKET then here == Scan(next, Pop(stack))
      else if u == COMMA then here == Scan(next, AfterComma(stack))
      else if u == QUOTE then
        var n := BodyLength(rest);
        var key, after := DecodeBody(Take(rest, n)), Drop(json, index + n + 2);
        if stack != [] && Top(stack).ObjectFrame? && Top(stack).expectingKey then
          here == (key in Top(stack).keys || Scan(after, SetTop(stack, ObjectFrame(Top(stack).keys + {key}, false))))
        else here == Scan(after, stack)
      else here == Scan(next, stack)
  {
    hide Scan, SetTop, Pop, AfterComma, DecodeBody, BodyLength, Top, Take;
    var text := json[index..];
    assert Drop(json, index) == text && text[1..] == json[index + 1..] && Drop(json, index + 1) == text[1..];
    var n := BodyLength(json[index + 1..]);
    assert Drop(text[1..], n + 1) == Drop(json, index + n + 2);
    ScanStep(text, stack);
  }

  /** The inner loop: move to the closing quote, stepping over escaped units. */
  method SkipString(json: Text, from: nat) returns (index: nat)
    requires from <= |json|
    ensures index == from + BodyLength(json[from..])
  {
    index := from;
    while index < |json|
      invariant from <= index <= |json| + 1
      invariant from + BodyLength(json[from..]) == if index <= |json| then index + BodyLength(json[index..]) else index
      decreases |json| - index
    {
      if json[index] == BACKSLASH {
        assert |json[index..]| > 1 ==> json[index..][2..] == json[index + 2..];
        index := index + 1;
      } else if json[index] == QUOTE {
        return;
      } else {
        assert json[index..][1..] == json[index + 1..];
      }
      index := index + 1;
    }
    assert json[|json|..] == [];
  }

  /* ---- Exactness ---- */

  ghost predicate NoStructure(t: Text) { forall u | u in t :: !Structural(u) }

  lemma {:induction false} ScanSkips(t: Text, rest: Text, stack: seq<Frame>)
    requires NoStructure(t)
    ensures Scan(t + rest, stack) == Scan(rest, stack)
  {
    if t == [] {
      assert t + rest == rest;
    } else {
      assert t[0] in t;
      assert (t + rest)[1..] == t[1..] + rest;
      ScanSkips(t[1..], rest, stack);
    }
  }

  lemma NumbersHaveNoStructure(n: Number)
    requires NumberOk(n)
    ensures NoStructure(NumberText(n))
  {
  }

  /** A string literal is one step of the scan. */
  lemma ScanLiteral(cs: seq<Char>, rest: Text, stack: seq<Frame>)
    requires CharsOk(cs)
    ensures
      if stack != [] && Top(stack).ObjectFrame? && Top(stack).expectingKey then
        Scan(Literal(cs) + rest, stack) ==
          (Decoded(cs) in Top(stack).keys
            || Scan(rest, SetTop(stack, ObjectFrame(Top(stack).keys + {Decoded(cs)}, false))))
      else Scan(Literal(cs) + rest, stack) == Scan(rest, stack)
  {
    var text := Literal(cs) + rest;
    assert text[1..] == Body(cs) + [QUOTE] + rest;
    BodyEndsAtQuote(cs, rest);
    assert Drop(text[1..], |Body(cs)| + 1) == rest;
    assert Take(text[1..], |Body(cs)|) == Body(cs);
    DecodeBodyDecodes(cs);
  }

  lemma ScanEmpty(stack: seq<Frame>)
    ensures !Scan([], stack)
  {
  }

  ghost predicate ValuePlace(stack: seq<Frame>) {
    stack == [] || Top(stack).ArrayFrame? || !Top(stack).expectingKey
  }

  /** Scanning a value finds a duplicate inside it, or goes on after it with the stack as it was. */
  lemma {:induction false} ScanValue(v: Value, rest: Text, stack: seq<Frame>)
    requires Ok(v) && ValuePlace(stack)
    ensures Scan(TextOf(v) + rest, stack) <==> HasDuplicate(v) || Scan(rest, stack)
    decreases v
  {
    hide Scan, ItemsText, MembersText, NumberText, Literal, Decoded, NumberOk, CharsOk, DecodeBody;
    match v
    case NumberValue(n) =>
      NumbersHaveNoStructure(n);
      ScanSkips(NumberText(n), rest, stack);
    case StringValue(cs) =>
      ScanLiteral(cs, rest, stack);
    case ArrayValue(items, blank) =>
      ScanArray(items, blank, rest, stack);
    case ObjectValue(members, blank) =>
      ScanObject(members, blank, rest, stack);
    case _ =>
      ScanSkips(TextOf(v), rest, stack);
  }

  lemma {:induction false} ScanArray(items: seq<Item>, blank: Text, rest: Text, stack: seq<Frame>)
    requires Blank(blank) && forall i | i in items :: Blank(i.before) && Ok(i.value) && Blank(i.after)
    ensures Scan(TextOf(ArrayValue(items, blank)) + rest, stack)
      <==> (exists i | i in items :: HasDuplicate(i.value)) || Scan(rest, stack)
    decreases items, 1
  {
    hide Scan, ItemsText, HasDuplicate;
    var inner := if items == [] then blank else ItemsText(items);
    assert TextOf(ArrayValue(items, blank)) + rest == [OPEN_BRACKET] + (inner + ([CLOSE_BRACKET] + rest));
    ScanOpen(OPEN_BRACKET, inner + ([CLOSE_BRACKET] + rest), stack);
    if items == [] {
      ScanSkips(blank, [CLOSE_BRACKET] + rest, stack + [ArrayFrame]);
      ScanClose(CLOSE_BRACKET, rest, stack, ArrayFrame);
    } else {
      ScanItems(items, rest, stack);
    }
  }

  lemma {:induction false} ScanObject(members: seq<Member>, blank: Text, rest: Text, stack: seq<Frame>)
    requires Blank(blank) && AllOk(members)
    ensures Scan(TextOf(ObjectValue(members, blank)) + rest, stack) <==> Repeats({}, members) || Scan(rest, stack)
    decreases members, 1
  {
    hide Scan, MembersText, HasDuplicate, Decoded;
    var inner := if members == [] then blank else MembersText(members);
    assert TextOf(ObjectValue(members, blank)) + rest == [OPEN_BRACE] + (inner + ([CLOSE_BRACE] + rest));
    ScanOpen(OPEN_BRACE, inner + ([CLOSE_BRACE] + rest), stack);
    if members == [] {
      ScanSkips(blank, [CLOSE_BRACE] + rest, stack + [ObjectFrame({}, true)]);
      ScanClose(CLOSE_BRACE, rest, stack, ObjectFrame({}, true));
    } else {
      ScanMembers(members, {}, rest, stack);
      BadMeansDuplicate({}, members);
    }
  }

  lemma ScanOpen(u: Unit, rest: Text, stack: seq<Frame>)
    requires u == OPEN_BRACE || u == OPEN_BRACKET
    ensures Scan([u] + rest, stack)
      == Scan(rest, stack + [if u == OPEN_BRACE then ObjectFrame({}, true) else ArrayFrame])
  {
    assert ([u] + rest)[1..] == rest;
  }

  lemma ScanClose(u: Unit, rest: Text, stack: seq<Frame>, f: Frame)
    requires u == CLOSE_BRACE || u == CLOSE_BRACKET
    ensures Scan([u] + rest, stack + [f]) == Scan(rest, stack)
  {
    assert ([u] + rest)[1..] == rest;
    assert Pop(stack + [f]) == stack;
  }

  lemma ScanComma(rest: Text, stack: seq<Frame>)
    ensures Scan([COMMA] + rest, stack) == Scan(rest, AfterComma(stack))
  {
    assert ([COMMA] + rest)[1..] == rest;
  }

  lemma {:induction false} ScanItems(items: seq<Item>, rest: Text, stack: seq<Frame>)
    requires items != [] && forall i | i in items :: Blank(i.before) && Ok(i.value) && Blank(i.after)
    ensures Scan(ItemsText(items) + ([CLOSE_BRACKET] + rest), stack + [ArrayFrame])
      <==> (exists i | i in items :: HasDuplicate(i.value)) || Scan(rest, stack)
    decreases items, 0
  {
    hide Scan, TextOf, HasDuplicate, MembersText, Ok;
    var i, inner := items[0], stack + [ArrayFrame];
    assert i in items;
    var close := [CLOSE_BRACKET] + rest;
    var tail := (if |items| == 1 then [] else [COMMA] + ItemsText(items[1..])) + close;
    assert ItemsText(items) + close == i.before + (TextOf(i.value) + (i.after + tail));
    ScanSkips(i.before, TextOf(i.value) + (i.after + tail), inner);
    ScanValue(i.value, i.after + tail, inner);
    ScanSkips(i.after, tail, inner);
    if |items| == 1 {
      assert tail == close;
      ScanClose(CLOSE_BRACKET, rest, stack, ArrayFrame);
    } else {
      assert tail == [COMMA] + (ItemsText(items[1..]) + close);
      ScanComma(ItemsText(items[1..]) + close, inner);
      ScanItems(items[1..], rest, stack);
      assert items == [i] + items[1..];
    }
  }

  /** Reading members in order with the names already seen. */
  ghost predicate Bad(keys: set<Text>, members: seq<Member>)
    requires AllOk(members)
    decreases |members|
  {
    members != [] && (
      || Decoded(members[0].key) in keys
      || HasDuplicate(members[0].value)
      || Bad(keys + {Decoded(members[0].key)}, members[1..]))
  }

  ghost predicate Repeats(keys: set<Text>, members: seq<Member>)
    requires AllOk(members)
  {
    || (exists i :: 0 <= i < |members| && Decoded(members[i].key) in keys)
    || (exists i, j :: 0 <= i < j < |members| && Decoded(members[i].key) == Decoded(members[j].key))
    || (exists m | m in members :: HasDuplicate(m.value))
  }

  lemma {:induction false} BadMeansDuplicate(keys: set<Text>, members: seq<Member>)
    requires AllOk(members)
    ensures Bad(keys, members) <==> Repeats(keys, members)
    decreases |members|
  {
    hide HasDuplicate, Decoded;
    if members != [] {
      var first, rest := members[0], members[1..];
      var more := keys + {Decoded(first.key)};
      BadMeansDuplicate(more, rest);
      assert members == [first] + rest;
      if Repeats(keys, members) { RepeatsSplit(keys, members); }
      if Repeats(more, rest) { RepeatsJoin(keys, members); }
      assert first in members;
      assert Decoded(first.key) in keys ==> 0 < |members| && Decoded(members[0].key) in keys;
    }
  }

  lemma RepeatsSplit(keys: set<Text>, members: seq<Member>)
    requires AllOk(members)
    requires members != [] && Repeats(keys, members)
    ensures Decoded(members[0].key) in keys || HasDuplicate(members[0].value)
      || Repeats(keys + {Decoded(members[0].key)}, members[1..])
  {
    hide HasDuplicate, Decoded;
    var rest, more := members[1..], keys + {Decoded(members[0].key)};
    if i :| 0 <= i < |members| && Decoded(members[i].key) in keys {
      if i > 0 { assert rest[i - 1] == members[i]; }
    } else if i, j :| 0 <= i < j < |members| && Decoded(members[i].key) == Decoded(members[j].key) {
      assert rest[j - 1] == members[j];
      if i == 0 { assert Decoded(rest[j - 1].key) in more; } else { assert rest[i - 1] == members[i]; }
    } else {
      var m :| m in members && HasDuplicate(m.value);
      assert m == members[0] || m in rest;
    }
  }

  lemma RepeatsJoin(keys: set<Text>, members: seq<Member>)
    requires AllOk(members)
    requires members != [] && Repeats(keys + {Decoded(members[0].key)}, members[1..])
    ensures Repeats(keys, members)
  {
    hide HasDuplicate, Decoded, CharsOk, Blank, Ok;
    var rest, more := members[1..], keys + {Decoded(members[0].key)};
    if i :| 0 <= i < |rest| && Decoded(rest[i].key) in more {
      assert members[i + 1] == rest[i];
    } else if i, j :| 0 <= i < j < |rest| && Decoded(rest[i].key) == Decoded(rest[j].key) {
      assert members[i + 1] == rest[i] && members[j + 1] == rest[j];
    } else {
      var m :| m in rest && HasDuplicate(m.value);
      assert m in members;
    }
  }

  lemma {:induction false} ScanMembers(members: seq<Member>, keys: set<Text>, rest: Text, stack: seq<Frame>)
    requires members != [] && AllOk(members)
    ensures Scan(MembersText(members) + ([CLOSE_BRACE] + rest), stack + [ObjectFrame(keys, true)])
      <==> Bad(keys, members) || Scan(rest, stack)
    decreases members, 0
  {
    hide Scan, MemberText, HasDuplicate, Decoded, CharsOk, Blank, AllOk, Ok, TextOf, ItemsText, Repeats, Literal,
      DecodeBody, BodyLength;
    var m := members[0];
    assert m in members;
    var name := Decoded(m.key);
    var close := [CLOSE_BRACE] + rest;
    var tail := (if |members| == 1 then [] else [COMMA] + MembersText(members[1..])) + close;
    assert MembersText(members) + close == MemberText(m) + tail;
    ScanMember(m, keys, tail, stack);
    if |members| == 1 {
      assert tail == close;
      ScanClose(CLOSE_BRACE, rest, stack, ObjectFrame(keys + {name}, false));
    } else {
      var named := stack + [ObjectFrame(keys + {name}, false)];
      assert tail == [COMMA] + (MembersText(members[1..]) + close);
      ScanComma(MembersText(members[1..]) + close, named);
      assert AfterComma(named) == stack + [ObjectFrame(keys + {name}, true)];
      ScanMembers(members[1..], keys + {name}, rest, stack);
    }
  }

  /** One member: its name is met first, then whatever is wrong inside its value. */
  lemma {:induction false} ScanMember(m: Member, keys: set<Text>, tail: Text, stack: seq<Frame>)
    requires Framed(m) && Ok(m.value)
    ensures Scan(MemberText(m) + tail, stack + [ObjectFrame(keys, true)])
      <==> (Decoded(m.key) in keys || HasDuplicate(m.value)
            || Scan(tail, stack + [ObjectFrame(keys + {Decoded(m.key)}, false)]))
    decreases m
  {
    hide Scan, TextOf, HasDuplicate, Decoded, Literal, CharsOk, DecodeBody;
    var name := Decoded(m.key);
    var keyed, named := stack + [ObjectFrame(keys, true)], stack + [ObjectFrame(keys + {name}, false)];
    var valueOn := TextOf(m.value) + (m.after + tail);
    var colonOn := m.beforeColon + [COLON] + m.afterColon;
    assert MemberText(m) + tail == m.before + (Literal(m.key) + (colonOn + valueOn));
    ScanSkips(m.before, Literal(m.key) + (colonOn + valueOn), keyed);
    ScanLiteral(m.key, colonOn + valueOn, keyed);
    assert SetTop(keyed, ObjectFrame(keys + {name}, false)) == named;
    ScanSkips(colonOn, valueOn, named);
    ScanValue(m.value, m.after + tail, named);
    ScanSkips(m.after, tail, named);
  }

  /** On every JSON text the scanner throws exactly when some object has two members with one decoded name. */
  lemma ScannerIsExact(json: Text, v: Value)
    requires IsJson(json, v)
    ensures Scan(json, []) <==> HasDuplicate(v)
  {
    hide TextOf, Scan, HasDuplicate, Ok;
    var before, after :| Blank(before) && Blank(after) && json == before + TextOf(v) + after;
    assert json == before + (TextOf(v) + (after + []));
    ScanSkips(before, TextOf(v) + (after + []), []);
    ScanValue(v, after + [], []);
    ScanSkips(after, [], []);
    ScanEmpty([]);
  }

  lemma ScannerIsExactOn(json: Text)
    ensures Exact(json, Scan(json, []))
  {
    forall v | IsJson(json, v) { ScannerIsExact(json, v); }
  }
}
