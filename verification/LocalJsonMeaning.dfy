/**
 Equal encodings exactly for equal meanings (src/data-os/local-json.ts), and canonical text as JSON without
 duplicate keys.
 */
module LocalJsonMeaning {
  import JsonKeys
  import opened JsonText
  import opened Ordering
  import opened LocalJson
  import opened LocalJsonDecoder

  /* ---- Equal encodings, equal meanings ---- */

  ghost predicate Climbing(fields: seq<Field>) {
    forall i, j :: 0 <= i < j < |fields| ==> ByName(fields[i], fields[j]) < 0
  }

  lemma NamesAreOrdered()
    ensures TotalOrder((a: Text, b: Text) => Lex(CompareUnit, a, b))
    ensures Preorder(ByName)
  {
    assert TotalOrder(CompareUnit);
    LexIsTotal(CompareUnit);
    var lex := (a: Text, b: Text) => Lex(CompareUnit, a, b);
    TotalIsPreorder(lex);
    forall x: Field, y: Field ensures ByName(x, y) == lex(x.name, y.name) {}
  }

  lemma SortedClimbs(fields: seq<Field>)
    requires DistinctNames(fields)
    ensures Climbing(Sort(ByName, fields))
  {
    hide Sort, DistinctNames, ByName;
    var s := Sort(ByName, fields);
    NamesAreOrdered();
    SortSorts(ByName, fields);
    forall i, j | 0 <= i < j < |s| ensures ByName(s[i], s[j]) < 0 {
      SortedNamesDistinct(fields, i, j);
      TieMeansSameName(s[i], s[j]);
    }
  }

  lemma TieMeansSameName(f: Field, g: Field)
    ensures ByName(f, g) == 0 <==> f.name == g.name
  {
    assert TotalOrder(CompareUnit);
    LexZero(CompareUnit, f.name, g.name);
  }

  /** A field that would repeat in the sorted list would repeat in the object. */
  lemma SortedNamesDistinct(fields: seq<Field>, i: nat, j: nat)
    requires DistinctNames(fields) && i < j < |Sort(ByName, fields)|
    ensures Sort(ByName, fields)[i].name != Sort(ByName, fields)[j].name
  {
    var s := Sort(ByName, fields);
    SortKeepsFields(fields);
    assert s[i] in s && s[j] in s;
    if s[i].name == s[j].name {
      assert s[i] == s[j];
      TwiceInSequence(s, i, j);
      OnceInFields(fields, s[i]);
      assert false;
    }
  }

  lemma TwiceInSequence(s: seq<Field>, i: nat, j: nat)
    requires i < j < |s| && s[i] == s[j]
    ensures multiset(s)[s[i]] >= 2
  {
    assert s == s[..i] + [s[i]] + s[i + 1..j] + [s[j]] + s[j + 1..];
  }

  lemma {:induction false} OnceInFields(fields: seq<Field>, f: Field)
    requires DistinctNames(fields)
    ensures multiset(fields)[f] <= 1
  {
    if fields != [] {
      OnceInFields(fields[1..], f);
      assert fields == [fields[0]] + fields[1..];
      if fields[0] == f {
        forall k | 0 <= k < |fields[1..]| ensures fields[1..][k] != f { assert fields[1..][k] == fields[k + 1]; }
        assert f !in fields[1..];
        assert multiset(fields[1..])[f] == 0;
      }
    }
  }

  /** Two ordered lists of fields that mean one map begin with one name. */
  lemma SameFirstName(a: seq<Field>, b: seq<Field>)
    requires Climbing(a) && Climbing(b) && FieldsMeaning(a) == FieldsMeaning(b) && a != []
    ensures b != [] && a[0].name == b[0].name
  {
    hide MeaningOf, FieldsMeaning, ByName;
    NamesOf(a);
    NamesOf(b);
    assert a[0] in a;
    assert a[0].name in FieldsMeaning(b);
    var f :| f in b && f.name == a[0].name;
    var i :| 0 <= i < |b| && b[i] == f;
    assert b[0] in b;
    assert b[0].name in FieldsMeaning(a);
    var g :| g in a && g.name == b[0].name;
    var j :| 0 <= j < |a| && a[j] == g;
    ByNameReadsNames(a[0], b[i], a[j], b[0]);
  }

  /** If each of two first names occurs in the other list, neither can be strictly later. */
  lemma ByNameReadsNames(a0: Field, bi: Field, aj: Field, b0: Field)
    requires a0.name == bi.name && aj.name == b0.name
    ensures !(ByName(a0, aj) < 0 && ByName(b0, bi) < 0)
  {
    NamesAreOrdered();
    var lex := (a: Text, b: Text) => Lex(CompareUnit, a, b);
    assert lex(a0.name, aj.name) == ByName(a0, aj) && lex(b0.name, bi.name) == ByName(b0, bi);
  }

  /** The part of an ordered object after its first field. */
  lemma RestOfMeaning(a: seq<Field>)
    requires Climbing(a) && a != []
    ensures Climbing(a[1..])
    ensures a[0].name in FieldsMeaning(a) && FieldsMeaning(a)[a[0].name] == MeaningOf(a[0].value)
    ensures FieldsMeaning(a[1..]) == FieldsMeaning(a) - {a[0].name}
  {
    hide MeaningOf, ByName, Climbing;
    ClimbingTail(a);
    NamesOf(a[1..]);
    var head, tail := map[a[0].name := MeaningOf(a[0].value)], FieldsMeaning(a[1..]);
    assert a[0].name !in tail;
    assert FieldsMeaning(a) == head + tail;
    assert head + tail - {a[0].name} == tail;
  }

  lemma ClimbingTail(a: seq<Field>)
    requires Climbing(a) && a != []
    ensures Climbing(a[1..])
    ensures forall f | f in a[1..] :: f.name != a[0].name
  {
    hide ByName;
    forall i, j | 0 <= i < j < |a[1..]| ensures ByName(a[1..][i], a[1..][j]) < 0 {
      assert a[1..][i] == a[i + 1] && a[1..][j] == a[j + 1];
    }
    forall f | f in a[1..] ensures f.name != a[0].name {
      var k :| 0 <= k < |a[1..]| && a[1..][k] == f;
      assert a[k + 1] == f;
      TieMeansSameName(a[0], f);
    }
  }

  /** Values that mean the same are encoded, or refused, the same: key order does not show. */
  lemma {:induction false} KeyOrderDoesNotShow(show: Printer, v: Json, w: Json, depth: nat)
    requires WellFormed(v) && WellFormed(w) && MeaningOf(v) == MeaningOf(w)
    ensures Encode(show, v, depth) == Encode(show, w, depth)
    decreases if depth > MAX_DEPTH then 0 else MAX_DEPTH + 1 - depth, 1
  {
    if depth <= MAX_DEPTH {
      hide Sort, DistinctNames, FieldsMeaning, ItemsMeaning, Climbing, Quoted, Literal, EncodeItems, EncodeFields,
        JsonKeys.NumberText;
      match v
      case Arr(items) => ItemsEncodeAlike(show, items, w.items, depth + 1);
      case Obj(fields) => ObjectsEncodeAlike(show, fields, w.fields, depth);
      case _ =>
    }
  }

  lemma {:induction false} ObjectsEncodeAlike(show: Printer, a: seq<Field>, b: seq<Field>, depth: nat)
    requires WellFormed(Obj(a)) && WellFormed(Obj(b)) && FieldsMeaning(a) == FieldsMeaning(b) && depth <= MAX_DEPTH
    ensures EncodeFields(show, Sort(ByName, a), depth + 1) == EncodeFields(show, Sort(ByName, b), depth + 1)
    decreases MAX_DEPTH + 1 - depth, 0
  {
    hide Sort, DistinctNames, FieldsMeaning, Climbing, Encode, EncodeFields;
    SortKeepsMeaning(a);
    SortKeepsMeaning(b);
    SortKeepsFields(a);
    SortKeepsFields(b);
    SortedClimbs(a);
    SortedClimbs(b);
    FieldsEncodeAlike(show, Sort(ByName, a), Sort(ByName, b), depth + 1);
  }

  lemma {:induction false} ItemsEncodeAlike(show: Printer, a: seq<Json>, b: seq<Json>, depth: nat)
    requires (forall i | i in a :: WellFormed(i)) && (forall i | i in b :: WellFormed(i))
    requires ItemsMeaning(a) == ItemsMeaning(b)
    ensures |a| == |b| && EncodeItems(show, a, depth) == EncodeItems(show, b, depth)
    decreases if depth > MAX_DEPTH then 0 else MAX_DEPTH + 1 - depth, 1 + |a|
  {
    hide WellFormed, MeaningOf, Encode;
    if a != [] && b != [] {
      assert a[0] in a && b[0] in b;
      assert forall i | i in a[1..] :: i in a;
      assert forall i | i in b[1..] :: i in b;
      assert ItemsMeaning(a)[0] == MeaningOf(a[0]) && ItemsMeaning(b)[0] == MeaningOf(b[0]);
      assert ItemsMeaning(a)[1..] == ItemsMeaning(a[1..]) && ItemsMeaning(b)[1..] == ItemsMeaning(b[1..]);
      KeyOrderDoesNotShow(show, a[0], b[0], depth);
      ItemsEncodeAlike(show, a[1..], b[1..], depth);
    }
  }

  lemma {:induction false} FieldsEncodeAlike(show: Printer, a: seq<Field>, b: seq<Field>, depth: nat)
    requires (forall f | f in a :: WellFormed(f.value)) && (forall f | f in b :: WellFormed(f.value))
    requires Climbing(a) && Climbing(b) && FieldsMeaning(a) == FieldsMeaning(b)
    ensures |a| == |b| && EncodeFields(show, a, depth) == EncodeFields(show, b, depth)
    decreases if depth > MAX_DEPTH then 0 else MAX_DEPTH + 1 - depth, 1 + |a|
  {
    hide WellFormed, MeaningOf, Encode, FieldsMeaning, Quoted, Climbing, Literal;
    if a == [] {
      if b != [] { SameFirstName(b, a); }
    } else {
      SameFirstName(a, b);
      assert a[0] in a && b[0] in b;
      assert forall f | f in a[1..] :: f in a;
      assert forall f | f in b[1..] :: f in b;
      RestOfMeaning(a);
      RestOfMeaning(b);
      KeyOrderDoesNotShow(show, a[0].value, b[0].value, depth);
      FieldsEncodeAlike(show, a[1..], b[1..], depth);
    }
  }

  /** The encoder has a left inverse. */
  lemma DecodeEncode(show: Printer, v: Json)
    requires Faithful(show) && WellFormed(v) && AllPlain(v) && Within(v, 20)
    ensures Encode(show, v, 0).Encoded? && Decode(show, Encode(show, v, 0).text) == MeaningOf(v)
  {
    hide Encode, Faithful, WellFormed, AllPlain, Within, Parse;
    RefusedExactly(show, v, 0);
    var t := Encode(show, v, 0).text;
    EncodingParses(show, v, 0, []);
    assert t + [] == t;
  }

  /** Two encodings are equal exactly when the values mean the same, whatever the order of their keys. */
  lemma EqualEncodingsExactlyForEqualMeanings(show: Printer, v: Json, w: Json)
    requires Faithful(show) && WellFormed(v) && WellFormed(w)
    requires Encode(show, v, 0).Encoded? && Encode(show, w, 0).Encoded?
    ensures Encode(show, v, 0) == Encode(show, w, 0) <==> MeaningOf(v) == MeaningOf(w)
  {
    hide Encode, Faithful, WellFormed, AllPlain, Within, MeaningOf;
    RefusedExactly(show, v, 0);
    RefusedExactly(show, w, 0);
    DecodeEncode(show, v);
    DecodeEncode(show, w);
    if MeaningOf(v) == MeaningOf(w) { KeyOrderDoesNotShow(show, v, w, 0); }
  }

  /* ---- Canonical text is JSON without duplicate keys, so the scanner lets it through ---- */

  lemma {:induction false} Derives(show: Printer, v: Json, depth: nat) returns (tree: JsonKeys.Value)
    requires Faithful(show) && WellFormed(v) && Encode(show, v, depth).Encoded?
    ensures JsonKeys.Ok(tree) && JsonKeys.TextOf(tree) == Encode(show, v, depth).text && !JsonKeys.HasDuplicate(tree)
    decreases if depth > MAX_DEPTH then 0 else MAX_DEPTH + 1 - depth, 1
  {
    hide Sort, Quoted, JsonKeys.NumberText, JsonKeys.NumberOk, Finite, Literal, JsonKeys.ItemsText,
      JsonKeys.MembersText;
    match v
    case Null => tree := JsonKeys.NullValue;
    case Bool(b) => tree := if b then JsonKeys.TrueValue else JsonKeys.FalseValue;
    case Num(d) => tree := JsonKeys.NumberValue(show(d));
    case Str(s) =>
      QuotedDecodes(s);
      tree := JsonKeys.StringValue(Quoted(s));
    case Arr(items) =>
      var parts := ItemsDerive(show, items, depth + 1);
      tree := JsonKeys.ArrayValue(parts, []);
    case Obj(fields) =>
      tree := ObjectDerives(show, fields, depth);
    case Foreign =>
  }

  lemma {:induction false} ObjectDerives(show: Printer, fields: seq<Field>, depth: nat) returns (tree: JsonKeys.Value)
    requires Faithful(show) && WellFormed(Obj(fields)) && depth <= MAX_DEPTH
      && Encode(show, Obj(fields), depth).Encoded?
    ensures JsonKeys.Ok(tree) && JsonKeys.TextOf(tree) == Encode(show, Obj(fields), depth).text
    ensures !JsonKeys.HasDuplicate(tree)
    decreases MAX_DEPTH + 1 - depth, 0
  {
    hide Sort, Quoted, Literal, JsonKeys.MembersText, Decoded, CharsOk;
    var sorted := Sort(ByName, fields);
    SortKeepsFields(fields);
    var members := FieldsDerive(show, sorted, depth + 1);
    tree := JsonKeys.ObjectValue(members, []);
    forall i, j | 0 <= i < j < |members| ensures Decoded(members[i].key) != Decoded(members[j].key) {
      SortedNamesDistinct(fields, i, j);
    }
  }

  lemma {:induction false} ItemsDerive(show: Printer, items: seq<Json>, depth: nat) returns (parts: seq<JsonKeys.Item>)
    requires Faithful(show) && (forall i | i in items :: WellFormed(i)) && EncodeItems(show, items, depth).Encoded?
    ensures |parts| == |items| && JsonKeys.ItemsText(parts) == EncodeItems(show, items, depth).text
    ensures forall p | p in parts ::
      JsonKeys.Blank(p.before) && JsonKeys.Ok(p.value) && JsonKeys.Blank(p.after) && !JsonKeys.HasDuplicate(p.value)
    decreases if depth > MAX_DEPTH then 0 else MAX_DEPTH + 1 - depth, 1 + |items|
  {
    hide Encode, WellFormed, Faithful, JsonKeys.TextOf, JsonKeys.HasDuplicate, JsonKeys.Ok;
    parts := [];
    if items != [] {
      assert items[0] in items && forall i | i in items[1..] :: i in items;
      var first := Derives(show, items[0], depth);
      var others := ItemsDerive(show, items[1..], depth);
      parts := [JsonKeys.Item([], first, [])] + others;
      assert parts[1..] == others;
    }
  }

  /** A member written under this name, with nothing repeated inside it. */
  ghost predicate Clean(m: JsonKeys.Member, name: Text) {
    && JsonKeys.Framed(m) && JsonKeys.Ok(m.value) && !JsonKeys.HasDuplicate(m.value)
    && Decoded(m.key) == name
  }

  lemma {:induction false} FieldsDerive(show: Printer, fields: seq<Field>, depth: nat)
    returns (members: seq<JsonKeys.Member>)
    requires Faithful(show) && (forall f | f in fields :: WellFormed(f.value))
      && EncodeFields(show, fields, depth).Encoded?
    ensures |members| == |fields| && JsonKeys.MembersText(members) == EncodeFields(show, fields, depth).text
    ensures forall k | 0 <= k < |members| :: Clean(members[k], fields[k].name)
    decreases if depth > MAX_DEPTH then 0 else MAX_DEPTH + 1 - depth, 1 + |fields|
  {
    hide Encode, WellFormed, Faithful, JsonKeys.TextOf, JsonKeys.HasDuplicate, JsonKeys.Ok, JsonKeys.NumberText,
      JsonKeys.MemberText, Quoted, Literal, Decoded, CharsOk, MeaningOf;
    members := [];
    if fields != [] {
      assert fields[0] in fields && forall f | f in fields[1..] :: f in fields;
      QuotedDecodes(fields[0].name);
      var first := Derives(show, fields[0].value, depth);
      var others := FieldsDerive(show, fields[1..], depth);
      var m := JsonKeys.Member([], Quoted(fields[0].name), [], [], first, []);
      members := [m] + others;
      TightMember(m, others);
      assert Clean(m, fields[0].name) by { assert JsonKeys.Blank([]); }
      hide Clean;
      forall k | 0 <= k < |members| ensures Clean(members[k], fields[k].name) {
        if k > 0 { assert members[k] == others[k - 1]; }
      }
    }
  }

  lemma TightMember(m: JsonKeys.Member, others: seq<JsonKeys.Member>)
    requires m.before == [] && m.beforeColon == [] && m.afterColon == [] && m.after == []
    ensures JsonKeys.MembersText([m] + others)
      == Literal(m.key) + [COLON] + JsonKeys.TextOf(m.value)
         + (if others == [] then [] else [COMMA] + JsonKeys.MembersText(others))
  {
    hide Literal, JsonKeys.TextOf;
    assert ([m] + others)[1..] == others;
  }

  /** Every canonical text passes the duplicate-key scanner. */
  lemma CanonicalTextPassesTheScanner(show: Printer, v: Json)
    requires Faithful(show) && WellFormed(v) && Encode(show, v, 0).Encoded?
    ensures JsonKeys.Scan(Encode(show, v, 0).text, []) == false
  {
    hide Encode, Faithful, WellFormed, JsonKeys.TextOf, JsonKeys.HasDuplicate, JsonKeys.Ok, JsonKeys.Scan;
    var tree := Derives(show, v, 0);
    var text := Encode(show, v, 0).text;
    assert text == [] + JsonKeys.TextOf(tree) + [];
    assert JsonKeys.Blank([]);
    JsonKeys.ScannerIsExact(text, tree);
  }
}
