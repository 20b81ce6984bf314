/**
 How the local record encoding spells (src/data-os/local-json.ts:30-34): strings as JSON.stringify writes them, keys in
 the order of their code units.
 */
module LocalJsonText {
  import opened JsonText
  import opened Ordering
  import opened LocalJson
  import opened LocalJsonMeaning

  /** Outside surrogates, a unit is written in the shortest way: as itself, by its letter, or in four digits. */
  lemma QuotesAreShortest(u: Unit, c: Char)
    requires !(0xD800 <= u <= 0xDFFF) && CharOk(c) && CharUnit(c) == u
    ensures |CharText(QuoteUnit(u))| <= |CharText(c)|
    ensures |CharText(QuoteUnit(u))| == |CharText(c)| && !c.Hex? ==> c == QuoteUnit(u)
  {
    hide HexUnit, FourHex, HexDigits;
    HexDigitsDecode(u);
    if c.Hex? { FourDigits(c.digits); }
    FourDigits(HexDigits(u));
  }

  lemma FourDigits(h: Text)
    requires FourHex(h)
    ensures |h| == 4
  {
  }

  /** A surrogate on its own is escaped, and a pair is not; the digits of an escape are in lower case. */
  lemma SurrogatesAreEscaped(u: Unit, v: Unit)
    ensures 0xD800 <= u <= 0xDFFF ==> Quoted([u]) == [Hex(HexDigits(u))]
    ensures 0xD800 <= u <= 0xDBFF && 0xDC00 <= v <= 0xDFFF ==> Quoted([u, v]) == [Plain(u), Plain(v)]
    ensures forall d | d in HexDigits(u) :: 0x30 <= d <= 0x39 || 0x61 <= d <= 0x66
  {
    hide HexDigits;
    assert [u][1..] == [] && [u, v][2..] == [];
    LowerCase(u);
  }

  lemma LowerCase(u: Unit)
    ensures forall d | d in HexDigits(u) :: 0x30 <= d <= 0x39 || 0x61 <= d <= 0x66
  {
  }

  /** The keys of an object go out in ascending order of their code units, a prefix first. */
  lemma KeysAscend(fields: seq<Field>, i: nat, j: nat)
    requires i < j < |Sort(ByName, fields)|
    ensures var a, b := Sort(ByName, fields)[i].name, Sort(ByName, fields)[j].name;
      a == b || FirstDifference((u: Unit, v: Unit) => u < v, a, b)
  {
    hide Sort;
    NamesAreOrdered();
    SortSorts(ByName, fields);
    var a, b := Sort(ByName, fields)[i].name, Sort(ByName, fields)[j].name;
    assert ByName(Sort(ByName, fields)[i], Sort(ByName, fields)[j]) <= 0;
    LexZero(CompareUnit, a, b);
    LexExactly(CompareUnit, (u: Unit, v: Unit) => u < v, a, b);
  }
}
