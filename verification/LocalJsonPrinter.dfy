/**
 Printers of numbers that keep them apart do exist, so the theorems about the local record encoding are of something:
 here, the significand's digits and the exponent's, in the number grammar of RFC 8259 section 6.
 */
module LocalJsonPrinter {
  import opened JsonText
  import opened Decimals
  import BigInts
  import opened LocalJson
  import JsonKeys

  const MARK: Unit := 0x65

  function UnitOf(c: char): Unit
    requires '0' <= c <= '9'
  {
    c as int
  }

  function Units(d: string): (t: Text)
    requires forall c | c in d :: '0' <= c <= '9'
    ensures |t| == |d| && forall i | 0 <= i < |d| :: t[i] == d[i] as int
  {
    seq(|d|, i requires 0 <= i < |d| => assert d[i] in d; UnitOf(d[i]))
  }

  function DigitsOf(n: nat): (t: Text)
    ensures JsonKeys.Digits(t)
  {
    var d := Decimal(n);
    assert forall i | 0 <= i < |d| :: d[i] in d;
    Units(d)
  }

  /** The significand in digits, and the exponent after the mark. */
  function Print(d: Double): JsonKeys.Number {
    JsonKeys.Number(d.significand < 0, DigitsOf(Absolute(d.significand)), [],
                    JsonKeys.Exponent(MARK, if d.exponent < 0 then JsonKeys.Minus else JsonKeys.Unsigned,
                                      DigitsOf(Absolute(d.exponent))))
  }

  lemma {:induction false} NoLeadingZero(n: nat)
    ensures n > 0 ==> Decimal(n)[0] != '0'
    ensures |Decimal(n)| > 1 ==> n > 0
  {
    if n >= 10 { NoLeadingZero(n / 10); }
  }

  lemma DigitsAreInjective(m: nat, n: nat)
    requires DigitsOf(m) == DigitsOf(n)
    ensures m == n
  {
    var a, b := Decimal(m), Decimal(n);
    assert |DigitsOf(m)| == |a| && |DigitsOf(n)| == |b|;
    forall i | 0 <= i < |a| ensures a[i] == b[i] {
      assert DigitsOf(m)[i] == a[i] as int && DigitsOf(n)[i] == b[i] as int;
    }
    assert a == b;
    DecimalIsInjective(m, n);
  }

  function MarkAt(t: Text): nat {
    if t == [] || t[0] == MARK then 0 else 1 + MarkAt(t[1..])
  }

  /** Digits end at the mark. */
  lemma {:induction false} MarkEndsDigits(a: Text, x: Text)
    requires forall u | u in a :: 0x30 <= u <= 0x39
    ensures MarkAt(a + [MARK] + x) == |a|
  {
    if a != [] {
      assert a[0] in a && forall u | u in a[1..] :: u in a;
      MarkEndsDigits(a[1..], x);
      assert (a + [MARK] + x)[1..] == a[1..] + [MARK] + x;
    }
  }

  lemma MarkSplits(a: Text, x: Text, b: Text, y: Text)
    requires JsonKeys.Digits(a) && JsonKeys.Digits(b) && a + [MARK] + x == b + [MARK] + y
    ensures a == b && x == y
  {
    hide MarkAt;
    MarkEndsDigits(a, x);
    MarkEndsDigits(b, y);
    var s := a + [MARK] + x;
    assert s[..|a|] == a && s[|a| + 1..] == x;
    assert s[..|b|] == b && s[|b| + 1..] == y;
  }

  function Signed(negative: bool, t: Text): Text { if negative then [0x2D] + t else t }

  /** A minus sign is no digit. */
  lemma SignShows(p: bool, a: Text, q: bool, b: Text)
    requires a != [] && b != [] && a[0] != 0x2D && b[0] != 0x2D && Signed(p, a) == Signed(q, b)
    ensures p == q && a == b
  {
    var s, t := Signed(p, a), Signed(q, b);
    assert p <==> s[0] == 0x2D;
    assert q <==> t[0] == 0x2D;
    if p { assert a == s[1..] && b == t[1..]; }
  }

  lemma ShownIs(d: Double)
    ensures Shown(Print, d) ==
      Signed(d.significand < 0,
        DigitsOf(Absolute(d.significand)) + [MARK] + Signed(d.exponent < 0, DigitsOf(Absolute(d.exponent))))
  {
    var a, x := DigitsOf(Absolute(d.significand)), DigitsOf(Absolute(d.exponent));
    hide DigitsOf;
    var sign: Text := if d.significand < 0 then [0x2D] else [];
    var u := Signed(d.exponent < 0, x);
    assert Shown(Print, d) == sign + a + [] + ([MARK] + u);
    assert sign + a + [] + ([MARK] + u) == sign + (a + [MARK] + u);
  }

  lemma PrintIsInjective(d: Double, e: Double)
    requires Shown(Print, d) == Shown(Print, e)
    ensures d == e
  {
    ShownIs(d);
    ShownIs(e);
    var a, b := DigitsOf(Absolute(d.significand)), DigitsOf(Absolute(e.significand));
    var x, y := DigitsOf(Absolute(d.exponent)), DigitsOf(Absolute(e.exponent));
    var u, v := Signed(d.exponent < 0, x), Signed(e.exponent < 0, y);
    hide DigitsOf, Shown, Print, Signed;
    assert a[0] in a && b[0] in b && x[0] in x && y[0] in y;
    assert (a + [MARK] + u)[0] == a[0] && (b + [MARK] + v)[0] == b[0];
    SignShows(d.significand < 0, a + [MARK] + u, e.significand < 0, b + [MARK] + v);
    MarkSplits(a, u, b, v);
    SignShows(d.exponent < 0, x, e.exponent < 0, y);
    DigitsAreInjective(Absolute(d.significand), Absolute(e.significand));
    DigitsAreInjective(Absolute(d.exponent), Absolute(e.exponent));
  }

  /** This printer derives every finite number in the grammar and keeps any two apart. */
  lemma PrintIsFaithful()
    ensures Faithful(Print)
  {
    forall d | Finite(d) ensures JsonKeys.NumberOk(Print(d)) { NoLeadingZero(Absolute(d.significand)); }
    forall d, e | Finite(d) && Finite(e) && Shown(Print, d) == Shown(Print, e) ensures d == e {
      PrintIsInjective(d, e);
    }
  }

  /** The largest finite double, and a power of two whose odd significand is one, are finite; two to the 1024 is not. */
  lemma LargeDoublesAreFinite()
    ensures Finite(Double(BigInts.Pow2(53) - 1, 971)) && Finite(Double(1, 1000)) && Finite(Double(1, 1023))
      && !Finite(Double(1, 1024))
  {
    hide BigInts.Pow2;
    PowerDoubles(0);
    PowerDoubles(52);
    PowersGrow(1, 24);
    PowersGrow(1, 53);
  }

  /**
   The finite numbers are those of binary64 (IEEE 754-2019, section 3.3): an integer of at most 53 bits times a power of
   two from -1074 to 971. Each has one form here.
   */
  lemma FiniteExactly(d: Double)
    ensures Finite(d) <==>
      && (d.significand % 2 == 1 || d == Double(0, 0))
      && exists m, q :: Representable(d, m, q)
  {
    hide BigInts.Pow2;
    PowerDoubles(0);
    if Finite(d) {
      if d.exponent <= 971 {
        assert Representable(d, d.significand, d.exponent);
      } else {
        var k := d.exponent - 971;
        PowersAdd(53 - k, k);
        ScaleKeeps(d.significand, BigInts.Pow2(53 - k), BigInts.Pow2(k));
        assert Representable(d, d.significand * BigInts.Pow2(k), 971);
      }
    }
    if (d.significand % 2 == 1 || d == Double(0, 0)) && exists m, q :: Representable(d, m, q) {
      var m, q :| Representable(d, m, q);
      if d.significand != 0 { RepresentableIsFinite(d, m, q); }
    }
  }

  lemma RepresentableIsFinite(d: Double, m: int, q: int)
    requires d.significand % 2 == 1 && Representable(d, m, q)
    ensures Finite(d)
  {
    hide BigInts.Pow2;
    var k := d.exponent - q;
    var p := BigInts.Pow2(k);
    PowersGrow(0, k);
    PowerDoubles(0);
    ScaleGrows(d.significand, p);
    if k >= 53 { PowersGrow(53, k); }
    PowersAdd(53 - k, k);
    ScaleCancels(d.significand, BigInts.Pow2(53 - k), p);
    PowersGrow(53 - k, 1024 - d.exponent);
  }

  lemma ScaleKeeps(a: int, b: nat, p: nat)
    requires p > 0 && Absolute(a) < b
    ensures Absolute(a * p) < b * p
  {
    assert (b - a) * p > 0 && (b + a) * p > 0;
  }

  lemma ScaleCancels(a: int, b: nat, p: nat)
    requires p > 0 && Absolute(a * p) < b * p
    ensures Absolute(a) < b
  {
    NotLess(b, Absolute(a), p);
    AbsoluteScales(a, p);
  }

  lemma NotLess(a: nat, b: nat, p: nat)
    ensures a <= b ==> a * p <= b * p
  {
    if a <= b { assert (b - a) * p >= 0; }
  }

  lemma ScaleGrows(a: int, p: nat)
    requires p > 0 && a != 0
    ensures Absolute(a) <= Absolute(a * p) && p <= Absolute(a * p)
  {
    NotLess(1, Absolute(a), p);
    NotLess(1, p, Absolute(a));
    AbsoluteScales(a, p);
  }

  lemma AbsoluteScales(a: int, p: nat)
    ensures Absolute(a * p) == Absolute(a) * p == p * Absolute(a)
  {
    assert a < 0 ==> -(a * p) == -a * p && (p > 0 ==> a * p < 0);
  }

  lemma {:induction false} PowersAdd(m: nat, n: nat)
    ensures BigInts.Pow2(m + n) == BigInts.Pow2(m) * BigInts.Pow2(n)
  {
    if n > 0 {
      PowersAdd(m, n - 1);
      assert BigInts.Pow2(m + n) == 2 * (BigInts.Pow2(m) * BigInts.Pow2(n - 1));
    }
  }

  /** The number is m, in 53 bits, times two to the power q. */
  predicate Representable(d: Double, m: int, q: int) {
    && Absolute(m) < BigInts.Pow2(53) && -1074 <= q <= 971
    && q <= d.exponent && m == d.significand * BigInts.Pow2(d.exponent - q)
  }

  lemma PowerDoubles(n: nat)
    ensures BigInts.Pow2(0) == 1 && BigInts.Pow2(n + 1) == 2 * BigInts.Pow2(n)
  {
  }

  lemma {:induction false} PowersGrow(m: nat, n: nat)
    requires m <= n
    ensures BigInts.Pow2(m) <= BigInts.Pow2(n)
  {
    if m < n { PowersGrow(m, n - 1); }
  }
}
