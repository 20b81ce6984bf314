/**
 The fit predicate of a clearance experiment (src/compute/clearance-voi.ts), decided on exact decimals.
 */
module ClearanceFit {
  import opened RealSums

  /** A number as its shortest decimal: an integer coefficient and a power of ten. */
  datatype Decimal = Decimal(coefficient: int, exponent: int)

  datatype Term = Term(value: Decimal, multiplier: int)

  function Ten(n: nat): int { if n == 0 then 1 else 10 * Ten(n - 1) }

  function PowerOfTen(e: int): (p: real)
    ensures p > 0.0
    decreases if e < 0 then -e else e
  {
    if e == 0 then 1.0 else if e > 0 then 10.0 * PowerOfTen(e - 1) else PowerOfTen(e + 1) / 10.0
  }

  function RealOf(d: Decimal): real { Times(d.coefficient as real, PowerOfTen(d.exponent)) }

  /** The sum the terms stand for. */
  function TermSum(terms: seq<Term>): real {
    if terms == [] then 0.0
    else
      var t := terms[|terms| - 1];
      TermSum(terms[..|terms| - 1]) + Times(t.multiplier as real, RealOf(t.value))
  }

  lemma {:induction false} PowerShift(e: int, n: nat)
    ensures PowerOfTen(e + n) == Times(Ten(n) as real, PowerOfTen(e))
  {
    if n > 0 {
      PowerShift(e, n - 1);
      PowerNext(e + n - 1);
      TimesLaws(10.0, Ten(n - 1) as real, PowerOfTen(e));
    }
  }

  lemma PowerNext(e: int)
    ensures PowerOfTen(e + 1) == Times(10.0, PowerOfTen(e))
  {
    if e < 0 { assert PowerOfTen(e) == PowerOfTen(e + 1) / 10.0; }
  }

  /** One term over a common power of ten. */
  lemma TermScaled(t: Term, e: int)
    requires e <= t.value.exponent
    ensures Times(t.multiplier as real, RealOf(t.value))
      == Times((t.value.coefficient * t.multiplier * Ten(t.value.exponent - e)) as real, PowerOfTen(e))
  {
    var c, k, n := t.value.coefficient, t.multiplier, Ten(t.value.exponent - e);
    PowerShift(e, t.value.exponent - e);
    var p := PowerOfTen(e);
    calc {
      Times(k as real, Times(c as real, Times(n as real, p)));
      { TimesLaws(c as real, n as real, p); }
      Times(k as real, Times(Times(c as real, n as real), p));
      { TimesLaws(k as real, Times(c as real, n as real), p); }
      Times(Times(k as real, Times(c as real, n as real)), p);
      { assert Times(c as real, n as real) == (c * n) as real;
        assert Times(k as real, (c * n) as real) == (k * (c * n)) as real; }
      Times((k * (c * n)) as real, p);
      { assert k * (c * n) == c * k * n; }
      Times((c * k * n) as real, p);
    }
  }

  /** Whether the exact sum of the decimals is nonnegative, on integers alone. */
  method ExactDecimalSumNonnegative(terms: seq<Term>) returns (nonnegative: bool)
    ensures nonnegative <==> TermSum(terms) >= 0.0
  {
    var exponent := if terms == [] then 0 else terms[0].value.exponent;
    for i := 0 to |terms|
      invariant forall j :: 0 <= j < i ==> exponent <= terms[j].value.exponent
    {
      if terms[i].value.exponent < exponent { exponent := terms[i].value.exponent; }
    }
    var total := 0;
    hide PowerOfTen, RealOf, Times, Ten;
    TimesLaws(PowerOfTen(exponent), 0.0, 0.0);
    for i := 0 to |terms|
      invariant TermSum(terms[..i]) == Times(total as real, PowerOfTen(exponent))
    {
      var v := terms[i].value;
      TermScaled(terms[i], exponent);
      assert terms[..i + 1][..i] == terms[..i];
      var next := v.coefficient * terms[i].multiplier * Ten(v.exponent - exponent);
      TimesLaws(PowerOfTen(exponent), total as real, next as real);
      TimesLaws(total as real, PowerOfTen(exponent), 0.0);
      TimesLaws(next as real, PowerOfTen(exponent), 0.0);
      TimesLaws((total + next) as real, PowerOfTen(exponent), 0.0);
      assert (total + next) as real == total as real + next as real;
      total := total + next;
    }
    assert terms[..|terms|] == terms;
    TimesPositive(PowerOfTen(exponent), total as real);
    TimesLaws(total as real, PowerOfTen(exponent), 0.0);
    return total >= 0;
  }

  /** What the fit predicate asks: both lateral clearances reach the threshold. */
  lemma FitsBothSides(opening: real, equipment: real, offset: real, threshold: real)
    ensures var size := if offset < 0.0 then -offset else offset;
      opening - equipment - 2.0 * size - 2.0 * threshold >= 0.0 <==>
        (opening - equipment) / 2.0 + offset >= threshold && (opening - equipment) / 2.0 - offset >= threshold
  {
  }
}
