/** Finite sums of reals, as the exact numerics need them. */
module RealSums {
  function Sum(n: nat, f: int -> real): real {
    if n == 0 then 0.0 else Sum(n - 1, f) + f(n - 1)
  }

  lemma {:induction false} SumCongruent(n: nat, f: int -> real, g: int -> real)
    requires forall i | 0 <= i < n :: f(i) == g(i)
    ensures Sum(n, f) == Sum(n, g)
  {
    if n > 0 { SumCongruent(n - 1, f, g); }
  }

  lemma {:induction false} SumAdd(n: nat, f: int -> real, g: int -> real, h: int -> real)
    requires forall i | 0 <= i < n :: h(i) == f(i) + g(i)
    ensures Sum(n, h) == Sum(n, f) + Sum(n, g)
  {
    if n > 0 { SumAdd(n - 1, f, g, h); }
  }

  /** A named product, so that proofs can keep multiplication out of the solver's sight. */
  function Times(a: real, b: real): real { a * b }

  lemma TimesLaws(a: real, b: real, c: real)
    ensures Times(a, b) == Times(b, a)
    ensures Times(a, Times(b, c)) == Times(Times(a, b), c)
    ensures Times(a, b + c) == Times(a, b) + Times(a, c)
    ensures Times(a, b - c) == Times(a, b) - Times(a, c)
    ensures Times(a, 0.0) == 0.0 && Times(a, 1.0) == a && Times(a, -1.0) == -a
  {
  }

  /** A named quotient; zero where the source never divides. */
  function Over(a: real, b: real): real { if b == 0.0 then 0.0 else a / b }

  lemma OverLaws(a: real, b: real)
    requires b != 0.0
    ensures Times(Over(a, b), b) == a && Times(b, Over(a, b)) == a
  {
  }

  lemma OverUnique(q: real, a: real, b: real)
    requires b != 0.0 && Times(q, b) == a
    ensures q == Over(a, b)
  {
    assert (q * b) / b == q;
  }

  lemma TimesPositive(a: real, b: real)
    requires a > 0.0
    ensures b > 0.0 <==> Times(a, b) > 0.0
    ensures b == 0.0 <==> Times(a, b) == 0.0
  {
    if b > 0.0 {
      assert a * b > 0.0;
    } else if b < 0.0 {
      assert a * (-b) > 0.0;
      assert a * b == -(a * (-b));
    }
  }

  lemma SquareSign(a: real)
    ensures Times(a, a) >= 0.0 && (a != 0.0 <==> Times(a, a) > 0.0)
  {
    if a < 0.0 {
      TimesPositive(-a, -a);
      assert Times(-a, -a) == Times(a, a);
    } else if a > 0.0 {
      TimesPositive(a, a);
    }
  }

  lemma {:induction false} SumScale(n: nat, a: real, f: int -> real, g: int -> real)
    requires forall i | 0 <= i < n :: g(i) == Times(a, f(i))
    ensures Sum(n, g) == Times(a, Sum(n, f))
  {
    hide Times;
    TimesLaws(a, 0.0, 0.0);
    if n > 0 {
      SumScale(n - 1, a, f, g);
      TimesLaws(a, Sum(n - 1, f), f(n - 1));
    }
  }

  /** Zeros past `m` add nothing. */
  lemma {:induction false} SumTail(n: nat, m: nat, f: int -> real)
    requires m <= n && forall i | m <= i < n :: f(i) == 0.0
    ensures Sum(n, f) == Sum(m, f)
  {
    if m < n { SumTail(n - 1, m, f); }
  }

  lemma {:induction false} SumSingle(n: nat, k: nat, f: int -> real)
    requires k < n && forall i | 0 <= i < n && i != k :: f(i) == 0.0
    ensures Sum(n, f) == f(k)
  {
    SumTail(n, k + 1, f);
    SumTail(k, 0, f);
  }

  lemma {:induction false} SumNonnegative(n: nat, f: int -> real)
    requires forall i | 0 <= i < n :: f(i) >= 0.0
    ensures Sum(n, f) >= 0.0
  {
    if n > 0 { SumNonnegative(n - 1, f); }
  }

  /** Summing by rows or by columns is the same. */
  lemma {:induction false} SumSwap(n: nat, m: nat, h: (int, int) -> real, row: int -> real, column: int -> real)
    requires forall i | 0 <= i < n :: row(i) == Sum(m, j => h(i, j))
    requires forall j | 0 <= j < m :: column(j) == Sum(n, i => h(i, j))
    ensures Sum(n, row) == Sum(m, column)
  {
    if n == 0 {
      SumTail(m, 0, column);
    } else {
      var shorter := (j: int) => Sum(n - 1, (i: int) => h(i, j));
      SumSwap(n - 1, m, h, row, shorter);
      var lastRow := (j: int) => h(n - 1, j);
      SumCongruent(m, lastRow, j => h(n - 1, j));
      forall j | 0 <= j < m ensures column(j) == shorter(j) + lastRow(j) {
        var f := (i: int) => h(i, j);
        assert Sum(n, f) == Sum(n - 1, f) + f(n - 1);
      }
      SumAdd(m, shorter, lastRow, column);
    }
  }
}
