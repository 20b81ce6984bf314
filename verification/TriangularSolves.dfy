/**
 The triangular solves and the inverse they give (src/compute/scalar-gaussian.ts).
 */
module TriangularSolves {
  import opened RealSums
  import opened LeastSquares
  import opened Factorization

  /** `y` solves the lower triangle for the right-hand side, and `x` solves its transpose for `y`. */
  ghost predicate Halfway(l: Matrix, rhs: Vector, y: Vector, x: Vector, n: nat) {
    && |rhs| == |y| == |x| == n
    && (forall i | 0 <= i < n :: RowTimes(l, y, i, n) == rhs[i])
    && (forall i | 0 <= i < n :: ColumnTimes(l, x, i, n) == y[i])
  }

  method SolveCholesky(l: Matrix, rhs: Vector, n: nat) returns (x: Vector)
    requires Square(l, n) && |rhs| == n
    requires forall i, j :: i < j ==> At(l, i, j) == 0.0
    requires forall i | 0 <= i < n :: At(l, i, i) > 0.0
    ensures |x| == n
    ensures exists y: Vector :: Halfway(l, rhs, y, x, n)
  {
    var result := new real[n](i => 0.0);
    SubstituteForward(l, rhs, n, result);
    ghost var y := result[..];
    SubstituteBackward(l, n, result);
    assert Halfway(l, rhs, y, result[..], n);
    return result[..];
  }

  method SubstituteForward(l: Matrix, rhs: Vector, n: nat, result: array<real>)
    requires Square(l, n) && |rhs| == n && result.Length == n
    requires forall i, j :: i < j ==> At(l, i, j) == 0.0
    requires forall i | 0 <= i < n :: At(l, i, i) > 0.0
    modifies result
    ensures forall i | 0 <= i < n :: RowTimes(l, result[..], i, n) == rhs[i]
  {
    hide Times, RowTimes;
    for row := 0 to n
      invariant forall i | 0 <= i < row :: RowTimes(l, result[..], i, n) == rhs[i]
    {
      ghost var x := result[..];
      ghost var known := (k: int) => if 0 <= k < row then Times(At(l, row, k), V(x, k)) else 0.0;
      var value := rhs[row];
      for column := 0 to row
        invariant result[..] == x && value == rhs[row] - Sum(column, known)
      {
        value := value - Times(l[row][column], result[column]);
      }
      SumTail(n, row, known);
      result[row] := Over(value, l[row][row]);
      ForwardEntry(l, rhs, n, x, result[..], row, known);
    }
  }

  lemma ForwardEntry(l: Matrix, rhs: Vector, n: nat, x: Vector, x': Vector, row: nat, known: int -> real)
    requires Square(l, n) && |rhs| == |x| == |x'| == n && row < n
    requires forall i, j :: i < j ==> At(l, i, j) == 0.0
    requires forall i | 0 <= i < n :: At(l, i, i) > 0.0
    requires forall i | 0 <= i < row :: RowTimes(l, x, i, n) == rhs[i]
    requires forall k | 0 <= k < n && k != row :: x'[k] == x[k]
    requires forall k | 0 <= k < n :: known(k) == if k < row then Times(At(l, row, k), V(x, k)) else 0.0
    requires x'[row] == Over(rhs[row] - Sum(n, known), At(l, row, row))
    ensures forall i | 0 <= i <= row :: RowTimes(l, x', i, n) == rhs[i]
  {
    hide Times;
    forall i | 0 <= i < row ensures RowTimes(l, x', i, n) == rhs[i] {
      var before, after := (k: int) => Times(At(l, i, k), V(x, k)), (k: int) => Times(At(l, i, k), V(x', k));
      TimesZero(V(x, row));
      TimesZero(V(x', row));
      SumCongruent(n, before, after);
    }
    forall k | row < k < n ensures known(k) == Times(At(l, row, k), V(x', k)) { TimesZero(V(x', k)); }
    var coefficient := (k: int) => At(l, row, k);
    BalanceEntry(n, row, coefficient, x, x', known, rhs[row]);
    SumCongruent(n, k => Times(coefficient(k), V(x', k)), k => Times(At(l, row, k), V(x', k)));
  }

  method SubstituteBackward(l: Matrix, n: nat, result: array<real>)
    requires Square(l, n) && result.Length == n
    requires forall i, j :: i < j ==> At(l, i, j) == 0.0
    requires forall i | 0 <= i < n :: At(l, i, i) > 0.0
    modifies result
    ensures forall i | 0 <= i < n :: ColumnTimes(l, result[..], i, n) == old(result[..])[i]
  {
    hide Times, ColumnTimes;
    ghost var y := result[..];
    for row := n downto 0
      invariant forall i | row <= i < n :: ColumnTimes(l, result[..], i, n) == y[i]
      invariant forall i | 0 <= i < row :: result[i] == y[i]
    {
      ghost var x := result[..];
      ghost var known := (k: int) => if row < k < n then Times(At(l, k, row), V(x, k)) else 0.0;
      var value := result[row];
      SumTail(row + 1, 0, known);
      for column := row + 1 to n
        invariant result[..] == x && value == y[row] - Sum(column, known)
      {
        value := value - Times(l[column][row], result[column]);
      }
      result[row] := Over(value, l[row][row]);
      BackwardEntry(l, y, n, x, result[..], row, known);
    }
  }

  lemma BackwardEntry(l: Matrix, y: Vector, n: nat, x: Vector, x': Vector, row: nat, known: int -> real)
    requires Square(l, n) && |y| == |x| == |x'| == n && row < n
    requires forall i, j :: i < j ==> At(l, i, j) == 0.0
    requires forall i | 0 <= i < n :: At(l, i, i) > 0.0
    requires forall i | row < i < n :: ColumnTimes(l, x, i, n) == y[i]
    requires forall k | 0 <= k < n && k != row :: x'[k] == x[k]
    requires forall k | 0 <= k < n :: known(k) == if row < k then Times(At(l, k, row), V(x, k)) else 0.0
    requires x'[row] == Over(y[row] - Sum(n, known), At(l, row, row))
    ensures forall i | row <= i < n :: ColumnTimes(l, x', i, n) == y[i]
  {
    hide Times;
    forall i | row < i < n ensures ColumnTimes(l, x', i, n) == y[i] {
      var before, after := (k: int) => Times(At(l, k, i), V(x, k)), (k: int) => Times(At(l, k, i), V(x', k));
      TimesZero(V(x, row));
      TimesZero(V(x', row));
      SumCongruent(n, before, after);
    }
    forall k | 0 <= k < row ensures known(k) == Times(At(l, k, row), V(x', k)) { TimesZero(V(x', k)); }
    var coefficient := (k: int) => At(l, k, row);
    BalanceEntry(n, row, coefficient, x, x', known, y[row]);
    SumCongruent(n, k => Times(coefficient(k), V(x', k)), k => Times(At(l, k, row), V(x', k)));
  }

  /** The two triangular solves together solve the matrix. */
  lemma FactorSolves(m: Matrix, l: Matrix, rhs: Vector, y: Vector, x: Vector, n: nat, i: int)
    requires Symmetric(m, n) && Factors(m, l, n) && Halfway(l, rhs, y, x, n) && 0 <= i < n
    ensures RowTimes(m, x, i, n) == rhs[i]
  {
    hide Times;
    var h := (j: int, k: int) => Times(At(l, i, k), Times(At(l, j, k), V(x, j)));
    var row := (j: int) => Times(At(m, i, j), V(x, j));
    var column := (k: int) => Times(At(l, i, k), V(y, k));
    forall j | 0 <= j < n ensures row(j) == Sum(n, k => h(j, k)) {
      var products := (k: int) => Times(At(l, i, k), At(l, j, k));
      RowProductCommutes(l, i, j, n);
      assert Sum(n, products) == At(m, i, j);
      var scaled := (k: int) => h(j, k);
      forall k | 0 <= k < n ensures scaled(k) == Times(V(x, j), products(k)) {
        TimesLaws(At(l, i, k), At(l, j, k), V(x, j));
        TimesLaws(V(x, j), products(k), 0.0);
      }
      SumScale(n, V(x, j), products, scaled);
      TimesLaws(V(x, j), At(m, i, j), 0.0);
      SumCongruent(n, scaled, k => h(j, k));
    }
    forall k | 0 <= k < n ensures column(k) == Sum(n, j => h(j, k)) {
      var inner := (j: int) => Times(At(l, j, k), V(x, j));
      assert Sum(n, inner) == ColumnTimes(l, x, k, n);
      SumScale(n, At(l, i, k), inner, j => h(j, k));
    }
    SumSwap(n, n, h, row, column);
    SumCongruent(n, row, k => Times(At(m, i, k), V(x, k)));
  }

  /** Entry (i, j) of a product of two matrices. */
  ghost function Product(a: Matrix, b: Matrix, i: int, j: int, n: nat): real {
    Sum(n, k => Times(At(a, i, k), At(b, k, j)))
  }

  function Kronecker(i: int, j: int): real { if i == j then 1.0 else 0.0 }

  ghost predicate Inverse(m: Matrix, x: Matrix, n: nat) {
    Square(x, n) && forall i, j | 0 <= i < n && 0 <= j < n :: Product(m, x, i, j, n) == Kronecker(i, j)
  }

  /** Two inverses of a symmetric matrix are each other's transpose: the inverse is unique and symmetric. */
  lemma InversesTranspose(m: Matrix, x: Matrix, z: Matrix, n: nat, i: int, j: int)
    requires Symmetric(m, n) && Inverse(m, x, n) && Inverse(m, z, n) && 0 <= i < n && 0 <= j < n
    ensures At(z, i, j) == At(x, j, i)
  {
    hide Times;
    var h := (k: int, q: int) => Times(At(x, k, i), Times(At(m, k, q), At(z, q, j)));
    var row := (k: int) => Times(At(x, k, i), Kronecker(k, j));
    var column := (q: int) => Times(Kronecker(q, i), At(z, q, j));
    forall k | 0 <= k < n ensures row(k) == Sum(n, q => h(k, q)) {
      var inner := (q: int) => Times(At(m, k, q), At(z, q, j));
      assert Sum(n, inner) == Product(m, z, k, j, n);
      SumScale(n, At(x, k, i), inner, q => h(k, q));
    }
    forall q | 0 <= q < n ensures column(q) == Sum(n, k => h(k, q)) {
      var inner := (k: int) => Times(At(m, q, k), At(x, k, i));
      assert Sum(n, inner) == Product(m, x, q, i, n);
      forall k | 0 <= k < n ensures h(k, q) == Times(At(z, q, j), inner(k)) {
        TimesLaws(At(x, k, i), At(m, k, q), At(z, q, j));
        TimesLaws(At(x, k, i), At(m, q, k), 0.0);
        TimesLaws(At(z, q, j), inner(k), 0.0);
      }
      SumScale(n, At(z, q, j), inner, k => h(k, q));
      TimesLaws(At(z, q, j), Kronecker(q, i), 0.0);
    }
    SumSwap(n, n, h, row, column);
    forall k | 0 <= k < n && k != j ensures row(k) == 0.0 { TimesZero(At(x, k, i)); }
    forall q | 0 <= q < n && q != i ensures column(q) == 0.0 { TimesZero(At(z, q, j)); }
    SumSingle(n, j, row);
    SumSingle(n, i, column);
    TimesLaws(At(x, j, i), 0.0, 0.0);
    TimesLaws(At(z, i, j), 1.0, 0.0);
  }

  lemma InverseUnique(m: Matrix, x: Matrix, z: Matrix, n: nat)
    requires Symmetric(m, n) && Inverse(m, x, n) && Inverse(m, z, n)
    ensures x == z && forall i, j | 0 <= i < n && 0 <= j < n :: At(x, i, j) == At(x, j, i)
  {
    forall i, j | 0 <= i < n && 0 <= j < n ensures At(z, i, j) == At(x, i, j) == At(x, j, i) {
      InversesTranspose(m, x, z, n, i, j);
      InversesTranspose(m, x, x, n, i, j);
    }
    forall i | 0 <= i < n ensures x[i] == z[i] {
      forall j | 0 <= j < n ensures x[i][j] == z[i][j] { assert At(z, i, j) == At(x, i, j); }
    }
  }

  /** Column by column, the inverse of the factored matrix. */
  method Invert(ghost m: Matrix, l: Matrix, n: nat) returns (x: Matrix)
    requires Symmetric(m, n) && Factors(m, l, n)
    ensures Inverse(m, x, n)
  {
    hide Times, Factors, RowTimes, Product, Symmetric;
    FactorsTriangular(m, l, n);
    var inverse := new real[n, n]((i, j) => 0.0);
    for column := 0 to n
      invariant forall i, j | 0 <= i < n && 0 <= j < column :: Product(m, Rows(inverse), i, j, n) == Kronecker(i, j)
    {
      var basis := seq(n, i => Kronecker(i, column));
      var solution := SolveCholesky(l, basis, n);
      ghost var y :| Halfway(l, basis, y, solution, n);
      forall i | 0 <= i < n ensures RowTimes(m, solution, i, n) == Kronecker(i, column) {
        FactorSolves(m, l, basis, y, solution, n, i);
      }
      ghost var earlier := Rows(inverse);
      for row := 0 to n
        invariant forall i, j | 0 <= i < n && 0 <= j < n ::
          inverse[i, j] == if j == column && i < row then solution[i] else earlier[i][j]
      {
        inverse[row, column] := solution[row];
      }
      forall i, j | 0 <= i < n && 0 <= j < column + 1 ensures Product(m, Rows(inverse), i, j, n) == Kronecker(i, j) {
        if j < column {
          ProductColumnSame(m, earlier, Rows(inverse), i, j, n);
        } else {
          ProductColumn(m, Rows(inverse), solution, i, j, n);
        }
      }
    }
    return Rows(inverse);
  }

  lemma FactorsTriangular(m: Matrix, l: Matrix, n: nat)
    requires Factors(m, l, n)
    ensures Square(l, n)
    ensures forall i, j :: i < j ==> At(l, i, j) == 0.0
    ensures forall i | 0 <= i < n :: At(l, i, i) > 0.0
  {
  }

  lemma ProductColumnSame(m: Matrix, a: Matrix, b: Matrix, i: int, j: int, n: nat)
    requires forall k | 0 <= k < n :: At(a, k, j) == At(b, k, j)
    ensures Product(m, a, i, j, n) == Product(m, b, i, j, n)
  {
    SumCongruent(n, k => Times(At(m, i, k), At(a, k, j)), k => Times(At(m, i, k), At(b, k, j)));
  }

  lemma ProductColumn(m: Matrix, a: Matrix, x: Vector, i: int, j: int, n: nat)
    requires forall k | 0 <= k < n :: At(a, k, j) == V(x, k)
    ensures Product(m, a, i, j, n) == RowTimes(m, x, i, n)
  {
    SumCongruent(n, k => Times(At(m, i, k), At(a, k, j)), k => Times(At(m, i, k), V(x, k)));
  }
}
